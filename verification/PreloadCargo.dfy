/** All that one name's turn brings, to every context on the way: the names related to it travel with
    it, link by link, as far as it goes itself. */
module PreloadCargo {
  import opened Prelude
  import opened Tree
  import opened Modules
  import opened ModuleNet
  import opened ModuleSteps
  import opened Preloading
  import opened PreloadTurns
  import opened PreloadPaths

  /** The module is passed on as far as the link to `c`. */
  ghost predicate Goes(q: Net, n: Name, c: Id)
    requires Shape(q) && c in q.par
    decreases c
  {
    q.par[c] == 0 || (Goes(q, n, q.par[c]) && n !in q.links[c].sent)
  }

  function Stored(cache: map<Name, Tup>, ms: seq<Msg>): map<Name, Tup>
    decreases |ms|
  {
    if ms == [] then cache
    else Stored(if ms[0].Load? then cache[ms[0].tup.name := ms[0].tup] else cache, ms[1..])
  }

  /** What is sent on the link to `c`, from a state where nothing is under way. */
  ghost function Cargo(q: Net, n: Name, c: Id): seq<Msg>
    requires Shape(q) && c in q.par
    decreases c, 0
  {
    if !Goes(q, n, c) then []
    else if q.par[c] == 0 then Respond(q.links[c], q.lib, n).down
    else if n in CacheAfter(q, n, q.par[c]) then SendAll(q.links[c], CacheAfter(q, n, q.par[c]), n).down
    else []
  }

  ghost function CacheAfter(q: Net, n: Name, c: Id): map<Name, Tup>
    requires Shape(q) && c in q.par
    decreases c, 1
  {
    Stored(q.imps[c].cache, Cargo(q, n, c))
  }

  lemma {:induction false} StoredKeys(cache: map<Name, Tup>, ms: seq<Msg>)
    ensures Stored(cache, ms).Keys == cache.Keys + Loads(ms)
    decreases |ms|
  {
    if ms != [] {
      StoredKeys(if ms[0].Load? then cache[ms[0].tup.name := ms[0].tup] else cache, ms[1..]);
      assert ms == [ms[0]] + ms[1..];
      assert Loads(ms) == (if ms[0].Load? then {ms[0].tup.name} else {}) + Loads(ms[1..]);
    }
  }

  // ---- A context takes in what it is sent -------------------------------------------------------------

  /** `net'` is `net` after `c` has handled modules `ms`. */
  ghost predicate TookIn(net: Net, net': Net, c: Id, ms: seq<Msg>)
    requires Shape(net) && c in net.par
  {
    && Shape(net') && Idle(net') && net'.par == net.par && net'.lib == net.lib
    && net'.imps == net.imps[c := net.imps[c].(cache := Stored(net.imps[c].cache, ms))]
    && (forall x {:trigger net'.links[x]} | x in net.par && x != c :: net'.links[x] == net.links[x])
    && net.links[c].down == ms + net'.links[c].down
  }

  lemma {:induction false} TakeIn(net: Net, c: Id, ms: seq<Msg>, rest: seq<Msg>) returns (cs: seq<Id>)
    requires Shape(net) && Idle(net) && c in net.par && net.links[c].down == ms + rest && AllLoads(ms)
    ensures Possible(net, cs) && TookIn(net, Reached(net, cs), c, ms)
    decreases |ms|
  {
    if ms == [] {
      cs := [];
      assert ms + rest == rest;
      assert net.imps[c := net.imps[c]] == net.imps;
    } else {
      hide TookIn, Delivered, Idle, IsTree, LibOk, Possible, Reached;
      FirstIn(net, c, ms, rest);
      var net1 := Delivered(net, c);
      cs := TakeIn(net1, c, ms[1..], rest);
      TookFirst(net, net1, Reached(net1, cs), c, ms);
      hide Shape;
      assert ([c] + cs)[1..] == cs;
      FirstDelivery(net, [c] + cs);
      cs := [c] + cs;
    }
  }

  lemma FirstIn(net: Net, c: Id, ms: seq<Msg>, rest: seq<Msg>)
    requires Shape(net) && Idle(net) && c in net.par && net.links[c].down == ms + rest && AllLoads(ms) && ms != []
    ensures net.links[c].down != [] && net.links[c].down[0] == ms[0] && ms[0].Load? && AllLoads(ms[1..])
    ensures var net1 := Delivered(net, c);
            && Shape(net1) && Idle(net1) && net1.par == net.par && net1.lib == net.lib
            && net1.links == net.links[c := Tail(net.links[c])] && net1.links[c].down == ms[1..] + rest
            && net1.imps == net.imps[c := Learnt(net.imps[c], ms[0])]
  {
    ConcatTail(ms, rest);
    NextIsDelivered(net, c);
    DeliveredLoadLinks(net, c);
    hide Idle, IsTree, LibOk, Touched, Next, Enabled;
  }

  lemma TookFirst(net: Net, net1: Net, net2: Net, c: Id, ms: seq<Msg>)
    requires Shape(net) && Shape(net1) && c in net.par && ms != [] && net.links[c].down != []
    requires net.links[c].down[0] == ms[0] && ms[0].Load?
    requires net1.par == net.par && net1.lib == net.lib && net1.links == net.links[c := Tail(net.links[c])]
    requires net1.imps == net.imps[c := Learnt(net.imps[c], ms[0])]
    requires TookIn(net1, net2, c, ms[1..])
    ensures TookIn(net, net2, c, ms)
  {
    hide Idle, IsTree, LibOk;
    var down := net.links[c].down;
    assert down == [ms[0]] + down[1..] && ms == [ms[0]] + ms[1..];
    ConcatAssoc([ms[0]], ms[1..], net2.links[c].down);
    UpdateTwice(net.imps, c, net1.imps[c], net2.imps[c]);
  }

  // ---- One link after another ---------------------------------------------------------------------------

  ghost predicate Same(q: Net, net: Net) {
    Shape(q) && Shape(net) && net.par == q.par && net.lib == q.lib
  }

  /** Nothing is under way but on the link to `c`, and nothing has been further than that. */
  ghost predicate UpTo(q: Net, net: Net, c: Id)
    requires Same(q, net) && c in q.par
  {
    && (forall x {:trigger net.links[x]} | x in q.par && x != c :: net.links[x].down == [])
    && (forall x {:trigger net.links[x]} | x in q.par && !Below(q.par, x, c) :: net.links[x] == q.links[x])
    && (forall x {:trigger net.imps[x]} | x in q.par && !Below(q.par, x, c) :: net.imps[x] == q.imps[x])
  }

  /** The contexts above `c` have what they should. */
  ghost predicate Stocked(q: Net, net: Net, n: Name, c: Id)
    requires Same(q, net) && c in q.par
  {
    forall x {:trigger net.imps[x]} | x in q.par && x != c && Below(q.par, x, c) ::
      net.imps[x].cache == CacheAfter(q, n, x)
  }

  ghost predicate Loaded(q: Net, net: Net, c: Id, t: Id, n: Name) {
    && Same(q, net) && Inv(net) && Idle(net) && c in q.par && t in q.par && Below(q.par, c, t) && Goes(q, n, c)
    && UpTo(q, net, c) && Stocked(q, net, n, c)
    && net.imps[c] == q.imps[c] && AllLoads(Cargo(q, n, c))
    && net.links[c].down == Cargo(q, n, c) + if c == t then [] else [Fwd(t, n)]
  }

  /** The same once `c` has handled the modules. */
  ghost predicate Unloaded(q: Net, net: Net, c: Id, t: Id, n: Name) {
    && Same(q, net) && Inv(net) && Idle(net) && c in q.par && t in q.par && Below(q.par, c, t) && Goes(q, n, c)
    && UpTo(q, net, c) && Stocked(q, net, n, c)
    && net.imps[c].cache == CacheAfter(q, n, c)
    && net.links[c].down == if c == t then [] else [Fwd(t, n)]
  }

  lemma Unload(q: Net, net: Net, c: Id, t: Id, n: Name) returns (cs: seq<Id>)
    requires Loaded(q, net, c, t, n)
    ensures Possible(net, cs) && Unloaded(q, Reached(net, cs), c, t, n)
  {
    var rest := if c == t then [] else [Fwd(t, n)];
    cs := TakeIn(net, c, Cargo(q, n, c), rest);
    ReachedInv(net, cs);
    StillUpTo(q, net, Reached(net, cs), c, t, n, rest);
  }

  lemma StillUpTo(q: Net, net: Net, net': Net, c: Id, t: Id, n: Name, rest: seq<Msg>)
    requires Loaded(q, net, c, t, n) && TookIn(net, net', c, Cargo(q, n, c)) && Inv(net')
    requires rest == if c == t then [] else [Fwd(t, n)]
    ensures Unloaded(q, net', c, t, n)
  {
    hide Inv, Idle, IsTree, LibOk, Cargo, Goes, UpTo, Stocked;
    SameEnd(Cargo(q, n, c), rest, net'.links[c].down);
    SameUpTo(q, net, net', c, Cargo(q, n, c));
    SameStocked(q, net, net', n, c, Cargo(q, n, c));
  }

  lemma SameUpTo(q: Net, net: Net, net': Net, c: Id, ms: seq<Msg>)
    requires Same(q, net) && Same(q, net') && c in q.par && UpTo(q, net, c) && TookIn(net, net', c, ms)
    ensures UpTo(q, net', c)
  {
    BelowSelf(q.par, c);
    hide IsTree, LibOk, Idle, Below;
  }

  lemma SameStocked(q: Net, net: Net, net': Net, n: Name, c: Id, ms: seq<Msg>)
    requires Same(q, net) && Same(q, net') && c in q.par && Stocked(q, net, n, c) && TookIn(net, net', c, ms)
    ensures Stocked(q, net', n, c)
  {
    hide IsTree, LibOk, Idle, Below, CacheAfter;
  }

  lemma SameEnd(a: seq<Msg>, b: seq<Msg>, c: seq<Msg>)
    requires a + b == a + c
    ensures b == c
  {
    assert b == (a + b)[|a|..] && c == (a + c)[|a|..];
  }

  /** The FORWARD_MODULE is next at `c` and will be passed on to `d`. */
  ghost predicate Passing(q: Net, net: Net, c: Id, d: Id, t: Id, n: Name) {
    Unloaded(q, net, c, t, n) && c != t && d == Toward(q.par, c, t) && Goes(q, n, d) && Still(q)
  }

  /** What the next context is sent. */
  lemma NextCargo(q: Net, net: Net, c: Id, d: Id, t: Id, n: Name)
    requires Passing(q, net, c, d, t, n)
    ensures AllLoads(Cargo(q, n, d))
    ensures var l := Push(net.par, c, Fwd(t, n), net.imps[c].cache, d, net.links[d]);
            l.down == Cargo(q, n, d) + if d == t then [] else [Fwd(t, n)]
  {
    var cache := net.imps[c].cache;
    NotBelow(q.par, c, d);
    assert net.links[d] == q.links[d];
    NoneLeft(q, d);
    hide UpTo, Stocked, Still, Idle;
    HasIt(net, c, d, t, n);
    hide Inv;
    SendAllExtends(net.lib, q.links[d], cache, n);
    LoadsOnly(net.lib, q.links[d], SendAll(q.links[d], cache, n));
    assert Cargo(q, n, d) == SendAll(q.links[d], cache, n).down;
    hide SendAll, Cargo, Goes, Extends, AllLoads, IsTree, LibOk;
  }

  /** The FORWARD_MODULE has left `c`. */
  ghost predicate LeftAt(net: Net, net': Net, c: Id, d: Id) {
    && net'.imps == net.imps && c in net'.links && net'.links[c].down == []
    && forall x {:trigger net'.links[x]} | x in net.links && x != c && x != d ::
         x in net'.links && net'.links[x] == net.links[x]
  }

  lemma Passed(q: Net, net: Net, c: Id, d: Id, t: Id, n: Name)
    requires Passing(q, net, c, d, t, n)
    ensures Shape(net) && c in net.par && d in net.par && net.links[c].down != []
    ensures LeftAt(net, Delivered(net, c), c, d) && AllLoads(Cargo(q, n, d))
    ensures Delivered(net, c).links[d].down == Cargo(q, n, d) + if d == t then [] else [Fwd(t, n)]
  {
    hide Inv, Idle, UpTo, Stocked, Still, Goes, IsTree, LibOk, Cargo, CacheAfter, AllLoads;
    DeliveredFwdLinks(net, c, t, n);
    hide Delivered;
    NextCargo(q, net, c, d, t, n);
    hide Push;
  }

  lemma DeliveredOk(net: Net, x: Id)
    requires Inv(net) && Idle(net) && x in net.par && net.links[x].down != []
    ensures var net' := Delivered(net, x); Shape(net') && Inv(net') && Idle(net') && net'.par == net.par && net'.lib == net.lib
  {
    NextIsDelivered(net, x);
    StepKeeps(net, Arrive(x));
    hide Next, NodeOk, IsTree, LibOk, Idle;
  }

  /** The FORWARD_MODULE is passed on from `c` to `d`. */
  lemma GoesOn(q: Net, net: Net, c: Id, d: Id, t: Id, n: Name)
    requires Passing(q, net, c, d, t, n)
    ensures Shape(net) && c in net.par && net.links[c].down != [] && Loaded(q, Delivered(net, c), d, t, n)
  {
    hide Goes, Still, Inv, Idle, Cargo, CacheAfter, AllLoads, Delivered, Next, IsTree, LibOk;
    Passed(q, net, c, d, t, n);
    DeliveredOk(net, c);
    NotBelow(q.par, c, d);
    FurtherUpTo(q, net, Delivered(net, c), c, d, t, n);
    FurtherStocked(q, net, Delivered(net, c), c, d, t, n);
  }

  lemma NotBelow(par: map<Id, Id>, c: Id, d: Id)
    requires IsTree(par) && d in par && par[d] == c
    ensures !Below(par, d, c)
  {
    if Below(par, d, c) { BelowOrder(par, d, c); }
  }

  lemma HasIt(net: Net, c: Id, d: Id, t: Id, n: Name)
    requires Inv(net) && c in net.par && d in net.par && net.links[c].down == [Fwd(t, n)]
    requires n !in net.links[d].sent
    ensures n in net.imps[c].cache && CacheOk(net.lib, net.imps[c].cache)
  {
    assert NodeOk(net, c) && NodeOk(net, d);
    ForwarderHasModule(net, c, t, n);
  }

  lemma FurtherUpTo(q: Net, net: Net, net': Net, c: Id, d: Id, t: Id, n: Name)
    requires Unloaded(q, net, c, t, n) && c != t && d == Toward(q.par, c, t) && Same(q, net') && LeftAt(net, net', c, d)
    ensures UpTo(q, net', d)
  {
    hide Inv, Idle, LibOk, Goes, Stocked;
    BelowSelf(q.par, d);
    assert forall x | Below(q.par, x, c) :: Below(q.par, x, d);
  }

  lemma FurtherStocked(q: Net, net: Net, net': Net, c: Id, d: Id, t: Id, n: Name)
    requires Unloaded(q, net, c, t, n) && c != t && d == Toward(q.par, c, t) && Same(q, net') && LeftAt(net, net', c, d)
    ensures Stocked(q, net', n, d)
  {
    hide Inv, Idle, LibOk, Goes, UpTo;
    assert forall x | x != d && Below(q.par, x, d) :: Below(q.par, x, c);
  }

  // ---- The end ------------------------------------------------------------------------------------------

  /** Every context on the way has what it should, and the others what they had. */
  ghost predicate Brought(q: Net, net: Net, t: Id, n: Name) {
    && Same(q, net) && t in q.par
    && forall x {:trigger net.imps[x]} | x in q.par ::
         net.imps[x].cache == if Below(q.par, x, t) then CacheAfter(q, n, x) else q.imps[x].cache
  }

  lemma OnTheWay(par: map<Id, Id>, c: Id, t: Id, x: Id)
    requires IsTree(par) && Below(par, c, t) && c != t && Below(par, x, t) && !Below(par, x, c)
    ensures Below(par, Toward(par, c, t), x)
  {
    AncestorsComparable(par, c, x, t);
    BelowSelf(par, c);
    var d := Toward(par, c, x);
    BelowTrans(par, d, x, t);
    TowardUnique(par, c, d, t);
  }

  lemma {:induction false} NotFurther(q: Net, n: Name, d: Id, x: Id)
    requires Shape(q) && d in q.par && x in q.par && Below(q.par, d, x) && !Goes(q, n, d)
    ensures !Goes(q, n, x) && CacheAfter(q, n, x) == q.imps[x].cache
    decreases x
  {
    if x != d { NotFurther(q, n, d, q.par[x]); }
  }

  lemma Ends(q: Net, net: Net, net': Net, c: Id, t: Id, n: Name)
    requires Unloaded(q, net, c, t, n) && Same(q, net') && net'.imps == net.imps
    requires c == t || !Goes(q, n, Toward(q.par, c, t))
    ensures Brought(q, net', t, n)
  {
    hide CacheAfter, Goes, Inv, Idle, IsTree, LibOk;
    forall x | x in q.par
      ensures net.imps[x].cache == if Below(q.par, x, t) then CacheAfter(q, n, x) else q.imps[x].cache
    {
      if !Below(q.par, x, t) {
        if Below(q.par, x, c) { BelowTrans(q.par, x, c, t); }
      } else if !Below(q.par, x, c) {
        OnTheWay(q.par, c, t, x);
        NotFurther(q, n, Toward(q.par, c, t), x);
      }
    }
  }

  /** The FORWARD_MODULE is next at `c` and will not be passed on to `d`. */
  ghost predicate Stopping(q: Net, net: Net, c: Id, d: Id, t: Id, n: Name) {
    Unloaded(q, net, c, t, n) && c != t && d == Toward(q.par, c, t) && !Goes(q, n, d)
  }

  lemma StoppedLinks(q: Net, net: Net, c: Id, d: Id, t: Id, n: Name)
    requires Stopping(q, net, c, d, t, n)
    ensures Shape(net) && c in net.par && net.links[c].down != []
    ensures LeftAt(net, Delivered(net, c), c, c) && net.links[d].down == []
  {
    hide Inv, Idle, Stocked, IsTree, LibOk, Cargo, CacheAfter, AllLoads;
    NotBelow(q.par, c, d);
    assert n in net.links[d].sent;
    DeliveredFwdLinks(net, c, t, n);
    hide Delivered;
    assert Push(net.par, c, Fwd(t, n), net.imps[c].cache, d, net.links[d]) == net.links[d];
    hide Push, Goes;
  }

  lemma Stays(q: Net, net: Net, c: Id, d: Id, t: Id, n: Name)
    requires Stopping(q, net, c, d, t, n)
    ensures Shape(net) && c in net.par && net.links[c].down != []
    ensures var net' := Delivered(net, c); net'.imps == net.imps && Same(q, net') && Still(net')
  {
    hide Goes, Inv, Idle, Cargo, CacheAfter, Delivered, Next, IsTree, LibOk, Stocked, Below;
    StoppedLinks(q, net, c, d, t, n);
    DeliveredOk(net, c);
    var net' := Delivered(net, c);
    forall x | x in q.par ensures net'.links[x].down == [] { }
  }

  lemma DeliverThen(net: Net, c: Id, more: seq<Id>, end: Net)
    requires Shape(net) && Idle(net) && c in net.par && net.links[c].down != [] && Settles(Delivered(net, c), more, end)
    ensures Settles(net, [c] + more, end)
  {
    assert ([c] + more)[1..] == more;
    FirstDelivery(net, [c] + more);
    hide Delivered, Idle, Shape, Still;
  }

  lemma SettlesLater(net: Net, cs: seq<Id>, more: seq<Id>, end: Net)
    requires Possible(net, cs) && Settles(Reached(net, cs), more, end)
    ensures Settles(net, cs + more, end)
  {
    ReachedAppend(net, cs, more);
    hide Shape, Still;
  }

  lemma SettledAt(q: Net, net: Net, t: Id, n: Name)
    requires Unloaded(q, net, t, t, n)
    ensures Settles(net, [], net)
  {
    hide Inv, IsTree, LibOk;
  }

  /** The rest of the way. */
  lemma {:induction false} Onward(q: Net, net: Net, c: Id, t: Id, n: Name) returns (cs: seq<Id>, end: Net)
    requires Loaded(q, net, c, t, n) && Still(q) && c <= t
    ensures Settles(net, cs, end) && Brought(q, end, t, n)
    decreases t - c, 1
  {
    var unload := Unload(q, net, c, t, n);
    hide Loaded, Unloaded, Settles, Brought, Still;
    cs, end := FromUnloaded(q, Reached(net, unload), c, t, n);
    SettlesLater(net, unload, cs, end);
    cs := unload + cs;
  }

  lemma {:induction false} FromUnloaded(q: Net, net: Net, c: Id, t: Id, n: Name) returns (cs: seq<Id>, end: Net)
    requires Unloaded(q, net, c, t, n) && Still(q) && c <= t
    ensures Settles(net, cs, end) && Brought(q, end, t, n)
    decreases t - c, 0
  {
    hide Settles, Brought, Still, Loaded, UpTo, Stocked, Inv, Idle, Delivered, IsTree, LibOk, Below;
    if c == t {
      Ends(q, net, net, c, t, n);
      SettledAt(q, net, t, n);
      cs, end := [], net;
    } else {
      var d := Toward(q.par, c, t);
      if Goes(q, n, d) {
        GoesOn(q, net, c, d, t, n);
        cs, end := Onward(q, Delivered(net, c), d, t, n);
      } else {
        Stays(q, net, c, d, t, n);
        end := Delivered(net, c);
        Ends(q, net, end, c, t, n);
        cs := [];
        StillSettles(end);
      }
      DeliverThen(net, c, cs, end);
      cs := [c] + cs;
    }
  }

  lemma StillSettles(net: Net)
    requires Shape(net) && Still(net)
    ensures Settles(net, [], net)
  {
    hide Shape, Still;
  }

  // ---- The theorem --------------------------------------------------------------------------------------

  lemma OnlyFirst(par: map<Id, Id>, c: Id, x: Id)
    requires 0 !in par && c in par && par[c] == 0 && x in par && Below(par, x, c)
    ensures x == c
  {
  }

  lemma FirstCargo(q: Net, t: Id, n: Name)
    requires Inv(q) && Still(q) && t in q.par && Below(q.par, 0, t)
    ensures var c := Toward(q.par, 0, t);
            && AllLoads(Cargo(q, n, c)) && Goes(q, n, c)
            && FirstLink(q.links[c], q.lib, c == t, t, n).down == Cargo(q, n, c) + if c == t then [] else [Fwd(t, n)]
  {
    var c := Toward(q.par, 0, t);
    NoneLeft(q, c);
    RespondExtends(q.links[c], q.lib, n);
    LoadsOnly(q.lib, q.links[c], Respond(q.links[c], q.lib, n));
    hide Respond, Extends, Still, NodeOk;
  }

  lemma FirstIsLoaded(q: Net, net: Net, c: Id, l: Link, t: Id, n: Name)
    requires Shape(q) && Still(q) && t in q.par && c in q.par && q.par[c] == 0 && Below(q.par, c, t)
    requires Same(q, net) && Inv(net) && Idle(net) && net.imps == q.imps && net.links == q.links[c := l]
    requires AllLoads(Cargo(q, n, c)) && Goes(q, n, c) && l.down == Cargo(q, n, c) + if c == t then [] else [Fwd(t, n)]
    ensures Loaded(q, net, c, t, n)
  {
    hide Inv, Cargo, CacheAfter, Goes, IsTree, LibOk, AllLoads, Still, Idle, Below;
    forall x | x in q.par ensures q.links[x].down == [] { NoneLeft(q, x); }
    forall x | x in q.par && Below(q.par, x, c) ensures x == c { OnlyFirst(q.par, c, x); }
    BelowSelf(q.par, c);
  }

  ghost predicate Ready(q: Net, t: Id, c: Id) {
    Shape(q) && Inv(q) && Idle(q) && Still(q) && t in q.par && Below(q.par, 0, t) && c == Toward(q.par, 0, t)
  }

  lemma Starts(q: Net, t: Id, n: Name, c: Id, net: Net)
    requires Ready(q, t, c) && net == Next(q, Preload(t, [n]))
    ensures Loaded(q, net, c, t, n)
  {
    hide Inv, Idle, FirstLink, Next, Still, Cargo, CacheAfter, Goes, IsTree, LibOk, Loaded, AllLoads;
    AfterPreload(q, t, [n]);
    FirstCargo(q, t, n);
    PreloadOne(q, t, n);
    FirstIsLoaded(q, net, c, FirstLink(q.links[c], q.lib, c == t, t, n), t, n);
  }

  /** A module forwarded when nothing is under way leaves the caches on the way, and all the others, as
      computed here link by link, however the messages are delivered. */
  lemma TurnBrings(q: Net, cs: seq<Id>, end: Net, t: Id, n: Name)
    requires Forwards(q, t, [n], cs, end) && Still(q)
    ensures Brought(q, end, t, n)
  {
    hide Inv, Idle, Still, Next, Settles, Brought, Loaded, IsTree, LibOk;
    RootAbove(q.par, t);
    AfterPreload(q, t, [n]);
    var net, c := Next(q, Preload(t, [n])), Toward(q.par, 0, t);
    Starts(q, t, n, c, net);
    var ys, other := Onward(q, net, c, t, n);
    EndsAlike(net, cs, ys, end, other);
  }
}
