/** What becomes of a module that the master forwards to a context before it asks.  Every context on
    the way passes it on, unless it has sent it to the next one already: then the rest of the way is
    not told either. */
module Preloading {
  import opened Prelude
  import opened Tree
  import opened Modules
  import opened ModuleNet

  /** Nobody waits for a module. */
  ghost predicate Idle(net: Net)
    requires Shape(net)
  {
    forall c {:trigger net.par[c]} | c in net.par :: net.up[c] == [] && net.imps[c].callbacks == map[]
  }

  /** And nothing is under way. */
  ghost predicate Still(net: Net)
    requires Shape(net)
  {
    Idle(net) && forall c {:trigger net.par[c]} | c in net.par :: net.links[c].down == []
  }

  // ---- One delivery -----------------------------------------------------------------------------------

  /** What a message that `x` handles does to the link to its child `d`. */
  ghost function Push(par: map<Id, Id>, x: Id, m: Msg, cache: map<Name, Tup>, d: Id, l: Link): Link
    requires IsTree(par)
  {
    if m.Load? || m.target == x || !Below(par, x, m.target) || Toward(par, x, m.target) != d
       || m.name in l.sent || m.name !in cache
    then l
    else
      var l1 := SendAll(l, cache, m.name);
      if d == m.target then l1 else l1.(down := l1.down + [m])
  }

  function Learnt(imp: Importer, m: Msg): Importer {
    if m.Load? then imp.(cache := imp.cache[m.tup.name := m.tup]) else imp
  }

  /** What a delivery to `x` does to the link to `z`. */
  ghost function Touched(net: Net, x: Id, z: Id): Link
    requires Shape(net) && x in net.par && z in net.par && net.links[x].down != []
  {
    var m, l := net.links[x].down[0], net.links[z];
    if z == x then Tail(l)
    else if net.par[z] == x then Push(net.par, x, m, net.imps[x].cache, z, l)
    else l
  }

  ghost function Delivered(net: Net, x: Id): Net
    requires Shape(net) && x in net.par && net.links[x].down != []
  {
    net.(imps := net.imps[x := Learnt(net.imps[x], net.links[x].down[0])],
         links := map z | z in net.par :: Touched(net, x, z))
  }

  lemma LoadedIdle(net: Net, x: Id, tup: Tup)
    requires Shape(net) && Idle(net) && x in net.par
    ensures OnLoad(net.imps[x], tup) == Learnt(net.imps[x], Load(tup)) && Popped(net.imps[x], tup.name) == []
  {
    var imp := net.imps[x];
    assert imp.callbacks == map[] by { assert net.par[x] == net.par[x]; }
    assert imp.callbacks - {tup.name} == imp.callbacks && imp.ran + [] == imp.ran;
  }

  lemma LoadNext(net: Net, x: Id, tup: Tup)
    requires Shape(net) && Idle(net) && x in net.par && net.links[x].down != [] && net.links[x].down[0] == Load(tup)
    ensures Next(net, Arrive(x))
         == net.(imps := net.imps[x := Learnt(net.imps[x], Load(tup))], links := net.links[x := Tail(net.links[x])])
  {
    LoadedIdle(net, x, tup);
    var imp', links' := OnLoad(net.imps[x], tup), net.links[x := Tail(net.links[x])];
    assert RunAll(links', imp', tup.name, []) == links';
    hide Idle, OnLoad, Learnt, Popped, IsTree, LibOk;
  }

  lemma DeliveredLoad(net: Net, x: Id, tup: Tup)
    requires Shape(net) && Idle(net) && x in net.par && net.links[x].down != [] && net.links[x].down[0] == Load(tup)
    ensures Next(net, Arrive(x)) == Delivered(net, x)
  {
    LoadNext(net, x, tup);
    var links' := net.links[x := Tail(net.links[x])];
    hide Idle, Next, Enabled, Learnt, Tail, IsTree, LibOk;
    forall z | z in net.par ensures Touched(net, x, z) == links'[z] { }
    SameMap(net.par.Keys, Delivered(net, x).links, links');
  }

  lemma DeliveredFwd(net: Net, x: Id, t: Id, n: Name)
    requires Shape(net) && x in net.par && net.links[x].down != [] && net.links[x].down[0] == Fwd(t, n)
    ensures Next(net, Arrive(x)) == Delivered(net, x)
  {
    var a, b := FwdArrives(net, x, t, n), Delivered(net, x);
    assert a.imps == b.imps;
    assert a.links.Keys == b.links.Keys;
    forall z | z in net.par ensures a.links[z] == b.links[z] { }
    assert a.links == b.links;
  }

  lemma NextIsDelivered(net: Net, x: Id)
    requires Shape(net) && Idle(net) && x in net.par && net.links[x].down != []
    ensures Next(net, Arrive(x)) == Delivered(net, x) && Shape(Delivered(net, x)) && Idle(Delivered(net, x))
  {
    match net.links[x].down[0]
    case Load(tup) => DeliveredLoad(net, x, tup);
    case Fwd(t, n) => DeliveredFwd(net, x, t, n);
  }

  // ---- Deliveries in a different order ----------------------------------------------------------------

  lemma SendOneTail(l: Link, tup: Tup)
    requires l.down != []
    ensures SendOne(l, tup).down != [] && SendOne(Tail(l), tup) == Tail(SendOne(l, tup))
  {
    assert (l.down + [Load(tup)])[1..] == l.down[1..] + [Load(tup)];
  }

  lemma {:induction false} SendRelatedTail(l: Link, cache: map<Name, Tup>, related: seq<Name>)
    requires l.down != []
    ensures SendRelated(l, cache, related).down != []
    ensures SendRelated(Tail(l), cache, related) == Tail(SendRelated(l, cache, related))
    decreases |related|
  {
    if related != [] {
      if related[0] in cache { SendOneTail(l, cache[related[0]]); }
      SendRelatedTail(if related[0] in cache then SendOne(l, cache[related[0]]) else l, cache, related[1..]);
    }
  }

  /** Sending at one end of a queue and receiving at the other do not disturb each other. */
  lemma PushTail(par: map<Id, Id>, x: Id, m: Msg, cache: map<Name, Tup>, d: Id, l: Link)
    requires IsTree(par) && l.down != []
    ensures var l' := Push(par, x, m, cache, d, l);
            l'.down != [] && l'.down[0] == l.down[0] && Push(par, x, m, cache, d, Tail(l)) == Tail(l')
  {
    if !(m.Load? || m.target == x || !Below(par, x, m.target) || Toward(par, x, m.target) != d
         || m.name in l.sent || m.name !in cache) {
      var related := cache[m.name].related;
      SendRelatedTail(l, cache, related);
      SendOneTail(SendRelated(l, cache, related), cache[m.name]);
      var l1 := SendAll(l, cache, m.name);
      assert (l1.down + [m])[1..] == l1.down[1..] + [m];
      SendAllKeepsHead(l, cache, m.name);
    }
  }

  lemma SendOneKeepsHead(l: Link, tup: Tup)
    requires l.down != []
    ensures SendOne(l, tup).down != [] && SendOne(l, tup).down[0] == l.down[0]
  {
  }

  lemma {:induction false} SendRelatedKeepsHead(l: Link, cache: map<Name, Tup>, related: seq<Name>)
    requires l.down != []
    ensures SendRelated(l, cache, related).down != [] && SendRelated(l, cache, related).down[0] == l.down[0]
    decreases |related|
  {
    if related != [] {
      if related[0] in cache { SendOneKeepsHead(l, cache[related[0]]); }
      SendRelatedKeepsHead(if related[0] in cache then SendOne(l, cache[related[0]]) else l, cache, related[1..]);
    }
  }

  lemma SendAllKeepsHead(l: Link, cache: map<Name, Tup>, n: Name)
    requires l.down != [] && n in cache
    ensures SendAll(l, cache, n).down != [] && SendAll(l, cache, n).down[0] == l.down[0]
  {
    SendRelatedKeepsHead(l, cache, cache[n].related);
    SendOneKeepsHead(SendRelated(l, cache, cache[n].related), cache[n]);
  }

  /** A delivery elsewhere leaves the next message of `y` what it is, and does not change how `y`
      will handle it. */
  lemma StillNext(net: Net, x: Id, y: Id)
    requires Shape(net) && x in net.par && y in net.par && x != y
    requires net.links[x].down != [] && net.links[y].down != []
    ensures var net' := Delivered(net, x);
            net'.links[y].down != [] && net'.links[y].down[0] == net.links[y].down[0] && net'.imps[y] == net.imps[y]
  {
    PushTail(net.par, x, net.links[x].down[0], net.imps[x].cache, y, net.links[y]);
  }

  lemma Swap(net: Net, x: Id, y: Id)
    requires Shape(net) && Idle(net) && x in net.par && y in net.par && x != y
    requires net.links[x].down != [] && net.links[y].down != []
    ensures var nx, ny := Delivered(net, x), Delivered(net, y);
            && Shape(nx) && Shape(ny) && nx.links[y].down != [] && ny.links[x].down != []
            && Delivered(nx, y) == Delivered(ny, x)
  {
    NextIsDelivered(net, x);
    NextIsDelivered(net, y);
    StillNext(net, x, y);
    StillNext(net, y, x);
    hide Push, Idle, Tail, Learnt, Touched;
    SwapImps(net, x, y);
    SwapLinks(net, x, y);
  }

  lemma SameMap<V>(keys: set<Id>, a: map<Id, V>, b: map<Id, V>)
    requires a.Keys == keys == b.Keys && forall z | z in keys :: a[z] == b[z]
    ensures a == b
  {
  }

  lemma UpdateSwap<K, V>(m: map<K, V>, x: K, y: K, a: V, b: V)
    requires x != y
    ensures m[x := a][y := b] == m[y := b][x := a]
  {
  }

  lemma SwapImps(net: Net, x: Id, y: Id)
    requires Shape(net) && x in net.par && y in net.par && x != y
    requires net.links[x].down != [] && net.links[y].down != []
    requires var nx, ny := Delivered(net, x), Delivered(net, y);
             && Shape(nx) && Shape(ny) && nx.links[y].down != [] && ny.links[x].down != []
    ensures Delivered(Delivered(net, x), y).imps == Delivered(Delivered(net, y), x).imps
  {
    StillNext(net, x, y);
    StillNext(net, y, x);
    hide Touched, Learnt, Shape;
    UpdateSwap(net.imps, x, y, Learnt(net.imps[x], net.links[x].down[0]), Learnt(net.imps[y], net.links[y].down[0]));
  }

  lemma SwapLinks(net: Net, x: Id, y: Id)
    requires Shape(net) && Idle(net) && x in net.par && y in net.par && x != y
    requires net.links[x].down != [] && net.links[y].down != []
    requires var nx, ny := Delivered(net, x), Delivered(net, y);
             && Shape(nx) && Shape(ny) && nx.links[y].down != [] && ny.links[x].down != []
    ensures Delivered(Delivered(net, x), y).links == Delivered(Delivered(net, y), x).links
  {
    var a, b := Delivered(Delivered(net, x), y).links, Delivered(Delivered(net, y), x).links;
    hide Touched, Learnt, Idle, Shape;
    DeliveredKeys(net, x);
    DeliveredKeys(net, y);
    DeliveredKeys(Delivered(net, x), y);
    DeliveredKeys(Delivered(net, y), x);
    hide Delivered;
    forall z | z in net.par ensures a[z] == b[z] { SwapLink(net, x, y, z); }
    SameMap(net.par.Keys, a, b);
  }

  lemma SwapLink(net: Net, x: Id, y: Id, z: Id)
    requires Shape(net) && Idle(net) && x in net.par && y in net.par && x != y && z in net.par
    requires net.links[x].down != [] && net.links[y].down != []
    requires var nx, ny := Delivered(net, x), Delivered(net, y);
             && Shape(nx) && Shape(ny) && nx.links[y].down != [] && ny.links[x].down != []
    ensures Delivered(Delivered(net, x), y).links[z] == Delivered(Delivered(net, y), x).links[z]
  {
    StillNext(net, x, y);
    StillNext(net, y, x);
    var mx, my := net.links[x].down[0], net.links[y].down[0];
    if z == x && net.par[x] == y { PushTail(net.par, y, my, net.imps[y].cache, x, net.links[x]); }
    if z == y && net.par[y] == x { PushTail(net.par, x, mx, net.imps[x].cache, y, net.links[y]); }
    hide Push, Learnt, Tail, Idle;
  }

  // ---- Runs of deliveries -----------------------------------------------------------------------------

  /** The messages can be handled in this order, each context named handling its next one. */
  ghost predicate Possible(net: Net, cs: seq<Id>)
    decreases |cs|
  {
    Shape(net) &&
    (cs != [] ==> Enabled(net, Arrive(cs[0])) && Possible(Next(net, Arrive(cs[0])), cs[1..]))
  }

  ghost function Reached(net: Net, cs: seq<Id>): Net
    requires Possible(net, cs)
    decreases |cs|
  {
    if cs == [] then net else Reached(Next(net, Arrive(cs[0])), cs[1..])
  }

  lemma FirstDelivery(net: Net, cs: seq<Id>)
    requires Shape(net) && Idle(net) && cs != []
    ensures Possible(net, cs) <==>
              cs[0] in net.par && net.links[cs[0]].down != [] && Possible(Delivered(net, cs[0]), cs[1..])
    ensures Possible(net, cs) ==>
              && Shape(Delivered(net, cs[0])) && Idle(Delivered(net, cs[0]))
              && Next(net, Arrive(cs[0])) == Delivered(net, cs[0])
              && Reached(net, cs) == Reached(Delivered(net, cs[0]), cs[1..])
  {
    if cs[0] in net.par && net.links[cs[0]].down != [] { NextIsDelivered(net, cs[0]); }
  }

  lemma {:induction false} ReachedIdle(net: Net, cs: seq<Id>)
    requires Shape(net) && Idle(net) && Possible(net, cs)
    ensures Shape(Reached(net, cs)) && Idle(Reached(net, cs)) && Reached(net, cs).par == net.par
    decreases |cs|
  {
    if cs != [] {
      FirstDelivery(net, cs);
      ReachedIdle(Delivered(net, cs[0]), cs[1..]);
    }
  }

  lemma {:induction false} ReachedAppend(net: Net, xs: seq<Id>, ys: seq<Id>)
    requires Possible(net, xs)
    ensures Possible(net, xs + ys) <==> Possible(Reached(net, xs), ys)
    ensures Possible(net, xs + ys) ==> Reached(net, xs + ys) == Reached(Reached(net, xs), ys)
    decreases |xs|
  {
    hide Shape, Enabled, Next;
    if xs == [] {
      assert xs + ys == ys;
    } else {
      ConcatTail(xs, ys);
      ReachedAppend(Next(net, Arrive(xs[0])), xs[1..], ys);
    }
  }

  /** A context that has a message and never handles one keeps it. */
  lemma {:induction false} Unhandled(net: Net, cs: seq<Id>, x: Id)
    requires Shape(net) && Idle(net) && Possible(net, cs) && x in net.par && net.links[x].down != [] && x !in cs
    ensures Shape(Reached(net, cs)) && x in Reached(net, cs).par && Reached(net, cs).links[x].down != []
    decreases |cs|
  {
    if cs != [] {
      FirstDelivery(net, cs);
      StillNext(net, cs[0], x);
      Unhandled(Delivered(net, cs[0]), cs[1..], x);
    }
  }

  /** The first delivery to a context may as well come before the others. */
  lemma {:induction false} ToFront(net: Net, cs: seq<Id>, i: nat)
    requires Shape(net) && Idle(net) && Possible(net, cs) && i < |cs| && cs[i] !in cs[..i]
    requires cs[i] in net.par && net.links[cs[i]].down != []
    ensures var rest := cs[..i] + cs[i + 1..];
            Possible(net, [cs[i]] + rest) && Reached(net, [cs[i]] + rest) == Reached(net, cs)
    decreases i
  {
    hide Possible, Reached, Delivered, Idle, Shape;
    var x, rest := cs[i], cs[..i] + cs[i + 1..];
    if i == 0 {
      assert [cs[0]] + rest == cs;
    } else {
      var y, more := cs[0], cs[1..i] + cs[i + 1..];
      WithoutFirst(cs, i);
      FirstDelivery(net, cs);
      StillNext(net, y, x);
      DeliveredKeys(net, y);
      ToFront(Delivered(net, y), cs[1..], i - 1);
      FrontTwo(net, x, y, more);
    }
  }

  lemma WithoutFirst(cs: seq<Id>, i: nat)
    requires 0 < i < |cs| && cs[i] !in cs[..i]
    ensures cs[1..][i - 1] == cs[i] && cs[1..][..i - 1] == cs[1..i] && cs[1..][i - 1 + 1..] == cs[i + 1..]
    ensures cs[..i] + cs[i + 1..] == [cs[0]] + (cs[1..i] + cs[i + 1..])
    ensures cs[i] != cs[0] && cs[i] !in cs[1..i]
  {
    assert forall k | 0 <= k < i :: cs[k] == cs[..i][k];
  }

  lemma DeliveredKeys(net: Net, y: Id)
    requires Shape(net) && y in net.par && net.links[y].down != []
    ensures Delivered(net, y).par == net.par && Delivered(net, y).links.Keys == net.par.Keys
  {
  }

  /** Two deliveries to different contexts, in either order. */
  lemma FrontTwo(net: Net, x: Id, y: Id, more: seq<Id>)
    requires Shape(net) && Idle(net) && x in net.par && y in net.par && x != y
    requires net.links[x].down != [] && net.links[y].down != []
    requires Shape(Delivered(net, y)) && Idle(Delivered(net, y)) && Possible(Delivered(net, y), [x] + more)
    ensures Possible(net, [x] + ([y] + more))
    ensures Reached(net, [x] + ([y] + more)) == Reached(Delivered(net, y), [x] + more)
  {
    Swap(net, x, y);
    NextIsDelivered(net, x);
    NextIsDelivered(net, y);
    StillNext(net, x, y);
    StillNext(net, y, x);
    assert ([x] + ([y] + more))[1..] == [y] + more && ([y] + more)[1..] == more && ([x] + more)[1..] == more;
    FirstDelivery(net, [x] + ([y] + more));
    FirstDelivery(Delivered(net, x), [y] + more);
    FirstDelivery(Delivered(net, y), [x] + more);
    hide Delivered, Possible, Reached, Idle, Shape;
  }

  /** Whatever has been delivered so far, the deliveries left lead to the same end as any others. */
  lemma {:induction false} CatchUp(net: Net, xs: seq<Id>, ys: seq<Id>)
    returns (more: seq<Id>)
    requires Shape(net) && Idle(net) && Possible(net, xs) && Possible(net, ys)
    requires Shape(Reached(net, ys)) && Still(Reached(net, ys))
    ensures Possible(net, xs + more) && Reached(net, xs + more) == Reached(net, ys)
    decreases |xs|
  {
    if xs == [] {
      more := ys;
      assert xs + more == ys;
    } else {
      hide Possible, Reached, Delivered, Idle, Shape, Still;
      var x := xs[0];
      FirstDelivery(net, xs);
      var rest := HandledFirst(net, ys, x);
      more := CatchUp(Delivered(net, x), xs[1..], rest);
      ConcatTail(xs, more);
      FirstDelivery(net, xs + more);
    }
  }

  lemma HandledFirst(net: Net, ys: seq<Id>, x: Id) returns (rest: seq<Id>)
    requires Shape(net) && Idle(net) && Possible(net, ys) && x in net.par && net.links[x].down != []
    requires Shape(Reached(net, ys)) && Still(Reached(net, ys))
    ensures Shape(Delivered(net, x)) && Idle(Delivered(net, x)) && Possible(Delivered(net, x), rest)
    ensures Reached(Delivered(net, x), rest) == Reached(net, ys)
  {
    hide Possible, Reached, Delivered, Idle, Shape, Still;
    MustHandle(net, ys, x);
    var i := FirstIndex(ys, x);
    ToFront(net, ys, i);
    rest := ys[..i] + ys[i + 1..];
    ConcatTail([x], rest);
    assert [x][1..] + rest == rest;
    FirstDelivery(net, [x] + rest);
  }

  lemma MustHandle(net: Net, ys: seq<Id>, x: Id)
    requires Shape(net) && Idle(net) && Possible(net, ys) && x in net.par && net.links[x].down != []
    requires Shape(Reached(net, ys)) && Still(Reached(net, ys))
    ensures x in ys
  {
    if x !in ys {
      Unhandled(net, ys, x);
      NoneLeft(Reached(net, ys), x);
    }
  }

  lemma NoneLeft(net: Net, x: Id)
    requires Shape(net) && Still(net) && x in net.par
    ensures net.links[x].down == []
  {
  }

  function FirstIndex(cs: seq<Id>, x: Id): (i: nat)
    requires x in cs
    ensures i < |cs| && cs[i] == x && x !in cs[..i]
  {
    if cs[0] == x then 0 else 1 + FirstIndex(cs[1..], x)
  }
}
