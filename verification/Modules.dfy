/** Module loading: the importer of a context, and what a parent sends to one of its children. */
module Modules {
  import opened Prelude

  type Name = string

  /** The payload of LOAD_MODULE.  A negative response has `found` false and nothing related. */
  datatype Tup = Tup(name: Name, related: seq<Name>, found: bool)

  function Negative(n: Name): Tup { Tup(n, [], false) }

  /** Names every stream counts as sent from the start. */
  const Preset: set<Name> := {"mitogen", "mitogen.core"}

  // ---- The importer -------------------------------------------------------------------------------

  /** A call of _request_module: by a thread of the context, which its callback wakes up, or for a
      child, to which its callback sends the module.  Requests are numbered. */
  datatype Request = Request(name: Name, child: Option<Id>)

  /** `cache` and `callbacks` are the importer's fields, a callback being the number of the request
      it belongs to.  The rest is history: all requests, the callbacks run, in order, and the
      GET_MODULEs sent. */
  datatype Importer = Importer(
    cache: map<Name, Tup>, callbacks: map<Name, seq<nat>>,
    issued: seq<Request>, ran: seq<nat>, asked: seq<Name>)

  function OnRequest(imp: Importer, r: Request): Importer {
    var t := |imp.issued|;
    var imp1 := imp.(issued := imp.issued + [r]);
    if r.name in imp.cache then imp1.(ran := imp.ran + [t])
    else if r.name in imp.callbacks then
      imp1.(callbacks := imp.callbacks[r.name := imp.callbacks[r.name] + [t]])
    else imp1.(callbacks := imp.callbacks[r.name := [t]], asked := imp.asked + [r.name])
  }

  function Popped(imp: Importer, n: Name): seq<nat> {
    if n in imp.callbacks then imp.callbacks[n] else []
  }

  function OnLoad(imp: Importer, tup: Tup): Importer {
    imp.(cache := imp.cache[tup.name := tup], callbacks := imp.callbacks - {tup.name},
         ran := imp.ran + Popped(imp, tup.name))
  }

  /** `t` is waiting in the callback list of its own name. */
  predicate Waiting(imp: Importer, t: nat) {
    t < |imp.issued| && imp.issued[t].name in imp.callbacks && t in imp.callbacks[imp.issued[t].name]
  }

  ghost predicate NoRepeats<T>(q: seq<T>) {
    forall i, j | 0 <= i < j < |q| :: q[i] != q[j]
  }

  /** A callback waits in one place or has been run once, and is run only after its module is
      cached; a name is asked of the parent at most once. */
  ghost predicate Orderly(imp: Importer) {
    && imp.cache.Keys !! imp.callbacks.Keys
    && (forall n {:trigger imp.callbacks[n]} | n in imp.callbacks :: ListOk(imp, n))
    && NoRepeats(imp.ran)
    && (forall t | t in imp.ran :: t < |imp.issued| && imp.issued[t].name in imp.cache)
    && (forall t | 0 <= t < |imp.issued| :: t in imp.ran || Waiting(imp, t))
    && NoRepeats(imp.asked)
    && (forall n | n in imp.asked :: n in imp.callbacks || n in imp.cache)
    && (forall n | n in imp.callbacks :: n in imp.asked)
    && (forall n {:trigger imp.cache[n]} | n in imp.cache :: imp.cache[n].name == n)
  }

  lemma NoRepeatsSnoc<T>(q: seq<T>, x: T)
    requires NoRepeats(q) && x !in q
    ensures NoRepeats(q + [x])
  {
  }

  /** What the callbacks promise, list by list. */
  ghost predicate ListOk(imp: Importer, n: Name)
    requires n in imp.callbacks
  {
    && imp.callbacks[n] != [] && NoRepeats(imp.callbacks[n])
    && forall t | t in imp.callbacks[n] :: t < |imp.issued| && imp.issued[t].name == n
  }

  lemma RequestCached(imp: Importer, r: Request)
    requires Orderly(imp) && r.name in imp.cache
    ensures Orderly(OnRequest(imp, r))
  {
    NoRepeatsSnoc(imp.ran, |imp.issued|);
    StillThere(imp, r);
    hide NoRepeats, Waiting;
  }

  lemma RequestJoins(imp: Importer, r: Request)
    requires Orderly(imp) && r.name in imp.callbacks
    ensures Orderly(OnRequest(imp, r))
  {
    var waiting, t := imp.callbacks[r.name], |imp.issued|;
    NoRepeatsSnoc(waiting, t);
    assert t in waiting + [t] && forall u | u in waiting :: u in waiting + [t];
    StillThere(imp, r);
    JoinsLists(imp, r);
    hide NoRepeats, Waiting;
  }

  lemma JoinsLists(imp: Importer, r: Request)
    requires Orderly(imp) && r.name in imp.callbacks
    ensures var imp' := OnRequest(imp, r); forall n {:trigger ListOk(imp', n)} | n in imp'.callbacks :: ListOk(imp', n)
  {
    var waiting, t := imp.callbacks[r.name], |imp.issued|;
    NoRepeatsSnoc(waiting, t);
    hide NoRepeats;
  }

  lemma RequestAsks(imp: Importer, r: Request)
    requires Orderly(imp) && r.name !in imp.callbacks && r.name !in imp.cache
    ensures Orderly(OnRequest(imp, r))
  {
    NoRepeatsSnoc(imp.asked, r.name);
    NoRepeatsSnoc([], |imp.issued|);
    StillThere(imp, r);
    hide Waiting;
  }

  /** Every request made so far is where it was, and the new one is where it belongs. */
  lemma StillThere(imp: Importer, r: Request)
    requires Orderly(imp)
    ensures var imp' := OnRequest(imp, r);
            forall t | 0 <= t < |imp'.issued| :: t in imp'.ran || Waiting(imp', t)
  {
    var imp' := OnRequest(imp, r);
    forall t | 0 <= t < |imp'.issued|
      ensures t in imp'.ran || Waiting(imp', t)
    {
      if t < |imp.issued| {
        assert t in imp.ran || Waiting(imp, t);
        if Waiting(imp, t) { RequestWaitsOn(imp, r, t); }
      }
    }
  }

  lemma RequestWaitsOn(imp: Importer, r: Request, t: nat)
    requires Waiting(imp, t)
    ensures Waiting(OnRequest(imp, r), t) || r.name in imp.cache
    ensures r.name in imp.cache ==> Waiting(OnRequest(imp, r), t)
  {
  }

  lemma RequestOrderly(imp: Importer, r: Request)
    requires Orderly(imp)
    ensures Orderly(OnRequest(imp, r))
  {
    hide Orderly, OnRequest;
    if r.name in imp.cache { RequestCached(imp, r); }
    else if r.name in imp.callbacks { RequestJoins(imp, r); }
    else { RequestAsks(imp, r); }
  }

  lemma LoadRan(imp: Importer, tup: Tup)
    requires Orderly(imp)
    ensures NoRepeats(OnLoad(imp, tup).ran)
  {
    var a, b := imp.ran, Popped(imp, tup.name);
    forall i, j | 0 <= i < j < |a + b|
      ensures (a + b)[i] != (a + b)[j]
    {
      if i < |a| <= j {
        assert a[i] in imp.ran;
        assert b[j - |a|] in imp.callbacks[tup.name];
      }
    }
  }

  lemma LoadOrderly(imp: Importer, tup: Tup)
    requires Orderly(imp)
    ensures Orderly(OnLoad(imp, tup))
  {
    var imp' := OnLoad(imp, tup);
    LoadRan(imp, tup);
    forall t | 0 <= t < |imp'.issued|
      ensures t in imp'.ran || Waiting(imp', t)
    {
      assert t in imp.ran || Waiting(imp, t);
    }
  }

  // ---- What a parent sends ------------------------------------------------------------------------

  datatype Msg = Load(tup: Tup) | Fwd(target: Id, name: Name)

  /** The parent's end of the stream to a child: `sent` is its sent_modules, `down` the messages
      under way, and `got` counts the names that have arrived. */
  datatype Link = Link(sent: set<Name>, down: seq<Msg>, got: multiset<Name>)

  function SendOne(l: Link, tup: Tup): Link {
    if tup.name in l.sent then l
    else l.(sent := l.sent + {tup.name}, down := l.down + [Load(tup)])
  }

  function SendRelated(l: Link, cache: map<Name, Tup>, related: seq<Name>): Link
    decreases |related|
  {
    if related == [] then l
    else SendRelated(if related[0] in cache then SendOne(l, cache[related[0]]) else l, cache, related[1..])
  }

  /** ModuleForwarder._send_module_and_related. */
  function SendAll(l: Link, cache: map<Name, Tup>, n: Name): Link
    requires n in cache
  {
    SendOne(SendRelated(l, cache, cache[n].related), cache[n])
  }

  function Top(n: Name): Name {
    if n == [] || n[0] == '.' then [] else [n[0]] + Top(n[1..])
  }

  /** The loop over related modules in the master; false when building one of them raises.  `lib`
      holds what the master builds; a name that is missing from it raises. */
  function RespondRelated(l: Link, lib: map<Name, Tup>, n: Name, related: seq<Name>): (Link, bool)
    decreases |related|
  {
    if related == [] then (l, true)
    else
      var m := related[0];
      if (Top(m) != n && Top(m) !in l.sent) || m in l.sent then RespondRelated(l, lib, n, related[1..])
      else if m !in lib then (l, false)
      else RespondRelated(SendOne(l, lib[m]), lib, n, related[1..])
  }

  function Failed(l: Link, n: Name): Link { l.(down := l.down + [Load(Negative(n))]) }

  /** ModuleResponder._send_module_and_related. */
  function Respond(l: Link, lib: map<Name, Tup>, n: Name): Link {
    if n in l.sent then l
    else if n !in lib then Failed(l, n)
    else
      var (l1, ok) := RespondRelated(l, lib, n, lib[n].related);
      if ok then SendOne(l1, lib[n]) else Failed(l1, n)
  }

  /** The loop of _forward_one_module over a module's packages, outermost first. */
  function Preloaded(l: Link, lib: map<Name, Tup>, direct: bool, target: Id, path: seq<Name>): Link
    decreases |path|
  {
    if path == [] then l
    else
      var l1 := Respond(l, lib, path[0]);
      var l2 := if direct then l1 else l1.(down := l1.down + [Fwd(target, path[0])]);
      Preloaded(l2, lib, direct, target, path[1..])
  }

  ghost predicate LibOk(lib: map<Name, Tup>) {
    forall n {:trigger lib[n]} | n in lib :: lib[n].name == n && lib[n].found
  }

  /** What a tuple may say: what the master builds for the name, or that it has no such module. */
  predicate Genuine(lib: map<Name, Tup>, tup: Tup) {
    tup == Negative(tup.name) || tup.name in Preset || (tup.name in lib && tup == lib[tup.name])
  }

  function Loads(down: seq<Msg>): set<Name> {
    set m | m in down && m.Load? :: m.tup.name
  }

  /** `b` is `a` after sending some modules: everything newly marked as sent is under way. */
  ghost predicate Extends(lib: map<Name, Tup>, a: Link, b: Link) {
    && a.sent <= b.sent && a.got == b.got
    && |a.down| <= |b.down| && a.down == b.down[..|a.down|]
    && (forall i {:trigger b.down[i]} | |a.down| <= i < |b.down| ::
          b.down[i].Load? && Genuine(lib, b.down[i].tup))
    && (forall n | n in b.sent :: n in a.sent || n in Loads(b.down))
  }

  lemma LoadsGrow(a: seq<Msg>, b: seq<Msg>)
    requires |a| <= |b| && a == b[..|a|]
    ensures Loads(a) <= Loads(b)
  {
    forall n | n in Loads(a) ensures n in Loads(b) {
      var m :| m in a && m.Load? && m.tup.name == n;
      assert m in b;
    }
  }

  lemma ExtendsTrans(lib: map<Name, Tup>, a: Link, b: Link, c: Link)
    requires Extends(lib, a, b) && Extends(lib, b, c)
    ensures Extends(lib, a, c)
  {
    LoadsGrow(b.down, c.down);
    forall i | |a.down| <= i < |c.down|
      ensures c.down[i].Load? && Genuine(lib, c.down[i].tup)
    {
      if i < |b.down| { assert b.down[i] == c.down[i]; }
    }
  }

  lemma SendOneExtends(lib: map<Name, Tup>, l: Link, tup: Tup)
    requires Genuine(lib, tup)
    ensures Extends(lib, l, SendOne(l, tup)) && tup.name in SendOne(l, tup).sent
  {
    var l' := SendOne(l, tup);
    if tup.name !in l.sent {
      assert Load(tup) in l'.down;
    }
  }

  ghost predicate CacheOk(lib: map<Name, Tup>, cache: map<Name, Tup>) {
    forall n {:trigger cache[n]} | n in cache :: cache[n].name == n && Genuine(lib, cache[n])
  }

  lemma {:induction false} SendRelatedExtends(lib: map<Name, Tup>, l: Link, cache: map<Name, Tup>, related: seq<Name>)
    requires CacheOk(lib, cache)
    ensures Extends(lib, l, SendRelated(l, cache, related))
    decreases |related|
  {
    if related != [] {
      var l1 := if related[0] in cache then SendOne(l, cache[related[0]]) else l;
      if related[0] in cache { SendOneExtends(lib, l, cache[related[0]]); }
      SendRelatedExtends(lib, l1, cache, related[1..]);
      ExtendsTrans(lib, l, l1, SendRelated(l, cache, related));
    }
  }

  lemma SendAllExtends(lib: map<Name, Tup>, l: Link, cache: map<Name, Tup>, n: Name)
    requires CacheOk(lib, cache) && n in cache
    ensures Extends(lib, l, SendAll(l, cache, n)) && n in SendAll(l, cache, n).sent
  {
    var l1 := SendRelated(l, cache, cache[n].related);
    SendRelatedExtends(lib, l, cache, cache[n].related);
    SendOneExtends(lib, l1, cache[n]);
    ExtendsTrans(lib, l, l1, SendAll(l, cache, n));
  }

  lemma {:induction false} RespondRelatedExtends(l: Link, lib: map<Name, Tup>, n: Name, related: seq<Name>)
    requires LibOk(lib)
    ensures Extends(lib, l, RespondRelated(l, lib, n, related).0)
    decreases |related|
  {
    if related != [] {
      var m := related[0];
      if (Top(m) != n && Top(m) !in l.sent) || m in l.sent {
        RespondRelatedExtends(l, lib, n, related[1..]);
      } else if m in lib {
        SendOneExtends(lib, l, lib[m]);
        RespondRelatedExtends(SendOne(l, lib[m]), lib, n, related[1..]);
        ExtendsTrans(lib, l, SendOne(l, lib[m]), RespondRelated(l, lib, n, related).0);
      }
    }
  }

  /** Whatever the master is asked for, something about that name is under way or was sent. */
  lemma RespondExtends(l: Link, lib: map<Name, Tup>, n: Name)
    requires LibOk(lib)
    ensures Extends(lib, l, Respond(l, lib, n))
    ensures n in l.sent || n in Loads(Respond(l, lib, n).down)
  {
    if n in l.sent { return; }
    var l1 := if n in lib then RespondRelated(l, lib, n, lib[n].related).0 else l;
    if n in lib { RespondRelatedExtends(l, lib, n, lib[n].related); }
    var l2 := Respond(l, lib, n);
    if n in lib && RespondRelated(l, lib, n, lib[n].related).1 {
      SendOneExtends(lib, l1, lib[n]);
      ExtendsTrans(lib, l, l1, l2);
    } else {
      assert Load(Negative(n)) in l2.down;
      assert Extends(lib, l1, l2) by { LoadsGrow(l1.down, l2.down); }
      ExtendsTrans(lib, l, l1, l2);
    }
  }
}
