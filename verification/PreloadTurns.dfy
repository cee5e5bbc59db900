/** What the master's _forward_one_module starts: the state it leads to, one name or several. */
module PreloadTurns {
  import opened Prelude
  import opened Tree
  import opened Modules
  import opened ModuleNet
  import opened Preloading

  /** The context need not ask for the module. */
  predicate Has(net: Net, t: Id, n: Name) {
    n in Preset || (t in net.imps && n in net.imps[t].cache)
  }

  /** `d` is on the way from the master to `t`, neither the first nor the last. */
  ghost predicate Between(par: map<Id, Id>, d: Id, t: Id) {
    d in par && par[d] != 0 && d != t && Below(par, d, t)
  }

  /** Some context on the way counts the module as sent already: _on_forward_module returns early. */
  ghost predicate Blocked(net: Net, t: Id, n: Name) {
    exists d :: Between(net.par, d, t) && d in net.links && n in net.links[d].sent
  }

  predicate AllLoads(down: seq<Msg>) { forall i | 0 <= i < |down| :: down[i].Load? }

  // ---- One module -------------------------------------------------------------------------------------

  lemma LoadsOnly(lib: map<Name, Tup>, a: Link, b: Link)
    requires Extends(lib, a, b) && AllLoads(a.down)
    ensures AllLoads(b.down)
  {
    assert forall i | 0 <= i < |a.down| :: b.down[i] == a.down[i];
  }

  /** The master's own link, after it has forwarded one module. */
  function FirstLink(l: Link, lib: map<Name, Tup>, direct: bool, t: Id, n: Name): Link {
    var l1 := Respond(l, lib, n);
    if direct then l1 else l1.(down := l1.down + [Fwd(t, n)])
  }

  lemma PreloadedOne(l: Link, lib: map<Name, Tup>, direct: bool, t: Id, n: Name)
    ensures Preloaded(l, lib, direct, t, [n]) == FirstLink(l, lib, direct, t, n)
  {
    assert [n][1..] == [];
    hide Respond;
  }

  lemma NextPreload(net: Net, t: Id, path: seq<Name>)
    requires Shape(net) && t in net.par
    ensures Next(net, Preload(t, path)) == Preloads(net, t, path)
  {
    hide Shape, Preloads;
  }

  lemma PreloadOne(net: Net, t: Id, n: Name)
    requires Shape(net) && t in net.par && Below(net.par, 0, t)
    ensures var c := Toward(net.par, 0, t);
            Next(net, Preload(t, [n])) == net.(links := net.links[c := FirstLink(net.links[c], net.lib, c == t, t, n)])
  {
    NextPreload(net, t, [n]);
    var c := Toward(net.par, 0, t);
    PreloadedOne(net.links[c], net.lib, c == t, t, n);
    hide Next, Enabled, Preloaded, Respond, LibOk;
  }

  lemma SentKnown(net: Net, t: Id, n: Name)
    requires Inv(net) && t in net.par && n in net.links[t].sent
    ensures Known(net.links[t].down, net.imps[t].cache, n)
  {
    assert NodeOk(net, t);
  }

  // ---- Its deliveries -----------------------------------------------------------------------------------

  lemma DeliveredLoadLinks(net: Net, x: Id)
    requires Shape(net) && x in net.par && net.links[x].down != [] && net.links[x].down[0].Load?
    ensures var net' := Delivered(net, x);
            && net'.links == net.links[x := Tail(net.links[x])] && net'.par == net.par
            && net'.imps == net.imps[x := Learnt(net.imps[x], net.links[x].down[0])]
  {
    var links' := net.links[x := Tail(net.links[x])];
    forall z | z in net.par ensures Touched(net, x, z) == links'[z] { }
    hide Tail, Touched;
    SameMap(net.par.Keys, Delivered(net, x).links, links');
  }

  /** The links after a FORWARD_MODULE was handled. */
  lemma DeliveredFwdLinks(net: Net, c: Id, t: Id, n: Name)
    requires Shape(net) && c in net.par && net.links[c].down != [] && net.links[c].down[0] == Fwd(t, n)
    requires c != t && Below(net.par, c, t)
    ensures var net', d := Delivered(net, c), Toward(net.par, c, t);
            && net'.par == net.par && net'.imps == net.imps
            && net'.links == net.links[c := Tail(net.links[c])]
                                      [d := Push(net.par, c, Fwd(t, n), net.imps[c].cache, d, net.links[d])]
  {
    var d := Toward(net.par, c, t);
    var links' := net.links[c := Tail(net.links[c])]
                           [d := Push(net.par, c, Fwd(t, n), net.imps[c].cache, d, net.links[d])];
    forall z | z in net.par ensures Touched(net, c, z) == links'[z] { }
    hide Tail, Touched, Push;
    SameMap(net.par.Keys, Delivered(net, c).links, links');
    assert Learnt(net.imps[c], Fwd(t, n)) == net.imps[c];
    assert net.imps[c := net.imps[c]] == net.imps;
  }

  /** `cs` leads to `end`, where nothing is under way. */
  ghost predicate Settles(net: Net, cs: seq<Id>, end: Net) {
    Leads(net, cs, end) && Shape(end) && Still(end)
  }

  ghost predicate Leads(net: Net, cs: seq<Id>, end: Net) { Possible(net, cs) && end == Reached(net, cs) }

  /** When nobody waits for a module, the master forwards the modules of `path` to `t`, and once
      whatever is under way has been delivered the state is `end`. */
  ghost predicate Forwards(net0: Net, t: Id, path: seq<Name>, cs: seq<Id>, end: Net) {
    && Shape(net0) && Inv(net0) && Idle(net0) && t in net0.par
    && Settles(Next(net0, Preload(t, path)), cs, end) && end.par == net0.par
  }

  // ---- One module after another -------------------------------------------------------------------------

  lemma {:induction false} PreloadedAppend(l: Link, lib: map<Name, Tup>, direct: bool, t: Id, path: seq<Name>, n: Name)
    ensures Preloaded(l, lib, direct, t, path + [n]) == FirstLink(Preloaded(l, lib, direct, t, path), lib, direct, t, n)
    decreases |path|
  {
    if path == [] {
      assert path + [n] == [n];
      PreloadedOne(l, lib, direct, t, n);
    } else {
      ConcatTail(path, [n]);
      var l1 := Respond(l, lib, path[0]);
      var l2 := if direct then l1 else l1.(down := l1.down + [Fwd(t, path[0])]);
      hide Respond, FirstLink;
      PreloadedAppend(l2, lib, direct, t, path[1..], n);
    }
  }

  /** The master's _forward_one_module for one name. */
  ghost function One(net: Net, t: Id, n: Name): (r: Net)
    requires Shape(net) && t in net.par && Below(net.par, 0, t)
    ensures Shape(r) && r.par == net.par
  {
    var c := Toward(net.par, 0, t);
    net.(links := net.links[c := FirstLink(net.links[c], net.lib, c == t, t, n)])
  }

  lemma PreloadIsOne(net: Net, t: Id, path: seq<Name>, n: Name)
    requires Shape(net) && t in net.par && Below(net.par, 0, t)
    ensures Next(net, Preload(t, [n])) == One(net, t, n)
    ensures Next(net, Preload(t, path + [n])) == One(Next(net, Preload(t, path)), t, n)
  {
    NextPreload(net, t, path);
    NextPreload(net, t, path + [n]);
    PreloadOne(net, t, n);
    PreloadsAppend(net, t, path, n);
    hide Next, Enabled, FirstLink, Preloads, Shape;
  }

  lemma PreloadsAppend(net: Net, t: Id, path: seq<Name>, n: Name)
    requires Shape(net) && t in net.par && Below(net.par, 0, t)
    ensures Preloads(net, t, path + [n]) == One(Preloads(net, t, path), t, n)
  {
    var c := Toward(net.par, 0, t);
    PreloadedAppend(net.links[c], net.lib, c == t, t, path, n);
    hide FirstLink, Preloaded, LibOk, Shape;
    UpdateTwice(net.links, c, Preloaded(net.links[c], net.lib, c == t, t, path),
                Preloaded(net.links[c], net.lib, c == t, t, path + [n]));
  }

  lemma UpdateTwice<K, V>(m: map<K, V>, x: K, a: V, b: V)
    ensures m[x := a][x := b] == m[x := b]
  {
  }

  lemma {:induction false} RespondRelatedTail(l: Link, lib: map<Name, Tup>, n: Name, related: seq<Name>)
    requires l.down != []
    ensures var (a, ok) := RespondRelated(l, lib, n, related);
            a.down != [] && a.down[0] == l.down[0] && RespondRelated(Tail(l), lib, n, related) == (Tail(a), ok)
    decreases |related|
  {
    if related != [] {
      var m := related[0];
      if (Top(m) != n && Top(m) !in l.sent) || m in l.sent {
        RespondRelatedTail(l, lib, n, related[1..]);
      } else if m in lib {
        SendOneTail(l, lib[m]);
        SendOneKeepsHead(l, lib[m]);
        RespondRelatedTail(SendOne(l, lib[m]), lib, n, related[1..]);
      }
    }
  }

  lemma AppendTail(l: Link, m: Msg)
    requires l.down != []
    ensures var a := l.(down := l.down + [m]);
            a.down != [] && a.down[0] == l.down[0] && Tail(l).(down := Tail(l).down + [m]) == Tail(a)
  {
    assert (l.down + [m])[1..] == l.down[1..] + [m];
  }

  lemma RespondTail(l: Link, lib: map<Name, Tup>, n: Name)
    requires l.down != []
    ensures var a := Respond(l, lib, n); a.down != [] && a.down[0] == l.down[0] && Respond(Tail(l), lib, n) == Tail(a)
  {
    if n !in l.sent {
      if n in lib {
        RespondRelatedTail(l, lib, n, lib[n].related);
        var l1 := RespondRelated(l, lib, n, lib[n].related).0;
        SendOneTail(l1, lib[n]);
        SendOneKeepsHead(l1, lib[n]);
        AppendTail(l1, Load(Negative(n)));
      } else {
        AppendTail(l, Load(Negative(n)));
      }
    }
    hide RespondRelated, Tail, SendOne;
  }

  lemma FirstLinkTail(l: Link, lib: map<Name, Tup>, direct: bool, t: Id, n: Name)
    requires l.down != []
    ensures var a := FirstLink(l, lib, direct, t, n);
            a.down != [] && a.down[0] == l.down[0] && FirstLink(Tail(l), lib, direct, t, n) == Tail(a)
  {
    RespondTail(l, lib, n);
    AppendTail(Respond(l, lib, n), Fwd(t, n));
    hide Respond, Tail;
  }

  /** Forwarding and delivering do not disturb each other. */
  lemma OneThenDeliver(net: Net, t: Id, n: Name, x: Id)
    requires Shape(net) && t in net.par && Below(net.par, 0, t) && x in net.par && net.links[x].down != []
    ensures One(net, t, n).links[x].down != []
    ensures Shape(Delivered(net, x)) && Delivered(net, x).par == net.par
    ensures Delivered(One(net, t, n), x) == One(Delivered(net, x), t, n)
  {
    HeadStays(net, t, n, x);
    DeliveredKeys(net, x);
    DeliveredShape(net, x);
    DeliveredKeys(One(net, t, n), x);
    OneImps(net, t, n, x);
    var a, b := Delivered(One(net, t, n), x), One(Delivered(net, x), t, n);
    forall z | z in net.par ensures a.links[z] == b.links[z] { OneLink(net, t, n, x, z); }
    OneKeys(Delivered(net, x), t, n);
    OneFields(net, t, n, x);
    hide One, Delivered, Shape;
    SameMap(net.par.Keys, a.links, b.links);
  }

  lemma HeadStays(net: Net, t: Id, n: Name, x: Id)
    requires Shape(net) && t in net.par && Below(net.par, 0, t) && x in net.par && net.links[x].down != []
    ensures var l := One(net, t, n).links[x]; l.down != [] && l.down[0] == net.links[x].down[0]
  {
    var c := Toward(net.par, 0, t);
    if x == c { FirstLinkTail(net.links[c], net.lib, c == t, t, n); }
    hide FirstLink, Shape;
  }

  lemma DeliveredShape(net: Net, x: Id)
    requires Shape(net) && x in net.par && net.links[x].down != []
    ensures Shape(Delivered(net, x))
  {
    hide IsTree, LibOk, Touched, Learnt;
  }

  lemma OneKeys(net: Net, t: Id, n: Name)
    requires Shape(net) && t in net.par && Below(net.par, 0, t)
    ensures One(net, t, n).links.Keys == net.par.Keys
  {
    hide FirstLink, LibOk;
  }

  lemma OneImps(net: Net, t: Id, n: Name, x: Id)
    requires Shape(net) && t in net.par && Below(net.par, 0, t) && x in net.par && net.links[x].down != []
    requires One(net, t, n).links[x].down != [] && Shape(Delivered(net, x)) && Delivered(net, x).par == net.par
    ensures Delivered(One(net, t, n), x).imps == One(Delivered(net, x), t, n).imps
  {
    HeadStays(net, t, n, x);
    hide FirstLink, Learnt, Touched, LibOk, IsTree;
  }

  lemma OneFields(net: Net, t: Id, n: Name, x: Id)
    requires Shape(net) && t in net.par && Below(net.par, 0, t) && x in net.par && net.links[x].down != []
    requires One(net, t, n).links[x].down != [] && Shape(Delivered(net, x)) && Delivered(net, x).par == net.par
    ensures var a, b := Delivered(One(net, t, n), x), One(Delivered(net, x), t, n);
            a.par == b.par && a.lib == b.lib && a.up == b.up
  {
    hide FirstLink, Learnt, Touched, LibOk, IsTree;
  }

  lemma OneLink(net: Net, t: Id, n: Name, x: Id, z: Id)
    requires Shape(net) && t in net.par && Below(net.par, 0, t) && x in net.par && z in net.par && net.links[x].down != []
    requires One(net, t, n).links[x].down != [] && Shape(Delivered(net, x)) && Delivered(net, x).par == net.par
    ensures Delivered(One(net, t, n), x).links[z] == One(Delivered(net, x), t, n).links[z]
  {
    var c, net1 := Toward(net.par, 0, t), One(net, t, n);
    HeadStays(net, t, n, x);
    hide FirstLink, Push, Tail, IsTree, LibOk;
    assert Touched(net1, x, z)
        == if z == c then FirstLink(Touched(net, x, c), net.lib, c == t, t, n) else Touched(net, x, z) by {
      TouchedOne(net, t, n, x, z);
    }
    hide Touched;
  }

  lemma TouchedOne(net: Net, t: Id, n: Name, x: Id, z: Id)
    requires Shape(net) && t in net.par && Below(net.par, 0, t) && x in net.par && z in net.par && net.links[x].down != []
    requires One(net, t, n).links[x].down != [] && One(net, t, n).links[x].down[0] == net.links[x].down[0]
    ensures var c := Toward(net.par, 0, t);
            (Touched(One(net, t, n), x, z)
             == if z == c then FirstLink(Touched(net, x, c), net.lib, c == t, t, n) else Touched(net, x, z))
  {
    var c := Toward(net.par, 0, t);
    if z == c {
      assert net.par[c] == 0 && x != 0;
      if x == c { FirstLinkTail(net.links[c], net.lib, c == t, t, n); }
    }
    hide FirstLink, Push, Tail, LibOk, IsTree;
  }

  lemma {:induction false} OneFirst(net: Net, t: Id, n: Name, xs: seq<Id>)
    requires Shape(net) && Idle(net) && t in net.par && Below(net.par, 0, t) && Possible(net, xs)
    ensures Shape(Reached(net, xs)) && Reached(net, xs).par == net.par && Idle(One(net, t, n))
    ensures Leads(One(net, t, n), xs, One(Reached(net, xs), t, n))
    decreases |xs|
  {
    OneIdle(net, t, n);
    if xs != [] {
      FirstDelivery(net, xs);
      OneThenDeliver(net, t, n, xs[0]);
      OneFirst(Delivered(net, xs[0]), t, n, xs[1..]);
      FirstDelivery(One(net, t, n), xs);
      hide One, Delivered, Idle, Shape;
    }
  }

  lemma OneIdle(net: Net, t: Id, n: Name)
    requires Shape(net) && Idle(net) && t in net.par && Below(net.par, 0, t)
    ensures Idle(One(net, t, n))
  {
  }

}
