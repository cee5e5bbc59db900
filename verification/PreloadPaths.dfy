/** The modules of a path, forwarded one behind the other: every run of deliveries ends in the same
    state, the one that forwarding each of them on its own leads to. */
module PreloadPaths {
  import opened Prelude
  import opened Tree
  import opened Modules
  import opened ModuleNet
  import opened ModuleSteps
  import opened Preloading
  import opened PreloadTurns

  // ---- What deliveries keep ---------------------------------------------------------------------------

  lemma {:induction false} ReachedInv(net: Net, cs: seq<Id>)
    requires Shape(net) && Inv(net) && Idle(net) && Possible(net, cs)
    ensures Inv(Reached(net, cs))
    decreases |cs|
  {
    if cs != [] {
      FirstDelivery(net, cs);
      StepKeeps(net, Arrive(cs[0]));
      hide Inv, Idle, Delivered, Next, Enabled;
      ReachedInv(Delivered(net, cs[0]), cs[1..]);
    }
  }

  lemma DeliveredHas(net: Net, x: Id, t: Id, n: Name)
    requires Shape(net) && x in net.par && net.links[x].down != [] && t in net.par && Has(net, t, n)
    ensures Has(Delivered(net, x), t, n)
  {
    hide Touched, IsTree, LibOk;
  }

  lemma {:induction false} ReachedHas(net: Net, cs: seq<Id>, t: Id, n: Name)
    requires Shape(net) && Idle(net) && Possible(net, cs) && t in net.par && Has(net, t, n)
    ensures Has(Reached(net, cs), t, n)
    decreases |cs|
  {
    if cs != [] {
      FirstDelivery(net, cs);
      DeliveredHas(net, cs[0], t, n);
      DeliveredKeys(net, cs[0]);
      hide Has, Delivered, Idle, Next, Enabled;
      ReachedHas(Delivered(net, cs[0]), cs[1..], t, n);
    }
  }

  // ---- Deliveries come to an end ------------------------------------------------------------------------

  /** A context's messages come from above it, and whatever is nearer the master has none. */
  ghost predicate QuietBelow(net: Net, x: Id)
    requires Shape(net)
  {
    forall z {:trigger net.par[z]} | z in net.par && z < x :: net.links[z].down == []
  }

  lemma DeliverAt(net: Net, x: Id)
    requires Shape(net) && Idle(net) && QuietBelow(net, x) && x in net.par && net.links[x].down != []
    ensures var net' := Delivered(net, x);
            && Shape(net') && Idle(net') && net'.par == net.par && QuietBelow(net', x)
            && |net'.links[x].down| < |net.links[x].down|
  {
    NextIsDelivered(net, x);
    DeliveredKeys(net, x);
    forall z | z in net.par && z < x ensures Delivered(net, x).links[z].down == [] {
      assert net.links[z].down == [] && net.par[z] < z;
    }
    hide Push, Idle, LibOk;
  }

  function Waits(net: Net, x: Id): nat {
    if x in net.links then |net.links[x].down| else 0
  }

  /** Handling what there is, always for the context nearest the master first, comes to an end. */
  lemma {:induction false} Drain(net: Net, x: Id, most: Id) returns (cs: seq<Id>)
    requires Shape(net) && Idle(net) && QuietBelow(net, x) && x <= most + 1
    requires forall z | z in net.par :: z <= most
    ensures Possible(net, cs) && Shape(Reached(net, cs)) && Still(Reached(net, cs))
    decreases most + 1 - x, Waits(net, x)
  {
    if x == most + 1 {
      cs := [];
    } else if x in net.par && net.links[x].down != [] {
      DeliverAt(net, x);
      hide Delivered, Idle, QuietBelow, Still;
      cs := Drain(Delivered(net, x), x, most);
      FirstDelivery(net, [x] + cs);
      cs := [x] + cs;
    } else {
      assert QuietBelow(net, x + 1);
      cs := Drain(net, x + 1, most);
    }
  }

  lemma {:induction false} Most(ids: set<Id>) returns (most: Id)
    ensures forall z | z in ids :: z <= most
    decreases ids
  {
    if ids == {} {
      most := 0;
    } else {
      var z :| z in ids;
      most := Most(ids - {z});
      assert forall y | y in ids :: y == z || y in ids - {z};
      if most < z { most := z; }
    }
  }

  /** Whatever is under way can be delivered, and then nothing is. */
  lemma DeliveriesEnd(net: Net) returns (cs: seq<Id>, end: Net)
    requires Shape(net) && Idle(net)
    ensures Settles(net, cs, end) && end.par == net.par
  {
    var most := Most(net.par.Keys);
    cs := Drain(net, 0, most);
    ReachedIdle(net, cs);
    end := Reached(net, cs);
  }

  /** And in whatever order that is done, the state in the end is the same. */
  lemma EndsAlike(net: Net, xs: seq<Id>, ys: seq<Id>, a: Net, b: Net)
    requires Shape(net) && Idle(net) && Settles(net, xs, a) && Settles(net, ys, b)
    ensures a == b
  {
    hide Idle, Still, Shape;
    var more := CatchUp(net, xs, ys);
    ReachedAppend(net, xs, more);
    if more != [] { NoneEnabled(a, more); }
  }

  lemma NoneEnabled(net: Net, cs: seq<Id>)
    requires Shape(net) && Still(net) && Possible(net, cs)
    ensures cs == []
  {
    if cs != [] { NoneLeft(net, cs[0]); }
  }

  // ---- One name's turn ----------------------------------------------------------------------------------

  lemma AfterPreload(net: Net, t: Id, path: seq<Name>)
    requires Shape(net) && Inv(net) && Idle(net) && t in net.par
    ensures var net1 := Next(net, Preload(t, path)); Shape(net1) && Inv(net1) && Idle(net1) && net1.imps == net.imps
  {
    StepKeeps(net, Preload(t, path));
    NextPreload(net, t, path);
    hide Inv, Next, Enabled;
  }

  /** A name's turn: forwarding it last is forwarding it from the state that the names before it led to. */
  lemma Turn(net0: Net, t: Id, path: seq<Name>, n: Name, xs: seq<Id>, q: Net, cs: seq<Id>, end: Net)
    returns (more: seq<Id>)
    requires Forwards(net0, t, path, xs, q) && Forwards(net0, t, path + [n], cs, end)
    ensures Forwards(q, t, [n], more, end) && Still(q)
  {
    hide Next, Inv, Idle, Still, Possible, Reached, IsTree, LibOk, One, Below;
    RootAbove(net0.par, t);
    AfterPreload(net0, t, path);
    PreloadIsOne(net0, t, path, n);
    hide Shape;
    more := OneTurn(Next(net0, Preload(t, path)), t, n, xs, q, cs, end);
  }

  lemma OneTurn(net1: Net, t: Id, n: Name, xs: seq<Id>, q: Net, cs: seq<Id>, end: Net)
    returns (more: seq<Id>)
    requires Shape(net1) && Inv(net1) && Idle(net1) && t in net1.par && Below(net1.par, 0, t)
    requires Settles(net1, xs, q) && Settles(One(net1, t, n), cs, end) && q.par == net1.par == end.par
    ensures Forwards(q, t, [n], more, end) && Still(q)
  {
    hide Next, Enabled, Inv, Idle, Still, Possible, Reached, Shape, One, Below;
    var net2 := One(net1, t, n);
    OneFirst(net1, t, n, xs);
    more := CatchUp(net2, xs, cs);
    ReachedAppend(net2, xs, more);
    ReachedInv(net1, xs);
    ReachedIdle(net1, xs);
    PreloadIsOne(q, t, [], n);
  }

  // ---- The whole path -----------------------------------------------------------------------------------

  ghost predicate EndsIn(net0: Net, t: Id, path: seq<Name>, end: Net) {
    exists cs :: Forwards(net0, t, path, cs, end)
  }

  /** There is an end, and only one. */
  lemma EndExists(net0: Net, t: Id, path: seq<Name>) returns (end: Net)
    requires Shape(net0) && Inv(net0) && Idle(net0) && t in net0.par
    ensures EndsIn(net0, t, path, end)
    ensures forall other | EndsIn(net0, t, path, other) :: other == end
  {
    hide Inv, IsTree, LibOk, Still, Idle, Possible, Reached, Next;
    AfterPreload(net0, t, path);
    var net1 := Next(net0, Preload(t, path));
    var cs;
    cs, end := DeliveriesEnd(net1);
    hide Shape;
    assert Forwards(net0, t, path, cs, end);
    forall other | EndsIn(net0, t, path, other) ensures other == end {
      var ys :| Forwards(net0, t, path, ys, other);
      EndsAlike(net1, cs, ys, end, other);
    }
  }

  /** The states in which the names' turns come: `qs[k]` is where the first `k` names alone lead to. */
  ghost predicate Turns(net0: Net, t: Id, path: seq<Name>, qs: seq<Net>) {
    |qs| == |path| + 1 && forall k {:trigger qs[k]} | 0 <= k <= |path| :: EndsIn(net0, t, path[..k], qs[k])
  }

  lemma {:induction false} TurnsExist(net0: Net, t: Id, path: seq<Name>) returns (qs: seq<Net>)
    requires Shape(net0) && Inv(net0) && Idle(net0) && t in net0.par
    ensures Turns(net0, t, path, qs)
    decreases |path|
  {
    hide EndsIn, Shape, Inv, Idle;
    var end := EndExists(net0, t, path);
    assert path[..|path|] == path;
    if path == [] {
      qs := [end];
    } else {
      var less := path[..|path| - 1];
      qs := TurnsExist(net0, t, less);
      qs := qs + [end];
      forall k | 0 <= k <= |path| ensures EndsIn(net0, t, path[..k], qs[k]) {
        if k < |path| { assert less[..k] == path[..k]; }
      }
    }
  }
}
