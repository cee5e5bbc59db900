/** Exact tables route exactly.  What becomes of any message that a live context sends is known: it
    travels along the one path in the tree and is invoked at its destination only, or it stops at a
    known place; and whoever waits for a reply to it hears of that. */
module ExactDelivery {
  import opened Prelude
  import opened Tree
  import opened Router

  /** No id below the context is in its table but those of live contexts. */
  ghost predicate Tidy(par: map<Id, Id>, n: Node, live: set<Id>) {
    forall x | x in n.table && Below(par, n.id, x) :: x in live && x != n.id
  }

  /** `mitogen.parent_ids` is what it should be. */
  ghost predicate KnowsAbove(par: map<Id, Id>, n: Node) {
    forall a :: a in n.ancestors <==> a != n.id && Below(par, a, n.id)
  }

  /** n lists every live context below it under the child that leads there, and nothing else but
      its parent. */
  ghost predicate ExactNode(par: map<Id, Id>, n: Node, live: set<Id>)
    requires IsTree(par)
  {
    && n.stamp == map[]
    && n.ParentStream() == (if n.id in par then Some(par[n.id]) else None)
    && (forall x | x in live && x != n.id && Below(par, n.id, x) ::
          x in n.table && n.table[x] == Toward(par, n.id, x))
    && (forall x | x in n.table && !Below(par, n.id, x) ::
          n.id in par && n.table[x] == par[n.id])
    && Tidy(par, n, live) && KnowsAbove(par, n)
  }

  ghost predicate Exact(par: map<Id, Id>, nodes: map<Id, Node>, live: set<Id>) {
    && IsTree(par) && 0 !in par && 0 in live && 0 in nodes
    && forall n {:trigger n in live} {:trigger ExactNode(par, nodes[n], live)} | n in live ::
         && n in nodes && nodes[n].id == n && Below(par, 0, n)
         && (n != 0 ==> n in par && par[n] in live)
         && nodes[n].maxSize == nodes[0].maxSize
         && ExactNode(par, nodes[n], live)
  }

  // ---- Ways through the tree ----------------------------------------------------------------

  /** The last common ancestor. */
  ghost function Meet(par: map<Id, Id>, a: Id, b: Id): (m: Id)
    requires IsTree(par) && Below(par, 0, a) && Below(par, 0, b)
    ensures Below(par, m, a) && Below(par, m, b) && Below(par, 0, m)
    decreases a
  {
    if Below(par, a, b) then BelowSelf(par, a); a else MeetAbove(par, a, b); Meet(par, par[a], b)
  }

  lemma MeetAbove(par: map<Id, Id>, a: Id, b: Id)
    requires IsTree(par) && Below(par, 0, a) && Below(par, 0, b) && !Below(par, a, b)
    ensures a in par && par[a] < a && Below(par, 0, par[a])
  {
  }

  /** Nothing but the two ends and a one-way router in between can keep the message from getting there. */
  ghost predicate LetsPass(par: map<Id, Id>, nodes: map<Id, Node>, a: Id, b: Id)
    requires IsTree(par) && Below(par, 0, a) && Below(par, 0, b)
  {
    var m := Meet(par, a, b);
    m == a || m == b || (m in nodes && !nodes[m].unidirectional)
  }

  /** The way from a to b: up to their last common ancestor, then down. */
  ghost function Path(par: map<Id, Id>, a: Id, b: Id): (path: seq<Id>)
    requires IsTree(par) && Below(par, 0, a) && Below(par, 0, b)
    decreases !Below(par, a, b), if Below(par, a, b) then b - a else a
  {
    if a == b then [a]
    else if Below(par, a, b) then
      BelowOrder(par, a, b);
      RootAbove(par, a, b);
      [a] + Path(par, Toward(par, a, b), b)
    else
      [a] + Path(par, par[a], b)
  }

  lemma RootAbove(par: map<Id, Id>, a: Id, b: Id)
    requires IsTree(par) && Below(par, a, b) && a != b && Below(par, 0, a)
    ensures Below(par, 0, Toward(par, a, b))
  {
  }

  /** Routing msg, which has just arrived at the first context of the path, hands it on along the
      path, and what becomes of it at the end of the path is `out`. */
  ghost predicate Ends(nodes: map<Id, Node>, path: seq<Id>, from: Option<Id>, msg: Message, out: Action)
    decreases |path|
  {
    && path != [] && path[0] in nodes
    && var a := AsyncRoute(nodes[path[0]], msg, from);
       if |path| == 1 then a == out && !out.Forward?
       else a == Forward(path[1], msg) && Ends(nodes, path[1..], Some(path[0]), msg, out)
  }

  ghost predicate Travels(nodes: map<Id, Node>, path: seq<Id>, from: Option<Id>, msg: Message) {
    Ends(nodes, path, from, msg, Invoke(msg))
  }

  /** There is only one way a message can go. */
  lemma {:induction false} EndsOnce(
    nodes: map<Id, Node>, p: seq<Id>, q: seq<Id>, from: Option<Id>, msg: Message, out: Action, out': Action)
    requires Ends(nodes, p, from, msg, out) && Ends(nodes, q, from, msg, out') && p[0] == q[0]
    ensures p == q && out == out'
    decreases |p|
  {
    if |p| > 1 {
      EndsOnce(nodes, p[1..], q[1..], Some(p[0]), msg, out, out');
      assert p == [p[0]] + p[1..] && q == [q[0]] + q[1..];
    } else {
      assert p == [p[0]] && q == [q[0]];
    }
  }

  // ---- One hop ------------------------------------------------------------------------------

  /** The message came from the stream n would use to answer its sender, or was composed at n. */
  predicate CameRight(n: Node, from: Option<Id>, msg: Message) {
    from.None? || n.StreamFor(msg.src) == from
  }

  predicate Routable(n: Node, msg: Message) {
    msg.src == msg.auth && |msg.data| <= n.maxSize && n.stamp == map[]
  }

  /** It is not a one-way router's business to stop it on the way down. */
  predicate FromAbove(par: map<Id, Id>, n: Node, from: Option<Id>) {
    n.unidirectional ==> from.None? || (n.id in par && from == Some(par[n.id]))
  }

  lemma HopHere(n: Node, from: Option<Id>, msg: Message)
    requires Routable(n, msg) && CameRight(n, from, msg) && msg.dst == n.id
    ensures AsyncRoute(n, msg, from) == Invoke(msg)
  {
  }

  lemma ParentAbove(par: map<Id, Id>, n: Node)
    requires IsTree(par) && KnowsAbove(par, n) && n.id in par
    ensures par[n.id] in n.ancestors
  {
    assert Below(par, par[n.id], par[n.id]);
  }

  lemma HopDown(par: map<Id, Id>, live: set<Id>, n: Node, from: Option<Id>, msg: Message)
    requires Routable(n, msg) && CameRight(n, from, msg) && IsTree(par) && ExactNode(par, n, live)
    requires FromAbove(par, n, from) && msg.dst in live && msg.dst != n.id && Below(par, n.id, msg.dst)
    ensures AsyncRoute(n, msg, from) == Forward(Toward(par, n.id, msg.dst), msg)
  {
    if n.id in par { ParentAbove(par, n); }
  }

  /** Nobody below n is meant. */
  ghost predicate NotBelow(par: map<Id, Id>, live: set<Id>, n: Id, dst: Id) {
    dst != n && !(dst in live && Below(par, n, dst))
  }

  lemma HopUp(par: map<Id, Id>, live: set<Id>, n: Node, from: Option<Id>, msg: Message)
    requires Routable(n, msg) && CameRight(n, from, msg) && IsTree(par) && ExactNode(par, n, live)
    requires NotBelow(par, live, n.id, msg.dst) && n.id in par && from != Some(par[n.id])
    ensures AsyncRoute(n, msg, from) == Forward(par[n.id], msg)
  {
    ParentAbove(par, n);
  }

  /** A one-way router between two of its children. */
  lemma HopAcross(par: map<Id, Id>, live: set<Id>, n: Node, c: Id, msg: Message)
    requires Routable(n, msg) && CameRight(n, Some(c), msg) && IsTree(par) && ExactNode(par, n, live) && n.unidirectional
    requires c in par && par[c] == n.id && msg.dst in live && msg.dst != n.id && Below(par, n.id, msg.dst)
    ensures AsyncRoute(n, msg, Some(c)) == GiveUp(MaybeSendDead(n, true, msg, OneWay(c, Toward(par, n.id, msg.dst), n.id)))
  {
    if Below(par, c, n.id) { BelowOrder(par, c, n.id); }
    var d := Toward(par, n.id, msg.dst);
    if Below(par, d, n.id) { BelowOrder(par, d, n.id); }
  }

  /** The master has no route. */
  lemma HopNowhere(par: map<Id, Id>, live: set<Id>, n: Node, from: Option<Id>, msg: Message)
    requires Routable(n, msg) && CameRight(n, from, msg) && IsTree(par) && ExactNode(par, n, live) && n.id !in par
    requires NotBelow(par, live, n.id, msg.dst)
    ensures AsyncRoute(n, msg, from) == GiveUp(MaybeSendDead(n, true, msg, NoRoute(msg.dst, n.id)))
  {
  }

  /** A context below which the sender is not hears of it from its parent. */
  lemma RightFromAbove(par: map<Id, Id>, live: set<Id>, n: Node, msg: Message)
    requires IsTree(par) && ExactNode(par, n, live) && n.id in par && !Below(par, n.id, msg.src)
    ensures CameRight(n, Some(par[n.id]), msg)
  {
  }

  lemma RightFromBelow(par: map<Id, Id>, live: set<Id>, n: Node, c: Id, msg: Message)
    requires IsTree(par) && ExactNode(par, n, live) && c in par && par[c] == n.id
    requires msg.src in live && Below(par, c, msg.src)
    ensures CameRight(n, Some(c), msg)
  {
    ChildBelow(par, n.id, c, msg.src);
    TowardUnique(par, n.id, c, msg.src);
  }

  // ---- The whole way -------------------------------------------------------------------------

  lemma {:induction false} AncestorsLive(par: map<Id, Id>, nodes: map<Id, Node>, live: set<Id>, n: Id, x: Id)
    requires Exact(par, nodes, live) && x in live && Below(par, n, x)
    ensures n in live
    decreases x
  {
    hide ExactNode;
    if n != x {
      AncestorsLive(par, nodes, live, n, par[x]);
    }
  }

  lemma ExactAt(par: map<Id, Id>, nodes: map<Id, Node>, live: set<Id>, n: Id)
    requires Exact(par, nodes, live) && n in live
    ensures IsTree(par) && n in nodes && nodes[n].id == n && Below(par, 0, n) && ExactNode(par, nodes[n], live)
    ensures n != 0 ==> n in par && par[n] in live
    ensures n in par ==> n != 0
    ensures nodes[n].maxSize == nodes[0].maxSize
  {
    hide ExactNode;
  }

  lemma CanRoute(par: map<Id, Id>, nodes: map<Id, Node>, live: set<Id>, n: Id, msg: Message)
    requires Exact(par, nodes, live) && n in live && msg.src == msg.auth && |msg.data| <= nodes[0].maxSize
    ensures n in nodes && Routable(nodes[n], msg)
  {
    ExactAt(par, nodes, live, n);
  }

  lemma {:induction false} TravelsDown(
    par: map<Id, Id>, nodes: map<Id, Node>, live: set<Id>, n: Id, from: Option<Id>, msg: Message)
    requires Exact(par, nodes, live) && n in live && msg.dst in live
    requires msg.src == msg.auth && |msg.data| <= nodes[0].maxSize && CameRight(nodes[n], from, msg)
    requires Below(par, n, msg.dst)
    requires n != msg.dst ==> FromAbove(par, nodes[n], from) && !Below(par, Toward(par, n, msg.dst), msg.src)
    ensures Below(par, 0, n) && Below(par, 0, msg.dst)
    ensures Travels(nodes, Path(par, n, msg.dst), from, msg)
    decreases msg.dst - n
  {
    hide Exact, Below, AsyncRoute, ExactNode, Toward, CameRight;
    BelowOrder(par, n, msg.dst);
    ExactAt(par, nodes, live, n);
    ExactAt(par, nodes, live, msg.dst);
    CanRoute(par, nodes, live, n, msg);
    if n == msg.dst {
      HopHere(nodes[n], from, msg);
    } else {
      HopDown(par, live, nodes[n], from, msg);
      var d := Toward(par, n, msg.dst);
      AncestorsLive(par, nodes, live, d, msg.dst);
      ExactAt(par, nodes, live, d);
      RightFromAbove(par, live, nodes[d], msg);
      if d != msg.dst {
        var e := Toward(par, d, msg.dst);
        if Below(par, e, msg.src) {
          ChildBelow(par, d, e, msg.src);
        }
      }
      TravelsDown(par, nodes, live, d, Some(n), msg);
      assert Path(par, n, msg.dst)[1..] == Path(par, d, msg.dst);
    }
  }

  lemma {:induction false} TravelsUp(
    par: map<Id, Id>, nodes: map<Id, Node>, live: set<Id>, n: Id, from: Option<Id>, msg: Message)
    requires Exact(par, nodes, live) && n in live && msg.dst in live && msg.src in live
    requires msg.src == msg.auth && |msg.data| <= nodes[0].maxSize && CameRight(nodes[n], from, msg)
    requires Below(par, n, msg.src) && Below(par, 0, n) && Below(par, 0, msg.dst)
    requires from.Some? ==> from.value in par && par[from.value] == n
    requires var m := Meet(par, n, msg.dst);
             m == msg.dst || (from.None? && m == n) || (m in nodes && !nodes[m].unidirectional)
    requires Below(par, n, msg.dst) && n != msg.dst ==>
               !Below(par, Toward(par, n, msg.dst), msg.src)
    ensures Travels(nodes, Path(par, n, msg.dst), from, msg)
    decreases n
  {
    hide Exact, Below, AsyncRoute, ExactNode, Toward, CameRight;
    ExactAt(par, nodes, live, n);
    if Below(par, n, msg.dst) {
      TravelsDown(par, nodes, live, n, from, msg);
    } else {
      var p := par[n];
      ExactAt(par, nodes, live, p);
      CanRoute(par, nodes, live, n, msg);
      if n == msg.dst { BelowSelf(par, n); }
      HopUp(par, live, nodes[n], from, msg);
      RightFromBelow(par, live, nodes[p], n, msg);
      ChildBelow(par, p, n, msg.src);
      if Below(par, p, msg.dst) && p != msg.dst {
        var d := Toward(par, p, msg.dst);
        assert d != n;
        SiblingsDisjoint(par, n, d, msg.src);
      }
      MeetAbove(par, n, msg.dst);
      TravelsUp(par, nodes, live, p, Some(n), msg);
      assert Path(par, n, msg.dst)[1..] == Path(par, p, msg.dst);
    }
  }

  /** Exact delivery, between any two live contexts that no one-way router keeps apart. */
  lemma DeliveredExactly(
    par: map<Id, Id>, nodes: map<Id, Node>, live: set<Id>, a: Id, b: Id, msg: Message)
    requires Exact(par, nodes, live) && a in live && b in live
    requires msg.src == msg.auth == a && msg.dst == b && |msg.data| <= nodes[0].maxSize
    requires Below(par, 0, a) && Below(par, 0, b) && LetsPass(par, nodes, a, b)
    ensures Travels(nodes, Path(par, a, b), None, msg)
  {
    ExactAt(par, nodes, live, a);
    hide Exact, ExactNode, AsyncRoute;
    if Below(par, a, b) && a != b {
      var d := Toward(par, a, b);
      if Below(par, d, a) {
        BelowOrder(par, d, a);
      }
    }
    BelowSelf(par, a);
    TravelsUp(par, nodes, live, a, None, msg);
  }

  // ---- Messages that stop on the way -----------------------------------------------------------

  /** Where a message that is at n, having come from below, is when it reaches `top`. */
  ghost function Arrives(par: map<Id, Id>, n: Id, from: Option<Id>, top: Id): Option<Id>
    requires IsTree(par) && Below(par, top, n)
  {
    if n == top then from else Some(Toward(par, top, n))
  }

  lemma {:induction false} ClimbsTo(
    par: map<Id, Id>, nodes: map<Id, Node>, live: set<Id>, n: Id, from: Option<Id>, msg: Message, top: Id, out: Action)
    requires Exact(par, nodes, live) && n in live && msg.src in live && top in live
    requires msg.src == msg.auth && |msg.data| <= nodes[0].maxSize && CameRight(nodes[n], from, msg)
    requires Below(par, n, msg.src) && Below(par, 0, n) && Below(par, 0, top) && Below(par, top, n)
    requires from.Some? ==> from.value in par && par[from.value] == n
    requires forall x | Below(par, top, x) && x != top && Below(par, x, n) :: NotBelow(par, live, x, msg.dst)
    requires AsyncRoute(nodes[top], msg, Arrives(par, n, from, top)) == out && !out.Forward?
    ensures Ends(nodes, Path(par, n, top), from, msg, out)
    decreases n
  {
    hide Exact, AsyncRoute, ExactNode, CameRight, NotBelow;
    ExactAt(par, nodes, live, n);
    if n != top {
      var p := par[n];
      ExactAt(par, nodes, live, p);
      CanRoute(par, nodes, live, n, msg);
      BelowSelf(par, n);
      HopUp(par, live, nodes[n], from, msg);
      RightFromBelow(par, live, nodes[p], n, msg);
      ChildBelow(par, p, n, msg.src);
      forall x | Below(par, top, x) && x != top && Below(par, x, p) ensures NotBelow(par, live, x, msg.dst) { }
      ClimbsTo(par, nodes, live, p, Some(n), msg, top, out);
      if Below(par, n, top) { BelowOrder(par, n, top); BelowOrder(par, top, n); }
      assert Path(par, n, top)[1..] == Path(par, p, top);
    }
  }

  /** Whoever is above both is above their last common ancestor. */
  lemma {:induction false} MeetIsLast(par: map<Id, Id>, a: Id, b: Id, x: Id)
    requires IsTree(par) && Below(par, 0, a) && Below(par, 0, b) && Below(par, x, a) && Below(par, x, b)
    ensures Below(par, x, Meet(par, a, b))
    decreases a
  {
    if !Below(par, a, b) { MeetIsLast(par, par[a], b, x); }
  }

  /** Two children of a one-way router. */
  lemma StoppedAcross(par: map<Id, Id>, nodes: map<Id, Node>, live: set<Id>, a: Id, msg: Message)
    requires Exact(par, nodes, live) && a in live && msg.dst in live
    requires msg.src == msg.auth == a && |msg.data| <= nodes[0].maxSize
    requires Below(par, 0, a) && Below(par, 0, msg.dst) && !LetsPass(par, nodes, a, msg.dst)
    ensures var m := Meet(par, a, msg.dst);
            m != a && m != msg.dst && m in nodes
            && Ends(nodes, Path(par, a, m), None, msg,
                    GiveUp(MaybeSendDead(nodes[m], true, msg, OneWay(Toward(par, m, a), Toward(par, m, msg.dst), m))))
  {
    var m := Meet(par, a, msg.dst);
    AncestorsLive(par, nodes, live, m, a);
    ExactAt(par, nodes, live, m);
    ExactAt(par, nodes, live, a);
    CanRoute(par, nodes, live, m, msg);
    hide Exact, ExactNode, AsyncRoute;
    var c := Toward(par, m, a);
    RightFromBelow(par, live, nodes[m], c, msg);
    HopAcross(par, live, nodes[m], c, msg);
    forall x | Below(par, m, x) && x != m && Below(par, x, a) ensures NotBelow(par, live, x, msg.dst) {
      if Below(par, x, msg.dst) {
        MeetIsLast(par, a, msg.dst, x);
        BelowOrder(par, x, m);
        BelowOrder(par, m, x);
      }
      BelowSelf(par, x);
    }
    BelowSelf(par, a);
    ClimbsTo(par, nodes, live, a, None, msg, m,
             GiveUp(MaybeSendDead(nodes[m], true, msg, OneWay(c, Toward(par, m, msg.dst), m))));
  }

  /** Nobody of that id. */
  lemma StoppedAbove(par: map<Id, Id>, nodes: map<Id, Node>, live: set<Id>, a: Id, msg: Message)
    requires Exact(par, nodes, live) && a in live && msg.dst !in live
    requires msg.src == msg.auth == a && |msg.data| <= nodes[0].maxSize
    ensures IsTree(par) && Below(par, 0, a) && Below(par, 0, 0) && 0 in nodes
    ensures Ends(nodes, Path(par, a, 0), None, msg, GiveUp(MaybeSendDead(nodes[0], true, msg, NoRoute(msg.dst, 0))))
  {
    ExactAt(par, nodes, live, 0);
    ExactAt(par, nodes, live, a);
    CanRoute(par, nodes, live, 0, msg);
    var from := Arrives(par, a, None, 0);
    forall x | x != 0 && Below(par, x, a) ensures NotBelow(par, live, x, msg.dst) {
      AncestorsLive(par, nodes, live, x, a);
    }
    assert NotBelow(par, live, 0, msg.dst);
    hide Exact, ExactNode, AsyncRoute;
    if a != 0 { RightFromBelow(par, live, nodes[0], Toward(par, 0, a), msg); }
    HopNowhere(par, live, nodes[0], from, msg);
    BelowSelf(par, a);
    ClimbsTo(par, nodes, live, a, None, msg, 0, GiveUp(MaybeSendDead(nodes[0], true, msg, NoRoute(msg.dst, 0))));
  }

  /** The path is the path: it leads from a to b along edges of the tree and never visits a
      context twice. */
  lemma {:induction false} PathIsSimple(par: map<Id, Id>, a: Id, b: Id)
    requires IsTree(par) && Below(par, 0, a) && Below(par, 0, b)
    ensures var path := Path(par, a, b);
            && path != [] && path[0] == a && path[|path| - 1] == b
            && (forall i | 0 <= i < |path| - 1 ::
                  (path[i+1] in par && par[path[i+1]] == path[i])
                  || (path[i] in par && par[path[i]] == path[i+1]))
            && (forall i, j | 0 <= i < j < |path| :: path[i] != path[j])
            && (forall x | x in path ::
                  if Below(par, a, b) then a <= x && Below(par, x, b)
                  else Below(par, x, b) || x <= a)
    decreases !Below(par, a, b), if Below(par, a, b) then b - a else a
  {
    var path := Path(par, a, b);
    if a != b {
      var next := if Below(par, a, b) then Toward(par, a, b) else par[a];
      if Below(par, a, b) {
        BelowOrder(par, a, b);
        RootAbove(par, a, b);
      }
      hide Below, Toward;
      PathIsSimple(par, next, b);
      var rest := Path(par, next, b);
      assert path == [a] + rest;
      assert a !in rest;
    } else {
      BelowSelf(par, a);
    }
  }
}
