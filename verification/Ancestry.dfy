/** What a context is told when it is created holds for good: in every reachable state it knows exactly
    who is above it, and the size limit is the master's. */
module Ancestry {
  import opened Prelude
  import opened Tree
  import opened Router
  import opened RouteMonitor
  import opened RoutingNet
  import opened Convergence
  import opened ConvergenceConnect
  import opened RouteNews
  import opened ExactDelivery

  ghost predicate Ranked(net: Net) {
    0 in net.nodes
    && forall c {:trigger net.nodes[c]} | c in net.nodes ::
         net.nodes[c].id == c && KnowsAbove(net.owner, net.nodes[c]) && net.nodes[c].maxSize == net.nodes[0].maxSize
  }

  /** Nothing but tables, sets of routes and records ever changes in a context. */
  predicate Alike(n: Node, m: Node) {
    n.id == m.id && n.parent == m.parent && n.ancestors == m.ancestors && n.stamp == m.stamp
    && n.unidirectional == m.unidirectional && n.maxSize == m.maxSize
  }

  lemma EffectsAlike(n: Node, d: Id, x: Id, order: seq<Id>)
    ensures Alike(n, NoticeStream(n, x).node) && Alike(n, OnAddRoute(n, d, x).node)
    ensures Alike(n, OnDelRoute(n, d, x).node) && Alike(n, OnStreamDisconnect(n, d, order).node)
    ensures Alike(n, Heard(n, d, x))
  {
    if d in n.routes { DropsAlike(ForgetContexts(n, d).(routes := n.routes - {d}), order); }
  }

  lemma {:induction false} DropsAlike(n: Node, order: seq<Id>)
    ensures Alike(n, DropTargets(n, order).node)
    decreases |order|
  {
    if order != [] { DropsAlike(DropTarget(n, order[0]).node, order[1..]); }
  }

  lemma ChangeAlike(net: Net, s: Step)
    requires Ready(net, s) && ChangeOf(net, s).at in net.nodes
    ensures Alike(net.nodes[ChangeOf(net, s).at], ChangeOf(net, s).node)
  {
    hide NoticeStream, OnAddRoute, OnDelRoute, OnStreamDisconnect, Heard, Verified, LinksOwned, IsTree, Lists;
    match s
    case Allocate(_) =>
    case GrantBlock(_) =>
    case Connect(d, uni) => EffectsAlike(net.nodes[net.pending[d]], 0, d, []);
    case ReceiveUp(d) => ReadAlike(net, d);
    case ReceiveDel(d, t) => EffectsAlike(net.nodes[d], net.owner[d], t, []);
    case Originate(_, _) =>
    case Disconnect(d, order) => EffectsAlike(net.nodes[net.owner[d]], d, 0, order);
    case LoseParent(d) => EffectsAlike(net.nodes[d], net.owner[d], 0, []);
    case Learn(_, _) =>
  }

  lemma ReadAlike(net: Net, d: Id)
    requires Ready(net, ReceiveUp(d))
    ensures Alike(net.nodes[net.owner[d]], ChangeOf(net, ReceiveUp(d)).node)
  {
    hide OnAddRoute, OnDelRoute, Heard, Verified, LinksOwned, IsTree;
    var n := net.nodes[net.owner[d]];
    match net.up[d][0]
    case Route(m) =>
      EffectsAlike(n, d, net.owner[d], []);
      EffectsAlike(Heard(n, d, net.owner[d]), d, m.target, []);
    case Data(m) => EffectsAlike(n, d, m.dst, []);
  }

  // ---- A new context ------------------------------------------------------------------------------------

  /** `c` is nobody's parent yet. */
  ghost predicate Childless(owner: map<Id, Id>, c: Id) {
    c !in owner && forall y | y in owner :: owner[y] != c
  }

  /** Its parent is above it, and whoever is above its parent. */
  lemma LeafAbove(owner: map<Id, Id>, c: Id, p: Id, a: Id)
    requires Childless(owner, c) && p < c
    ensures a != c && Below(owner[c := p], a, c) <==> a == p || (a != p && Below(owner, a, p))
  {
    SameBelow(owner, c, p, a, p);
    BelowSelf(owner, p);
    if Below(owner, a, p) { BelowOrder(owner, a, p); }
  }

  lemma {:induction false} SameBelow(owner: map<Id, Id>, c: Id, p: Id, a: Id, x: Id)
    requires Childless(owner, c) && x != c
    ensures Below(owner[c := p], a, x) <==> Below(owner, a, x)
    decreases x
  {
    if x in owner && owner[x] < x {
      SameBelow(owner, c, p, a, owner[x]);
    }
  }

  lemma RankedConnect(owner: map<Id, Id>, nodes: map<Id, Node>, c: Id, p: Id, uni: bool)
    requires Childless(owner, c) && p < c && p in nodes && nodes[p].id == p && KnowsAbove(owner, nodes[p])
    ensures KnowsAbove(owner[c := p], NewNode(nodes[p], c, uni))
  {
    var leaf := NewNode(nodes[p], c, uni);
    forall a ensures a in leaf.ancestors <==> a != c && Below(owner[c := p], a, c) { LeafAbove(owner, c, p, a); }
  }

  lemma KnowsStill(owner: map<Id, Id>, c: Id, p: Id, n: Node, m: Node)
    requires Childless(owner, c) && n.id != c && KnowsAbove(owner, n) && Alike(n, m)
    ensures KnowsAbove(owner[c := p], m)
  {
    forall a ensures a in m.ancestors <==> a != m.id && Below(owner[c := p], a, m.id) { SameBelow(owner, c, p, a, n.id); }
  }

  /** What Connect does to the tree, and the new context's own state. */
  lemma ConnectTree(net: Net, c: Id, uni: bool)
    requires Ready(net, Connect(c, uni))
    ensures var net', p := Next(net, Connect(c, uni)), net.pending[c];
            && net'.owner == net.owner[c := p] && net'.nodes.Keys == net.nodes.Keys + {c}
            && net'.nodes[c] == NewNode(net.nodes[p], c, uni)
  {
    hide NoticeStream, LinksOwned, IsTree, NewNode;
  }

  lemma ReceiveKeepsTree(net: Net, c: Id)
    requires Ready(net, ReceiveUp(c))
    ensures Next(net, ReceiveUp(c)).owner == net.owner && Next(net, ReceiveUp(c)).nodes.Keys == net.nodes.Keys
  {
    hide OnAddRoute, OnDelRoute, LinksOwned, IsTree, Heard, SentUp, Verified, Apply;
    var p, net1 := net.owner[c], net.(up := net.up[c := net.up[c][1..]]);
    var n := net.nodes[p];
    match net.up[c][0]
    case Route(m) =>
      var e := OnRoute(Heard(n, c, p), c, m);
      ApplyKeys(net1, p, e.node, Packets(e.up), e.down);
      hide Packets;
    case Data(m) =>
      ApplyKeys(net1, p, if Verified(n, m, c) then Heard(n, c, m.dst) else n, SentUp(n, m, Some(c)), {});
  }

  lemma OthersKeepTree(net: Net, s: Step)
    requires Ready(net, s) && !s.Connect?
    ensures Next(net, s).owner == net.owner && Next(net, s).nodes.Keys == net.nodes.Keys
  {
    hide OnAddRoute, OnDelRoute, OnStreamDisconnect, LinksOwned, IsTree, Lists, Heard, SentUp, Verified, Apply;
    match s
    case Allocate(_) =>
    case GrantBlock(_) =>
    case ReceiveUp(c) => ReceiveKeepsTree(net, c);
    case ReceiveDel(c, t) =>
      var e := OnDelRoute(net.nodes[c], net.owner[c], t);
      ApplyKeys(net, c, e.node, Packets(e.up), e.down);
    case Originate(p, m) => ApplyKeys(net, p, net.nodes[p], SentUp(net.nodes[p], m, None), {});
    case Disconnect(c, order) =>
      var e := OnStreamDisconnect(net.nodes[net.owner[c]], c, order);
      ApplyKeys(net, net.owner[c], e.node, Packets(e.up), e.down);
    case LoseParent(c) =>
      var e := OnStreamDisconnect(net.nodes[c], net.owner[c], []);
      ApplyKeys(net, c, e.node, Packets(e.up), e.down);
    case Learn(p, x) => ApplyKeys(net, p, net.nodes[p].(contexts := net.nodes[p].contexts + {x}), [], {});
  }

  /** Every step keeps what contexts know of those above them. */
  lemma StepRanked(net: Net, s: Step)
    requires Ready(net, s) && ChangeOf(net, s).at in net.nodes && Ranked(net)
    requires s.Connect? ==> net.pending[s.c] < s.c
    ensures Ranked(Next(net, s))
  {
    var net' := Next(net, s);
    hide Next, ChangeOf, LinksOwned, IsTree, KnowsAbove;
    if s.Connect? { ConnectTree(net, s.c, s.unidirectional); } else { OthersKeepTree(net, s); }
    forall c | c in net'.nodes
      ensures net'.nodes[c].id == c && KnowsAbove(net'.owner, net'.nodes[c]) && net'.nodes[c].maxSize == net'.nodes[0].maxSize
    {
      StillAlike(net, s, 0);
      if c in net.nodes {
        StillAlike(net, s, c);
        if s.Connect? { KnowsStill(net.owner, s.c, net.pending[s.c], net.nodes[c], net'.nodes[c]); }
        else { KnowsToo(net.owner, net.nodes[c], net'.nodes[c]); }
      } else {
        RankedConnect(net.owner, net.nodes, s.c, net.pending[s.c], s.unidirectional);
      }
    }
  }

  lemma KnowsToo(owner: map<Id, Id>, n: Node, m: Node)
    requires KnowsAbove(owner, n) && Alike(n, m)
    ensures KnowsAbove(owner, m)
  {
  }

  lemma StillAlike(net: Net, s: Step, c: Id)
    requires Ready(net, s) && ChangeOf(net, s).at in net.nodes && c in net.nodes
    ensures c in Next(net, s).nodes && Alike(net.nodes[c], Next(net, s).nodes[c])
  {
    NodeAfter(net, s, c);
    ChangeAlike(net, s);
    hide Next, ChangeOf, LinksOwned, IsTree;
  }

  /** In every reachable state: `ancestors` is exactly the contexts above, and all contexts have the
      master's size limit. */
  lemma {:induction false} ReachableRanked(net: Net, run: seq<Step>)
    requires Reachable(net, run)
    ensures Ranked(net)
    decreases |run|
  {
    if run == [] {
      assert net.nodes.Keys == {0};
    } else {
      var prior: Net :|
        Reachable(prior, run[..|run| - 1]) && Formed(prior) && Enabled(prior, run[|run| - 1])
        && net == Next(prior, run[|run| - 1]);
      ReachableRanked(prior, run[..|run| - 1]);
      ReachableInv(prior, run[..|run| - 1]);
      hide Reachable, Next, Ranked;
      InvReady(prior, run[|run| - 1]);
      PendingBelow(prior, run[|run| - 1]);
      hide Inv, Enabled;
      StepRanked(prior, run[|run| - 1]);
    }
  }

  lemma PendingBelow(net: Net, s: Step)
    requires Inv(net) && Enabled(net, s)
    ensures s.Connect? ==> net.pending[s.c] < s.c
  {
    hide EdgeOk, DelOk, ToldOk, NodeOk, PoolsOk, LinksOwned, IsTree;
  }

  lemma ConnectOneWay(net: Net, c: Id, uni: bool)
    requires Ready(net, Connect(c, uni))
    ensures c in Next(net, Connect(c, uni)).nodes && Next(net, Connect(c, uni)).nodes[c].unidirectional == uni
  {
    ConnectTree(net, c, uni);
    hide Next, LinksOwned, IsTree;
  }

  /** In every run a context is one-way if and only if it was connected so. */
  lemma {:induction false} OneWayForGood(steps: seq<Step>, nets: seq<Net>, i: nat, k: nat)
    requires |nets| == |steps| + 1 && IsRun(steps, nets) && i < k <= |steps| && steps[i].Connect?
    ensures steps[i].c in nets[k].nodes && nets[k].nodes[steps[i].c].unidirectional == steps[i].unidirectional
    decreases k
  {
    hide IsRun, Next, NodeOk, LinksOwned, IsTree;
    RunStep(steps, nets, k - 1);
    if i == k - 1 {
      ConnectOneWay(nets[i], steps[i].c, steps[i].unidirectional);
    } else {
      OneWayForGood(steps, nets, i, k - 1);
      StillAlike(nets[k-1], steps[k-1], steps[i].c);
    }
  }
}
