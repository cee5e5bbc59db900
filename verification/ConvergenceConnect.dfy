/** Allocation of ids and connection of new children; then the invariant over whole runs. */
module ConvergenceConnect {
  import opened Prelude
  import opened Tree
  import opened Router
  import opened RouteMonitor
  import opened RoutingNet
  import opened Convergence
  import opened ConvergenceSteps
  import opened ConvergenceLocal

  ghost predicate Grows(par: map<Id, Id>, par': map<Id, Id>, c: Id, p: Id) {
    par' == par[c := p] && c !in par && c != 0
  }

  /** The tree with the new leaf, and the new leaf's parent and own state in place. */
  ghost predicate Joined(net: Net, net': Net, c: Id, p: Id, n: Node, leaf: Node) {
    && p in net.nodes && c !in net.nodes && p in net.up && c != p
    && Grows(net.owner, net'.owner, c, p)
    && net'.nodes == net.nodes[c := leaf][p := n]
    && net'.told == net.told[c := {}]
    && n.routes == net.nodes[p].routes[c := {c}]
    && leaf.routes == map[]
  }

  lemma JoinCuts(net: Net, net': Net, c: Id, p: Id, n: Node, leaf: Node, y: Id, t: Id)
    requires Joined(net, net', c, p, n, leaf) && Cuts(net, y, t)
    ensures Cuts(net', y, t)
  {
    BelowGrows(net.owner, net'.owner, y, t);
  }

  lemma JoinTold(net: Net, net': Net, c: Id, p: Id, n: Node, leaf: Node)
    requires Joined(net, net', c, p, n, leaf) && Shape(net) && Formed(net') && AllToldOk(net)
    ensures AllToldOk(net')
  {
    hide Below;
    forall d | d in net'.nodes
      ensures ToldOk(net', d)
    {
      if d in net.nodes {
        assert ToldOk(net, d);
        forall t | t in net'.told[d]
          ensures exists y :: Cuts(net', y, t) && !Below(net'.owner, y, d)
        {
          var y :| Cuts(net, y, t) && !Below(net.owner, y, d);
          JoinCuts(net, net', c, p, n, leaf, y, t);
          if Below(net'.owner, y, d) {
            BelowShrinks(net.owner, net'.owner, y, d);
          }
        }
      }
    }
  }

  lemma JoinDel(net: Net, net': Net, c: Id, p: Id, n: Node, leaf: Node)
    requires Joined(net, net', c, p, n, leaf) && Formed(net) && Formed(net') && AllDelOk(net)
    requires forall d, t | d in net'.nodes && Route(DelRoute(t)) in net'.up[d] ::
               d in net.nodes && Route(DelRoute(t)) in net.up[d]
    ensures AllDelOk(net')
  {
    hide Below;
    forall d | d in net'.nodes
      ensures DelOk(net', d)
    {
      if d in net.nodes {
        assert DelOk(net, d);
        forall t | Route(DelRoute(t)) in net'.up[d]
          ensures exists y :: Cuts(net', y, t) && Below(net'.owner, d, y) && y != d
        {
          var y :| Cuts(net, y, t) && Below(net.owner, d, y) && y != d;
          JoinCuts(net, net', c, p, n, leaf, y, t);
          BelowGrows(net.owner, net'.owner, d, y);
        }
      }
    }
  }

  lemma OldNodeOk(owner: map<Id, Id>, nodes: map<Id, Node>, owner': map<Id, Id>, nodes': map<Id, Node>,
                  c: Id, p: Id, q: Id)
    requires q in nodes && NodeOk(owner, nodes, q) && Grows(owner, owner', c, p) && q != c
    requires nodes.Keys <= nodes'.Keys && nodes'[q] == nodes[q]
    ensures NodeOk(owner', nodes', q)
  {
    hide Below, Agree;
    forall s, x | s in nodes[q].routes && x in nodes[q].routes[s]
      ensures Below(owner', s, x)
    {
      BelowGrows(owner, owner', s, x);
    }
  }

  /** p knows nothing of an id that was never connected. */
  lemma Unknown(owner: map<Id, Id>, nodes: map<Id, Node>, p: Id, c: Id)
    requires p in nodes && NodeOk(owner, nodes, p) && c !in owner && c != 0 && c != p
    requires forall x {:trigger owner[x]} | x in owner :: owner[x] in owner || owner[x] == 0
    ensures c !in nodes[p].table && c !in Offered(nodes[p]) && nodes[p].parent != Some(c)
  {
    OfferedTable(nodes[p]);
  }

  lemma ParentJoins(owner: map<Id, Id>, nodes: map<Id, Node>, p: Id, c: Id, owner': map<Id, Id>, leaf: Node)
    requires p in nodes && NodeOk(owner, nodes, p) && Grows(owner, owner', c, p) && c != p
    requires forall x {:trigger owner[x]} | x in owner :: owner[x] in owner || owner[x] == 0
    ensures var e := NoticeStream(nodes[p], c);
            && NodeOk(owner', nodes[c := leaf][p := e.node], p)
            && Offered(e.node) == Offered(nodes[p]) + {c}
            && c !in Offered(nodes[p])
            && e.up == PropagateUp(nodes[p], AddRoute(c)) && e.down == {}
            && e.node.ParentStream() == nodes[p].ParentStream()
  {
    hide Below, Offered;
    var n := nodes[p];
    var n' := NoticeStream(n, c).node;
    Unknown(owner, nodes, p, c);
    AgreeNotice(n, c);
    OfferedTable(n);
    OfferedTable(n');
    hide Agree;
    BelowSelf(owner', c);
    forall s, x | s in n.routes && x in n.routes[s]
      ensures Below(owner', s, x)
    {
      BelowGrows(owner, owner', s, x);
    }
  }

  lemma LeafOk(owner: map<Id, Id>, nodes: map<Id, Node>, p: Id, c: Id, parent: Node, uni: bool)
    requires c in nodes && c in owner && owner[c] == p && parent.id == p
    requires nodes[c] == NewNode(parent, c, uni)
    ensures NodeOk(owner, nodes, c) && Offered(nodes[c]) == {c}
    ensures nodes[c].ParentStream() == Some(p)
  {
  }

  lemma OldEdge(net: Net, net': Net, c: Id, p: Id, n: Node, leaf: Node, d: Id)
    requires Joined(net, net', c, p, n, leaf) && d in net.nodes && d in net.up && EdgeOk(net, d)
    requires d != p && d != c && d in net'.up && net'.up[d] == net.up[d]
    ensures EdgeOk(net', d)
  {
    hide Below, Offered;
    if Open(net', d) {
      assert Open(net, d);
      GoodGrows(net.owner, net'.owner, d, net.up[d], net.nodes[net.owner[d]].routes[d]);
    }
  }

  lemma ParentEdge(net: Net, net': Net, c: Id, p: Id, n: Node, leaf: Node)
    requires Joined(net, net', c, p, n, leaf) && p in net.up && EdgeOk(net, p)
    requires p in net'.up && IsTree(net'.owner)
    requires n.ParentStream() == net.nodes[p].ParentStream()
    requires net'.up[p] == net.up[p] + Packets(PropagateUp(n, AddRoute(c)))
    requires Offered(n) == Offered(net.nodes[p]) + {c} && c !in Offered(net.nodes[p])
    ensures EdgeOk(net', p)
  {
    hide Below, Offered;
    if Open(net', p) {
      var q := net.up[p];
      var r := net.nodes[net.owner[p]].routes[p];
      assert Open(net, p) && net'.nodes[net'.owner[p]].routes[p] == r;
      GoodGrows(net.owner, net'.owner, p, q, r);
      if LinkUp(net', p) {
        var sent := Packets([AddRoute(c)]);
        assert sent == [Route(AddRoute(c))];
        BelowSelf(net'.owner, c);
        ChildBelow(net'.owner, p, c, c);
        GoodOne(net'.owner, p, Route(AddRoute(c)), Offered(net.nodes[p]));
        GoodAppend(net'.owner, p, q, sent, r);
        ReplayAppend(q, sent, r);
      } else {
        assert net'.up[p] == q;
      }
    }
  }

  lemma ToldNothing(net: Net, p: Id, n: Node, sent: seq<Packet>)
    requires p in net.up
    ensures Apply(net, p, n, sent, {}).told == net.told
  {
    var none: set<(Id, Id)> := {};
    assert forall c | c in net.told ::
        net.told[c] + (set d | d in none && d.0 == c && c in n.routes :: d.1) == net.told[c];
    assert Apply(net, p, n, sent, {}).told
        == map c | c in net.told ::
             net.told[c] + (set d | d in none && d.0 == c && c in n.routes :: d.1);
  }

  /** The whole of the new state, spelled out. */
  lemma ConnectFacts(net: Net, c: Id, uni: bool)
    requires Formed(net) && Enabled(net, Connect(c, uni)) && c !in net.owner && c != 0
    requires c !in net.nodes
    ensures var net' := Next(net, Connect(c, uni));
            var p := net.pending[c];
            var e := NoticeStream(net.nodes[p], c);
            && Joined(net, net', c, p, e.node, NewNode(net.nodes[p], c, uni))
            && net'.owner == net.owner[c := p] && net'.pending == net.pending - {c}
            && net'.next == net.next && net'.pool == net.pool
            && net'.up == net.up[c := []][p := net.up[p] + Packets(e.up)]
            && e.up == PropagateUp(e.node, AddRoute(c))
  {
    var p := net.pending[c];
    var net0 := net.(owner := net.owner[c := p], pending := net.pending - {c},
                     nodes := net.nodes[c := NewNode(net.nodes[p], c, uni)],
                     up := net.up[c := []], told := net.told[c := {}]);
    var e := NoticeStream(net.nodes[p], c);
    ToldNothing(net0, p, e.node, Packets(e.up));
  }

  lemma ConnectNews(net: Net, c: Id)
    requires Inv(net) && c in net.pending && net.pending[c] in net.nodes
    ensures c !in net.owner && c != 0 && c !in net.nodes && net.pending[c] < c
    ensures NodeOk(net.owner, net.nodes, net.pending[c]) && Shape(net)
    ensures net.pending[c] in net.up
  {
    hide EdgeOk, DelOk, ToldOk, NodeOk;
    assert NodeOk(net.owner, net.nodes, net.pending[c]);
  }

  lemma ConnectAllocators(net: Net, net': Net, c: Id)
    requires Allocators(net) && c in net.pending
    requires net'.owner == net.owner[c := net.pending[c]] && net'.pending == net.pending - {c}
    requires net'.next == net.next && net'.pool == net.pool
    ensures Allocators(net')
  {
    hide PoolsOk;
    assert net'.owner.Keys + net'.pending.Keys == net.owner.Keys + net.pending.Keys;
  }

  lemma JoinLinks(net: Net, net': Net, c: Id, p: Id, n: Node, leaf: Node)
    requires LinksOwned(net) && Joined(net, net', c, p, n, leaf)
    requires n.ParentStream() == net.nodes[p].ParentStream()
    ensures LinksOwned(net')
  {
    forall d | LinkUp(net', d)
      ensures d in net'.owner
    {
      assert d != c ==> LinkUp(net, d);
    }
  }

  lemma JoinShape(net: Net, net': Net, c: Id, p: Id, n: Node, leaf: Node)
    requires Shape(net) && Joined(net, net', c, p, n, leaf) && p < c
    requires net'.up.Keys == net.up.Keys + {c}
    requires n.ParentStream() == net.nodes[p].ParentStream()
    ensures Shape(net')
  {
    JoinLinks(net, net', c, p, n, leaf);
    hide LinksOwned;
  }

  lemma ConnectShape(net: Net, c: Id, uni: bool)
    requires Inv(net) && Enabled(net, Connect(c, uni))
    ensures Shape(Next(net, Connect(c, uni))) && Allocators(Next(net, Connect(c, uni)))
  {
    hide EdgeOk, DelOk, ToldOk, NodeOk, NoticeStream, Next;
    ConnectNews(net, c);
    ConnectFacts(net, c, uni);
    var p := net.pending[c];
    var n := net.nodes[p];
    var net' := Next(net, Connect(c, uni));
    ConnectAllocators(net, net', c);
    hide Allocators;
    InnerAgree(net.owner, net.nodes, p);
    NoticeKeepsStream(n, c, net.owner, net.nodes);
    JoinShape(net, net', c, p, NoticeStream(n, c).node, NewNode(n, c, uni));
  }

  lemma NoticeKeepsStream(n: Node, c: Id, owner: map<Id, Id>, nodes: map<Id, Node>)
    requires n.id in nodes && nodes[n.id] == n && NodeOk(owner, nodes, n.id) && c !in owner && c != 0
    requires forall x {:trigger owner[x]} | x in owner :: owner[x] in owner || owner[x] == 0
    requires c != n.id
    ensures NoticeStream(n, c).node.ParentStream() == n.ParentStream()
  {
    Unknown(owner, nodes, n.id, c);
  }

  lemma ConnectNodes(net: Net, c: Id, uni: bool)
    requires Inv(net) && Enabled(net, Connect(c, uni))
    ensures var net' := Next(net, Connect(c, uni));
            forall q {:trigger NodeOk(net'.owner, net'.nodes, q)} | q in net'.nodes ::
              NodeOk(net'.owner, net'.nodes, q)
  {
    hide EdgeOk, DelOk, ToldOk, Agree, Below, Allocators, NodeOk, NoticeStream, Next;
    ConnectNews(net, c);
    ConnectFacts(net, c, uni);
    var p := net.pending[c];
    var net' := Next(net, Connect(c, uni));
    var leaf := NewNode(net.nodes[p], c, uni);
    ParentJoins(net.owner, net.nodes, p, c, net'.owner, leaf);
    forall q | q in net'.nodes
      ensures NodeOk(net'.owner, net'.nodes, q)
    {
      if q == c {
        InnerAgree(net.owner, net.nodes, p);
        LeafOk(net'.owner, net'.nodes, p, c, net.nodes[p], uni);
      } else if q != p {
        assert NodeOk(net.owner, net.nodes, q);
        OldNodeOk(net.owner, net.nodes, net'.owner, net'.nodes, c, p, q);
      }
    }
  }

  lemma ConnectEdges(net: Net, c: Id, uni: bool)
    requires Inv(net) && Enabled(net, Connect(c, uni)) && Shape(Next(net, Connect(c, uni)))
    ensures var net' := Next(net, Connect(c, uni));
            forall d {:trigger EdgeOk(net', d)} | d in net'.nodes :: EdgeOk(net', d)
  {
    hide DelOk, ToldOk, Agree, Below, Allocators, NodeOk, NoticeStream, EdgeOk, Offered, Next;
    ConnectNews(net, c);
    ConnectFacts(net, c, uni);
    var p := net.pending[c];
    var net' := Next(net, Connect(c, uni));
    var leaf := NewNode(net.nodes[p], c, uni);
    var n := NoticeStream(net.nodes[p], c).node;
    assert EdgeOk(net, p);
    forall d | d in net'.nodes && d != p && d != c
      ensures EdgeOk(net', d)
    {
      assert EdgeOk(net, d);
      OldEdge(net, net', c, p, n, leaf, d);
    }
    hide Inv;
    InnerAgree(net.owner, net.nodes, p);
    ParentJoins(net.owner, net.nodes, p, c, net'.owner, leaf);
    ParentEdge(net, net', c, p, n, leaf);
    LeafOk(net'.owner, net'.nodes, p, c, net.nodes[p], uni);
    LeafEdge(net', c);
  }

  lemma LeafEdge(net: Net, c: Id)
    requires c in net.nodes && c in net.up && net.up[c] == []
    requires Offered(net.nodes[c]) == {c}
    requires Open(net, c) ==> net.nodes[net.owner[c]].routes[c] == {c}
    ensures EdgeOk(net, c)
  {
  }

  lemma ConnectKeeps(net: Net, c: Id, uni: bool)
    requires Inv(net) && Enabled(net, Connect(c, uni))
    ensures Inv(Next(net, Connect(c, uni)))
  {
    hide DelOk, ToldOk, Agree, Below, Allocators, NodeOk, EdgeOk, Offered, NoticeStream, Next;
    ConnectShape(net, c, uni);
    ConnectNodes(net, c, uni);
    ConnectEdges(net, c, uni);
    ConnectNews(net, c);
    ConnectFacts(net, c, uni);
    var p := net.pending[c];
    var net' := Next(net, Connect(c, uni));
    var n := NoticeStream(net.nodes[p], c).node;
    var leaf := NewNode(net.nodes[p], c, uni);
    JoinTold(net, net', c, p, n, leaf);
    JoinDel(net, net', c, p, n, leaf);
  }

  // ---- Ids -----------------------------------------------------------------------------------

  /** Nothing but the allocators' own state changed. */
  lemma IdsOnly(net: Net, net': Net)
    requires Inv(net) && Allocators(net')
    requires net' == net.(next := net'.next, pool := net'.pool, pending := net'.pending)
    ensures Inv(net')
  {
    hide Below, Agree, Good, Replay, Offered, NodeOk, Allocators;
    assert forall d :: LinkUp(net, d) <==> LinkUp(net', d);
    SameCuts(net, net');
    forall d | d in net'.nodes
      ensures EdgeOk(net', d) && DelOk(net', d) && ToldOk(net', d)
    {
      assert EdgeOk(net, d) && DelOk(net, d) && ToldOk(net, d);
    }
  }

  lemma TakeFromBlock(pool: map<Id, (nat, nat)>, used: set<Id>, next: nat, p: Id)
    requires PoolsOk(pool, used, next) && p in pool && pool[p].0 < pool[p].1
    ensures pool[p].0 !in used && p < pool[p].0 < next
    ensures PoolsOk(pool[p := (pool[p].0 + 1, pool[p].1)], used + {pool[p].0}, next)
  {
  }

  lemma NewBlock(pool: map<Id, (nat, nat)>, used: set<Id>, next: nat, next': nat, p: Id)
    requires PoolsOk(pool, used, next) && p < next <= next' && forall x | x in used :: x < next
    ensures PoolsOk(pool[p := (next, next')], used, next')
  {
  }

  lemma TakeNext(pool: map<Id, (nat, nat)>, used: set<Id>, next: nat)
    requires PoolsOk(pool, used, next)
    ensures PoolsOk(pool, used + {next}, next + 1)
  {
  }

  lemma AllocatorsAllocate(net: Net, p: Id)
    requires Formed(net) && net.nodes.Keys == net.owner.Keys + {0}
    requires Allocators(net) && Enabled(net, Allocate(p))
    ensures Allocators(Next(net, Allocate(p)))
  {
    hide PoolsOk;
    var net' := Next(net, Allocate(p));
    var used := net.owner.Keys + net.pending.Keys;
    if p == 0 {
      TakeNext(net.pool, used, net.next);
      assert net'.owner.Keys + net'.pending.Keys == used + {net.next};
    } else {
      TakeFromBlock(net.pool, used, net.next, p);
      assert net'.owner.Keys + net'.pending.Keys == used + {net.pool[p].0};
    }
  }

  lemma AllocatorsGrant(net: Net, p: Id)
    requires Formed(net) && net.nodes.Keys == net.owner.Keys + {0}
    requires Allocators(net) && Enabled(net, GrantBlock(p))
    ensures Allocators(Next(net, GrantBlock(p)))
  {
    hide PoolsOk;
    NewBlock(net.pool, net.owner.Keys + net.pending.Keys, net.next, net.next + BLOCK_SIZE, p);
  }

  /** The second value that allocate_block returns is not an id of the block: the master itself hands it
      out next, with the whole block still unused. */
  lemma BlockEndIsTaken(net: Net, p: Id)
    requires Formed(net) && 0 in net.nodes && Allocators(net) && Enabled(net, GrantBlock(p))
    ensures var net1 := Next(net, GrantBlock(p)); Formed(net1) && Enabled(net1, Allocate(0))
    ensures var (first, end) := Next(net, GrantBlock(p)).pool[p];
            first !in net.owner && first !in net.pending && first + 1000 == end
            && end in Next(Next(net, GrantBlock(p)), Allocate(0)).pending
  {
    var net1 := Next(net, GrantBlock(p));
    assert forall c :: LinkUp(net1, c) <==> LinkUp(net, c);
  }

  lemma AllocateKeeps(net: Net, p: Id)
    requires Inv(net) && Enabled(net, Allocate(p))
    ensures Inv(Next(net, Allocate(p)))
  {
    hide EdgeOk, DelOk, ToldOk, NodeOk, Allocators;
    AllocatorsAllocate(net, p);
    IdsOnly(net, Next(net, Allocate(p)));
  }

  lemma GrantBlockKeeps(net: Net, p: Id)
    requires Inv(net) && Enabled(net, GrantBlock(p))
    ensures Inv(Next(net, GrantBlock(p)))
  {
    hide EdgeOk, DelOk, ToldOk, NodeOk, Allocators;
    AllocatorsGrant(net, p);
    IdsOnly(net, Next(net, GrantBlock(p)));
  }

  // ---- Whole runs ----------------------------------------------------------------------------

  lemma StepKeeps(net: Net, s: Step)
    requires Inv(net) && Enabled(net, s)
    ensures Inv(Next(net, s))
  {
    assert Formed(net);
    hide Inv, Next, Open, Lists;
    match s
    case Allocate(p) => AllocateKeeps(net, p);
    case GrantBlock(p) => GrantBlockKeeps(net, p);
    case Connect(c, uni) => ConnectKeeps(net, c, uni);
    case ReceiveUp(c) =>
      match net.up[c][0] {
        case Route(AddRoute(x)) => ReceiveAddKeeps(net, c, x);
        case Route(DelRoute(x)) => ReceiveDelRouteKeeps(net, c, x);
        case Data(m) => ReceiveDataKeeps(net, c, m);
      }
    case ReceiveDel(c, t) => ReceiveDelKeeps(net, c, t);
    case Originate(p, m) => OriginateKeeps(net, p, m);
    case Disconnect(c, order) => DisconnectKeeps(net, c, order);
    case LoseParent(c) => LoseParentKeeps(net, c);
    case Learn(p, x) => LearnKeeps(net, p, x);
  }

  /** A state some finite run of steps leads to from a lone master. */
  ghost predicate Reachable(net: Net, run: seq<Step>)
    decreases |run|
  {
    if run == [] then Initial(net)
    else
      exists prior: Net ::
        Reachable(prior, run[..|run| - 1]) && Formed(prior) && Enabled(prior, run[|run| - 1])
        && net == Next(prior, run[|run| - 1])
  }

  lemma {:induction false} ReachableInv(net: Net, run: seq<Step>)
    requires Reachable(net, run)
    ensures Inv(net)
    decreases |run|
  {
    if run != [] {
      var prior: Net :|
        Reachable(prior, run[..|run| - 1]) && Formed(prior) && Enabled(prior, run[|run| - 1])
        && net == Next(prior, run[|run| - 1]);
      ReachableInv(prior, run[..|run| - 1]);
      StepKeeps(prior, run[|run| - 1]);
    }
  }
}
