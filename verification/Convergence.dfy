/** Every step of the tree keeps the invariant, so the routing tables converge. */
module Convergence {
  import opened Prelude
  import opened Tree
  import opened Router
  import opened RouteMonitor
  import opened RoutingNet

  /** The invariant, but for the edges between p and its children. */
  ghost predicate InvAround(net: Net, p: Id) {
    && Shape(net) && Allocators(net) && p in net.nodes
    && (forall q {:trigger NodeOk(net.owner, net.nodes, q)} | q in net.nodes ::
          NodeOk(net.owner, net.nodes, q))
    && (forall c {:trigger DelOk(net, c)} | c in net.nodes :: DelOk(net, c))
    && (forall c {:trigger ToldOk(net, c)} | c in net.nodes :: ToldOk(net, c))
    && (forall c {:trigger EdgeOk(net, c)} |
          c in net.nodes && !(c in net.owner && net.owner[c] == p) :: EdgeOk(net, c))
  }

  /** p's new state and what it sends are a legitimate continuation of its old ones. */
  ghost predicate Legit(net: Net, p: Id, n: Node, sent: seq<Packet>, down: set<(Id, Id)>)
    requires p in net.nodes && Formed(net)
  {
    var old_ := net.nodes[p];
    && NodeOk(net.owner, net.nodes[p := n], p)
    && n.routes.Keys <= old_.routes.Keys
    && (n.ParentStream().Some? ==> old_.ParentStream().Some?)
    && (if n.ParentStream().Some?
        then Good(net.owner, p, sent, Offered(old_)) && Replay(sent, Offered(old_)) == Offered(n)
        else sent == [])
  }

  /** Streams that were closed stay closed. */
  ghost predicate CutsStay(net: Net, net': Net) {
    && net'.owner == net.owner && net'.nodes.Keys == net.nodes.Keys
    && forall y | Severed(net, y) :: Severed(net', y)
  }

  lemma ApplyCuts(net: Net, p: Id, n: Node, sent: seq<Packet>, down: set<(Id, Id)>)
    requires Formed(net) && p in net.nodes && n.routes.Keys <= net.nodes[p].routes.Keys
    ensures CutsStay(net, Apply(net, p, n, sent, down))
  {
  }

  lemma ApplyLinks(net: Net, p: Id, n: Node, sent: seq<Packet>, down: set<(Id, Id)>)
    requires LinksOwned(net) && p in net.nodes && p in net.up
    requires n.ParentStream().Some? ==> net.nodes[p].ParentStream().Some?
    ensures LinksOwned(Apply(net, p, n, sent, down))
  {
    var net' := Apply(net, p, n, sent, down);
    forall c | LinkUp(net', c)
      ensures c in net.owner
    {
      assert LinkUp(net, c);
    }
  }

  lemma ApplyShape(net: Net, p: Id, n: Node, sent: seq<Packet>, down: set<(Id, Id)>)
    requires Shape(net) && p in net.nodes
    requires n.ParentStream().Some? ==> net.nodes[p].ParentStream().Some?
    ensures Shape(Apply(net, p, n, sent, down))
  {
    ApplyLinks(net, p, n, sent, down);
    ApplyKeys(net, p, n, sent, down);
    hide LinksOwned, Apply;
  }

  lemma ApplyKeys(net: Net, p: Id, n: Node, sent: seq<Packet>, down: set<(Id, Id)>)
    requires p in net.nodes && p in net.up
    ensures var net' := Apply(net, p, n, sent, down);
            && net'.owner == net.owner && net'.nodes.Keys == net.nodes.Keys
            && net'.up.Keys == net.up.Keys && net'.told.Keys == net.told.Keys
  {
  }

  lemma ApplyNodes(owner: map<Id, Id>, nodes: map<Id, Node>, p: Id, n: Node)
    requires p in nodes && NodeOk(owner, nodes[p := n], p)
    requires forall q {:trigger NodeOk(owner, nodes, q)} | q in nodes :: NodeOk(owner, nodes, q)
    ensures forall q {:trigger NodeOk(owner, nodes[p := n], q)} | q in nodes ::
              NodeOk(owner, nodes[p := n], q)
  {
    forall q | q in nodes
      ensures NodeOk(owner, nodes[p := n], q)
    {
      assert NodeOk(owner, nodes, q);
    }
  }

  ghost predicate AllDelOk(net: Net)
    requires Formed(net)
  {
    forall c {:trigger DelOk(net, c)} | c in net.nodes :: DelOk(net, c)
  }

  ghost predicate AllToldOk(net: Net)
    requires Formed(net)
  {
    forall c {:trigger ToldOk(net, c)} | c in net.nodes :: ToldOk(net, c)
  }

  /** Every id in `sent` that is to be deleted has been cut off below `p`. */
  ghost predicate DelsCut(net: Net, p: Id, sent: seq<Packet>) {
    forall t | Route(DelRoute(t)) in sent :: exists y :: Cuts(net, y, t) && Below(net.owner, p, y) && y != p
  }

  lemma ApplyDel(net: Net, p: Id, n: Node, sent: seq<Packet>, down: set<(Id, Id)>)
    requires Formed(net) && p in net.nodes && AllDelOk(net)
    requires var net' := Apply(net, p, n, sent, down); Formed(net') && CutsStay(net, net') && DelsCut(net', p, sent)
    ensures AllDelOk(Apply(net, p, n, sent, down))
  {
    var net' := Apply(net, p, n, sent, down);
    hide CutsStay, DelsCut, LinksOwned;
    forall c | c in net'.nodes
      ensures DelOk(net', c)
    {
      assert DelOk(net, c);
      ApplyDelAt(net, net', p, sent, c);
    }
  }

  lemma ApplyDelAt(net: Net, net': Net, p: Id, sent: seq<Packet>, c: Id)
    requires CutsStay(net, net') && DelsCut(net', p, sent) && c in net.up && c in net'.up && DelOk(net, c)
    requires net'.up[c] == if c == p then net.up[c] + sent else net.up[c]
    ensures DelOk(net', c)
  {
    hide Below, Severed;
    forall t | Route(DelRoute(t)) in net.up[c]
      ensures exists y :: Cuts(net', y, t) && Below(net'.owner, c, y) && y != c
    {
      var y :| Cuts(net, y, t) && Below(net.owner, c, y) && y != c;
      assert Cuts(net', y, t);
    }
  }

  lemma ApplyTold(net: Net, p: Id, n: Node, sent: seq<Packet>, down: set<(Id, Id)>)
    requires Formed(net) && p in net.nodes && AllToldOk(net)
    requires var net' := Apply(net, p, n, sent, down);
             && Formed(net') && CutsStay(net, net')
             && (forall d | d in down && d.0 in n.routes ::
                   exists y :: Cuts(net', y, d.1) && !Below(net.owner, y, d.0))
    ensures AllToldOk(Apply(net, p, n, sent, down))
  {
    hide Below;
    var net' := Apply(net, p, n, sent, down);
    forall c | c in net'.nodes
      ensures ToldOk(net', c)
    {
      assert ToldOk(net, c);
      forall t | t in net'.told[c]
        ensures exists y :: Cuts(net', y, t) && !Below(net'.owner, y, c)
      {
        if t in net.told[c] {
          var y :| Cuts(net, y, t) && !Below(net.owner, y, c);
          assert Cuts(net', y, t);
        } else {
          assert (c, t) in down;
        }
      }
    }
  }

  /** p's own edge: what p sends continues its queue. */
  lemma EdgeAbove(net: Net, p: Id, n: Node, sent: seq<Packet>, down: set<(Id, Id)>)
    requires Formed(net) && p in net.nodes && EdgeOk(net, p)
    requires n.ParentStream().Some? ==>
               && net.nodes[p].ParentStream().Some?
               && Good(net.owner, p, sent, Offered(net.nodes[p]))
               && Replay(sent, Offered(net.nodes[p])) == Offered(n)
    requires n.ParentStream().None? ==> sent == []
    requires p in net.owner ==> net.owner[p] != p
    ensures EdgeOk(Apply(net, p, n, sent, down), p)
  {
    var net' := Apply(net, p, n, sent, down);
    if Open(net', p) {
      var r := net.nodes[net.owner[p]].routes[p];
      if LinkUp(net', p) {
        GoodAppend(net.owner, p, net.up[p], sent, r);
        ReplayAppend(net.up[p], sent, r);
      } else {
        assert net.up[p] + sent == net.up[p];
      }
    }
  }

  lemma EdgeElsewhere(net: Net, p: Id, n: Node, sent: seq<Packet>, down: set<(Id, Id)>, c: Id)
    requires p in net.nodes && c in net.nodes && p in net.up && c in net.up && EdgeOk(net, c)
    requires c != p && !(c in net.owner && net.owner[c] == p)
    ensures EdgeOk(Apply(net, p, n, sent, down), c)
  {
  }

  /** Everything together: a step of p that continues p's queue, justifies its deletions, and
      leaves the edges to p's children in order keeps the invariant. */
  lemma ApplyKeeps(net: Net, p: Id, n: Node, sent: seq<Packet>, down: set<(Id, Id)>)
    requires InvAround(net, p) && Legit(net, p, n, sent, down)
    requires var net' := Apply(net, p, n, sent, down);
             && DelsCut(net', p, sent)
             && (forall d | d in down && d.0 in n.routes ::
                   exists y :: Cuts(net', y, d.1) && !Below(net.owner, y, d.0))
             && (forall c | c in n.routes :: c in net.nodes && EdgeOk(net', c))
    requires p in net.owner ==> EdgeOk(net, p)
    ensures Inv(Apply(net, p, n, sent, down))
  {
    var net' := Apply(net, p, n, sent, down);
    ApplyShape(net, p, n, sent, down);
    ApplyCuts(net, p, n, sent, down);
    ApplyNodes(net.owner, net.nodes, p, n);
    ApplyDel(net, p, n, sent, down);
    ApplyTold(net, p, n, sent, down);
    forall c | c in net'.nodes
      ensures EdgeOk(net', c)
    {
      if c == p {
        EdgeAbove(net, p, n, sent, down);
      } else if !(c in net.owner && net.owner[c] == p) {
        EdgeElsewhere(net, p, n, sent, down, c);
      }
    }
  }
}
