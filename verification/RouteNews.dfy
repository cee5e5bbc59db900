/** Who hears that a context is gone: over whole runs, the children whose messages for it their parent
    has read, and nobody else. */
module RouteNews {
  import opened Prelude
  import opened Tree
  import opened Router
  import opened RouteMonitor
  import opened RoutingNet
  import opened ConvergenceSteps
  import opened ConvergenceConnect

  // ---- What is observed -------------------------------------------------------------------------------

  ghost predicate IsRun(steps: seq<Step>, nets: seq<Net>) {
    && |nets| == |steps| + 1 && Initial(nets[0])
    && forall i {:trigger steps[i]} | 0 <= i < |steps| ::
         Formed(nets[i]) && Enabled(nets[i], steps[i]) && nets[i+1] == Next(nets[i], steps[i])
  }

  /** The step reads a message for `x` on the stream of child `c`, and the message passes the checks.
      Route messages are for the parent itself. */
  ghost predicate Reads(net: Net, s: Step, c: Id, x: Id) {
    && s == ReceiveUp(c) && Formed(net) && Enabled(net, s)
    && match net.up[c][0]
       case Route(_) => x == net.owner[c]
       case Data(m) =>
         var n := net.nodes[net.owner[c]];
         m.dst == x && |m.data| <= n.maxSize && !AsyncRoute(n, m, Some(c)).Reject?
  }

  ghost predicate WroteTo(steps: seq<Step>, nets: seq<Net>, k: nat, c: Id, x: Id)
    requires k <= |steps| < |nets|
  {
    exists i {:trigger steps[i]} :: 0 <= i < k && Reads(nets[i], steps[i], c, x)
  }

  /** The step takes `x` from `p`'s table, other than by losing the parent, or tells `p` that somebody
      elsewhere is gone. */
  ghost predicate Loses(net: Net, s: Step, p: Id, x: Id)
    requires Formed(net) && Enabled(net, s) && p in net.nodes
  {
    var net' := Next(net, s);
    || (x in net.nodes[p].table && p in net'.nodes && x !in net'.nodes[p].table && s != LoseParent(p))
    || (s == ReceiveDel(p, x) && x !in net.nodes[p].table)
  }

  // ---- The record of what was read --------------------------------------------------------------------

  predicate Recorded(net: Net, c: Id, x: Id) {
    c in net.owner && net.owner[c] in net.nodes && x in net.nodes[net.owner[c]].EgressOf(c)
  }

  lemma SameEgress(n: Node, c: Id, x: Id, order: seq<Id>)
    ensures OnAddRoute(n, c, x).node.egress == n.egress && OnDelRoute(n, c, x).node.egress == n.egress
    ensures OnStreamDisconnect(n, c, order).node.egress == n.egress
  {
    if c in n.routes { DropsEgress(ForgetContexts(n, c).(routes := n.routes - {c}), order); }
  }

  lemma {:induction false} DropsEgress(n: Node, order: seq<Id>)
    ensures DropTargets(n, order).node.egress == n.egress
    decreases |order|
  {
    if order != [] { DropsEgress(DropTarget(n, order[0]).node, order[1..]); }
  }

  // ---- What a step changes ----------------------------------------------------------------------------

  /** The context a step happens in, its state afterwards, and the DEL_ROUTEs it sends down. */
  datatype Change = Change(at: Id, node: Node, down: set<(Id, Id)>)

  ghost function ChangeOf(net: Net, s: Step): Change
    requires Sound(net) && Enabled(net, s)
  {
    match s
    case Allocate(p) => Change(p, net.nodes[p], {})
    case GrantBlock(p) => Change(p, net.nodes[p], {})
    case Connect(c, uni) =>
      var p := net.pending[c];
      Change(p, NoticeStream(net.nodes[p], c).node, {})
    case ReceiveUp(c) =>
      var p := net.owner[c];
      var n := net.nodes[p];
      (match net.up[c][0]
       case Route(AddRoute(x)) => var e := OnAddRoute(Heard(n, c, p), c, x); Change(p, e.node, e.down)
       case Route(DelRoute(x)) => var e := OnDelRoute(Heard(n, c, p), c, x); Change(p, e.node, e.down)
       case Data(m) => Change(p, if Verified(n, m, c) then Heard(n, c, m.dst) else n, {}))
    case ReceiveDel(c, t) => var e := OnDelRoute(net.nodes[c], net.owner[c], t); Change(c, e.node, e.down)
    case Originate(p, m) => Change(p, net.nodes[p], {})
    case Disconnect(c, order) =>
      var p := net.owner[c];
      var e := OnStreamDisconnect(net.nodes[p], c, order);
      Change(p, e.node, e.down)
    case LoseParent(c) => var e := OnStreamDisconnect(net.nodes[c], net.owner[c], []); Change(c, e.node, e.down)
    case Learn(p, x) => Change(p, net.nodes[p].(contexts := net.nodes[p].contexts + {x}), {})
  }

  function ToldBy(h: Change, c: Id): set<Id> {
    set d | d in h.down && d.0 == c && c in h.node.routes :: d.1
  }

  /** A step changes one context, and tells the children it still has. */
  ghost predicate Changes(net: Net, net': Net, h: Change) {
    && net.owner.Keys <= net'.owner.Keys && net.nodes.Keys <= net'.nodes.Keys && net.told.Keys <= net'.told.Keys
    && (forall c | c in net.owner :: net'.owner[c] == net.owner[c])
    && (forall q | q in net.nodes :: net'.nodes[q] == if q == h.at then h.node else net.nodes[q])
    && (forall c | c in net.told :: net'.told[c] == net.told[c] + ToldBy(h, c))
  }

  lemma ApplyChanges(net: Net, p: Id, n: Node, sent: seq<Packet>, down: set<(Id, Id)>)
    requires p in net.up && p in net.nodes
    ensures Changes(net, Apply(net, p, n, sent, down), Change(p, n, down))
  {
  }

  lemma NoChange(net: Net, net': Net, p: Id)
    requires p in net.nodes && net'.owner == net.owner && net'.nodes == net.nodes && net'.told == net.told
    ensures Changes(net, net', Change(p, net.nodes[p], {}))
  {
    forall c ensures ToldBy(Change(p, net.nodes[p], {}), c) == {} { }
  }

  ghost predicate Sound(net: Net) {
    Formed(net) && net.nodes.Keys == net.owner.Keys + {0} && 0 !in net.owner && IsTree(net.owner)
    && (forall x {:trigger net.owner[x]} | x in net.owner :: net.owner[x] in net.nodes)
  }

  lemma SameStart(net: Net, net1: Net, net': Net, h: Change)
    requires Changes(net1, net', h) && net1.owner == net.owner && net1.nodes == net.nodes && net1.told == net.told
    ensures Changes(net, net', h)
  {
  }

  predicate Extends<V(==)>(m: map<Id, V>, m': map<Id, V>) {
    m.Keys <= m'.Keys && forall c | c in m :: m'[c] == m[c]
  }

  lemma ConnectStart(net: Net, net1: Net, net': Net, h: Change)
    requires Extends(net.owner, net1.owner) && Extends(net.nodes, net1.nodes) && Extends(net.told, net1.told)
    requires Changes(net1, net', h)
    ensures Changes(net, net', h)
  {
  }

  lemma ConnectChanges(net: Net, c: Id, uni: bool)
    requires Sound(net) && Enabled(net, Connect(c, uni)) && c !in net.nodes
    ensures Changes(net, Next(net, Connect(c, uni)), ChangeOf(net, Connect(c, uni)))
  {
    var p := net.pending[c];
    var net1 := net.(owner := net.owner[c := p], pending := net.pending - {c},
                     nodes := net.nodes[c := NewNode(net.nodes[p], c, uni)],
                     up := net.up[c := []], told := net.told[c := {}]);
    var e := NoticeStream(net.nodes[p], c);
    hide Changes, Apply, LinksOwned, IsTree, NewNode;
    assert c !in net.owner && net1.nodes[p] == net.nodes[p];
    hide NoticeStream;
    ApplyChanges(net1, p, e.node, Packets(e.up), e.down);
    assert e.down == {} by { NoticeTellsNobody(net.nodes[p], c); }
    ConnectStart(net, net1, Next(net, Connect(c, uni)), Change(p, e.node, {}));
  }

  lemma NoticeTellsNobody(n: Node, c: Id)
    ensures NoticeStream(n, c).down == {}
  {
  }

  lemma ReceiveChanges(net: Net, c: Id)
    requires Sound(net) && Enabled(net, ReceiveUp(c))
    ensures Changes(net, Next(net, ReceiveUp(c)), ChangeOf(net, ReceiveUp(c)))
  {
    var p := net.owner[c];
    var net1 := net.(up := net.up[c := net.up[c][1..]]);
    hide Heard, OnAddRoute, OnDelRoute, SentUp, Verified, Changes, Apply, LinksOwned, IsTree;
    SameStart(net, net1, Next(net, ReceiveUp(c)), ChangeOf(net, ReceiveUp(c))) by {
      ReceiveApplies(net, net1, c);
    }
  }

  lemma ReceiveApplies(net: Net, net1: Net, c: Id)
    requires Sound(net) && Enabled(net, ReceiveUp(c)) && net1 == net.(up := net.up[c := net.up[c][1..]])
    ensures Changes(net1, Next(net, ReceiveUp(c)), ChangeOf(net, ReceiveUp(c)))
  {
    hide Heard, OnAddRoute, OnDelRoute, SentUp, Verified, Changes, Apply, LinksOwned, IsTree;
    var p := net.owner[c];
    var n := net.nodes[p];
    assert p in net1.up && p in net1.nodes;
    match net.up[c][0]
    case Route(m) =>
      var e := if m.AddRoute? then OnAddRoute(Heard(n, c, p), c, m.target) else OnDelRoute(Heard(n, c, p), c, m.target);
      ApplyChanges(net1, p, e.node, Packets(e.up), e.down);
      hide Packets;
      assert Next(net, ReceiveUp(c)) == ApplyEffect(net1, p, e);
    case Data(m) =>
      var n' := if Verified(n, m, c) then Heard(n, c, m.dst) else n;
      ApplyChanges(net1, p, n', SentUp(n, m, Some(c)), {});
  }

  lemma StepChanges(net: Net, s: Step)
    requires Ready(net, s)
    ensures Changes(net, Next(net, s), ChangeOf(net, s))
  {
    hide OnDelRoute, OnStreamDisconnect, SentUp, Lists, LinksOwned, IsTree, Changes, Apply, NoticeStream, Heard, OnAddRoute;
    match s
    case Allocate(p) => NoChange(net, Next(net, s), p);
    case GrantBlock(p) => NoChange(net, Next(net, s), p);
    case Connect(c, uni) => ConnectChanges(net, c, uni);
    case ReceiveUp(c) => ReceiveChanges(net, c);
    case ReceiveDel(c, t) =>
      var e := OnDelRoute(net.nodes[c], net.owner[c], t);
      ApplyChanges(net, c, e.node, Packets(e.up), e.down);
    case Originate(p, m) => ApplyChanges(net, p, net.nodes[p], SentUp(net.nodes[p], m, None), {});
    case Disconnect(c, order) =>
      var e := OnStreamDisconnect(net.nodes[net.owner[c]], c, order);
      ApplyChanges(net, net.owner[c], e.node, Packets(e.up), e.down);
    case LoseParent(c) =>
      var e := OnStreamDisconnect(net.nodes[c], net.owner[c], []);
      ApplyChanges(net, c, e.node, Packets(e.up), e.down);
    case Learn(p, x) => ApplyChanges(net, p, net.nodes[p].(contexts := net.nodes[p].contexts + {x}), [], {});
  }

  lemma InvSound(net: Net)
    requires Inv(net)
    ensures Sound(net)
  {
    hide EdgeOk, DelOk, ToldOk, NodeOk, Allocators, LinksOwned, IsTree;
  }

  lemma FreshId(net: Net, s: Step)
    requires Inv(net) && Enabled(net, s) && s.Connect?
    ensures s.c !in net.nodes && s.c !in net.owner
  {
    hide EdgeOk, DelOk, ToldOk, NodeOk, PoolsOk, LinksOwned, IsTree;
  }

  /** All that the lemmas below need to know of a state in which a step is possible. */
  ghost predicate Ready(net: Net, s: Step) {
    && Sound(net) && Enabled(net, s)
    && (s.Connect? ==> s.c !in net.nodes && s.c !in net.owner)
    && (s.ReceiveDel? || s.LoseParent? ==> s.c in net.owner)
  }

  lemma InvReady(net: Net, s: Step)
    requires Inv(net) && Enabled(net, s)
    ensures Ready(net, s) && ChangeOf(net, s).at in net.nodes
    ensures NodeOk(net.owner, net.nodes, ChangeOf(net, s).at)
  {
    InvSound(net);
    if s.Connect? { FreshId(net, s); }
    hide Inv, Sound, Enabled, NodeOk;
    InActor(net, s);
    InvNode(net, ChangeOf(net, s).at);
  }

  lemma InActor(net: Net, s: Step)
    requires Ready(net, s)
    ensures ChangeOf(net, s).at in net.nodes
  {
    hide LinksOwned, IsTree, NoticeStream, OnAddRoute, OnDelRoute, OnStreamDisconnect, Heard, Verified, Lists;
  }

  lemma InvNode(net: Net, p: Id)
    requires Inv(net) && p in net.nodes
    ensures NodeOk(net.owner, net.nodes, p)
  {
    hide EdgeOk, DelOk, ToldOk, NodeOk, Allocators;
  }

  // ---- The record over a step -------------------------------------------------------------------------

  /** Only what is read is recorded. */
  lemma ChangeRecords(net: Net, s: Step, c: Id, x: Id)
    requires Ready(net, s) && c in net.owner && ChangeOf(net, s).at == net.owner[c]
    ensures x in ChangeOf(net, s).node.EgressOf(c) <==>
              x in net.nodes[net.owner[c]].EgressOf(c) || Reads(net, s, c, x)
  {
    hide OnAddRoute, OnDelRoute, OnStreamDisconnect, LinksOwned, IsTree, Lists;
    var n := net.nodes[net.owner[c]];
    match s
    case Allocate(_) =>
    case GrantBlock(_) =>
    case Connect(d, uni) =>
    case ReceiveUp(d) => ReadRecords(net, d, c, x);
    case ReceiveDel(d, t) => SameEgress(n, net.owner[d], t, []);
    case Originate(_, _) =>
    case Disconnect(d, order) => SameEgress(n, d, 0, order);
    case LoseParent(d) => SameEgress(n, net.owner[d], 0, []);
    case Learn(_, _) =>
  }

  lemma ReadRecords(net: Net, d: Id, c: Id, x: Id)
    requires Ready(net, ReceiveUp(d)) && c in net.owner && net.owner[d] == net.owner[c]
    ensures x in ChangeOf(net, ReceiveUp(d)).node.EgressOf(c) <==>
              x in net.nodes[net.owner[c]].EgressOf(c) || Reads(net, ReceiveUp(d), c, x)
  {
    hide OnAddRoute, OnDelRoute, LinksOwned, IsTree, AsyncRoute;
    if net.up[d][0].Route? {
      SameEgress(Heard(net.nodes[net.owner[d]], d, net.owner[d]), d, net.up[d][0].m.target, []);
    }
  }

  lemma StepRecords(net: Net, s: Step, c: Id, x: Id)
    requires Ready(net, s) && c in net.owner
    ensures c in Next(net, s).owner
    ensures Recorded(Next(net, s), c, x) <==> Recorded(net, c, x) || Reads(net, s, c, x)
  {
    hide Next, NodeOk, Enabled, LinksOwned, IsTree, ChangeOf, Reads;
    StepChanges(net, s);
    if ChangeOf(net, s).at == net.owner[c] { ChangeRecords(net, s, c, x); }
    else if Reads(net, s, c, x) { ReadsAt(net, s, c, x); }
  }

  lemma ReadsAt(net: Net, s: Step, c: Id, x: Id)
    requires Ready(net, s) && c in net.owner && Reads(net, s, c, x)
    ensures ChangeOf(net, s).at == net.owner[c]
  {
    hide OnAddRoute, OnDelRoute, LinksOwned, IsTree, AsyncRoute, Heard, Verified;
  }

  // ---- Who is told ------------------------------------------------------------------------------------

  /** A child stream that stays is told of what the table loses, if it wrote to it, and of nothing else. */
  ghost predicate TellsRightly(n: Node, e: Effect, c: Id) {
    forall x {:trigger (c, x) in e.down} ::
      (c, x) in e.down <==> x in n.table && x !in e.node.table && x in n.EgressOf(c)
  }

  /** The same if `t` was never in the table. */
  ghost predicate TellsOf(n: Node, e: Effect, c: Id, t: Id) {
    forall x {:trigger (c, x) in e.down} ::
      (c, x) in e.down <==> (x == t || (x in n.table && x !in e.node.table)) && x in n.EgressOf(c)
  }

  lemma AddTells(n: Node, src: Id, t: Id, c: Id)
    ensures TellsRightly(n, OnAddRoute(n, src, t), c)
  {
  }

  lemma DelTells(n: Node, d: Id, t: Id, c: Id)
    requires Agree(n) && d in n.routes && d != t && c in n.routes && n.parent != Some(c)
    ensures TellsRightly(n, OnDelRoute(n, d, t), c)
  {
    assert n.StreamFor(d) == Some(d) && c in n.routes[c] && n.table[c] == c;
    var e := OnDelRoute(n, d, t);
    if t in n.table && n.table[t] == d {
      assert e.node.table == n.table - {t} && c in e.node.table.Values by { assert e.node.table[c] == c; }
    }
  }

  lemma HeardTells(n: Node, t: Id, c: Id)
    requires Agree(n) && n.ParentStream().Some? && c in n.routes && n.parent != Some(c)
    requires t !in n.table || n.parent == Some(t)
    ensures TellsOf(n, OnDelRoute(n, n.parent.value, t), c, t)
  {
    assert c in n.routes[c] && n.table[c] == c;
    var e := OnDelRoute(n, n.parent.value, t);
    assert e.node.table == n.table - {t} && e.node.table[c] == c;
  }

  lemma DeadTells(n: Node, d: Id, order: seq<Id>, c: Id)
    requires Agree(n) && d in n.routes && Lists(order, n.routes[d]) && c in n.routes && c != d && n.parent != Some(c)
    ensures TellsRightly(n, OnStreamDisconnect(n, d, order), c)
  {
    DisconnectEffect(n, d, order);
    var e := OnStreamDisconnect(n, d, order);
    assert c in n.routes[c] && n.table[c] == c && e.node.table[c] == c;
    forall x
      ensures (c, x) in e.down <==> x in n.table && x !in e.node.table && x in n.EgressOf(c)
    {
      assert x in n.table && x !in e.node.table <==> x in n.routes[d];
      if (c, x) in e.down { assert (c, x).0 == c && (c, x).1 == x; }
    }
  }

  /** What the actor's tables say, and what a deleted id may not be. */
  ghost predicate Knows(net: Net, s: Step) {
    && Ready(net, s) && ChangeOf(net, s).at in net.nodes && NodeOk(net.owner, net.nodes, ChangeOf(net, s).at)
    && (s.ReceiveUp? && net.up[s.c][0].Route? && net.up[s.c][0].m.DelRoute? ==> net.up[s.c][0].m.target != s.c)
  }

  lemma InvKnows(net: Net, s: Step)
    requires Inv(net) && Enabled(net, s)
    ensures Knows(net, s)
  {
    InvReady(net, s);
    hide Inv, NodeOk, ChangeOf, Sound;
    if s.ReceiveUp? {
      EdgeFacts(net, s.c);
      hide Replay, Below, Offered;
    }
  }

  ghost predicate ToldRightly(h: Change, c: Id, lost: set<Id>) {
    forall x {:trigger (c, x) in h.down} :: (c, x) in h.down <==> x in lost && x in h.node.EgressOf(c)
  }

  /** What the table of the actor loses in the step, or is told is gone. */
  ghost function Lost(net: Net, s: Step): set<Id>
    requires Ready(net, s) && ChangeOf(net, s).at in net.nodes
  {
    var n, h := net.nodes[ChangeOf(net, s).at], ChangeOf(net, s);
    (if s.LoseParent? then {} else n.table.Keys - h.node.table.Keys)
    + (if s.ReceiveDel? && s.target !in n.table then {s.target} else {})
  }

  function OnRoute(n: Node, d: Id, m: RouteMsg): Effect {
    if m.AddRoute? then OnAddRoute(n, d, m.target) else OnDelRoute(n, d, m.target)
  }

  lemma RouteTells(n: Node, d: Id, m: RouteMsg, c: Id)
    requires Agree(n) && d in n.routes && (m.DelRoute? ==> m.target != d) && n.parent != Some(c)
    requires c in OnRoute(n, d, m).node.routes
    ensures var e := OnRoute(n, d, m);
            ToldRightly(Change(n.id, e.node, e.down), c, n.table.Keys - e.node.table.Keys)
  {
    SameEgress(n, d, m.target, []);
    OnRouteKeeps(n, d, m, c);
    hide Agree, OnAddRoute, OnDelRoute;
    if m.AddRoute? { AddTells(n, d, m.target, c); } else { DelTells(n, d, m.target, c); }
  }

  lemma OnRouteKeeps(n: Node, d: Id, m: RouteMsg, c: Id)
    requires Agree(n) && d in n.routes && c in OnRoute(n, d, m).node.routes
    ensures c in n.routes
  {
    assert n.StreamFor(d) == Some(d);
  }

  lemma HeardAlike(n: Node, d: Id, x: Id)
    requires Agree(n)
    ensures var n1 := Heard(n, d, x);
            Agree(n1) && n1.table == n.table && n1.routes == n.routes && n1.parent == n.parent && n1.id == n.id
  {
  }

  lemma ReadTells(net: Net, d: Id, c: Id)
    requires Knows(net, ReceiveUp(d)) && c in net.owner && net.owner[d] == net.owner[c]
    requires c in ChangeOf(net, ReceiveUp(d)).node.routes
    ensures ToldRightly(ChangeOf(net, ReceiveUp(d)), c, Lost(net, ReceiveUp(d)))
  {
    hide LinksOwned, IsTree, Below, AsyncRoute, Heard, OnAddRoute, OnDelRoute, Agree;
    var p := net.owner[d];
    var n := net.nodes[p];
    NotTheParent(net, c);
    HeardAlike(n, d, p);
    match net.up[d][0]
    case Route(m) => RouteTells(Heard(n, d, p), d, m, c);
    case Data(m) => HeardAlike(n, d, m.dst);
  }

  lemma NotTheParent(net: Net, c: Id)
    requires Sound(net) && c in net.owner && NodeOk(net.owner, net.nodes, net.owner[c])
    ensures net.nodes[net.owner[c]].parent != Some(c)
  {
    hide Agree, Below;
  }

  /** DEL_ROUTE from the parent. */
  lemma AboveTells(n: Node, t: Id, c: Id)
    requires Agree(n) && n.ParentStream().Some? && n.parent != Some(c)
    requires c in OnDelRoute(n, n.parent.value, t).node.routes
    ensures var e := OnDelRoute(n, n.parent.value, t);
            ToldRightly(Change(n.id, e.node, e.down), c,
                        (n.table.Keys - e.node.table.Keys) + if t !in n.table then {t} else {})
  {
    SameEgress(n, n.parent.value, t, []);
    assert n.table[n.parent.value] == n.parent.value;
    if t !in n.table || n.parent == Some(t) {
      HeardTells(n, t, c);
    } else {
      DelIgnored(n, n.parent.value, t);
    }
  }

  lemma DownTells(net: Net, d: Id, t: Id, c: Id)
    requires Knows(net, ReceiveDel(d, t)) && c in net.owner && net.owner[c] == d
    requires c in ChangeOf(net, ReceiveDel(d, t)).node.routes
    ensures ToldRightly(ChangeOf(net, ReceiveDel(d, t)), c, Lost(net, ReceiveDel(d, t)))
  {
    hide LinksOwned, IsTree, Below, OnDelRoute, Agree;
    NotTheParent(net, c);
    AboveTells(net.nodes[d], t, c);
  }

  lemma GoneTells(n: Node, d: Id, order: seq<Id>, c: Id)
    requires Agree(n) && d in n.routes && Lists(order, n.routes[d]) && n.parent != Some(c)
    requires c in OnStreamDisconnect(n, d, order).node.routes
    ensures var e := OnStreamDisconnect(n, d, order);
            ToldRightly(Change(n.id, e.node, e.down), c, n.table.Keys - e.node.table.Keys)
  {
    hide OnStreamDisconnect, Agree, Lists;
    SameEgress(n, d, 0, order);
    DisconnectEffect(n, d, order);
    DeadTells(n, d, order, c);
  }

  lemma LossTells(net: Net, d: Id, order: seq<Id>, c: Id)
    requires Knows(net, Disconnect(d, order)) && c in net.owner && net.owner[c] == net.owner[d]
    requires c in ChangeOf(net, Disconnect(d, order)).node.routes
    ensures ToldRightly(ChangeOf(net, Disconnect(d, order)), c, Lost(net, Disconnect(d, order)))
  {
    hide LinksOwned, IsTree, Below, OnStreamDisconnect, Agree, Lists;
    NotTheParent(net, c);
    GoneTells(net.nodes[net.owner[d]], d, order, c);
  }

  lemma OrphanTells(net: Net, d: Id, c: Id)
    requires Knows(net, LoseParent(d)) && c in net.owner && net.owner[c] == d
    ensures ToldRightly(ChangeOf(net, LoseParent(d)), c, Lost(net, LoseParent(d)))
  {
    hide LinksOwned, IsTree, Below, OnStreamDisconnect, Agree;
    LoseParentEffect(net.nodes[d], []);
  }

  lemma ChangeTells(net: Net, s: Step, c: Id)
    requires Knows(net, s) && c in net.owner && ChangeOf(net, s).at == net.owner[c] && c in ChangeOf(net, s).node.routes
    ensures ToldRightly(ChangeOf(net, s), c, Lost(net, s))
  {
    hide OnAddRoute, OnDelRoute, OnStreamDisconnect, LinksOwned, IsTree, Lists, Below, NodeOk;
    match s
    case Allocate(_) =>
    case GrantBlock(_) =>
    case Connect(d, uni) =>
    case ReceiveUp(d) => ReadTells(net, d, c);
    case ReceiveDel(d, t) => DownTells(net, d, t, c);
    case Originate(_, _) =>
    case Disconnect(d, order) => LossTells(net, d, order, c);
    case LoseParent(d) => OrphanTells(net, d, c);
    case Learn(_, _) =>
  }

  lemma NodeAfter(net: Net, s: Step, p: Id)
    requires Ready(net, s) && p in net.nodes
    ensures p in Next(net, s).nodes
    ensures Next(net, s).nodes[p] == if ChangeOf(net, s).at == p then ChangeOf(net, s).node else net.nodes[p]
  {
    StepChanges(net, s);
    hide Next, NodeOk, Enabled, LinksOwned, IsTree, ChangeOf;
  }

  lemma DelIsAt(net: Net, s: Step)
    requires Ready(net, s) && (s.ReceiveDel? || s.LoseParent?)
    ensures ChangeOf(net, s).at == s.c
  {
    hide OnDelRoute, OnStreamDisconnect, LinksOwned, IsTree;
  }

  lemma LosesIff(net: Net, s: Step, p: Id, x: Id)
    requires Knows(net, s) && p in net.nodes
    ensures Loses(net, s, p, x) <==> ChangeOf(net, s).at == p && x in Lost(net, s)
  {
    hide Next, NodeOk, Enabled, LinksOwned, IsTree, ChangeOf;
    NodeAfter(net, s, p);
    if s.ReceiveDel? || s.LoseParent? { DelIsAt(net, s); }
  }

  /** A child whose stream stays open is told in a step if its parent loses a route in that step, or hears
      that somebody is gone, and had read a message from the child for that id; and in no other case. */
  lemma StepTells(net: Net, s: Step, c: Id, x: Id)
    requires Knows(net, s) && c in net.owner && c in net.told && c in Next(net, s).owner && Open(Next(net, s), c)
    ensures c in Next(net, s).told
    ensures x in Next(net, s).told[c] <==>
              x in net.told[c] || (Loses(net, s, net.owner[c], x) && Recorded(Next(net, s), c, x))
  {
    var p := net.owner[c];
    LosesIff(net, s, p, x);
    StepChanges(net, s);
    StillThere(net, s, c);
    hide Next, NodeOk, Enabled, LinksOwned, IsTree, ChangeOf, Loses, Lost;
    var h := ChangeOf(net, s);
    if h.at == p {
      ChangeTells(net, s, c);
      ToldOnly(h, c, x);
    } else {
      assert x !in ToldBy(h, c);
    }
  }

  lemma ToldOnly(h: Change, c: Id, x: Id)
    ensures x in ToldBy(h, c) <==> (c, x) in h.down && c in h.node.routes
  {
    if (c, x) in h.down && c in h.node.routes { assert (c, x).0 == c && (c, x).1 == x; }
  }

  lemma FewerStreams(n: Node, d: Id, x: Id, order: seq<Id>)
    ensures OnAddRoute(n, d, x).node.routes.Keys <= n.routes.Keys && OnDelRoute(n, d, x).node.routes.Keys <= n.routes.Keys
    ensures OnStreamDisconnect(n, d, order).node.routes.Keys <= n.routes.Keys
  {
    if d in n.routes { DropsRoutes(ForgetContexts(n, d).(routes := n.routes - {d}), order); }
  }

  lemma {:induction false} DropsRoutes(n: Node, order: seq<Id>)
    ensures DropTargets(n, order).node.routes == n.routes
    decreases |order|
  {
    if order != [] { DropsRoutes(DropTarget(n, order[0]).node, order[1..]); }
  }

  lemma NoNewStreams(net: Net, s: Step)
    requires Ready(net, s) && ChangeOf(net, s).at in net.nodes
    ensures ChangeOf(net, s).node.routes.Keys <= net.nodes[ChangeOf(net, s).at].routes.Keys + (if s.Connect? then {s.c} else {})
  {
    hide OnAddRoute, OnDelRoute, OnStreamDisconnect, LinksOwned, IsTree, Lists;
    match s
    case Allocate(_) =>
    case GrantBlock(_) =>
    case Connect(d, uni) =>
    case ReceiveUp(d) =>
      var n1 := Heard(net.nodes[net.owner[d]], d, net.owner[d]);
      if net.up[d][0].Route? { FewerStreams(n1, d, net.up[d][0].m.target, []); }
    case ReceiveDel(d, t) => FewerStreams(net.nodes[d], net.owner[d], t, []);
    case Originate(_, _) =>
    case Disconnect(d, order) => FewerStreams(net.nodes[net.owner[d]], d, 0, order);
    case LoseParent(d) => FewerStreams(net.nodes[d], net.owner[d], 0, []);
    case Learn(_, _) =>
  }

  /** Only a context's own children are among its streams, before and after. */
  lemma StillThere(net: Net, s: Step, c: Id)
    requires Knows(net, s) && c in net.owner
    ensures c in ChangeOf(net, s).node.routes ==> ChangeOf(net, s).at == net.owner[c]
  {
    hide ChangeOf, LinksOwned, IsTree, Enabled, Agree, Below;
    NoNewStreams(net, s);
  }

  // ---- Whole runs -------------------------------------------------------------------------------------

  lemma InitialInv(net: Net)
    requires Initial(net)
    ensures Inv(net)
  {
  }

  lemma {:induction false} RunInv(steps: seq<Step>, nets: seq<Net>, k: nat)
    requires |nets| == |steps| + 1 && IsRun(steps, nets) && k <= |steps|
    ensures Inv(nets[k])
  {
    if k == 0 {
      InitialInv(nets[0]);
    } else {
      RunInv(steps, nets, k - 1);
      hide Inv, Next, Enabled, Initial;
      assert Enabled(nets[k-1], steps[k-1]);
      StepKeeps(nets[k-1], steps[k-1]);
    }
  }

  lemma RunStep(steps: seq<Step>, nets: seq<Net>, k: nat)
    requires |nets| == |steps| + 1 && IsRun(steps, nets) && k < |steps|
    ensures Knows(nets[k], steps[k]) && nets[k+1] == Next(nets[k], steps[k])
  {
    RunInv(steps, nets, k);
    hide Inv, Next;
    assert Enabled(nets[k], steps[k]);
    InvKnows(nets[k], steps[k]);
    hide Enabled, Initial, Knows;
  }

  /** A stream that is new has been written to by nobody. */
  lemma NewRecord(net: Net, s: Step, c: Id, x: Id)
    requires Ready(net, s) && c !in net.owner && c in Next(net, s).owner
    ensures !Recorded(Next(net, s), c, x)
  {
    hide OnAddRoute, OnDelRoute, OnStreamDisconnect, LinksOwned, IsTree, Lists, Heard, SentUp, Verified, NewNode;
  }

  lemma ReadsOwned(net: Net, s: Step, c: Id, x: Id)
    requires Reads(net, s, c, x)
    ensures c in net.owner
  {
  }

  lemma StillOwned(net: Net, s: Step, c: Id)
    requires Knows(net, s) && c in net.owner
    ensures c in Next(net, s).owner && Next(net, s).owner[c] == net.owner[c]
  {
    StepChanges(net, s);
    hide Next, Enabled, NodeOk, LinksOwned, IsTree, ChangeOf, ToldBy;
  }

  lemma {:induction false} OwnedLater(steps: seq<Step>, nets: seq<Net>, i: nat, k: nat, c: Id)
    requires |nets| == |steps| + 1 && IsRun(steps, nets) && i <= k <= |steps| && c in nets[i].owner
    ensures c in nets[k].owner && nets[k].owner[c] == nets[i].owner[c]
    decreases k
  {
    hide IsRun, Knows, Next, Enabled, NodeOk, LinksOwned, IsTree;
    if i < k {
      OwnedLater(steps, nets, i, k - 1, c);
      RunStep(steps, nets, k - 1);
      StillOwned(nets[k-1], steps[k-1], c);
    }
  }

  lemma WroteMore(steps: seq<Step>, nets: seq<Net>, k: nat, c: Id, x: Id)
    requires k < |steps| < |nets|
    ensures WroteTo(steps, nets, k + 1, c, x) <==> WroteTo(steps, nets, k, c, x) || Reads(nets[k], steps[k], c, x)
  {
    hide Reads;
  }

  /** The parent's record of a child is what it has read from it, whether the stream is still open or
      not. */
  lemma {:induction false} RecordedIff(steps: seq<Step>, nets: seq<Net>, k: nat, c: Id, x: Id)
    requires |nets| == |steps| + 1 && IsRun(steps, nets) && k <= |steps| && c in nets[k].owner
    ensures Recorded(nets[k], c, x) <==> WroteTo(steps, nets, k, c, x)
    decreases k
  {
    hide IsRun, Knows, Next, Reads, Recorded, WroteTo;
    if k == 0 {
      NobodyYet(steps, nets);
    } else {
      RunStep(steps, nets, k - 1);
      WroteMore(steps, nets, k - 1, c, x);
      if c in nets[k-1].owner {
        RecordedIff(steps, nets, k - 1, c, x);
        RecordsOn(nets[k-1], steps[k-1], c, x);
      } else {
        RecordsNew(nets[k-1], steps[k-1], c, x);
        NothingYet(steps, nets, k, c, x);
      }
    }
  }

  lemma NobodyYet(steps: seq<Step>, nets: seq<Net>)
    requires |nets| == |steps| + 1 && IsRun(steps, nets)
    ensures nets[0].owner == map[]
  {
  }

  lemma RecordsOn(net: Net, s: Step, c: Id, x: Id)
    requires Knows(net, s) && c in net.owner
    ensures Recorded(Next(net, s), c, x) <==> Recorded(net, c, x) || Reads(net, s, c, x)
  {
    hide Next, Enabled, NodeOk, LinksOwned, IsTree, Reads, Recorded;
    StepRecords(net, s, c, x);
  }

  lemma RecordsNew(net: Net, s: Step, c: Id, x: Id)
    requires Knows(net, s) && c !in net.owner && c in Next(net, s).owner
    ensures !Recorded(Next(net, s), c, x)
  {
    hide Next, Enabled, NodeOk, LinksOwned, IsTree, Reads, Recorded;
    NewRecord(net, s, c, x);
  }

  lemma NothingYet(steps: seq<Step>, nets: seq<Net>, k: nat, c: Id, x: Id)
    requires |nets| == |steps| + 1 && IsRun(steps, nets) && 0 < k <= |steps| && c !in nets[k-1].owner
    ensures !WroteTo(steps, nets, k, c, x)
  {
    forall i | 0 <= i < k ensures !Reads(nets[i], steps[i], c, x) {
      if Reads(nets[i], steps[i], c, x) {
        ReadsOwned(nets[i], steps[i], c, x);
        OwnedLater(steps, nets, i, k - 1, c);
      }
    }
  }

  /** In every run: a child whose stream stays open is told in a step that `x` is gone if and only if its
      parent loses its route to `x` in that step, or hears from above that `x` is gone, and has read a
      message for `x` on the child's stream at any time before, or reads one now. */
  lemma TellsWriters(steps: seq<Step>, nets: seq<Net>, k: nat, c: Id, x: Id)
    requires |nets| == |steps| + 1 && IsRun(steps, nets) && k < |steps| && c in nets[k].owner && Open(nets[k+1], c)
    ensures nets[k].owner[c] in nets[k].nodes && c in nets[k].told && c in nets[k+1].told
    ensures Formed(nets[k]) && Enabled(nets[k], steps[k])
    ensures x in nets[k+1].told[c] <==>
              x in nets[k].told[c]
              || (Loses(nets[k], steps[k], nets[k].owner[c], x) && WroteTo(steps, nets, k + 1, c, x))
  {
    var net, s := nets[k], steps[k];
    RunStep(steps, nets, k);
    hide IsRun, Next, Open, Loses, WroteTo;
    OwnedLater(steps, nets, k, k + 1, c);
    RecordedIff(steps, nets, k + 1, c, x);
    StepTells(net, s, c, x);
  }
}
