/** Messages on their way up: over whole runs, what a context has routed to its parent is what the parent
    has read from it, followed by what is still queued. */
module Upward {
  import opened Prelude
  import opened Tree
  import opened Router
  import opened RouteMonitor
  import opened RoutingNet
  import opened RouteNews
  import opened Ancestry

  function DataOf(q: seq<Packet>): seq<Message> {
    if q == [] then [] else (if q[0].Data? then [q[0].msg] else []) + DataOf(q[1..])
  }

  lemma {:induction false} DataAppend(a: seq<Packet>, b: seq<Packet>)
    ensures DataOf(a + b) == DataOf(a) + DataOf(b)
  {
    if a == [] {
      assert a + b == b;
    } else {
      ConcatTail(a, b);
      DataAppend(a[1..], b);
      ConcatAssoc(if a[0].Data? then [a[0].msg] else [], DataOf(a[1..]), DataOf(b));
    }
  }

  lemma {:induction false} NoData(q: seq<Packet>)
    requires forall p | p in q :: p.Route?
    ensures DataOf(q) == []
  {
    if q != [] {
      assert q[0] in q && forall p | p in q[1..] :: p in q;
      NoData(q[1..]);
    }
  }

  /** What is left for the parent once a context has routed a message. */
  function Climbing(n: Node, msg: Message, from: Option<Id>): seq<Message> {
    match AsyncRoute(n, msg, from)
    case Forward(stream, m) => if n.parent == Some(stream) then [m] else []
    case _ => []
  }

  /** What `c` routes to its parent in a step: a message of its own, or one it reads from a child. */
  ghost function Routes(net: Net, s: Step, c: Id): seq<Message>
    requires Ready(net, s) && c in net.nodes
  {
    match s
    case Originate(p, m) => if p == c then Climbing(net.nodes[c], m, None) else []
    case ReceiveUp(d) =>
      if net.owner[d] == c && net.up[d][0].Data? then Climbing(net.nodes[c], net.up[d][0].msg, Some(d)) else []
    case _ => []
  }

  /** What `c`'s parent reads from it in a step. */
  ghost function ReadFrom(net: Net, s: Step, c: Id): seq<Message>
    requires Ready(net, s)
  {
    if s == ReceiveUp(c) && net.up[c][0].Data? then [net.up[c][0].msg] else []
  }

  lemma SentUpIs(n: Node, msg: Message, from: Option<Id>)
    ensures DataOf(SentUp(n, msg, from)) == Climbing(n, msg, from)
  {
    var a := AsyncRoute(n, msg, from);
    if a.Forward? {
      assert [Data(a.msg)][1..] == [] && DataOf([Data(a.msg)]) == [a.msg] + DataOf([]);
    }
  }

  lemma RoutesNoData(ms: seq<RouteMsg>)
    ensures DataOf(Packets(ms)) == []
  {
    NoData(Packets(ms));
  }

  // ---- One step ---------------------------------------------------------------------------------------

  /** The queue after something was read from its front and something added at its end. */
  ghost predicate Moves(net: Net, net': Net, c: Id, read: seq<Message>, sent: seq<Message>) {
    c in net.up && c in net'.up && read + DataOf(net'.up[c]) == DataOf(net.up[c]) + sent
  }

  lemma ApplyMoves(net: Net, p: Id, n: Node, sent: seq<Packet>, down: set<(Id, Id)>, c: Id)
    requires p in net.up && c in net.up
    ensures Moves(net, Apply(net, p, n, sent, down), c, [], if c == p then DataOf(sent) else [])
  {
    DataAppend(net.up[p], sent);
  }

  lemma EffectMoves(net: Net, p: Id, e: Effect, c: Id)
    requires p in net.up && c in net.up
    ensures Moves(net, ApplyEffect(net, p, e), c, [], [])
  {
    RoutesNoData(e.up);
    ApplyMoves(net, p, e.node, Packets(e.up), e.down, c);
  }

  /** The first packet is read, and then the rest happens. */
  lemma ReadMoves(net: Net, d: Id, net1: Net, net': Net, c: Id, sent: seq<Message>)
    requires d in net.up && net.up[d] != [] && net1 == net.(up := net.up[d := net.up[d][1..]])
    requires Moves(net1, net', c, [], sent)
    ensures Moves(net, net', c, if c == d && net.up[d][0].Data? then [net.up[d][0].msg] else [], sent)
  {
    var read := if net.up[d][0].Data? then [net.up[d][0].msg] else [];
    if c == d {
      assert DataOf(net.up[d]) == read + DataOf(net1.up[d]);
      ConcatAssoc(read, DataOf(net1.up[d]), sent);
    }
  }

  lemma ReceiveMoves(net: Net, d: Id, c: Id)
    requires Ready(net, ReceiveUp(d)) && c in net.nodes
    ensures Moves(net, Next(net, ReceiveUp(d)), c, ReadFrom(net, ReceiveUp(d), c), Routes(net, ReceiveUp(d), c))
  {
    hide OnAddRoute, OnDelRoute, LinksOwned, IsTree, Heard, Verified, Apply, SentUp, Climbing, DataOf, Moves, ApplyEffect;
    var p, net1 := net.owner[d], net.(up := net.up[d := net.up[d][1..]]);
    var n := net.nodes[p];
    match net.up[d][0]
    case Route(m) =>
      var e := OnRoute(Heard(n, d, p), d, m);
      EffectMoves(net1, p, e, c);
      ReadMoves(net, d, net1, ApplyEffect(net1, p, e), c, []);
    case Data(m) =>
      SentUpIs(n, m, Some(d));
      var n' := if Verified(n, m, d) then Heard(n, d, m.dst) else n;
      ApplyMoves(net1, p, n', SentUp(n, m, Some(d)), {}, c);
      ReadMoves(net, d, net1, Apply(net1, p, n', SentUp(n, m, Some(d)), {}), c, if c == p then Climbing(n, m, Some(d)) else []);
  }

  lemma ConnectMoves(net: Net, d: Id, uni: bool, c: Id)
    requires Ready(net, Connect(d, uni)) && c in net.nodes
    ensures Moves(net, Next(net, Connect(d, uni)), c, [], [])
  {
    var p := net.pending[d];
    var net1 := net.(owner := net.owner[d := p], pending := net.pending - {d},
                     nodes := net.nodes[d := NewNode(net.nodes[p], d, uni)],
                     up := net.up[d := []], told := net.told[d := {}]);
    var e := NoticeStream(net.nodes[p], d);
    hide NoticeStream, LinksOwned, IsTree, NewNode, DataOf;
    EffectMoves(net1, p, e, c);
    hide ApplyEffect;
  }

  lemma StepMoves(net: Net, s: Step, c: Id)
    requires Ready(net, s) && c in net.nodes
    ensures Moves(net, Next(net, s), c, ReadFrom(net, s, c), Routes(net, s, c))
  {
    hide OnDelRoute, OnStreamDisconnect, LinksOwned, IsTree, Lists, SentUp, Climbing, DataOf, Moves, Apply;
    match s
    case Allocate(_) => SameMoves(net, Next(net, s), c);
    case GrantBlock(_) => SameMoves(net, Next(net, s), c);
    case Connect(d, uni) => ConnectMoves(net, d, uni, c);
    case ReceiveUp(d) => ReceiveMoves(net, d, c);
    case ReceiveDel(d, t) => EffectMoves(net, d, OnDelRoute(net.nodes[d], net.owner[d], t), c);
    case Originate(p, m) =>
      SentUpIs(net.nodes[p], m, None);
      ApplyMoves(net, p, net.nodes[p], SentUp(net.nodes[p], m, None), {}, c);
    case Disconnect(d, order) => EffectMoves(net, net.owner[d], OnStreamDisconnect(net.nodes[net.owner[d]], d, order), c);
    case LoseParent(d) => EffectMoves(net, d, OnStreamDisconnect(net.nodes[d], net.owner[d], []), c);
    case Learn(p, x) =>
      ApplyMoves(net, p, net.nodes[p].(contexts := net.nodes[p].contexts + {x}), [], {}, c);
      NoData([]);
  }

  lemma SameMoves(net: Net, net': Net, c: Id)
    requires c in net.up && net'.up == net.up
    ensures Moves(net, net', c, [], [])
  {
    assert DataOf(net.up[c]) + [] == DataOf(net.up[c]);
  }

  // ---- Whole runs -------------------------------------------------------------------------------------

  /** All that `c` has routed to its parent in the first `k` steps. */
  ghost function RoutedBy(steps: seq<Step>, nets: seq<Net>, k: nat, c: Id): seq<Message>
    requires k <= |steps| < |nets|
  {
    if k == 0 then []
    else
      RoutedBy(steps, nets, k - 1, c)
      + if Ready(nets[k-1], steps[k-1]) && c in nets[k-1].nodes then Routes(nets[k-1], steps[k-1], c) else []
  }

  /** All that its parent has read. */
  ghost function ReadBy(steps: seq<Step>, nets: seq<Net>, k: nat, c: Id): seq<Message>
    requires k <= |steps| < |nets|
  {
    if k == 0 then []
    else
      ReadBy(steps, nets, k - 1, c) + if Ready(nets[k-1], steps[k-1]) then ReadFrom(nets[k-1], steps[k-1], c) else []
  }

  lemma Requeue(a: seq<Message>, r: seq<Message>, q: seq<Message>, q': seq<Message>, s: seq<Message>)
    requires r + q' == q + s
    ensures (a + r) + q' == (a + q) + s
  {
    ConcatAssoc(a, r, q');
    ConcatAssoc(a, q, s);
  }

  /** No message is lost, repeated or overtaken on its way up: what the parent has read from a context is
      the beginning of what the context has routed to it, and the rest is queued in order. */
  lemma {:induction false} NothingLost(steps: seq<Step>, nets: seq<Net>, k: nat, c: Id)
    requires |nets| == |steps| + 1 && IsRun(steps, nets) && k <= |steps|
    ensures c in nets[k].nodes ==> c in nets[k].up && ReadBy(steps, nets, k, c) + DataOf(nets[k].up[c]) == RoutedBy(steps, nets, k, c)
    ensures c !in nets[k].nodes ==> ReadBy(steps, nets, k, c) == [] == RoutedBy(steps, nets, k, c)
    decreases k
  {
    hide IsRun, Ready, Next, Routes, ReadFrom, DataOf;
    if k == 0 {
      AtFirst(steps, nets, c);
    } else {
      NothingLost(steps, nets, k - 1, c);
      RunStep(steps, nets, k - 1);
      assert Ready(nets[k-1], steps[k-1]);
      hide Knows;
      if c in nets[k-1].nodes {
        OneMoves(nets[k-1], steps[k-1], nets[k], c);
        Requeue(ReadBy(steps, nets, k - 1, c), ReadFrom(nets[k-1], steps[k-1], c), DataOf(nets[k-1].up[c]),
                DataOf(nets[k].up[c]), Routes(nets[k-1], steps[k-1], c));
      } else {
        NewQueue(nets[k-1], steps[k-1], nets[k], c);
      }
    }
  }

  lemma AtFirst(steps: seq<Step>, nets: seq<Net>, c: Id)
    requires |nets| == |steps| + 1 && IsRun(steps, nets)
    ensures c in nets[0].nodes ==> c in nets[0].up && DataOf(nets[0].up[c]) == []
  {
  }

  lemma OneMoves(net: Net, s: Step, net': Net, c: Id)
    requires Knows(net, s) && net' == Next(net, s) && c in net.nodes
    ensures c in net'.nodes && Moves(net, net', c, ReadFrom(net, s, c), Routes(net, s, c))
  {
    hide Next, NodeOk, Moves, Routes, ReadFrom;
    StepMoves(net, s, c);
    NodeAfter(net, s, c);
  }

  /** A context that is new has sent no message yet. */
  lemma NewQueue(net: Net, s: Step, net': Net, c: Id)
    requires Knows(net, s) && net' == Next(net, s) && c !in net.nodes
    ensures Ready(net, s) && ReadFrom(net, s, c) == []
    ensures c in net'.nodes ==> c in net'.up && DataOf(net'.up[c]) == []
  {
    hide Next, NodeOk, LinksOwned, IsTree;
    if s.Connect? {
      ConnectTree(net, s.c, s.unidirectional);
      if c == s.c { ConnectQueue(net, c, s.unidirectional); }
    } else {
      OthersKeepTree(net, s);
    }
  }

  lemma ConnectQueue(net: Net, c: Id, uni: bool)
    requires Ready(net, Connect(c, uni))
    ensures c in Next(net, Connect(c, uni)).up && Next(net, Connect(c, uni)).up[c] == []
  {
    hide NoticeStream, LinksOwned, IsTree, NewNode;
  }
}
