/** The whole tree: every context's routing state, the FIFO of packets each context has sent to
    its parent, and the steps that can happen anywhere in it. */
module RoutingNet {
  import opened Prelude
  import opened Tree
  import opened Router
  import opened RouteMonitor

  datatype Packet = Route(m: RouteMsg) | Data(msg: Message)

  /** `owner` records which context created each connected context; `up[c]` is what `c` has sent
      to its parent and the parent has not yet read; `told[c]` collects the DEL_ROUTEs ever sent
      down to `c`, which may reach it in any order and number; `next` is the master's `next_id`,
      `pool[p]` the rest of the block `p` holds, and `pending` the ids allocated for children that
      are not connected (yet), with the context that allocated them. */
  datatype Net = Net(
    owner: map<Id, Id>, nodes: map<Id, Node>, up: map<Id, seq<Packet>>, told: map<Id, set<Id>>,
    next: nat, pool: map<Id, (nat, nat)>, pending: map<Id, Id>)

  const BLOCK_SIZE: nat := 1000

  datatype Step =
    | Allocate(p: Id)                          // Router.allocate_id in p
    | GrantBlock(p: Id)                        // the master serves p's ALLOCATE_ID
    | Connect(c: Id, unidirectional: bool)     // _complete_connection in the context that allocated c
    | ReceiveUp(c: Id)                         // c's parent reads one packet from c
    | ReceiveDel(c: Id, target: Id)            // c reads a DEL_ROUTE from its parent
    | Originate(p: Id, msg: Message)           // p sends a message of its own
    | Disconnect(c: Id, order: seq<Id>)        // c's parent finds c's stream dead
    | LoseParent(c: Id)                        // c finds its parent's stream dead
    | Learn(p: Id, x: Id)                      // p constructs a Context object for x

  /** The parent's end of c's stream is open. */
  predicate Open(net: Net, c: Id) {
    c in net.owner && net.owner[c] in net.nodes && c in net.nodes[net.owner[c]].routes
  }

  /** c's end of the stream to its parent is open. */
  predicate LinkUp(net: Net, c: Id) {
    c in net.nodes && net.nodes[c].ParentStream().Some?
  }

  predicate CanAllocate(net: Net, p: Id) {
    p in net.nodes && (p == 0 || (p in net.pool && net.pool[p].0 < net.pool[p].1))
  }

  /** Only a context that has a parent has a stream to one. */
  ghost predicate LinksOwned(net: Net) {
    forall c {:trigger LinkUp(net, c)} | LinkUp(net, c) :: c in net.owner
  }

  ghost predicate Formed(net: Net) {
    net.up.Keys == net.told.Keys == net.nodes.Keys && LinksOwned(net)
  }

  ghost predicate Enabled(net: Net, s: Step)
    requires Formed(net)
  {
    match s
    case Allocate(p) => CanAllocate(net, p)
    case GrantBlock(p) => p in net.nodes && p != 0 && !CanAllocate(net, p)
    case Connect(c, _) => c in net.pending && net.pending[c] in net.nodes
    case ReceiveUp(c) => c in net.nodes && Open(net, c) && net.up[c] != []
    case ReceiveDel(c, t) => c in net.nodes && LinkUp(net, c) && t in net.told[c]
    case Originate(p, m) => p in net.nodes && m.src == m.auth == p
    case Disconnect(c, order) =>
      c in net.nodes && Open(net, c) && Lists(order, net.nodes[net.owner[c]].routes[c])
    case LoseParent(c) => c in net.nodes && LinkUp(net, c)
    case Learn(p, x) => p in net.nodes
  }

  function Packets(ms: seq<RouteMsg>): (ps: seq<Packet>)
    ensures |ps| == |ms|
  {
    seq(|ms|, i requires 0 <= i < |ms| => Route(ms[i]))
  }

  /** Context p moves to state n, sends `sent` to its parent, and sends DEL_ROUTEs down; what is
      written to a stream that is no longer open is lost. */
  function Apply(net: Net, p: Id, n: Node, sent: seq<Packet>, down: set<(Id, Id)>): Net
    requires p in net.up
  {
    net.(nodes := net.nodes[p := n], up := net.up[p := net.up[p] + sent],
         told := map c | c in net.told ::
                   net.told[c] + (set d | d in down && d.0 == c && c in n.routes :: d.1))
  }

  function ApplyEffect(net: Net, p: Id, e: Effect): Net
    requires p in net.up
  {
    Apply(net, p, e.node, Packets(e.up), e.down)
  }

  /** The message got past the checks at the head of `_async_route`. */
  predicate Verified(n: Node, msg: Message, from: Id) {
    |msg.data| <= n.maxSize && !AsyncRoute(n, msg, Some(from)).Reject?
  }

  /** Any message read from a stream adds its destination to the stream's `egress_ids`. */
  function Heard(n: Node, from: Id, dst: Id): Node {
    n.(egress := n.egress[from := n.EgressOf(from) + {dst}])
  }

  /** What routing a message puts on the stream to the parent. */
  function SentUp(n: Node, msg: Message, from: Option<Id>): seq<Packet> {
    var a := AsyncRoute(n, msg, from);
    if a.Forward? && IsParentStream(n, a.stream) then [Data(a.msg)] else []
  }

  function NewNode(parent: Node, c: Id, unidirectional: bool): Node {
    Node(c, Some(parent.id), parent.ancestors + {parent.id}, map[parent.id := parent.id], map[],
         {parent.id}, map[], map[], unidirectional, parent.maxSize)
  }

  function Next(net: Net, s: Step): Net
    requires Formed(net) && Enabled(net, s)
  {
    match s
    case Allocate(p) =>
      if p == 0 then net.(pending := net.pending[net.next := 0], next := net.next + 1)
      else net.(pending := net.pending[net.pool[p].0 := p],
                pool := net.pool[p := (net.pool[p].0 + 1, net.pool[p].1)])
    case GrantBlock(p) =>
      net.(pool := net.pool[p := (net.next, net.next + BLOCK_SIZE)], next := net.next + BLOCK_SIZE)
    case Connect(c, uni) =>
      var p := net.pending[c];
      ApplyEffect(
        net.(owner := net.owner[c := p], pending := net.pending - {c},
             nodes := net.nodes[c := NewNode(net.nodes[p], c, uni)],
             up := net.up[c := []], told := net.told[c := {}]),
        p, NoticeStream(net.nodes[p], c))
    case ReceiveUp(c) =>
      var p := net.owner[c];
      var n := net.nodes[p];
      var net1 := net.(up := net.up[c := net.up[c][1..]]);
      (match net.up[c][0]
       case Route(AddRoute(x)) => ApplyEffect(net1, p, OnAddRoute(Heard(n, c, p), c, x))
       case Route(DelRoute(x)) => ApplyEffect(net1, p, OnDelRoute(Heard(n, c, p), c, x))
       case Data(m) =>
         Apply(net1, p, if Verified(n, m, c) then Heard(n, c, m.dst) else n,
               SentUp(n, m, Some(c)), {}))
    case ReceiveDel(c, t) =>
      ApplyEffect(net, c, OnDelRoute(net.nodes[c], net.owner[c], t))
    case Originate(p, m) =>
      Apply(net, p, net.nodes[p], SentUp(net.nodes[p], m, None), {})
    case Disconnect(c, order) =>
      var p := net.owner[c];
      ApplyEffect(net, p, OnStreamDisconnect(net.nodes[p], c, order))
    case LoseParent(c) =>
      ApplyEffect(net, c, OnStreamDisconnect(net.nodes[c], net.owner[c], []))
    case Learn(p, x) =>
      var n := net.nodes[p];
      Apply(net, p, n.(contexts := n.contexts + {x}), [], {})
  }

  ghost predicate Initial(net: Net) {
    exists unidirectional: bool, maxSize: nat ::
      net == Net(map[],
                 map[0 := Node(0, None, {}, map[], map[], {}, map[], map[], unidirectional, maxSize)],
                 map[0 := []], map[0 := {}], 1, map[], map[])
  }

  // ---- What a queue of packets amounts to ---------------------------------------------

  /** The set the parent holds for c, after one packet from c. */
  function After(m: Packet, r: set<Id>): set<Id> {
    match m
    case Route(AddRoute(x)) => r + {x}
    case Route(DelRoute(x)) => r - {x}
    case Data(_) => r
  }

  function Replay(q: seq<Packet>, r: set<Id>): set<Id>
    decreases |q|
  {
    if q == [] then r else Replay(q[1..], After(q[0], r))
  }

  /** A packet is news to a parent whose set for c is r: an added id is a descendant of c that is
      not in the set, a deleted one is, and a message comes from (and on the authority of) an id
      that is. */
  ghost predicate IsNews(par: map<Id, Id>, c: Id, m: Packet, r: set<Id>) {
    match m
    case Route(AddRoute(x)) => x !in r && x != c && Below(par, c, x)
    case Route(DelRoute(x)) => x in r && x != c && Below(par, c, x)
    case Data(d) => d.src in r && d.auth in r
  }

  /** Every packet of q is news when its turn comes. */
  ghost predicate Good(par: map<Id, Id>, c: Id, q: seq<Packet>, r: set<Id>)
    decreases |q|
  {
    q == [] || (IsNews(par, c, q[0], r) && Good(par, c, q[1..], After(q[0], r)))
  }

  lemma {:induction false} ReplayAppend(q: seq<Packet>, q': seq<Packet>, r: set<Id>)
    ensures Replay(q + q', r) == Replay(q', Replay(q, r))
    decreases |q|
  {
    if q == [] {
      assert q + q' == q';
    } else {
      assert (q + q')[1..] == q[1..] + q';
      ReplayAppend(q[1..], q', After(q[0], r));
    }
  }

  lemma {:induction false} GoodAppend(par: map<Id, Id>, c: Id, q: seq<Packet>, q': seq<Packet>, r: set<Id>)
    requires Good(par, c, q, r) && Good(par, c, q', Replay(q, r))
    ensures Good(par, c, q + q', r)
    decreases |q|
  {
    if q == [] {
      assert q + q' == q';
    } else {
      assert (q + q')[1..] == q[1..] + q';
      GoodAppend(par, c, q[1..], q', After(q[0], r));
    }
  }

  lemma {:induction false} GoodGrows(par: map<Id, Id>, par': map<Id, Id>, c: Id, q: seq<Packet>, r: set<Id>)
    requires Good(par, c, q, r)
    requires forall k | k in par :: k in par' && par'[k] == par[k]
    ensures Good(par', c, q, r)
    decreases |q|
  {
    if q != [] {
      if q[0].Route? {
        BelowGrows(par, par', c, q[0].m.target);
      }
      GoodGrows(par, par', c, q[1..], After(q[0], r));
    }
  }

  /** A run of DEL_ROUTEs for distinct known ids removes exactly those ids. */
  lemma {:induction false} GoodDels(par: map<Id, Id>, c: Id, order: seq<Id>, r: set<Id>)
    requires forall i | 0 <= i < |order| ::
               order[i] in r && order[i] != c && Below(par, c, order[i])
    requires forall i, j | 0 <= i < j < |order| :: order[i] != order[j]
    ensures var q := Packets(seq(|order|, i requires 0 <= i < |order| => DelRoute(order[i])));
            Good(par, c, q, r) && Replay(q, r) == r - (set x | x in order)
    decreases |order|
  {
    var q := Packets(seq(|order|, i requires 0 <= i < |order| => DelRoute(order[i])));
    if order != [] {
      var rest := order[1..];
      GoodDels(par, c, rest, r - {order[0]});
      assert q[1..] == Packets(seq(|rest|, i requires 0 <= i < |rest| => DelRoute(rest[i])));
      assert (r - {order[0]}) - (set x | x in rest) == r - (set x | x in order);
    }
  }

  // ---- The invariant --------------------------------------------------------------------

  /** The ids a context answers for: itself and everything its child streams lead to. */
  function Offered(n: Node): set<Id> {
    {n.id} + (set s, x | s in n.routes && x in n.routes[s] :: x)
  }

  ghost predicate Shape(net: Net) {
    && Formed(net)
    && IsTree(net.owner) && net.nodes.Keys == net.owner.Keys + {0} && 0 !in net.owner
    && (forall x {:trigger net.owner[x]} | x in net.owner :: net.owner[x] in net.nodes)
  }

  /** Blocks hold only ids greater than their holder's, none of them used, and do not meet. */
  ghost predicate PoolsOk(pool: map<Id, (nat, nat)>, used: set<Id>, next: nat) {
    && (forall p {:trigger pool[p]} | p in pool :: p < pool[p].0 <= pool[p].1 <= next)
    && (forall p, x {:trigger pool[p], x in used} | p in pool && x in used ::
          !(pool[p].0 <= x < pool[p].1))
    && (forall p, q {:trigger pool[p], pool[q]} | p in pool && q in pool && p != q ::
          pool[p].1 <= pool[q].0 || pool[q].1 <= pool[p].0
          || pool[p].0 == pool[p].1 || pool[q].0 == pool[q].1)
  }

  /** Ids already handed out and ids still in a block never meet: none is ever used twice, and
      the ids a context can hand out are all greater than its own. */
  ghost predicate Allocators(net: Net) {
    && net.next >= 1 && (forall x | x in net.owner :: x < net.next)
    && (forall x {:trigger net.pending[x]} {:trigger x in net.pending} | x in net.pending ::
          net.pending[x] < x < net.next && x !in net.owner)
    && PoolsOk(net.pool, net.owner.Keys + net.pending.Keys, net.next)
  }

  ghost predicate NodeOk(owner: map<Id, Id>, nodes: map<Id, Node>, p: Id)
    requires p in nodes
  {
    var n := nodes[p];
    && n.id == p && n.parent == (if p in owner then Some(owner[p]) else None)
    && n.stamp == map[]
    && Agree(n)
    && forall s | s in n.routes ::
         s in nodes && s in owner && owner[s] == p
         && forall x | x in n.routes[s] :: Below(owner, s, x)
  }

  /** Route convergence, edge by edge: what the parent knows about c, once it has read everything
      c has sent, is what c answers for. */
  ghost predicate EdgeOk(net: Net, c: Id)
    requires c in net.nodes && c in net.up
  {
    Open(net, c) ==>
      var r := net.nodes[net.owner[c]].routes[c];
      && Good(net.owner, c, net.up[c], r)
      && (LinkUp(net, c) ==> Replay(net.up[c], r) == Offered(net.nodes[c]))
  }

  /** y was connected and its parent has since closed its stream. */
  ghost predicate Severed(net: Net, y: Id) {
    y in net.nodes && y in net.owner && !Open(net, y)
  }

  ghost predicate Cuts(net: Net, y: Id, t: Id) {
    Severed(net, y) && Below(net.owner, y, t)
  }

  ghost predicate DelOk(net: Net, c: Id)
    requires c in net.up
  {
    forall t | Route(DelRoute(t)) in net.up[c] ::
      exists y :: Cuts(net, y, t) && Below(net.owner, c, y) && y != c
  }

  ghost predicate ToldOk(net: Net, c: Id)
    requires c in net.told
  {
    forall t | t in net.told[c] :: exists y :: Cuts(net, y, t) && !Below(net.owner, y, c)
  }

  ghost predicate Inv(net: Net) {
    && Shape(net) && Allocators(net)
    && (forall p {:trigger NodeOk(net.owner, net.nodes, p)} | p in net.nodes ::
          NodeOk(net.owner, net.nodes, p))
    && (forall c {:trigger EdgeOk(net, c)} | c in net.nodes :: EdgeOk(net, c))
    && (forall c {:trigger DelOk(net, c)} | c in net.nodes :: DelOk(net, c))
    && (forall c {:trigger ToldOk(net, c)} | c in net.nodes :: ToldOk(net, c))
  }
}
