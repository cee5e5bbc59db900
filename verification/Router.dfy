/** Routing of one message by one context: `Router._async_route` and `_maybe_send_dead`. */
module Router {
  import opened Prelude

  /** `data` is opaque to routing except for its length. */
  datatype Message = Message(
    enc: int, dst: Id, src: Id, auth: Id, handle: nat, replyTo: Option<nat>, data: seq<Byte>)
  {
    predicate IsDead() { replyTo == Some(IS_DEAD) }

    /** `reply_to` is usable as an address: neither missing nor zero. */
    predicate WantsReply() { replyTo.Some? && replyTo.value != 0 }
  }

  const IS_DEAD: nat := 999
  const ENC_MGC: int := 0x4d49

  /** One context's routing state.  A stream is named by the id of the context at its far end.
      `table` is `_stream_by_id`, `routes` is `_routes_by_stream`, `contexts` the keys of
      `_context_by_id`, `egress` the `egress_ids` of each stream, `stamp` the `auth_id` of the
      streams that have one, `ancestors` is `mitogen.parent_ids`. */
  datatype Node = Node(
    id: Id, parent: Option<Id>, ancestors: set<Id>,
    table: map<Id, Id>, routes: map<Id, set<Id>>, contexts: set<Id>, egress: map<Id, set<Id>>,
    stamp: map<Id, Id>, unidirectional: bool, maxSize: nat)
  {
    /** `_stream_by_id.get(mitogen.parent_id)` */
    function ParentStream(): Option<Id> {
      if parent.Some? && parent.value in table then Some(table[parent.value]) else None
    }

    /** `stream_by_id(x)`: the specific route if there is one, otherwise the parent's stream. */
    function StreamFor(x: Id): Option<Id> {
      if x in table then Some(table[x]) else ParentStream()
    }

    predicate Privileged(s: Id) {
      s in ancestors || (s in stamp && stamp[s] in ancestors + {id})
    }

    function EgressOf(s: Id): set<Id> {
      if s in egress then egress[s] else {}
    }
  }

  datatype Reason =
    | TooLarge(max: nat)
    | NoRoute(dst: Id, me: Id)
    | OneWay(from: Id, to: Id, via: Id)
    | InvalidHandle
    | UnexpectedContext
    | Refused

  function Decimal(n: nat): (s: string)
    ensures |s| >= 1
  {
    if n < 10 then [('0' as int + n) as char] else Decimal(n / 10) + Decimal(n % 10)
  }

  function Text(r: Reason): string {
    match r
    case TooLarge(max) => "message too large (max " + Decimal(max) + " bytes)"
    case NoRoute(dst, me) => "no route to " + Decimal(dst) + ", my ID is " + Decimal(me)
    case OneWay(from, to, via) =>
      "routing mode prevents forward of message from context " + Decimal(from) + " to context "
      + Decimal(to) + " via context " + Decimal(via)
    case InvalidHandle => "invalid handle"
    case UnexpectedContext => "reply from unexpected context"
    case Refused => "refused by policy"
  }

  function Ascii(s: string): (b: seq<Byte>)
    ensures |b| == |s|
  {
    seq(|s|, i requires 0 <= i < |s| => if s[i] as int < 128 then s[i] as int else 63)
  }

  /** A dead message composed at `me`; the constructor stamps both source ids. */
  function Dead(me: Id, dst: Id, handle: nat, reason: Reason): Message {
    Message(ENC_MGC, dst, me, me, handle, Some(IS_DEAD), Ascii(Text(reason)))
  }

  function MaybeSendDead(n: Node, unreachable: bool, msg: Message, reason: Reason): Option<Message> {
    if msg.WantsReply() && !msg.IsDead() then
      Some(Dead(n.id, msg.src, msg.replyTo.value, reason))
    else if !unreachable then
      Some(Dead(n.id, msg.dst, msg.handle, reason))
    else
      None
  }

  /** What routing one message comes to: hand it to a local handler, pass it to a stream, drop
      it because it failed source verification, or give up, perhaps composing a dead message. */
  datatype Action =
    | Invoke(msg: Message)
    | Forward(stream: Id, msg: Message)
    | Reject
    | GiveUp(dead: Option<Message>)

  function AsyncRoute(n: Node, msg: Message, from: Option<Id>): Action {
    if |msg.data| > n.maxSize then
      GiveUp(MaybeSendDead(n, false, msg, TooLarge(n.maxSize)))
    else
      var parentStream := n.ParentStream();
      var srcStream := n.StreamFor(msg.src);
      if from.Some? && from != n.StreamFor(msg.auth) then Reject
      else if from.Some? && msg.src != msg.auth && from != srcStream then Reject
      else
        var m := if from.Some? && from.value in n.stamp
                 then msg.(auth := n.stamp[from.value]) else msg;
        if m.dst == n.id then Invoke(m)
        else
          var specific := if m.dst in n.table then Some(n.table[m.dst]) else None;
          var out := if specific.None? && (parentStream != srcStream || from.None?)
                     then parentStream else specific;
          if out.None? then
            GiveUp(MaybeSendDead(n, true, m, NoRoute(m.dst, n.id)))
          else if from.Some? && n.unidirectional
                  && !(n.Privileged(from.value) || n.Privileged(out.value)) then
            GiveUp(MaybeSendDead(n, true, m, OneWay(from.value, out.value, n.id)))
          else
            Forward(out.value, m)
  }

  /** Whatever is neither rejected nor over-long came in on the very stream this context would
      use to answer its sender and its authority. */
  lemma SourceVerified(n: Node, msg: Message, from: Id)
    ensures |msg.data| <= n.maxSize ==>
              (AsyncRoute(n, msg, Some(from)).Reject? <==>
               !(n.StreamFor(msg.auth) == Some(from) == n.StreamFor(msg.src)))
  {
  }

  /** Routing never alters what a message says; only its authority can be replaced, and only by that of
      a marked stream it came in on. */
  lemma ContentKept(n: Node, msg: Message, from: Option<Id>)
    ensures var a := AsyncRoute(n, msg, from);
            a.Invoke? || a.Forward? ==>
              && a.msg.(auth := msg.auth) == msg
              && a.msg.auth == if from.Some? && from.value in n.stamp then n.stamp[from.value] else msg.auth
  {
  }
}
