/** Whatever the downstream tables hold, and however they change while a message travels, the
    message climbs, turns at most once, and descends. */
module LoopFreedom {
  import opened Prelude
  import opened Tree
  import opened Router

  /** All that is assumed of a context's table: the parent's id leads to the parent's stream and
      every other entry leads to some child. */
  ghost predicate Plausible(par: map<Id, Id>, n: Node) {
    && n.parent == (if n.id in par then Some(par[n.id]) else None)
    && forall x | x in n.table ::
         if n.parent == Some(x) then n.table[x] == x
         else n.table[x] in par && par[n.table[x]] == n.id
  }

  /** A message at a context, having arrived on the stream `from` (or having been composed there). */
  datatype Position = Position(at: Id, from: Option<Id>, msg: Message)

  /** Some plausible state of the context at `a` forwards the message to `b`. */
  ghost predicate Hop(par: map<Id, Id>, a: Position, b: Position) {
    exists n: Node :: HopAt(par, n, a, b)
  }

  ghost predicate HopAt(par: map<Id, Id>, n: Node, a: Position, b: Position) {
    && Plausible(par, n) && n.id == a.at
    && AsyncRoute(n, a.msg, a.from) == Forward(b.at, b.msg)
    && b.from == Some(a.at)
  }

  /** The hops of one message; every hop may see different tables. */
  ghost predicate Journey(par: map<Id, Id>, j: seq<Position>) {
    && |j| > 0 && j[0].from == None
    && forall i | 0 <= i < |j| - 1 :: Hop(par, j[i], j[i+1])
  }

  ghost predicate CameDown(par: map<Id, Id>, p: Position) {
    p.at in par && p.from == Some(par[p.at])
  }

  /** A context that got the message from its parent sends it to a child or nowhere: the parent
      would have kept a message addressed to itself. */
  lemma OneHop(par: map<Id, Id>, a: Position, b: Position)
    requires IsTree(par) && Hop(par, a, b)
    requires CameDown(par, a) ==> a.msg.dst != par[a.at]
    ensures if CameDown(par, a) then CameDown(par, b)
            else CameDown(par, b) || (a.at in par && b.at == par[a.at])
    ensures CameDown(par, b) ==> par[b.at] == a.at && b.msg.dst != par[b.at]
    ensures b.msg.dst == a.msg.dst && a.msg.dst != a.at
  {
    var n :| HopAt(par, n, a, b);
    ContentKept(n, a.msg, a.from);
  }

  /** Once a message has come down one hop it never climbs again. */
  lemma {:induction false} TurnsOnce(par: map<Id, Id>, j: seq<Position>, i: nat, k: nat)
    requires IsTree(par) && Journey(par, j) && i <= k < |j|
    requires CameDown(par, j[i])
    ensures CameDown(par, j[k])
    decreases k
  {
    if i < k {
      TurnsOnce(par, j, i, k - 1);
      Descending(par, j, k - 1);
      OneHop(par, j[k-1], j[k]);
    }
  }

  lemma {:induction false} Descending(par: map<Id, Id>, j: seq<Position>, k: nat)
    requires IsTree(par) && Journey(par, j) && k < |j|
    ensures CameDown(par, j[k]) ==> j[k].msg.dst != par[j[k].at]
    decreases k
  {
    if k > 0 {
      Descending(par, j, k - 1);
      OneHop(par, j[k-1], j[k]);
    }
  }

  /** After k hops: still climbing, k levels above the start; or descending, with the climb and
      the descent adding up to k. */
  lemma {:induction false} HopsSoFar(par: map<Id, Id>, j: seq<Position>, k: nat)
    requires IsTree(par) && Journey(par, j) && k < |j|
    ensures !CameDown(par, j[k]) ==> Depth(par, j[k].at) == Depth(par, j[0].at) - k
    ensures CameDown(par, j[k]) ==> k <= Depth(par, j[0].at) + Depth(par, j[k].at)
    decreases k
  {
    if k > 0 {
      HopsSoFar(par, j, k - 1);
      Descending(par, j, k - 1);
      OneHop(par, j[k-1], j[k]);
    }
  }

  /** Loop freedom: a message is forwarded at most twice the height of the tree. */
  lemma HopBound(par: map<Id, Id>, j: seq<Position>, height: nat)
    requires IsTree(par) && Journey(par, j)
    requires forall x :: Depth(par, x) <= height
    ensures |j| - 1 <= 2 * height
  {
    HopsSoFar(par, j, |j| - 1);
  }

  // ---- Dead messages -----------------------------------------------------------------

  const InvokeReasons: set<Reason> := {InvalidHandle, UnexpectedContext, Refused}

  /** Some context, in any state whose size limit is `limit`, answers `m` with `d`: while routing
      it, or because the local handler may not be called. */
  ghost predicate Begets(limit: nat, m: Message, d: Message) {
    exists n: Node, from: Option<Id> :: n.maxSize == limit && BegetsAt(n, from, m, d)
  }

  ghost predicate BegetsAt(n: Node, from: Option<Id>, m: Message, d: Message) {
    var a := AsyncRoute(n, m, from);
    || a == GiveUp(Some(d))
    || (a.Invoke? && exists r | r in InvokeReasons :: MaybeSendDead(n, true, a.msg, r) == Some(d))
  }

  /** A dead message is answered exactly when it is itself over the size limit. */
  lemma DeadAnswered(n: Node, from: Option<Id>, m: Message)
    requires m.IsDead()
    ensures (exists d :: BegetsAt(n, from, m, d)) <==> |m.data| > n.maxSize
  {
    if |m.data| > n.maxSize {
      assert BegetsAt(n, from, m, Dead(n.id, m.dst, m.handle, TooLarge(n.maxSize)));
    }
  }

  /** A chain in which each message answers the one before. */
  ghost predicate Lineage(limit: nat, ms: seq<Message>) {
    |ms| > 0 && forall i | 0 <= i < |ms| - 1 :: Begets(limit, ms[i], ms[i+1])
  }

  lemma DecimalLength(n: nat)
    ensures n < 10 ==> |Decimal(n)| == 1
    ensures 10 <= n < 100 ==> |Decimal(n)| == 2
    ensures n >= 32 ==> 30 + |Decimal(n)| <= n
  {
    if n >= 100 {
      DecimalLength(n / 10);
    }
  }

  lemma TooLargeFits(limit: nat)
    ensures |Text(TooLarge(limit))| == 30 + |Decimal(limit)|
    ensures |Text(TooLarge(limit))| <= limit <==> limit >= 32
  {
    DecimalLength(limit);
  }

  /** Every answer is a dead message, for the handle the sender waits on if it does, and else for the
      handle `m` was meant for; an answer to a dead message is the over-size complaint. */
  lemma AnswersAreDead(limit: nat, m: Message, d: Message)
    requires Begets(limit, m, d)
    ensures d.IsDead()
    ensures if m.WantsReply() && !m.IsDead() then d.dst == m.src && d.handle == m.replyTo.value
            else d.dst == m.dst && d.handle == m.handle && |m.data| > limit
    ensures m.IsDead() ==> |m.data| > limit && d.data == Ascii(Text(TooLarge(limit)))
  {
  }

  /** One send causes finite work: with a limit of at least 32 bytes there is at most the dead
      message and, if that one is itself over the limit, one more. */
  lemma DeadLineageBound(limit: nat, ms: seq<Message>)
    requires limit >= 32 && Lineage(limit, ms)
    ensures |ms| <= 3
    ensures |ms| == 3 ==> ms[0].IsDead() || |ms[1].data| > limit
  {
    TooLargeFits(limit);
    if |ms| >= 3 {
      AnswersAreDead(limit, ms[0], ms[1]);
      AnswersAreDead(limit, ms[1], ms[2]);
      if |ms| >= 4 {
        AnswersAreDead(limit, ms[2], ms[3]);
      }
    }
  }

  /** The limit matters: below 32 bytes the complaint about size is itself too large, and the
      lineage of any over-long message goes on for ever. */
  lemma {:induction false} DeadLineageUnbounded(limit: nat, m: Message, k: nat)
    returns (ms: seq<Message>)
    requires limit < 32 && |m.data| > limit
    ensures Lineage(limit, ms) && |ms| == k + 1 && ms[0] == m
    ensures |ms[k].data| > limit
    decreases k
  {
    if k == 0 {
      ms := [m];
    } else {
      ms := DeadLineageUnbounded(limit, m, k - 1);
      var last := ms[k-1];
      var n := Node(0, None, {}, map[], map[], {}, map[], map[], false, limit);
      TooLargeFits(limit);
      var d := MaybeSendDead(n, false, last, TooLarge(limit)).value;
      assert BegetsAt(n, None, last, d);
      assert Begets(limit, last, d);
      ms := ms + [d];
    }
  }

  ghost predicate BoundsLineages(limit: nat, bound: nat) {
    forall ms | Lineage(limit, ms) :: |ms| <= bound
  }

  /** Dead-message traffic is finite for every send if and only if the limit is at least 32. */
  lemma DeadLineagesFiniteIff(limit: nat)
    ensures (exists bound :: BoundsLineages(limit, bound)) <==> limit >= 32
  {
    if limit >= 32 {
      forall ms | Lineage(limit, ms)
        ensures |ms| <= 3
      {
        DeadLineageBound(limit, ms);
      }
      assert BoundsLineages(limit, 3);
    } else {
      forall bound: nat
        ensures !BoundsLineages(limit, bound)
      {
        var m := Message(ENC_MGC, 0, 0, 0, 0, None, seq(32, _ => 0));
        var ms := DeadLineageUnbounded(limit, m, bound);
      }
    }
  }
}
