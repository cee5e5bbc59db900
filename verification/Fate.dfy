/** What becomes of every message that a live context sends, and who hears of it if it does not arrive. */
module Fate {
  import opened Prelude
  import opened Tree
  import opened Router
  import opened ExactDelivery

  /** A dead message from `s` to handle `h` of `a`; 999 is what marks it as dead. */
  predicate DeadFor(d: Message, s: Id, a: Id, h: nat) {
    d.replyTo == Some(999) && d.enc == 0x4d49 && d.src == s && d.auth == s && d.dst == a && d.handle == h
  }

  predicate Awaits(msg: Message) { msg.WantsReply() && !msg.IsDead() }

  /** Who is told that `msg` was given up at `s`: the handle its sender waits on; otherwise, only if it was
      too large, the handle it was meant for; otherwise nobody. */
  predicate Answers(dead: Option<Message>, msg: Message, s: Id, tooLarge: bool) {
    if Awaits(msg) then dead.Some? && DeadFor(dead.value, s, msg.src, msg.replyTo.value)
    else if tooLarge then dead.Some? && DeadFor(dead.value, s, msg.dst, msg.handle)
    else dead == None
  }

  lemma Answer(n: Node, unreachable: bool, msg: Message, reason: Reason)
    ensures Answers(MaybeSendDead(n, unreachable, msg, reason), msg, n.id, !unreachable)
  {
  }

  lemma MeetSymmetric(par: map<Id, Id>, a: Id, b: Id)
    requires IsTree(par) && Below(par, 0, a) && Below(par, 0, b)
    ensures Meet(par, a, b) == Meet(par, b, a)
  {
    var m, w := Meet(par, a, b), Meet(par, b, a);
    MeetIsLast(par, a, b, w);
    MeetIsLast(par, b, a, m);
    BelowOrder(par, m, w);
    BelowOrder(par, w, m);
  }

  /** What came from a to s, or stopped at s on its way up, can be answered. */
  lemma PassesBack(par: map<Id, Id>, nodes: map<Id, Node>, a: Id, s: Id)
    requires IsTree(par) && Below(par, 0, a) && Below(par, 0, s) && (Below(par, s, a) || LetsPass(par, nodes, a, s))
    ensures LetsPass(par, nodes, s, a)
  {
    MeetSymmetric(par, a, s);
  }

  /** The answer reaches the handle that the sender waits on, if it is not itself too large. */
  lemma AnswerReturns(par: map<Id, Id>, nodes: map<Id, Node>, live: set<Id>, a: Id, s: Id, d: Message)
    requires Exact(par, nodes, live) && a in live && s in live && d.src == d.auth == s && d.dst == a
    requires Below(par, 0, a) && Below(par, 0, s) && LetsPass(par, nodes, s, a)
    ensures |d.data| <= nodes[0].maxSize ==> Travels(nodes, Path(par, s, a), None, d)
  {
    assert 0 in nodes;
    hide Exact, LetsPass, Travels;
    if |d.data| <= nodes[0].maxSize { DeliveredExactly(par, nodes, live, s, a, d); }
  }

  /** Where a message that does not arrive is given up. */
  ghost function StopsAt(par: map<Id, Id>, nodes: map<Id, Node>, live: set<Id>, a: Id, msg: Message): Id
    requires Exact(par, nodes, live) && a in live
  {
    if |msg.data| > nodes[0].maxSize then a
    else if msg.dst !in live then 0
    else
      ExactAt(par, nodes, live, a);
      ExactAt(par, nodes, live, msg.dst);
      Meet(par, a, msg.dst)
  }

  /** It arrives if it is not too large, its destination is live, and no one-way router on the way lies
      between two children of its own. */
  ghost predicate GetsThere(par: map<Id, Id>, nodes: map<Id, Node>, live: set<Id>, a: Id, msg: Message)
    requires Exact(par, nodes, live) && a in live
  {
    && |msg.data| <= nodes[0].maxSize && msg.dst in live
    && (ExactAt(par, nodes, live, a); ExactAt(par, nodes, live, msg.dst); LetsPass(par, nodes, a, msg.dst))
  }

  /** What the sender, or the one it was meant for, gets to know. */
  ghost predicate Known(par: map<Id, Id>, nodes: map<Id, Node>, live: set<Id>, a: Id, msg: Message, s: Id, dead: Option<Message>)
    requires Exact(par, nodes, live)
  {
    && a in live && s in live && IsTree(par) && Below(par, 0, a) && Below(par, 0, s)
    && Answers(dead, msg, s, |msg.data| > nodes[0].maxSize)
    && (Awaits(msg) && |dead.value.data| <= nodes[0].maxSize ==> Travels(nodes, Path(par, s, a), None, dead.value))
  }

  /** The fate of any message of a live context. */
  lemma Fate(par: map<Id, Id>, nodes: map<Id, Node>, live: set<Id>, a: Id, msg: Message)
    returns (path: seq<Id>, out: Action)
    requires Exact(par, nodes, live) && a in live && msg.src == msg.auth == a
    ensures path != [] && path[0] == a && Ends(nodes, path, None, msg, out)
    ensures IsTree(par) && Below(par, 0, a)
    ensures if GetsThere(par, nodes, live, a, msg) then
              out == Invoke(msg) && Below(par, 0, msg.dst) && path == Path(par, a, msg.dst)
            else
              var s := StopsAt(par, nodes, live, a, msg);
              out.GiveUp? && Below(par, 0, s) && path == Path(par, a, s) && Known(par, nodes, live, a, msg, s, out.dead)
  {
    ExactAt(par, nodes, live, a);
    if |msg.data| > nodes[0].maxSize {
      path, out := TooLong(par, nodes, live, a, msg);
    } else if msg.dst !in live {
      path, out := Nobody(par, nodes, live, a, msg);
    } else {
      ExactAt(par, nodes, live, msg.dst);
      if LetsPass(par, nodes, a, msg.dst) {
        DeliveredExactly(par, nodes, live, a, msg.dst, msg);
        path, out := Path(par, a, msg.dst), Invoke(msg);
        PathIsSimple(par, a, msg.dst);
      } else {
        path, out := Apart(par, nodes, live, a, msg);
      }
    }
  }

  lemma TooLong(par: map<Id, Id>, nodes: map<Id, Node>, live: set<Id>, a: Id, msg: Message)
    returns (path: seq<Id>, out: Action)
    requires Exact(par, nodes, live) && a in live && msg.src == msg.auth == a && |msg.data| > nodes[0].maxSize
    ensures IsTree(par) && Below(par, 0, a) && path == Path(par, a, a) == [a] && out.GiveUp?
    ensures Ends(nodes, path, None, msg, out) && Known(par, nodes, live, a, msg, a, out.dead)
  {
    ExactAt(par, nodes, live, a);
    path, out := [a], AsyncRoute(nodes[a], msg, None);
    Answer(nodes[a], false, msg, TooLarge(nodes[a].maxSize));
    BelowSelf(par, a);
    PassesBack(par, nodes, a, a);
    hide Exact, ExactNode;
    if Awaits(msg) { AnswerReturns(par, nodes, live, a, a, out.dead.value); }
  }

  lemma Nobody(par: map<Id, Id>, nodes: map<Id, Node>, live: set<Id>, a: Id, msg: Message)
    returns (path: seq<Id>, out: Action)
    requires Exact(par, nodes, live) && a in live && msg.src == msg.auth == a
    requires |msg.data| <= nodes[0].maxSize && msg.dst !in live
    ensures IsTree(par) && Below(par, 0, a) && Below(par, 0, 0) && path == Path(par, a, 0) && path != [] && path[0] == a
    ensures out.GiveUp? && Ends(nodes, path, None, msg, out) && Known(par, nodes, live, a, msg, 0, out.dead)
  {
    StoppedAbove(par, nodes, live, a, msg);
    ExactAt(par, nodes, live, 0);
    path, out := Path(par, a, 0), GiveUp(MaybeSendDead(nodes[0], true, msg, NoRoute(msg.dst, 0)));
    PathIsSimple(par, a, 0);
    Answer(nodes[0], true, msg, NoRoute(msg.dst, 0));
    PassesBack(par, nodes, a, 0);
    hide Exact, ExactNode, MaybeSendDead;
    if Awaits(msg) { AnswerReturns(par, nodes, live, a, 0, out.dead.value); }
  }

  lemma Apart(par: map<Id, Id>, nodes: map<Id, Node>, live: set<Id>, a: Id, msg: Message)
    returns (path: seq<Id>, out: Action)
    requires Exact(par, nodes, live) && a in live && msg.src == msg.auth == a
    requires |msg.data| <= nodes[0].maxSize && msg.dst in live
    requires Below(par, 0, a) && Below(par, 0, msg.dst) && !LetsPass(par, nodes, a, msg.dst)
    ensures var s := Meet(par, a, msg.dst);
            && Below(par, 0, s) && path == Path(par, a, s) && path != [] && path[0] == a
            && out.GiveUp? && Ends(nodes, path, None, msg, out) && Known(par, nodes, live, a, msg, s, out.dead)
  {
    StoppedAcross(par, nodes, live, a, msg);
    var s := Meet(par, a, msg.dst);
    AncestorsLive(par, nodes, live, s, a);
    ExactAt(par, nodes, live, s);
    var reason := OneWay(Toward(par, s, a), Toward(par, s, msg.dst), s);
    path, out := Path(par, a, s), GiveUp(MaybeSendDead(nodes[s], true, msg, reason));
    PathIsSimple(par, a, s);
    Answer(nodes[s], true, msg, reason);
    PassesBack(par, nodes, a, s);
    hide Exact, ExactNode, MaybeSendDead, LetsPass;
    if Awaits(msg) { AnswerReturns(par, nodes, live, a, s, out.dead.value); }
  }

  /** There is no other: a message goes one way only. */
  lemma FateIsOne(par: map<Id, Id>, nodes: map<Id, Node>, live: set<Id>, a: Id, msg: Message, path: seq<Id>, out: Action)
    requires Exact(par, nodes, live) && a in live && msg.src == msg.auth == a
    requires Ends(nodes, path, None, msg, out) && path[0] == a
    ensures out.Invoke? || out.GiveUp?
    ensures out.Invoke? <==> GetsThere(par, nodes, live, a, msg)
    ensures out.GiveUp? ==> Known(par, nodes, live, a, msg, StopsAt(par, nodes, live, a, msg), out.dead)
  {
    hide Exact, GetsThere, Known;
    var p, o := Fate(par, nodes, live, a, msg);
    EndsOnce(nodes, path, p, None, msg, out, o);
  }

  /** A message that arrives and may not be handled is answered in the same way. */
  lemma RefusedReturns(par: map<Id, Id>, nodes: map<Id, Node>, live: set<Id>, a: Id, msg: Message, reason: Reason)
    requires Exact(par, nodes, live) && a in live && msg.src == msg.auth == a && GetsThere(par, nodes, live, a, msg)
    ensures Known(par, nodes, live, a, msg, msg.dst, MaybeSendDead(nodes[msg.dst], true, msg, reason))
  {
    var b := msg.dst;
    ExactAt(par, nodes, live, a);
    ExactAt(par, nodes, live, b);
    Answer(nodes[b], true, msg, reason);
    PassesBack(par, nodes, a, b);
    hide Exact, ExactNode, MaybeSendDead, LetsPass;
    if Awaits(msg) { AnswerReturns(par, nodes, live, a, b, MaybeSendDead(nodes[b], true, msg, reason).value); }
  }
}
