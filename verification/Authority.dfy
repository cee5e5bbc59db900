/** What the checks of `_async_route` are for: with exact tables, no child can speak for a context
    that is not below it, and a one-way router lets nothing pass between its children. */
module Authority {
  import opened Prelude
  import opened Tree
  import opened Router
  import opened ExactDelivery
  import opened Fate

  lemma StreamIsChild(par: map<Id, Id>, n: Node, live: set<Id>, c: Id, x: Id)
    requires IsTree(par) && ExactNode(par, n, live)
    requires c in par && par[c] == n.id
    ensures n.StreamFor(x) == Some(c) <==> x in live && Below(par, c, x)
  {
    if Below(par, c, x) {
      ChildBelow(par, n.id, c, x);
      TowardUnique(par, n.id, c, x);
    } else if x != n.id && Below(par, n.id, x) {
      var d := Toward(par, n.id, x);
    }
  }

  /** A message from a child, whatever ids it names, is rejected if and only if its source or the
      context by whose authority it was sent is not a live context, the child or one below it. */
  lemma NoImpersonation(par: map<Id, Id>, n: Node, live: set<Id>, c: Id, msg: Message)
    requires IsTree(par) && ExactNode(par, n, live)
    requires c in par && par[c] == n.id && |msg.data| <= n.maxSize
    ensures AsyncRoute(n, msg, Some(c)).Reject? <==>
              !(msg.src in live && Below(par, c, msg.src) && msg.auth in live && Below(par, c, msg.auth))
  {
    SourceVerified(n, msg, c);
    StreamIsChild(par, n, live, c, msg.src);
    StreamIsChild(par, n, live, c, msg.auth);
  }

  /** In a one-way router, what a child sends to another context leaves it if and only if it is
      meant for somebody who is not below this context; otherwise the sender is told, if it asked. */
  lemma OneWayFromChild(par: map<Id, Id>, n: Node, live: set<Id>, c: Id, msg: Message)
    requires IsTree(par) && 0 !in par && ExactNode(par, n, live) && n.unidirectional
    requires c in par && par[c] == n.id && msg.src in live && msg.auth in live && msg.dst in live
    requires |msg.data| <= n.maxSize && msg.dst != n.id && Below(par, 0, msg.dst)
    requires Below(par, c, msg.src) && Below(par, c, msg.auth) && (n.id in par || n.id == 0)
    ensures var a := AsyncRoute(n, msg, Some(c));
            if !Below(par, n.id, msg.dst) then n.id in par && a == Forward(par[n.id], msg)
            else a.GiveUp? && Answers(a.dead, msg, n.id, false)
  {
    NoImpersonation(par, n, live, c, msg);
    StreamIsChild(par, n, live, c, msg.src);
    if Below(par, c, n.id) { BelowOrder(par, c, n.id); }
    if Below(par, n.id, msg.dst) {
      var d := Toward(par, n.id, msg.dst);
      if Below(par, d, n.id) { BelowOrder(par, d, n.id); }
    } else {
      assert Below(par, par[n.id], n.id);
    }
  }

  /** The stream bears this context's own authority, or that of a context above. */
  ghost predicate Marked(par: map<Id, Id>, n: Node, s: Id) {
    s in n.stamp && Below(par, n.stamp[s], n.id)
  }

  /** Streams may be marked with an authority.  A one-way router lets a message from one child to another
      pass if and only if it marks one of the two streams with its own authority or that of a context
      above; the message then goes on with the mark of the stream it came in on. */
  lemma AcrossIff(par: map<Id, Id>, n: Node, live: set<Id>, c: Id, msg: Message)
    requires IsTree(par) && 0 !in par && ExactNode(par, n.(stamp := map[]), live) && n.unidirectional
    requires c in par && par[c] == n.id && c in live && msg.src == msg.auth == c
    requires |msg.data| <= n.maxSize && msg.dst in live && msg.dst != n.id && Below(par, n.id, msg.dst)
    ensures var a, d := AsyncRoute(n, msg, Some(c)), Toward(par, n.id, msg.dst);
            if Marked(par, n, c) || Marked(par, n, d) then
              a == Forward(d, if c in n.stamp then msg.(auth := n.stamp[c]) else msg)
            else a.GiveUp?
  {
    var m, d := n.(stamp := map[]), Toward(par, n.id, msg.dst);
    StreamIsChild(par, m, live, c, c);
    BelowSelf(par, c);
    BelowSelf(par, n.id);
    assert n.StreamFor(c) == Some(c) by { assert m.StreamFor(c) == Some(c); }
    ChildIsNoAncestor(par, n, c);
    ChildIsNoAncestor(par, n, d);
    assert KnowsAbove(par, m);
    assert n.Privileged(c) <==> Marked(par, n, c);
    assert n.Privileged(d) <==> Marked(par, n, d);
  }

  lemma ChildIsNoAncestor(par: map<Id, Id>, n: Node, c: Id)
    requires IsTree(par) && c in par && par[c] == n.id
    ensures !Below(par, c, n.id)
  {
    if Below(par, c, n.id) { BelowOrder(par, c, n.id); }
  }
}
