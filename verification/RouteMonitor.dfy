/** How one context keeps its routing table: `RouteMonitor`, `Router.register`,
    `Router.add_route`, `Router.del_route` and `Router._on_stream_disconnect`.  Each broker
    callback is a function from the old state to the new one and the route messages it sends;
    module RouteMonitorCode has the code itself, proved to compute these functions. */
module RouteMonitor {
  import opened Prelude
  import opened Router

  datatype RouteMsg = AddRoute(target: Id) | DelRoute(target: Id)

  /** New state, messages sent to the parent in order, and DEL_ROUTEs sent to child streams. */
  datatype Effect = Effect(node: Node, up: seq<RouteMsg>, down: set<(Id, Id)>)

  predicate IsParentStream(n: Node, s: Id) {
    n.parent == Some(s)
  }

  /** `_propagate_up`: nothing is sent by the master or after the parent's stream is gone. */
  function PropagateUp(n: Node, m: RouteMsg): seq<RouteMsg> {
    if n.ParentStream().Some? then [m] else []
  }

  /** `_propagate_down`: every stream in the table that ever sent something to `target`, except
      the parent's. */
  function Listeners(n: Node, target: Id): set<Id> {
    set s | s in n.table.Values && target in n.EgressOf(s) && !IsParentStream(n, s)
  }

  function PropagateDown(n: Node, target: Id): set<(Id, Id)> {
    set s | s in Listeners(n, target) :: (s, target)
  }

  /** `Router.register` then `RouteMonitor.notice_stream`, as `_complete_connection` runs them. */
  function NoticeStream(n: Node, c: Id): Effect {
    var n' := n.(table := n.table[c := c], contexts := n.contexts + {c},
                 routes := n.routes[c := {c}], egress := n.egress[c := {}]);
    Effect(n', PropagateUp(n', AddRoute(c)), {})
  }

  function OnAddRoute(n: Node, src: Id, target: Id): Effect {
    var known := n.(contexts := n.contexts + {target});
    var stream := n.StreamFor(src);
    var current := n.StreamFor(target);
    if current.Some? && !IsParentStream(n, current.value) then
      Effect(known, [], {})                               // duplicate route: refused
    else if stream.None? || stream.value !in n.routes then
      Effect(known, [], {})                               // KeyError in _routes_by_stream
    else
      var s := stream.value;
      var n' := known.(routes := n.routes[s := n.routes[s] + {target}],
                       table := n.table[target := s]);
      Effect(n', PropagateUp(n', AddRoute(target)), {})
  }

  function OnDelRoute(n: Node, src: Id, target: Id): Effect {
    var registered := n.StreamFor(target);
    var stream := n.StreamFor(src);
    if registered.None? || registered != stream then
      Effect(n, [], {})
    else
      var s := stream.value;
      var routes' := if s in n.routes then n.routes[s := n.routes[s] - {target}] else n.routes;
      var n' := n.(routes := routes', table := n.table - {target});
      Effect(n',
             if IsParentStream(n, s) then [] else PropagateUp(n', DelRoute(target)),
             PropagateDown(n', target))
  }

  /** `Router._on_stream_disconnect`, which runs first. */
  function ForgetContexts(n: Node, s: Id): Node {
    n.(table := map x | x in n.table && !(x in n.contexts && n.table[x] == s) :: n.table[x])
  }

  /** One round of the loop of `RouteMonitor._on_stream_disconnect`. */
  function DropTarget(n: Node, target: Id): Effect {
    var n' := n.(table := n.table - {target});
    Effect(n', PropagateUp(n', DelRoute(target)), PropagateDown(n', target))
  }

  function DropTargets(n: Node, order: seq<Id>): Effect
    decreases |order|
  {
    if order == [] then Effect(n, [], {})
    else
      var e := DropTarget(n, order[0]);
      var f := DropTargets(e.node, order[1..]);
      Effect(f.node, e.up + f.up, e.down + f.down)
  }

  /** Both handlers of a stream's `disconnect` event; `order` is the order in which the loop
      happens to visit the stream's routes. */
  function OnStreamDisconnect(n: Node, s: Id, order: seq<Id>): Effect {
    var n1 := ForgetContexts(n, s);
    if s in n.routes then
      DropTargets(n1.(routes := n.routes - {s}), order)
    else
      Effect(n1, [], {})
  }

  /** `order` lists the elements of `ids`, each once. */
  ghost predicate Lists(order: seq<Id>, ids: set<Id>) {
    && (forall x :: x in order <==> x in ids)
    && forall i, j | 0 <= i < j < |order| :: order[i] != order[j]
  }

  // ---- Agreement of the two indexes ------------------------------------------------------

  /** Between callbacks `_routes_by_stream` and `_stream_by_id` say the same: an id is in the set
      of a child stream exactly if it is routed to that stream, and the one remaining entry of
      the table is the parent's own. */
  ghost predicate Agree(n: Node) {
    && (forall s, x | s in n.routes && x in n.routes[s] ::
          x in n.table && n.table[x] == s && n.parent != Some(x))
    && (forall x | x in n.table ::
          (n.parent == Some(x) && n.table[x] == x)
          || (n.table[x] in n.routes && x in n.routes[n.table[x]]))
    && (forall s | s in n.routes :: s in n.routes[s])
    && (n.parent.Some? ==> n.parent.value in n.contexts)
  }

  lemma AgreeNotice(n: Node, c: Id)
    requires Agree(n) && c !in n.table && n.parent != Some(c)
    ensures Agree(NoticeStream(n, c).node)
  {
  }

  /** ADD_ROUTE for an id that has no route: it is recorded in both indexes. */
  lemma AddAccepted(n: Node, c: Id, target: Id)
    requires Agree(n) && c in n.routes && target !in n.table && n.parent != Some(target)
    ensures var e := OnAddRoute(n, c, target);
            && Agree(e.node)
            && e.node == n.(routes := n.routes[c := n.routes[c] + {target}],
                            table := n.table[target := c], contexts := n.contexts + {target})
            && e.up == PropagateUp(n, AddRoute(target)) && e.down == {}
  {
    assert n.StreamFor(c) == Some(c);
    assert n.StreamFor(target) == n.ParentStream();
  }

  /** The whole of ADD_ROUTE's refusals: any id already routed to a child keeps its route. */
  lemma AddRefused(n: Node, src: Id, target: Id)
    requires Agree(n) && target in n.table && n.parent != Some(target)
    ensures OnAddRoute(n, src, target) == Effect(n.(contexts := n.contexts + {target}), [], {})
  {
  }

  /** DEL_ROUTE takes effect only if it comes from the stream the route leads to. */
  lemma DelAccepted(n: Node, c: Id, target: Id)
    requires Agree(n) && c in n.routes && target in n.routes[c] && target != c
    ensures var e := OnDelRoute(n, c, target);
            && Agree(e.node)
            && e.node == n.(routes := n.routes[c := n.routes[c] - {target}],
                            table := n.table - {target})
            && e.up == PropagateUp(n, DelRoute(target))
            && e.down == PropagateDown(e.node, target)
  {
    assert n.StreamFor(c) == Some(c);
  }

  lemma DelIgnored(n: Node, src: Id, target: Id)
    requires target in n.table && n.StreamFor(src) != Some(n.table[target])
    ensures OnDelRoute(n, src, target) == Effect(n, [], {})
  {
  }

  /** Every stream that is left, other than the parent's, is told about each of the ids it ever wrote
      to. */
  ghost predicate Tells(n: Node, left: Node, ids: set<Id>, down: set<(Id, Id)>) {
    forall s, x {:trigger (s, x) in down} | x in ids && s in left.table.Values && x in n.EgressOf(s) && !IsParentStream(n, s) ::
      (s, x) in down
  }

  lemma TellsMore(n: Node, target: Id, rest: Effect, ids: set<Id>)
    requires rest.node.table.Values <= DropTarget(n, target).node.table.Values
    requires Tells(DropTarget(n, target).node, rest.node, ids, rest.down)
    ensures Tells(n, rest.node, ids + {target}, DropTarget(n, target).down + rest.down)
  {
    var n' := DropTarget(n, target).node;
    forall s, x | x in ids + {target} && s in rest.node.table.Values && x in n.EgressOf(s) && !IsParentStream(n, s)
      ensures (s, x) in DropTarget(n, target).down + rest.down
    {
      if x == target { assert s in Listeners(n', target); }
      else { assert (s, x) in rest.down; }
    }
  }

  lemma {:induction false} DropTargetsTell(n: Node, order: seq<Id>)
    ensures var e := DropTargets(n, order);
            e.node.table.Values <= n.table.Values && Tells(n, e.node, (set x | x in order), e.down)
    decreases |order|
  {
    if order != [] {
      var first := DropTarget(n, order[0]);
      var rest := DropTargets(first.node, order[1..]);
      DropTargetsTell(first.node, order[1..]);
      TellsMore(n, order[0], rest, (set x | x in order[1..]));
      assert first.node.table.Values <= n.table.Values;
      assert (set x | x in order) == (set x | x in order[1..]) + {order[0]};
      hide Tells, DropTarget;
    }
  }

  lemma WithoutFirst(table: map<Id, Id>, order: seq<Id>)
    requires order != []
    ensures (table - {order[0]}) - (set x | x in order[1..]) == table - (set x | x in order)
  {
  }

  lemma {:induction false} DropTargetsEffect(n: Node, order: seq<Id>)
    requires n.parent.Some? ==> n.parent.value !in order
    ensures var e := DropTargets(n, order);
            && e.node == n.(table := n.table - (set x | x in order))
            && e.up == seq(if n.ParentStream().Some? then |order| else 0,
                           i requires 0 <= i < |order| => DelRoute(order[i]))
            && (forall d | d in e.down ::
                  d.1 in order && d.0 in n.table.Values && d.1 in n.EgressOf(d.0)
                  && !IsParentStream(n, d.0))
    decreases |order|
  {
    if order != [] {
      var e := DropTarget(n, order[0]);
      DropTargetsEffect(e.node, order[1..]);
      WithoutFirst(n.table, order);
      assert e.node.(table := n.table - (set x | x in order))
          == n.(table := n.table - (set x | x in order));
    }
  }

  function WithoutStream(n: Node, s: Id): Node {
    n.(table := map x | x in n.table && n.table[x] != s :: n.table[x], routes := n.routes - {s})
  }

  lemma AgreeWithoutStream(n: Node, s: Id)
    requires Agree(n) && s in n.routes
    ensures Agree(WithoutStream(n, s))
    ensures WithoutStream(n, s).ParentStream() == n.ParentStream()
  {
    assert n.parent.Some? && n.parent.value in n.table ==> n.table[n.parent.value] != s;
  }

  /** The first handler forgets part of the dead stream's ids, the second the rest. */
  lemma ForgottenTwice(n: Node, s: Id, order: seq<Id>)
    requires Agree(n) && s in n.routes && Lists(order, n.routes[s])
    ensures var n1 := ForgetContexts(n, s).(routes := n.routes - {s});
            && n1.(table := n1.table - (set x | x in order)) == WithoutStream(n, s)
            && n1.table.Values <= n.table.Values
            && n1.ParentStream() == n.ParentStream()
  {
    var n1 := ForgetContexts(n, s).(routes := n.routes - {s});
    assert n1.table - (set x | x in order) == WithoutStream(n, s).table;
    AgreeWithoutStream(n, s);
  }

  lemma TellsAlike(n: Node, m: Node, left: Node, ids: set<Id>, down: set<(Id, Id)>)
    requires Tells(n, left, ids, down) && n.egress == m.egress && n.parent == m.parent
    ensures Tells(m, left, ids, down)
  {
  }

  /** After both handlers have run no id leads to the dead stream, nothing else has changed, and
      the parent has been told about every id that was reachable through it, as has every child
      stream that is left and ever wrote to the id. */
  lemma DisconnectEffect(n: Node, s: Id, order: seq<Id>)
    requires Agree(n) && s in n.routes && Lists(order, n.routes[s])
    ensures var e := OnStreamDisconnect(n, s, order);
            && e.node == WithoutStream(n, s)
            && e.up == seq(if n.ParentStream().Some? then |order| else 0,
                           i requires 0 <= i < |order| => DelRoute(order[i]))
            && (forall d | d in e.down ::
                  d.1 in n.routes[s] && d.0 in n.table.Values && d.1 in n.EgressOf(d.0)
                  && !IsParentStream(n, d.0))
            && Tells(n, e.node, n.routes[s], e.down)
  {
    assert n.routes[s] == set x | x in order;
    ForgottenTwice(n, s, order);
    var n1 := ForgetContexts(n, s).(routes := n.routes - {s});
    DropTargetsEffect(n1, order);
    DropTargetsTell(n1, order);
    TellsAlike(n1, n, DropTargets(n1, order).node, n.routes[s], DropTargets(n1, order).down);
    hide Tells;
  }

  /** A context that loses its parent only forgets the parent's stream. */
  lemma LoseParentEffect(n: Node, order: seq<Id>)
    requires Agree(n) && n.parent.Some? && n.parent.value in n.table
    ensures var e := OnStreamDisconnect(n, n.parent.value, order);
            && Agree(e.node) && e.up == [] && e.down == {}
            && e.node == n.(table := n.table - {n.parent.value})
  {
    var p := n.parent.value;
    assert p !in n.routes;
    assert ForgetContexts(n, p).table == n.table - {p};
  }
}
