/** The code of `Router` and `RouteMonitor` that edits the routing tables, method by method, proved
    to compute the functions of module RouteMonitor. */
module RouteMonitorCode {
  import opened Prelude
  import opened Router
  import Spec = RouteMonitor

  class Monitor {
    const me: Node                           // id, parent, policy: whatever never changes
    var streamById: map<Id, Id>              // Router._stream_by_id
    var contextById: set<Id>                 // Router._context_by_id
    var routesByStream: map<Id, set<Id>>     // RouteMonitor._routes_by_stream
    var egressIds: map<Id, set<Id>>          // MitogenProtocol.egress_ids of each stream
    var sentUp: seq<Spec.RouteMsg>           // written to the parent's stream
    var sentDown: seq<(Id, Id)>              // DEL_ROUTEs written to child streams

    function State(): Node
      reads this
    {
      me.(table := streamById, routes := routesByStream, contexts := contextById,
          egress := egressIds)
    }

    constructor (id: Id, parent: Option<Id>, ancestors: set<Id>, unidirectional: bool, maxSize: nat)
      ensures State() == Node(id, parent, ancestors, map[], map[], {}, map[], map[],
                              unidirectional, maxSize)
      ensures sentUp == [] && sentDown == []
    {
      me := Node(id, parent, ancestors, map[], map[], {}, map[], map[], unidirectional, maxSize);
      streamById, contextById, routesByStream, egressIds := map[], {}, map[], map[];
      sentUp, sentDown := [], [];
    }

    method PropagateUp(m: Spec.RouteMsg)
      modifies this`sentUp
      ensures sentUp == old(sentUp) + Spec.PropagateUp(State(), m)
    {
      if me.parent.Some? {
        var stream := State().StreamFor(me.parent.value);
        if stream.Some? {
          sentUp := sentUp + [m];
        }
      }
    }

    /** Visits every entry of the table, so a stream with several routes is told several times. */
    method PropagateDown(target: Id)
      modifies this`sentDown
      ensures old(sentDown) <= sentDown
      ensures forall d :: d in sentDown[|old(sentDown)|..] <==> d in Spec.PropagateDown(State(), target)
    {
      var todo := streamById.Keys;
      while todo != {}
        invariant todo <= streamById.Keys
        invariant old(sentDown) <= sentDown
        invariant forall d | d in sentDown[|old(sentDown)|..] :: d in Spec.PropagateDown(State(), target)
        invariant forall x | x in streamById && x !in todo ::
                    target in State().EgressOf(streamById[x])
                    && !Spec.IsParentStream(State(), streamById[x]) ==>
                      (streamById[x], target) in sentDown[|old(sentDown)|..]
      {
        var x :| x in todo;
        var stream := streamById[x];
        todo := todo - {x};
        if target in State().EgressOf(stream) && (me.parent.None? || me.parent.value != stream) {
          assert stream in Spec.Listeners(State(), target);
          assert (sentDown + [(stream, target)])[|old(sentDown)|..]
              == sentDown[|old(sentDown)|..] + [(stream, target)];
          sentDown := sentDown + [(stream, target)];
        }
      }
      forall d | d in Spec.PropagateDown(State(), target)
        ensures d in sentDown[|old(sentDown)|..]
      {
        var x :| x in streamById && streamById[x] == d.0;
      }
    }

    /** `Router.register` followed by `RouteMonitor.notice_stream`. */
    method NoticeStream(c: Id)
      modifies this
      ensures var e := Spec.NoticeStream(old(State()), c);
              State() == e.node && sentUp == old(sentUp) + e.up && sentDown == old(sentDown)
    {
      streamById := streamById[c := c];
      contextById := contextById + {c};
      egressIds := egressIds[c := {}];
      routesByStream := routesByStream[c := {c}];
      PropagateUp(Spec.AddRoute(c));
    }

    method OnAddRoute(src: Id, target: Id)
      modifies this
      ensures var e := Spec.OnAddRoute(old(State()), src, target);
              State() == e.node && sentUp == old(sentUp) + e.up && sentDown == old(sentDown)
    {
      contextById := contextById + {target};
      var stream := State().StreamFor(src);
      var current := State().StreamFor(target);
      if current.Some? && me.parent != Some(current.value) {
        return;
      }
      if stream.None? || stream.value !in routesByStream {
        return;
      }
      routesByStream := routesByStream[stream.value := routesByStream[stream.value] + {target}];
      streamById := streamById[target := stream.value];
      PropagateUp(Spec.AddRoute(target));
    }

    method OnDelRoute(src: Id, target: Id)
      modifies this
      ensures var e := Spec.OnDelRoute(old(State()), src, target);
              State() == e.node && sentUp == old(sentUp) + e.up
              && old(sentDown) <= sentDown
              && forall d :: d in sentDown[|old(sentDown)|..] <==> d in e.down
    {
      var registered := State().StreamFor(target);
      if registered.None? {
        return;
      }
      var stream := State().StreamFor(src);
      if registered != stream {
        return;
      }
      if stream.value in routesByStream {
        routesByStream := routesByStream[stream.value := routesByStream[stream.value] - {target}];
      }
      streamById := streamById - {target};
      if me.parent != stream {
        PropagateUp(Spec.DelRoute(target));
      }
      PropagateDown(target);
    }

    /** `Router._on_stream_disconnect`. */
    method ForgetContexts(s: Id)
      modifies this`streamById
      ensures State() == Spec.ForgetContexts(old(State()), s)
    {
      var todo := contextById;
      while todo != {}
        invariant todo <= contextById
        invariant streamById == map x | x in old(streamById)
                    && !(x in contextById - todo && old(streamById)[x] == s) :: old(streamById)[x]
      {
        var x :| x in todo;
        todo := todo - {x};
        if x in streamById && streamById[x] == s {
          streamById := streamById - {x};
        }
      }
    }

    method DropRoute(target: Id)
      modifies this
      ensures var e := Spec.DropTarget(old(State()), target);
              && State() == e.node && sentUp == old(sentUp) + e.up
              && old(sentDown) <= sentDown
              && forall d :: d in sentDown[|old(sentDown)|..] <==> d in e.down
    {
      streamById := streamById - {target};
      PropagateUp(Spec.DelRoute(target));
      PropagateDown(target);
    }

    /** The ids of `order` have been dropped, from the state `start` on. */
    ghost predicate Along(start: Node, order: seq<Id>, up: seq<Spec.RouteMsg>, down: seq<(Id, Id)>)
      reads this
    {
      var e := Spec.DropTargets(start, order);
      && State() == e.node && sentUp == up + e.up && down <= sentDown
      && forall d :: d in sentDown[|down|..] <==> d in e.down
    }

    method DropNext(ghost start: Node, ghost order: seq<Id>, target: Id,
                    ghost up: seq<Spec.RouteMsg>, ghost down: seq<(Id, Id)>)
      requires Along(start, order, up, down)
      modifies this
      ensures Along(start, order + [target], up, down)
    {
      ghost var before := sentDown;
      DropOneMore(start, order, target);
      hide Spec.DropTargets, Spec.DropTarget;
      DropRoute(target);
      assert sentDown[|down|..] == before[|down|..] + sentDown[|before|..];
    }

    /** `RouteMonitor._on_stream_disconnect`; the order of its loop is the order the set of the
        stream's routes happens to have. */
    method DropRoutes(s: Id) returns (ghost order: seq<Id>)
      modifies this
      ensures s in old(routesByStream) ==> Spec.Lists(order, old(routesByStream[s]))
      ensures var e := if s in old(routesByStream)
                       then Spec.DropTargets(
                              old(State()).(routes := old(routesByStream) - {s}), order)
                       else Spec.Effect(old(State()), [], {});
              && State() == e.node && sentUp == old(sentUp) + e.up
              && old(sentDown) <= sentDown
              && forall d :: d in sentDown[|old(sentDown)|..] <==> d in e.down
    {
      order := [];
      if s !in routesByStream {
        return;
      }
      var todo := routesByStream[s];
      DropNone(old(State()).(routes := old(routesByStream) - {s}));
      routesByStream := routesByStream - {s};
      ghost var start, up, down := State(), sentUp, sentDown;
      assert Along(start, [], up, down);
      hide Along, Spec.DropTargets, Spec.DropTarget, Spec.Lists;
      while todo != {}
        invariant todo <= old(routesByStream[s])
        invariant Spec.Lists(order, old(routesByStream[s]) - todo) && (forall x | x in todo :: x !in order)
        invariant Along(start, order, up, down)
      {
        var target :| target in todo;
        todo := todo - {target};
        ListsOneMore(order, old(routesByStream[s]) - todo, target);
        DropNext(start, order, target, up, down);
        order := order + [target];
      }
      AlongEnds(start, order, up, down);
    }

    lemma AlongEnds(start: Node, order: seq<Id>, up: seq<Spec.RouteMsg>, down: seq<(Id, Id)>)
      requires Along(start, order, up, down)
      ensures var e := Spec.DropTargets(start, order);
              && State() == e.node && sentUp == up + e.up && down <= sentDown
              && forall d :: d in sentDown[|down|..] <==> d in e.down
    {
    }

    method OnStreamDisconnect(s: Id) returns (ghost order: seq<Id>)
      modifies this
      ensures s in old(routesByStream) ==> Spec.Lists(order, old(routesByStream[s]))
      ensures var e := Spec.OnStreamDisconnect(old(State()), s, order);
              && State() == e.node && sentUp == old(sentUp) + e.up
              && old(sentDown) <= sentDown
              && forall d :: d in sentDown[|old(sentDown)|..] <==> d in e.down
    {
      ForgetContexts(s);
      order := DropRoutes(s);
    }
  }

  lemma DropNone(n: Node)
    ensures Spec.DropTargets(n, []) == Spec.Effect(n, [], {}) && Spec.Lists([], {})
  {
  }

  lemma ListsOneMore(order: seq<Id>, ids: set<Id>, target: Id)
    requires target in ids && target !in order && Spec.Lists(order, ids - {target})
    ensures Spec.Lists(order + [target], ids)
  {
  }

  lemma {:induction false} DropOneMore(n: Node, order: seq<Id>, target: Id)
    ensures var e := Spec.DropTargets(n, order);
            var f := Spec.DropTarget(e.node, target);
            Spec.DropTargets(n, order + [target])
              == Spec.Effect(f.node, e.up + f.up, e.down + f.down)
    decreases |order|
  {
    if order == [] {
      assert [target][1..] == [];
    } else {
      assert (order + [target])[1..] == order[1..] + [target];
      DropOneMore(Spec.DropTarget(n, order[0]).node, order[1..], target);
    }
  }
}
