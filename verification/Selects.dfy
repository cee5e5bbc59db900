/** `Select`: waiting on many sources at once, sources being queues or other selects. */
module Selects {
  import opened Prelude

  type Item = nat

  /** A queue (a latch or a receiver) or a select.  `members` are the select's receivers; `tokens`
      are in its own latch, each naming a member that had something to offer. */
  datatype Node = Leaf(items: seq<Item>) | Select(members: seq<Id>, tokens: seq<Id>)

  /** `owner` is the notify field of every node that has one.  `rank` and `top` bear witness that no
      select is among its own members, however deep. */
  datatype Net = Net(nodes: map<Id, Node>, owner: map<Id, Id>, rank: map<Id, nat>, top: nat)

  const Empty := Net(map[], map[], map[], 0)

  predicate IsSelect(net: Net, x: Id) { x in net.nodes && net.nodes[x].Select? }

  /** The nesting is a forest: every node has at most one owner, and is among that one's members
      once. */
  ghost predicate Forest(net: Net) {
    && net.rank.Keys == net.nodes.Keys && net.owner.Keys <= net.nodes.Keys
    && (forall x {:trigger net.rank[x]} | x in net.nodes :: net.rank[x] <= net.top)
    && (forall x {:trigger net.owner[x]} | x in net.owner ::
          && IsSelect(net, net.owner[x]) && x in net.nodes[net.owner[x]].members
          && net.rank[x] < net.rank[net.owner[x]])
    && Listed(net)
  }

  ghost predicate Listed(net: Net) {
    forall s {:trigger net.nodes[s]} | s in net.nodes && net.nodes[s].Select? ::
      && Distinct(net.nodes[s].members)
      && (forall m | m in net.nodes[s].members :: m in net.owner && net.owner[m] == s)
      && forall m | m in net.nodes[s].tokens :: m in net.nodes[s].members
  }

  ghost predicate Distinct(q: seq<Id>) { forall i, j | 0 <= i < j < |q| :: q[i] != q[j] }

  /** `x` is `a`, or is among its members, or among theirs, and so on. */
  ghost predicate Under(net: Net, a: Id, x: Id)
    requires Forest(net) && x in net.nodes
    decreases net.top - net.rank[x]
  {
    x == a || (x in net.owner && Under(net, a, net.owner[x]))
  }

  /** size(): the number of items buffered in the queues underneath. */
  ghost function Size(net: Net, x: Id): nat
    requires Forest(net) && x in net.nodes
    decreases net.rank[x], 1, 0
  {
    match net.nodes[x]
    case Leaf(items) => |items|
    case Select(members, _) =>
      assert IsSelect(net, x);
      Sum(net, members, net.rank[x])
  }

  ghost function Sum(net: Net, ms: seq<Id>, r: nat): nat
    requires Forest(net) && forall m | m in ms :: m in net.nodes && net.rank[m] < r
    decreases r, 0, |ms|
  {
    if ms == [] then 0 else Size(net, ms[0]) + Sum(net, ms[1..], r)
  }

  function Count(q: seq<Id>, m: Id): nat {
    if q == [] then 0 else (if q[0] == m then 1 else 0) + Count(q[1..], m)
  }

  lemma {:induction false} CountSnoc(q: seq<Id>, x: Id, m: Id)
    ensures Count(q + [x], m) == Count(q, m) + if x == m then 1 else 0
  {
    if q == [] { assert q + [x] == [x]; }
    else { CountSnoc(q[1..], x, m); assert (q + [x])[1..] == q[1..] + [x]; }
  }

  // ---- The operations -------------------------------------------------------------------------------

  function WithTokens(net: Net, s: Id, tokens: seq<Id>): Net
    requires IsSelect(net, s)
  {
    net.(nodes := net.nodes[s := net.nodes[s].(tokens := tokens)])
  }

  function WithItems(net: Net, l: Id, items: seq<Item>): Net {
    net.(nodes := net.nodes[l := Leaf(items)])
  }

  /** `b` differs from `a` in tokens alone. */
  ghost predicate TokensOnly(a: Net, b: Net) {
    && b.owner == a.owner && b.rank == a.rank && b.top == a.top && b.nodes.Keys == a.nodes.Keys
    && forall x {:trigger b.nodes[x]} | x in a.nodes ::
         if a.nodes[x].Leaf? then b.nodes[x] == a.nodes[x]
         else b.nodes[x].Select? && b.nodes[x].members == a.nodes[x].members
              && forall m | m in b.nodes[x].tokens :: m in b.nodes[x].members
  }

  lemma TokensOnlyForest(a: Net, b: Net)
    requires Forest(a) && TokensOnly(a, b)
    ensures Forest(b)
  {
    assert forall s :: IsSelect(b, s) == IsSelect(a, s);
  }

  /** What happens above a node that has something to offer: Select._put, owner after owner. */
  ghost function Notify(net: Net, m: Id): (r: Net)
    requires Forest(net) && m in net.nodes
    ensures TokensOnly(net, r)
    decreases net.top - net.rank[m]
  {
    if m !in net.owner then net
    else
      var s := net.owner[m];
      var net1 := WithTokens(net, s, net.nodes[s].tokens + [m]);
      TokensOnlyForest(net, net1);
      Notify(net1, s)
  }

  ghost function NotifyTimes(net: Net, m: Id, n: nat): (r: Net)
    requires Forest(net) && m in net.nodes
    ensures TokensOnly(net, r)
    decreases n
  {
    if n == 0 then net
    else
      TokensOnlyForest(net, Notify(net, m));
      NotifyTimes(Notify(net, m), m, n - 1)
  }

  lemma ItemsForest(net: Net, l: Id, items: seq<Item>)
    requires Forest(net) && l in net.nodes && net.nodes[l].Leaf?
    ensures Forest(WithItems(net, l, items))
  {
    var net' := WithItems(net, l, items);
    assert forall s :: IsSelect(net', s) == IsSelect(net, s);
  }

  ghost function Put(net: Net, l: Id, item: Item): Net
    requires Forest(net) && l in net.nodes && net.nodes[l].Leaf?
  {
    ItemsForest(net, l, net.nodes[l].items + [item]);
    Notify(WithItems(net, l, net.nodes[l].items + [item]), l)
  }

  /** _check_no_loop: whether adding `r` to `s` would put `s` under itself. */
  ghost predicate Loops(net: Net, r: Id, s: Id)
    requires Forest(net) && r in net.nodes
    decreases net.rank[r]
  {
    r == s || (net.nodes[r].Select? && assert IsSelect(net, r);
      exists m :: m in net.nodes[r].members && (m == s || (IsSelect(net, m) && Loops(net, m, s))))
  }

  /** Selects above `s` must rank above `r` and all it holds. */
  ghost function Rerank(net: Net, s: Id, r: Id): map<Id, nat>
    requires Forest(net) && s in net.nodes && r in net.nodes
  {
    map x | x in net.nodes :: net.rank[x] + if Under(net, x, s) then net.rank[r] + 1 else 0
  }

  ghost function Join(net: Net, s: Id, r: Id): Net
    requires Forest(net) && IsSelect(net, s) && r in net.nodes
  {
    Net(net.nodes[s := net.nodes[s].(members := net.nodes[s].members + [r])],
        net.owner[r := s], Rerank(net, s, r), net.top + net.rank[r] + 1)
  }

  /** add(), for a receiver that no select owns yet; None when it would create a cycle. */
  ghost function Add(net: Net, s: Id, r: Id): Option<Net>
    requires Forest(net) && IsSelect(net, s) && r in net.nodes && r !in net.owner
  {
    if Loops(net, r, s) then None
    else
      LoopsIffUnder(net, r, s);
      JoinForest(net, s, r);
      Some(NotifyTimes(Join(net, s, r), r, Size(Join(net, s, r), r)))
  }

  datatype Result = Event(source: Id, item: Item) | TimedOut | NoMembers

  function PopToken(net: Net, s: Id): Net
    requires IsSelect(net, s) && net.nodes[s].tokens != []
  {
    WithTokens(net, s, net.nodes[s].tokens[1..])
  }

  function PopItem(net: Net, l: Id): Net
    requires l in net.nodes && net.nodes[l].Leaf? && net.nodes[l].items != []
  {
    WithItems(net, l, net.nodes[l].items[1..])
  }

  lemma PopThinner(net: Net, s: Id)
    requires Forest(net) && IsSelect(net, s) && net.nodes[s].tokens != []
    ensures Forest(PopToken(net, s)) && Thinner(net, PopToken(net, s)) && TokensOnly(net, PopToken(net, s))
    ensures var m := net.nodes[s].tokens[0]; m in net.nodes && m in net.owner && net.owner[m] == s && m != s
    ensures net.rank[net.nodes[s].tokens[0]] < net.rank[s]
  {
    assert net.nodes[s].tokens[0] in net.nodes[s].tokens;
    TokensOnlyForest(net, PopToken(net, s));
  }

  lemma ItemThinner(net: Net, l: Id)
    requires Forest(net) && l in net.nodes && net.nodes[l].Leaf? && net.nodes[l].items != []
    ensures Forest(PopItem(net, l)) && Thinner(net, PopItem(net, l))
  {
    ItemsForest(net, l, net.nodes[l].items[1..]);
  }

  lemma ThinnerTrans(a: Net, b: Net, c: Net)
    requires Thinner(a, b) && Thinner(b, c)
    ensures Thinner(a, c)
  {
  }

  /** get_event(block=False). */
  ghost function GetEvent(net: Net, s: Id): (r: (Net, Result))
    requires Forest(net) && IsSelect(net, s)
    ensures Forest(r.0) && Thinner(net, r.0)
    decreases net.rank[s], |net.nodes[s].tokens|
  {
    if net.nodes[s].members == [] then (net, NoMembers)
    else if net.nodes[s].tokens == [] then (net, TimedOut)
    else
      PopThinner(net, s);
      var m, net1 := net.nodes[s].tokens[0], PopToken(net, s);
      hide Forest;
      if net.nodes[m].Leaf? then
        if net.nodes[m].items == [] then
          ThinnerTrans(net, net1, GetEvent(net1, s).0);
          GetEvent(net1, s)
        else
          ItemThinner(net1, m);
          ThinnerTrans(net, net1, PopItem(net1, m));
          (PopItem(net1, m), Event(m, net.nodes[m].items[0]))
      else
        var (net2, r) := GetEvent(net1, m);
        ThinnerTrans(net, net1, net2);
        if r.TimedOut? then
          ThinnerTrans(net, net2, GetEvent(net2, s).0);
          GetEvent(net2, s)
        else (net2, r)
  }

  /** `b` is `a` with tokens taken away, and possibly items. */
  ghost predicate Thinner(a: Net, b: Net) {
    && b.owner == a.owner && b.rank == a.rank && b.top == a.top && b.nodes.Keys == a.nodes.Keys
    && forall x {:trigger b.nodes[x]} | x in a.nodes ::
         if a.nodes[x].Leaf? then b.nodes[x].Leaf?
         else b.nodes[x].Select? && b.nodes[x].members == a.nodes[x].members
              && Suffix(b.nodes[x].tokens, a.nodes[x].tokens)
  }

  ghost predicate Suffix(b: seq<Id>, a: seq<Id>) { |b| <= |a| && b == a[|a| - |b|..] }

  // ---- The tree of selects --------------------------------------------------------------------------

  lemma {:induction false} UnderRank(net: Net, a: Id, x: Id)
    requires Forest(net) && x in net.nodes && Under(net, a, x)
    ensures a in net.nodes && net.rank[x] <= net.rank[a] && (x != a ==> net.rank[x] < net.rank[a])
    decreases net.top - net.rank[x]
  {
    if x != a { UnderRank(net, a, net.owner[x]); }
  }

  lemma {:induction false} UnderTrans(net: Net, a: Id, b: Id, x: Id)
    requires Forest(net) && x in net.nodes && b in net.nodes && Under(net, a, b) && Under(net, b, x)
    ensures Under(net, a, x)
    decreases net.top - net.rank[x]
  {
    if x != b { UnderTrans(net, a, b, net.owner[x]); }
  }

  lemma {:induction false} Comparable(net: Net, a: Id, b: Id, x: Id)
    requires Forest(net) && x in net.nodes && Under(net, a, x) && Under(net, b, x)
    requires a in net.nodes && b in net.nodes
    ensures Under(net, a, b) || Under(net, b, a)
    decreases net.top - net.rank[x]
  {
    if x != a && x != b { Comparable(net, a, b, net.owner[x]); }
  }

  /** The member of `a` that holds `x`. */
  ghost function Toward(net: Net, a: Id, x: Id): (m: Id)
    requires Forest(net) && x in net.nodes && Under(net, a, x) && x != a
    ensures m in net.owner && net.owner[m] == a && Under(net, m, x)
    decreases net.top - net.rank[x]
  {
    if net.owner[x] == a then x else Toward(net, a, net.owner[x])
  }

  lemma TowardUnique(net: Net, a: Id, x: Id, m: Id)
    requires Forest(net) && x in net.nodes && Under(net, a, x) && x != a
    requires m in net.owner && net.owner[m] == a && Under(net, m, x)
    ensures m == Toward(net, a, x)
  {
    var d := Toward(net, a, x);
    Comparable(net, m, d, x);
    if m != d {
      if Under(net, m, d) { UnderRank(net, m, net.owner[d]); } else { UnderRank(net, d, net.owner[m]); }
    }
  }

  lemma {:induction false} LoopsIffUnder(net: Net, r: Id, s: Id)
    requires Forest(net) && r in net.nodes && s in net.nodes
    ensures Loops(net, r, s) <==> Under(net, r, s)
    decreases net.rank[r]
  {
    if r == s {
    } else if net.nodes[r].Leaf? {
      if Under(net, r, s) { var m := Toward(net, r, s); }
    } else {
      assert IsSelect(net, r);
      forall m | IsSelect(net, m) && m in net.nodes[r].members
        ensures Loops(net, m, s) <==> Under(net, m, s)
      {
        LoopsIffUnder(net, m, s);
      }
      if Under(net, r, s) {
        var m := Toward(net, r, s);
        assert m in net.nodes[r].members;
        if m != s { var k := Toward(net, m, s); assert IsSelect(net, m); }
      }
      if Loops(net, r, s) {
        var m :| m in net.nodes[r].members && (m == s || (IsSelect(net, m) && Loops(net, m, s)));
        assert Under(net, r, m);
        UnderTrans(net, r, m, s);
      }
    }
  }

  lemma JoinRanks(net: Net, s: Id, r: Id)
    requires Forest(net) && IsSelect(net, s) && r in net.nodes && r !in net.owner
    requires !Under(net, r, s)
    ensures forall x | x in Join(net, s, r).owner ::
              Join(net, s, r).rank[x] < Join(net, s, r).rank[Join(net, s, r).owner[x]]
  {
    var net' := Join(net, s, r);
    forall x | x in net'.owner
      ensures net'.rank[x] < net'.rank[net'.owner[x]]
    {
      if x != r && Under(net, x, s) {
        UnderTrans(net, net.owner[x], x, s);
      }
    }
  }

  lemma JoinMembers(net: Net, s: Id, r: Id)
    requires Forest(net) && IsSelect(net, s) && r in net.nodes && r !in net.owner
    ensures var ms := Join(net, s, r).nodes[s].members;
            Distinct(ms) && forall m :: m in ms <==> m in net.nodes[s].members || m == r
  {
    assert r !in net.nodes[s].members;
  }

  lemma JoinListed(net: Net, s: Id, r: Id)
    requires Forest(net) && IsSelect(net, s) && r in net.nodes && r !in net.owner
    ensures Listed(Join(net, s, r))
  {
    JoinMembers(net, s, r);
    hide Distinct, Under;
    var net' := Join(net, s, r);
    forall t | t in net'.nodes && net'.nodes[t].Select?
      ensures Distinct(net'.nodes[t].members)
      ensures forall m | m in net'.nodes[t].members :: m in net'.owner && net'.owner[m] == t
      ensures forall m | m in net'.nodes[t].tokens :: m in net'.nodes[t].members
    {
      assert net'.nodes[t].tokens == net.nodes[t].tokens;
    }
  }

  /** Joining keeps the nesting a forest. */
  lemma JoinForest(net: Net, s: Id, r: Id)
    requires Forest(net) && IsSelect(net, s) && r in net.nodes && r !in net.owner
    requires !Under(net, r, s)
    ensures Forest(Join(net, s, r))
  {
    JoinRanks(net, s, r);
    JoinListed(net, s, r);
    JoinOwners(net, s, r);
    hide Distinct, Under, Listed;
  }

  lemma JoinOwners(net: Net, s: Id, r: Id)
    requires Forest(net) && IsSelect(net, s) && r in net.nodes && r !in net.owner
    ensures var net' := Join(net, s, r);
            forall x {:trigger net'.owner[x]} | x in net'.owner ::
              IsSelect(net', net'.owner[x]) && x in net'.nodes[net'.owner[x]].members
  {
    JoinMembers(net, s, r);
    hide Distinct, Under, Listed, Rerank;
  }

  // ---- Sizes ----------------------------------------------------------------------------------------

  /** Only `t` may differ in what counts for sizes. */
  ghost predicate SameBut(a: Net, b: Net, t: Id) {
    forall x {:trigger b.nodes[x]} {:trigger a.nodes[x]} | x in a.nodes && x != t ::
      x in b.nodes &&
      if a.nodes[x].Leaf? then b.nodes[x].Leaf? && |b.nodes[x].items| == |a.nodes[x].items|
      else b.nodes[x].Select? && b.nodes[x].members == a.nodes[x].members
  }

  lemma {:induction false} SumShift(a: Net, b: Net, ms: seq<Id>, ra: nat, rb: nat, k: Id, d: int)
    requires Forest(a) && forall m | m in ms :: m in a.nodes && a.rank[m] < ra
    requires Forest(b) && forall m | m in ms :: m in b.nodes && b.rank[m] < rb
    requires Distinct(ms)
    requires forall m | m in ms :: Size(b, m) == Size(a, m) + if m == k then d else 0
    ensures Sum(b, ms, rb) == Sum(a, ms, ra) + if k in ms then d else 0
    decreases |ms|
  {
    hide Forest;
    if ms != [] {
      assert ms == [ms[0]] + ms[1..] && ms[0] !in ms[1..];
      SumShift(a, b, ms[1..], ra, rb, k, d);
      hide Size, Distinct;
    }
  }

  /** Every size above a node changes as the node's own does, and no other. */
  lemma {:induction false} SizeShift(a: Net, b: Net, t: Id, d: int, x: Id)
    requires Forest(a) && Forest(b) && t in a.nodes && x in a.nodes && SameBut(a, b, t)
    requires t in b.nodes && (Under(a, x, t) ==> Size(b, t) == Size(a, t) + d)
    ensures x in b.nodes
    ensures Size(b, x) == Size(a, x) + if Under(a, x, t) then d else 0
    decreases a.rank[x]
  {
    if x != t && a.nodes[x].Select? {
      assert IsSelect(a, x) && IsSelect(b, x);
      var ms := a.nodes[x].members;
      var k := if Under(a, x, t) then Toward(a, x, t) else t;
      forall m | m in ms
        ensures Size(b, m) == Size(a, m) + if m == k && Under(a, x, t) then d else 0
      {
        assert Under(a, x, m);
        if Under(a, m, t) { UnderTrans(a, x, m, t); TowardUnique(a, x, t, m); }
        SizeShift(a, b, t, d, m);
      }
      SumShift(a, b, ms, a.rank[x], b.rank[x], k, if Under(a, x, t) then d else 0);
    } else if x != t && Under(a, x, t) {
      var k := Toward(a, x, t);
      assert false;
    }
  }

  lemma {:induction false} SizeTokens(a: Net, b: Net, x: Id)
    requires Forest(a) && Forest(b) && TokensOnly(a, b) && x in a.nodes
    ensures Size(b, x) == Size(a, x)
    decreases a.rank[x]
  {
    if a.nodes[x].Select? {
      assert IsSelect(a, x);
      var ms := a.nodes[x].members;
      forall m | m in ms ensures Size(b, m) == Size(a, m) { SizeTokens(a, b, m); }
      SumShift(a, b, ms, a.rank[x], b.rank[x], 0, 0);
    }
  }

  // ---- Coverage -------------------------------------------------------------------------------------

  /** For every item buffered under a member, the select has a token naming that member. */
  ghost predicate CoveredBy(net: Net, m: Id)
    requires Forest(net) && m in net.owner
  {
    Count(net.nodes[net.owner[m]].tokens, m) >= Size(net, m)
  }

  ghost predicate Covered(net: Net) {
    && Forest(net)
    && (forall m {:trigger CoveredBy(net, m)} | m in net.owner :: CoveredBy(net, m))
    && AllWorthy(net)
  }

  /** No token names a select without members. */
  ghost predicate Worthy(net: Net, s: Id)
    requires IsSelect(net, s)
  {
    forall m | m in net.nodes[s].tokens && IsSelect(net, m) :: net.nodes[m].members != []
  }

  /** Notifying adds one token for every node above, and no other. */
  lemma {:induction false} NotifyCounts(net: Net, m: Id, x: Id)
    requires Forest(net) && m in net.nodes && x in net.owner
    ensures var net' := Notify(net, m);
            Count(net'.nodes[net.owner[x]].tokens, x)
            == Count(net.nodes[net.owner[x]].tokens, x) + if Under(net, x, m) then 1 else 0
    decreases net.top - net.rank[m]
  {
    if m in net.owner {
      var s := net.owner[m];
      var net1 := WithTokens(net, s, net.nodes[s].tokens + [m]);
      TokensOnlyForest(net, net1);
      NotifyCounts(net1, s, x);
      UnderTokens(net, net1, x, s);
      CountSnoc(net.nodes[s].tokens, m, x);
      if x == m && Under(net, m, s) { UnderRank(net, m, s); }
    }
  }

  /** And each at the end: who notified first is first in line, at every level. */
  lemma {:induction false} NotifyAppends(net: Net, m: Id, x: Id)
    requires Forest(net) && m in net.nodes && x in net.owner && Under(net, x, m)
    ensures var s := net.owner[x]; Notify(net, m).nodes[s].tokens == net.nodes[s].tokens + [x]
    decreases net.top - net.rank[m]
  {
    var s := net.owner[m];
    var net1 := WithTokens(net, s, net.nodes[s].tokens + [m]);
    TokensOnlyForest(net, net1);
    if x == m {
      NotifyAbove(net1, s, s);
    } else {
      UnderTokens(net, net1, x, s);
      NotifyAppends(net1, s, x);
      UnderRank(net, x, s);
    }
  }

  /** Notifying leaves the notifier's own tokens alone, and those of all that rank no higher. */
  lemma {:induction false} NotifyAbove(net: Net, m: Id, x: Id)
    requires Forest(net) && m in net.nodes && x in net.nodes && net.rank[x] <= net.rank[m]
    ensures Notify(net, m).nodes[x] == net.nodes[x]
    decreases net.top - net.rank[m]
  {
    if m in net.owner {
      var s := net.owner[m];
      var net1 := WithTokens(net, s, net.nodes[s].tokens + [m]);
      TokensOnlyForest(net, net1);
      NotifyAbove(net1, s, x);
    }
  }

  lemma {:induction false} UnderTokens(a: Net, b: Net, x: Id, y: Id)
    requires Forest(a) && Forest(b) && a.owner == b.owner && a.nodes.Keys == b.nodes.Keys && y in a.nodes
    ensures Under(a, x, y) <==> Under(b, x, y)
    decreases a.top - a.rank[y]
  {
    if x != y && y in a.owner { UnderTokens(a, b, x, a.owner[y]); }
  }

  lemma UnderUp(net: Net, x: Id, m: Id)
    requires Forest(net) && m in net.owner
    ensures Under(net, m, m) && (Under(net, x, net.owner[m]) ==> Under(net, x, m))
  {
  }

  lemma NotifyUp(net: Net, m: Id)
    requires Forest(net) && m in net.owner
    ensures var p := net.owner[m];
            var net1 := WithTokens(net, p, net.nodes[p].tokens + [m]);
            && TokensOnly(net, net1) && Forest(net1) && Notify(net, m) == Notify(net1, p)
  {
    var p := net.owner[m];
    TokensOnlyForest(net, WithTokens(net, p, net.nodes[p].tokens + [m]));
  }

  lemma TokenAdded(net: Net, p: Id, m: Id, s: Id, x: Id)
    requires IsSelect(net, p) && IsSelect(net, s)
    requires x in WithTokens(net, p, net.nodes[p].tokens + [m]).nodes[s].tokens
    ensures x in net.nodes[s].tokens || x == m
  {
  }

  /** A token that notifying adds names the node itself or one above it. */
  lemma {:induction false} NotifyTokens(net: Net, m: Id, s: Id, x: Id)
    requires Forest(net) && m in net.nodes && IsSelect(net, s) && x in Notify(net, m).nodes[s].tokens
    ensures x in net.nodes[s].tokens || (x in net.nodes && Under(net, x, m))
    decreases net.top - net.rank[m]
  {
    if m in net.owner {
      var p := net.owner[m];
      var net1 := WithTokens(net, p, net.nodes[p].tokens + [m]);
      NotifyUp(net, m);
      UnderUp(net, m, m);
      hide Notify, Under, Listed;
      NotifyTokens(net1, p, s, x);
      if x in net1.nodes[s].tokens { TokenAdded(net, p, m, s, x); }
      if x in net.nodes && Under(net1, x, p) {
        UnderTokens(net, net1, x, p);
        UnderUp(net, x, m);
      }
    }
  }

  lemma NotifyWorthy(net: Net, m: Id, s: Id)
    requires Forest(net) && m in net.nodes && IsSelect(net, s) && Worthy(net, s)
    requires IsSelect(net, m) ==> net.nodes[m].members != []
    ensures IsSelect(Notify(net, m), s) && Worthy(Notify(net, m), s)
  {
    hide Forest, Notify, Under;
    var net' := Notify(net, m);
    forall x | x in net'.nodes[s].tokens && IsSelect(net', x)
      ensures net'.nodes[x].members != []
    {
      assert IsSelect(net, x);
      NotifyWorthyOne(net, m, s, x);
    }
  }

  lemma NotifyWorthyOne(net: Net, m: Id, s: Id, x: Id)
    requires Forest(net) && m in net.nodes && IsSelect(net, s) && Worthy(net, s)
    requires IsSelect(net, m) ==> net.nodes[m].members != []
    requires x in Notify(net, m).nodes[s].tokens && IsSelect(net, x)
    ensures net.nodes[x].members != []
  {
    NotifyTokens(net, m, s, x);
    hide Notify;
    if Under(net, x, m) { MembersAbove(net, x, m); }
  }

  lemma MembersAbove(net: Net, x: Id, m: Id)
    requires Forest(net) && m in net.nodes && IsSelect(net, x) && Under(net, x, m)
    ensures x != m ==> net.nodes[x].members != []
  {
    if x != m { var k := Toward(net, x, m); }
  }

  /** A put keeps coverage. */
  lemma PutCovered(net: Net, l: Id, item: Item)
    requires Covered(net) && l in net.nodes && net.nodes[l].Leaf?
    ensures Covered(Put(net, l, item))
  {
    var net1 := WithItems(net, l, net.nodes[l].items + [item]);
    ItemsForest(net, l, net.nodes[l].items + [item]);
    var net' := Put(net, l, item);
    TokensOnlyForest(net1, net');
    ItemWorthy(net, l, net.nodes[l].items + [item]);
    hide Forest, Listed, Size, Under, Worthy, CoveredBy, Notify;
    forall m | m in net'.owner ensures CoveredBy(net', m) {
      assert CoveredBy(net, m);
      PutCoveredBy(net, l, item, m);
    }
    forall s | IsSelect(net', s) ensures Worthy(net', s) {
      assert Worthy(net1, s);
      NotifyWorthy(net1, l, s);
    }
  }

  lemma PutCoveredBy(net: Net, l: Id, item: Item, m: Id)
    requires Forest(net) && l in net.nodes && net.nodes[l].Leaf? && m in net.owner && CoveredBy(net, m)
    requires Forest(Put(net, l, item))
    ensures CoveredBy(Put(net, l, item), m)
  {
    var net1 := WithItems(net, l, net.nodes[l].items + [item]);
    ItemsForest(net, l, net.nodes[l].items + [item]);
    ItemSize(net, net1, l);
    SizeShift(net, net1, l, 1, m);
    SizeTokens(net1, Put(net, l, item), m);
    NotifyCounts(net1, l, m);
    UnderTokens(net, net1, m, l);
    assert net.owner[m] != l;
  }

  /** So does taking an item without taking a token. */
  lemma DrainCovered(net: Net, l: Id)
    requires Covered(net) && l in net.nodes && net.nodes[l].Leaf? && net.nodes[l].items != []
    ensures Covered(PopItem(net, l))
  {
    var net' := PopItem(net, l);
    ItemThinner(net, l);
    ItemSize(net, net', l);
    ItemWorthy(net, l, net.nodes[l].items[1..]);
    hide Forest, Listed, Size, Under;
    forall m | m in net'.owner ensures CoveredBy(net', m) {
      assert CoveredBy(net, m);
      ItemCoveredBy(net, l, m);
    }
  }

  lemma ItemSize(a: Net, b: Net, l: Id)
    requires Forest(a) && Forest(b) && l in a.nodes && a.nodes[l].Leaf? && l in b.nodes && b.nodes[l].Leaf?
    ensures Size(a, l) == |a.nodes[l].items| && Size(b, l) == |b.nodes[l].items|
  {
  }

  lemma ItemCoveredBy(net: Net, l: Id, m: Id)
    requires Forest(net) && l in net.nodes && net.nodes[l].Leaf? && net.nodes[l].items != []
    requires Forest(PopItem(net, l)) && m in net.owner && CoveredBy(net, m)
    ensures CoveredBy(PopItem(net, l), m)
  {
    ItemSize(net, PopItem(net, l), l);
    SizeShift(net, PopItem(net, l), l, -1, m);
    assert net.owner[m] != l;
  }

  lemma ItemWorthy(net: Net, l: Id, items: seq<Item>)
    requires l in net.nodes && net.nodes[l].Leaf? && AllWorthy(net)
    ensures AllWorthy(WithItems(net, l, items))
  {
    forall s | IsSelect(WithItems(net, l, items), s) ensures Worthy(WithItems(net, l, items), s) { assert Worthy(net, s); }
  }

  lemma {:induction false} NotifyTimesCounts(net: Net, m: Id, n: nat, x: Id)
    requires Forest(net) && m in net.nodes && x in net.owner
    ensures var net' := NotifyTimes(net, m, n);
            Count(net'.nodes[net.owner[x]].tokens, x)
            == Count(net.nodes[net.owner[x]].tokens, x) + if Under(net, x, m) then n else 0
    decreases n
  {
    if n > 0 {
      var net1 := Notify(net, m);
      TokensOnlyForest(net, net1);
      NotifyCounts(net, m, x);
      NotifyTimesCounts(net1, m, n - 1, x);
      UnderTokens(net, net1, x, m);
    }
  }

  lemma SameMembers(a: Net, b: Net, x: Id)
    requires TokensOnly(a, b) && x in a.nodes
    ensures x in b.nodes && IsSelect(b, x) == IsSelect(a, x)
    ensures IsSelect(a, x) ==> b.nodes[x].members == a.nodes[x].members
  {
  }

  lemma {:induction false} NotifyTimesWorthy(net: Net, m: Id, n: nat, s: Id)
    requires Forest(net) && m in net.nodes && IsSelect(net, s) && Worthy(net, s)
    requires IsSelect(net, m) ==> net.nodes[m].members != [] || n == 0
    ensures IsSelect(NotifyTimes(net, m, n), s) && Worthy(NotifyTimes(net, m, n), s)
    decreases n
  {
    hide Forest, Notify, Worthy;
    if n > 0 {
      TokensOnlyForest(net, Notify(net, m));
      NotifyWorthy(net, m, s);
      SameMembers(net, Notify(net, m), m);
      hide TokensOnly;
      NotifyTimesWorthy(Notify(net, m), m, n - 1, s);
    }
  }

  // ---- Adding ---------------------------------------------------------------------------------------

  lemma {:induction false} UnderJoin(net: Net, s: Id, r: Id, x: Id, y: Id)
    requires Forest(net) && IsSelect(net, s) && r in net.nodes && r !in net.owner && Forest(Join(net, s, r))
    requires y in net.nodes && !Under(net, r, y)
    ensures Under(Join(net, s, r), x, y) <==> Under(net, x, y)
    decreases net.top - net.rank[y]
  {
    if x != y && y in net.owner { UnderJoin(net, s, r, x, net.owner[y]); }
  }

  lemma {:induction false} SumSnoc(net: Net, ms: seq<Id>, m: Id, r: nat)
    requires Forest(net) && forall k | k in ms + [m] :: k in net.nodes && net.rank[k] < r
    ensures Sum(net, ms + [m], r) == Sum(net, ms, r) + Size(net, m)
    decreases |ms|
  {
    if ms == [] {
      assert ms + [m] == [m] && [m][1..] == [];
    } else {
      assert (ms + [m])[1..] == ms[1..] + [m];
      assert forall k | k in ms[1..] + [m] :: k in ms + [m];
      SumSnoc(net, ms[1..], m, r);
    }
  }

  lemma JoinSame(net: Net, s: Id, r: Id)
    requires Forest(net) && IsSelect(net, s) && r in net.nodes
    ensures SameBut(net, Join(net, s, r), s)
  {
  }

  lemma JoinSizeTop(net: Net, s: Id, r: Id)
    requires Forest(net) && IsSelect(net, s) && r in net.nodes && r !in net.owner
    requires !Under(net, r, s) && Forest(Join(net, s, r))
    ensures Size(Join(net, s, r), s) == Size(net, s) + Size(net, r)
  {
    var net', ms := Join(net, s, r), net.nodes[s].members;
    JoinSame(net, s, r);
    hide SameBut, Distinct, Rerank, Sum;
    SizeShift(net, net', s, 0, r);
    forall m | m in ms ensures Size(net', m) == Size(net, m) {
      if Under(net, m, s) { UnderRank(net, m, s); }
      SizeShift(net, net', s, 0, m);
    }
    assert net'.nodes[s].members == ms + [r];
    assert forall m | m in ms + [r] :: m in net'.owner && net'.owner[m] == s;
    hide Under;
    SumShift(net, net', ms, net.rank[s], net'.rank[s], s, 0);
    SumSnoc(net', ms, r, net'.rank[s]);
  }

  /** A join adds the size of what joins to every select above. */
  lemma JoinSize(net: Net, s: Id, r: Id, x: Id)
    requires Forest(net) && IsSelect(net, s) && r in net.nodes && r !in net.owner
    requires !Under(net, r, s) && Forest(Join(net, s, r)) && x in net.nodes
    ensures Size(Join(net, s, r), x) == Size(net, x) + if Under(net, x, s) then Size(net, r) else 0
  {
    JoinSame(net, s, r);
    JoinSizeTop(net, s, r);
    hide Size, Under, SameBut;
    SizeShift(net, Join(net, s, r), s, Size(net, r), x);
  }

  lemma {:induction false} CountNone(q: seq<Id>, m: Id)
    requires m !in q
    ensures Count(q, m) == 0
  {
    if q != [] { CountNone(q[1..], m); }
  }

  /** Adding succeeds exactly when it does not close a cycle, and keeps coverage. */
  lemma AddCovered(net: Net, s: Id, r: Id)
    requires Covered(net) && IsSelect(net, s) && r in net.nodes && r !in net.owner
    ensures Add(net, s, r).Some? <==> !Under(net, r, s)
    ensures Add(net, s, r).Some? ==> Covered(Add(net, s, r).value)
  {
    LoopsIffUnder(net, r, s);
    hide Under, Loops, Worthy, CoveredBy, Forest;
    if !Under(net, r, s) {
      var net' := Add(net, s, r).value;
      AddForest(net, s, r);
      hide Join, Add;
      forall m | m in net'.owner ensures CoveredBy(net', m) { AddCoveredBy(net, s, r, m); }
      forall t | IsSelect(net', t) ensures Worthy(net', t) {
        assert Worthy(net, t);
        AddWorthy(net, s, r, t);
      }
    }
  }

  lemma AddForest(net: Net, s: Id, r: Id)
    requires Forest(net) && IsSelect(net, s) && r in net.nodes && r !in net.owner && !Loops(net, r, s)
    ensures Forest(Join(net, s, r)) && Add(net, s, r).Some? && Forest(Add(net, s, r).value)
    ensures var net' := Add(net, s, r).value;
            && net'.owner.Keys == Join(net, s, r).owner.Keys
            && forall t :: IsSelect(net', t) == IsSelect(net, t)
  {
    hide Forest, Under, Loops;
    LoopsIffUnder(net, r, s);
    JoinForest(net, s, r);
    TokensOnlyForest(Join(net, s, r), Add(net, s, r).value);
  }

  lemma AddCoveredBy(net: Net, s: Id, r: Id, m: Id)
    requires Covered(net) && IsSelect(net, s) && r in net.nodes && r !in net.owner
    requires !Under(net, r, s) && Forest(Join(net, s, r)) && !Loops(net, r, s)
    requires Forest(Add(net, s, r).value) && m in Join(net, s, r).owner
    ensures CoveredBy(Add(net, s, r).value, m)
  {
    var net1, net' := Join(net, s, r), Add(net, s, r).value;
    var n := Size(net1, r);
    NotifyTimesCounts(net1, r, n, m);
    SizeTokens(net1, net', m);
    JoinSize(net, s, r, r);
    JoinSize(net, s, r, m);
    if m != r {
      assert CoveredBy(net, m);
      UnderJoin(net, s, r, m, s);
      assert Under(net1, m, r) == Under(net1, m, s);
      assert net1.nodes[net1.owner[m]].tokens == net.nodes[net.owner[m]].tokens;
    }
  }

  lemma AddWorthy(net: Net, s: Id, r: Id, t: Id)
    requires Covered(net) && IsSelect(net, s) && r in net.nodes && r !in net.owner
    requires !Under(net, r, s) && Forest(Join(net, s, r)) && !Loops(net, r, s)
    requires IsSelect(net, t) && Worthy(net, t)
    ensures IsSelect(Add(net, s, r).value, t) && Worthy(Add(net, s, r).value, t)
  {
    var net1 := Join(net, s, r);
    JoinWorthy(net, s, r, t);
    NoMembersNoSize(net1, r);
    hide Size, Forest, Worthy, Covered, Rerank, Under;
    NotifyTimesWorthy(net1, r, Size(net1, r), t);
  }

  lemma JoinWorthy(net: Net, s: Id, r: Id, t: Id)
    requires Forest(net) && IsSelect(net, s) && r in net.nodes && IsSelect(net, t) && Worthy(net, t)
    ensures IsSelect(Join(net, s, r), t) && Worthy(Join(net, s, r), t)
  {
    hide Forest, Rerank, Under;
  }

  lemma NoMembersNoSize(net: Net, s: Id)
    requires Forest(net) && s in net.nodes
    ensures IsSelect(net, s) && net.nodes[s].members == [] ==> Size(net, s) == 0
  {
  }

  // ---- Getting --------------------------------------------------------------------------------------

  /** What getting changes besides tokens: one item of the queue it names, and no other. */
  ghost predicate Took(a: Net, b: Net, r: Result) {
    match r
    case Event(l, item) =>
      && l in a.nodes && a.nodes[l].Leaf? && l in b.nodes && b.nodes[l].Leaf?
      && a.nodes[l].items == [item] + b.nodes[l].items
      && forall x {:trigger b.nodes[x]} | x in a.nodes && x in b.nodes && x != l && a.nodes[x].Leaf? :: b.nodes[x] == a.nodes[x]
    case _ => forall x {:trigger b.nodes[x]} | x in a.nodes && x in b.nodes && a.nodes[x].Leaf? :: b.nodes[x] == a.nodes[x]
  }

  lemma TookSize(a: Net, b: Net, r: Result, x: Id)
    requires Forest(a) && Forest(b) && Thinner(a, b) && Took(a, b, r) && x in a.nodes
    ensures Size(b, x) == Size(a, x) - if r.Event? && Under(a, x, r.source) then 1 else 0
  {
    if r.Event? {
      SizeShift(a, b, r.source, -1, x);
    } else {
      assert forall s | s in b.nodes && b.nodes[s].Select? :: forall m | m in b.nodes[s].tokens :: m in b.nodes[s].members;
      SizeTokens(a, b, x);
    }
  }

  ghost predicate CoveredUnder(net: Net, s: Id)
    requires Forest(net)
  {
    forall m {:trigger CoveredBy(net, m)} | m in net.owner && Under(net, s, net.owner[m]) :: CoveredBy(net, m)
  }

  ghost predicate AllWorthy(net: Net) { forall s {:trigger Worthy(net, s)} | IsSelect(net, s) :: Worthy(net, s) }

  /** What a get does to tokens elsewhere: nothing. */
  ghost predicate Elsewhere(a: Net, b: Net, s: Id)
    requires Forest(a) && b.nodes.Keys == a.nodes.Keys
  {
    forall x {:trigger b.nodes[x]} | x in a.nodes && !Under(a, s, x) && a.nodes[x].Select? :: b.nodes[x] == a.nodes[x]
  }

  lemma {:induction false} SumZero(net: Net, ms: seq<Id>, r: nat)
    requires Forest(net) && forall m | m in ms :: m in net.nodes && net.rank[m] < r && Size(net, m) == 0
    ensures Sum(net, ms, r) == 0
    decreases |ms|
  {
    if ms != [] { SumZero(net, ms[1..], r); }
  }

  lemma NoTokensNoItems(net: Net, s: Id)
    requires Forest(net) && IsSelect(net, s) && CoveredUnder(net, s) && net.nodes[s].tokens == []
    ensures Size(net, s) == 0
  {
    var ms := net.nodes[s].members;
    forall m | m in ms ensures Size(net, m) == 0 { assert Under(net, s, net.owner[m]) && CoveredBy(net, m); }
    SumZero(net, ms, net.rank[s]);
  }

  lemma ThinnerWorthy(a: Net, b: Net)
    requires AllWorthy(a) && Thinner(a, b)
    ensures AllWorthy(b)
  {
    forall s | IsSelect(b, s) ensures Worthy(b, s) {
      assert IsSelect(a, s) && Worthy(a, s);
      assert Suffix(b.nodes[s].tokens, a.nodes[s].tokens);
    }
  }

  /** What get_event finds, when the selects underneath are covered. */
  ghost predicate Found(net: Net, s: Id, net': Net, r: Result)
    requires Forest(net) && IsSelect(net, s) && Forest(net') && Thinner(net, net')
  {
    && Took(net, net', r) && CoveredUnder(net', s) && Elsewhere(net, net', s)
    && match r {
         case NoMembers => false
         case TimedOut => Size(net, s) == 0
         case Event(l, _) => l in net.nodes && Under(net, s, l)
       }
  }

  /** `net1` is `net` without the select's first token. */
  ghost predicate Popped(net: Net, s: Id, net1: Net) {
    && IsSelect(net, s) && net.nodes[s].tokens != []
    && Forest(net1) && TokensOnly(net, net1)
    && net1.nodes[s].tokens == net.nodes[s].tokens[1..]
    && forall x {:trigger net1.nodes[x]} | x in net.nodes && x != s :: net1.nodes[x] == net.nodes[x]
  }

  lemma PopPopped(net: Net, s: Id)
    requires Forest(net) && IsSelect(net, s) && net.nodes[s].tokens != []
    ensures Popped(net, s, PopToken(net, s))
  {
    PopThinner(net, s);
  }

  lemma PopCovered(net: Net, s: Id, net1: Net, k: Id)
    requires Forest(net) && IsSelect(net, s) && net.nodes[s].tokens != []
    requires Popped(net, s, net1)
    requires k in net.owner && Under(net, s, net.owner[k]) && CoveredBy(net, k)
    ensures Count(net1.nodes[net.owner[k]].tokens, k)
         >= Size(net, k) - if k == net.nodes[s].tokens[0] && net.owner[k] == s then 1 else 0
    ensures Size(net1, k) == Size(net, k)
  {
    SizeTokens(net, net1, k);
  }

  /** After the token of an empty queue. */
  lemma FoundAfter(net: Net, s: Id, net1: Net, net2: Net, r: Result)
    requires Forest(net) && IsSelect(net, s) && Forest(net1) && Thinner(net, net1)
    requires Took(net, net1, TimedOut) && Elsewhere(net, net1, s)
    requires Forest(net2) && Thinner(net1, net2) && Thinner(net, net2) && Found(net1, s, net2, r)
    ensures Found(net, s, net2, r)
  {
    TookSize(net, net1, TimedOut, s);
    forall x | x in net.nodes && !Under(net, s, x) && net.nodes[x].Select?
      ensures net2.nodes[x] == net.nodes[x]
    {
      UnderTokens(net, net1, s, x);
      assert net1.nodes[x] == net.nodes[x];
    }
    if r.Event? { UnderTokens(net, net1, s, r.source); }
  }

  /** One member's token is gone: what was covered is, but for that token. */
  lemma CoverOne(net: Net, s: Id, net1: Net, net2: Net, r: Result, k: Id)
    requires Forest(net) && IsSelect(net, s) && net.nodes[s].tokens != []
    requires Popped(net, s, net1)
    requires Forest(net2) && Thinner(net1, net2) && Took(net1, net2, r)
    requires k in net.owner && Under(net, s, net.owner[k]) && CoveredBy(net, k)
    requires net2.nodes[net.owner[k]].tokens == net1.nodes[net.owner[k]].tokens
    requires k == net.nodes[s].tokens[0] && net.owner[k] == s ==> Size(net2, k) < Size(net, k) || Size(net2, k) == 0
    ensures CoveredBy(net2, k)
  {
    PopCovered(net, s, net1, k);
    TookSize(net1, net2, r, k);
  }

  /** After the token of a select, when it has been asked. */
  lemma CoverStep(net: Net, s: Id, net1: Net, m: Id, net2: Net, r: Result)
    requires Forest(net) && IsSelect(net, s) && net.nodes[s].tokens != [] && CoveredUnder(net, s)
    requires Popped(net, s, net1) && IsSelect(net1, m)
    requires m == net.nodes[s].tokens[0] && m in net.nodes
    requires Forest(net2) && Thinner(net1, net2) && Found(net1, m, net2, r)
    ensures CoveredUnder(net2, s)
  {
    forall k | k in net2.owner && Under(net2, s, net2.owner[k])
      ensures CoveredBy(net2, k)
    {
      var p := net.owner[k];
      UnderTokens(net, net1, s, p);
      UnderTokens(net1, net2, s, p);
      UnderTokens(net1, net2, m, p);
      if Under(net2, m, p) {
        assert CoveredBy(net2, k);
      } else {
        assert CoveredBy(net, k);
        TookSize(net1, net2, r, m);
        SizeTokens(net, net1, m);
        assert net2.nodes[p] == net1.nodes[p];
        CoverOne(net, s, net1, net2, r, k);
      }
    }
  }

  /** After the token of an empty queue. */
  lemma CoverEmpty(net: Net, s: Id, net1: Net, m: Id)
    requires Forest(net) && IsSelect(net, s) && net.nodes[s].tokens != [] && CoveredUnder(net, s)
    requires Popped(net, s, net1)
    requires m == net.nodes[s].tokens[0] && m in net.nodes && net.nodes[m].Leaf? && m in net.owner && net.owner[m] == s
    requires net.nodes[m].items == []
    ensures CoveredUnder(net1, s)
  {
    ThinnerSelf(net1);
    TookNothing(net1);
    hide Forest, CoveredUnder, Thinner, TokensOnly, Took, SelectsSame;
    CoverLeafFrom(net, s, net1, m, net1, TimedOut);
  }

  /** After an item was taken. */
  lemma CoverItem(net: Net, s: Id, net1: Net, m: Id)
    requires Forest(net) && IsSelect(net, s) && net.nodes[s].tokens != [] && CoveredUnder(net, s)
    requires Popped(net, s, net1)
    requires m == net.nodes[s].tokens[0] && m in net.nodes && net.nodes[m].Leaf? && m in net.owner && net.owner[m] == s
    requires net.nodes[m].items != []
    ensures Forest(PopItem(net1, m)) && CoveredUnder(PopItem(net1, m), s)
  {
    ItemThinner(net1, m);
    TookItem(net1, m);
    hide Forest, CoveredUnder, Thinner, TokensOnly, Took, SelectsSame;
    assert net1.nodes[m] == net.nodes[m];
    CoverLeafFrom(net, s, net1, m, PopItem(net1, m), Event(m, net.nodes[m].items[0]));
  }

  lemma ThinnerSelf(net: Net)
    ensures Thinner(net, net)
  {
  }

  ghost predicate SelectsSame(a: Net, b: Net) {
    forall x {:trigger b.nodes[x]} | x in a.nodes && x in b.nodes && a.nodes[x].Select? :: b.nodes[x] == a.nodes[x]
  }

  lemma TookNothing(net: Net)
    ensures Took(net, net, TimedOut) && SelectsSame(net, net)
  {
  }

  lemma TookItem(net: Net, l: Id)
    requires l in net.nodes && net.nodes[l].Leaf? && net.nodes[l].items != []
    ensures Took(net, PopItem(net, l), Event(l, net.nodes[l].items[0])) && SelectsSame(net, PopItem(net, l))
  {
  }

  lemma CoverLeafFrom(net: Net, s: Id, net1: Net, m: Id, net2: Net, r: Result)
    requires Forest(net) && IsSelect(net, s) && net.nodes[s].tokens != [] && CoveredUnder(net, s)
    requires Popped(net, s, net1)
    requires m == net.nodes[s].tokens[0] && m in net.nodes && net.nodes[m].Leaf? && m in net.owner && net.owner[m] == s
    requires Forest(net2) && (r.TimedOut? ==> net2 == net1)
    requires Thinner(net1, net2) && Took(net1, net2, r)
    requires SelectsSame(net1, net2)
    requires if r.TimedOut? then net.nodes[m].items == [] else r.Event? && r.source == m
    ensures CoveredUnder(net2, s)
  {
    forall k | k in net2.owner && Under(net2, s, net2.owner[k])
      ensures CoveredBy(net2, k)
    {
      UnderTokens(net, net2, s, net.owner[k]);
      assert CoveredBy(net, k);
      CoverOne(net, s, net1, net2, r, k);
    }
  }

  lemma PopInner(net: Net, s: Id, net1: Net, m: Id)
    requires Forest(net) && IsSelect(net, s) && net.nodes[s].tokens != [] && CoveredUnder(net, s)
    requires Popped(net, s, net1)
    requires m in net.owner && net.owner[m] == s
    ensures CoveredUnder(net1, m)
  {
    forall k | k in net1.owner && Under(net1, m, net1.owner[k])
      ensures CoveredBy(net1, k)
    {
      var p := net.owner[k];
      UnderTokens(net, net1, m, p);
      UnderRank(net, m, p);
      assert Under(net, s, m);
      UnderTrans(net, s, m, p);
      assert CoveredBy(net, k);
      PopCovered(net, s, net1, k);
    }
  }

  /** Elsewhere from a member is elsewhere from its owner. */
  lemma ElsewhereAbove(net: Net, s: Id, net1: Net, m: Id, net2: Net)
    requires Forest(net) && IsSelect(net, s) && net.nodes[s].tokens != []
    requires Popped(net, s, net1) && m in net.owner && net.owner[m] == s
    requires net2.nodes.Keys == net.nodes.Keys && Elsewhere(net1, net2, m)
    ensures Elsewhere(net, net2, s)
  {
    forall x | x in net.nodes && !Under(net, s, x) && net.nodes[x].Select?
      ensures net2.nodes[x] == net.nodes[x]
    {
      UnderTokens(net, net1, m, x);
      if Under(net, m, x) { UnderTrans(net, s, m, x); }
      assert net1.nodes[x] == net.nodes[x];
    }
  }

  /** A get finds an item if there is one underneath, wherever it is. */
  lemma {:induction false} GetFinds(net: Net, s: Id)
    requires Forest(net) && IsSelect(net, s) && CoveredUnder(net, s) && AllWorthy(net)
    requires net.nodes[s].members != []
    ensures Found(net, s, GetEvent(net, s).0, GetEvent(net, s).1)
    decreases net.rank[s], |net.nodes[s].tokens|
  {
    hide Found, CoveredUnder, Took, Elsewhere, AllWorthy, Forest;
    if net.nodes[s].tokens == [] {
      FoundNone(net, s);
    } else {
      PopThinner(net, s);
      PopPopped(net, s);
      var m, net1 := net.nodes[s].tokens[0], PopToken(net, s);
      ThinnerWorthy(net, net1);
      if net.nodes[m].Leaf? {
        if net.nodes[m].items == [] {
          CoverEmpty(net, s, net1, m);
          GetFinds(net1, s);
          hide GetEvent;
          PopElsewhere(net, s);
          ThinnerTrans(net, net1, GetEvent(net1, s).0);
          FoundAfter(net, s, net1, GetEvent(net1, s).0, GetEvent(net1, s).1);
        } else {
          CoverItem(net, s, net1, m);
          ItemThinner(net1, m);
          ThinnerTrans(net, net1, PopItem(net1, m));
          FoundLeaf(net, s, net1, m);
        }
      } else {
        PopInner(net, s, net1, m);
        WorthyMember(net, s, m);
        GetFinds(net1, m);
        var (net2, r) := GetEvent(net1, m);
        GetInner(net, s, net1, m, net2, r);
        if r.TimedOut? {
          ThinnerTrans(net, net1, net2);
          ThinnerWorthy(net, net2);
          GetFinds(net2, s);
          ThinnerTrans(net, net2, GetEvent(net2, s).0);
          FoundAfter(net, s, net2, GetEvent(net2, s).0, GetEvent(net2, s).1);
        }
      }
    }
  }

  lemma FoundNone(net: Net, s: Id)
    requires Forest(net) && IsSelect(net, s) && CoveredUnder(net, s) && net.nodes[s].tokens == []
    ensures Thinner(net, net) && Found(net, s, net, TimedOut)
  {
    NoTokensNoItems(net, s);
  }

  lemma WorthyMember(net: Net, s: Id, m: Id)
    requires AllWorthy(net) && IsSelect(net, s) && net.nodes[s].tokens != [] && m == net.nodes[s].tokens[0]
    requires IsSelect(net, m)
    ensures net.nodes[m].members != []
  {
    assert Worthy(net, s);
  }

  lemma PopElsewhere(net: Net, s: Id)
    requires Forest(net) && IsSelect(net, s) && net.nodes[s].tokens != []
    ensures Took(net, PopToken(net, s), TimedOut) && Elsewhere(net, PopToken(net, s), s)
  {
  }

  lemma FoundLeaf(net: Net, s: Id, net1: Net, m: Id)
    requires Forest(net) && Popped(net, s, net1)
    requires m == net.nodes[s].tokens[0] && m in net.owner && net.owner[m] == s
    requires m in net.nodes && net.nodes[m].Leaf? && net.nodes[m].items != []
    requires var net2 := PopItem(net1, m); Forest(net2) && Thinner(net, net2) && CoveredUnder(net2, s)
    ensures Found(net, s, PopItem(net1, m), Event(m, net.nodes[m].items[0]))
  {
    assert Under(net, s, m);
    var net2, r := PopItem(net1, m), Event(m, net.nodes[m].items[0]);
    assert net.nodes[m].items == [net.nodes[m].items[0]] + net.nodes[m].items[1..];
    hide Forest, Listed, CoveredUnder, Thinner, Size, Under;
    assert Took(net, net2, r);
    assert Elsewhere(net, net2, s) by { UnderSelf(net, s); }
    hide Took, Elsewhere;
  }

  lemma UnderSelf(net: Net, s: Id)
    requires Forest(net) && s in net.nodes
    ensures Under(net, s, s)
  {
  }

  lemma GetInner(net: Net, s: Id, net1: Net, m: Id, net2: Net, r: Result)
    requires Forest(net) && IsSelect(net, s) && net.nodes[s].tokens != [] && CoveredUnder(net, s)
    requires Popped(net, s, net1) && IsSelect(net1, m)
    requires m == net.nodes[s].tokens[0] && m in net.owner && net.owner[m] == s
    requires Forest(net2) && Thinner(net1, net2) && Thinner(net, net2)
    requires Found(net1, m, net2, r)
    ensures CoveredUnder(net2, s) && Elsewhere(net, net2, s)
    ensures if r.TimedOut? then Took(net, net2, TimedOut) else Found(net, s, net2, r)
  {
    CoverStep(net, s, net1, m, net2, r);
    ElsewhereAbove(net, s, net1, m, net2);
    if r.Event? {
      UnderTokens(net, net1, m, r.source);
      assert Under(net, s, m);
      UnderTrans(net, s, m, r.source);
    }
    hide CoveredUnder, Elsewhere, Under, Forest;
  }

  // ---- Whole nets -----------------------------------------------------------------------------------

  /** The error for a select without members is raised for that select only. */
  lemma NoMembersIff(net: Net, s: Id)
    requires Covered(net) && IsSelect(net, s)
    ensures GetEvent(net, s).1.NoMembers? <==> net.nodes[s].members == []
  {
    if net.nodes[s].members != [] { GetCovered(net, s); }
  }

  /** In a covered net, a get that does not block times out exactly when no item is buffered
      underneath; otherwise it takes one item from the queue it names.  The net stays covered. */
  lemma GetCovered(net: Net, s: Id)
    requires Covered(net) && IsSelect(net, s) && net.nodes[s].members != []
    ensures var (net', r) := GetEvent(net, s);
            && Covered(net') && Took(net, net', r) && !r.NoMembers?
            && (r.TimedOut? <==> Size(net, s) == 0)
            && (r.Event? ==>
                  && r.source in net.nodes && Under(net, s, r.source)
                  && Size(net', s) == Size(net, s) - 1)
  {
    var (net', r) := GetEvent(net, s);
    GetFinds(net, s);
    hide GetEvent, Forest;
    TookSize(net, net', r, s);
    ThinnerWorthy(net, net');
    forall k | k in net'.owner ensures CoveredBy(net', k) {
      assert CoveredBy(net, k);
      GetCoveredBy(net, s, net', r, k);
    }
  }

  lemma GetCoveredBy(net: Net, s: Id, net': Net, r: Result, k: Id)
    requires Forest(net) && Forest(net') && Thinner(net, net') && Took(net, net', r)
    requires CoveredUnder(net', s) && Elsewhere(net, net', s)
    requires k in net.owner && CoveredBy(net, k)
    ensures CoveredBy(net', k)
  {
    var p := net.owner[k];
    UnderTokens(net, net', s, p);
    if !Under(net, s, p) {
      TookSize(net, net', r, k);
      assert net'.nodes[p] == net.nodes[p];
    }
  }

  // ---- Runs -----------------------------------------------------------------------------------------

  datatype Step =
    | NewLeaf(x: Id)
    | NewSelect(x: Id)
    | AddTo(s: Id, r: Id)
    | PutIn(l: Id, item: Item)
    | Drain(l: Id)            // somebody reads the queue itself
    | Get(s: Id)

  ghost predicate Enabled(net: Net, step: Step) {
    Forest(net) &&
    match step
    case NewLeaf(x) => x !in net.nodes
    case NewSelect(x) => x !in net.nodes
    case AddTo(s, r) => IsSelect(net, s) && r in net.nodes && r !in net.owner && !Loops(net, r, s)
    case PutIn(l, _) => l in net.nodes && net.nodes[l].Leaf?
    case Drain(l) => l in net.nodes && net.nodes[l].Leaf? && net.nodes[l].items != []
    case Get(s) => IsSelect(net, s) && net.nodes[s].members != []
  }

  function New(net: Net, x: Id, n: Node): Net {
    net.(nodes := net.nodes[x := n], rank := net.rank[x := 0])
  }

  ghost function Next(net: Net, step: Step): Net
    requires Enabled(net, step)
  {
    match step
    case NewLeaf(x) => New(net, x, Leaf([]))
    case NewSelect(x) => New(net, x, Select([], []))
    case AddTo(s, r) => Add(net, s, r).value
    case PutIn(l, item) => Put(net, l, item)
    case Drain(l) => PopItem(net, l)
    case Get(s) => GetEvent(net, s).0
  }

  lemma NewForest(net: Net, x: Id, n: Node)
    requires Forest(net) && x !in net.nodes && (n == Leaf([]) || n == Select([], []))
    ensures Forest(New(net, x, n))
  {
    NewListed(net, x, n);
    hide Distinct, Listed;
  }

  lemma NewListed(net: Net, x: Id, n: Node)
    requires Forest(net) && x !in net.nodes && (n == Leaf([]) || n == Select([], []))
    ensures Listed(New(net, x, n))
  {
    var net' := New(net, x, n);
    forall s | s in net'.nodes && net'.nodes[s].Select?
      ensures Distinct(net'.nodes[s].members)
      ensures forall m | m in net'.nodes[s].members :: m in net'.owner && net'.owner[m] == s
    {
      assert s != x ==> net'.nodes[s] == net.nodes[s];
    }
  }

  lemma {:induction false} NewSize(net: Net, x: Id, n: Node, y: Id)
    requires Forest(net) && x !in net.nodes && Forest(New(net, x, n)) && y in net.nodes
    ensures Size(New(net, x, n), y) == Size(net, y)
    decreases net.rank[y]
  {
    if net.nodes[y].Select? {
      var ms := net.nodes[y].members;
      forall m | m in ms ensures Size(New(net, x, n), m) == Size(net, m) { NewSize(net, x, n, m); }
      SumShift(net, New(net, x, n), ms, net.rank[y], net.rank[y], 0, 0);
    }
  }

  lemma NewCovered(net: Net, x: Id, n: Node)
    requires Covered(net) && x !in net.nodes && (n == Leaf([]) || n == Select([], []))
    ensures Covered(New(net, x, n))
  {
    var net' := New(net, x, n);
    NewForest(net, x, n);
    forall m | m in net'.owner ensures CoveredBy(net', m) {
      assert CoveredBy(net, m);
      NewSize(net, x, n, m);
    }
    forall s | IsSelect(net', s) ensures Worthy(net', s) {
      if s != x {
        assert Worthy(net, s);
        assert forall m | m in net.nodes[s].tokens :: m in net.nodes[s].members && m in net.owner;
      }
    }
  }

  lemma StepKeeps(net: Net, step: Step)
    requires Covered(net) && Enabled(net, step)
    ensures Covered(Next(net, step))
  {
    hide Covered, Forest, New, Put, PopItem, Add, GetEvent;
    assert Forest(net) by { CoveredForest(net); }
    match step
    case NewLeaf(x) => NewCovered(net, x, Leaf([]));
    case NewSelect(x) => NewCovered(net, x, Select([], []));
    case AddTo(s, r) => AddNext(net, s, r);
    case PutIn(l, item) => PutCovered(net, l, item);
    case Drain(l) => DrainCovered(net, l);
    case Get(s) => GetCovered(net, s);
  }

  lemma CoveredForest(net: Net)
    requires Covered(net)
    ensures Forest(net)
  {
  }

  lemma AddNext(net: Net, s: Id, r: Id)
    requires Covered(net) && Enabled(net, AddTo(s, r))
    ensures Covered(Next(net, AddTo(s, r)))
  {
    AddCovered(net, s, r);
  }

  ghost predicate IsRun(steps: seq<Step>, nets: seq<Net>) {
    && |nets| == |steps| + 1 && nets[0] == Empty
    && forall i {:trigger steps[i]} | 0 <= i < |steps| ::
         Enabled(nets[i], steps[i]) && nets[i+1] == Next(nets[i], steps[i])
  }

  lemma EmptyCovered()
    ensures Covered(Empty)
  {
  }

  /** In every run that builds, feeds and reads selects, the nesting stays a forest and every
      buffered item is covered by tokens all the way up. */
  lemma {:induction false} RunKeeps(steps: seq<Step>, nets: seq<Net>, n: nat)
    requires IsRun(steps, nets) && n <= |steps|
    ensures Covered(nets[n])
  {
    hide Covered, Next, Enabled;
    if n == 0 {
      EmptyCovered();
    } else {
      RunKeeps(steps, nets, n - 1);
      RunStep(steps, nets, n - 1);
      hide IsRun;
      StepKeeps(nets[n-1], steps[n-1]);
    }
  }

  lemma RunStep(steps: seq<Step>, nets: seq<Net>, n: nat)
    requires IsRun(steps, nets) && n < |steps|
    ensures Enabled(nets[n], steps[n]) && nets[n+1] == Next(nets[n], steps[n])
  {
    hide Enabled, Next;
    assert Enabled(nets[n], steps[n]);
  }

  /** So in every run, a get that does not block times out exactly when nothing is buffered. */
  lemma TimesOutIffEmpty(steps: seq<Step>, nets: seq<Net>, n: nat, s: Id)
    requires IsRun(steps, nets) && n <= |steps|
    requires Forest(nets[n]) && IsSelect(nets[n], s) && nets[n].nodes[s].members != []
    ensures GetEvent(nets[n], s).1.TimedOut? <==> Size(nets[n], s) == 0
  {
    RunKeeps(steps, nets, n);
    hide Covered, GetEvent, Size, Forest;
    GetCovered(nets[n], s);
  }
}
