/** When a select holds exactly as many tokens as there are items, and what `empty()`, which looks at
    the tokens, says about the items. */
module SpareTokens {
  import opened Prelude
  import opened Selects

  /** empty(): nothing in the select's own latch. */
  predicate EmptyLatch(net: Net, s: Id)
    requires IsSelect(net, s)
  {
    net.nodes[s].tokens == []
  }

  /** The tokens for `m` that have no item to go with. */
  ghost function Spare(net: Net, m: Id): int
    requires Forest(net) && m in net.owner
  {
    Count(net.nodes[net.owner[m]].tokens, m) - Size(net, m)
  }

  ghost predicate Exact(net: Net) {
    Covered(net) && forall m {:trigger Spare(net, m)} | m in net.owner :: Spare(net, m) == 0
  }

  // ---- What each operation does to spare tokens -------------------------------------------------------

  lemma SparePut(net: Net, l: Id, item: Item, m: Id)
    requires Forest(net) && l in net.nodes && net.nodes[l].Leaf? && m in net.owner
    requires Forest(Put(net, l, item)) && m in Put(net, l, item).owner
    ensures Spare(Put(net, l, item), m) == Spare(net, m)
  {
    var net1 := WithItems(net, l, net.nodes[l].items + [item]);
    ItemsForest(net, l, net.nodes[l].items + [item]);
    ItemSize(net, net1, l);
    SizeShift(net, net1, l, 1, m);
    SizeTokens(net1, Put(net, l, item), m);
    NotifyCounts(net1, l, m);
    UnderTokens(net, net1, m, l);
    assert net.owner[m] != l;
  }

  lemma SpareNew(net: Net, x: Id, n: Node, m: Id)
    requires Forest(net) && x !in net.nodes && Forest(New(net, x, n)) && m in net.owner
    ensures Spare(New(net, x, n), m) == Spare(net, m)
  {
    NewSize(net, x, n, m);
  }

  lemma SpareAdd(net: Net, s: Id, r: Id, m: Id)
    requires Forest(net) && IsSelect(net, s) && r in net.nodes && r !in net.owner
    requires !Under(net, r, s) && Forest(Join(net, s, r)) && !Loops(net, r, s)
    requires Forest(Add(net, s, r).value) && m in Join(net, s, r).owner && m in Add(net, s, r).value.owner
    ensures Spare(Add(net, s, r).value, m) == if m == r then 0 else Spare(net, m)
  {
    var net1, net' := Join(net, s, r), Add(net, s, r).value;
    assert net' == NotifyTimes(net1, r, Size(net1, r));
    assert m != r ==> m in net.owner && m in net.nodes;
    hide Size, Rerank, NotifyTimes, Loops, Add, Under, Forest;
    SpareNotified(net1, r, m);
    JoinSize(net, s, r, r);
    if m == r {
      JoinNoTokens(net, s, r);
    } else {
      JoinSize(net, s, r, m);
      JoinAbove(net, s, r, m);
    }
  }

  lemma SpareNotified(net: Net, r: Id, m: Id)
    requires Forest(net) && r in net.nodes && m in net.owner
    requires Forest(NotifyTimes(net, r, Size(net, r))) && m in NotifyTimes(net, r, Size(net, r)).owner
    ensures Spare(NotifyTimes(net, r, Size(net, r)), m) == Spare(net, m) + if Under(net, m, r) then Size(net, r) else 0
  {
    NotifyTimesCounts(net, r, Size(net, r), m);
    SizeTokens(net, NotifyTimes(net, r, Size(net, r)), m);
    hide Size, NotifyTimes;
  }

  lemma JoinNoTokens(net: Net, s: Id, r: Id)
    requires Forest(net) && IsSelect(net, s) && r in net.nodes && r !in net.owner && Forest(Join(net, s, r))
    ensures Count(Join(net, s, r).nodes[s].tokens, r) == 0 && Under(Join(net, s, r), r, r)
  {
    assert r !in net.nodes[s].members;
    CountNone(net.nodes[s].tokens, r);
  }

  lemma JoinAbove(net: Net, s: Id, r: Id, m: Id)
    requires Forest(net) && IsSelect(net, s) && r in net.nodes && r !in net.owner
    requires !Under(net, r, s) && Forest(Join(net, s, r)) && m in net.owner
    ensures m in Join(net, s, r).owner && Join(net, s, r).owner[m] == net.owner[m]
    ensures Join(net, s, r).nodes[net.owner[m]].tokens == net.nodes[net.owner[m]].tokens
    ensures Under(Join(net, s, r), m, r) <==> Under(net, m, s)
  {
    UnderJoin(net, s, r, m, s);
  }

  lemma SpareDrain(net: Net, l: Id, m: Id)
    requires Forest(net) && l in net.nodes && net.nodes[l].Leaf? && net.nodes[l].items != []
    requires Forest(PopItem(net, l)) && m in net.owner
    ensures Spare(PopItem(net, l), m) == Spare(net, m) + if Under(net, m, l) then 1 else 0
  {
    ItemSize(net, PopItem(net, l), l);
    SizeShift(net, PopItem(net, l), l, -1, m);
    assert net.owner[m] != l;
  }

  // ---- Getting from a select without spare tokens -----------------------------------------------------

  ghost predicate ExactUnder(net: Net, s: Id)
    requires Forest(net)
  {
    forall m {:trigger Spare(net, m)} | m in net.owner && Under(net, s, net.owner[m]) :: Spare(net, m) == 0
  }

  lemma ExactMember(net: Net, s: Id, m: Id)
    requires Forest(net) && IsSelect(net, s) && ExactUnder(net, s) && m in net.owner && net.owner[m] == s
    ensures Count(net.nodes[s].tokens, m) == Size(net, m)
  {
    assert Under(net, s, s);
    assert Spare(net, m) == 0;
  }

  /** Without items, no tokens. */
  lemma NoItemsNoTokens(net: Net, s: Id)
    requires Forest(net) && IsSelect(net, s) && ExactUnder(net, s)
    ensures Size(net, s) == 0 <==> net.nodes[s].tokens == []
  {
    var tokens := net.nodes[s].tokens;
    if tokens != [] {
      var m := tokens[0];
      assert m in tokens && m in net.nodes[s].members;
      ExactMember(net, s, m);
      MemberSize(net, net.nodes[s].members, net.rank[s], m);
    } else {
      forall m | m in net.nodes[s].members ensures Size(net, m) == 0 { ExactMember(net, s, m); }
      SumZero(net, net.nodes[s].members, net.rank[s]);
    }
  }

  lemma {:induction false} MemberSize(net: Net, ms: seq<Id>, r: nat, m: Id)
    requires Forest(net) && (forall k | k in ms :: k in net.nodes && net.rank[k] < r) && m in ms
    ensures Size(net, m) <= Sum(net, ms, r)
    decreases |ms|
  {
    if ms[0] != m { MemberSize(net, ms[1..], r, m); }
  }

  /** What is beside a member is not above anything in it. */
  lemma NotAbove(net: Net, s: Id, m: Id, k: Id, l: Id)
    requires Forest(net) && m in net.owner && net.owner[m] == s && l in net.nodes && Under(net, m, l)
    requires k in net.owner && Under(net, s, net.owner[k]) && !Under(net, m, net.owner[k]) && k != m
    ensures !Under(net, k, l)
  {
    if Under(net, k, l) {
      Comparable(net, m, k, l);
      if Under(net, k, m) {
        UnderRank(net, k, s);
        UnderRank(net, s, net.owner[k]);
      }
    }
  }

  /** A get from a select without spare tokens follows the first token at every level, to an item,
      and leaves no spare tokens underneath; what is not underneath is not touched. */
  lemma {:induction false} GetExact(net: Net, s: Id)
    requires Forest(net) && IsSelect(net, s) && ExactUnder(net, s) && AllWorthy(net)
    requires net.nodes[s].members != [] && Size(net, s) > 0
    ensures var (net', r) := GetEvent(net, s);
            && r.Event? && Took(net, net', r) && r.source in net.nodes && Under(net, s, r.source)
            && ExactUnder(net', s) && Elsewhere(net, net', s)
    decreases net.rank[s]
  {
    hide ExactUnder, Took, Elsewhere, AllWorthy;
    NoItemsNoTokens(net, s);
    PopThinner(net, s);
    PopPopped(net, s);
    var m, net1 := net.nodes[s].tokens[0], PopToken(net, s);
    ThinnerWorthy(net, net1);
    ExactMember(net, s, m);
    if net.nodes[m].Leaf? {
      ExactLeaf(net, s, net1, m);
    } else {
      ExactInner(net, s, net1, m);
      WorthyMember(net, s, m);
      SizeTokens(net, net1, m);
      GetExact(net1, m);
      ThinnerTrans(net, net1, GetEvent(net1, m).0);
      ExactAfter(net, s, net1, m, GetEvent(net1, m).0, GetEvent(net1, m).1);
    }
  }

  /** One level of a get whose first token is good. */
  lemma GetOpen(net: Net, s: Id)
    requires Forest(net) && IsSelect(net, s) && net.nodes[s].members != [] && net.nodes[s].tokens != []
    ensures var m := net.nodes[s].tokens[0];
            && m in net.nodes && IsSelect(net, s) && Forest(PopToken(net, s)) && net.rank[m] < net.rank[s]
            && (net.nodes[m].Leaf? && net.nodes[m].items != [] ==>
                  GetEvent(net, s) == (PopItem(PopToken(net, s), m), Event(m, net.nodes[m].items[0])))
            && (net.nodes[m].Select? && GetEvent(PopToken(net, s), m).1.Event? ==>
                  GetEvent(net, s) == GetEvent(PopToken(net, s), m))
  {
    PopThinner(net, s);
    hide Listed, Thinner, TokensOnly;
  }

  lemma TokensElsewhere(net: Net, s: Id, m: Id, net1: Net, net': Net)
    requires Forest(net1) && net'.nodes.Keys == net1.nodes.Keys && Elsewhere(net1, net', m)
    requires s in net1.nodes && net1.nodes[s].Select? && m in net1.nodes && net1.rank[m] < net1.rank[s]
    ensures net'.nodes[s] == net1.nodes[s]
  {
    if Under(net1, m, s) { UnderRank(net1, m, s); }
    hide Forest, Under;
  }

  /** First come, first served: it takes the first token, and an item of the member that gave it. */
  lemma GetFirst(net: Net, s: Id)
    requires Forest(net) && IsSelect(net, s) && ExactUnder(net, s) && AllWorthy(net)
    requires net.nodes[s].members != [] && Size(net, s) > 0
    ensures var (net', r) := GetEvent(net, s);
            && net.nodes[s].tokens != [] && net.nodes[s].tokens[0] in net.nodes && r.Event? && r.source in net.nodes
            && Under(net, net.nodes[s].tokens[0], r.source) && net'.nodes[s].tokens == net.nodes[s].tokens[1..]
  {
    hide ExactUnder, AllWorthy, Forest, GetEvent, Size, Elsewhere;
    NoItemsNoTokens(net, s);
    PopThinner(net, s);
    PopPopped(net, s);
    GetOpen(net, s);
    var m, net1 := net.nodes[s].tokens[0], PopToken(net, s);
    ThinnerWorthy(net, net1);
    ExactMember(net, s, m);
    if net.nodes[m].Leaf? {
      ExactLeaf(net, s, net1, m);
    } else {
      ExactInner(net, s, net1, m);
      WorthyMember(net, s, m);
      SizeTokens(net, net1, m);
      GetExact(net1, m);
      UnderTokens(net, net1, m, GetEvent(net1, m).1.source);
      TokensElsewhere(net, s, m, net1, GetEvent(net1, m).0);
    }
  }

  lemma ExactLeaf(net: Net, s: Id, net1: Net, m: Id)
    requires Forest(net) && Popped(net, s, net1) && ExactUnder(net, s)
    requires m == net.nodes[s].tokens[0] && m in net.owner && net.owner[m] == s
    requires net.nodes[m].Leaf? && Size(net, m) > 0
    ensures net1.nodes[m].Leaf? && net1.nodes[m].items == net.nodes[m].items != []
    ensures var net2, r := PopItem(net1, m), Event(m, net.nodes[m].items[0]);
            Took(net, net2, r) && Under(net, s, m) && Forest(net2) && ExactUnder(net2, s) && Elsewhere(net, net2, s)
  {
    assert net1.nodes[m] == net.nodes[m];
    ItemThinner(net1, m);
    TookItem(net1, m);
    assert Under(net, s, m) && Under(net, s, s) && Under(net1, m, m);
    var net2, r := PopItem(net1, m), Event(m, net.nodes[m].items[0]);
    forall k | k in net2.owner && Under(net2, s, net2.owner[k])
      ensures Spare(net2, k) == 0
    {
      UnderTokens(net, net2, s, net.owner[k]);
      assert Spare(net, k) == 0;
      assert net2.nodes[net.owner[k]] == net1.nodes[net.owner[k]];
      if k != m { ExactBeside(net, s, m, k, m); }
      SpareOne(net, s, net1, net2, r, k);
    }
    hide ExactUnder;
    assert Elsewhere(net, net2, s) by { ItemElsewhere(net, s, net1, m); }
  }

  lemma ItemElsewhere(net: Net, s: Id, net1: Net, m: Id)
    requires Forest(net) && Popped(net, s, net1)
    requires m in net1.nodes && net1.nodes[m].Leaf? && net1.nodes[m].items != []
    ensures PopItem(net1, m).nodes.Keys == net.nodes.Keys && Elsewhere(net, PopItem(net1, m), s)
  {
  }

  lemma ExactBeside(net: Net, s: Id, m: Id, k: Id, l: Id)
    requires Forest(net) && m in net.owner && net.owner[m] == s && l in net.nodes && Under(net, m, l)
    requires k in net.owner && Under(net, s, net.owner[k]) && k != m
    requires net.nodes[m].Leaf? || !Under(net, m, net.owner[k])
    ensures !Under(net, k, l)
  {
    if net.nodes[m].Leaf? && Under(net, m, net.owner[k]) {
      if net.owner[k] != m { var d := Toward(net, m, net.owner[k]); }
    }
    NotAbove(net, s, m, k, l);
  }

  /** A member whose select's tokens were not touched further. */
  lemma SpareOne(net: Net, s: Id, net1: Net, net2: Net, r: Result, k: Id)
    requires Forest(net) && Popped(net, s, net1) && Forest(net2) && Thinner(net1, net2) && Took(net1, net2, r)
    requires k in net.owner && Spare(net, k) == 0 && r.Event? && r.source in net.nodes
    requires net2.nodes[net.owner[k]].tokens == net1.nodes[net.owner[k]].tokens
    requires var m := net.nodes[s].tokens[0]; Under(net, k, r.source) <==> k == m && net.owner[k] == s
    requires net.nodes[s].tokens[0] in net.owner && net.owner[net.nodes[s].tokens[0]] == s
    ensures Spare(net2, k) == 0
  {
    SizeTokens(net, net1, k);
    UnderTokens(net, net1, k, r.source);
    TookSize(net1, net2, r, k);
  }

  lemma ExactInner(net: Net, s: Id, net1: Net, m: Id)
    requires Forest(net) && Popped(net, s, net1) && ExactUnder(net, s) && m in net.owner && net.owner[m] == s
    ensures ExactUnder(net1, m)
  {
    forall k | k in net1.owner && Under(net1, m, net1.owner[k])
      ensures Spare(net1, k) == 0
    {
      var p := net.owner[k];
      UnderTokens(net, net1, m, p);
      UnderRank(net, m, p);
      assert Under(net, s, m);
      UnderTrans(net, s, m, p);
      assert Spare(net, k) == 0;
      SizeTokens(net, net1, k);
    }
  }

  lemma ExactAfter(net: Net, s: Id, net1: Net, m: Id, net2: Net, r: Result)
    requires Forest(net) && Popped(net, s, net1) && ExactUnder(net, s)
    requires m == net.nodes[s].tokens[0] && m in net.owner && net.owner[m] == s && Forest(net1)
    requires Forest(net2) && Thinner(net1, net2) && r.Event? && Took(net1, net2, r)
    requires r.source in net1.nodes && Under(net1, m, r.source)
    requires ExactUnder(net2, m) && Elsewhere(net1, net2, m)
    ensures Took(net, net2, r) && Under(net, s, r.source) && ExactUnder(net2, s) && Elsewhere(net, net2, s)
  {
    UnderTokens(net, net1, m, r.source);
    assert Under(net, s, m);
    UnderTrans(net, s, m, r.source);
    ElsewhereAbove(net, s, net1, m, net2);
    forall k | k in net2.owner && Under(net2, s, net2.owner[k])
      ensures Spare(net2, k) == 0
    {
      ExactAfterOne(net, s, net1, m, net2, r, k);
    }
    hide ExactUnder, Elsewhere;
  }

  lemma ExactAfterOne(net: Net, s: Id, net1: Net, m: Id, net2: Net, r: Result, k: Id)
    requires Forest(net) && Popped(net, s, net1) && ExactUnder(net, s)
    requires m == net.nodes[s].tokens[0] && m in net.owner && net.owner[m] == s
    requires Forest(net2) && Thinner(net1, net2) && r.Event? && Took(net1, net2, r)
    requires r.source in net.nodes && Under(net, m, r.source)
    requires ExactUnder(net2, m) && Elsewhere(net1, net2, m)
    requires k in net2.owner && Under(net2, s, net2.owner[k])
    ensures Spare(net2, k) == 0
  {
    var p := net.owner[k];
    UnderTokens(net, net2, s, p);
    UnderTokens(net1, net2, m, p);
    UnderTokens(net, net1, m, p);
    assert Spare(net, k) == 0;
    if Under(net, m, p) {
      assert Spare(net2, k) == 0;
    } else {
      assert net2.nodes[p] == net1.nodes[p];
      if k != m { ExactBeside(net, s, m, k, r.source); }
      SpareOne(net, s, net1, net2, r, k);
    }
  }

  // ---- Whole nets -----------------------------------------------------------------------------------

  lemma WholeUnder(net: Net, s: Id)
    requires Exact(net)
    ensures ExactUnder(net, s) && Forest(net) && AllWorthy(net)
  {
  }

  lemma NothingThere(net: Net, s: Id)
    requires Exact(net) && IsSelect(net, s) && net.nodes[s].members != [] && Size(net, s) == 0
    ensures GetEvent(net, s).0 == net
  {
    WholeUnder(net, s);
    NoItemsNoTokens(net, s);
  }

  /** Getting an item leaves spare tokens exactly in the select's owner. */
  lemma GetExactIff(net: Net, s: Id)
    requires Exact(net) && IsSelect(net, s) && net.nodes[s].members != []
    ensures Exact(GetEvent(net, s).0) <==> s !in net.owner || Size(net, s) == 0
  {
    if Size(net, s) == 0 {
      NothingThere(net, s);
    } else {
      WholeUnder(net, s);
      GetExact(net, s);
      GetCovered(net, s);
      var (net', r) := GetEvent(net, s);
      hide GetEvent, Covered, Exact, Took;
      if s in net.owner {
        GetSpare(net, s, net', r, s);
        assert !Exact(net') by { NotExact(net', s); }
      } else {
        forall k | k in net'.owner ensures Spare(net', k) == 0 { GetSpare(net, s, net', r, k); }
        IsExact(net');
      }
    }
  }

  lemma NotExact(net: Net, k: Id)
    requires Forest(net) && k in net.owner && Spare(net, k) != 0
    ensures !Exact(net)
  {
  }

  lemma IsExact(net: Net)
    requires Covered(net) && forall m {:trigger Spare(net, m)} | m in net.owner :: Spare(net, m) == 0
    ensures Exact(net)
  {
  }

  lemma GetSpare(net: Net, s: Id, net': Net, r: Result, k: Id)
    requires Exact(net) && IsSelect(net, s) && Forest(net') && Thinner(net, net') && Took(net, net', r)
    requires r.Event? && r.source in net.nodes && Under(net, s, r.source)
    requires ExactUnder(net', s) && Elsewhere(net, net', s) && k in net.owner
    ensures Spare(net', k) == if s in net.owner && Under(net, k, s) then 1 else 0
  {
    var p := net.owner[k];
    UnderTokens(net, net', s, p);
    assert Spare(net, k) == 0;
    if Under(net, s, p) {
      assert Spare(net', k) == 0;
      NotRound(net, s, k);
    } else {
      AboveBoth(net, s, k, r.source);
      GetSpareAbove(net, s, net', r, k);
    }
    hide Exact, Forest;
  }

  lemma NotRound(net: Net, s: Id, k: Id)
    requires Forest(net) && s in net.nodes && k in net.owner && Under(net, s, net.owner[k])
    ensures !Under(net, k, s)
  {
    UnderRank(net, s, net.owner[k]);
    if Under(net, k, s) { UnderRank(net, k, s); }
  }

  lemma GetSpareAbove(net: Net, s: Id, net': Net, r: Result, k: Id)
    requires Forest(net) && Forest(net') && Thinner(net, net') && Took(net, net', r) && r.Event? && r.source in net.nodes
    requires k in net.owner && !Under(net, s, net.owner[k]) && Elsewhere(net, net', s)
    ensures Spare(net', k) == Spare(net, k) + if Under(net, k, r.source) then 1 else 0
  {
    assert net'.nodes[net.owner[k]] == net.nodes[net.owner[k]];
    TookSize(net, net', r, k);
    hide Size, Took;
  }

  lemma AboveBoth(net: Net, s: Id, k: Id, l: Id)
    requires Forest(net) && s in net.nodes && k in net.owner && l in net.nodes && Under(net, s, l)
    requires !Under(net, s, net.owner[k])
    ensures Under(net, k, l) <==> s in net.owner && Under(net, k, s)
  {
    if Under(net, k, l) {
      Comparable(net, s, k, l);
    }
    if Under(net, k, s) { UnderTrans(net, k, s, l); }
  }

  /** Steps that leave no spare tokens. */
  ghost predicate Thrifty(net: Net, step: Step)
    requires Enabled(net, step)
  {
    match step
    case Drain(l) => l !in net.owner
    case Get(s) => s !in net.owner || Size(net, s) == 0
    case _ => true
  }

  lemma StepExactIff(net: Net, step: Step)
    requires Exact(net) && Enabled(net, step)
    ensures Exact(Next(net, step)) <==> Thrifty(net, step)
  {
    StepKeeps(net, step);
    var net' := Next(net, step);
    match step
    case NewLeaf(x) => NewExact(net, x, Leaf([]));
    case NewSelect(x) => NewExact(net, x, Select([], []));
    case AddTo(s, r) => AddExact(net, s, r);
    case PutIn(l, item) => PutExact(net, l, item);
    case Drain(l) => DrainExactIff(net, l);
    case Get(s) => GetExactIff(net, s);
  }

  lemma NewExact(net: Net, x: Id, n: Node)
    requires Exact(net) && x !in net.nodes && (n == Leaf([]) || n == Select([], []))
    ensures Exact(New(net, x, n))
  {
    NewCovered(net, x, n);
    hide Covered, Forest, Size;
    CoveredForest(net);
    CoveredForest(New(net, x, n));
    forall m | m in net.owner ensures Spare(New(net, x, n), m) == 0 {
      assert Spare(net, m) == 0;
      SpareNew(net, x, n, m);
    }
  }

  lemma AddExact(net: Net, s: Id, r: Id)
    requires Exact(net) && Enabled(net, AddTo(s, r))
    ensures Exact(Add(net, s, r).value)
  {
    CoveredForest(net);
    LoopsIffUnder(net, r, s);
    AddCovered(net, s, r);
    AddForest(net, s, r);
    var net' := Add(net, s, r).value;
    hide Covered, Forest, Under, Loops, Size, Join, Add;
    CoveredForest(net');
    forall m | m in net'.owner ensures Spare(net', m) == 0 {
      JoinOwner(net, s, r, m);
      SpareAdd(net, s, r, m);
    }
    IsExact(net');
  }

  lemma JoinOwner(net: Net, s: Id, r: Id, m: Id)
    requires Exact(net) && IsSelect(net, s) && r in net.nodes && m in Join(net, s, r).owner
    ensures m != r ==> m in net.owner && Spare(net, m) == 0
  {
  }

  lemma PutExact(net: Net, l: Id, item: Item)
    requires Exact(net) && l in net.nodes && net.nodes[l].Leaf?
    ensures Exact(Put(net, l, item))
  {
    PutCovered(net, l, item);
    hide Covered, Forest, Size, Notify;
    CoveredForest(net);
    CoveredForest(Put(net, l, item));
    forall m | m in Put(net, l, item).owner ensures Spare(Put(net, l, item), m) == 0 {
      assert Spare(net, m) == 0;
      SparePut(net, l, item, m);
    }
  }

  lemma DrainExactIff(net: Net, l: Id)
    requires Exact(net) && l in net.nodes && net.nodes[l].Leaf? && net.nodes[l].items != []
    ensures Exact(PopItem(net, l)) <==> l !in net.owner
  {
    DrainCovered(net, l);
    CoveredForest(net);
    var net' := PopItem(net, l);
    CoveredForest(net');
    hide Covered, Forest, Size;
    if l in net.owner {
      assert Spare(net, l) == 0;
      SpareDrain(net, l, l);
      assert Spare(net', l) != 0;
    } else {
      forall m | m in net'.owner ensures Spare(net', m) == 0 {
        assert Spare(net, m) == 0;
        SpareDrain(net, l, m);
        NobodyAbove(net, m, l);
      }
    }
  }

  lemma NobodyAbove(net: Net, m: Id, l: Id)
    requires Forest(net) && l in net.nodes && l !in net.owner && m in net.owner
    ensures !Under(net, m, l)
  {
  }

  // ---- Runs -----------------------------------------------------------------------------------------

  lemma EmptyExact()
    ensures Exact(Empty)
  {
  }

  lemma {:induction false} ThriftyExact(steps: seq<Step>, nets: seq<Net>, n: nat)
    requires IsRun(steps, nets) && n <= |steps|
    requires forall i {:trigger steps[i]} | 0 <= i < |steps| :: Thrifty(nets[i], steps[i])
    ensures Exact(nets[n])
  {
    hide Exact, Next, Enabled, Thrifty;
    if n == 0 {
      EmptyExact();
    } else {
      ThriftyExact(steps, nets, n - 1);
      RunStep(steps, nets, n - 1);
      assert Thrifty(nets[n-1], steps[n-1]);
      StepExactIff(nets[n-1], steps[n-1]);
    }
  }

  /** In every run, each member's tokens are as many as its items throughout if and only if nobody
      takes an item from a queue that belongs to a select, or from a select that belongs to another. */
  lemma RunExactIff(steps: seq<Step>, nets: seq<Net>)
    requires IsRun(steps, nets)
    ensures (forall i {:trigger nets[i]} | 0 <= i < |nets| :: Exact(nets[i])) <==>
            (forall i {:trigger steps[i]} | 0 <= i < |steps| :: Thrifty(nets[i], steps[i]))
  {
    hide Exact, Next, Enabled, Thrifty;
    if forall i {:trigger steps[i]} | 0 <= i < |steps| :: Thrifty(nets[i], steps[i]) {
      forall i | 0 <= i < |nets| ensures Exact(nets[i]) { ThriftyExact(steps, nets, i); }
    } else {
      var i :| 0 <= i < |steps| && !Thrifty(nets[i], steps[i]);
      if Exact(nets[i]) {
        RunStep(steps, nets, i);
        StepExactIff(nets[i], steps[i]);
        assert !Exact(nets[i + 1]);
      }
    }
  }

  /** In every run: empty() is right to say that nothing is buffered... */
  lemma EmptyIsEmpty(steps: seq<Step>, nets: seq<Net>, n: nat, s: Id)
    requires IsRun(steps, nets) && n <= |steps| && Forest(nets[n]) && IsSelect(nets[n], s)
    ensures EmptyLatch(nets[n], s) ==> Size(nets[n], s) == 0
  {
    RunKeeps(steps, nets, n);
    if EmptyLatch(nets[n], s) { NoTokensNoItems(nets[n], s); }
  }

  /** ...and, while nobody takes items behind a select's back, right to say that something is. */
  lemma EmptyIffEmpty(steps: seq<Step>, nets: seq<Net>, n: nat, s: Id)
    requires IsRun(steps, nets) && n <= |steps| && Forest(nets[n]) && IsSelect(nets[n], s)
    requires forall i {:trigger steps[i]} | 0 <= i < |steps| :: Thrifty(nets[i], steps[i])
    ensures EmptyLatch(nets[n], s) <==> Size(nets[n], s) == 0
  {
    ThriftyExact(steps, nets, n);
    WholeUnder(nets[n], s);
    NoItemsNoTokens(nets[n], s);
  }

  // ---- A latch that is not empty for nothing ----------------------------------------------------------

  const Behind: seq<Step> := [NewLeaf(0), NewSelect(1), AddTo(1, 0), PutIn(0, 7), Drain(0)]

  ghost predicate Pair(net: Net, items: seq<Item>) {
    && Exact(net) && net.nodes.Keys == {0, 1} && net.owner == map[0 := 1]
    && net.nodes[0] == Leaf(items) && net.nodes[1].Select? && net.nodes[1].members == [0]
  }

  lemma BehindStart()
    ensures Enabled(Empty, Behind[0]) && Enabled(Next(Empty, Behind[0]), Behind[1])
    ensures var net := Next(Next(Empty, Behind[0]), Behind[1]);
            && Enabled(net, Behind[2]) && Exact(net)
            && net.nodes == map[0 := Leaf([]), 1 := Select([], [])] && net.owner == map[]
  {
    EmptyExact();
    var net1 := New(Empty, 0, Leaf([]));
    NewExact(Empty, 0, Leaf([]));
    CoveredForest(net1);
    var net := New(net1, 1, Select([], []));
    NewExact(net1, 1, Select([], []));
    CoveredForest(net);
    LoopsIffUnder(net, 0, 1);
  }

  lemma BehindJoined(net: Net)
    requires Exact(net) && Enabled(net, AddTo(1, 0))
    requires net.nodes == map[0 := Leaf([]), 1 := Select([], [])] && net.owner == map[]
    ensures Pair(Next(net, Behind[2]), [])
  {
    AddExact(net, 1, 0);
    LoopsIffUnder(net, 0, 1);
    AddForest(net, 1, 0);
  }

  lemma BehindPut(net: Net)
    requires Pair(net, [])
    ensures Enabled(net, Behind[3]) && Pair(Next(net, Behind[3]), [7])
  {
    CoveredForest(net);
    PutExact(net, 0, 7);
    ItemsForest(net, 0, [7]);
  }

  lemma BehindDrained(net: Net)
    requires Pair(net, [7])
    ensures Enabled(net, Behind[4])
    ensures var net' := Next(net, Behind[4]);
            Forest(net') && IsSelect(net', 1) && !EmptyLatch(net', 1) && Size(net', 1) == 0
  {
    CoveredForest(net);
    var net' := PopItem(net, 0);
    ItemThinner(net, 0);
    assert Spare(net, 0) == 0 && Size(net, 0) == 1;
    assert net'.nodes[1] == net.nodes[1];
    assert Size(net', 0) == 0;
    assert Sum(net', [0], net'.rank[1]) == 0 by { SumZero(net', [0], net'.rank[1]); }
  }

  /** An item is taken straight from the queue: the select's latch keeps its token, so empty() says
      that there is something where nothing is. */
  lemma EmptyIsWrong()
    ensures exists nets :: IsRun(Behind, nets) && Forest(nets[5]) && IsSelect(nets[5], 1)
                           && !EmptyLatch(nets[5], 1) && Size(nets[5], 1) == 0
  {
    hide Enabled, Next, Exact, Forest, Pair, EmptyLatch, Size, IsSelect;
    BehindStart();
    var net1 := Next(Empty, Behind[0]);
    var net2 := Next(net1, Behind[1]);
    BehindJoined(net2);
    var net3 := Next(net2, Behind[2]);
    BehindPut(net3);
    var net4 := Next(net3, Behind[3]);
    BehindDrained(net4);
    var nets := [Empty, net1, net2, net3, net4, Next(net4, Behind[4])];
    assert IsRun(Behind, nets);
  }
}
