/** `Latch`: a queue for many producers and many consumers, where the first `_waking` sleepers are
    paired, by position alone, with the first `_waking` items. */
module Latch {
  /** Items are numbered in the order they are put; what they carry does not matter here. */
  type Item = nat

  /** One wait: a socket and a cookie, used by one thread for the duration of the wait. */
  type Sleeper = nat

  /** How a get ends.  `Failed` is one of the two assertions of the source, or a queue index out of
      range; none of them can happen (`ResumeGets`). */
  datatype Outcome<T> = Got(item: T) | TimedOut | LatchClosed | Failed

  /** `queue`, `sleeping`, `waking` and `closed` are the latch's fields.  A put chooses a sleeper
      under the lock and writes its cookie after releasing the lock: between the two the sleeper
      is in `toWrite`, afterwards in `written`.  The rest is history: the number of puts and of
      waits so far, the item whose put chose each sleeper, the items in the order in which they
      were assigned to a consumer, and the items handed out. */
  datatype State = State(
    closed: bool, queue: seq<Item>, sleeping: seq<Sleeper>, waking: nat,
    toWrite: set<Sleeper>, written: set<Sleeper>,
    puts: nat, waits: nat, due: map<Sleeper, Item>, given: seq<Item>,
    taken: seq<Item>)

  datatype Step =
    | Put                      // put(), up to the release of the lock
    | Wake(s: Sleeper)         // put(), the write of the cookie
    | TakeNow                  // get() that finds an item
    | Sleep                    // get() that goes to sleep
    | Resume(s: Sleeper)       // _get_sleep() after its socket became readable
    | TimeOut(s: Sleeper)      // _get_sleep() after its timeout, with no cookie to read
    | Close

  function Index(ss: seq<Sleeper>, s: Sleeper): (i: nat)
    requires s in ss
    ensures i < |ss| && ss[i] == s && s !in ss[..i]
  {
    if ss[0] == s then 0 else 1 + Index(ss[1..], s)
  }

  function Without<T>(q: seq<T>, i: nat): (r: seq<T>)
    requires i < |q|
    ensures |r| == |q| - 1
    ensures forall k | 0 <= k < |r| :: r[k] == if k < i then q[k] else q[k+1]
  {
    q[..i] + q[i+1..]
  }

  predicate Enabled(st: State, step: Step) {
    match step
    case Put => !st.closed
    case Wake(s) => s in st.toWrite
    case TakeNow => !st.closed && |st.queue| > |st.sleeping|
    case Sleep => !st.closed && |st.queue| <= |st.sleeping|
    case Resume(s) => s in st.sleeping && s in st.written
    case TimeOut(s) => s in st.sleeping && s !in st.written
    case Close => true
  }

  function PutStep(st: State): State {
    var st1 := st.(queue := st.queue + [st.puts], puts := st.puts + 1);
    if st.waking < |st.sleeping| then
      var s := st.sleeping[st.waking];
      st1.(waking := st.waking + 1, toWrite := st.toWrite + {s}, due := st.due[s := st.puts],
               given := st.given + [st.puts])
    else st1
  }

  function TakeNowStep(st: State): State
    requires |st.queue| > |st.sleeping|
  {
    var i := |st.sleeping|;
    st.(queue := Without(st.queue, i), taken := st.taken + [st.queue[i]],
        given := st.given + [st.queue[i]])
  }

  /** With a cookie to read: the latch gives up the pairing at the sleeper's own position. */
  function ResumeStep(st: State, s: Sleeper): State
    requires s in st.sleeping
  {
    var i := Index(st.sleeping, s);
    var st1 := st.(sleeping := Without(st.sleeping, i), written := st.written - {s},
                   waking := if i < st.waking then st.waking - 1 else st.waking);
    if i >= st.waking || st.closed || i >= |st.queue| then st1
    else st1.(queue := Without(st.queue, i), taken := st.taken + [st.queue[i]])
  }

  function Outcomes(st: State, s: Sleeper): Outcome<Item>
    requires s in st.sleeping
  {
    var i := Index(st.sleeping, s);
    if s !in st.written then TimedOut
    else if i >= st.waking then Failed
    else if st.closed then LatchClosed
    else if i >= |st.queue| then Failed
    else Got(st.queue[i])
  }

  function Next(st: State, step: Step): State
    requires Enabled(st, step)
  {
    match step
    case Put => PutStep(st)
    case Wake(s) => st.(toWrite := st.toWrite - {s}, written := st.written + {s})
    case TakeNow => TakeNowStep(st)
    case Sleep => st.(sleeping := st.sleeping + [st.waits], waits := st.waits + 1)
    case Resume(s) => ResumeStep(st, s)
    case TimeOut(s) => st.(sleeping := Without(st.sleeping, Index(st.sleeping, s)))
    case Close =>
      var w := if st.waking < |st.sleeping| then st.waking else |st.sleeping|;
      st.(closed := true,
          written := st.written + (set i | w <= i < |st.sleeping| :: st.sleeping[i]),
          waking := if st.waking < |st.sleeping| then |st.sleeping| else st.waking)
  }

  const Initial := State(false, [], [], 0, {}, {}, 0, 0, map[], [], [])

  // ---- The pairing --------------------------------------------------------------------------

  predicate Chosen(st: State, s: Sleeper) {
    s in st.toWrite || s in st.written
  }

  /** The latch's own invariant, while it is open: the sleepers chosen so far are the first
      `waking` ones, each paired with the item whose put chose it, and an item that is paired with
      nobody means that nobody sleeps unchosen. */
  ghost predicate Paired(st: State) {
    && st.waking <= |st.sleeping| && st.waking <= |st.queue|
    && (st.waking < |st.sleeping| ==> |st.queue| == st.waking)
    && (forall i {:trigger st.sleeping[i]} | 0 <= i < |st.sleeping| ::
          Chosen(st, st.sleeping[i]) <==> i < st.waking)
    && (forall i {:trigger st.queue[i]} {:trigger st.sleeping[i]} | 0 <= i < st.waking ::
          st.sleeping[i] in st.due && st.queue[i] == st.due[st.sleeping[i]])
  }

  /** Items are assigned to consumers in exactly the order they were put, none skipped; those not
      yet assigned are the most recent ones, in the same order. */
  ghost predicate InOrder(st: State) {
    && st.waking <= |st.queue|
    && |st.given| + |st.queue| == st.puts + st.waking
    && (forall i {:trigger st.given[i]} | 0 <= i < |st.given| :: st.given[i] == i)
    && (forall i {:trigger st.queue[i]} | st.waking <= i < |st.queue| ::
          st.queue[i] == st.puts - |st.queue| + i)
  }

  function UpTo(n: nat): multiset<Item> {
    if n == 0 then multiset{} else UpTo(n - 1) + multiset{n - 1}
  }

  /** Every item put is in the queue or has been handed out, once. */
  ghost predicate Conserved(st: State) {
    multiset(st.queue) + multiset(st.taken) == UpTo(st.puts)
  }

  /** Every wait is one of its own; cookies are only written, or about to be, for waits that are
      still going on. */
  ghost predicate Distinct(st: State) {
    && (forall i, j | 0 <= i < j < |st.sleeping| :: st.sleeping[i] != st.sleeping[j])
    && (forall s | s in st.sleeping :: s < st.waits)
    && (forall s | Chosen(st, s) :: s in st.sleeping)
    && st.toWrite !! st.written
  }

  ghost predicate Inv(st: State) {
    && Distinct(st) && Conserved(st)
    && (!st.closed ==> Paired(st) && InOrder(st))
    && (st.closed ==>
          st.waking == |st.sleeping| && forall s | s in st.sleeping :: Chosen(st, s))
  }

  /** The one step that must not happen: a sleeper that a put has already chosen gives up before
      the put has written its cookie. */
  predicate TooEarly(st: State, step: Step) {
    step.TimeOut? && step.s in st.sleeping && Index(st.sleeping, step.s) < st.waking
  }

  lemma WithoutMultiset<T>(q: seq<T>, i: nat)
    requires i < |q|
    ensures multiset(Without(q, i)) + multiset{q[i]} == multiset(q)
  {
    assert q == q[..i] + [q[i]] + q[i+1..];
  }

  lemma ConservedTake(st: State, st': State, i: nat)
    requires Conserved(st) && i < |st.queue| && st'.puts == st.puts
    requires st'.queue == Without(st.queue, i) && st'.taken == st.taken + [st.queue[i]]
    ensures Conserved(st')
  {
    WithoutMultiset(st.queue, i);
  }

  lemma PutConserves(st: State)
    requires Conserved(st)
    ensures Conserved(PutStep(st))
  {
    var q, t, one := multiset(st.queue), multiset(st.taken), multiset{st.puts};
    var st' := PutStep(st);
    assert st'.queue == st.queue + [st.puts] && st'.taken == st.taken;
    assert multiset(st'.queue) == q + one;
    assert (q + one) + t == (q + t) + one;
    assert UpTo(st'.puts) == UpTo(st.puts) + one;
  }

  lemma PutKeeps(st: State)
    requires Inv(st) && !st.closed
    ensures Inv(PutStep(st))
  {
    PutConserves(st);
    PutPaired(st);
    PutInOrder(st);
    hide Conserved, Paired, InOrder;
  }

  lemma PutPaired(st: State)
    requires Distinct(st) && Paired(st)
    ensures Paired(PutStep(st))
  {
    var st' := PutStep(st);
    if st.waking < |st.sleeping| {
      var s := st.sleeping[st.waking];
      assert forall t :: Chosen(st', t) <==> t == s || Chosen(st, t);
    }
  }

  lemma PutInOrder(st: State)
    requires Paired(st) && InOrder(st)
    ensures InOrder(PutStep(st))
  {
  }

  lemma TakeNowKeeps(st: State)
    requires Inv(st) && Enabled(st, TakeNow)
    ensures Inv(Next(st, TakeNow))
    ensures Next(st, TakeNow).taken == st.taken + [st.puts - (|st.queue| - st.waking)]
  {
    ConservedTake(st, Next(st, TakeNow), |st.sleeping|);
  }

  /** A sleeper that finds its cookie is among the paired ones, and gets its own item. */
  lemma ResumeGets(st: State, s: Sleeper)
    requires Inv(st) && Enabled(st, Resume(s))
    ensures Index(st.sleeping, s) < st.waking
    ensures Outcomes(st, s) == if st.closed then LatchClosed else Got(st.due[s])
    ensures !st.closed ==> s in st.due
  {
  }

  /** Deleting an element of a list without repetitions. */
  lemma WithoutOne(ss: seq<Sleeper>, i: nat)
    requires i < |ss| && forall k, l | 0 <= k < l < |ss| :: ss[k] != ss[l]
    ensures var r := Without(ss, i);
            && (forall k, l | 0 <= k < l < |r| :: r[k] != r[l])
            && forall t :: t in r <==> t in ss && t != ss[i]
  {
    var r := Without(ss, i);
    forall t | t in ss && t != ss[i]
      ensures t in r
    {
      var k :| 0 <= k < |ss| && ss[k] == t;
      assert r[if k < i then k else k - 1] == t;
    }
  }

  lemma ResumePaired(st: State, s: Sleeper)
    requires Inv(st) && Enabled(st, Resume(s)) && !st.closed
    ensures Paired(Next(st, Resume(s)))
  {
    ResumeGets(st, s);
    hide Conserved, UpTo, InOrder;
    var st' := Next(st, Resume(s));
    var i := Index(st.sleeping, s);
    forall k | 0 <= k < |st'.sleeping|
      ensures Chosen(st', st'.sleeping[k]) <==> k < st'.waking
    {
      var l := if k < i then k else k + 1;
      assert st'.sleeping[k] == st.sleeping[l] != s;
    }
  }

  lemma ResumeInOrder(st: State, s: Sleeper)
    requires InOrder(st) && Enabled(st, Resume(s)) && !st.closed
    requires Index(st.sleeping, s) < st.waking
    ensures InOrder(Next(st, Resume(s)))
  {
    var st' := Next(st, Resume(s));
    forall k | st'.waking <= k < |st'.queue|
      ensures st'.queue[k] == st'.puts - |st'.queue| + k
    {
      assert st'.queue[k] == st.queue[k + 1];
    }
  }

  lemma ResumeKeeps(st: State, s: Sleeper)
    requires Inv(st) && Enabled(st, Resume(s))
    ensures Inv(Next(st, Resume(s)))
  {
    var i := Index(st.sleeping, s);
    ResumeGets(st, s);
    WithoutOne(st.sleeping, i);
    if !st.closed {
      ConservedTake(st, Next(st, Resume(s)), i);
      ResumePaired(st, s);
      ResumeInOrder(st, s);
    }
    hide Paired, InOrder, Conserved;
  }

  lemma TimeOutPaired(st: State, s: Sleeper)
    requires Inv(st) && Enabled(st, TimeOut(s)) && !TooEarly(st, TimeOut(s)) && !st.closed
    ensures Paired(Next(st, TimeOut(s))) && InOrder(Next(st, TimeOut(s)))
  {
    hide Conserved;
    var st' := Next(st, TimeOut(s));
    var i := Index(st.sleeping, s);
    forall k | 0 <= k < |st'.sleeping|
      ensures Chosen(st', st'.sleeping[k]) <==> k < st'.waking
    {
      var l := if k < i then k else k + 1;
      assert st'.sleeping[k] == st.sleeping[l];
    }
  }

  lemma TimeOutKeeps(st: State, s: Sleeper)
    requires Inv(st) && Enabled(st, TimeOut(s)) && !TooEarly(st, TimeOut(s))
    ensures Inv(Next(st, TimeOut(s)))
  {
    var i := Index(st.sleeping, s);
    WithoutOne(st.sleeping, i);
    if !st.closed {
      TimeOutPaired(st, s);
      assert !Chosen(st, st.sleeping[i]);
    }
    hide Paired, InOrder, Conserved;
  }

  lemma SleepKeeps(st: State)
    requires Inv(st) && Enabled(st, Sleep)
    ensures Inv(Next(st, Sleep))
  {
    hide Conserved;
    var st' := Next(st, Sleep);
    assert st.waits !in st.sleeping;
    assert !Chosen(st, st.waits);
    forall i, j | 0 <= i < j < |st'.sleeping|
      ensures st'.sleeping[i] != st'.sleeping[j]
    {
      assert st.sleeping[i] in st.sleeping;
    }
    assert Conserved(st') by { SameItems(st, st'); }
  }

  lemma SameItems(st: State, st': State)
    requires Conserved(st) && st'.queue == st.queue && st'.taken == st.taken && st'.puts == st.puts
    ensures Conserved(st')
  {
  }

  lemma WakeKeeps(st: State, s: Sleeper)
    requires Inv(st) && Enabled(st, Wake(s))
    ensures Inv(Next(st, Wake(s)))
  {
    assert forall t :: Chosen(st, t) <==> Chosen(Next(st, Wake(s)), t);
  }

  lemma CloseKeeps(st: State)
    requires Inv(st)
    ensures Inv(Next(st, Close))
  {
  }

  lemma StepKeeps(st: State, step: Step)
    requires Inv(st) && Enabled(st, step) && !TooEarly(st, step)
    ensures Inv(Next(st, step))
  {
    hide Inv, Next;
    match step
    case Put => PutStepIs(st); PutKeeps(st);
    case Wake(s) => WakeKeeps(st, s);
    case Sleep => SleepKeeps(st);
    case TakeNow => TakeNowKeeps(st);
    case Resume(s) => ResumeKeeps(st, s);
    case TimeOut(s) => TimeOutKeeps(st, s);
    case Close => CloseKeeps(st);
  }

  lemma PutStepIs(st: State)
    requires !st.closed
    ensures Enabled(st, Put) && Next(st, Put) == PutStep(st)
  {
  }

  /** A timeout leaves the pairing intact if and only if it does not come too early. */
  lemma TimeOutIff(st: State, s: Sleeper)
    requires Inv(st) && !st.closed && Enabled(st, TimeOut(s))
    ensures Paired(Next(st, TimeOut(s))) <==> !TooEarly(st, TimeOut(s))
  {
    if !TooEarly(st, TimeOut(s)) {
      TimeOutKeeps(st, s);
    } else {
      var st' := Next(st, TimeOut(s));
      if st.waking < |st.sleeping| {
        assert st'.sleeping[st.waking - 1] == st.sleeping[st.waking];
      }
    }
  }

  // ---- Runs ---------------------------------------------------------------------------------

  ghost predicate IsRun(steps: seq<Step>, states: seq<State>) {
    && |states| == |steps| + 1 && states[0] == Initial
    && forall i {:trigger steps[i]} | 0 <= i < |steps| ::
         Enabled(states[i], steps[i]) && states[i+1] == Next(states[i], steps[i])
  }

  ghost predicate Patient(steps: seq<Step>, states: seq<State>)
    requires |states| == |steps| + 1
  {
    forall i {:trigger steps[i]} | 0 <= i < |steps| :: !TooEarly(states[i], steps[i])
  }

  lemma {:induction false} RunKeeps(steps: seq<Step>, states: seq<State>, n: nat)
    requires IsRun(steps, states) && n <= |steps|
    requires forall i {:trigger steps[i]} | 0 <= i < n :: !TooEarly(states[i], steps[i])
    ensures Inv(states[n])
  {
    if n > 0 {
      RunKeeps(steps, states, n - 1);
      hide Inv, Next, TooEarly;
      assert !TooEarly(states[n-1], steps[n-1]);
      StepKeeps(states[n-1], steps[n-1]);
    }
  }

  /** Over a whole run of an open latch: the pairing holds throughout if and only if no chosen
      sleeper ever gives up before its cookie is written. */
  lemma RunPaired(steps: seq<Step>, states: seq<State>)
    requires IsRun(steps, states)
    requires forall i {:trigger states[i]} | 0 <= i < |states| :: !states[i].closed
    ensures (forall i {:trigger states[i]} | 0 <= i < |states| :: Paired(states[i]))
            <==> Patient(steps, states)
  {
    if Patient(steps, states) {
      forall i | 0 <= i < |states| ensures Paired(states[i]) { RunKeeps(steps, states, i); }
    } else {
      var k :| 0 <= k < |steps| && TooEarly(states[k], steps[k]);
      hide Paired, Inv, Next;
      FirstTooEarly(steps, states, k);
    }
  }

  lemma {:induction false} FirstTooEarly(steps: seq<Step>, states: seq<State>, k: nat)
    requires IsRun(steps, states) && k < |steps| && TooEarly(states[k], steps[k])
    requires forall i {:trigger states[i]} | 0 <= i < |states| :: !states[i].closed
    ensures exists i {:trigger states[i]} :: 0 <= i < |states| && !Paired(states[i])
  {
    if j :| 0 <= j < k && TooEarly(states[j], steps[j]) {
      FirstTooEarly(steps, states, j);
    } else {
      RunKeeps(steps, states, k);
      TimeOutIff(states[k], steps[k].s);
      assert states[k + 1] == Next(states[k], steps[k]);
    }
  }

  lemma ResumeConserves(st: State, s: Sleeper)
    requires Conserved(st) && s in st.sleeping
    ensures Conserved(ResumeStep(st, s))
  {
    hide Conserved;
    var i := Index(st.sleeping, s);
    if i < st.waking && !st.closed && i < |st.queue| {
      ConservedTake(st, ResumeStep(st, s), i);
    } else {
      SameItems(st, ResumeStep(st, s));
    }
  }

  /** Items are conserved whatever happens, early timeouts and closing included. */
  lemma StepConserves(st: State, step: Step)
    requires Conserved(st) && Enabled(st, step)
    ensures Conserved(Next(st, step))
  {
    hide Conserved, ResumeStep;
    match step
    case TakeNow => ConservedTake(st, Next(st, TakeNow), |st.sleeping|);
    case Resume(s) => ResumeConserves(st, s);
    case Put => PutConserves(st);
    case _ => SameItems(st, Next(st, step));
  }

  lemma {:induction false} RunConserves(steps: seq<Step>, states: seq<State>, n: nat)
    requires IsRun(steps, states) && n <= |steps|
    ensures Conserved(states[n])
  {
    hide Conserved, Next, Enabled;
    if n == 0 {
      assert Conserved(Initial) by { InitialConserved(); }
    } else {
      RunConserves(steps, states, n - 1);
      assert Enabled(states[n - 1], steps[n - 1]);
      StepConserves(states[n - 1], steps[n - 1]);
    }
  }

  lemma InitialConserved()
    ensures Conserved(Initial)
  {
  }

  /** In any run, an item that was put is either still queued or has been handed out, and once. */
  lemma TakenOnce(steps: seq<Step>, states: seq<State>, n: nat, item: Item)
    requires IsRun(steps, states) && n <= |steps|
    ensures var st := states[n];
            multiset(st.queue)[item] + multiset(st.taken)[item] == if item < st.puts then 1 else 0
  {
    RunConserves(steps, states, n);
    var st := states[n];
    UpToCount(st.puts, item);
    assert (multiset(st.queue) + multiset(st.taken))[item] == UpTo(st.puts)[item];
  }

  lemma {:induction false} UpToCount(n: nat, item: Item)
    ensures UpTo(n)[item] == if item < n then 1 else 0
  {
    if n > 0 { UpToCount(n - 1, item); }
  }

  /** No lost wake-up: while items are queued and somebody sleeps, the one who has slept longest
      has been chosen, and once its cookie is written it returns its own item. */
  lemma NoLostWakeUp(st: State)
    requires Inv(st) && !st.closed && |st.queue| > 0 && |st.sleeping| > 0
    ensures var s := st.sleeping[0];
            && s in st.due && (s in st.toWrite || s in st.written)
            && (s in st.toWrite ==> Enabled(st, Wake(s)))
            && (s in st.written ==>
                  && Enabled(st, Resume(s)) && Outcomes(st, s) == Got(st.due[s])
                  && Next(st, Resume(s)).taken == st.taken + [st.due[s]])
  {
    assert Chosen(st, st.sleeping[0]);
  }

  /** Sleepers are served in the order in which they went to sleep. */
  lemma LongestSleeperFirst(st: State, i: nat, j: nat)
    requires Inv(st) && !st.closed && i < j < |st.sleeping|
    ensures st.sleeping[j] in st.toWrite + st.written ==> st.sleeping[i] in st.toWrite + st.written
  {
    assert Chosen(st, st.sleeping[j]) ==> Chosen(st, st.sleeping[i]);
  }

  // ---- What a timeout that comes too early does -----------------------------------------------

  function Puts(n: nat): (r: seq<Step>) { seq(n, _ => Put) }

  /** Nobody is chosen, one thread sleeps, and yet `_waking` is 1. */
  ghost predicate Stuck(st: State) {
    !st.closed && st.waking == 1 && st.sleeping == [1] && !Chosen(st, 1)
  }

  const Impatient: seq<Step> := [Sleep, Put, TimeOut(0), Step.Wake(0), TakeNow, Sleep]

  function Early(i: nat): State {
    if i == 0 then Initial
    else if i == 1 then State(false, [], [0], 0, {}, {}, 0, 1, map[], [], [])
    else if i == 2 then State(false, [0], [0], 1, {0}, {}, 1, 1, map[0 := 0], [0], [])
    else if i == 3 then State(false, [0], [], 1, {0}, {}, 1, 1, map[0 := 0], [0], [])
    else if i == 4 then State(false, [0], [], 1, {}, {0}, 1, 1, map[0 := 0], [0], [])
    else if i == 5 then State(false, [], [], 1, {}, {0}, 1, 1, map[0 := 0], [0, 0], [0])
    else State(false, [], [1], 1, {}, {0}, 1, 2, map[0 := 0], [0, 0], [0])
  }

  lemma EarlyStep(i: nat)
    requires i < 6
    ensures Enabled(Early(i), Impatient[i]) && Next(Early(i), Impatient[i]) == Early(i + 1)
  {
    if i == 1 { assert PutStep(Early(1)) == Early(2); }
  }

  function AfterPuts(n: nat): State { Early(6).(queue := seq(n, i => i + 1), puts := n + 1) }

  function LostStates(n: nat): (r: seq<State>)
    ensures |r| == n + 7
  {
    seq(n + 7, i requires 0 <= i => if i <= 6 then Early(i) else AfterPuts(i - 6))
  }

  lemma PutAgain(n: nat)
    ensures Enabled(AfterPuts(n), Put) && Next(AfterPuts(n), Put) == AfterPuts(n + 1)
  {
    assert AfterPuts(n).queue + [n + 1] == AfterPuts(n + 1).queue;
  }

  /** A lost wake-up: one thread sleeps, a put chooses it, its timeout fires before the cookie is
      written, and it takes the item by a second get; the next sleeper is never chosen, however
      many items are put. */
  lemma LostWakeUp(n: nat)
    ensures IsRun(Impatient + Puts(n), LostStates(n))
    ensures Stuck(LostStates(n)[n + 6]) && |LostStates(n)[n + 6].queue| == n
  {
    hide Next, Enabled;
    var steps, states := Impatient + Puts(n), LostStates(n);
    assert AfterPuts(0) == Early(6);
    assert states[n + 6] == AfterPuts(n) && |AfterPuts(n).queue| == n && Stuck(AfterPuts(n));
    forall i | 0 <= i < |steps|
      ensures Enabled(states[i], steps[i]) && states[i + 1] == Next(states[i], steps[i])
    {
      if i < 6 { EarlyStep(i); } else { PutAgain(i - 6); }
    }
  }
}

/** The latch as the source writes it.  A thread that sleeps gives up the lock between `Get` and
    `GetSleep`; a put gives it up between `Put` and `Wake`. */
module LatchCode {
  import opened Prelude
  import opened Latch

  class Queue<T> {
    var closed: bool
    var queue: seq<T>
    var sleeping: seq<Sleeper>
    var waking: nat
    /** The sleepers whose sockets hold an unread cookie. */
    var written: set<Sleeper>
    var waits: nat

    ghost var st: State
    /** Everything ever put. */
    ghost var log: seq<T>

    ghost predicate Valid()
      reads this
    {
      && st.closed == closed && st.sleeping == sleeping && st.waking == waking
      && st.written == written && st.waits == waits
      && |queue| == |st.queue| && |log| == st.puts
      && forall i | 0 <= i < |queue| :: st.queue[i] < |log| && queue[i] == log[st.queue[i]]
    }

    constructor ()
      ensures Valid() && st == Initial && log == []
    {
      closed, queue, sleeping, waking, written, waits := false, [], [], 0, {}, 0;
      st, log := Initial, [];
    }

    /** Appends the item and chooses a sleeper; `None` when the latch is closed. */
    method Put(obj: T) returns (ok: bool, chosen: Option<Sleeper>)
      requires Valid()
      modifies this
      ensures Valid() && ok == !old(closed)
      ensures !ok ==> st == old(st) && log == old(log) && chosen == None
      ensures ok ==> st == Next(old(st), Step.Put) && log == old(log) + [obj]
      ensures ok ==> chosen == if old(waking) < |old(sleeping)|
                               then Some(old(sleeping)[old(waking)]) else None
    {
      chosen := None;
      if closed { return false, None; }
      queue := queue + [obj];
      if waking < |sleeping| {
        chosen := Some(sleeping[waking]);
        waking := waking + 1;
      }
      ok := true;
      st, log := PutStep(st), log + [obj];
    }

    /** The cookie is written after the lock is released. */
    method Wake(s: Sleeper)
      requires Valid() && Enabled(st, Step.Wake(s))
      modifies this
      ensures Valid() && log == old(log) && st == Next(old(st), Step.Wake(s))
    {
      written := written + {s};
      st := Next(st, Step.Wake(s));
    }

    /** Either an outcome, or a sleeper to wait as. */
    method Get(block: bool) returns (now: Option<Outcome<T>>, s: Sleeper)
      requires Valid()
      modifies this
      ensures Valid() && log == old(log)
      ensures old(closed) ==> now == Some(LatchClosed) && st == old(st)
      ensures !old(closed) && Enabled(old(st), TakeNow) ==>
                && st == Next(old(st), TakeNow) && st.taken != [] && st.taken[|st.taken|-1] < |log|
                && now == Some(Got(log[st.taken[|st.taken|-1]]))
      ensures !old(closed) && !Enabled(old(st), TakeNow) ==>
                if block then now == None && s == old(waits) && st == Next(old(st), Sleep)
                else now == Some(TimedOut) && st == old(st)
    {
      s := waits;
      if closed { return Some(LatchClosed), s; }
      var i := |sleeping|;
      if |queue| > i {
        now := Some(Got(queue[i]));
        queue := Without(queue, i);
        st := Next(st, TakeNow);
        return;
      }
      if !block { return Some(TimedOut), s; }
      now := None;
      sleeping := sleeping + [s];
      waits := waits + 1;
      st := Next(st, Sleep);
    }

    /** After the poll: the cookie is there, or the timeout has passed without one. */
    method GetSleep(s: Sleeper) returns (r: Outcome<T>)
      requires Valid() && s in sleeping
      modifies this
      ensures Valid() && log == old(log)
      ensures st == Next(old(st), if s in old(written) then Resume(s) else TimeOut(s))
      ensures var o := Outcomes(old(st), s);
              match o {
                case Got(n) => n < |log| && r == Got(log[n])
                case TimedOut => r == TimedOut
                case LatchClosed => r == LatchClosed
                case Failed => r == Failed }
    {
      var i := Index(sleeping, s);
      sleeping := Without(sleeping, i);
      if s !in written {
        st := Next(st, TimeOut(s));
        return TimedOut;
      }
      written := written - {s};
      st := Next(st, Resume(s));
      if i >= waking { return Failed; }
      waking := waking - 1;
      if closed { return LatchClosed; }
      if i >= |queue| { return Failed; }
      r := Got(queue[i]);
      queue := Without(queue, i);
    }

    method Close()
      requires Valid()
      modifies this
      ensures Valid() && log == old(log) && st == Next(old(st), Step.Close)
    {
      closed := true;
      ghost var w := if waking < |sleeping| then waking else |sleeping|;
      while waking < |sleeping|
        invariant sleeping == old(sleeping) && queue == old(queue) && waits == old(waits)
        invariant closed && st == old(st) && log == old(log)
        invariant waking == old(waking) || old(waking) < waking <= |sleeping|
        invariant written == old(written) + set i | w <= i < waking && i < |sleeping| :: sleeping[i]
      {
        written := written + {sleeping[waking]};
        waking := waking + 1;
      }
      st := Next(st, Step.Close);
    }
  }
}
