/** `Waker`: calls deferred by any thread run on the broker thread, which a byte in a pipe wakes. */
module Waking {
  type Thread = nat

  /** The `nth` call deferred by a thread. */
  datatype Call = Call(thread: Thread, nth: nat)

  /** `deferred` is the waker's queue; `bytes` are in the pipe, which holds at most `room`; the
      threads in `waking` have queued a call and not yet written their byte; `draining` says that
      the broker is in on_receive.  `queued` and `ran` are history. */
  datatype State = State(
    deferred: seq<Call>, bytes: nat, room: nat, waking: set<Thread>, draining: bool,
    queued: seq<Call>, ran: seq<Call>)

  datatype Step =
    | Append(t: Thread)     // defer() on any other thread than the broker's
    | Write(t: Thread)      // _wake(); a full pipe is left as it is
    | Receive               // the broker reads one byte
    | Pop                   // it takes a call from the queue and runs it
    | Stop                  // it finds the queue empty

  predicate Enabled(st: State, step: Step) {
    match step
    case Append(t) => t !in st.waking
    case Write(t) => t in st.waking
    case Receive => !st.draining && st.bytes > 0
    case Pop => st.draining && st.deferred != []
    case Stop => st.draining && st.deferred == []
  }

  /** How many calls a thread has among these. */
  function Count(calls: seq<Call>, t: Thread): nat {
    if calls == [] then 0
    else Count(calls[..|calls|-1], t) + if calls[|calls|-1].thread == t then 1 else 0
  }

  function Next(st: State, step: Step): State
    requires Enabled(st, step)
  {
    match step
    case Append(t) =>
      var call := Call(t, Count(st.queued, t));
      st.(deferred := st.deferred + [call], queued := st.queued + [call], waking := st.waking + {t})
    case Write(t) =>
      st.(waking := st.waking - {t}, bytes := if st.bytes < st.room then st.bytes + 1 else st.bytes)
    case Receive => st.(bytes := st.bytes - 1, draining := true)
    case Pop => st.(deferred := st.deferred[1..], ran := st.ran + [st.deferred[0]])
    case Stop => st.(draining := false)
  }

  /** A queued call is never forgotten: a byte waits for the broker, a thread is about to write
      one, or the broker is at it.  Calls run in the order they were queued, each once. */
  ghost predicate Inv(st: State) {
    && st.room > 0
    && (st.deferred != [] ==> st.bytes > 0 || st.waking != {} || st.draining)
    && st.ran + st.deferred == st.queued
    && forall i {:trigger st.queued[i]} | 0 <= i < |st.queued| ::
         st.queued[i].nth == Count(st.queued[..i], st.queued[i].thread)
  }

  lemma StepKeeps(st: State, step: Step)
    requires Inv(st) && Enabled(st, step)
    ensures Inv(Next(st, step))
  {
    var st' := Next(st, step);
    match step
    case Append(t) =>
      assert st'.ran + st'.deferred == (st.ran + st.deferred) + [Call(t, Count(st.queued, t))];
      forall i | 0 <= i < |st'.queued|
        ensures st'.queued[i].nth == Count(st'.queued[..i], st'.queued[i].thread)
      {
        assert st'.queued[..i] == st.queued[..i];
        if i == |st.queued| { assert st.queued[..i] == st.queued; }
      }
    case Pop => assert st'.ran + st'.deferred == st.ran + st.deferred;
    case _ =>
  }

  ghost predicate IsRun(steps: seq<Step>, sts: seq<State>) {
    && |sts| == |steps| + 1
    && forall i {:trigger steps[i]} | 0 <= i < |steps| ::
         Enabled(sts[i], steps[i]) && sts[i+1] == Next(sts[i], steps[i])
  }

  lemma {:induction false} RunKeeps(steps: seq<Step>, sts: seq<State>, n: nat)
    requires IsRun(steps, sts) && Inv(sts[0]) && n <= |steps|
    ensures Inv(sts[n])
  {
    if n > 0 {
      RunKeeps(steps, sts, n - 1);
      hide Inv, Next;
      assert Enabled(sts[n-1], steps[n-1]);
      StepKeeps(sts[n-1], steps[n-1]);
    }
  }

  /** What is left to do without any further call being deferred. */
  function Work(st: State): nat {
    |st.deferred| + 3 * |st.waking| + 2 * st.bytes + if st.draining then 1 else 0
  }

  /** No deferred call is lost: whenever some are queued, a thread or the broker can go on, and if
      no more calls are deferred all are run within `Work` steps. */
  lemma NotLost(st: State)
    requires Inv(st) && st.deferred != []
    ensures (exists t :: Enabled(st, Write(t))) || Enabled(st, Receive) || Enabled(st, Pop)
  {
    if st.waking != {} {
      var t :| t in st.waking;
      assert Enabled(st, Write(t));
    }
  }

  lemma StepUsesWork(st: State, step: Step)
    requires Enabled(st, step) && !step.Append?
    ensures Work(Next(st, step)) < Work(st)
  {
  }

  lemma {:induction false} WorkLeft(steps: seq<Step>, sts: seq<State>, n: nat)
    requires IsRun(steps, sts) && n <= |steps| && forall i | 0 <= i < |steps| :: !steps[i].Append?
    ensures n + Work(sts[n]) <= Work(sts[0]) && sts[n].queued == sts[0].queued
  {
    if n > 0 {
      WorkLeft(steps, sts, n - 1);
      hide Work;
      assert Enabled(sts[n-1], steps[n-1]);
      StepUsesWork(sts[n-1], steps[n-1]);
    }
  }

  /** Once nobody can go on, every call queued has been run, exactly once and in order. */
  lemma AllRun(steps: seq<Step>, sts: seq<State>)
    requires IsRun(steps, sts) && Inv(sts[0]) && forall i | 0 <= i < |steps| :: !steps[i].Append?
    ensures |steps| <= Work(sts[0])
    ensures var st := sts[|steps|];
            (forall step :: Enabled(st, step) ==> step.Append?) ==> st.ran == sts[0].queued
  {
    RunKeeps(steps, sts, |steps|);
    WorkLeft(steps, sts, |steps|);
    var st := sts[|steps|];
    if forall step :: Enabled(st, step) ==> step.Append? {
      if st.deferred != [] { NotLost(st); }
      assert st.ran + [] == st.ran;
    }
  }

  /** Each thread's calls run in the order in which it deferred them, none twice. */
  lemma InThreadOrder(st: State, i: nat, j: nat)
    requires Inv(st) && i < j < |st.ran| && st.ran[i].thread == st.ran[j].thread
    ensures st.ran[i].nth < st.ran[j].nth
  {
    var q, t := st.queued, st.ran[i].thread;
    assert q[i] == st.ran[i] && q[j] == st.ran[j];
    CountGrows(q, t, i + 1, j);
    assert q[..i + 1][..i] == q[..i];
  }

  lemma {:induction false} CountGrows(q: seq<Call>, t: Thread, i: nat, j: nat)
    requires i <= j <= |q|
    ensures Count(q[..i], t) <= Count(q[..j], t)
  {
    if i < j {
      assert q[..j][..j - 1] == q[..j - 1];
      CountGrows(q, t, i, j - 1);
    }
  }
}

/** The waker's own methods; other threads may defer calls between them. */
module WakerCode {
  import opened Waking

  class Waker {
    var deferred: seq<Call>
    var bytes: nat
    const room: nat
    ghost var st: State

    ghost predicate Valid()
      reads this
    {
      st.deferred == deferred && st.bytes == bytes && st.room == room && Inv(st)
    }

    constructor (room: nat)
      requires room > 0
      ensures Valid() && st == State([], 0, room, {}, false, [], [])
    {
      deferred, bytes, this.room := [], 0, room;
      st := State([], 0, room, {}, false, [], []);
    }

    method Append(t: Thread, call: Call)
      requires Valid() && Enabled(st, Step.Append(t)) && call == Call(t, Count(st.queued, t))
      modifies this
      ensures Valid() && st == Next(old(st), Step.Append(t))
    {
      StepKeeps(st, Step.Append(t));
      deferred := deferred + [call];
      st := Next(st, Step.Append(t));
    }

    method Wake(t: Thread)
      requires Valid() && Enabled(st, Write(t))
      modifies this
      ensures Valid() && st == Next(old(st), Write(t))
    {
      StepKeeps(st, Write(t));
      if bytes < room { bytes := bytes + 1; }
      st := Next(st, Write(t));
    }

    /** Runs everything that is queued. */
    method OnReceive()
      requires Valid() && Enabled(st, Receive)
      modifies this
      ensures Valid() && deferred == [] && !st.draining
      ensures st.ran == old(st.queued) == st.queued && st.bytes == old(bytes) - 1
      ensures st.waking == old(st.waking)
    {
      StepKeeps(st, Receive);
      bytes := bytes - 1;
      st := Next(st, Receive);
      while |deferred| > 0
        invariant Valid() && st.draining && st.queued == old(st.queued)
        invariant bytes == old(bytes) - 1 && st.waking == old(st.waking)
        decreases |deferred|
      {
        StepKeeps(st, Pop);
        deferred := deferred[1..];
        st := Next(st, Pop);
      }
      StepKeeps(st, Stop);
      st := Next(st, Stop);
    }
  }
}
