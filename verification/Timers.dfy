/** Timer lists over whole runs.  `live` is the list's view: its active timers, with the times they are
    due.  What schedule(), cancel() and expire() do to it is proved of them in module Timers. */
module TimerRuns {
  datatype Op<T> = Schedule(id: T, when: real) | Cancel(id: T) | Expire(now: real)

  function Due<T(==)>(live: map<T, real>, now: real): set<T> {
    set id | id in live && live[id] <= now
  }

  function After<T(==)>(live: map<T, real>, op: Op<T>): map<T, real> {
    match op
    case Schedule(id, when) => live[id := when]
    case Cancel(id) => live - {id}
    case Expire(now) => live - Due(live, now)
  }

  function Called<T(==)>(live: map<T, real>, op: Op<T>): set<T> {
    if op.Expire? then Due(live, op.now) else {}
  }

  /** Every timer is new when it is scheduled. */
  ghost predicate IsRun<T>(ops: seq<Op<T>>, lives: seq<map<T, real>>) {
    && |lives| == |ops| + 1 && lives[0] == map[]
    && (forall i {:trigger ops[i]} | 0 <= i < |ops| :: lives[i + 1] == After(lives[i], ops[i]))
    && forall i, j | 0 <= i < j < |ops| && ops[i].Schedule? && ops[j].Schedule? :: ops[i].id != ops[j].id
  }

  /** What takes a timer off the list. */
  predicate Ends<T(==)>(op: Op<T>, id: T, when: real) {
    op == Cancel(id) || (op.Expire? && when <= op.now)
  }

  ghost predicate Undisturbed<T>(ops: seq<Op<T>>, i: nat, n: nat, id: T, when: real)
    requires n <= |ops|
  {
    forall k {:trigger ops[k]} | i < k < n :: !Ends(ops[k], id, when)
  }

  lemma {:induction false} LiveIff<T>(ops: seq<Op<T>>, lives: seq<map<T, real>>, i: nat, n: nat)
    requires IsRun(ops, lives) && i < n <= |ops| && ops[i].Schedule?
    ensures ops[i].id in lives[n] <==> Undisturbed(ops, i, n, ops[i].id, ops[i].when)
    ensures ops[i].id in lives[n] ==> lives[n][ops[i].id] == ops[i].when
  {
    assert lives[n] == After(lives[n - 1], ops[n - 1]);
    if i < n - 1 {
      LiveIff(ops, lives, i, n - 1);
      if Ends(ops[n - 1], ops[i].id, ops[i].when) { assert !Undisturbed(ops, i, n, ops[i].id, ops[i].when); }
    }
  }

  /** A timer's function is called by exactly those calls of expire() that are the first to find it
      due, if nobody cancelled it before: so at most once, never early, and not after cancel(). */
  lemma CalledIff<T>(ops: seq<Op<T>>, lives: seq<map<T, real>>, i: nat, j: nat)
    requires IsRun(ops, lives) && i < |ops| && j < |ops| && ops[i].Schedule?
    ensures ops[i].id in Called(lives[j], ops[j]) <==>
              i < j && ops[j].Expire? && ops[i].when <= ops[j].now
              && Undisturbed(ops, i, j, ops[i].id, ops[i].when)
  {
    if i < j {
      LiveIff(ops, lives, i, j);
    } else {
      NotYet(ops, lives, i, j);
    }
  }

  lemma {:induction false} NotYet<T>(ops: seq<Op<T>>, lives: seq<map<T, real>>, i: nat, n: nat)
    requires IsRun(ops, lives) && n <= i < |ops| && ops[i].Schedule?
    ensures ops[i].id !in lives[n]
  {
    if n > 0 {
      NotYet(ops, lives, i, n - 1);
      assert lives[n] == After(lives[n - 1], ops[n - 1]);
    }
  }
}

/** `TimerList`: future events in a heap, cancelled by a flag and removed lazily. */
module Timers {
  import opened Prelude
  import Runs = TimerRuns

  class Timer {
    const when: real
    var active: bool

    constructor (when: real)
      ensures this.when == when && active
    {
      this.when, active := when, true;
    }

    /** The list is any that the timer may be in. */
    method Cancel(ghost list: TimerList)
      modifies this
      ensures !active && list.lst == old(list.lst)
      ensures list.View() == Runs.After(old(list.View()), Runs.Cancel(this))
    {
      active := false;
    }
  }

  // ---- The heap -------------------------------------------------------------------------------------

  function Up(k: nat): nat
    requires k > 0
  {
    (k - 1) / 2
  }

  lemma UpIs(k: nat)
    requires k > 0
    ensures Up(k) < k && (k == 2 * Up(k) + 1 || k == 2 * Up(k) + 2)
  {
  }

  ghost predicate IsHeap(h: seq<Timer>) {
    forall k {:trigger h[k]} | 0 < k < |h| :: h[Up(k)].when <= h[k].when
  }

  /** Out of order at most between `i` and what is above it. */
  ghost predicate HeapBelow(h: seq<Timer>, i: nat) {
    && (forall k {:trigger h[k]} | 0 < k < |h| && k != i :: h[Up(k)].when <= h[k].when)
    && (forall k {:trigger h[k]} | 0 < k < |h| && Up(k) == i && i > 0 && i < |h| :: h[Up(i)].when <= h[k].when)
  }

  /** Out of order at most between `i` and what is below it. */
  ghost predicate HeapAbove(h: seq<Timer>, i: nat) {
    && (forall k {:trigger h[k]} | 0 < k < |h| && Up(k) != i :: h[Up(k)].when <= h[k].when)
    && (forall k {:trigger h[k]} | 0 < k < |h| && Up(k) == i && i > 0 && i < |h| :: h[Up(i)].when <= h[k].when)
  }

  function Swap(h: seq<Timer>, i: nat, j: nat): (r: seq<Timer>)
    requires i < |h| && j < |h|
    ensures |r| == |h|
  {
    h[i := h[j]][j := h[i]]
  }

  lemma SwapSame(h: seq<Timer>, i: nat, j: nat)
    requires i < j < |h|
    ensures multiset(Swap(h, i, j)) == multiset(h)
  {
    var r := Swap(h, i, j);
    assert h == h[..i] + [h[i]] + h[i+1..j] + [h[j]] + h[j+1..];
    assert r == h[..i] + [h[j]] + h[i+1..j] + [h[i]] + h[j+1..];
  }

  lemma {:induction false} HeadIsEarliest(h: seq<Timer>, k: nat)
    requires IsHeap(h) && k < |h|
    ensures h[0].when <= h[k].when
    decreases k
  {
    if k > 0 { HeadIsEarliest(h, Up(k)); }
  }

  method Push(h: seq<Timer>, t: Timer) returns (r: seq<Timer>)
    requires IsHeap(h)
    ensures IsHeap(r) && multiset(r) == multiset(h) + multiset{t}
  {
    r := h + [t];
    var i: nat := |h|;
    while i > 0 && r[Up(i)].when > r[i].when
      invariant i < |r| && HeapBelow(r, i) && multiset(r) == multiset(h) + multiset{t}
      decreases i
    {
      SiftUp(r, i);
      SwapSame(r, Up(i), i);
      r := Swap(r, Up(i), i);
      i := Up(i);
    }
  }

  lemma SiftUp(h: seq<Timer>, i: nat)
    requires 0 < i < |h| && HeapBelow(h, i) && h[Up(i)].when > h[i].when
    ensures HeapBelow(Swap(h, Up(i), i), Up(i))
  {
    var r, p := Swap(h, Up(i), i), Up(i);
    UpIs(i);
    hide Up;
    if p > 0 { UpIs(p); }
    forall k | 0 < k < |r|
      ensures k != p ==> r[Up(k)].when <= r[k].when
      ensures Up(k) == p && p > 0 ==> r[Up(p)].when <= r[k].when
    {
      UpIs(k);
      assert k != i ==> h[Up(k)].when <= h[k].when;
    }
  }

  method PopEarliest(h: seq<Timer>) returns (t: Timer, r: seq<Timer>)
    requires IsHeap(h) && h != []
    ensures IsHeap(r) && multiset(h) == multiset(r) + multiset{t}
    ensures t == h[0] && forall u | u in h :: t.when <= u.when
  {
    var n := |h| - 1;
    t := h[0];
    forall u | u in h ensures t.when <= u.when {
      var k :| 0 <= k < |h| && h[k] == u;
      HeadIsEarliest(h, k);
    }
    if n == 0 {
      assert h == [t];
      return t, [];
    }
    r := [h[n]] + h[1..n];
    MoveLast(h);
    hide IsHeap, HeapAbove;
    r := Settle(r);
  }

  lemma MoveLast(h: seq<Timer>)
    requires IsHeap(h) && |h| > 1
    ensures var n := |h| - 1; var r := [h[n]] + h[1..n];
            HeapAbove(r, 0) && multiset(h) == multiset(r) + multiset{h[0]}
  {
    var n := |h| - 1;
    var r := [h[n]] + h[1..n];
    forall k | 0 < k < |r| && Up(k) != 0
      ensures r[Up(k)].when <= r[k].when
    {
      UpIs(k);
      assert r[k] == h[k] && r[Up(k)] == h[Up(k)];
    }
    MoveLastSame(h);
  }

  lemma MoveLastSame(h: seq<Timer>)
    requires |h| > 1
    ensures var n := |h| - 1; multiset(h) == multiset([h[n]] + h[1..n]) + multiset{h[0]}
  {
    var n := |h| - 1;
    assert h == [h[0]] + h[1..n] + [h[n]];
  }

  method Settle(h: seq<Timer>) returns (r: seq<Timer>)
    requires h != [] && HeapAbove(h, 0)
    ensures IsHeap(r) && multiset(r) == multiset(h)
  {
    r := h;
    var i: nat := 0;
    hide HeapAbove, IsHeap;
    while 2 * i + 1 < |r|
      invariant i < |r| && HeapAbove(r, i) && multiset(r) == multiset(h)
      decreases |r| - i
    {
      var j := 2 * i + 1;
      if j + 1 < |r| && r[j + 1].when < r[j].when { j := j + 1; }
      if r[i].when <= r[j].when { break; }
      SiftDown(r, i, j);
      SwapSame(r, i, j);
      r := Swap(r, i, j);
      i := j;
    }
    Settled(r, i);
  }

  lemma Settled(h: seq<Timer>, i: nat)
    requires i < |h| && HeapAbove(h, i)
    requires forall j | 2 * i + 1 <= j <= 2 * i + 2 && j < |h| :: h[i].when <= h[j].when
    ensures IsHeap(h)
  {
    forall k | 0 < k < |h| ensures h[Up(k)].when <= h[k].when { UpIs(k); }
  }

  lemma SiftDown(h: seq<Timer>, i: nat, j: nat)
    requires 2 * i + 1 <= j <= 2 * i + 2 && j < |h| && HeapAbove(h, i) && h[j].when < h[i].when
    requires forall k | 2 * i + 1 <= k <= 2 * i + 2 && k < |h| :: h[j].when <= h[k].when
    ensures HeapAbove(Swap(h, i, j), j)
  {
    var r := Swap(h, i, j);
    UpIs(j);
    if i > 0 { UpIs(i); }
    hide Up;
    forall k | 0 < k < |r|
      ensures Up(k) != j ==> r[Up(k)].when <= r[k].when
      ensures Up(k) == j ==> r[Up(j)].when <= r[k].when
    {
      UpIs(k);
      assert Up(k) != i ==> h[Up(k)].when <= h[k].when;
    }
  }

  // ---- The list -------------------------------------------------------------------------------------

  ghost predicate Once(h: seq<Timer>) { forall t | t in h :: multiset(h)[t] == 1 }

  ghost predicate Sorted(ts: seq<Timer>) {
    forall i, j | 0 <= i < j < |ts| :: ts[i].when <= ts[j].when
  }

  lemma Popped(h: seq<Timer>, r: seq<Timer>, t: Timer)
    requires Once(h) && multiset(h) == multiset(r) + multiset{t}
    ensures Once(r) && t in h && t !in r && forall u :: u in h <==> u in r || u == t
  {
    assert multiset(h)[t] == multiset(r)[t] + 1;
    assert t in multiset(h);
    forall u ensures u in h <==> u in r || u == t {
      assert u in h <==> u in multiset(h);
      assert u in r <==> u in multiset(r);
    }
    forall u | u in r ensures multiset(r)[u] == 1 {
      assert u in multiset(r) && u in multiset(h);
    }
  }

  lemma Pushed(h: seq<Timer>, r: seq<Timer>, t: Timer)
    requires Once(h) && t !in h && multiset(r) == multiset(h) + multiset{t}
    ensures Once(r) && forall u :: u in r <==> u in h || u == t
  {
    forall u ensures u in r <==> u in h || u == t {
      assert u in r <==> u in multiset(r);
      assert u in h <==> u in multiset(h);
    }
    forall u | u in r ensures multiset(r)[u] == 1 {
      assert u in h <==> u in multiset(h);
    }
  }

  class TimerList {
    var lst: seq<Timer>

    ghost predicate Valid()
      reads this
    {
      IsHeap(lst) && Once(lst)
    }

    /** The active timers, and when they are due. */
    ghost function View(): map<Timer, real>
      reads this, lst
    {
      map t | t in lst && t.active :: t.when
    }

    constructor ()
      ensures Valid() && lst == [] && View() == map[]
    {
      lst := [];
    }

    method Schedule(when: real) returns (timer: Timer)
      requires Valid()
      modifies this
      ensures Valid() && fresh(timer) && timer.when == when && timer.active
      ensures forall t :: t in lst <==> t in old(lst) || t == timer
      ensures View() == Runs.After(old(View()), Runs.Schedule(timer, when))
    {
      timer := new Timer(when);
      var was := lst;
      lst := Push(lst, timer);
      Pushed(was, lst, timer);
      hide IsHeap, Once;
    }

    method Pop() returns (t: Timer)
      requires Valid() && lst != []
      modifies this
      ensures Valid() && t == old(lst)[0] && |lst| < |old(lst)|
      ensures t !in lst && forall u :: u in old(lst) <==> u in lst || u == t
      ensures forall u | u in lst :: t.when <= u.when
    {
      var was := lst;
      t, lst := PopEarliest(lst);
      Popped(was, lst, t);
      assert |multiset(was)| == |multiset(lst)| + 1;
    }

    lemma HeadFirst()
      requires Valid() && lst != []
      ensures forall u | u in lst :: lst[0].when <= u.when
    {
      forall u | u in lst ensures lst[0].when <= u.when {
        var k :| 0 <= k < |lst| && lst[k] == u;
        HeadIsEarliest(lst, k);
      }
    }

    /** None exactly when no active timer is left; otherwise the time until the earliest active
        one is due.  Only cancelled timers are dropped. */
    method GetTimeout(now: real) returns (r: Option<real>)
      requires Valid()
      modifies this
      ensures Valid()
      ensures forall t | t in lst :: t in old(lst)
      ensures forall t | t in old(lst) && t.active :: t in lst
      ensures View() == old(View())
      ensures r == None <==> forall t | t in old(lst) :: !t.active
      ensures r.Some? ==> exists t | t in old(lst) && t.active ::
                && (forall u | u in old(lst) && u.active :: t.when <= u.when)
                && r.value == if t.when > now then t.when - now else 0.0
    {
      hide IsHeap, Once;
      while |lst| > 0 && !lst[0].active
        invariant Valid()
        invariant forall t | t in lst :: t in old(lst)
        invariant forall t | t in old(lst) && t.active :: t in lst
        decreases |lst|
      {
        var t := Pop();
      }
      if |lst| == 0 { return None; }
      HeadFirst();
      var head := lst[0];
      assert head in lst;
      return Some(if head.when > now then head.when - now else 0.0);
    }

    /** Calls the function of every active timer that is due, each once and earliest first, and of
        no other; what is not due stays. */
    method Expire(now: real) returns (called: seq<Timer>)
      requires Valid()
      modifies this, set t | t in lst
      ensures Valid()
      ensures forall t :: t in called <==> t in old(lst) && old(t.active) && t.when <= now
      ensures Once(called) && Sorted(called)
      ensures forall t :: t in lst <==> t in old(lst) && t.when > now
      ensures forall t | t in old(lst) :: t.active == (old(t.active) && t !in called)
      ensures View() == Runs.After(old(View()), Runs.Expire(now))
      ensures (set t | t in called) == Runs.Called(old(View()), Runs.Expire(now))
    {
      hide IsHeap, Once, Sorted;
      called := [];
      NoneCalled();
      ghost var done: set<Timer> := {};
      while |lst| > 0 && lst[0].when <= now
        invariant Valid()
        invariant forall t | t in lst :: t !in done
        invariant forall t :: t in old(lst) <==> t in lst || t in done
        invariant forall t | t in done :: t.when <= now
        invariant forall t, u | t in done && u in lst :: t.when <= u.when
        invariant forall t :: t in called <==> t in done && old(t.active)
        invariant Once(called) && Sorted(called)
        invariant forall t | t in old(lst) :: t.active == (old(t.active) && t !in called)
        decreases |lst|
      {
        var timer := Pop();
        if timer.active {
          timer.active := false;
          CallLast(called, timer);
          called := called + [timer];
        }
        done := done + {timer};
      }
      if |lst| > 0 { HeadFirst(); }
    }
  }

  lemma NoneCalled()
    ensures Once([]) && Sorted([])
  {
  }

  lemma CallLast(called: seq<Timer>, t: Timer)
    requires Once(called) && Sorted(called) && t !in called && forall u | u in called :: u.when <= t.when
    ensures Once(called + [t]) && Sorted(called + [t])
    ensures forall u :: u in called + [t] <==> u in called || u == t
  {
    var all := called + [t];
    forall u | u in all ensures multiset(all)[u] == 1 {
      assert u in called <==> u in multiset(called);
    }
  }
}
