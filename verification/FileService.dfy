/** `FileService`: whole files are sent in chunks, and the bytes that no receiver has acknowledged
    are kept within a window.  One stream, with any number of receivers behind it. */
module FileFlow {
  import opened Prelude

  const Window: nat := 1048576
  const IoSize: nat := 131072 - 26

  /** The receiving end of one transfer; every fetch brings its own. */
  type Sender = nat

  /** An open file, as the bytes that reading it to its end will yield. */
  datatype Job = Job(to: Sender, rest: seq<Byte>)

  datatype Down = Chunk(to: Sender, data: seq<Byte>) | Close(to: Sender)

  /** `jobs` and `unacked` are the fields of FileStreamState; `down` is what was sent and has not
      been received yet. */
  datatype Stream = Stream(jobs: seq<Job>, unacked: nat, down: seq<Down>)

  function ReadSize(rest: seq<Byte>): nat { if |rest| < IoSize then |rest| else IoSize }

  predicate Pending(st: Stream) { st.jobs != [] && st.unacked < Window }

  /** One turn of the loop in _schedule_pending_unlocked. */
  function PumpOne(st: Stream): Stream
    requires Pending(st)
  {
    var job, n := st.jobs[0], ReadSize(st.jobs[0].rest);
    if n > 0 then
      Stream([job.(rest := job.rest[n..])] + st.jobs[1..], st.unacked + n,
             st.down + [Chunk(job.to, job.rest[..n])])
    else
      Stream(st.jobs[1..], st.unacked, st.down + [Close(job.to)])
  }

  function Pump(st: Stream): Stream
    decreases Owed(st.jobs)
  {
    if !Pending(st) then st else
      PumpOwes(st);
      Pump(PumpOne(st))
  }

  /** fetch and acknowledge, past their checks. */
  function Fetched(st: Stream, s: Sender, data: seq<Byte>): Stream {
    Pump(st.(jobs := st.jobs + [Job(s, data)]))
  }

  function Acked(st: Stream, size: nat): Stream {
    Pump(st.(unacked := if st.unacked < size then 0 else st.unacked - size))
  }

  // ---- What a transfer consists of ------------------------------------------------------------

  /** The messages that carry a whole file. */
  function Cut(to: Sender, data: seq<Byte>): (r: seq<Down>)
    ensures r != [] && r[|r|-1] == Close(to)
    ensures forall e | e in r :: e.to == to
    ensures forall i | 0 <= i < |r| - 1 :: r[i].Chunk?
    decreases |data|
  {
    if data == [] then [Close(to)]
    else [Chunk(to, data[..ReadSize(data)])] + Cut(to, data[ReadSize(data)..])
  }

  /** The messages meant for one receiver. */
  function For(down: seq<Down>, s: Sender): (r: seq<Down>) {
    if down == [] then []
    else if down[0].to == s then [down[0]] + For(down[1..], s)
    else For(down[1..], s)
  }

  /** The messages still to be sent to one receiver, by the jobs as they stand. */
  function Todo(jobs: seq<Job>, s: Sender): seq<Down> {
    if jobs == [] then []
    else if jobs[0].to == s then Cut(s, jobs[0].rest) + Todo(jobs[1..], s)
    else Todo(jobs[1..], s)
  }

  /** The number of messages still to be sent. */
  function Owed(jobs: seq<Job>): nat {
    if jobs == [] then 0 else |Cut(jobs[0].to, jobs[0].rest)| + Owed(jobs[1..])
  }

  function Bytes(down: seq<Down>): (n: nat) {
    if down == [] then 0
    else (if down[0].Chunk? then |down[0].data| else 0) + Bytes(down[1..])
  }

  function Content(down: seq<Down>): seq<Byte> {
    if down == [] then []
    else (if down[0].Chunk? then down[0].data else []) + Content(down[1..])
  }

  function Sum(ns: seq<nat>): nat { if ns == [] then 0 else ns[0] + Sum(ns[1..]) }

  function Drop<T>(q: seq<T>, i: nat): (r: seq<T>)
    requires i < |q|
    ensures |r| == |q| - 1
  {
    q[..i] + q[i+1..]
  }

  // ---- Laws of those functions ------------------------------------------------------------------

  lemma {:induction false} ForAppend(a: seq<Down>, b: seq<Down>, s: Sender)
    ensures For(a + b, s) == For(a, s) + For(b, s)
  {
    if a == [] { assert a + b == b; }
    else { ForAppend(a[1..], b, s); assert (a + b)[1..] == a[1..] + b; }
  }

  lemma {:induction false} BytesAppend(a: seq<Down>, b: seq<Down>)
    ensures Bytes(a + b) == Bytes(a) + Bytes(b)
  {
    if a == [] { assert a + b == b; }
    else { BytesAppend(a[1..], b); assert (a + b)[1..] == a[1..] + b; }
  }

  lemma {:induction false} ContentAppend(a: seq<Down>, b: seq<Down>)
    ensures Content(a + b) == Content(a) + Content(b)
  {
    if a == [] { assert a + b == b; }
    else { ContentAppend(a[1..], b); assert (a + b)[1..] == a[1..] + b; }
  }

  lemma {:induction false} SumAppend(a: seq<nat>, b: seq<nat>)
    ensures Sum(a + b) == Sum(a) + Sum(b)
  {
    if a == [] { assert a + b == b; }
    else { SumAppend(a[1..], b); assert (a + b)[1..] == a[1..] + b; }
  }

  lemma {:induction false} TodoAppend(a: seq<Job>, b: seq<Job>, s: Sender)
    ensures Todo(a + b, s) == Todo(a, s) + Todo(b, s)
  {
    if a == [] { assert a + b == b; }
    else { TodoAppend(a[1..], b, s); assert (a + b)[1..] == a[1..] + b; }
  }

  lemma {:induction false} OwedAppend(a: seq<Job>, b: seq<Job>)
    ensures Owed(a + b) == Owed(a) + Owed(b)
  {
    if a == [] { assert a + b == b; }
    else { OwedAppend(a[1..], b); assert (a + b)[1..] == a[1..] + b; }
  }

  lemma PumpOwes(st: Stream)
    requires Pending(st)
    ensures Owed(PumpOne(st).jobs) + 1 == Owed(st.jobs)
    ensures |PumpOne(st).down| == |st.down| + 1
  {
    var job, n := st.jobs[0], ReadSize(st.jobs[0].rest);
    if n > 0 {
      var jobs' := [job.(rest := job.rest[n..])] + st.jobs[1..];
      assert jobs'[1..] == st.jobs[1..];
    }
  }

  /** A file's messages carry exactly the file. */
  lemma {:induction false} CutContent(to: Sender, data: seq<Byte>)
    ensures Content(Cut(to, data)) == data
    decreases |data|
  {
    if data != [] {
      var n := ReadSize(data);
      CutContent(to, data[n..]);
      assert ([Chunk(to, data[..n])] + Cut(to, data[n..]))[1..] == Cut(to, data[n..]);
      assert data == data[..n] + data[n..];
    }
  }

  /** All chunks of a file are full but the last, and a full one is 131046 bytes. */
  lemma {:induction false} ChunksFull(to: Sender, data: seq<Byte>, i: nat)
    requires i < |Cut(to, data)| - 1
    ensures Cut(to, data)[i].Chunk?
    ensures |Cut(to, data)[i].data| == if i + 1 < |Cut(to, data)| - 1 then 131046 else |data| - i * 131046
    decreases |data|
  {
    var n := ReadSize(data);
    if i > 0 {
      ChunksFull(to, data[n..], i - 1);
    } else if |Cut(to, data)| == 2 {
      assert Cut(to, data[n..]) == [Close(to)];
      assert data[n..] == [];
    } else {
      assert data[n..] != [];
    }
  }

  // ---- One call -----------------------------------------------------------------------------------

  /** A turn of the loop moves a message from what is to be sent to what has been sent. */
  lemma PumpOneMoves(st: Stream, s: Sender)
    requires Pending(st)
    ensures For(PumpOne(st).down, s) + Todo(PumpOne(st).jobs, s) == For(st.down, s) + Todo(st.jobs, s)
  {
    var job, n := st.jobs[0], ReadSize(st.jobs[0].rest);
    var e := if n > 0 then Chunk(job.to, job.rest[..n]) else Close(job.to);
    ForAppend(st.down, [e], s);
    PumpOneTodo(st, s);
    ConcatAssoc(For(st.down, s), For([e], s), Todo(PumpOne(st).jobs, s));
    hide For, Todo, Cut;
  }

  lemma PumpOneTodo(st: Stream, s: Sender)
    requires Pending(st)
    ensures var job, n := st.jobs[0], ReadSize(st.jobs[0].rest);
            var e := if n > 0 then Chunk(job.to, job.rest[..n]) else Close(job.to);
            For([e], s) + Todo(PumpOne(st).jobs, s) == Todo(st.jobs, s)
  {
    var job, n := st.jobs[0], ReadSize(st.jobs[0].rest);
    var e := if n > 0 then Chunk(job.to, job.rest[..n]) else Close(job.to);
    assert [e][1..] == [];
    assert For([e], s) == if e.to == s then [e] else [];
    if n > 0 {
      var jobs' := [job.(rest := job.rest[n..])] + st.jobs[1..];
      assert jobs'[1..] == st.jobs[1..];
      if job.to == s {
        ConcatAssoc([e], Cut(s, job.rest[n..]), Todo(st.jobs[1..], s));
        assert Cut(s, job.rest) == [e] + Cut(s, job.rest[n..]);
      }
    }
  }

  lemma PumpOneCounts(st: Stream)
    requires Pending(st)
    ensures var st' := PumpOne(st);
            st'.unacked + Bytes(st.down) == st.unacked + Bytes(st'.down) && st'.unacked < Window + IoSize
  {
    var job, n := st.jobs[0], ReadSize(st.jobs[0].rest);
    var e := if n > 0 then Chunk(job.to, job.rest[..n]) else Close(job.to);
    BytesAppend(st.down, [e]);
  }

  /** What scheduling does: the window is filled as long as there is anything to send, no byte
      beyond it except the rest of one chunk, and no receiver's messages change or change order. */
  lemma {:induction false} PumpMoves(st: Stream, s: Sender)
    requires st.unacked < Window + IoSize
    ensures var st' := Pump(st);
            && !Pending(st')
            && For(st'.down, s) + Todo(st'.jobs, s) == For(st.down, s) + Todo(st.jobs, s)
            && st'.unacked + Bytes(st.down) == st.unacked + Bytes(st'.down)
            && st'.unacked < Window + IoSize
            && Owed(st'.jobs) + |st'.down| == Owed(st.jobs) + |st.down|
            && Owed(st'.jobs) <= Owed(st.jobs)
    decreases Owed(st.jobs)
  {
    if Pending(st) {
      PumpOwes(st);
      PumpOneMoves(st, s);
      PumpOneCounts(st);
      PumpMoves(PumpOne(st), s);
    }
  }

  /** Jobs finish in the order they came, and only the first may have been started: earlier
      transfers are completed before later ones begin. */
  ghost predicate Serves(was: seq<Job>, now: seq<Job>) {
    && |now| <= |was|
    && (forall i {:trigger now[i]} | 0 <= i < |now| :: now[i].to == was[i + |was| - |now|].to)
    && (forall i {:trigger now[i]} | 1 <= i < |now| :: now[i] == was[i + |was| - |now|])
  }

  /** Scheduling stops only when nothing is left to send or a mebibyte is unacknowledged. */
  lemma StopsFull(st: Stream)
    requires st.unacked < Window + IoSize
    ensures Pump(st).jobs == [] || 1048576 <= Pump(st).unacked < 1048576 + 131046
  {
    PumpMoves(st, 0);
  }

  lemma {:induction false} PumpServesInOrder(st: Stream)
    ensures Serves(st.jobs, Pump(st).jobs)
    decreases Owed(st.jobs)
  {
    if !Pending(st) {
      assert Pump(st) == st;
    } else {
      hide Serves, PumpOne;
      PumpOwes(st);
      PumpOneServes(st);
      PumpServesInOrder(PumpOne(st));
      ServesTrans(st.jobs, PumpOne(st).jobs, Pump(st).jobs);
    }
  }

  lemma PumpOneServes(st: Stream)
    requires Pending(st)
    ensures Serves(st.jobs, PumpOne(st).jobs)
  {
  }

  lemma ServesTrans(a: seq<Job>, b: seq<Job>, c: seq<Job>)
    requires Serves(a, b) && Serves(b, c)
    ensures Serves(a, c)
  {
    forall i | 0 <= i < |c|
      ensures c[i].to == a[i + |a| - |c|].to && (i > 0 ==> c[i] == a[i + |a| - |c|])
    {
      assert b[i + |b| - |c|].to == a[i + |a| - |c|].to;
    }
  }

  // ---- Senders of jobs ------------------------------------------------------------------------------

  predicate Waits(jobs: seq<Job>, s: Sender) { exists i :: 0 <= i < |jobs| && jobs[i].to == s }

  ghost predicate DistinctJobs(jobs: seq<Job>) {
    forall i, j | 0 <= i < j < |jobs| :: jobs[i].to != jobs[j].to
  }

  lemma PumpJobs(st: Stream)
    requires DistinctJobs(st.jobs)
    ensures DistinctJobs(Pump(st).jobs)
    ensures forall s :: Waits(Pump(st).jobs, s) ==> Waits(st.jobs, s)
  {
    PumpServesInOrder(st);
  }

  lemma {:induction false} TodoNone(jobs: seq<Job>, s: Sender)
    requires !Waits(jobs, s)
    ensures Todo(jobs, s) == []
  {
    if jobs != [] {
      assert jobs[0].to != s;
      forall i | 0 <= i < |jobs[1..]| ensures jobs[1..][i].to != s { assert jobs[i + 1].to != s; }
      TodoNone(jobs[1..], s);
    }
  }

  /** A receiver has at most one job, whose messages are all that is still to be sent to it. */
  lemma {:induction false} TodoOne(jobs: seq<Job>, i: nat)
    requires DistinctJobs(jobs) && i < |jobs|
    ensures Todo(jobs, jobs[i].to) == Cut(jobs[i].to, jobs[i].rest)
  {
    if i == 0 {
      TodoNone(jobs[1..], jobs[0].to);
    } else {
      assert jobs[0].to != jobs[i].to;
      TodoOne(jobs[1..], i - 1);
    }
  }

  // ---- Shutting down ------------------------------------------------------------------------------

  /** The closes of on_shutdown, last job first. */
  function Closes(jobs: seq<Job>): (r: seq<Down>)
    ensures |r| == |jobs|
  {
    if jobs == [] then [] else [Close(jobs[|jobs|-1].to)] + Closes(jobs[..|jobs|-1])
  }

  function Shutdown(st: Stream): Stream {
    Stream([], st.unacked, st.down + Closes(st.jobs))
  }

  lemma {:induction false} ClosesFor(jobs: seq<Job>, s: Sender)
    requires DistinctJobs(jobs)
    ensures For(Closes(jobs), s) == if Waits(jobs, s) then [Close(s)] else []
  {
    if jobs != [] {
      var n := |jobs| - 1;
      var rest := jobs[..n];
      ClosesFor(rest, s);
      assert Closes(jobs)[1..] == Closes(rest);
      WaitsLast(jobs, s);
      hide Waits, DistinctJobs;
    }
  }

  lemma WaitsLast(jobs: seq<Job>, s: Sender)
    requires DistinctJobs(jobs) && jobs != []
    ensures var n := |jobs| - 1;
            && DistinctJobs(jobs[..n])
            && (Waits(jobs, s) <==> jobs[n].to == s || Waits(jobs[..n], s))
            && (jobs[n].to == s ==> !Waits(jobs[..n], s))
  {
    var n := |jobs| - 1;
    if i :| 0 <= i < n && jobs[i].to == s { assert jobs[..n][i].to == s; }
  }

  lemma {:induction false} ClosesNoBytes(jobs: seq<Job>)
    ensures Bytes(Closes(jobs)) == 0
  {
    if jobs != [] {
      ClosesNoBytes(jobs[..|jobs|-1]);
      assert Closes(jobs)[1..] == Closes(jobs[..|jobs|-1]);
    }
  }
}

/** FileStreamState and the FileService methods on it. */
module FileServiceCode {
  import opened Prelude
  import opened FileFlow

  datatype Reply = Metadata(size: nat) | Unregistered | ContextMismatch | CannotOpen

  class FileStreamState {
    var jobs: seq<Job>
    var unacked: nat
    /** Everything sent and not yet received. */
    var down: seq<Down>

    function View(): Stream
      reads this
    {
      Stream(jobs, unacked, down)
    }

    constructor ()
      ensures View() == Stream([], 0, [])
    {
      jobs, unacked, down := [], 0, [];
    }

    method SchedulePending()
      modifies this
      ensures View() == Pump(old(View()))
    {
      while jobs != [] && unacked < Window
        invariant Pump(View()) == Pump(old(View()))
        decreases Owed(jobs)
      {
        PumpOwes(View());
        var job := jobs[0];
        var s := job.rest[..ReadSize(job.rest)];
        if |s| > 0 {
          jobs := [job.(rest := job.rest[|s|..])] + jobs[1..];
          unacked := unacked + |s|;
          down := down + [Chunk(job.to, s)];
        } else {
          down := down + [Close(job.to)];
          jobs := jobs[1..];
        }
      }
    }

    /** `file` is what opening and reading the path yields, with the size its metadata gives. */
    method Fetch(authorized: bool, fromContext: Id, toContext: Id, sender: Sender,
                 file: Option<(seq<Byte>, nat)>)
      returns (reply: Reply)
      modifies this
      ensures reply == if !authorized then Unregistered
                       else if fromContext != toContext then ContextMismatch
                       else if file.None? then CannotOpen
                       else Metadata(file.value.1)
      ensures View() == if reply.Metadata?
                        then Fetched(old(View()), sender, file.value.0) else old(View())
    {
      if !authorized { return Unregistered; }
      if fromContext != toContext { return ContextMismatch; }
      match file
      case None => return CannotOpen;
      case Some(f) =>
        jobs := jobs + [Job(sender, f.0)];
        SchedulePending();
        return Metadata(f.1);
    }

    method Acknowledge(size: nat)
      modifies this
      ensures View() == Acked(old(View()), size)
    {
      unacked := unacked - (if unacked < size then unacked else size);
      SchedulePending();
    }

    method OnShutdown()
      modifies this
      ensures View() == Shutdown(old(View()))
    {
      var i := |jobs|;
      while i > 0
        invariant i == |jobs| && unacked == old(unacked)
        invariant down + Closes(jobs) == old(down) + Closes(old(jobs))
      {
        i := i - 1;
        down := down + [Close(jobs[i].to)];
        jobs := jobs[..|jobs|-1];
      }
    }
  }
}
