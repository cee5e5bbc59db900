/** A FileService, one of its streams and the receivers behind that stream, with chunks, closes and
    acknowledgements in flight. */
module FileTransfer {
  import opened Prelude
  import opened FileFlow

  /** `files` holds what each fetched file contains and `log` what each receiver has received.
      Messages for one receiver arrive in the order they were sent; those for different receivers,
      and all acknowledgements, arrive in any order. */
  datatype Net = Net(stream: Stream, acks: seq<nat>, files: map<Sender, seq<Byte>>,
                     log: map<Sender, seq<Down>>, shut: bool)

  datatype Step =
    | Fetch(s: Sender, data: seq<Byte>)
    | Receive(i: nat)       // the receiver stores the chunk and sends its acknowledgement
    | Ack(i: nat)
    | Shut                  // on_shutdown, once the service threads have exited

  const Initial := Net(Stream([], 0, []), [], map[], map[], false)

  function Log(net: Net, s: Sender): seq<Down> { if s in net.log then net.log[s] else [] }

  predicate First(down: seq<Down>, i: nat) {
    i < |down| && forall j | 0 <= j < i :: down[j].to != down[i].to
  }

  predicate Enabled(net: Net, step: Step) {
    match step
    case Fetch(s, data) => !net.shut && s !in net.files
    case Receive(i) => First(net.stream.down, i)
    case Ack(i) => !net.shut && i < |net.acks|
    case Shut => !net.shut
  }

  function Next(net: Net, step: Step): Net
    requires Enabled(net, step)
  {
    match step
    case Fetch(s, data) =>
      net.(stream := Fetched(net.stream, s, data), files := net.files[s := data],
           log := net.log[s := []])
    case Receive(i) =>
      var e := net.stream.down[i];
      net.(stream := net.stream.(down := Drop(net.stream.down, i)),
           log := net.log[e.to := Log(net, e.to) + [e]],
           acks := if e.Chunk? then net.acks + [|e.data|] else net.acks)
    case Ack(i) =>
      net.(stream := Acked(net.stream, net.acks[i]), acks := Drop(net.acks, i))
    case Shut => net.(stream := Shutdown(net.stream), shut := true)
  }

  // ---- The invariant ------------------------------------------------------------------------------

  /** Every unacknowledged byte is on its way, as a chunk or as its acknowledgement, and there are
      never more of them than the window and one chunk. */
  ghost predicate Credit(net: Net) {
    && net.stream.unacked == Bytes(net.stream.down) + Sum(net.acks)
    && net.stream.unacked < Window + IoSize
  }

  /** What one receiver has been sent so far, with what its job will still send. */
  function Story(net: Net, s: Sender): seq<Down> {
    Log(net, s) + Rest(net.stream, s)
  }

  function Rest(st: Stream, s: Sender): seq<Down> { For(st.down, s) + Todo(st.jobs, s) }

  /** The messages of a whole file, or those of a part of it closed by a shutdown. */
  ghost predicate Ends(events: seq<Down>, s: Sender, data: seq<Byte>) {
    exists k | 0 <= k < |Cut(s, data)| :: events == Cut(s, data)[..k] + [Close(s)]
  }

  ghost predicate Told(net: Net, s: Sender) {
    if s !in net.files then Story(net, s) == []
    else if !net.shut then Story(net, s) == Cut(s, net.files[s])
    else Ends(Story(net, s), s, net.files[s])
  }

  ghost predicate Inv(net: Net) {
    && Credit(net)
    && (!net.shut ==> !Pending(net.stream))
    && (net.shut ==> net.stream.jobs == [])
    && DistinctJobs(net.stream.jobs)
    && forall s {:trigger Told(net, s)} :: Told(net, s)
  }

  // ---- Every step keeps it ------------------------------------------------------------------------

  lemma WaitsTodo(jobs: seq<Job>, s: Sender)
    requires DistinctJobs(jobs)
    ensures Waits(jobs, s) <==> Todo(jobs, s) != []
  {
    if i :| 0 <= i < |jobs| && jobs[i].to == s { TodoOne(jobs, i); } else { TodoNone(jobs, s); }
  }

  lemma FetchedRest(st: Stream, s: Sender, data: seq<Byte>, t: Sender)
    requires st.unacked < Window + IoSize
    ensures Rest(Fetched(st, s, data), t) == Rest(st, t) + if s == t then Cut(s, data) else []
  {
    hide Pump;
    var more := if s == t then Cut(s, data) else [];
    PumpMoves(st.(jobs := st.jobs + [Job(s, data)]), t);
    TodoAppend(st.jobs, [Job(s, data)], t);
    TodoSingle(s, data, t);
    hide For, Todo, Cut;
    ConcatAssoc(For(st.down, t), Todo(st.jobs, t), more);
  }

  lemma TodoSingle(s: Sender, data: seq<Byte>, t: Sender)
    ensures Todo([Job(s, data)], t) == if s == t then Cut(s, data) else []
  {
    assert [Job(s, data)][1..] == [];
  }

  lemma AckedRest(st: Stream, size: nat, t: Sender)
    requires st.unacked < Window + IoSize
    ensures Rest(Acked(st, size), t) == Rest(st, t)
  {
    hide Pump;
    PumpMoves(st.(unacked := if st.unacked < size then 0 else st.unacked - size), t);
  }

  lemma FetchKeeps(net: Net, s: Sender, data: seq<Byte>)
    requires Inv(net) && Enabled(net, Fetch(s, data))
    ensures Inv(Next(net, Fetch(s, data)))
  {
    hide Pump;
    var st, net' := net.stream, Next(net, Fetch(s, data));
    var st1 := st.(jobs := st.jobs + [Job(s, data)]);
    assert Told(net, s);
    WaitsTodo(st.jobs, s);
    assert DistinctJobs(st1.jobs);
    PumpMoves(st1, s);
    PumpJobs(st1);
    forall t ensures Told(net', t) {
      assert Told(net, t);
      FetchTold(net, s, data, t);
    }
    hide Told;
  }

  lemma FetchTold(net: Net, s: Sender, data: seq<Byte>, t: Sender)
    requires !net.shut && s !in net.files && Told(net, s) && Told(net, t)
    requires net.stream.unacked < Window + IoSize
    ensures Told(Next(net, Fetch(s, data)), t)
  {
    FetchedRest(net.stream, s, data, t);
    hide Pump, Cut, Rest, Fetched;
  }

  lemma ForFirst(down: seq<Down>, i: nat, s: Sender)
    requires First(down, i)
    ensures For(down, s) == (if down[i].to == s then [down[i]] else []) + For(Drop(down, i), s)
  {
    var a, b := down[..i], down[i+1..];
    assert down == a + ([down[i]] + b);
    ForAppend(a, [down[i]] + b, s);
    ForAppend(a, b, s);
    assert ([down[i]] + b)[1..] == b;
    if down[i].to == s { ForNone(a, s); }
  }

  lemma {:induction false} ForNone(down: seq<Down>, s: Sender)
    requires forall j | 0 <= j < |down| :: down[j].to != s
    ensures For(down, s) == []
  {
    if down != [] { ForNone(down[1..], s); }
  }

  lemma BytesDrop(down: seq<Down>, i: nat)
    requires i < |down|
    ensures Bytes(down) == Bytes(Drop(down, i)) + if down[i].Chunk? then |down[i].data| else 0
  {
    var a, b := down[..i], down[i+1..];
    assert down == a + ([down[i]] + b);
    BytesAppend(a, [down[i]] + b);
    BytesAppend(a, b);
    assert ([down[i]] + b)[1..] == b;
  }

  lemma {:induction false} SumDrop(ns: seq<nat>, i: nat)
    requires i < |ns|
    ensures Sum(ns) == Sum(Drop(ns, i)) + ns[i]
  {
    if i > 0 {
      SumDrop(ns[1..], i - 1);
      assert Drop(ns, i)[1..] == Drop(ns[1..], i - 1);
    } else {
      assert Drop(ns, 0) == ns[1..];
    }
  }

  lemma MoveOne(a: seq<Down>, e: Down, b: seq<Down>, c: seq<Down>)
    ensures a + (([e] + b) + c) == (a + [e]) + (b + c)
  {
  }

  lemma ReceiveRest(st: Stream, i: nat, s: Sender)
    requires First(st.down, i)
    ensures var st', e := st.(down := Drop(st.down, i)), st.down[i];
            Rest(st, s) == if e.to == s then ([e] + For(st'.down, s)) + Todo(st.jobs, s) else Rest(st', s)
  {
    ForFirst(st.down, i, s);
    hide Todo;
  }

  /** Receiving moves the first message for the receiver to the end of its log. */
  lemma ReceiveStory(net: Net, i: nat, s: Sender)
    requires Enabled(net, Receive(i))
    ensures Story(Next(net, Receive(i)), s) == Story(net, s)
  {
    var st, e := net.stream, net.stream.down[i];
    ReceiveRest(st, i, s);
    MoveOne(Log(net, s), e, For(Drop(st.down, i), s), Todo(st.jobs, s));
    hide For, Todo, Drop;
  }

  lemma ReceiveKeeps(net: Net, i: nat)
    requires Inv(net) && Enabled(net, Receive(i))
    ensures Inv(Next(net, Receive(i)))
  {
    var net' := Next(net, Receive(i));
    BytesDrop(net.stream.down, i);
    if net.stream.down[i].Chunk? { SumAppend(net.acks, [|net.stream.down[i].data|]); }
    forall s ensures Told(net', s) {
      assert Told(net, s);
      ReceiveStory(net, i, s);
    }
  }

  lemma AckKeeps(net: Net, i: nat)
    requires Inv(net) && Enabled(net, Ack(i))
    ensures Inv(Next(net, Ack(i)))
    ensures net.acks[i] <= net.stream.unacked
  {
    SumDrop(net.acks, i);
    AckStream(net.stream, net.acks[i]);
    hide Pump, Rest, Acked, Pending, DistinctJobs;
    forall s ensures Told(Next(net, Ack(i)), s) {
      assert Told(net, s);
      AckedRest(net.stream, net.acks[i], s);
    }
    hide Told;
  }

  lemma AckStream(st: Stream, size: nat)
    requires size <= st.unacked < Window + IoSize && DistinctJobs(st.jobs)
    ensures var st' := Acked(st, size);
            && !Pending(st') && DistinctJobs(st'.jobs) && st'.unacked < Window + IoSize
            && st'.unacked + Bytes(st.down) == st.unacked - size + Bytes(st'.down)
  {
    hide Pump;
    PumpMoves(st.(unacked := st.unacked - size), 0);
    PumpJobs(st.(unacked := st.unacked - size));
  }

  lemma ShutKeeps(net: Net)
    requires Inv(net) && Enabled(net, Shut)
    ensures Inv(Next(net, Shut))
  {
    var st, net' := net.stream, Next(net, Shut);
    BytesAppend(st.down, Closes(st.jobs));
    ClosesNoBytes(st.jobs);
    forall s ensures Told(net', s) {
      assert Told(net, s);
      ShutTold(net, s);
    }
  }

  /** A close in place of what was still to be sent. */
  lemma CutShort(log: seq<Down>, sent: seq<Down>, todo: seq<Down>, s: Sender, data: seq<Byte>)
    requires log + (sent + todo) == Cut(s, data)
    ensures Ends(log + (sent + if todo != [] then [Close(s)] else []), s, data)
  {
    var whole := Cut(s, data);
    var k := if todo == [] then |whole| - 1 else |log + sent|;
    assert log + (sent + if todo != [] then [Close(s)] else []) == whole[..k] + [Close(s)];
  }

  lemma ShutRest(st: Stream, s: Sender)
    requires DistinctJobs(st.jobs)
    ensures Rest(Shutdown(st), s)
         == For(st.down, s) + if Todo(st.jobs, s) != [] then [Close(s)] else []
  {
    ForAppend(st.down, Closes(st.jobs), s);
    ClosesFor(st.jobs, s);
    WaitsTodo(st.jobs, s);
  }

  lemma ShutTold(net: Net, s: Sender)
    requires Enabled(net, Shut) && Told(net, s) && DistinctJobs(net.stream.jobs)
    ensures Told(Next(net, Shut), s)
  {
    var st := net.stream;
    ShutRest(st, s);
    if s in net.files {
      CutShort(Log(net, s), For(st.down, s), Todo(st.jobs, s), s, net.files[s]);
      hide For, Todo, Closes, Ends, Cut, Shutdown;
    }
  }

  lemma StepKeeps(net: Net, step: Step)
    requires Inv(net) && Enabled(net, step)
    ensures Inv(Next(net, step))
  {
    hide Inv, Next;
    match step
    case Fetch(s, data) => FetchKeeps(net, s, data);
    case Receive(i) => ReceiveKeeps(net, i);
    case Ack(i) => AckKeeps(net, i);
    case Shut => ShutKeeps(net);
  }

  // ---- Runs -----------------------------------------------------------------------------------------

  ghost predicate IsRun(steps: seq<Step>, nets: seq<Net>) {
    && |nets| == |steps| + 1
    && forall i {:trigger steps[i]} | 0 <= i < |steps| ::
         Enabled(nets[i], steps[i]) && nets[i+1] == Next(nets[i], steps[i])
  }

  lemma {:induction false} RunKeeps(steps: seq<Step>, nets: seq<Net>, n: nat)
    requires IsRun(steps, nets) && Inv(nets[0]) && n <= |steps|
    ensures Inv(nets[n])
  {
    if n > 0 {
      RunKeeps(steps, nets, n - 1);
      assert Enabled(nets[n-1], steps[n-1]);
      StepKeeps(nets[n-1], steps[n-1]);
    }
  }

  lemma InitialInv()
    ensures Inv(Initial)
  {
    forall s ensures Told(Initial, s) { }
  }

  /** In every run the bytes on their way stay within the window and one chunk. */
  lemma WindowBound(steps: seq<Step>, nets: seq<Net>, n: nat)
    requires IsRun(steps, nets) && nets[0] == Initial && n <= |steps|
    ensures Bytes(nets[n].stream.down) + Sum(nets[n].acks) == nets[n].stream.unacked <= 1179621
  {
    InitialInv();
    RunKeeps(steps, nets, n);
  }

  // ---- What the receivers get -----------------------------------------------------------------------

  predicate IsPrefix(a: seq<Byte>, b: seq<Byte>) { |a| <= |b| && a == b[..|a|] }

  predicate Closed(net: Net, s: Sender) { Close(s) in Log(net, s) }

  lemma {:induction false} CutPrefix(s: Sender, data: seq<Byte>, k: nat)
    requires k <= |Cut(s, data)|
    ensures IsPrefix(Content(Cut(s, data)[..k]), data)
    ensures Content(Cut(s, data)[..k] + [Close(s)]) == Content(Cut(s, data)[..k])
  {
    var whole := Cut(s, data);
    CutContent(s, data);
    assert whole == whole[..k] + whole[k..];
    ContentAppend(whole[..k], whole[k..]);
    ContentAppend(whole[..k], [Close(s)]);
  }

  /** The beginning of a file's messages, or of those of a part of it followed by a close. */
  lemma EventsPrefix(log: seq<Down>, rest: seq<Down>, s: Sender, data: seq<Byte>, k: nat)
    requires k < |Cut(s, data)| && log + rest == Cut(s, data)[..k] + [Close(s)]
    ensures IsPrefix(Content(log), data)
    ensures forall i | 0 <= i < |log| - 1 :: log[i].Chunk?
    ensures Close(s) in log ==> rest == []
  {
    LogIs(log, rest, Cut(s, data)[..k], s);
    EventsContent(log, s, data, k);
  }

  lemma LogIs(log: seq<Down>, rest: seq<Down>, a: seq<Down>, s: Sender)
    requires log + rest == a + [Close(s)] && forall i | 0 <= i < |a| :: a[i].Chunk?
    ensures if |log| <= |a| then log == a[..|log|] else log == a + [Close(s)]
    ensures forall i | 0 <= i < |log| - 1 :: log[i].Chunk?
    ensures Close(s) in log ==> rest == []
  {
    var n := |log|;
    assert log == (a + [Close(s)])[..n];
    if n <= |a| {
      assert log == a[..n];
    } else {
      assert rest == [] && log == a + [Close(s)];
    }
  }

  lemma EventsContent(log: seq<Down>, s: Sender, data: seq<Byte>, k: nat)
    requires k < |Cut(s, data)|
    requires var a := Cut(s, data)[..k]; if |log| <= |a| then log == a[..|log|] else log == a + [Close(s)]
    ensures IsPrefix(Content(log), data)
  {
    var whole, n := Cut(s, data), |log|;
    hide Content, IsPrefix, Cut;
    CutPrefix(s, data, k);
    if n <= k {
      CutPrefix(s, data, n);
      assert whole[..k][..n] == whole[..n];
    }
  }

  /** At any time a receiver has a prefix of its file, and a close at the end if anywhere; unless
      the service was shut down, a closed receiver has the whole file. */
  lemma Received(net: Net, s: Sender)
    requires Inv(net) && s in net.files
    ensures var log := Log(net, s);
            && IsPrefix(Content(log), net.files[s])
            && (forall i | 0 <= i < |log| - 1 :: log[i].Chunk?)
            && (Closed(net, s) && !net.shut ==> Content(log) == net.files[s])
  {
    InvTold(net, s);
    var log, data := Log(net, s), net.files[s];
    var whole := Cut(s, data);
    CutContent(s, data);
    var k := |whole| - 1;
    if net.shut {
      k :| 0 <= k < |whole| && Story(net, s) == whole[..k] + [Close(s)];
    } else {
      assert whole == whole[..k] + [Close(s)];
    }
    hide Inv, Told, Rest, Content, For, Todo, Cut;
    EventsPrefix(log, Rest(net.stream, s), s, data, k);
    if Closed(net, s) && !net.shut { assert log == whole; }
  }

  lemma InvTold(net: Net, s: Sender)
    requires Inv(net)
    ensures Told(net, s)
  {
  }

  /** What `get` returns as `ok`, the number of bytes received being the size the metadata gave,
      says that the file arrived whole, shutdown or not. */
  lemma OkMeansWhole(net: Net, s: Sender)
    requires Inv(net) && s in net.files
    ensures |Content(Log(net, s))| == |net.files[s]| <==> Content(Log(net, s)) == net.files[s]
  {
    Received(net, s);
  }

  // ---- Nothing stalls ---------------------------------------------------------------------------------

  /** The number of deliveries still to come, counting what they will cause. */
  function Work(net: Net): nat {
    3 * Owed(net.stream.jobs) + 2 * |net.stream.down| + |net.acks|
  }

  /** Every delivery uses up work. */
  lemma DeliveryUsesWork(net: Net, step: Step)
    requires Inv(net) && Enabled(net, step) && (step.Receive? || step.Ack?)
    ensures Work(Next(net, step)) < Work(net)
  {
    if step.Ack? {
      AckKeeps(net, step.i);
      PumpMoves(net.stream.(unacked := net.stream.unacked - net.acks[step.i]), 0);
    }
  }

  /** As long as some transfer is not closed, a delivery is possible. */
  lemma NoStall(net: Net, s: Sender)
    requires Inv(net) && s in net.files
    ensures Closed(net, s) || Enabled(net, Receive(0)) || Enabled(net, Ack(0))
  {
    assert Told(net, s);
    CloseLast(s, net.files[s]);
    if net.stream.down == [] && (net.acks == [] || net.shut) {
      assert net.stream.jobs == [] && Story(net, s) == Log(net, s);
    }
  }

  lemma CloseLast(s: Sender, data: seq<Byte>)
    ensures Close(s) in Cut(s, data)
  {
    assert Cut(s, data)[|Cut(s, data)| - 1] == Close(s);
  }

  /** Deliveries alone finish every transfer: at most `Work` of them are possible in a row, and when
      no more are, every receiver is closed and has its whole file. */
  lemma {:induction false} DeliveriesFinish(steps: seq<Step>, nets: seq<Net>)
    requires IsRun(steps, nets) && Inv(nets[0])
    requires forall i | 0 <= i < |steps| :: steps[i].Receive? || steps[i].Ack?
    ensures |steps| + Work(nets[|steps|]) <= Work(nets[0])
    ensures var net := nets[|steps|];
            !Enabled(net, Receive(0)) && !Enabled(net, Ack(0)) ==>
              forall s {:trigger Closed(net, s)} | s in net.files ::
                Closed(net, s) && (!net.shut ==> Content(Log(net, s)) == net.files[s])
  {
    var n := |steps|;
    RunKeeps(steps, nets, n);
    WorkLeft(steps, nets, n);
    hide Inv;
    var net := nets[n];
    if !Enabled(net, Receive(0)) && !Enabled(net, Ack(0)) {
      forall s | s in net.files
        ensures Closed(net, s) && (!net.shut ==> Content(Log(net, s)) == net.files[s])
      {
        NoStall(net, s);
        Received(net, s);
      }
    }
  }

  lemma {:induction false} WorkLeft(steps: seq<Step>, nets: seq<Net>, n: nat)
    requires IsRun(steps, nets) && Inv(nets[0]) && n <= |steps|
    requires forall i | 0 <= i < |steps| :: steps[i].Receive? || steps[i].Ack?
    ensures n + Work(nets[n]) <= Work(nets[0])
  {
    if n > 0 {
      WorkLeft(steps, nets, n - 1);
      RunKeeps(steps, nets, n - 1);
      hide Inv, Work, Next;
      assert Enabled(nets[n-1], steps[n-1]);
      DeliveryUsesWork(nets[n-1], steps[n-1]);
    }
  }

  // ---- The receiving end --------------------------------------------------------------------------------

  /** The loop of FileService.get: stores each chunk, acknowledges it, and stops at the close. */
  method Get(events: seq<Down>, size: nat) returns (ok: bool, out: seq<Byte>, acks: seq<nat>)
    requires exists i :: 0 <= i < |events| && events[i].Close?
    requires forall i | 0 <= i < |events| - 1 :: events[i].Chunk?
    ensures out == Content(events) && ok == (|out| == size)
    ensures Sum(acks) == Bytes(events)
  {
    out, acks := [], [];
    var i := 0;
    while events[i].Chunk?
      invariant i < |events| && (events[i].Chunk? ==> i < |events| - 1)
      invariant out == Content(events[..i]) && Sum(acks) == Bytes(events[..i])
      decreases |events| - i
    {
      ContentAppend(events[..i], [events[i]]);
      BytesAppend(events[..i], [events[i]]);
      SumAppend(acks, [|events[i].data|]);
      assert events[..i] + [events[i]] == events[..i+1];
      acks := acks + [|events[i].data|];
      out := out + events[i].data;
      i := i + 1;
    }
    ContentAppend(events[..i], [events[i]]);
    BytesAppend(events[..i], [events[i]]);
    assert events[..i] + [events[i]] == events;
    ok := |out| == size;
  }
}
