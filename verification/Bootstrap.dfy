/** A child's stream during start-up: `BootstrapProtocol` reads lines until the child announces
    itself, then hands the stream, with whatever is already buffered, to `MitogenProtocol`. */
module Bootstrap {
  import opened Prelude
  import opened Router
  import opened Wire
  import opened Transport
  import opened Delimited

  const NEWLINE: Bytes := [10]
  const EC0_MARKER: Bytes := Ascii("MITO000")
  const EC1_MARKER: Bytes := Ascii("MITO001")
  const EC2_MARKER: Bytes := Ascii("MITO002")

  predicate Holds(line: Bytes, marker: Bytes) {
    Find(line, marker, 0) != -1
  }

  /** The patterns are searched for in order; only the last one's handler returns False. */
  predicate IsLast(line: Bytes) {
    !Holds(line, EC0_MARKER) && !Holds(line, EC1_MARKER) && Holds(line, EC2_MARKER)
  }

  function KeepsReading(): Keeps {
    (lines: seq<Bytes>) => lines == [] || !IsLast(lines[|lines| - 1])
  }

  class BootstrapStream {
    var trailer: Bytes              // DelimitedProtocol._trailer
    var lines: seq<Bytes>           // passed to on_line_received
    var handedOff: bool             // the stream's protocol is now MitogenProtocol
    const next: Receiver
    ghost var read: Bytes           // everything read from the child

    ghost predicate Valid()
      reads this, next
    {
      && next.Valid()
      && var p := Split(KeepsReading(), [], read, NEWLINE);
         && lines == p.lines && handedOff == !p.cont
         && (if handedOff then next.read == p.rest else trailer == p.rest && next.read == [])
    }

    constructor (max: nat)
      ensures Valid() && read == [] && fresh(next) && next.maxMessageSize == max
    {
      trailer, lines, handedOff, read := [], [], false, [];
      next := new Receiver(max);
    }

    /** `Stream.on_receive`, with whichever protocol is in charge. */
    method OnReceive(buf: Bytes)
      requires Valid() && !next.disconnected
      modifies this, next
      ensures Valid() && read == old(read) + buf
      ensures old(lines) <= lines && (old(handedOff) ==> handedOff && lines == old(lines))
    {
      hide Split, Parse, Flat, Shaped, KeepsReading;
      SplitAppend(KeepsReading(), [], read, buf, NEWLINE);
      SplitReassembles(KeepsReading(), lines, trailer + buf, NEWLINE);
      read := read + buf;
      if handedOff {
        next.OnReceive(buf);
      } else {
        var cont;
        lines, trailer, cont := IterSplit(KeepsReading(), lines, trailer + buf, NEWLINE);
        if !cont {
          handedOff := true;
          if trailer != [] {
            next.OnReceive(trailer);
          }
        }
      }
    }
  }

  /** The first of them. */
  lemma SplitFirst(keeps: Keeps, before: seq<Bytes>, ls: seq<Bytes>, payload: Bytes)
    requires ls != [] && 10 !in ls[0]
    ensures var now, after := before + [ls[0]], Join(ls[1..], NEWLINE) + payload;
            (Split(keeps, before, Join(ls, NEWLINE) + payload, NEWLINE)
             == if keeps(now) then Split(keeps, now, after, NEWLINE) else Lines(now, after, false))
  {
    var after := Join(ls[1..], NEWLINE) + payload;
    var buf := Join(ls, NEWLINE) + payload;
    assert buf == ls[0] + NEWLINE + after;
    hide Split, Find, Join;
    FindNewline(ls[0], after);
    SplitLine(keeps, before, buf, NEWLINE);
    assert buf[..|ls[0]|] == ls[0] && buf[|ls[0]| + 1..] == after;
  }

  /** No line but the last ends the reading. */
  ghost predicate KeepsUntil(keeps: Keeps, before: seq<Bytes>, ls: seq<Bytes>) {
    forall i | 0 < i < |ls| :: keeps(before + ls[..i])
  }

  lemma KeepsTail(keeps: Keeps, before: seq<Bytes>, ls: seq<Bytes>)
    requires KeepsUntil(keeps, before, ls) && |ls| > 1
    ensures keeps(before + [ls[0]]) && KeepsUntil(keeps, before + [ls[0]], ls[1..])
  {
    assert ls[..1] == [ls[0]];
    forall i | 0 < i < |ls[1..]| ensures keeps((before + [ls[0]]) + ls[1..][..i]) {
      assert (before + [ls[0]]) + ls[1..][..i] == before + ls[..i + 1];
    }
  }

  /** Lines that hold no newline come back from the split as they went in. */
  lemma {:induction false} SplitJoin(keeps: Keeps, before: seq<Bytes>, ls: seq<Bytes>, payload: Bytes)
    requires ls != [] && (forall l | l in ls :: 10 !in l) && KeepsUntil(keeps, before, ls) && !keeps(before + ls)
    ensures Split(keeps, before, Join(ls, NEWLINE) + payload, NEWLINE) == Lines(before + ls, payload, false)
    decreases |ls|
  {
    assert ls[0] in ls && forall l | l in ls[1..] :: l in ls;
    SplitFirst(keeps, before, ls, payload);
    if |ls| == 1 {
      assert ls == [ls[0]] && Join(ls[1..], NEWLINE) + payload == payload;
    } else {
      KeepsTail(keeps, before, ls);
      hide Split, Join, KeepsUntil;
      ConcatAssoc(before, [ls[0]], ls[1..]);
      assert [ls[0]] + ls[1..] == ls;
      SplitJoin(keeps, before + [ls[0]], ls[1..], payload);
    }
  }

  lemma FindNewline(line: Bytes, after: Bytes)
    requires 10 !in line
    ensures Find(line + NEWLINE + after, NEWLINE, 0) == |line|
  {
    var buf := line + NEWLINE + after;
    assert OccursAt(buf, NEWLINE, |line|);
    forall k: nat | k < |line|
      ensures !OccursAt(buf, NEWLINE, k)
    {
      assert buf[k..k + 1][0] == line[k];
    }
  }

  /** The lines of a child's start-up output: the last is the first to announce the child. */
  ghost predicate IsBanner(ls: seq<Bytes>) {
    && ls != [] && (forall l | l in ls :: 10 !in l)
    && (forall i | 0 <= i < |ls| - 1 :: !IsLast(ls[i])) && IsLast(ls[|ls| - 1])
  }

  lemma BannerWhole(ls: seq<Bytes>, payload: Bytes)
    requires IsBanner(ls)
    ensures Split(KeepsReading(), [], Join(ls, NEWLINE) + payload, NEWLINE) == Lines(ls, payload, false)
  {
    hide Split, IsLast;
    forall i | 0 < i < |ls|
      ensures KeepsReading()([] + ls[..i])
    {
      assert ([] + ls[..i])[i - 1] == ls[i - 1];
    }
    assert [] + ls == ls;
    SplitJoin(KeepsReading(), [], ls, payload);
  }

  ghost predicate Has(line: Bytes, marker: Bytes) {
    exists k: nat :: OccursAt(line, marker, k)
  }

  lemma Markers()
    ensures EC0_MARKER == [77, 73, 84, 79, 48, 48, 48] && EC1_MARKER == [77, 73, 84, 79, 48, 48, 49]
    ensures EC2_MARKER == [77, 73, 84, 79, 48, 48, 50]
  {
  }

  /** Only a line with the last marker, and with neither of the others, hands the stream over. */
  lemma HandsOverIff(line: Bytes)
    ensures !KeepsReading()([line]) <==>
              Has(line, [77, 73, 84, 79, 48, 48, 50])
              && !Has(line, [77, 73, 84, 79, 48, 48, 48]) && !Has(line, [77, 73, 84, 79, 48, 48, 49])
  {
    Markers();
    HoldsIff(line, EC0_MARKER);
    HoldsIff(line, EC1_MARKER);
    HoldsIff(line, EC2_MARKER);
    hide Holds, Has;
  }

  lemma HoldsIff(line: Bytes, marker: Bytes)
    ensures Holds(line, marker) <==> Has(line, marker)
  {
  }

  lemma ItselfOnly(a: Bytes, b: Bytes)
    requires |a| == |b|
    ensures Has(a, b) <==> a == b
  {
    if a == b { assert OccursAt(a, b, 0); }
  }

  /** So the first two announcements keep the line protocol, and the third ends it. */
  lemma Announcements()
    ensures KeepsReading()([EC0_MARKER]) && KeepsReading()([EC1_MARKER]) && !KeepsReading()([EC2_MARKER])
  {
    Markers();
    var a, b, c := EC0_MARKER, EC1_MARKER, EC2_MARKER;
    assert a[6] == 48 && b[6] == 49 && c[6] == 50;
    HandsOverIff(a);
    HandsOverIff(b);
    HandsOverIff(c);
    ItselfOnly(a, a);
    ItselfOnly(a, c);
    ItselfOnly(b, b);
    ItselfOnly(c, a);
    ItselfOnly(c, b);
    ItselfOnly(c, c);
    hide KeepsReading, Has;
  }

  /** Whatever part of the output has been read: either the line protocol is still in charge and
      has seen some of the lines, or it has seen them all and the rest is payload. */
  lemma BannerSplit(ls: seq<Bytes>, payload: Bytes, read: Bytes, ahead: Bytes)
    requires IsBanner(ls) && Join(ls, NEWLINE) + payload == read + ahead
    ensures var p := Split(KeepsReading(), [], read, NEWLINE);
            && p.lines <= ls
            && (!p.cont ==> p.lines == ls && p.rest + ahead == payload)
            && (p.cont ==> ahead != [])
  {
    var keeps := KeepsReading();
    BannerWhole(ls, payload);
    hide Split, IsLast, IsBanner, Join;
    SplitAppend(keeps, [], read, ahead, NEWLINE);
    var p := Split(keeps, [], read, NEWLINE);
    if p.cont {
      SplitReassembles(keeps, p.lines, p.rest + ahead, NEWLINE);
      assert ahead == [] ==> read + ahead == read;
    }
  }

  /** Start-up and transport together: of a child that writes any number of lines, the last of them
      the first to announce it, and then messages, the messages are received as if nothing had come
      before them, wherever the reads happen to cut the bytes. */
  lemma MessagesAfterBanner(s: BootstrapStream, ls: seq<Bytes>, ms: seq<Message>)
    requires s.Valid() && AllSendable(s.next.maxMessageSize, ms) && IsBanner(ls)
    requires s.read <= Join(ls, NEWLINE) + PackAll(s.next.maxMessageSize, ms)
    ensures s.next.routed <= AllArrived(ms) && !s.next.disconnected && s.lines <= ls
    ensures s.read == Join(ls, NEWLINE) + PackAll(s.next.maxMessageSize, ms) ==>
              s.next.routed == AllArrived(ms) && s.handedOff && s.lines == ls
  {
    hide Split, IsBanner, Parse, Join, PackAll;
    var max := s.next.maxMessageSize;
    var payload := PackAll(max, ms);
    var whole := Join(ls, NEWLINE) + payload;
    var ahead := whole[|s.read|..];
    assert whole == s.read + ahead;
    BannerSplit(ls, payload, s.read, ahead);
    assert s.next.read <= payload;
    ParsePrefix(max, ms, s.next.read);
    if ahead == [] {
      assert s.next.read == payload;
      ParsePackAll(max, ms);
    }
  }
}
