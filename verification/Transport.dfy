/** Both ends of a stream: `BufferedWriter` and the receiving half of `MitogenProtocol`. */
module Transport {
  import opened Router
  import opened Wire

  function Flat(chunks: seq<Bytes>): Bytes {
    if chunks == [] then [] else chunks[0] + Flat(chunks[1..])
  }

  lemma {:induction false} FlatAppend(a: seq<Bytes>, b: seq<Bytes>)
    ensures Flat(a + b) == Flat(a) + Flat(b)
    decreases |a|
  {
    if a == [] {
      assert a + b == b;
    } else {
      assert (a + b)[1..] == a[1..] + b;
      FlatAppend(a[1..], b);
    }
  }

  lemma FlatOne(c: Bytes)
    ensures Flat([c]) == c
  {
    assert [c][1..] == [];
  }

  // ---- Sending ---------------------------------------------------------------------------------

  /** What the operating system makes of a write: it takes some of the bytes, it reports that the
      peer is gone, or it fails some other way (EAGAIN, for one). */
  datatype Write = Took(n: nat) | Gone | Failed

  class BufferedWriter {
    var buf: seq<Bytes>         // _buf
    var len: int                // _len
    var closed: bool            // the stream has been disconnected
    var polled: bool            // the broker waits for the stream to become writeable
    ghost var taken: Bytes      // everything the operating system ever took

    /** While anything is left to send, the broker knows. */
    ghost predicate Valid()
      reads this
    {
      !closed ==> len == |Flat(buf)| && (polled <==> buf != [])
    }

    constructor ()
      ensures Valid() && buf == [] && !closed && taken == []
    {
      buf, len, closed, polled, taken := [], 0, false, false, [];
    }

    /** `Side.write`, with the system's answer `os`. */
    method SideWrite(s: Bytes, os: Write) returns (r: Write)
      requires os.Took? ==> os.n <= |s|
      modifies this`taken
      ensures r == if closed then Gone else os
      ensures taken == old(taken) + if r.Took? then s[..r.n] else []
    {
      if closed {
        r := Gone;
      } else {
        r := os;
        if os.Took? {
          taken := taken + s[..os.n];
        }
      }
    }

    /** `write`: whatever the system does, no byte is lost, repeated or overtaken; and only what cannot be
        sent at once is kept. */
    method Write(s: Bytes, os: Write)
      requires Valid() && (os.Took? ==> os.n <= |s|)
      modifies this`buf, this`len, this`polled, this`taken
      ensures Valid()
      ensures !closed ==> taken + Flat(buf) == old(taken + Flat(buf)) + s
      ensures taken == old(taken) + if !closed && old(len) == 0 && os.Took? then s[..os.n] else []
      ensures s != [] && Solid(old(buf)) ==> Solid(buf)
    {
      hide Flat, Solid;
      FlatCons(buf);
      var rest := s;
      if len == 0 {
        if !closed { FlatEmpty(buf); }
        var n := SideWrite(s, os);
        if n.Took? && n.n > 0 {
          if n.n == |s| {
            return;
          }
          rest := s[n.n..];
        }
        polled := true;
      }
      FlatSnoc(buf, rest);
      SolidSnoc(buf, rest);
      buf := buf + [rest];
      len := len + |rest|;
    }

    /** `on_transmit`: the head of the buffer goes out as far as the system lets it, and what it does not
        take is next; if it takes nothing, the stream is closed. */
    method OnTransmit(os: Write)
      requires Valid() && (os.Took? && buf != [] ==> os.n <= |buf[0]|)
      modifies this
      ensures Valid()
      ensures closed <==> old(closed) || (old(buf) != [] && !(os.Took? && os.n > 0))
      ensures closed || old(buf) == [] ==> taken == old(taken)
      ensures !closed && old(buf) != [] ==>
                taken == old(taken) + old(Flat(buf))[..os.n] && Flat(buf) == old(Flat(buf))[os.n..]
      ensures !closed && old(buf) == [] ==> buf == []
      ensures Solid(old(buf)) ==> Solid(buf)
    {
      hide Flat, Solid;
      if buf != [] {
        FlatCons(buf);
        SolidCons(buf);
        var head := buf[0];
        buf := buf[1..];
        var n := SideWrite(head, os);
        if !n.Took? || n.n == 0 {
          closed := true;
          return;
        }
        if n.n != |head| {
          buf := [head[n.n..]] + buf;
          FlatCons(buf);
          SolidCons(buf);
        }
        len := len - n.n;
      }
      if buf == [] {
        polled := false;
      }
    }
  }

  /** Nothing empty is waiting. */
  predicate Solid(chunks: seq<Bytes>) { forall c | c in chunks :: c != [] }

  lemma FlatCons(chunks: seq<Bytes>)
    ensures Flat(chunks) == if chunks == [] then [] else chunks[0] + Flat(chunks[1..])
  {
  }

  lemma FlatSnoc(chunks: seq<Bytes>, c: Bytes)
    ensures Flat(chunks + [c]) == Flat(chunks) + c
  {
    FlatAppend(chunks, [c]);
    FlatOne(c);
  }

  lemma SolidCons(chunks: seq<Bytes>)
    ensures chunks != [] ==> (Solid(chunks) <==> chunks[0] != [] && Solid(chunks[1..]))
  {
    if chunks != [] {
      assert chunks[0] in chunks && forall c | c in chunks[1..] :: c in chunks;
      assert forall c | c in chunks :: c == chunks[0] || c in chunks[1..];
    }
  }

  lemma SolidSnoc(chunks: seq<Bytes>, c: Bytes)
    ensures Solid(chunks + [c]) <==> Solid(chunks) && c != []
  {
    assert c in chunks + [c] && forall d | d in chunks :: d in chunks + [c];
  }

  lemma {:induction false} FlatEmpty(chunks: seq<Bytes>)
    requires |Flat(chunks)| == 0
    ensures Flat(chunks) == []
  {
  }

  // ---- Receiving ---------------------------------------------------------------------------

  /** Python's `s[lo:hi]`. */
  function Slice(s: Bytes, lo: nat, hi: nat): Bytes {
    var h := if hi < |s| then hi else |s|;
    if lo <= h then s[lo..h] else []
  }

  /** The deque always has at most one chunk, or a first chunk that surely holds a header. */
  ghost predicate Shaped(chunks: seq<Bytes>) {
    |chunks| <= 1 || |chunks[0]| >= 128
  }

  /** All but the newest chunk fall short of a message. */
  ghost predicate LastNeeded(max: nat, chunks: seq<Bytes>) {
    |chunks| <= 1 || FirstFrame(max, Flat(chunks[..|chunks| - 1])).Incomplete?
  }

  lemma {:induction false} FlatHead(chunks: seq<Bytes>)
    requires chunks != []
    ensures Flat(chunks)[..|chunks[0]|] == chunks[0] && |chunks[0]| <= |Flat(chunks)|
    ensures |chunks| == 1 ==> Flat(chunks) == chunks[0]
  {
  }

  /** So the message that has just been completed ends in the newest chunk. */
  lemma EndsInNewest(max: nat, chunks: seq<Bytes>, k: nat)
    requires LastNeeded(max, chunks) && k <= |chunks|
    requires var f := FirstFrame(max, Flat(chunks)); f.Complete? && f.size <= |Flat(chunks[..k])|
    ensures k == |chunks|
  {
    if k < |chunks| {
      FrameSize(max, Flat(chunks));
      FlatNil(chunks[..0]);
      hide FirstFrame, Flat;
      var all := Flat(chunks);
      var init := chunks[..|chunks| - 1];
      assert chunks == init + chunks[|chunks| - 1..];
      FlatAppend(init, chunks[|chunks| - 1..]);
      assert init == chunks[..k] + init[k..];
      FlatAppend(chunks[..k], init[k..]);
      FrameShort(max, Flat(init), Flat(chunks[|chunks| - 1..]));
    }
  }

  lemma FlatNil(chunks: seq<Bytes>)
    requires chunks == []
    ensures Flat(chunks) == []
  {
  }

  lemma FrameSize(max: nat, s: Bytes)
    ensures FirstFrame(max, s).Complete? ==> FirstFrame(max, s).size >= HEADER_LEN
  {
  }

  lemma FrameShort(max: nat, s: Bytes, t: Bytes)
    ensures var f := FirstFrame(max, s + t);
            f.Complete? && f.size <= |s| ==> FirstFrame(max, s) == f
  {
    var f := FirstFrame(max, s + t);
    if f.Complete? && f.size <= |s| {
      assert (s + t)[..HEADER_LEN] == s[..HEADER_LEN];
      assert (s + t)[HEADER_LEN..f.size] == s[HEADER_LEN..f.size];
    }
  }

  /** Where the loop that collects a message stands: k chunks with `pos` bytes are off the deque,
      their bits make up the message's data as far as they go, and when nothing remains to be
      collected the last chunk's tail and the deque hold what comes after the message. */
  ghost predicate Collecting(
    all: Bytes, chunks: seq<Bytes>, total: nat,
    deque: seq<Bytes>, data: Bytes, start: nat, remain: nat, tail: Bytes, k: nat)
  {
    && k <= |chunks| && deque == chunks[k..] && remain <= total <= |all|
    && var pos := |Flat(chunks[..k])|;
       && pos <= |all| && Flat(deque) == all[pos..]
       && data == Slice(all, HEADER_LEN, total - remain)
       && start == (if k == 0 then HEADER_LEN else 0)
       && (if k == 0 then remain == total else HEADER_LEN <= total - remain)
       && (if remain > 0 then pos == total - remain
           else k > 0 && total <= pos && tail + Flat(deque) == all[total..])
  }

  /** One round of that loop. */
  lemma CollectOne(all: Bytes, chunks: seq<Bytes>, total: nat,
                   deque: seq<Bytes>, data: Bytes, start: nat, remain: nat, tail: Bytes, k: nat)
    requires all == Flat(chunks) && Collecting(all, chunks, total, deque, data, start, remain, tail, k)
    requires HEADER_LEN <= total && remain > 0 && chunks != [] && |chunks[0]| >= HEADER_LEN
    ensures deque != []
    ensures var bit := Slice(deque[0], start, remain);
            && start + |bit| <= remain && start + |bit| <= |deque[0]|
            && Collecting(all, chunks, total, deque[1..], data + bit, 0, remain - (|bit| + start),
                          deque[0][start + |bit|..], k + 1)
  {
    hide Flat;
    var pos := |Flat(chunks[..k])|;
    if deque == [] {
      FlatNil(deque);
    }
    FlatSplit(deque);
    var buf := deque[0];
    var after := Flat(deque[1..]);
    var bit := Slice(buf, start, remain);
    assert buf == chunks[k];
    assert all[pos..][|buf|..] == after;
    assert all[pos..][start + |bit|..] == buf[start + |bit|..] + after;
    assert all[pos..][start..start + |bit|] == bit;
    if k == 0 {
      FlatNil(chunks[..k]);
    }
    FlatAppend(chunks[..k], [buf]);
    FlatOne(buf);
    assert chunks[..k + 1] == chunks[..k] + [buf];
  }

  lemma CollectingStarts(all: Bytes, chunks: seq<Bytes>, total: nat)
    requires all == Flat(chunks) && HEADER_LEN <= total <= |all|
    ensures Collecting(all, chunks, total, chunks, [], HEADER_LEN, total, [], 0)
  {
    FlatNil(chunks[..0]);
  }

  lemma CollectingEnds(all: Bytes, chunks: seq<Bytes>, total: nat,
                       deque: seq<Bytes>, data: Bytes, start: nat, tail: Bytes, k: nat)
    requires Collecting(all, chunks, total, deque, data, start, 0, tail, k) && HEADER_LEN <= total
    ensures 0 < k <= |chunks| && deque == chunks[k..] && total <= |Flat(chunks[..k])|
    ensures data == all[HEADER_LEN..total] && tail + Flat(deque) == all[total..]
  {
  }

  lemma FlatSplit(chunks: seq<Bytes>)
    requires chunks != []
    ensures Flat(chunks) == chunks[0] + Flat(chunks[1..])
  {
  }

  /** `MitogenProtocol`, the receiving half. */
  class Receiver {
    const maxMessageSize: nat
    var inputBuf: seq<Bytes>        // _input_buf
    var inputLen: int               // _input_buf_len
    var routed: seq<Message>        // messages handed to Router._async_route
    var disconnected: bool
    ghost var read: Bytes           // everything on_receive was ever given

    /** Between callbacks: the messages handed on are those of everything read, and the buffer
        holds what is left, unless the stream was bad and has been dropped. */
    ghost predicate Valid()
      reads this
    {
      && inputLen == |Flat(inputBuf)| && Shaped(inputBuf)
      && var p := Parse(maxMessageSize, read);
         && routed == p.msgs && Flat(inputBuf) == p.rest && disconnected == !p.ok
    }

    constructor (maxMessageSize: nat)
      ensures Valid() && read == [] && routed == [] && !disconnected
      ensures this.maxMessageSize == maxMessageSize
    {
      this.maxMessageSize := maxMessageSize;
      inputBuf, inputLen, routed, disconnected, read := [], 0, [], false, [];
    }

    /** The loop of `_receive_one`: takes a whole message off the deque, piece by piece. */
    method TakeMessage(totalLen: nat) returns (data: Bytes)
      requires HEADER_LEN <= totalLen <= |Flat(inputBuf)| && Shaped(inputBuf)
      modifies this`inputBuf
      ensures data == old(Flat(inputBuf))[HEADER_LEN..totalLen]
      ensures Flat(inputBuf) == old(Flat(inputBuf))[totalLen..] && inputBuf != []
      ensures exists k ::
                && 0 < k <= |old(inputBuf)| && inputBuf[1..] == old(inputBuf)[k..]
                && totalLen <= |Flat(old(inputBuf)[..k])|
    {
      ghost var all := Flat(inputBuf);
      ghost var chunks := inputBuf;
      FlatHead(inputBuf);
      var start: nat := HEADER_LEN;
      var prevStart: nat := start;
      var remain: nat := totalLen;
      var bits: seq<Bytes> := [];
      var buf: Bytes := [];
      var bit: Bytes := [];
      ghost var k := 0;             // chunks taken off the deque
      FlatNil(chunks[..0]);
      FlatNil(bits);
      assert all[0..] == all && chunks[0..] == chunks;
      hide Flat, Collecting, Slice;
      assert Collecting(all, chunks, totalLen, inputBuf, [], start, remain, [], 0) by {
        CollectingStarts(all, chunks, totalLen);
      }
      while remain > 0
        invariant prevStart + |bit| <= |buf| || k == 0
        invariant remain == 0 ==> k > 0
        invariant Collecting(all, chunks, totalLen, inputBuf, Flat(bits), start, remain,
                             if k == 0 then [] else buf[prevStart + |bit|..], k)
        decreases remain, |inputBuf|
      {
        CollectOne(all, chunks, totalLen, inputBuf, Flat(bits), start, remain,
                   if k == 0 then [] else buf[prevStart + |bit|..], k);
        buf := inputBuf[0];
        inputBuf := inputBuf[1..];
        bit := Slice(buf, start, remain);
        FlatAppend(bits, [bit]);
        FlatOne(bit);
        bits := bits + [bit];
        remain := remain - (|bit| + start);
        prevStart := start;
        start := 0;
        k := k + 1;
      }
      data := Flat(bits);
      CollectingEnds(all, chunks, totalLen, inputBuf, data, start, buf[prevStart + |bit|..], k);
      FlatAppend([buf[prevStart + |bit|..]], inputBuf);
      FlatOne(buf[prevStart + |bit|..]);
      inputBuf := [buf[prevStart + |bit|..]] + inputBuf;
      assert inputBuf[1..] == chunks[k..];
    }

    /** `_receive_one`: takes the first message off the buffer, if it is all there. */
    method ReceiveOne() returns (more: bool)
      requires inputLen == |Flat(inputBuf)| && Shaped(inputBuf) && !disconnected
      requires LastNeeded(maxMessageSize, inputBuf)
      modifies this`inputBuf, this`inputLen, this`routed, this`disconnected
      ensures inputLen == |Flat(inputBuf)| && Shaped(inputBuf)
      ensures LastNeeded(maxMessageSize, inputBuf)
      ensures var f := FirstFrame(maxMessageSize, old(Flat(inputBuf)));
              && more == f.Complete?
              && disconnected == (f.Corrupt? || f.Oversize?)
              && routed == old(routed) + (if f.Complete? then [f.msg] else [])
              && Flat(inputBuf) == old(Flat(inputBuf))[if f.Complete? then f.size else 0..]
    {
      hide Unpack;
      ghost var all := Flat(inputBuf);
      ghost var chunks := inputBuf;
      if inputLen < HEADER_LEN {
        return false;
      }
      FlatHead(inputBuf);
      var header := Slice(inputBuf[0], 0, HEADER_LEN);
      assert header == all[..HEADER_LEN];
      var (msg, msgLen) := Unpack(header);
      if msg.enc !in ENCS {
        disconnected := true;
        return false;
      }
      if msgLen > maxMessageSize {
        disconnected := true;
        return false;
      }
      var totalLen := msgLen + HEADER_LEN;
      if inputLen < totalLen {
        return false;
      }
      var data := TakeMessage(totalLen);
      ghost var k :| 0 < k <= |chunks| && inputBuf[1..] == chunks[k..]
                     && totalLen <= |Flat(chunks[..k])|;
      EndsInNewest(maxMessageSize, chunks, k);
      inputLen := inputLen - totalLen;
      routed := routed + [msg.(data := data)];
      more := true;
    }

    /** The first lines of `on_receive`: a short buffer is extended, otherwise a chunk is added. */
    method Buffer(buf: Bytes)
      requires inputLen == |Flat(inputBuf)| && Shaped(inputBuf)
      requires FirstFrame(maxMessageSize, Flat(inputBuf)).Incomplete?
      modifies this`inputBuf, this`inputLen
      ensures inputLen == |Flat(inputBuf)| && Shaped(inputBuf)
      ensures LastNeeded(maxMessageSize, inputBuf)
      ensures Flat(inputBuf) == old(Flat(inputBuf)) + buf
    {
      hide FirstFrame;
      if inputBuf != [] && inputLen < 128 {
        FlatHead(inputBuf);
        inputBuf := inputBuf[0 := inputBuf[0] + buf];
        assert inputBuf == [inputBuf[0]];
        FlatOne(inputBuf[0]);
      } else {
        FlatAppend(inputBuf, [buf]);
        FlatOne(buf);
        ShapedAppend(inputBuf, buf);
        inputBuf := inputBuf + [buf];
        assert inputBuf[..|inputBuf| - 1] == old(inputBuf);
      }
      inputLen := inputLen + |buf|;
    }

    /** The loop of `on_receive`: hands on every message that is all there. */
    method Drain()
      requires inputLen == |Flat(inputBuf)| && Shaped(inputBuf) && !disconnected
      requires LastNeeded(maxMessageSize, inputBuf)
      modifies this`inputBuf, this`inputLen, this`routed, this`disconnected
      ensures inputLen == |Flat(inputBuf)| && Shaped(inputBuf)
      ensures old(routed) <= routed
      ensures Parse(maxMessageSize, old(Flat(inputBuf)))
           == Parsed(routed[|old(routed)|..], Flat(inputBuf), !disconnected)
    {
      hide FirstFrame, Parse, Flat, Shaped, LastNeeded;
      ghost var max := maxMessageSize;
      ghost var handed: seq<Message> := [];
      ghost var s := Flat(inputBuf);
      var more := true;
      while more
        invariant s == Flat(inputBuf) && inputLen == |s| && Shaped(inputBuf)
        invariant LastNeeded(max, inputBuf)
        invariant routed == old(routed) + handed
        invariant more ==> !disconnected
        invariant var p := Parse(max, s);
                  Parse(max, old(Flat(inputBuf))) == Parsed(handed + p.msgs, p.rest, p.ok)
        invariant !more ==> !FirstFrame(max, s).Complete?
                            && disconnected == !FirstFrame(max, s).Incomplete?
        decreases |s|, more
      {
        ghost var f := FirstFrame(max, s);
        FrameSize(max, s);
        if f.Complete? {
          ParseComplete(max, s, f);
          assert handed + ([f.msg] + Parse(max, s[f.size..]).msgs)
              == (handed + [f.msg]) + Parse(max, s[f.size..]).msgs;
        }
        more := ReceiveOne();
        s := Flat(inputBuf);
        if more {
          handed := handed + [f.msg];
        }
      }
      ParseStops(max, s);
      assert handed + [] == handed;
    }

    /** `on_receive`: however the bytes are cut into chunks, the messages handed on are those of
        everything read so far. */
    method OnReceive(buf: Bytes)
      requires Valid() && !disconnected
      modifies this
      ensures Valid() && read == old(read) + buf && old(routed) <= routed
    {
      hide FirstFrame, Parse, Flat, Shaped, LastNeeded;
      RestIncomplete(maxMessageSize, read);
      ParseAppend(maxMessageSize, read, buf);
      read := read + buf;
      Buffer(buf);
      Drain();
    }
  }

  lemma RestIncomplete(max: nat, s: Bytes)
    ensures Parse(max, s).ok <==> FirstFrame(max, Parse(max, s).rest).Incomplete?
    decreases |s|
  {
    hide FirstFrame;
    var f := FirstFrame(max, s);
    if f.Complete? {
      FrameSize(max, s);
      RestIncomplete(max, s[f.size..]);
    }
  }

  lemma ShapedAppend(chunks: seq<Bytes>, buf: Bytes)
    requires Shaped(chunks) && (chunks != [] ==> |Flat(chunks)| >= 128)
    ensures Shaped(chunks + [buf])
  {
    if |chunks| == 1 {
      FlatHead(chunks);
    }
  }
}
