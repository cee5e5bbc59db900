/** The stream protocol on the wire: `Message.pack`, and what a receiver should make of a stream
    of bytes, defined on the bytes alone. */
module Wire {
  import opened Prelude
  import opened Router

  type Bytes = seq<Byte>

  const HEADER_LEN: nat := 26
  const TWO_32: nat := 0x1_0000_0000
  const ENCS: set<int> := {0x4d49, 0x4d4a, 0x4d4b}

  // ---- struct '>h' and '>L' ---------------------------------------------------------------

  function U32(n: nat): (b: Bytes)
    requires n < TWO_32
    ensures |b| == 4
  {
    [n / 0x1000000, n / 0x10000 % 0x100, n / 0x100 % 0x100, n % 0x100]
  }

  function FromU32(b: Bytes): (n: nat)
    requires |b| == 4
  {
    (b[0] as int) * 0x1000000 + (b[1] as int) * 0x10000 + (b[2] as int) * 0x100 + b[3]
  }

  lemma U32RoundTrip(n: nat)
    requires n < TWO_32
    ensures FromU32(U32(n)) == n
  {
    var a, b, c := n / 0x1000000, n / 0x10000, n / 0x100;
    assert n == c * 0x100 + n % 0x100;
    assert c == b * 0x100 + c % 0x100 by { assert c / 0x100 == b; }
    assert b == a * 0x100 + b % 0x100 by { assert b / 0x100 == a; }
  }

  function I16(e: int): (b: Bytes)
    requires -0x8000 <= e < 0x8000
    ensures |b| == 2
  {
    var u := if e < 0 then e + 0x10000 else e;
    [u / 0x100, u % 0x100]
  }

  function FromI16(b: Bytes): int
    requires |b| == 2
  {
    var u := (b[0] as int) * 0x100 + b[1];
    if u >= 0x8000 then u - 0x10000 else u
  }

  lemma I16RoundTrip(e: int)
    requires -0x8000 <= e < 0x8000
    ensures FromI16(I16(e)) == e
  {
  }

  // ---- Message.pack --------------------------------------------------------------------------

  function ReplyTo(m: Message): nat {
    if m.replyTo.Some? then m.replyTo.value else 0
  }

  /** The constructor admits only the known encodings; `struct.pack` raises an error for any field
      that does not fit its 32 bits. */
  predicate Packable(m: Message) {
    && m.enc in ENCS
    && m.dst < TWO_32 && m.src < TWO_32 && m.auth < TWO_32 && m.handle < TWO_32
    && ReplyTo(m) < TWO_32 && |m.data| < TWO_32
  }

  function Header(m: Message): (h: Bytes)
    requires Packable(m)
    ensures |h| == HEADER_LEN
  {
    I16(m.enc) + U32(m.dst) + U32(m.src) + U32(m.auth) + U32(m.handle) + U32(ReplyTo(m))
    + U32(|m.data|)
  }

  function Pack(m: Message): (b: Bytes)
    requires Packable(m)
    ensures |b| == HEADER_LEN + |m.data|
  {
    Header(m) + m.data
  }

  /** What the receiver sees of m: a missing `reply_to` arrives as 0. */
  function Arrived(m: Message): Message {
    m.(replyTo := Some(ReplyTo(m)))
  }

  // ---- What a stream of bytes means -------------------------------------------------------

  /** The fields at the head of a stream, without the data, and the length of the data. */
  function Unpack(h: Bytes): (Message, nat)
    requires |h| == HEADER_LEN
  {
    (Message(FromI16(h[..2]), FromU32(h[2..6]), FromU32(h[6..10]), FromU32(h[10..14]),
             FromU32(h[14..18]), Some(FromU32(h[18..22])), []),
     FromU32(h[22..26]))
  }

  datatype Frame =
    | Incomplete
    | Corrupt
    | Oversize
    | Complete(msg: Message, size: nat)

  function FirstFrame(max: nat, s: Bytes): (f: Frame)
    ensures f.Complete? ==> HEADER_LEN <= f.size <= |s|
  {
    if |s| < HEADER_LEN then Incomplete
    else
      var (msg, n) := Unpack(s[..HEADER_LEN]);
      if msg.enc !in ENCS then Corrupt
      else if n > max then Oversize
      else if |s| < HEADER_LEN + n then Incomplete
      else Complete(msg.(data := s[HEADER_LEN..HEADER_LEN + n]), HEADER_LEN + n)
  }

  /** The messages of a stream, the bytes after the last of them, and whether what follows may
      still become a message. */
  datatype Parsed = Parsed(msgs: seq<Message>, rest: Bytes, ok: bool)

  function Parse(max: nat, s: Bytes): (p: Parsed)
    decreases |s|
  {
    match FirstFrame(max, s)
    case Incomplete => Parsed([], s, true)
    case Complete(msg, size) =>
      var p := Parse(max, s[size..]);
      Parsed([msg] + p.msgs, p.rest, p.ok)
    case _ => Parsed([], s, false)
  }

  lemma UnpackHeader(m: Message)
    requires Packable(m)
    ensures Unpack(Header(m)) == (Arrived(m).(data := []), |m.data|)
  {
    var h := Header(m);
    assert h[..2] == I16(m.enc);
    assert h[2..6] == U32(m.dst);
    assert h[6..10] == U32(m.src);
    assert h[10..14] == U32(m.auth);
    assert h[14..18] == U32(m.handle);
    assert h[18..22] == U32(ReplyTo(m));
    assert h[22..26] == U32(|m.data|);
    hide U32, FromU32, I16, FromI16;
    I16RoundTrip(m.enc);
    U32RoundTrip(m.dst);
    U32RoundTrip(m.src);
    U32RoundTrip(m.auth);
    U32RoundTrip(m.handle);
    U32RoundTrip(ReplyTo(m));
    U32RoundTrip(|m.data|);
  }

  /** Round trip of one message, whatever follows it on the stream. */
  lemma FramePack(max: nat, m: Message, t: Bytes)
    requires Packable(m) && |m.data| <= max
    ensures FirstFrame(max, Pack(m) + t) == Complete(Arrived(m), |Pack(m)|)
    ensures (Pack(m) + t)[|Pack(m)|..] == t
  {
    hide Header, Unpack;
    var s := Pack(m) + t;
    assert s[..HEADER_LEN] == Header(m);
    UnpackHeader(m);
    assert s[HEADER_LEN..HEADER_LEN + |m.data|] == m.data;
  }

  ghost predicate AllSendable(max: nat, ms: seq<Message>) {
    forall m | m in ms :: Packable(m) && |m.data| <= max
  }

  function PackAll(max: nat, ms: seq<Message>): Bytes
    requires AllSendable(max, ms)
  {
    if ms == [] then [] else Pack(ms[0]) + PackAll(max, ms[1..])
  }

  function AllArrived(ms: seq<Message>): (r: seq<Message>)
    ensures |r| == |ms| && forall i | 0 <= i < |ms| :: r[i] == Arrived(ms[i])
  {
    seq(|ms|, i requires 0 <= i < |ms| => Arrived(ms[i]))
  }

  lemma ParseComplete(max: nat, s: Bytes, f: Frame)
    requires FirstFrame(max, s) == f && f.Complete?
    ensures var p := Parse(max, s[f.size..]);
            Parse(max, s) == Parsed([f.msg] + p.msgs, p.rest, p.ok)
  {
    hide FirstFrame;
  }

  lemma ParseStops(max: nat, s: Bytes)
    requires !FirstFrame(max, s).Complete?
    ensures Parse(max, s) == Parsed([], s, FirstFrame(max, s).Incomplete?)
  {
    hide FirstFrame;
  }

  /** Round trip of a whole stream. */
  lemma {:induction false} ParsePackAll(max: nat, ms: seq<Message>)
    requires AllSendable(max, ms)
    ensures Parse(max, PackAll(max, ms)) == Parsed(AllArrived(ms), [], true)
    decreases |ms|
  {
    hide FirstFrame, Pack, Parse;
    var s := PackAll(max, ms);
    if ms == [] {
      EmptyIncomplete(max);
      ParseStops(max, s);
    } else {
      FramePack(max, ms[0], PackAll(max, ms[1..]));
      ParsePackAll(max, ms[1..]);
      ParseComplete(max, s, FirstFrame(max, s));
      assert AllArrived(ms) == [Arrived(ms[0])] + AllArrived(ms[1..]);
    }
  }

  lemma EmptyIncomplete(max: nat)
    ensures FirstFrame(max, []).Incomplete?
  {
  }

  lemma FrameStable(max: nat, s: Bytes, t: Bytes)
    requires !FirstFrame(max, s).Incomplete?
    ensures FirstFrame(max, s + t) == FirstFrame(max, s)
  {
    assert (s + t)[..HEADER_LEN] == s[..HEADER_LEN];
    hide Unpack;
    var (msg, n) := Unpack(s[..HEADER_LEN]);
    if |s| >= HEADER_LEN + n {
      assert (s + t)[HEADER_LEN..HEADER_LEN + n] == s[HEADER_LEN..HEADER_LEN + n];
    }
  }

  /** Chunking does not matter: parsing what has arrived and then the rest together with more is
      parsing everything at once; and once a stream is bad it stays bad, at the same place. */
  lemma {:induction false} ParseAppend(max: nat, s: Bytes, t: Bytes)
    ensures var p := Parse(max, s);
            var q := Parse(max, p.rest + t);
            && (p.ok ==> Parse(max, s + t) == Parsed(p.msgs + q.msgs, q.rest, q.ok))
            && (!p.ok ==> Parse(max, s + t) == Parsed(p.msgs, p.rest + t, false))
    decreases |s|
  {
    hide FirstFrame, Parse;
    var f := FirstFrame(max, s);
    if f.Incomplete? {
      ParseStops(max, s);
      assert [] + Parse(max, s + t).msgs == Parse(max, s + t).msgs;
    } else {
      FrameStable(max, s, t);
      if f.Complete? {
        var s' := s[f.size..];
        assert (s + t)[f.size..] == s' + t;
        ParseComplete(max, s, f);
        ParseComplete(max, s + t, f);
        ParseAppend(max, s', t);
        var p := Parse(max, s');
        var q := Parse(max, p.rest + t);
        assert ([f.msg] + p.msgs) + q.msgs == [f.msg] + (p.msgs + q.msgs);
      } else {
        ParseStops(max, s);
        ParseStops(max, s + t);
      }
    }
  }

  /** Any part of an honest stream, cut anywhere, parses to a prefix of its messages. */
  lemma ParsePrefix(max: nat, ms: seq<Message>, s: Bytes)
    requires AllSendable(max, ms) && s <= PackAll(max, ms)
    ensures Parse(max, s).ok && Parse(max, s).msgs <= AllArrived(ms)
  {
    var t := PackAll(max, ms)[|s|..];
    assert s + t == PackAll(max, ms);
    ParsePackAll(max, ms);
    ParseAppend(max, s, t);
  }

  lemma {:induction false} PackAllAppend(max: nat, ms: seq<Message>, m: Message)
    requires AllSendable(max, ms + [m])
    ensures AllSendable(max, ms) && Packable(m)
    ensures PackAll(max, ms + [m]) == PackAll(max, ms) + Pack(m)
    decreases |ms|
  {
    assert forall x | x in ms :: x in ms + [m];
    assert m in ms + [m];
    if ms == [] {
      assert [m][1..] == [];
    } else {
      assert (ms + [m])[1..] == ms[1..] + [m];
      PackAllAppend(max, ms[1..], m);
    }
  }

  // ---- The format, byte by byte -------------------------------------------------------------

  /** The number that the bytes spell, the most significant first. */
  function BigEndian(b: Bytes): nat {
    if b == [] then 0 else BigEndian(b[..|b| - 1]) * 256 + b[|b| - 1]
  }

  lemma BigEndian2(a: Byte, b: Byte)
    ensures BigEndian([a, b]) == a * 256 + b
  {
    assert [a, b][..1] == [a] && [a][..0] == [];
    assert BigEndian([a]) == BigEndian([]) * 256 + a;
  }

  lemma BigEndian4(a: Byte, b: Byte, c: Byte, d: Byte)
    ensures BigEndian([a, b, c, d]) == ((a * 256 + b) * 256 + c) * 256 + d
  {
    assert [a, b, c, d][..3] == [a, b, c] && [a, b, c][..2] == [a, b];
    BigEndian2(a, b);
  }

  lemma U32Spells(n: nat)
    requires n < TWO_32
    ensures BigEndian(U32(n)) == n
  {
    var b := U32(n);
    BigEndian4(b[0], b[1], b[2], b[3]);
    assert b == [b[0], b[1], b[2], b[3]];
  }

  /** Where each field of a packed message is, and how it is written. */
  lemma Layout(m: Message)
    requires Packable(m)
    ensures var b := Pack(m);
            && BigEndian(b[..2]) == m.enc && BigEndian(b[2..6]) == m.dst && BigEndian(b[6..10]) == m.src
            && BigEndian(b[10..14]) == m.auth && BigEndian(b[14..18]) == m.handle
            && BigEndian(b[18..22]) == (if m.replyTo.Some? then m.replyTo.value else 0)
            && BigEndian(b[22..26]) == |m.data| && b[26..] == m.data
  {
    var b := Pack(m);
    assert b[..2] == I16(m.enc) && b[2..6] == U32(m.dst) && b[6..10] == U32(m.src) && b[10..14] == U32(m.auth);
    assert b[14..18] == U32(m.handle) && b[18..22] == U32(ReplyTo(m)) && b[22..26] == U32(|m.data|) && b[26..] == m.data;
    var e := I16(m.enc);
    BigEndian2(e[0], e[1]);
    assert e == [e[0], e[1]];
    hide U32, BigEndian;
    U32Spells(m.dst);
    U32Spells(m.src);
    U32Spells(m.auth);
    U32Spells(m.handle);
    U32Spells(ReplyTo(m));
    U32Spells(|m.data|);
  }

  // ---- What is refused ------------------------------------------------------------------------

  predicate Sound(max: nat, m: Message) {
    |m.data| <= max && m.enc in {0x4d49, 0x4d4a, 0x4d4b}
  }

  /** Whatever arrives, no message that is too long or of an unknown encoding gets through. */
  lemma {:induction false} OnlySound(max: nat, s: Bytes)
    ensures forall m | m in Parse(max, s).msgs :: Sound(max, m)
    decreases |s|
  {
    var f := FirstFrame(max, s);
    if f.Complete? {
      OnlySound(max, s[f.size..]);
      FrameSound(max, s);
    }
    hide FirstFrame, Sound;
  }

  lemma FrameSound(max: nat, s: Bytes)
    ensures FirstFrame(max, s).Complete? ==> Sound(max, FirstFrame(max, s).msg)
  {
    hide Unpack;
  }

  /** A header that announces such a message ends the stream there, with all messages before it and
      nothing after it. */
  lemma BadHeader(max: nat, ms: seq<Message>, h: Bytes, t: Bytes)
    requires AllSendable(max, ms) && |h| == HEADER_LEN
    requires BigEndian(h[22..26]) > max || BigEndian(h[..2]) !in {0x4d49, 0x4d4a, 0x4d4b}
    ensures Parse(max, PackAll(max, ms) + (h + t)) == Parsed(AllArrived(ms), h + t, false)
  {
    var s := PackAll(max, ms);
    ParsePackAll(max, ms);
    ParseAppend(max, s, h + t);
    assert [] + (h + t) == h + t;
    assert Parse(max, h + t) == Parsed([], h + t, false) by { BadFrame(max, h, t); ParseStops(max, h + t); }
    assert AllArrived(ms) + [] == AllArrived(ms);
  }

  lemma BadFrame(max: nat, h: Bytes, t: Bytes)
    requires |h| == HEADER_LEN
    requires BigEndian(h[22..26]) > max || BigEndian(h[..2]) !in {0x4d49, 0x4d4a, 0x4d4b}
    ensures !FirstFrame(max, h + t).Complete? && !FirstFrame(max, h + t).Incomplete?
  {
    assert (h + t)[..HEADER_LEN] == h;
    BigEndian2(h[0], h[1]);
    BigEndian4(h[22], h[23], h[24], h[25]);
    assert h[..2] == [h[0], h[1]] && h[22..26] == [h[22], h[23], h[24], h[25]];
  }
}
