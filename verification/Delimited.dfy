/** `iter_split` and `DelimitedProtocol`: lines out of chunks, and the hand-off of a stream from a
    line protocol to the one that follows it. */
module Delimited {
  import opened Wire

  /** Whether the protocol keeps reading lines, given all the lines it has been handed so far. */
  type Keeps = seq<Bytes> -> bool

  predicate OccursAt(buf: Bytes, delim: Bytes, i: nat) {
    i + |delim| <= |buf| && buf[i..i + |delim|] == delim
  }

  /** Python's `buf.find(delim, start)`. */
  function Find(buf: Bytes, delim: Bytes, start: nat): (i: int)
    ensures i == -1 || (start <= i && OccursAt(buf, delim, i))
    ensures forall j: nat | start <= j && (i == -1 || j < i) :: !OccursAt(buf, delim, j)
    decreases |buf| - start
  {
    if start + |delim| > |buf| then -1
    else if OccursAt(buf, delim, start) then start
    else Find(buf, delim, start + 1)
  }

  /** The lines handed over (after those of `before`), the bytes left, and whether more lines are
      wanted. */
  datatype Lines = Lines(lines: seq<Bytes>, rest: Bytes, cont: bool)

  /** The greedy split of a buffer, until a line is the last one wanted. */
  function Split(keeps: Keeps, before: seq<Bytes>, buf: Bytes, delim: Bytes): Lines
    requires delim != []
    decreases |buf|
  {
    var nl := Find(buf, delim, 0);
    if nl == -1 then Lines(before, buf, true)
    else
      var now := before + [buf[..nl]];
      var after := buf[nl + |delim|..];
      if keeps(now) then Split(keeps, now, after, delim) else Lines(now, after, false)
  }

  function Join(lines: seq<Bytes>, delim: Bytes): Bytes {
    if lines == [] then [] else lines[0] + delim + Join(lines[1..], delim)
  }

  lemma FindShift(buf: Bytes, delim: Bytes, start: nat)
    requires start <= |buf| && delim != []
    ensures var i := Find(buf[start..], delim, 0);
            Find(buf, delim, start) == if i == -1 then -1 else start + i
  {
    var i := Find(buf[start..], delim, 0);
    var j := Find(buf, delim, start);
    assert forall k: nat | start <= k :: OccursAt(buf, delim, k) <==> OccursAt(buf[start..], delim, k - start);
    if i != -1 {
      assert OccursAt(buf, delim, start + i);
    }
    if j != -1 {
      assert OccursAt(buf[start..], delim, j - start);
    }
  }

  lemma SplitLine(keeps: Keeps, before: seq<Bytes>, buf: Bytes, delim: Bytes)
    requires delim != [] && Find(buf, delim, 0) != -1
    ensures var nl := Find(buf, delim, 0);
            var now := before + [buf[..nl]];
            var after := buf[nl + |delim|..];
            Split(keeps, before, buf, delim)
              == if keeps(now) then Split(keeps, now, after, delim) else Lines(now, after, false)
  {
  }

  /** The next line of a buffer that has been read up to `start`. */
  lemma NextLine(keeps: Keeps, lines: seq<Bytes>, buf: Bytes, delim: Bytes, start: nat)
    requires start <= |buf| && delim != [] && Find(buf, delim, start) != -1
    ensures var nl := Find(buf, delim, start);
            var now := lines + [buf[start..nl]];
            Split(keeps, lines, buf[start..], delim)
              == if keeps(now) then Split(keeps, now, buf[nl + |delim|..], delim)
                 else Lines(now, buf[nl + |delim|..], false)
  {
    hide Split, Find;
    var nl := Find(buf, delim, start);
    FindShift(buf, delim, start);
    var k := Find(buf[start..], delim, 0);
    SplitLine(keeps, lines, buf[start..], delim);
    assert buf[start..][..k] == buf[start..nl];
    assert buf[start..][k + |delim|..] == buf[nl + |delim|..];
  }

  /** `iter_split`; the lines the source passes to `func` are returned. */
  method IterSplit(keeps: Keeps, before: seq<Bytes>, buf: Bytes, delim: Bytes)
    returns (lines: seq<Bytes>, trailer: Bytes, cont: bool)
    requires delim != []
    ensures Lines(lines, trailer, cont) == Split(keeps, before, buf, delim)
  {
    hide Split, Find;
    var dlen := |delim|;
    var start := 0;
    cont := true;
    lines := before;
    assert buf[0..] == buf;
    while cont
      invariant 0 <= start <= |buf|
      invariant Split(keeps, before, buf, delim)
                == if cont then Split(keeps, lines, buf[start..], delim)
                   else Lines(lines, buf[start..], false)
      decreases cont, |buf| - start
    {
      var nl := Find(buf, delim, start);
      if nl == -1 {
        FindShift(buf, delim, start);
        SplitNone(keeps, lines, buf[start..], delim);
        break;
      }
      NextLine(keeps, lines, buf, delim, start);
      lines := lines + [buf[start..nl]];
      cont := keeps(lines);
      start := nl + dlen;
    }
    trailer := buf[start..];
  }

  lemma SplitNone(keeps: Keeps, before: seq<Bytes>, buf: Bytes, delim: Bytes)
    requires delim != [] && Find(buf, delim, 0) == -1
    ensures Split(keeps, before, buf, delim) == Lines(before, buf, true)
  {
  }

  lemma FindAppend(a: Bytes, b: Bytes, delim: Bytes)
    requires Find(a, delim, 0) != -1
    ensures Find(a + b, delim, 0) == Find(a, delim, 0)
  {
    var i := Find(a, delim, 0);
    assert forall k: nat | k <= i :: OccursAt(a + b, delim, k) <==> OccursAt(a, delim, k) by {
      forall k: nat | k <= i
        ensures OccursAt(a + b, delim, k) <==> OccursAt(a, delim, k)
      {
        assert (a + b)[k..k + |delim|] == a[k..k + |delim|];
      }
    }
    assert OccursAt(a + b, delim, i);
  }

  /** Chunking does not matter: splitting a, and then what was left of it together with b, is
      splitting a and b at once. */
  lemma {:induction false} SplitAppend(keeps: Keeps, before: seq<Bytes>, a: Bytes, b: Bytes, delim: Bytes)
    requires delim != []
    ensures var p := Split(keeps, before, a, delim);
            Split(keeps, before, a + b, delim)
              == if p.cont then Split(keeps, p.lines, p.rest + b, delim)
                 else Lines(p.lines, p.rest + b, false)
    decreases |a|
  {
    var nl := Find(a, delim, 0);
    if nl != -1 {
      FindAppend(a, b, delim);
      SplitLine(keeps, before, a, delim);
      SplitLine(keeps, before, a + b, delim);
      hide Split, Find;
      assert (a + b)[..nl] == a[..nl];
      assert (a + b)[nl + |delim|..] == a[nl + |delim|..] + b;
      var now := before + [a[..nl]];
      if keeps(now) {
        SplitAppend(keeps, now, a[nl + |delim|..], b, delim);
      }
    }
  }

  lemma {:induction false} JoinAppend(a: seq<Bytes>, b: seq<Bytes>, delim: Bytes)
    ensures Join(a + b, delim) == Join(a, delim) + Join(b, delim)
    decreases |a|
  {
    if a == [] {
      assert a + b == b;
    } else {
      assert (a + b)[1..] == a[1..] + b;
      JoinAppend(a[1..], b, delim);
    }
  }

  /** Nothing is lost or invented, and an unfinished line holds no delimiter. */
  lemma {:induction false} SplitReassembles(keeps: Keeps, before: seq<Bytes>, buf: Bytes, delim: Bytes)
    requires delim != []
    ensures var p := Split(keeps, before, buf, delim);
            && before <= p.lines
            && Join(p.lines[|before|..], delim) + p.rest == buf
            && (p.cont ==> forall i: nat :: !OccursAt(p.rest, delim, i))
            && (forall l | l in p.lines[|before|..] :: forall i: nat :: !OccursAt(l, delim, i))
    decreases |buf|
  {
    hide Find, Split, OccursAt, Join;
    var nl := Find(buf, delim, 0);
    if nl == -1 {
      FoundNone(buf, delim);
      SplitNone(keeps, before, buf, delim);
      JoinOne([], delim);
      assert before[|before|..] == [];
    } else {
      SplitLine(keeps, before, buf, delim);
      LineClean(buf, delim);
      var line := buf[..nl];
      var now := before + [line];
      var after := buf[nl + |delim|..];
      if keeps(now) {
        SplitReassembles(keeps, now, after, delim);
      } else {
        JoinOne(line, delim);
      }
      var p := Split(keeps, before, buf, delim);
      var more := p.lines[|now|..];
      assert p.lines[|before|..] == [line] + more;
      JoinOne(line, delim);
      JoinAppend([line], more, delim);
      assert Join(more, delim) + p.rest == after;
      assert line + delim + Join(more, delim) + p.rest == buf;
    }
  }

  lemma JoinOne(line: Bytes, delim: Bytes)
    ensures Join([line], delim) == line + delim && Join([], delim) == []
  {
    assert [line][1..] == [];
  }

  lemma FoundNone(buf: Bytes, delim: Bytes)
    requires Find(buf, delim, 0) == -1
    ensures forall i: nat :: !OccursAt(buf, delim, i)
  {
  }

  lemma LineClean(buf: Bytes, delim: Bytes)
    requires delim != [] && Find(buf, delim, 0) != -1
    ensures var nl := Find(buf, delim, 0);
            && nl + |delim| <= |buf| && buf == buf[..nl] + delim + buf[nl + |delim|..]
            && forall i: nat :: !OccursAt(buf[..nl], delim, i)
  {
    var nl := Find(buf, delim, 0);
    hide Find;
    forall i: nat
      ensures !OccursAt(buf[..nl], delim, i)
    {
      if OccursAt(buf[..nl], delim, i) { OccursBefore(buf, delim, nl, i); }
    }
  }

  lemma OccursBefore(buf: Bytes, delim: Bytes, n: nat, i: nat)
    requires n <= |buf| && OccursAt(buf[..n], delim, i)
    ensures OccursAt(buf, delim, i) && i + |delim| <= n
  {
    assert buf[..n][i..i + |delim|] == buf[i..i + |delim|];
  }
}
