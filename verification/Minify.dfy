/** `minimize_source`: three passes over the tokens of a Python source that drop comments and
    docstrings and make indentation as narrow as possible. */
module Minify {
  import opened Prelude

  datatype Kind = NL | NEWLINE | COMMENT | INDENT | DEDENT | STRING | OTHER

  datatype Tok = Tok(kind: Kind, text: string, row: nat, col: nat, endRow: nat, endCol: nat)

  predicate LineEnd(t: Tok) { t.kind == NL || t.kind == NEWLINE }

  predicate Layout(t: Tok) { t.kind == INDENT || t.kind == DEDENT }

  // ---- What the passes keep -------------------------------------------------------------------------

  predicate Held(t: Tok) { t.kind != NL && t.kind != COMMENT }

  /** A comment of the first two rows. */
  predicate Kept(t: Tok) { t.kind == COMMENT && t.row <= 2 }

  /** What is looked at: comments or not, columns or not. */
  datatype View = View(comments: bool, columns: bool)

  const Code := View(false, false)
  const WithComments := View(true, false)
  const WithColumns := View(false, true)

  datatype Mark = Mark(kind: Kind, text: string, row: nat, endRow: nat, col: nat, endCol: nat)

  /** A token as far as the passes preserve it: text and rows, and of INDENT and DEDENT only what they
      are.  With columns, the text of INDENT and where all tokens but line ends stand, which the first two
      passes preserve. */
  function Essence(c: View, t: Tok): Mark {
    if Layout(t) then Mark(t.kind, if c.columns && t.kind == INDENT then t.text else "", 0, 0, 0, 0)
    else if c.columns && !LineEnd(t) then Mark(t.kind, t.text, t.row, t.endRow, t.col, t.endCol)
    else Mark(t.kind, t.text, t.row, t.endRow, 0, 0)
  }

  /** What counts of a token: layout always, other code unless its line is dropped, and comments of
      the first two rows if they are looked at. */
  function Part(c: View, dropped: bool, t: Tok): seq<Mark> {
    if Layout(t) || (c.comments && Kept(t)) || (!dropped && Held(t)) then [Essence(c, t)] else []
  }

  function Trace(c: View, dropped: bool, ts: seq<Tok>): seq<Mark> {
    if ts == [] then [] else Part(c, dropped, ts[0]) + Trace(c, dropped, ts[1..])
  }

  /** The first logical line is complete and holds, but for comments and layout, nothing or strings
      only. */
  predicate OnlyStrings(ts: seq<Tok>) {
    ts != [] && (ts[0].kind == NEWLINE || (ts[0].kind != OTHER && OnlyStrings(ts[1..])))
  }

  /** The trace of the first logical line. */
  function Line(c: View, dropped: bool, ts: seq<Tok>): seq<Mark> {
    if ts == [] then []
    else Part(c, dropped, ts[0]) + if ts[0].kind == NEWLINE then [] else Line(c, dropped, ts[1..])
  }

  /** The tokens after the first logical line. */
  function Rest(ts: seq<Tok>): (r: seq<Tok>)
    ensures ts != [] ==> |r| < |ts|
  {
    if ts == [] then [] else if ts[0].kind == NEWLINE then ts[1..] else Rest(ts[1..])
  }

  /** What is to be kept of a source, in one sequence: all layout, and all code of every line that is
      not string-only, each where it stands among the others; with the comments of the first two
      rows if `c`. */
  function Skeleton(c: View, ts: seq<Tok>): seq<Mark>
    decreases |ts|
  {
    if ts == [] then [] else Line(c, OnlyStrings(ts), ts) + Skeleton(c, Rest(ts))
  }

  lemma {:induction false} TraceAppend(c: View, dropped: bool, a: seq<Tok>, b: seq<Tok>)
    ensures Trace(c, dropped, a + b) == Trace(c, dropped, a) + Trace(c, dropped, b)
  {
    if a == [] {
      assert a + b == b;
    } else {
      ConcatTail(a, b);
      TraceAppend(c, dropped, a[1..], b);
      ConcatAssoc(Part(c, dropped, a[0]), Trace(c, dropped, a[1..]), Trace(c, dropped, b));
    }
  }

  lemma TraceOne(c: View, dropped: bool, t: Tok)
    ensures Trace(c, dropped, [t]) == Part(c, dropped, t)
  {
    assert [t][1..] == [];
  }

  // ---- Sequences of tokens --------------------------------------------------------------------------

  function Filter(p: Tok -> bool, ts: seq<Tok>): seq<Tok> {
    if ts == [] then [] else (if p(ts[0]) then [ts[0]] else []) + Filter(p, ts[1..])
  }

  lemma {:induction false} FilterAppend(p: Tok -> bool, a: seq<Tok>, b: seq<Tok>)
    ensures Filter(p, a + b) == Filter(p, a) + Filter(p, b)
  {
    if a == [] {
      assert a + b == b;
    } else {
      ConcatTail(a, b);
      FilterAppend(p, a[1..], b);
      ConcatAssoc(if p(a[0]) then [a[0]] else [], Filter(p, a[1..]), Filter(p, b));
    }
  }

  lemma FilterOne(p: Tok -> bool, t: Tok)
    ensures Filter(p, [t]) == if p(t) then [t] else []
  {
    assert [t][1..] == [];
  }

  lemma FilterSnoc(p: Tok -> bool, a: seq<Tok>, t: Tok)
    ensures Filter(p, a + [t]) == Filter(p, a) + if p(t) then [t] else []
  {
    FilterAppend(p, a, [t]);
    FilterOne(p, t);
    hide Filter;
  }

  lemma {:induction false} FilterIn(p: Tok -> bool, ts: seq<Tok>)
    ensures forall t :: t in Filter(p, ts) <==> t in ts && p(t)
    ensures |Filter(p, ts)| <= |ts|
  {
    if ts != [] {
      FilterIn(p, ts[1..]);
      assert ts == [ts[0]] + ts[1..];
    }
  }

  // ---- strip_comments -------------------------------------------------------------------------------

  predicate Commented(t: Tok) { !(t.kind == COMMENT && t.row > 2) }

  /** The token as it is, except that a line end follows its line without white space. */
  function Tightened(t: Tok, before: Option<Tok>): Tok {
    if !LineEnd(t) then t
    else
      var col := if before.None? || LineEnd(before.value) then 0 else before.value.endCol;
      t.(col := col, endCol := col + 1)
  }

  ghost predicate Tight(out: seq<Tok>, kept: seq<Tok>) {
    |out| == |kept| &&
    forall i {:trigger out[i]} | 0 <= i < |out| ::
      out[i] == Tightened(kept[i], if i == 0 then None else Some(out[i - 1]))
  }

  /** Lines end where their last token does, and empty ones at the margin. */
  predicate NothingTrails(out: seq<Tok>) {
    forall i {:trigger out[i]} | 0 <= i < |out| && LineEnd(out[i]) ::
      out[i].endCol == out[i].col + 1 && out[i].col == if i > 0 && !LineEnd(out[i - 1]) then out[i - 1].endCol else 0
  }

  method StripComments(ts: seq<Tok>) returns (out: seq<Tok>)
    ensures Tight(out, Filter(Commented, ts)) && NothingTrails(out)
  {
    TightStart(ts);
    hide Tight, Filter;
    out := [];
    var prevKind: Option<Kind> := None;
    var prevEndCol: nat := 0;
    var i := 0;
    while i < |ts|
      invariant i <= |ts| && Tight(out, Filter(Commented, ts[..i]))
      invariant if out == [] then prevKind == None && prevEndCol == 0
                else prevKind == Some(out[|out|-1].kind) && prevEndCol == out[|out|-1].endCol
    {
      var t := ts[i];
      KeepOne(out, ts, i);
      i := i + 1;
      if LineEnd(t) {
        var col := if prevKind == Some(NL) || prevKind == Some(NEWLINE) then 0 else prevEndCol;
        t := t.(col := col, endCol := col + 1);
      } else if t.kind == COMMENT && t.row > 2 {
        continue;
      }
      prevKind, prevEndCol := Some(t.kind), t.endCol;
      out := out + [t];
    }
    assert ts[..i] == ts;
    TightTrails(out, Filter(Commented, ts));
  }

  lemma TightTrails(out: seq<Tok>, kept: seq<Tok>)
    requires Tight(out, kept)
    ensures NothingTrails(out)
  {
  }

  lemma TightStart(ts: seq<Tok>)
    ensures Tight([], Filter(Commented, ts[..0]))
  {
  }

  lemma KeepOne(out: seq<Tok>, ts: seq<Tok>, i: nat)
    requires i < |ts| && Tight(out, Filter(Commented, ts[..i]))
    ensures var t' := Tightened(ts[i], if out == [] then None else Some(out[|out| - 1]));
            Tight(if Commented(ts[i]) then out + [t'] else out, Filter(Commented, ts[..i + 1]))
  {
    FilterSnoc(Commented, ts[..i], ts[i]);
    assert ts[..i + 1] == ts[..i] + [ts[i]];
    hide Filter, Tight;
    if Commented(ts[i]) {
      TightSnoc(out, Filter(Commented, ts[..i]), ts[i]);
    } else {
      assert Filter(Commented, ts[..i]) + [] == Filter(Commented, ts[..i]);
    }
  }

  lemma TightSnoc(out: seq<Tok>, kept: seq<Tok>, t: Tok)
    requires Tight(out, kept)
    ensures Tight(out + [Tightened(t, if out == [] then None else Some(out[|out| - 1]))], kept + [t])
  {
    hide Tightened;
  }

  // ---- strip_docstrings -----------------------------------------------------------------------------

  /** Waiting for a string, with the layout and strings of the line so far held back; or passing on
      a line that has more than strings. */
  datatype Mode = Wait(stack: seq<Tok>) | Pass

  /** One NL for each of the rows. */
  function Lines(first: nat, last: nat): seq<Tok>
    decreases last + 1 - first
  {
    if first > last then [] else [Tok(NL, "\n", first, 0, first, 1)] + Lines(first + 1, last)
  }

  /** The layout, on one row. */
  function Relaid(stack: seq<Tok>, row: nat): seq<Tok> {
    if stack == [] then []
    else (if Layout(stack[0]) then [stack[0].(row := row, endRow := row)] else []) + Relaid(stack[1..], row)
  }

  /** What takes the place of a string-only line: its rows, then its layout on the next. */
  function Blanked(stack: seq<Tok>): seq<Tok>
    requires stack != []
  {
    var last := stack[|stack| - 1].endRow;
    Lines(stack[0].row, last) + Relaid(stack, last + 1)
  }

  function Stripped(ts: seq<Tok>, m: Mode): seq<Tok> {
    if ts == [] then []
    else
      var t, rest := ts[0], ts[1..];
      if m.Pass? then [t] + Stripped(rest, if t.kind == NEWLINE then Wait([]) else Pass)
      else if !Held(t) then [t] + Stripped(rest, m)
      else if Layout(t) || t.kind == STRING then Stripped(rest, Wait(m.stack + [t]))
      else if t.kind == NEWLINE then Blanked(m.stack + [t]) + Stripped(rest, Wait([]))
      else (m.stack + [t]) + Stripped(rest, Pass)
  }

  /** Rows do not go back. */
  ghost predicate RowsGrow(ts: seq<Tok>) {
    && (forall i, j | 0 <= i <= j < |ts| :: ts[i].row <= ts[j].row)
    && (forall i {:trigger ts[i]} | 0 <= i < |ts| :: ts[i].row <= ts[i].endRow)
  }

  method Blank(stack: seq<Tok>) returns (out: seq<Tok>)
    requires stack != [] && stack[0].row <= stack[|stack| - 1].endRow
    ensures out == Blanked(stack)
    ensures forall t | t in out ::
              if t.kind == NL then stack[0].row <= t.row <= stack[|stack| - 1].endRow
              else Layout(t) && t.row == t.endRow == stack[|stack| - 1].endRow + 1
  {
    out := [];
    var first, last := stack[0].row, stack[|stack| - 1].endRow;
    hide Lines, Relaid, Layout, Lining, Relaying;
    assert Lining(out, first, first, last) by { LiningStarts(first, last); }
    for i := first to last + 1
      invariant Lining(out, i, first, last)
    {
      LinesFirst(out, i, first, last);
      out := out + [Tok(NL, "\n", i, 0, i, 1)];
    }
    RelayingStarts(out, stack, first, last);
    for k := 0 to |stack|
      invariant Relaying(out, stack, k, first, last)
    {
      var t := stack[k];
      RelaidFirst(out, stack, k, first, last);
      if Layout(t) { out := out + [t.(row := last + 1, endRow := last + 1)]; }
    }
    RelayingEnds(out, stack, first, last);
    BlankedRows(stack);
  }

  /** The rows from `i` on are still to come. */
  ghost predicate Lining(out: seq<Tok>, i: nat, first: nat, last: nat) {
    out + Lines(i, last) == Lines(first, last)
  }

  /** The layout from the `k`th token on is. */
  ghost predicate Relaying(out: seq<Tok>, stack: seq<Tok>, k: nat, first: nat, last: nat) {
    k <= |stack| && out + Relaid(stack[k..], last + 1) == Lines(first, last) + Relaid(stack, last + 1)
  }

  lemma LiningStarts(first: nat, last: nat)
    ensures Lining([], first, first, last)
  {
    assert [] + Lines(first, last) == Lines(first, last);
  }

  lemma LinesFirst(out: seq<Tok>, i: nat, first: nat, last: nat)
    requires i <= last && Lining(out, i, first, last)
    ensures Lining(out + [Tok(NL, "\n", i, 0, i, 1)], i + 1, first, last)
  {
    ConcatAssoc(out, [Tok(NL, "\n", i, 0, i, 1)], Lines(i + 1, last));
  }

  lemma RelayingStarts(out: seq<Tok>, stack: seq<Tok>, first: nat, last: nat)
    requires Lining(out, last + 1, first, last)
    ensures Relaying(out, stack, 0, first, last)
  {
    assert Lines(last + 1, last) == [] && out + [] == out && stack[0..] == stack;
    hide Lines, Relaid;
  }

  lemma RelaidFirst(out: seq<Tok>, stack: seq<Tok>, k: nat, first: nat, last: nat)
    requires k < |stack| && Relaying(out, stack, k, first, last)
    ensures var t := stack[k];
            Relaying(if Layout(t) then out + [t.(row := last + 1, endRow := last + 1)] else out, stack, k + 1, first, last)
  {
    var t := stack[k];
    var here := if Layout(t) then [t.(row := last + 1, endRow := last + 1)] else [];
    assert stack[k..][0] == t && stack[k..][1..] == stack[k + 1..];
    assert Relaid(stack[k..], last + 1) == here + Relaid(stack[k + 1..], last + 1);
    hide Relaid, Lines, Layout;
    ConcatAssoc(out, here, Relaid(stack[k + 1..], last + 1));
    assert out + [] == out;
  }

  lemma RelayingEnds(out: seq<Tok>, stack: seq<Tok>, first: nat, last: nat)
    requires Relaying(out, stack, |stack|, first, last)
    ensures out == Lines(first, last) + Relaid(stack, last + 1)
  {
    assert stack[|stack|..] == [] && Relaid([], last + 1) == [] && out + [] == out;
    hide Lines, Relaid;
  }

  lemma BlankedRows(stack: seq<Tok>)
    requires stack != []
    ensures forall t | t in Blanked(stack) ::
              if t.kind == NL then stack[0].row <= t.row <= stack[|stack| - 1].endRow
              else Layout(t) && t.row == t.endRow == stack[|stack| - 1].endRow + 1
  {
    LinesAre(stack[0].row, stack[|stack| - 1].endRow);
    RelaidAre(stack, stack[|stack| - 1].endRow + 1);
    hide Lines, Relaid;
  }

  /** The pass, token by token. */
  method StripDocstrings(ts: seq<Tok>) returns (out: seq<Tok>)
    requires RowsGrow(ts)
    ensures out == Stripped(ts, Wait([]))
  {
    out := [];
    var stack: seq<Tok> := [];
    var waitString := true;
    assert ts[0..] == ts;
    assert Doing(ts, 0, Wait([]), out);
    hide Stripped, Blanked, Doing;
    for i := 0 to |ts|
      invariant Doing(ts, i, if waitString then Wait(stack) else Pass, out)
      invariant forall s | s in stack :: s in ts[..i]
    {
      var t := ts[i];
      DoOne(ts, i, if waitString then Wait(stack) else Pass, out);
      assert ts[..i + 1] == ts[..i] + [t];
      if waitString {
        if t.kind == NL || t.kind == COMMENT {
          out := out + [t];
        } else if Layout(t) || t.kind == STRING {
          stack := stack + [t];
        } else if t.kind == NEWLINE {
          HeldRows(ts, i, stack);
          stack := stack + [t];
          var blank := Blank(stack);
          out := out + blank;
          stack := [];
        } else {
          stack := stack + [t];
          out := out + stack;
          stack := [];
          waitString := false;
        }
      } else {
        if t.kind == NEWLINE { waitString := true; stack := []; }
        out := out + [t];
      }
    }
    AllDone(ts, if waitString then Wait(stack) else Pass, out);
  }

  ghost predicate Doing(ts: seq<Tok>, i: nat, m: Mode, out: seq<Tok>) {
    i <= |ts| && out + Stripped(ts[i..], m) == Stripped(ts, Wait([]))
  }

  lemma AllDone(ts: seq<Tok>, m: Mode, out: seq<Tok>)
    requires Doing(ts, |ts|, m, out)
    ensures out == Stripped(ts, Wait([]))
  {
    assert ts[|ts|..] == [] && Stripped([], m) == [];
  }

  lemma DoOne(ts: seq<Tok>, i: nat, m: Mode, out: seq<Tok>)
    requires i < |ts| && Doing(ts, i, m, out)
    ensures var t := ts[i];
            if m.Pass? then Doing(ts, i + 1, if t.kind == NEWLINE then Wait([]) else Pass, out + [t])
            else if !Held(t) then Doing(ts, i + 1, m, out + [t])
            else if Layout(t) || t.kind == STRING then Doing(ts, i + 1, Wait(m.stack + [t]), out)
            else if t.kind == NEWLINE then Doing(ts, i + 1, Wait([]), out + Blanked(m.stack + [t]))
            else Doing(ts, i + 1, Pass, out + (m.stack + [t]))
  {
    assert ts[i..][0] == ts[i] && ts[i..][1..] == ts[i + 1..];
  }

  lemma HeldRows(ts: seq<Tok>, i: nat, stack: seq<Tok>)
    requires RowsGrow(ts) && i < |ts| && forall s | s in stack :: s in ts[..i]
    ensures (stack + [ts[i]])[0].row <= ts[i].endRow
  {
    if stack != [] {
      assert stack[0] in ts[..i];
      var k :| 0 <= k < i && ts[..i][k] == stack[0];
    }
  }

  // ---- What strip_docstrings keeps ------------------------------------------------------------------

  lemma {:induction false} LinesTrace(c: View, d: bool, first: nat, last: nat)
    ensures Trace(c, d, Lines(first, last)) == []
    decreases last + 1 - first
  {
    if first <= last {
      LinesTrace(c, d, first + 1, last);
      assert Lines(first, last)[1..] == Lines(first + 1, last);
    }
  }

  lemma {:induction false} RelaidTrace(c: View, d: bool, stack: seq<Tok>, row: nat)
    requires forall t | t in stack :: Held(t)
    ensures Trace(c, d, Relaid(stack, row)) == Trace(c, true, stack)
  {
    if stack != [] {
      assert stack[0] in stack && forall t | t in stack[1..] :: t in stack;
      RelaidTrace(c, d, stack[1..], row);
      if Layout(stack[0]) {
        var t := stack[0].(row := row, endRow := row);
        TraceAppend(c, d, [t], Relaid(stack[1..], row));
        TraceOne(c, d, t);
      } else {
        assert Relaid(stack, row) == Relaid(stack[1..], row);
      }
    }
  }

  lemma BlankedTrace(c: View, d: bool, stack: seq<Tok>)
    requires stack != [] && forall t | t in stack :: Held(t)
    ensures Trace(c, d, Blanked(stack)) == Trace(c, true, stack)
  {
    var last := stack[|stack| - 1].endRow;
    hide Trace, Lines, Relaid;
    TraceAppend(c, d, Lines(stack[0].row, last), Relaid(stack, last + 1));
    LinesTrace(c, d, stack[0].row, last);
    RelaidTrace(c, d, stack, last + 1);
    assert [] + Trace(c, true, stack) == Trace(c, true, stack);
    hide Layout, Held;
  }

  /** Some comment of the first two rows comes before the line's first OTHER or its end. */
  predicate CommentAhead(ts: seq<Tok>) {
    ts != [] && ts[0].kind != OTHER && ts[0].kind != NEWLINE && (Kept(ts[0]) || CommentAhead(ts[1..]))
  }

  /** In the first line, nothing that is held back and survives comes before such a comment. */
  predicate CalmLine(dropped: bool, ts: seq<Tok>) {
    ts == [] || ts[0].kind == OTHER || ts[0].kind == NEWLINE ||
    (CalmLine(dropped, ts[1..]) && (Held(ts[0]) && (!dropped || Layout(ts[0])) ==> !CommentAhead(ts[1..])))
  }

  /** No comment of the first two rows stands, on its line, after layout or after a string that is
      not dropped, and before any other code. */
  predicate Calm(ts: seq<Tok>)
    decreases |ts|
  {
    ts == [] || (CalmLine(OnlyStrings(ts), ts) && Calm(Rest(ts)))
  }

  /** The tokens still to come, after the tokens of the same line that are held back. */
  function Expected(c: View, stack: seq<Tok>, ts: seq<Tok>): seq<Mark> {
    Trace(c, OnlyStrings(ts), stack) + (Line(c, OnlyStrings(ts), ts) + Skeleton(c, Rest(ts)))
  }

  predicate Orderly(c: View, stack: seq<Tok>, ts: seq<Tok>) {
    c.comments ==>
      && (Trace(Code, OnlyStrings(ts), stack) != [] ==> !CommentAhead(ts))
      && CalmLine(OnlyStrings(ts), ts) && Calm(Rest(ts))
  }

  predicate Waiting(stack: seq<Tok>) { forall t | t in stack :: Layout(t) || t.kind == STRING }

  lemma {:induction false} PassTrace(c: View, ts: seq<Tok>)
    ensures Trace(c, false, Stripped(ts, Pass)) == Line(c, false, ts) + Trace(c, false, Stripped(Rest(ts), Wait([])))
  {
    if ts != [] {
      var m := if ts[0].kind == NEWLINE then Wait([]) else Pass;
      ConcatTail([ts[0]], Stripped(ts[1..], m));
      if ts[0].kind != NEWLINE {
        PassTrace(c, ts[1..]);
        ConcatAssoc(Part(c, false, ts[0]), Line(c, false, ts[1..]),
                    Trace(c, false, Stripped(Rest(ts[1..]), Wait([]))));
      }
    }
  }

  lemma {:induction false} HeldTrace(c: View, dropped: bool, stack: seq<Tok>)
    requires Waiting(stack)
    ensures Trace(c, dropped, stack) == [] <==> Trace(Code, dropped, stack) == []
    ensures forall i | 0 <= i < |Trace(c, dropped, stack)| :: Trace(c, dropped, stack)[i].kind != COMMENT
  {
    if stack != [] { HeldTrace(c, dropped, stack[1..]); }
  }

  /** Equal beginnings leave the ends to decide. */
  lemma SameStart<T>(a: seq<T>, x: seq<T>, y: seq<T>)
    ensures a + x == a + y <==> x == y
  {
    if a + x == a + y {
      assert x == (a + x)[|a|..] && y == (a + y)[|a|..];
    }
  }

  /** All code and layout, in one sequence, are kept as they should be; with the comments in the same
      sequence, they are if and only if these do not get ahead of anything. */
  lemma {:induction false} StrippedFrom(c: View, ts: seq<Tok>, stack: seq<Tok>)
    requires ts != [] && ts[|ts| - 1].kind == OTHER && Waiting(stack)
    ensures Trace(c, false, Stripped(ts, Wait(stack))) == Expected(c, stack, ts) <==> Orderly(c, stack, ts)
    decreases |ts|
  {
    var t := ts[0];
    if !Held(t) {
      StrippedFrom(c, ts[1..], stack);
      StrippedLoose(c, ts, stack);
    } else if Layout(t) || t.kind == STRING {
      StrippedFrom(c, ts[1..], stack + [t]);
      StrippedHeld(c, ts, stack);
    } else if t.kind == NEWLINE {
      StrippedFrom(c, ts[1..], []);
      StrippedNewline(c, ts, stack);
    } else {
      if Rest(ts) != [] { RestEnds(ts); StrippedFrom(c, Rest(ts), []); }
      StrippedOther(c, ts, stack);
    }
  }

  lemma {:induction false} RestEnds(ts: seq<Tok>)
    requires ts != [] && ts[|ts| - 1].kind == OTHER
    ensures Rest(ts) != [] ==> Rest(ts)[|Rest(ts)| - 1].kind == OTHER
  {
    if ts[0].kind != NEWLINE && |ts| > 1 { RestEnds(ts[1..]); }
  }

  lemma FirstToken(c: View, dropped: bool, ts: seq<Tok>)
    requires ts != [] && ts[0].kind != NEWLINE
    ensures Line(c, dropped, ts) == Part(c, dropped, ts[0]) + Line(c, dropped, ts[1..]) && Rest(ts) == Rest(ts[1..])
    ensures OnlyStrings(ts) <==> ts[0].kind != OTHER && OnlyStrings(ts[1..])
  {
  }

  lemma LooseOut(c: View, ts: seq<Tok>, stack: seq<Tok>)
    requires ts != [] && !Held(ts[0])
    ensures Trace(c, false, Stripped(ts, Wait(stack)))
         == Part(c, false, ts[0]) + Trace(c, false, Stripped(ts[1..], Wait(stack)))
  {
    ConcatTail([ts[0]], Stripped(ts[1..], Wait(stack)));
  }

  lemma LooseExpected(c: View, ts: seq<Tok>, stack: seq<Tok>)
    requires ts != [] && !Held(ts[0])
    ensures var d := OnlyStrings(ts); var more := Line(c, d, ts[1..]) + Skeleton(c, Rest(ts[1..]));
            && OnlyStrings(ts[1..]) == d
            && Expected(c, stack, ts) == Trace(c, d, stack) + (Part(c, d, ts[0]) + more)
            && Expected(c, stack, ts[1..]) == Trace(c, d, stack) + more
  {
    var d := OnlyStrings(ts);
    FirstToken(c, d, ts);
    hide Line, Rest, OnlyStrings, Skeleton, Trace, Part;
    ConcatAssoc(Part(c, d, ts[0]), Line(c, d, ts[1..]), Skeleton(c, Rest(ts[1..])));
  }

  lemma LooseOrderly(c: View, ts: seq<Tok>, stack: seq<Tok>)
    requires ts != [] && !Held(ts[0])
    ensures Orderly(c, stack, ts) <==>
              Orderly(c, stack, ts[1..]) && (c.comments && Kept(ts[0]) ==> Trace(Code, OnlyStrings(ts), stack) == [])
  {
    FirstToken(c, OnlyStrings(ts), ts);
    hide Line, Rest, OnlyStrings, Trace, Part, Calm;
  }

  /** One element that may have to pass what is held. */
  lemma Passing<T>(held: seq<T>, e: T, out: seq<T>, more: seq<T>)
    requires forall i | 0 <= i < |held| :: held[i] != e
    ensures [e] + out == held + ([e] + more) <==> held == [] && out == more
  {
    if held == [] {
      assert held + ([e] + more) == [e] + more;
      SameStart([e], out, more);
    } else {
      assert (held + ([e] + more))[0] == held[0] && ([e] + out)[0] == e;
    }
  }

  lemma StrippedLoose(c: View, ts: seq<Tok>, stack: seq<Tok>)
    requires ts != [] && !Held(ts[0]) && Waiting(stack)
    requires Trace(c, false, Stripped(ts[1..], Wait(stack))) == Expected(c, stack, ts[1..]) <==> Orderly(c, stack, ts[1..])
    ensures Trace(c, false, Stripped(ts, Wait(stack))) == Expected(c, stack, ts) <==> Orderly(c, stack, ts)
  {
    var t, rest, d := ts[0], ts[1..], OnlyStrings(ts);
    var out, held := Trace(c, false, Stripped(rest, Wait(stack))), Trace(c, d, stack);
    var more := Line(c, d, rest) + Skeleton(c, Rest(rest));
    LooseOut(c, ts, stack);
    LooseExpected(c, ts, stack);
    LooseOrderly(c, ts, stack);
    HeldTrace(c, d, stack);
    hide Trace, Line, Skeleton, Orderly, Expected, Stripped, OnlyStrings, Rest;
    if c.comments && Kept(t) {
      Passing(held, Essence(c, t), out, more);
      if held == [] { assert held + more == more; }
    } else {
      assert [] + more == more && [] + out == out;
    }
  }

  lemma HeldOrderly(c: View, ts: seq<Tok>, stack: seq<Tok>)
    requires ts != [] && (Layout(ts[0]) || ts[0].kind == STRING)
    ensures Orderly(c, stack, ts) <==> Orderly(c, stack + [ts[0]], ts[1..])
  {
    var t, d := ts[0], OnlyStrings(ts);
    FirstToken(c, d, ts);
    TraceAppend(Code, d, stack, [t]);
    TraceOne(Code, d, t);
    hide Line, Rest, OnlyStrings, Trace, Calm;
  }

  lemma StrippedHeld(c: View, ts: seq<Tok>, stack: seq<Tok>)
    requires ts != [] && (Layout(ts[0]) || ts[0].kind == STRING)
    requires Trace(c, false, Stripped(ts[1..], Wait(stack + [ts[0]]))) == Expected(c, stack + [ts[0]], ts[1..])
             <==> Orderly(c, stack + [ts[0]], ts[1..])
    ensures Trace(c, false, Stripped(ts, Wait(stack))) == Expected(c, stack, ts) <==> Orderly(c, stack, ts)
  {
    var t, rest, d := ts[0], ts[1..], OnlyStrings(ts);
    assert Stripped(ts, Wait(stack)) == Stripped(rest, Wait(stack + [t]));
    FirstToken(c, d, ts);
    HeldOrderly(c, ts, stack);
    TraceAppend(c, d, stack, [t]);
    TraceOne(c, d, t);
    hide Trace, Line, Skeleton, Orderly, Stripped, OnlyStrings, Rest, Part;
    ConcatAssoc(Part(c, d, t), Line(c, d, rest), Skeleton(c, Rest(rest)));
    ConcatAssoc(Trace(c, d, stack), Part(c, d, t), Line(c, d, rest) + Skeleton(c, Rest(rest)));
  }

  lemma NewlineOut(c: View, ts: seq<Tok>, stack: seq<Tok>)
    requires ts != [] && ts[0].kind == NEWLINE && Waiting(stack)
    ensures Trace(c, false, Stripped(ts, Wait(stack)))
         == Trace(c, true, stack) + Trace(c, false, Stripped(ts[1..], Wait([])))
  {
    var t, out := ts[0], Stripped(ts[1..], Wait([]));
    assert Stripped(ts, Wait(stack)) == Blanked(stack + [t]) + out;
    hide Trace, Blanked, Stripped;
    BlankedTrace(c, false, stack + [t]);
    TraceAppend(c, true, stack, [t]);
    TraceOne(c, true, t);
    TraceAppend(c, false, Blanked(stack + [t]), out);
    assert Trace(c, true, stack) + [] == Trace(c, true, stack);
  }

  lemma StrippedNewline(c: View, ts: seq<Tok>, stack: seq<Tok>)
    requires ts != [] && ts[0].kind == NEWLINE && Waiting(stack)
    requires Trace(c, false, Stripped(ts[1..], Wait([]))) == Expected(c, [], ts[1..]) <==> Orderly(c, [], ts[1..])
    ensures Trace(c, false, Stripped(ts, Wait(stack))) == Expected(c, stack, ts) <==> Orderly(c, stack, ts)
  {
    var rest := ts[1..];
    assert OnlyStrings(ts) && Rest(ts) == rest && Line(c, true, ts) == [];
    assert Orderly(c, stack, ts) <==> (c.comments ==> Calm(rest));
    assert [] + Skeleton(c, rest) == Skeleton(c, rest);
    NewlineOut(c, ts, stack);
    FromStart(c, rest);
    hide Trace, Line, Skeleton, Orderly, Stripped, OnlyStrings, Rest;
    SameStart(Trace(c, true, stack), Trace(c, false, Stripped(rest, Wait([]))), Skeleton(c, rest));
  }

  lemma TraceNone(c: View, dropped: bool)
    ensures Trace(c, dropped, []) == []
  {
  }

  lemma NoLine(c: View)
    ensures Line(c, OnlyStrings([]), []) == [] && Rest([]) == [] && CalmLine(OnlyStrings([]), [])
  {
  }

  lemma FromStart(c: View, ts: seq<Tok>)
    ensures Expected(c, [], ts) == Skeleton(c, ts)
    ensures Orderly(c, [], ts) <==> (c.comments ==> Calm(ts))
  {
    TraceNone(c, OnlyStrings(ts));
    TraceNone(Code, OnlyStrings(ts));
    hide Trace, Line, OnlyStrings, Rest, CalmLine, CommentAhead;
    assert [] + (Line(c, OnlyStrings(ts), ts) + Skeleton(c, Rest(ts)))
        == Line(c, OnlyStrings(ts), ts) + Skeleton(c, Rest(ts));
    if ts == [] { NoLine(c); }
  }

  lemma OtherOut(c: View, ts: seq<Tok>, stack: seq<Tok>)
    requires ts != [] && ts[0].kind == OTHER
    ensures Trace(c, false, Stripped(ts, Wait(stack)))
         == Trace(c, false, stack) + (Line(c, false, ts) + Trace(c, false, Stripped(Rest(ts), Wait([]))))
  {
    var t, rest := ts[0], ts[1..];
    var last := Trace(c, false, Stripped(Rest(rest), Wait([])));
    TraceAppend(c, false, stack + [t], Stripped(rest, Pass));
    TraceAppend(c, false, stack, [t]);
    TraceOne(c, false, t);
    PassTrace(c, rest);
    FirstToken(c, false, ts);
    assert Stripped(ts, Wait(stack)) == (stack + [t]) + Stripped(rest, Pass);
    hide Trace, Line, Stripped, Rest, Part;
    ConcatAssoc(Trace(c, false, stack), Part(c, false, t), Line(c, false, rest) + last);
    ConcatAssoc(Part(c, false, t), Line(c, false, rest), last);
  }

  lemma StrippedOther(c: View, ts: seq<Tok>, stack: seq<Tok>)
    requires ts != [] && ts[0].kind == OTHER
    requires Rest(ts) != [] ==>
               (Trace(c, false, Stripped(Rest(ts), Wait([]))) == Expected(c, [], Rest(ts)) <==> Orderly(c, [], Rest(ts)))
    ensures Trace(c, false, Stripped(ts, Wait(stack))) == Expected(c, stack, ts) <==> Orderly(c, stack, ts)
  {
    var rest, held, line := Rest(ts), Trace(c, false, stack), Line(c, false, ts);
    var last := Trace(c, false, Stripped(rest, Wait([])));
    assert !OnlyStrings(ts) && (Orderly(c, stack, ts) <==> (c.comments ==> Calm(rest)));
    assert rest == [] ==> last == [] && Skeleton(c, rest) == [] && Calm(rest);
    OtherOut(c, ts, stack);
    FromStart(c, rest);
    hide Trace, Line, Skeleton, Orderly, Stripped, OnlyStrings, Rest, Calm;
    SameStart(held, line + last, line + Skeleton(c, rest));
    SameStart(line, last, Skeleton(c, rest));
  }

  /** strip_docstrings keeps all code outside string-only lines and all layout, each where it stands
      among the others. */
  lemma StripKeepsOrder(c: View, ts: seq<Tok>)
    requires !c.comments && ts != [] && ts[|ts| - 1].kind == OTHER
    ensures Trace(c, false, Stripped(ts, Wait([]))) == Skeleton(c, ts)
  {
    StrippedFrom(c, ts, []);
    FromStart(c, ts);
  }

  /** It keeps the comments of the first two rows where they stand among the rest if and only if
      none of them comes after layout or a string that is held back. */
  lemma StripKeepsCommentsIff(ts: seq<Tok>)
    requires ts != [] && ts[|ts| - 1].kind == OTHER
    ensures Trace(WithComments, false, Stripped(ts, Wait([]))) == Skeleton(WithComments, ts) <==> Calm(ts)
  {
    StrippedFrom(WithComments, ts, []);
    FromStart(WithComments, ts);
  }

  predicate IsComment(t: Tok) { t.kind == COMMENT }

  /** Comments are all kept, in their order. */
  lemma {:induction false} StrippedComments(ts: seq<Tok>, m: Mode)
    requires m.Wait? ==> Waiting(m.stack)
    requires ts != [] ==> ts[|ts| - 1].kind == OTHER
    ensures Filter(IsComment, Stripped(ts, m)) == Filter(IsComment, ts)
    decreases |ts|
  {
    if ts != [] {
      var t, rest := ts[0], ts[1..];
      if m.Pass? {
        var m1 := if t.kind == NEWLINE then Wait([]) else Pass;
        StrippedComments(rest, m1);
        FilterCons(IsComment, t, Stripped(rest, m1));
      } else if !Held(t) {
        StrippedComments(rest, m);
        FilterCons(IsComment, t, Stripped(rest, m));
      } else if Layout(t) || t.kind == STRING {
        StrippedComments(rest, Wait(m.stack + [t]));
      } else if t.kind == NEWLINE {
        StrippedComments(rest, Wait([]));
        FilterAppend(IsComment, Blanked(m.stack + [t]), Stripped(rest, Wait([])));
        BlankedNoComment(m.stack + [t]);
      } else {
        StrippedComments(rest, Pass);
        FilterAppend(IsComment, m.stack + [t], Stripped(rest, Pass));
        FilterNone(IsComment, m.stack + [t]);
      }
      FilterCons(IsComment, t, rest);
    }
  }

  lemma FilterCons(p: Tok -> bool, t: Tok, ts: seq<Tok>)
    ensures Filter(p, [t] + ts) == (if p(t) then [t] else []) + Filter(p, ts)
    ensures ts == ([t] + ts)[1..]
  {
  }

  lemma {:induction false} FilterNone(p: Tok -> bool, ts: seq<Tok>)
    requires forall t | t in ts :: !p(t)
    ensures Filter(p, ts) == []
  {
    if ts != [] { FilterNone(p, ts[1..]); }
  }

  lemma BlankedNoComment(stack: seq<Tok>)
    requires stack != []
    ensures Filter(IsComment, Blanked(stack)) == []
  {
    var last := stack[|stack| - 1].endRow;
    LinesAre(stack[0].row, last);
    RelaidAre(stack, last + 1);
    FilterNone(IsComment, Blanked(stack));
  }

  // ---- Ends of lines --------------------------------------------------------------------------------

  /** The rows on which lines end. */
  function Ends(ts: seq<Tok>): multiset<nat> {
    if ts == [] then multiset{} else (if LineEnd(ts[0]) then multiset{ts[0].row} else multiset{}) + Ends(ts[1..])
  }

  function RowsFrom(first: nat, last: nat): multiset<nat>
    decreases last + 1 - first
  {
    if first > last then multiset{} else multiset{first} + RowsFrom(first + 1, last)
  }

  /** The rows on which they are to end, the first held token of the current line being on row `first` if
      there is one so far: a string-only line gives way to an end on each of its rows. */
  function EndsKept(ts: seq<Tok>, first: Option<nat>, dropped: bool): multiset<nat>
    decreases |ts|
  {
    if ts == [] then multiset{}
    else
      var t, rest := ts[0], ts[1..];
      var now := if first.None? && Held(t) then Some(t.row) else first;
      if t.kind == NEWLINE then
        (if dropped then RowsFrom(now.value, t.endRow) else multiset{t.row}) + EndsKept(rest, None, OnlyStrings(rest))
      else (if t.kind == NL then multiset{t.row} else multiset{}) + EndsKept(rest, now, dropped)
  }

  lemma {:induction false} EndsAppend(a: seq<Tok>, b: seq<Tok>)
    ensures Ends(a + b) == Ends(a) + Ends(b)
  {
    if a == [] {
      assert a + b == b;
    } else {
      ConcatTail(a, b);
      EndsAppend(a[1..], b);
    }
  }

  lemma {:induction false} LinesEnds(first: nat, last: nat)
    ensures Ends(Lines(first, last)) == RowsFrom(first, last)
    decreases last + 1 - first
  {
    if first <= last {
      LinesEnds(first + 1, last);
      assert Lines(first, last)[1..] == Lines(first + 1, last);
    }
  }

  lemma {:induction false} NoEnds(ts: seq<Tok>)
    requires forall t | t in ts :: !LineEnd(t)
    ensures Ends(ts) == multiset{}
  {
    if ts != [] {
      assert ts[0] in ts && forall t | t in ts[1..] :: t in ts;
      NoEnds(ts[1..]);
    }
  }

  lemma BlankedEnds(stack: seq<Tok>)
    requires stack != []
    ensures Ends(Blanked(stack)) == RowsFrom(stack[0].row, stack[|stack| - 1].endRow)
  {
    var last := stack[|stack| - 1].endRow;
    hide Ends, Lines, Relaid;
    EndsAppend(Lines(stack[0].row, last), Relaid(stack, last + 1));
    LinesEnds(stack[0].row, last);
    RelaidNoEnds(stack, last + 1);
  }

  lemma RelaidNoEnds(stack: seq<Tok>, row: nat)
    ensures Ends(Relaid(stack, row)) == multiset{}
  {
    RelaidAre(stack, row);
    hide Relaid, Ends;
    NoEnds(Relaid(stack, row));
  }

  function FirstRow(stack: seq<Tok>): Option<nat> { if stack == [] then None else Some(stack[0].row) }

  lemma TailEnds(ts: seq<Tok>)
    requires ts != [] && ts[|ts| - 1].kind == OTHER
    ensures ts[1..] != [] ==> ts[1..][|ts[1..]| - 1].kind == OTHER
  {
  }

  lemma {:induction false} PassEnds(ts: seq<Tok>, first: Option<nat>)
    requires ts != [] ==> ts[|ts| - 1].kind == OTHER
    ensures Ends(Stripped(ts, Pass)) == EndsKept(ts, first, false)
    decreases |ts|, 1
  {
    if ts != [] {
      var t := ts[0];
      ConcatTail([t], Stripped(ts[1..], if t.kind == NEWLINE then Wait([]) else Pass));
      TailEnds(ts);
      if t.kind == NEWLINE {
        WaitEnds(ts[1..], []);
      } else {
        PassEnds(ts[1..], if first.None? && Held(t) then Some(t.row) else first);
      }
    }
  }

  lemma LooseEnds(ts: seq<Tok>, stack: seq<Tok>)
    requires ts != [] && !Held(ts[0])
    requires Ends(Stripped(ts[1..], Wait(stack))) == EndsKept(ts[1..], FirstRow(stack), OnlyStrings(ts[1..]))
    ensures Ends(Stripped(ts, Wait(stack))) == EndsKept(ts, FirstRow(stack), OnlyStrings(ts))
  {
    var t, rest := ts[0], ts[1..];
    assert Stripped(ts, Wait(stack)) == [t] + Stripped(rest, Wait(stack)) && OnlyStrings(ts) == OnlyStrings(rest);
    hide Stripped, OnlyStrings;
    ConcatTail([t], Stripped(rest, Wait(stack)));
  }

  lemma HeldEnds(ts: seq<Tok>, stack: seq<Tok>)
    requires ts != [] && (Layout(ts[0]) || ts[0].kind == STRING)
    requires Ends(Stripped(ts[1..], Wait(stack + [ts[0]]))) == EndsKept(ts[1..], FirstRow(stack + [ts[0]]), OnlyStrings(ts[1..]))
    ensures Ends(Stripped(ts, Wait(stack))) == EndsKept(ts, FirstRow(stack), OnlyStrings(ts))
  {
    assert Stripped(ts, Wait(stack)) == Stripped(ts[1..], Wait(stack + [ts[0]])) && OnlyStrings(ts) == OnlyStrings(ts[1..]);
    hide Stripped, OnlyStrings, Ends;
  }

  lemma NewlineKept(ts: seq<Tok>, stack: seq<Tok>)
    requires ts != [] && ts[0].kind == NEWLINE
    ensures EndsKept(ts, FirstRow(stack), true)
         == RowsFrom((stack + [ts[0]])[0].row, ts[0].endRow) + EndsKept(ts[1..], None, OnlyStrings(ts[1..]))
  {
    hide OnlyStrings, RowsFrom;
  }

  lemma NewlineEnds(ts: seq<Tok>, stack: seq<Tok>)
    requires ts != [] && ts[0].kind == NEWLINE
    requires Ends(Stripped(ts[1..], Wait([]))) == EndsKept(ts[1..], None, OnlyStrings(ts[1..]))
    ensures Ends(Stripped(ts, Wait(stack))) == EndsKept(ts, FirstRow(stack), OnlyStrings(ts))
  {
    var t, rest := ts[0], ts[1..];
    assert Stripped(ts, Wait(stack)) == Blanked(stack + [t]) + Stripped(rest, Wait([])) && OnlyStrings(ts);
    hide Stripped, Ends, Blanked, OnlyStrings;
    NewlineKept(ts, stack);
    hide EndsKept, RowsFrom, FirstRow;
    BlankedEnds(stack + [t]);
    EndsAppend(Blanked(stack + [t]), Stripped(rest, Wait([])));
  }

  lemma OtherKept(ts: seq<Tok>, stack: seq<Tok>)
    requires ts != [] && ts[0].kind == OTHER
    ensures EndsKept(ts, FirstRow(stack), false) == EndsKept(ts[1..], FirstRow(stack + [ts[0]]), false)
  {
  }

  lemma OtherEnds(ts: seq<Tok>, stack: seq<Tok>)
    requires ts != [] && ts[0].kind == OTHER && Waiting(stack)
    requires Ends(Stripped(ts[1..], Pass)) == EndsKept(ts[1..], FirstRow(stack + [ts[0]]), false)
    ensures Ends(Stripped(ts, Wait(stack))) == EndsKept(ts, FirstRow(stack), OnlyStrings(ts))
  {
    var t, rest := ts[0], ts[1..];
    assert Stripped(ts, Wait(stack)) == (stack + [t]) + Stripped(rest, Pass) && !OnlyStrings(ts);
    hide Stripped, Ends, OnlyStrings;
    OtherKept(ts, stack);
    hide EndsKept, FirstRow;
    NoEnds(stack + [t]);
    EndsAppend(stack + [t], Stripped(rest, Pass));
  }

  /** strip_docstrings keeps the ends of lines as it should. */
  lemma {:induction false} WaitEnds(ts: seq<Tok>, stack: seq<Tok>)
    requires Waiting(stack) && (ts != [] ==> ts[|ts| - 1].kind == OTHER)
    ensures Ends(Stripped(ts, Wait(stack))) == EndsKept(ts, FirstRow(stack), OnlyStrings(ts))
    decreases |ts|, 0
  {
    if ts != [] {
      var t, rest := ts[0], ts[1..];
      TailEnds(ts);
      hide Ends, Stripped, EndsKept, OnlyStrings;
      if !Held(t) {
        WaitEnds(rest, stack);
        LooseEnds(ts, stack);
      } else if Layout(t) || t.kind == STRING {
        WaitEnds(rest, stack + [t]);
        HeldEnds(ts, stack);
      } else if t.kind == NEWLINE {
        WaitEnds(rest, []);
        NewlineEnds(ts, stack);
      } else {
        PassEnds(rest, FirstRow(stack + [t]));
        OtherEnds(ts, stack);
      }
    } else {
      assert Stripped([], Wait(stack)) == [];
    }
  }

  lemma {:induction false} LinesAre(first: nat, last: nat)
    ensures forall t | t in Lines(first, last) :: t.kind == NL && first <= t.row <= last
    decreases last + 1 - first
  {
    if first <= last { LinesAre(first + 1, last); }
  }

  lemma {:induction false} RelaidAre(stack: seq<Tok>, row: nat)
    ensures forall t | t in Relaid(stack, row) :: Layout(t) && t.row == t.endRow == row
  {
    if stack != [] { RelaidAre(stack[1..], row); }
  }

  // ---- reindent -------------------------------------------------------------------------------------

  /** Every DEDENT has its INDENT, `depth` of them before the tokens start. */
  predicate Fits(ts: seq<Tok>, depth: nat) {
    if ts == [] then true
    else if ts[0].kind == INDENT then Fits(ts[1..], depth + 1)
    else if ts[0].kind == DEDENT then depth > 0 && Fits(ts[1..], depth - 1)
    else Fits(ts[1..], depth)
  }

  function Spaces(n: nat): string { seq(n, _ => ' ') }

  /** The state of the pass: the old widths of the levels around, and of the current one. */
  datatype Levels = Levels(outer: seq<nat>, width: nat)

  function Enter(t: Tok, l: Levels): Levels
    requires t.kind == DEDENT ==> l.outer != []
  {
    if t.kind == INDENT then Levels(l.outer + [l.width], |t.text|)
    else if t.kind == DEDENT then Levels(l.outer[..|l.outer| - 1], l.outer[|l.outer| - 1])
    else l
  }

  /** A token on a level that is now one space wide for each level around it. */
  function Moved(t: Tok, l: Levels): Tok {
    var text := if t.kind == INDENT then Spaces(|l.outer|) else t.text;
    var col := if t.col + |l.outer| < l.width then 0 else t.col + |l.outer| - l.width;
    t.(text := text, col := col, endCol := if t.row == t.endRow then col + |text| else t.endCol)
  }

  function Reindented(ts: seq<Tok>, l: Levels): (r: seq<Tok>)
    requires Fits(ts, |l.outer|)
    ensures |r| == |ts|
  {
    if ts == [] then []
    else var l1 := Enter(ts[0], l); [Moved(ts[0], l1)] + Reindented(ts[1..], l1)
  }

  lemma ReindentedFirst(ts: seq<Tok>, i: nat, l: Levels)
    requires i < |ts| && Fits(ts[i..], |l.outer|)
    ensures ts[i].kind == DEDENT ==> l.outer != []
    ensures var l1 := Enter(ts[i], l);
            Fits(ts[i + 1..], |l1.outer|) &&
            Reindented(ts[i..], l) == [Moved(ts[i], l1)] + Reindented(ts[i + 1..], l1)
  {
    assert ts[i..][0] == ts[i] && ts[i..][1..] == ts[i + 1..];
  }

  ghost predicate Reindenting(ts: seq<Tok>, i: nat, l: Levels, out: seq<Tok>) {
    && i <= |ts| && Fits(ts, 0) && Fits(ts[i..], |l.outer|)
    && out + Reindented(ts[i..], l) == Reindented(ts, Levels([], 0))
  }

  lemma ReindentedStep(ts: seq<Tok>, i: nat, l: Levels, out: seq<Tok>)
    requires i < |ts| && Reindenting(ts, i, l, out)
    ensures ts[i].kind == DEDENT ==> l.outer != []
    ensures var l1 := Enter(ts[i], l); Reindenting(ts, i + 1, l1, out + [Moved(ts[i], l1)])
  {
    ReindentedFirst(ts, i, l);
    hide Moved, Enter, Fits, Reindented;
  }

  method Reindent(ts: seq<Tok>) returns (out: seq<Tok>)
    requires Fits(ts, 0)
    ensures out == Reindented(ts, Levels([], 0))
  {
    out := [];
    assert ts[0..] == ts;
    var oldLevels: seq<nat>, oldLevel: nat, newLevel: nat := [], 0, 0;
    var i := 0;
    assert Reindenting(ts, 0, Levels([], 0), out);
    hide Reindenting, Reindented, Fits, Spaces, Moved, Enter;
    while i < |ts|
      invariant i <= |ts| && newLevel == |oldLevels|
      invariant Reindenting(ts, i, Levels(oldLevels, oldLevel), out)
    {
      var t := ts[i];
      ghost var l := Levels(oldLevels, oldLevel);
      ReindentedStep(ts, i, l, out);
      if t.kind == INDENT {
        oldLevels := oldLevels + [oldLevel];
        oldLevel := |t.text|;
        newLevel := newLevel + 1;
        t := t.(text := Spaces(newLevel));
      } else if t.kind == DEDENT {
        oldLevel := oldLevels[|oldLevels| - 1];
        oldLevels := oldLevels[..|oldLevels| - 1];
        newLevel := newLevel - 1;
      }
      var col := if t.col + newLevel < oldLevel then 0 else t.col + newLevel - oldLevel;
      t := t.(col := col);
      if t.row == t.endRow { t := t.(endCol := col + |t.text|); }
      assert Enter(ts[i], l) == Levels(oldLevels, oldLevel) by { EnterIs(ts[i], l); }
      assert t == Moved(ts[i], Levels(oldLevels, oldLevel)) by { MovedIs(ts[i], Levels(oldLevels, oldLevel)); }
      out := out + [t];
      i := i + 1;
    }
    ReindentedDone(ts, Levels(oldLevels, oldLevel), out);
  }

  lemma EnterIs(t: Tok, l: Levels)
    requires t.kind == DEDENT ==> l.outer != []
    ensures t.kind == INDENT ==> Enter(t, l) == Levels(l.outer + [l.width], |t.text|)
    ensures t.kind == DEDENT ==> Enter(t, l) == Levels(l.outer[..|l.outer| - 1], l.outer[|l.outer| - 1])
    ensures t.kind != INDENT && t.kind != DEDENT ==> Enter(t, l) == l
  {
  }

  lemma MovedIs(t: Tok, l: Levels)
    ensures var depth, m := |l.outer|, Moved(t, l);
            && m.kind == t.kind && m.row == t.row && m.endRow == t.endRow
            && m.text == (if t.kind == INDENT then Spaces(depth) else t.text)
            && m.col == (if t.col + depth < l.width then 0 else t.col + depth - l.width)
            && m.endCol == if t.row == t.endRow then m.col + |m.text| else t.endCol
  {
  }

  lemma ReindentedDone(ts: seq<Tok>, l: Levels, out: seq<Tok>)
    requires Reindenting(ts, |ts|, l, out)
    ensures Fits(ts, 0) && out == Reindented(ts, Levels([], 0))
  {
    assert out + Reindented(ts[|ts|..], l) == out;
  }

  function UpTo(n: nat): seq<nat> { seq(n, i => i) }

  lemma {:induction false} ReindentedFits(ts: seq<Tok>, l: Levels)
    requires Fits(ts, |l.outer|)
    ensures Fits(Reindented(ts, l), |l.outer|)
    ensures forall i | 0 <= i < |ts| :: Reindented(ts, l)[i].kind == ts[i].kind
  {
    if ts != [] {
      ReindentedFits(ts[1..], Enter(ts[0], l));
      assert Reindented(ts, l)[1..] == Reindented(ts[1..], Enter(ts[0], l));
    }
  }

  /** Doing it twice is doing it once. */
  lemma {:induction false} ReindentTwice(ts: seq<Tok>, l: Levels)
    requires Fits(ts, |l.outer|)
    ensures var once := Reindented(ts, l);
            Fits(once, |l.outer|) && Reindented(once, Levels(UpTo(|l.outer|), |l.outer|)) == once
  {
    ReindentedFits(ts, l);
    if ts != [] {
      var l1, once := Enter(ts[0], l), Reindented(ts, l);
      ReindentTwice(ts[1..], l1);
      assert once[1..] == Reindented(ts[1..], l1);
      MovedTwice(ts[0], l);
      hide Moved, Enter, UpTo;
    }
  }

  lemma MovedTwice(t: Tok, l: Levels)
    requires t.kind == DEDENT ==> l.outer != []
    ensures var l1 := Enter(t, l);
            var once := Moved(t, l1);
            && once.kind == t.kind
            && Enter(once, Levels(UpTo(|l.outer|), |l.outer|)) == Levels(UpTo(|l1.outer|), |l1.outer|)
            && Moved(once, Levels(UpTo(|l1.outer|), |l1.outer|)) == once
  {
  }

  /** Only widths change: kinds, rows and the text of everything but INDENT stay. */
  lemma {:induction false} ReindentKeeps(ts: seq<Tok>, l: Levels, i: nat)
    requires Fits(ts, |l.outer|) && i < |ts|
    ensures var t, t' := ts[i], Reindented(ts, l)[i];
            && t'.kind == t.kind && t'.row == t.row && t'.endRow == t.endRow
            && (t.kind != INDENT ==> t'.text == t.text)
  {
    if i > 0 { ReindentKeeps(ts[1..], Enter(ts[0], l), i - 1); }
  }

  // ---- All three ------------------------------------------------------------------------------------

  /** A token, but for where a line end stands. */
  function Content(t: Tok): Tok { if LineEnd(t) then t.(col := 0, endCol := 0) else t }

  ghost predicate SameContent(a: seq<Tok>, b: seq<Tok>) {
    |a| == |b| && forall i {:trigger a[i]} {:trigger b[i]} | 0 <= i < |a| :: Content(a[i]) == Content(b[i])
  }

  lemma RowsCons(t: Tok, rest: seq<Tok>)
    requires RowsGrow(rest) && t.row <= t.endRow && forall u | u in rest :: t.row <= u.row
    ensures RowsGrow([t] + rest)
  {
    var all := [t] + rest;
    forall i, j | 0 <= i <= j < |all| ensures all[i].row <= all[j].row {
      if i == 0 < j { assert all[j] in rest; }
    }
  }

  lemma {:induction false} FilterRows(p: Tok -> bool, ts: seq<Tok>)
    requires RowsGrow(ts)
    ensures RowsGrow(Filter(p, ts))
  {
    if ts != [] {
      assert RowsGrow(ts[1..]);
      FilterRows(p, ts[1..]);
      FilterIn(p, ts[1..]);
      var rest := Filter(p, ts[1..]);
      assert Filter(p, ts) == if p(ts[0]) then [ts[0]] + rest else rest;
      forall t | t in rest ensures ts[0].row <= t.row {
        var k :| 0 <= k < |ts[1..]| && ts[1..][k] == t;
        assert t == ts[k + 1];
      }
      assert ts[0].row <= ts[0].endRow;
      hide Filter, RowsGrow;
      RowsCons(ts[0], rest);
    }
  }

  lemma SameRows(a: seq<Tok>, b: seq<Tok>)
    requires SameContent(a, b) && RowsGrow(b)
    ensures RowsGrow(a)
  {
    forall i, j | 0 <= i <= j < |a| ensures a[i].row <= a[j].row {
      assert Content(a[i]) == Content(b[i]) && Content(a[j]) == Content(b[j]);
    }
  }

  lemma {:induction false} SameTrace(c: View, dropped: bool, a: seq<Tok>, b: seq<Tok>)
    requires SameContent(a, b)
    ensures Trace(c, dropped, a) == Trace(c, dropped, b)
    ensures Line(c, dropped, a) == Line(c, dropped, b) && SameContent(Rest(a), Rest(b))
    ensures OnlyStrings(a) == OnlyStrings(b) && CommentAhead(a) == CommentAhead(b)
    ensures CalmLine(dropped, a) == CalmLine(dropped, b)
    decreases |a|
  {
    if a != [] {
      assert Content(a[0]) == Content(b[0]);
      SameTrace(c, dropped, a[1..], b[1..]);
    }
  }

  lemma {:induction false} SameSkeleton(c: View, a: seq<Tok>, b: seq<Tok>)
    requires SameContent(a, b)
    ensures Skeleton(c, a) == Skeleton(c, b) && Calm(a) == Calm(b)
    decreases |a|
  {
    if a != [] {
      SameTrace(c, OnlyStrings(a), a, b);
      SameSkeleton(c, Rest(a), Rest(b));
    }
  }

  lemma LateFirst(ts: seq<Tok>)
    requires ts != []
    ensures Filter(Commented, ts) == if Commented(ts[0]) then [ts[0]] + Filter(Commented, ts[1..]) else Filter(Commented, ts[1..])
    ensures ([ts[0]] + Filter(Commented, ts[1..]))[1..] == Filter(Commented, ts[1..])
  {
    if !Commented(ts[0]) { assert [] + Filter(Commented, ts[1..]) == Filter(Commented, ts[1..]); }
  }

  /** Comments after row 2 have no part in any of this. */
  lemma {:induction false} LateComments(c: View, dropped: bool, ts: seq<Tok>)
    ensures var kept := Filter(Commented, ts);
            && Trace(c, dropped, kept) == Trace(c, dropped, ts)
            && Line(c, dropped, kept) == Line(c, dropped, ts) && Rest(kept) == Filter(Commented, Rest(ts))
            && OnlyStrings(kept) == OnlyStrings(ts)
  {
    if ts != [] {
      LateFirst(ts);
      LateComments(c, dropped, ts[1..]);
      hide Filter;
      if !Commented(ts[0]) {
        assert [] + Trace(c, dropped, ts[1..]) == Trace(c, dropped, ts[1..]);
        assert [] + Line(c, dropped, ts[1..]) == Line(c, dropped, ts[1..]);
      }
    }
  }

  lemma {:induction false} LateCalm(dropped: bool, ts: seq<Tok>)
    ensures CommentAhead(Filter(Commented, ts)) == CommentAhead(ts)
    ensures CalmLine(dropped, Filter(Commented, ts)) == CalmLine(dropped, ts)
  {
    if ts != [] {
      LateFirst(ts);
      LateCalm(dropped, ts[1..]);
      hide Filter;
    }
  }

  lemma {:induction false} LateSkeleton(c: View, ts: seq<Tok>)
    ensures Skeleton(c, Filter(Commented, ts)) == Skeleton(c, ts) && Calm(Filter(Commented, ts)) == Calm(ts)
    decreases |ts|
  {
    if ts != [] {
      LateComments(c, OnlyStrings(ts), ts);
      LateCalm(OnlyStrings(ts), ts);
      LateSkeleton(c, Rest(ts));
      if Filter(Commented, ts) == [] { AllLate(c, OnlyStrings(ts), ts); }
    }
  }

  lemma {:induction false} AllLate(c: View, d: bool, ts: seq<Tok>)
    requires Filter(Commented, ts) == []
    ensures Rest(ts) == [] && Line(c, d, ts) == [] && CalmLine(d, ts) && !CommentAhead(ts)
  {
    if ts != [] { AllLate(c, d, ts[1..]); }
  }

  lemma {:induction false} ReindentTrace(c: View, dropped: bool, ts: seq<Tok>, l: Levels)
    requires Fits(ts, |l.outer|)
    ensures !c.columns ==> Trace(c, dropped, Reindented(ts, l)) == Trace(c, dropped, ts)
  {
    if ts != [] {
      var l1 := Enter(ts[0], l);
      ReindentTrace(c, dropped, ts[1..], l1);
      ConcatTail([Moved(ts[0], l1)], Reindented(ts[1..], l1));
      assert !c.columns ==> Part(c, dropped, Moved(ts[0], l1)) == Part(c, dropped, ts[0]);
    }
  }

  lemma {:induction false} SameEnds(a: seq<Tok>, b: seq<Tok>, first: Option<nat>, dropped: bool)
    requires SameContent(a, b)
    ensures EndsKept(a, first, dropped) == EndsKept(b, first, dropped)
    decreases |a|
  {
    if a != [] {
      assert Content(a[0]) == Content(b[0]);
      var t := a[0];
      SameTrace(Code, false, a[1..], b[1..]);
      if t.kind == NEWLINE {
        SameEnds(a[1..], b[1..], None, OnlyStrings(a[1..]));
      } else {
        SameEnds(a[1..], b[1..], if first.None? && Held(t) then Some(t.row) else first, dropped);
      }
    }
  }

  lemma {:induction false} LateEnds(ts: seq<Tok>, first: Option<nat>, dropped: bool)
    ensures EndsKept(Filter(Commented, ts), first, dropped) == EndsKept(ts, first, dropped)
  {
    if ts != [] {
      var t := ts[0];
      LateFirst(ts);
      LateComments(Code, false, ts[1..]);
      hide Filter;
      if t.kind == NEWLINE {
        LateEnds(ts[1..], None, OnlyStrings(ts[1..]));
      } else {
        LateEnds(ts[1..], if first.None? && Held(t) then Some(t.row) else first, dropped);
      }
    }
  }

  lemma {:induction false} ReindentLineEnds(ts: seq<Tok>, l: Levels)
    requires Fits(ts, |l.outer|)
    ensures Ends(Reindented(ts, l)) == Ends(ts)
  {
    if ts != [] {
      var l1 := Enter(ts[0], l);
      ReindentLineEnds(ts[1..], l1);
      ConcatTail([Moved(ts[0], l1)], Reindented(ts[1..], l1));
    }
  }

  // ---- Where tokens stand -----------------------------------------------------------------------------

  /** A token relative to the block it is in: how deep that is, how far right of the block's indentation
      it starts, and how wide it is or, if it ends on another row, in which column. */
  datatype Spot = Spot(kind: Kind, text: string, row: nat, endRow: nat, depth: nat, offset: int, span: int)

  /** The widths of the blocks around a token, from the outermost, after the token itself. */
  function LevelsAt(m: Mark, levels: seq<nat>): (r: seq<nat>)
    requires levels != []
    ensures r != []
  {
    if m.kind == INDENT then levels + [|m.text|]
    else if m.kind == DEDENT && |levels| > 1 then levels[..|levels| - 1]
    else levels
  }

  function SpotOf(m: Mark, levels: seq<nat>): Spot
    requires levels != []
  {
    var depth, width := |levels| - 1, levels[|levels| - 1];
    if m.kind == INDENT || m.kind == DEDENT || m.kind == NEWLINE then
      Spot(m.kind, if m.kind == NEWLINE then m.text else "", m.row, m.endRow, depth, 0, 0)
    else
      Spot(m.kind, m.text, m.row, m.endRow, depth, m.col - width, if m.row == m.endRow then m.endCol - m.col else m.endCol)
  }

  function Spots(ms: seq<Mark>, levels: seq<nat>): (r: seq<Spot>)
    requires levels != []
    ensures |r| == |ms|
  {
    if ms == [] then []
    else var now := LevelsAt(ms[0], levels); [SpotOf(ms[0], now)] + Spots(ms[1..], now)
  }

  /** A spot that is not left of the margin once each block is indented by one space only. */
  function Clip(s: Spot): Spot {
    if s.kind == INDENT || s.kind == DEDENT || s.kind == NEWLINE then s
    else s.(offset := if s.depth + s.offset < 0 then 0 - s.depth else s.offset, span := if s.row == s.endRow then |s.text| else s.span)
  }

  function Clipped(ss: seq<Spot>): (r: seq<Spot>)
    ensures |r| == |ss| && forall i | 0 <= i < |ss| :: r[i] == Clip(ss[i])
  {
    seq(|ss|, i requires 0 <= i < |ss| => Clip(ss[i]))
  }

  /** Every INDENT is as many spaces as the block is deep. */
  predicate Narrow(ts: seq<Tok>, depth: nat) {
    if ts == [] then true
    else if ts[0].kind == INDENT then ts[0].text == Spaces(depth + 1) && Narrow(ts[1..], depth + 1)
    else Narrow(ts[1..], if ts[0].kind == DEDENT && depth > 0 then depth - 1 else depth)
  }

  lemma {:induction false} ReindentNarrow(ts: seq<Tok>, l: Levels)
    requires Fits(ts, |l.outer|)
    ensures Narrow(Reindented(ts, l), |l.outer|)
  {
    if ts != [] {
      var l1 := Enter(ts[0], l);
      ReindentNarrow(ts[1..], l1);
      ConcatTail([Moved(ts[0], l1)], Reindented(ts[1..], l1));
    }
  }

  function Widths(l: Levels): seq<nat> { l.outer + [l.width] }

  lemma MovedSpot(c: View, t: Tok, l: Levels)
    requires c.columns && (t.kind == DEDENT ==> l.outer != [])
    ensures var l1 := Enter(t, l);
            var m, m' := Essence(c, t), Essence(c, Moved(t, l1));
            && LevelsAt(m, Widths(l)) == Widths(l1) && LevelsAt(m', UpTo(|l.outer| + 1)) == UpTo(|l1.outer| + 1)
            && (t.kind != NL ==> SpotOf(m', UpTo(|l1.outer| + 1)) == Clip(SpotOf(m, Widths(l1))))
  {
  }

  lemma SpotsCons(m: Mark, ms: seq<Mark>, levels: seq<nat>)
    requires levels != []
    ensures Spots([m] + ms, levels) == [SpotOf(m, LevelsAt(m, levels))] + Spots(ms, LevelsAt(m, levels))
  {
    assert ([m] + ms)[1..] == ms;
  }

  lemma ClippedCons(s: Spot, ss: seq<Spot>)
    ensures Clipped([s] + ss) == [Clip(s)] + Clipped(ss)
  {
  }

  lemma PartMoved(c: View, dropped: bool, t: Tok, l: Levels)
    requires t.kind == DEDENT ==> l.outer != []
    ensures var l1 := Enter(t, l);
            (Part(c, dropped, t) == [] <==> Part(c, dropped, Moved(t, l1)) == [])
            && (Part(c, dropped, t) != [] ==>
                  Part(c, dropped, t) == [Essence(c, t)] && Part(c, dropped, Moved(t, l1)) == [Essence(c, Moved(t, l1))])
            && (Part(c, dropped, t) == [] ==> l1 == l) && (t.kind == NL ==> Part(c, dropped, t) == [])
  {
  }

  lemma SpotsStep(m: Mark, m': Mark, rest: seq<Mark>, rest': seq<Mark>, w: seq<nat>, w1: seq<nat>, u: seq<nat>, u1: seq<nat>)
    requires w != [] && w1 != [] && u != [] && u1 != [] && LevelsAt(m, w) == w1 && LevelsAt(m', u) == u1
    requires SpotOf(m', u1) == Clip(SpotOf(m, w1)) && Spots(rest', u1) == Clipped(Spots(rest, w1))
    ensures Spots([m'] + rest', u) == Clipped(Spots([m] + rest, w))
  {
    SpotsCons(m, rest, w);
    SpotsCons(m', rest', u);
    ClippedCons(SpotOf(m, w1), Spots(rest, w1));
  }

  lemma TraceMoved(c: View, dropped: bool, ts: seq<Tok>, l: Levels)
    requires ts != [] && Fits(ts, |l.outer|)
    ensures var l1 := Enter(ts[0], l);
            && Trace(c, dropped, ts) == Part(c, dropped, ts[0]) + Trace(c, dropped, ts[1..])
            && Trace(c, dropped, Reindented(ts, l))
            == Part(c, dropped, Moved(ts[0], l1)) + Trace(c, dropped, Reindented(ts[1..], l1))
  {
    var l1 := Enter(ts[0], l);
    ConcatTail([Moved(ts[0], l1)], Reindented(ts[1..], l1));
    hide Part, Moved;
  }

  /** After `reindent` everything stands where it stood relative to its block, or at the left margin. */
  lemma {:induction false} ReindentSpots(c: View, dropped: bool, ts: seq<Tok>, l: Levels)
    requires c.columns && Fits(ts, |l.outer|)
    ensures Spots(Trace(c, dropped, Reindented(ts, l)), UpTo(|l.outer| + 1)) == Clipped(Spots(Trace(c, dropped, ts), Widths(l)))
  {
    if ts == [] {
      assert Clipped([]) == [];
    } else {
      var t, l1 := ts[0], Enter(ts[0], l);
      ReindentSpots(c, dropped, ts[1..], l1);
      TraceMoved(c, dropped, ts, l);
      PartMoved(c, dropped, t, l);
      MovedSpot(c, t, l);
      hide Trace, Part, Reindented, Moved, Enter, Essence, Spots, SpotOf, LevelsAt, Clip, Clipped, UpTo, Fits, Widths;
      var rest, rest' := Trace(c, dropped, ts[1..]), Trace(c, dropped, Reindented(ts[1..], l1));
      if Part(c, dropped, t) == [] {
        assert [] + rest == rest && [] + rest' == rest';
      } else {
        SpotsStep(Essence(c, t), Essence(c, Moved(t, l1)), rest, rest',
                  Widths(l), Widths(l1), UpTo(|l.outer| + 1), UpTo(|l1.outer| + 1));
      }
    }
  }

  predicate Plain(k: Kind) { k != INDENT && k != DEDENT && k != NEWLINE }

  /** Where `m` stands after `reindent`, if it stood at `s` before. */
  predicate PlacedAt(s: Spot, m: Mark) {
    && m.kind == s.kind && (m.kind == INDENT ==> m.text == Spaces(s.depth))
    && (Plain(m.kind) ==>
          && m.text == s.text && m.row == s.row && m.endRow == s.endRow
          && m.col == (if s.depth + s.offset < 0 then 0 else s.depth + s.offset)
          && m.endCol == if m.row == m.endRow then m.col + |m.text| else s.span)
  }

  ghost predicate AllPlaced(ss: seq<Spot>, ms: seq<Mark>) {
    |ss| == |ms| && forall i | 0 <= i < |ms| :: PlacedAt(ss[i], ms[i])
  }

  /** INDENT is one space for each level; everything else keeps its distance from the indentation of its
      block, or stands at the left margin if that would be further left, and ends after its text or, if it
      ends on another row, where it did. */
  ghost predicate Placed(before: seq<Mark>, after: seq<Mark>) {
    AllPlaced(Spots(before, [0]), after)
  }

  /** A mark of a narrow source, seen where `reindent` has put it. */
  lemma {:induction false} MarkPlaced(c: View, t: Tok, s: Spot, depth: nat)
    requires c.columns && t.kind != NL && (t.kind == INDENT ==> t.text == Spaces(depth))
    requires SpotOf(Essence(c, t), UpTo(depth + 1)) == Clip(s)
    requires t.row == t.endRow ==> t.endCol == t.col + |t.text|
    ensures PlacedAt(s, Essence(c, t))
  {
  }

  function Deeper(t: Tok, depth: nat): nat {
    if t.kind == INDENT then depth + 1 else if t.kind == DEDENT && depth > 0 then depth - 1 else depth
  }

  predicate Ended(ts: seq<Tok>) { forall t | t in ts :: t.row == t.endRow ==> t.endCol == t.col + |t.text| }

  lemma {:induction false} NarrowCons(c: View, ts: seq<Tok>, depth: nat)
    requires c.columns && ts != [] && Narrow(ts, depth) && Fits(ts, depth) && Ended(ts)
    ensures var t, now := ts[0], Deeper(ts[0], depth);
            && |UpTo(depth + 1)| == depth + 1 && |UpTo(now + 1)| == now + 1
            && Narrow(ts[1..], now) && Fits(ts[1..], now) && Ended(ts[1..]) && Ended([t])
            && (t.kind == INDENT ==> t.text == Spaces(now))
            && LevelsAt(Essence(c, t), UpTo(depth + 1)) == UpTo(now + 1)
  {
    assert UpTo(depth + 1) + [depth + 1] == UpTo(depth + 2);
    if depth > 0 { assert UpTo(depth + 1)[..depth] == UpTo(depth); }
    assert forall u | u in ts[1..] :: u in ts;
  }

  lemma TraceFirst(c: View, dropped: bool, ts: seq<Tok>)
    requires ts != []
    ensures Trace(c, dropped, ts)
         == if Part(c, dropped, ts[0]) == [] then Trace(c, dropped, ts[1..])
            else [Essence(c, ts[0])] + Trace(c, dropped, ts[1..])
    ensures Part(c, dropped, ts[0]) == [] ==> !Layout(ts[0])
    ensures Part(c, dropped, ts[0]) != [] ==> ts[0].kind != NL
  {
    assert Part(c, dropped, ts[0]) == [] ==> Part(c, dropped, ts[0]) + Trace(c, dropped, ts[1..]) == Trace(c, dropped, ts[1..]);
  }

  lemma ClippedFirst(s: Spot, more: seq<Spot>, ss: seq<Spot>)
    requires [s] + more == Clipped(ss)
    ensures ss != [] && s == Clip(ss[0]) && more == Clipped(ss[1..])
  {
    assert ([s] + more)[0] == s && ([s] + more)[1..] == more && |ss| == 1 + |more|;
    assert Clipped(ss)[1..] == Clipped(ss[1..]);
  }

  lemma {:induction false} PlacedCons(ss: seq<Spot>, m: Mark, ms: seq<Mark>)
    requires ss != [] && PlacedAt(ss[0], m) && AllPlaced(ss[1..], ms)
    ensures AllPlaced(ss, [m] + ms)
  {
    hide PlacedAt;
    forall i | 0 <= i < |[m] + ms| ensures PlacedAt(ss[i], ([m] + ms)[i]) {
      if i > 0 { assert PlacedAt(ss[1..][i - 1], ms[i - 1]); }
    }
  }

  /** The marks of a narrow source stand where spots that are the same, once clipped, say. */
  lemma {:induction false} NarrowPlaced(c: View, dropped: bool, ts: seq<Tok>, ss: seq<Spot>, depth: nat)
    requires c.columns && Narrow(ts, depth) && Fits(ts, depth) && Ended(ts)
    requires Spots(Trace(c, dropped, ts), UpTo(depth + 1)) == Clipped(ss)
    ensures AllPlaced(ss, Trace(c, dropped, ts))
    decreases |ts|
  {
    if ts == [] {
      assert Trace(c, dropped, ts) == [];
    } else {
      hide Trace, Part, Narrow, Fits, Spots, SpotOf, LevelsAt, Essence, Clip, Clipped, PlacedAt, UpTo, Spaces, Ended, AllPlaced;
      NarrowCons(c, ts, depth);
      TraceFirst(c, dropped, ts);
      if Part(c, dropped, ts[0]) == [] {
        NarrowPlaced(c, dropped, ts[1..], ss, depth);
      } else {
        NarrowMark(c, ts[0], Trace(c, dropped, ts[1..]), ss, depth);
        NarrowPlaced(c, dropped, ts[1..], ss[1..], Deeper(ts[0], depth));
        PlacedCons(ss, Essence(c, ts[0]), Trace(c, dropped, ts[1..]));
      }
    }
  }

  lemma {:induction false} NarrowMark(c: View, t: Tok, rest: seq<Mark>, ss: seq<Spot>, depth: nat)
    requires c.columns && t.kind != NL && Ended([t]) && |UpTo(depth + 1)| == depth + 1
    requires var now := Deeper(t, depth);
             && |UpTo(now + 1)| == now + 1 && (t.kind == INDENT ==> t.text == Spaces(now))
             && LevelsAt(Essence(c, t), UpTo(depth + 1)) == UpTo(now + 1)
    requires Spots([Essence(c, t)] + rest, UpTo(depth + 1)) == Clipped(ss)
    ensures ss != [] && PlacedAt(ss[0], Essence(c, t))
    ensures Spots(rest, UpTo(Deeper(t, depth) + 1)) == Clipped(ss[1..])
  {
    hide Spots, SpotOf, LevelsAt, Essence, Clip, Clipped, PlacedAt, UpTo, Spaces, Deeper;
    var now := Deeper(t, depth);
    assert t in [t];
    SpotsCons(Essence(c, t), rest, UpTo(depth + 1));
    ClippedFirst(SpotOf(Essence(c, t), UpTo(now + 1)), Spots(rest, UpTo(now + 1)), ss);
    MarkPlaced(c, t, ss[0], now);
  }

  lemma {:induction false} ReindentEnds(ts: seq<Tok>, l: Levels)
    requires Fits(ts, |l.outer|)
    ensures Ended(Reindented(ts, l))
  {
    if ts != [] { ReindentEnds(ts[1..], Enter(ts[0], l)); }
  }

  lemma FirstLevels()
    ensures Widths(Levels([], 0)) == [0] == UpTo(1)
  {
  }

  lemma ReindentPlaces(ts: seq<Tok>)
    requires Fits(ts, 0)
    ensures Placed(Trace(WithColumns, false, ts), Trace(WithColumns, false, Reindented(ts, Levels([], 0))))
  {
    hide Spots, Trace, Narrow, Fits, Reindented, PlacedAt, UpTo, Ended, Widths, Clipped, AllPlaced;
    var l := Levels([], 0);
    FirstLevels();
    ReindentSpots(WithColumns, false, ts, l);
    ReindentNarrow(ts, l);
    ReindentEnds(ts, l);
    ReindentedFits(ts, l);
    NarrowPlaced(WithColumns, false, Reindented(ts, l), Spots(Trace(WithColumns, false, ts), [0]), 0);
  }

  /** What stands at the indentation of its block still does: in the column that is the block's depth. */
  lemma {:induction false} KeepsIndentation(before: seq<Mark>, after: seq<Mark>, i: nat)
    requires Placed(before, after) && i < |before| && Plain(before[i].kind) && Spots(before, [0])[i].offset == 0
    ensures Plain(after[i].kind) && after[i].col == Spots(before, [0])[i].depth
  {
    SpotKinds(before, [0], i);
    assert PlacedAt(Spots(before, [0])[i], after[i]);
  }

  lemma {:induction false} SpotKinds(ms: seq<Mark>, levels: seq<nat>, i: nat)
    requires levels != [] && i < |ms|
    ensures Spots(ms, levels)[i].kind == ms[i].kind
  {
    if i > 0 { SpotKinds(ms[1..], LevelsAt(ms[0], levels), i - 1); }
  }

  /** Two neighbours on one row of one block, the first of which ends on the row it starts on, keep the gap
      between them if and only if the first is not squeezed against the left margin. */
  lemma {:induction false} GapIff(before: seq<Mark>, after: seq<Mark>, i: nat)
    requires Placed(before, after) && i + 1 < |before| && Plain(before[i].kind) && Plain(before[i + 1].kind)
    requires before[i].row == before[i].endRow && before[i].endCol == before[i].col + |before[i].text|
    requires before[i].col <= before[i + 1].col
    ensures var s := Spots(before, [0])[i];
            after[i + 1].col - after[i].endCol == before[i + 1].col - before[i].endCol <==>
              s.depth + s.offset >= 0 || before[i].col == before[i + 1].col
  {
    SpotsPair(before, [0], i);
    var s, t := Spots(before, [0])[i], Spots(before, [0])[i + 1];
    assert PlacedAt(s, after[i]) && PlacedAt(t, after[i + 1]);
    assert after[i].endCol == after[i].col + |s.text|;
    hide Spots;
  }

  /** Spots that follow each other are in the same block. */
  lemma {:induction false} SpotsPair(ms: seq<Mark>, levels: seq<nat>, i: nat)
    requires levels != [] && i + 1 < |ms| && Plain(ms[i].kind) && Plain(ms[i + 1].kind)
    ensures var s, t := Spots(ms, levels)[i], Spots(ms, levels)[i + 1];
            && s.depth == t.depth && ms[i].col - s.offset == ms[i + 1].col - t.offset
            && s.kind == ms[i].kind && s.text == ms[i].text && s.row == ms[i].row && s.endRow == ms[i].endRow
            && t.kind == ms[i + 1].kind
            && (s.row != s.endRow ==> s.span == ms[i].endCol)
  {
    if i > 0 { SpotsPair(ms[1..], LevelsAt(ms[0], levels), i - 1); }
  }

  /** A token that ends on a later row than it starts on still ends in the same column, and what follows it
      moves: there the gap stays if and only if that does not. */
  lemma {:induction false} GapAfterRows(before: seq<Mark>, after: seq<Mark>, i: nat)
    requires Placed(before, after) && i + 1 < |before| && Plain(before[i].kind) && Plain(before[i + 1].kind)
    requires before[i].row != before[i].endRow
    ensures after[i].endCol == before[i].endCol
    ensures after[i + 1].col - after[i].endCol == before[i + 1].col - before[i].endCol <==> after[i + 1].col == before[i + 1].col
  {
    SpotsPair(before, [0], i);
    assert PlacedAt(Spots(before, [0])[i], after[i]);
  }

  /** The comments of a source, but for their columns. */
  function Comments(ts: seq<Tok>): seq<Mark> {
    if ts == [] then [] else (if IsComment(ts[0]) then [Essence(Code, ts[0])] else []) + Comments(ts[1..])
  }

  lemma {:induction false} CommentsFilter(ts: seq<Tok>)
    ensures Comments(Filter(IsComment, ts)) == Comments(ts)
    ensures Comments(Filter(Commented, ts)) == Comments(Filter(Kept, ts))
  {
    if ts != [] {
      CommentsFilter(ts[1..]);
      assert ts == [ts[0]] + ts[1..];
      FilterCons(IsComment, ts[0], ts[1..]);
      FilterCons(Commented, ts[0], ts[1..]);
      FilterCons(Kept, ts[0], ts[1..]);
      CommentsCons(ts[0], ts[1..]);
      CommentsCons(ts[0], Filter(IsComment, ts[1..]));
      CommentsCons(ts[0], Filter(Commented, ts[1..]));
      CommentsCons(ts[0], Filter(Kept, ts[1..]));
      hide Filter, Comments;
      assert forall q: seq<Tok> :: [] + q == q;
      assert forall q: seq<Mark> :: [] + q == q;
    }
  }

  lemma CommentsCons(t: Tok, ts: seq<Tok>)
    ensures Comments([t] + ts) == (if IsComment(t) then [Essence(Code, t)] else []) + Comments(ts)
  {
    assert ([t] + ts)[1..] == ts;
  }

  lemma {:induction false} SameComments(a: seq<Tok>, b: seq<Tok>)
    requires SameContent(a, b)
    ensures Comments(a) == Comments(b)
    decreases |a|
  {
    if a != [] {
      assert Content(a[0]) == Content(b[0]);
      SameComments(a[1..], b[1..]);
    }
  }

  lemma {:induction false} ReindentComments(ts: seq<Tok>, l: Levels)
    requires Fits(ts, |l.outer|)
    ensures Comments(Reindented(ts, l)) == Comments(ts)
  {
    if ts != [] {
      var l1 := Enter(ts[0], l);
      ReindentComments(ts[1..], l1);
      ConcatTail([Moved(ts[0], l1)], Reindented(ts[1..], l1));
    }
  }

  // ---- Balance --------------------------------------------------------------------------------------

  function LayoutPart(es: seq<Mark>): seq<Kind> {
    if es == [] then []
    else (if es[0].kind == INDENT || es[0].kind == DEDENT then [es[0].kind] else []) + LayoutPart(es[1..])
  }

  lemma {:induction false} LayoutPartAppend(a: seq<Mark>, b: seq<Mark>)
    ensures LayoutPart(a + b) == LayoutPart(a) + LayoutPart(b)
  {
    if a == [] {
      assert a + b == b;
    } else {
      ConcatTail(a, b);
      LayoutPartAppend(a[1..], b);
      ConcatAssoc(if a[0].kind == INDENT || a[0].kind == DEDENT then [a[0].kind] else [], LayoutPart(a[1..]), LayoutPart(b));
    }
  }

  /** The kinds of the layout tokens. */
  function Kinds(ts: seq<Tok>): seq<Kind> {
    if ts == [] then [] else (if Layout(ts[0]) then [ts[0].kind] else []) + Kinds(ts[1..])
  }

  lemma PartKinds(c: View, dropped: bool, t: Tok)
    ensures LayoutPart(Part(c, dropped, t)) == if Layout(t) then [t.kind] else []
  {
    assert [Essence(c, t)][1..] == [];
  }

  lemma {:induction false} TraceKinds(c: View, dropped: bool, ts: seq<Tok>)
    ensures LayoutPart(Trace(c, dropped, ts)) == Kinds(ts)
    ensures LayoutPart(Line(c, dropped, ts)) + Kinds(Rest(ts)) == Kinds(ts)
  {
    if ts != [] {
      var part, rest := Part(c, dropped, ts[0]), ts[1..];
      var tail := if ts[0].kind == NEWLINE then [] else Line(c, dropped, rest);
      TraceKinds(c, dropped, rest);
      assert Kinds(ts) == LayoutPart(part) + Kinds(rest) by { PartKinds(c, dropped, ts[0]); }
      assert LayoutPart(tail) + Kinds(Rest(ts)) == Kinds(rest);
      assert Line(c, dropped, ts) == part + tail && Trace(c, dropped, ts) == part + Trace(c, dropped, rest);
      hide Line, Trace, Kinds, LayoutPart, Rest;
      LayoutPartAppend(part, Trace(c, dropped, rest));
      LayoutPartAppend(part, tail);
      ConcatAssoc(LayoutPart(part), LayoutPart(tail), Kinds(Rest(ts)));
    }
  }

  lemma {:induction false} SkeletonKinds(c: View, ts: seq<Tok>)
    ensures LayoutPart(Skeleton(c, ts)) == Kinds(ts)
    decreases |ts|
  {
    if ts != [] {
      var d := OnlyStrings(ts);
      TraceKinds(c, d, ts);
      SkeletonKinds(c, Rest(ts));
      LayoutPartAppend(Line(c, d, ts), Skeleton(c, Rest(ts)));
    }
  }

  /** Balance is a matter of the layout alone. */
  lemma {:induction false} FitsByKinds(ts: seq<Tok>, us: seq<Tok>, depth: nat)
    requires Kinds(ts) == Kinds(us) && Fits(ts, depth)
    ensures Fits(us, depth)
    decreases |ts| + |us|
  {
    if us == [] {
    } else if !Layout(us[0]) {
      FitsByKinds(ts, us[1..], depth);
    } else if !Layout(ts[0]) {
      FitsByKinds(ts[1..], us, depth);
    } else {
      assert Kinds(ts)[0] == ts[0].kind && Kinds(us)[0] == us[0].kind;
      assert Kinds(ts)[1..] == Kinds(ts[1..]) && Kinds(us)[1..] == Kinds(us[1..]);
      FitsByKinds(ts[1..], us[1..], if us[0].kind == INDENT then depth + 1 else depth - 1);
    }
  }

  /** The whole transformation, on the tokens of any source.  All layout and all code outside
      string-only lines are kept, in one sequence and on the same rows, so every piece of code stays
      in its block.  The comments of the first two rows are kept and no others; they keep their
      places in that sequence if and only if the source is calm. */
  method MinimizeSource(ts: seq<Tok>) returns (out: seq<Tok>)
    requires RowsGrow(ts) && ts != [] && ts[|ts| - 1].kind == OTHER && Fits(ts, 0)
    ensures Trace(Code, false, out) == Skeleton(Code, ts)
    ensures Trace(WithComments, false, out) == Skeleton(WithComments, ts) <==> Calm(ts)
    ensures Comments(out) == Comments(Filter(Kept, ts))
    ensures Fits(out, 0)
    ensures Placed(Skeleton(WithColumns, ts), Trace(WithColumns, false, out))
    ensures Ends(out) == EndsKept(ts, None, OnlyStrings(ts))
  {
    var a := StripComments(ts);
    StripCommentsKeeps(ts, a);
    hide RowsGrow, Filter, Comments, Trace, Fits, SameContent, Skeleton, Calm, Stripped, Ends, EndsKept, OnlyStrings, Placed;
    var b := StripDocstrings(a);
    StripKeepsOrder(Code, a);
    StripKeepsOrder(WithColumns, a);
    StripKeepsCommentsIff(a);
    StrippedComments(a, Wait([]));
    CommentsFilter(a);
    CommentsFilter(b);
    StripFits(a);
    out := Reindent(b);
    ReindentTrace(Code, false, b, Levels([], 0));
    ReindentTrace(WithComments, false, b, Levels([], 0));
    ReindentComments(b, Levels([], 0));
    ReindentedFits(b, Levels([], 0));
    ReindentPlaces(b);
    WaitEnds(a, []);
    ReindentLineEnds(b, Levels([], 0));
  }

  lemma StripFits(ts: seq<Tok>)
    requires ts != [] && ts[|ts| - 1].kind == OTHER && Fits(ts, 0)
    ensures Fits(Stripped(ts, Wait([])), 0)
  {
    hide Fits, Trace, Skeleton, Stripped, LayoutPart, Kinds;
    StripKeepsOrder(Code, ts);
    TraceKinds(Code, false, Stripped(ts, Wait([])));
    SkeletonKinds(Code, ts);
    FitsByKinds(ts, Stripped(ts, Wait([])), 0);
  }

  lemma StripCommentsKeeps(ts: seq<Tok>, a: seq<Tok>)
    requires Tight(a, Filter(Commented, ts)) && RowsGrow(ts) && ts != [] && ts[|ts| - 1].kind == OTHER && Fits(ts, 0)
    ensures RowsGrow(a) && a != [] && a[|a| - 1].kind == OTHER && Fits(a, 0)
    ensures forall c :: Skeleton(c, a) == Skeleton(c, ts)
    ensures Calm(a) == Calm(ts) && Comments(a) == Comments(Filter(Kept, ts))
    ensures EndsKept(a, None, OnlyStrings(a)) == EndsKept(ts, None, OnlyStrings(ts))
  {
    var kept := Filter(Commented, ts);
    TightSame(a, kept);
    hide Filter, Comments, RowsGrow, Tight, Fits, Trace, Skeleton, Calm, SameContent, LayoutPart, Kinds;
    FilterRows(Commented, ts);
    SameRows(a, kept);
    StillEnds(ts, a);
    CommentsFilter(ts);
    SameComments(a, kept);
    forall c ensures Skeleton(c, a) == Skeleton(c, ts) && Calm(a) == Calm(ts) {
      SameSkeleton(c, a, kept);
      LateSkeleton(c, ts);
    }
    assert Skeleton(Code, a) == Skeleton(Code, ts);
    EndsAlike(ts, a);
    SkeletonKinds(Code, a);
    SkeletonKinds(Code, ts);
    FitsByKinds(ts, a, 0);
  }

  lemma EndsAlike(ts: seq<Tok>, a: seq<Tok>)
    requires SameContent(a, Filter(Commented, ts))
    ensures EndsKept(a, None, OnlyStrings(a)) == EndsKept(ts, None, OnlyStrings(ts))
  {
    hide Filter, EndsKept, OnlyStrings, SameContent;
    var kept := Filter(Commented, ts);
    SameTrace(Code, false, a, kept);
    LateComments(Code, false, ts);
    SameEnds(a, kept, None, OnlyStrings(a));
    LateEnds(ts, None, OnlyStrings(ts));
  }

  lemma StillEnds(ts: seq<Tok>, a: seq<Tok>)
    requires SameContent(a, Filter(Commented, ts)) && ts != [] && ts[|ts| - 1].kind == OTHER
    ensures a != [] && a[|a| - 1].kind == OTHER
  {
    hide Filter, SameContent;
    var n := |ts| - 1;
    FilterSnoc(Commented, ts[..n], ts[n]);
    assert ts == ts[..n] + [ts[n]];
    SameLast(a, Filter(Commented, ts[..n]), ts[n]);
  }

  lemma SameLast(a: seq<Tok>, b: seq<Tok>, t: Tok)
    requires SameContent(a, b + [t])
    ensures a != [] && a[|a| - 1].kind == t.kind
  {
    assert Content(a[|a| - 1]) == Content((b + [t])[|b|]);
  }

  lemma TightSame(out: seq<Tok>, kept: seq<Tok>)
    requires Tight(out, kept)
    ensures SameContent(out, kept)
  {
    forall i | 0 <= i < |out| ensures Content(out[i]) == Content(kept[i]) {
      assert out[i] == Tightened(kept[i], if i == 0 then None else Some(out[i - 1]));
    }
  }

  // ---- A comment that leaves its block ----------------------------------------------------------------

  /** A class whose only line, on row 2, is a docstring with a comment after it. */
  const Documented: seq<Tok> := [
    Tok(OTHER, "class A:", 1, 0, 1, 8), Tok(NEWLINE, "\n", 1, 8, 1, 9),
    Tok(INDENT, "  ", 2, 0, 2, 2), Tok(STRING, "''", 2, 2, 2, 4), Tok(COMMENT, "#", 2, 6, 2, 7),
    Tok(NEWLINE, "\n", 2, 7, 2, 8), Tok(DEDENT, "", 3, 0, 3, 0), Tok(OTHER, "", 3, 0, 3, 0)]

  /** The comment comes out before the INDENT it followed. */
  lemma CommentLeavesBlock()
    ensures Trace(WithComments, false, Stripped(Documented, Wait([]))) != Skeleton(WithComments, Documented)
  {
    var line := Documented[2..];
    assert Rest(Documented[1..]) == line && Rest(Documented) == line;
    assert !CalmLine(true, line) by { assert CommentAhead(line[1..]) by { assert Kept(line[2]); } }
    assert OnlyStrings(line) by { assert OnlyStrings(line[1..]) by { assert OnlyStrings(line[2..]) by { assert OnlyStrings(line[3..]); } } }
    StripKeepsCommentsIff(Documented);
  }

  // ---- A token that runs into the one before it -------------------------------------------------------

  /** An indented line with a string that ends on the next row, and code right after it. */
  const Folded: seq<Tok> := [
    Tok(INDENT, "  ", 1, 0, 1, 2), Tok(OTHER, "x", 1, 2, 1, 3), Tok(STRING, "''", 1, 3, 2, 4),
    Tok(OTHER, "+", 2, 4, 2, 5), Tok(NEWLINE, "\n", 2, 5, 2, 6), Tok(DEDENT, "", 3, 0, 3, 0), Tok(OTHER, "", 3, 0, 3, 0)]

  lemma LineCons(c: View, t: Tok, rest: seq<Tok>)
    requires Held(t) && t.kind != NEWLINE
    ensures Line(c, false, [t] + rest) == [Essence(c, t)] + Line(c, false, rest)
    ensures OnlyStrings([t] + rest) <==> t.kind != OTHER && OnlyStrings(rest)
  {
    assert ([t] + rest)[1..] == rest;
  }

  lemma FoldedLine(c: View)
    ensures !OnlyStrings(Folded)
    ensures Line(c, false, Folded)
         == [Essence(c, Folded[0])] + ([Essence(c, Folded[1])] + ([Essence(c, Folded[2])] + ([Essence(c, Folded[3])] + Line(c, false, Folded[4..]))))
  {
    var t := Folded;
    assert t == [t[0]] + t[1..] && t[1..] == [t[1]] + t[2..] && t[2..] == [t[2]] + t[3..] && t[3..] == [t[3]] + t[4..];
    assert t[0].kind == INDENT && t[1].kind == OTHER && t[2].kind == STRING && t[3].kind == OTHER;
    hide Line, OnlyStrings, Essence;
    LineCons(c, t[3], t[4..]);
    LineCons(c, t[2], t[3..]);
    LineCons(c, t[1], t[2..]);
    LineCons(c, t[0], t[1..]);
  }

  lemma FourSpots(a: Mark, b: Mark, d: Mark, e: Mark, more: seq<Mark>)
    requires a.kind == INDENT && |a.text| == 2 && Plain(b.kind) && Plain(d.kind) && Plain(e.kind)
    ensures var ms := [a] + ([b] + ([d] + ([e] + more)));
            |ms| > 3 && ms[2] == d && ms[3] == e && Spots(ms, [0])[2] == SpotOf(d, [0, 2]) && Spots(ms, [0])[3] == SpotOf(e, [0, 2])
  {
    assert LevelsAt(a, [0]) == [0, 2];
    hide Spots, SpotOf;
    SpotsCons(a, [b] + ([d] + ([e] + more)), [0]);
    SpotsCons(b, [d] + ([e] + more), [0, 2]);
    SpotsCons(d, [e] + more, [0, 2]);
    SpotsCons(e, more, [0, 2]);
  }

  lemma FoldedSpots()
    ensures var ms := Skeleton(WithColumns, Folded);
            && |ms| > 3 && ms[2] == Essence(WithColumns, Folded[2]) && ms[3] == Essence(WithColumns, Folded[3])
            && Spots(ms, [0])[2].span == 4 && Spots(ms, [0])[3].depth == 1 && Spots(ms, [0])[3].offset == 2
  {
    var c := WithColumns;
    FoldedLine(c);
    hide Line, Rest, OnlyStrings, Spots;
    var a, b, d, e := Essence(c, Folded[0]), Essence(c, Folded[1]), Essence(c, Folded[2]), Essence(c, Folded[3]);
    var more := Line(c, false, Folded[4..]) + Skeleton(c, Rest(Folded));
    assert Skeleton(c, Folded) == [a] + ([b] + ([d] + ([e] + more)));
    hide Skeleton;
    FourSpots(a, b, d, e, more);
  }

  /** It stood behind the string; now it starts before the string ends. */
  lemma {:induction false} RunsInto(after: seq<Mark>)
    requires Placed(Skeleton(WithColumns, Folded), after)
    ensures var before := Skeleton(WithColumns, Folded);
            |before| > 3 && before[3].col == before[2].endCol && after[3].col < after[2].endCol
  {
    FoldedSpots();
    var before := Skeleton(WithColumns, Folded);
    hide Skeleton;
    assert PlacedAt(Spots(before, [0])[2], after[2]) && PlacedAt(Spots(before, [0])[3], after[3]);
    SpotsPair(before, [0], 2);
  }

  /** The tokens are such as MinimizeSource takes. */
  lemma FoldedFits()
    ensures RowsGrow(Folded) && Folded[|Folded| - 1].kind == OTHER && Fits(Folded, 0)
  {
    hide Fits;
    FitsCons(Folded, 6, 0);
    FitsCons(Folded, 5, 1);
    FitsCons(Folded, 4, 1);
    FitsCons(Folded, 3, 1);
    FitsCons(Folded, 2, 1);
    FitsCons(Folded, 1, 1);
    FitsCons(Folded, 0, 0);
    assert Folded[0..] == Folded;
    FitsNone(Folded[7..]);
  }

  lemma FitsNone(ts: seq<Tok>)
    requires ts == []
    ensures Fits(ts, 0)
  {
  }

  lemma FitsCons(ts: seq<Tok>, i: nat, depth: nat)
    requires i < |ts|
    ensures Fits(ts[i..], depth) <==>
              (ts[i].kind == DEDENT ==> depth > 0) && Fits(ts[i + 1..], Deeper(ts[i], depth))
  {
    assert ts[i..][0] == ts[i] && ts[i..][1..] == ts[i + 1..];
  }
}
