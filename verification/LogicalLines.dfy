/** `logical_lines`: one declaration per line, however it was wrapped. */
module LogicalLines {
  import opened Text

  // ---- the scanner -----------------------------------------------------------------------

  /** A blank line, a comment, a preprocessor line or an access label. */
  predicate Passes(line: string) {
    var s := Strip(line);
    StartsWith(s, "//") || StartsWith(s, "#") || s == "" || EndsWith(s, ":")
  }

  /** The line ends a declaration. */
  predicate Ends(line: string) {
    var s := Strip(line);
    EndsWith(s, ";") || EndsWith(s, "{") || EndsWith(s, "}")
  }

  function Parens(line: string): int {
    Count(line, '(') - Count(line, ')')
  }

  /** The scanner's variables: the text accumulated so far, its paren depth, the lines yielded. */
  datatype Scan = Scan(buf: string, depth: int, out: seq<string>)

  const START := Scan("", 0, [])

  function Step(st: Scan, line: string): Scan {
    if st.buf == "" && Passes(line) then
      st.(out := st.out + [line])
    else
      var buf := if st.buf == "" then line else st.buf + " " + Strip(line);
      var depth := st.depth + Parens(line);
      if depth <= 0 && Ends(line) then Scan("", 0, st.out + [buf]) else Scan(buf, depth, st.out)
  }

  function Run(st: Scan, lines: seq<string>): Scan
    decreases |lines|
  {
    if lines == [] then st else Run(Step(st, lines[0]), lines[1..])
  }

  function Flush(st: Scan): seq<string> {
    if st.buf == "" then st.out else st.out + [st.buf]
  }

  function Logical(lines: seq<string>): seq<string> {
    Flush(Run(START, lines))
  }

  lemma {:induction false} RunAppend(st: Scan, a: seq<string>, b: seq<string>)
    ensures Run(st, a + b) == Run(Run(st, a), b)
    decreases |a|
  {
    if a == [] {
      assert a + b == b;
    } else {
      assert (a + b)[1..] == a[1..] + b;
      RunAppend(Step(st, a[0]), a[1..], b);
    }
  }

  lemma {:induction false} RunNext(lines: seq<string>, i: nat)
    requires i < |lines|
    ensures Run(START, lines[..i + 1]) == Step(Run(START, lines[..i]), lines[i])
  {
    hide Step;
    assert lines[..i + 1] == lines[..i] + [lines[i]];
    RunAppend(START, lines[..i], [lines[i]]);
    assert [lines[i]][1..] == [];
  }

  method LogicalLinesOf(lines: seq<string>) returns (out: seq<string>)
    ensures out == Logical(lines)
  {
    var buf, depth := "", 0;
    out := [];
    assert lines[..0] == [] && lines[..|lines|] == lines;
    hide Strip, Count, Run;
    assert Run(START, []) == START by { RunNothing(); }
    for i := 0 to |lines|
      invariant Scan(buf, depth, out) == Run(START, lines[..i])
    {
      RunNext(lines, i);
      var line := lines[i];
      var stripped := Strip(line);
      if buf == "" && (StartsWith(stripped, "//") || StartsWith(stripped, "#") || stripped == ""
                       || EndsWith(stripped, ":")) {
        out := out + [line];
        continue;
      }
      buf := if buf == "" then line else buf + " " + stripped;
      depth := depth + (Count(line, '(') - Count(line, ')'));
      if depth <= 0 && (EndsWith(stripped, ";") || EndsWith(stripped, "{") || EndsWith(stripped, "}")) {
        out := out + [buf];
        buf, depth := "", 0;
      }
    }
    if buf != "" {
      out := out + [buf];
    }
  }

  lemma {:induction false} RunNothing()
    ensures Run(START, []) == START
  {
  }

  // ---- declarations and their wrappings --------------------------------------------------

  function DepthOf(segs: seq<string>): int {
    if segs == [] then 0 else DepthOf(segs[..|segs| - 1]) + Parens(segs[|segs| - 1])
  }

  /** The last line ends a declaration and the parens of all the lines balance there. */
  predicate Finished(segs: seq<string>) {
    segs != [] && DepthOf(segs) <= 0 && Ends(segs[|segs| - 1])
  }

  /** A declaration split over lines: it can start here, and only its last line finishes it. */
  predicate Wrapping(segs: seq<string>) {
    && segs != [] && !Passes(segs[0])
    && Finished(segs)
    && forall k | 0 < k < |segs| :: !Finished(segs[..k])
  }

  /** A declaration that the text ends before finishing. */
  predicate Unfinished(segs: seq<string>) {
    && segs != [] && !Passes(segs[0])
    && forall k | 0 < k <= |segs| :: !Finished(segs[..k])
  }

  /** The first line as written, then one blank and each further line stripped. */
  function Joined(segs: seq<string>): string
    requires segs != []
  {
    if |segs| == 1 then segs[0] else Joined(segs[..|segs| - 1]) + " " + Strip(segs[|segs| - 1])
  }

  lemma {:induction false} EmptyPasses()
    ensures Passes("")
  {
    assert Strip("") == "";
  }

  /** The scanner in the middle of a declaration. */
  function Gathered(segs: seq<string>, out: seq<string>): Scan {
    if segs == [] then Scan("", 0, out) else Scan(Joined(segs), DepthOf(segs), out)
  }

  lemma {:induction false} LastStep(segs: seq<string>, out: seq<string>)
    requires segs != [] && !Passes(segs[0])
    requires |segs| > 1 ==> Joined(segs[..|segs| - 1]) != ""
    ensures Joined(segs) != ""
    ensures Step(Gathered(segs[..|segs| - 1], out), segs[|segs| - 1])
         == if Finished(segs) then Scan("", 0, out + [Joined(segs)]) else Gathered(segs, out)
  {
    hide Strip, Ends, Parens, Passes;
    EmptyPasses();
    var n := |segs| - 1;
    var st := Gathered(segs[..n], out);
    assert n == 0 ==> segs[..n] == [] && st == Scan("", 0, out);
    assert st.depth + Parens(segs[n]) == DepthOf(segs);
    assert (if st.buf == "" then segs[n] else st.buf + " " + Strip(segs[n])) == Joined(segs);
  }

  /** A declaration none of whose proper prefixes is finished is gathered line by line. */
  lemma {:induction false} Gathers(segs: seq<string>, out: seq<string>)
    requires segs != [] && !Passes(segs[0])
    requires forall k | 0 < k < |segs| :: !Finished(segs[..k])
    ensures Joined(segs) != ""
    ensures Run(Scan("", 0, out), segs)
         == if Finished(segs) then Scan("", 0, out + [Joined(segs)]) else Gathered(segs, out)
  {
    hide Step, Finished, Passes, Joined, DepthOf;
    var n := |segs| - 1;
    var front, last := segs[..n], segs[n];
    assert segs == front + [last];
    if n > 0 {
      forall k | 0 < k < |front| ensures !Finished(front[..k]) {
        assert front[..k] == segs[..k];
      }
      Gathers(front, out);
    }
    RunAppend(Scan("", 0, out), front, [last]);
    assert [last][1..] == [];
    LastStep(segs, out);
  }

  lemma {:induction false} Accumulates(segs: seq<string>, out: seq<string>)
    requires Unfinished(segs)
    ensures Joined(segs) != ""
    ensures Run(Scan("", 0, out), segs) == Scan(Joined(segs), DepthOf(segs), out)
  {
    hide Run, Finished, Passes, Joined, DepthOf;
    assert segs[..|segs|] == segs;
    Gathers(segs, out);
  }

  /** A wrapped declaration yields one line and leaves the scanner as it found it. */
  lemma {:induction false} WrappingYields(segs: seq<string>, out: seq<string>)
    requires Wrapping(segs)
    ensures Run(Scan("", 0, out), segs) == Scan("", 0, out + [Joined(segs)])
  {
    hide Run, Finished, Passes, Joined;
    Gathers(segs, out);
  }

  // ---- every body is declarations and passing lines, then at most one unfinished tail ----

  datatype Item = Plain(line: string) | Decl(segs: seq<string>) {
    predicate Valid() {
      match this
      case Plain(line) => Passes(line)
      case Decl(segs) => Wrapping(segs)
    }

    function Lines(): seq<string> {
      match this
      case Plain(line) => [line]
      case Decl(segs) => segs
    }

    /** The one line that stands for this item. */
    function Line(): string
      requires Valid()
    {
      match this
      case Plain(line) => line
      case Decl(segs) => Joined(segs)
    }
  }

  predicate AllValid(items: seq<Item>) {
    forall i | 0 <= i < |items| :: items[i].Valid()
  }

  function Render(items: seq<Item>): seq<string> {
    if items == [] then [] else items[0].Lines() + Render(items[1..])
  }

  function OneLineEach(items: seq<Item>): seq<string>
    requires AllValid(items)
  {
    if items == [] then [] else [items[0].Line()] + OneLineEach(items[1..])
  }

  lemma {:induction false} ItemYields(item: Item, out: seq<string>)
    requires item.Valid()
    ensures Run(Scan("", 0, out), item.Lines()) == Scan("", 0, out + [item.Line()])
  {
    if item.Decl? {
      WrappingYields(item.segs, out);
    } else {
      assert item.Lines()[1..] == [];
    }
  }

  lemma {:induction false} RunItems(items: seq<Item>, rest: seq<string>, out: seq<string>)
    requires AllValid(items)
    ensures Run(Scan("", 0, out), Render(items) + rest) == Run(Scan("", 0, out + OneLineEach(items)), rest)
    decreases |items|
  {
    hide Run, Passes, Wrapping, Joined;
    if items == [] {
      assert Render(items) + rest == rest;
      assert out + OneLineEach(items) == out;
    } else {
      var here, more := items[0].Lines(), Render(items[1..]) + rest;
      assert Render(items) + rest == here + more;
      RunAppend(Scan("", 0, out), here, more);
      var line, next := items[0].Line(), OneLineEach(items[1..]);
      ItemYields(items[0], out);
      RunItems(items[1..], rest, out + [line]);
      assert OneLineEach(items) == [line] + next;
      assert out + [line] + next == out + ([line] + next);
    }
  }

  lemma {:induction false} StepOut(st: Scan, line: string)
    ensures var n := Step(Scan(st.buf, st.depth, []), line);
            Step(st, line) == Scan(n.buf, n.depth, st.out + n.out)
  {
    hide Passes, Ends, Strip, Parens;
    assert st.out + [] == st.out;
  }

  lemma {:induction false} RunOut(st: Scan, lines: seq<string>)
    ensures var n := Run(Scan(st.buf, st.depth, []), lines);
            Run(st, lines) == Scan(n.buf, n.depth, st.out + n.out)
    decreases |lines|
  {
    hide Step;
    if lines == [] {
      assert st.out + [] == st.out;
    } else {
      var rest, n := lines[1..], Step(Scan(st.buf, st.depth, []), lines[0]);
      StepOut(st, lines[0]);
      RunOut(Step(st, lines[0]), rest);
      RunOut(n, rest);
      var m := Run(Scan(n.buf, n.depth, []), rest);
      assert st.out + (n.out + m.out) == st.out + n.out + m.out;
    }
  }

  /** Wrap invariance inside any surroundings: complete items before, anything at all after. */
  lemma {:induction false} WrapInvariance(items: seq<Item>, rest: seq<string>)
    requires AllValid(items)
    ensures Logical(Render(items) + rest) == OneLineEach(items) + Logical(rest)
  {
    hide Run, Render, Passes, Wrapping, Joined;
    RunItems(items, rest, []);
    RunOut(Scan("", 0, [] + OneLineEach(items)), rest);
  }

  lemma {:induction false} OutGrows(st: Scan, lines: seq<string>)
    ensures |Flush(Run(st, lines))| >= |Flush(st)|
    decreases |lines|
  {
    if lines != [] {
      OutGrows(Step(st, lines[0]), lines[1..]);
    }
  }

  /** Lines after an early finish yield or buffer something more. */
  lemma {:induction false} EarlyFinish(segs: seq<string>, k: nat)
    requires 0 < k < |segs| && Wrapping(segs[..k])
    ensures |Flush(Run(START, segs))| > 1
  {
    hide Passes, Ends, Strip, Parens, Wrapping, Joined, DepthOf;
    var first, rest := segs[..k], segs[k..];
    assert segs == first + rest;
    WrappingYields(first, []);
    RunAppend(START, first, rest);
    var mid := Scan("", 0, [] + [Joined(first)]);
    EmptyPasses();
    OutGrows(Step(mid, rest[0]), rest[1..]);
  }

  /** A block of lines that starts a declaration scans to one whole line if and only if it is a
      wrapping: finished at its last line and not before. */
  lemma {:induction false} WrappingExactly(segs: seq<string>)
    requires segs != [] && !Passes(segs[0])
    ensures Run(START, segs) == Scan("", 0, [Joined(segs)]) <==> Wrapping(segs)
  {
    hide Passes, Finished, Joined, Run;
    if Wrapping(segs) {
      WrappingYields(segs, []);
      assert [] + [Joined(segs)] == [Joined(segs)];
    } else if Unfinished(segs) {
      Accumulates(segs, []);
    } else {
      assert segs[..|segs|] == segs;
      var k := FirstFinish(segs, 1);
      EarlyFinish(segs, k);
    }
  }

  /** The shortest finished prefix, when no shorter one than `from` is finished. */
  lemma {:induction false} FirstFinish(segs: seq<string>, from: nat) returns (k: nat)
    requires 0 < from <= |segs| && !Passes(segs[0])
    requires forall j | 0 < j < from :: !Finished(segs[..j])
    requires exists j | from <= j <= |segs| :: Finished(segs[..j])
    ensures from <= k <= |segs| && Wrapping(segs[..k])
    decreases |segs| - from
  {
    if Finished(segs[..from]) {
      k := from;
      forall j | 0 < j < k ensures !Finished(segs[..k][..j]) {
        assert segs[..k][..j] == segs[..j];
      }
    } else {
      k := FirstFinish(segs, from + 1);
    }
  }

  /** The reference reading of a body, with no scanner in it: every list of lines is a list of
      passing lines and wrapped declarations followed by at most one unfinished declaration, and
      `logical_lines` yields exactly one line for each. */
  lemma {:induction false} Decompose(lines: seq<string>) returns (items: seq<Item>, tail: seq<string>)
    ensures AllValid(items) && lines == Render(items) + tail
    ensures tail == [] || Unfinished(tail)
    ensures Logical(lines) == OneLineEach(items) + (if tail == [] then [] else [Joined(tail)])
    decreases |lines|
  {
    if lines == [] {
      items, tail := [], [];
    } else if Unfinished(lines) {
      items, tail := [], lines;
    } else {
      var item, rest := FirstItem(lines);
      items, tail := Decompose(rest);
      ItemFirst(item, items, tail);
      items := [item] + items;
    }
    hide *;
    LogicalOf(items, tail);
  }

  lemma {:induction false} FirstItem(lines: seq<string>) returns (item: Item, rest: seq<string>)
    requires lines != [] && !Unfinished(lines)
    ensures item.Valid() && lines == item.Lines() + rest && |rest| < |lines|
  {
    hide Passes, Finished;
    if Passes(lines[0]) {
      item, rest := Plain(lines[0]), lines[1..];
    } else {
      var k := FirstFinish(lines, 1);
      item, rest := Decl(lines[..k]), lines[k..];
    }
  }

  lemma {:induction false} ItemFirst(item: Item, items: seq<Item>, tail: seq<string>)
    requires item.Valid() && AllValid(items)
    ensures AllValid([item] + items)
    ensures Render([item] + items) + tail == item.Lines() + (Render(items) + tail)
  {
    hide Passes, Wrapping;
    assert ([item] + items)[1..] == items;
  }

  lemma {:induction false} LogicalOf(items: seq<Item>, tail: seq<string>)
    requires AllValid(items) && (tail == [] || Unfinished(tail))
    ensures Logical(Render(items) + tail) == OneLineEach(items) + (if tail == [] then [] else [Joined(tail)])
  {
    WrapInvariance(items, tail);
    LogicalTail(tail);
  }

  lemma {:induction false} LogicalTail(tail: seq<string>)
    requires tail == [] || Unfinished(tail)
    ensures Logical(tail) == if tail == [] then [] else [Joined(tail)]
  {
    hide Strip;
    if tail != [] {
      Accumulates(tail, []);
    }
  }

  // ---- conservation ----------------------------------------------------------------------

  lemma {:induction false} SqueezeAround(a: string, w: string, b: string)
    requires AllSpace(w)
    ensures Squeeze(a + w + b) == Squeeze(a) + Squeeze(b)
  {
    SqueezeAppend(a + w, b);
    SqueezeAppend(a, w);
    SqueezeSpace(w);
  }

  lemma {:induction false} OutSqueeze(out: seq<string>, line: string)
    ensures Squeeze(Concat(out + [line])) == Squeeze(Concat(out)) + Squeeze(line)
  {
    ConcatAppend(out, [line]);
    assert Concat([line]) == line + Concat([]) == line;
    SqueezeAppend(Concat(out), line);
  }

  lemma {:induction false} JoinSqueeze(buf: string, line: string)
    ensures Squeeze(buf + " " + Strip(line)) == Squeeze(buf) + Squeeze(line)
  {
    SqueezeAround(buf, " ", Strip(line));
    SqueezeStrip(line);
  }

  lemma {:induction false} StepConserves(st: Scan, line: string)
    ensures var n := Step(st, line);
            Squeeze(Concat(n.out)) + Squeeze(n.buf)
            == Squeeze(Concat(st.out)) + Squeeze(st.buf) + Squeeze(line)
  {
    hide Strip, Count, Ends, Passes, Squeeze, Concat;
    assert Squeeze("") == "" by { SqueezeSpace(""); }
    JoinSqueeze(st.buf, line);
    OutSqueeze(st.out, line);
    OutSqueeze(st.out, st.buf + " " + Strip(line));
    assert Squeeze(Concat(st.out)) + (Squeeze(st.buf) + Squeeze(line))
        == Squeeze(Concat(st.out)) + Squeeze(st.buf) + Squeeze(line);
  }

  lemma {:induction false} RunConserves(st: Scan, lines: seq<string>)
    ensures var n := Run(st, lines);
            Squeeze(Concat(n.out)) + Squeeze(n.buf)
            == Squeeze(Concat(st.out)) + Squeeze(st.buf) + Squeeze(Concat(lines))
    decreases |lines|
  {
    if lines != [] {
      StepConserves(st, lines[0]);
      RunConserves(Step(st, lines[0]), lines[1..]);
      SqueezeAppend(lines[0], Concat(lines[1..]));
    }
  }

  /** Nothing but white space is added, dropped or moved. */
  lemma {:induction false} LinesConserveText(lines: seq<string>)
    ensures Squeeze(Concat(Logical(lines))) == Squeeze(Concat(lines))
  {
    RunConserves(START, lines);
    var st := Run(START, lines);
    hide Run, Strip;
    assert Concat([]) == "" && Squeeze("") == "";
    assert Squeeze(Concat(st.out)) + Squeeze(st.buf) == Squeeze(Concat(lines));
    if st.buf != "" {
      ConcatAppend(st.out, [st.buf]);
      SqueezeAppend(Concat(st.out), Concat([st.buf]));
      assert Concat([st.buf]) == st.buf + Concat([]) == st.buf;
    }
  }

  // ---- `str.splitlines` ------------------------------------------------------------------

  predicate IsBreak(c: char) {
    || ('\n' <= c <= '\r') || ('\U{1C}' <= c <= '\U{1E}')
    || c == '\U{85}' || c == '\U{2028}' || c == '\U{2029}'
  }

  function ToBreak(t: string): (k: nat)
    ensures k <= |t|
  {
    if t == "" || IsBreak(t[0]) then 0 else 1 + ToBreak(t[1..])
  }

  /** The width of the line break at the start of `t`: a carriage return takes its line feed. */
  function BreakWidth(t: string): (w: nat)
    requires t != "" && IsBreak(t[0])
    ensures 0 < w <= |t|
  {
    if t[0] == '\r' && |t| > 1 && t[1] == '\n' then 2 else 1
  }

  lemma {:induction false} BreakHere(t: string)
    requires ToBreak(t) < |t|
    ensures IsBreak(t[ToBreak(t)])
  {
    if !IsBreak(t[0]) {
      BreakHere(t[1..]);
    }
  }

  function SplitLines(t: string): seq<string>
    decreases |t|
  {
    var k := ToBreak(t);
    if t == "" then []
    else if k == |t| then [t]
    else [t[..k]] + SplitLines(AfterBreak(t))
  }

  /** The text from the first line break on. */
  function FromBreak(t: string): (more: string)
    requires ToBreak(t) < |t|
    ensures more != "" && IsBreak(more[0])
  {
    BreakHere(t);
    t[ToBreak(t)..]
  }

  /** What follows the first line break. */
  function AfterBreak(t: string): (rest: string)
    requires ToBreak(t) < |t|
    ensures |rest| < |t|
  {
    FromBreak(t)[BreakWidth(FromBreak(t))..]
  }

  lemma {:induction false} BreakIsSpace(t: string)
    requires t != "" && IsBreak(t[0])
    ensures AllSpace(t[..BreakWidth(t)])
  {
  }

  lemma {:induction false} CutSqueeze(line: string, more: string, w: nat)
    requires w <= |more| && AllSpace(more[..w])
    ensures Squeeze(line + more) == Squeeze(line) + Squeeze(more[w..])
  {
    SqueezeAround(line, more[..w], more[w..]);
    assert line + more[..w] + more[w..] == line + more;
  }

  lemma {:induction false} BreakSqueeze(t: string)
    requires ToBreak(t) < |t|
    ensures Squeeze(t) == Squeeze(t[..ToBreak(t)]) + Squeeze(AfterBreak(t))
  {
    var line, more := t[..ToBreak(t)], FromBreak(t);
    assert t == line + more;
    hide *;
    BreakIsSpace(more);
    CutSqueeze(line, more, BreakWidth(more));
  }

  lemma {:induction false} SplitLinesConserves(t: string)
    ensures Squeeze(Concat(SplitLines(t))) == Squeeze(t)
    decreases |t|
  {
    hide Squeeze, AfterBreak, ToBreak;
    var k := ToBreak(t);
    if t == "" {
    } else if k == |t| {
      assert Concat([t]) == t + Concat([]) == t;
    } else {
      var more := SplitLines(AfterBreak(t));
      SplitLinesConserves(AfterBreak(t));
      BreakSqueeze(t);
      assert ([t[..k]] + more)[1..] == more;
      SqueezeAppend(t[..k], Concat(more));
    }
  }

  /** `logical_lines` of a whole class body keeps the body's text, in order. */
  lemma {:induction false} BodyTextConserved(body: string)
    ensures Squeeze(Concat(Logical(SplitLines(body)))) == Squeeze(body)
  {
    LinesConserveText(SplitLines(body));
    SplitLinesConserves(body);
  }

  // ---- one line of text, wrapped differently ---------------------------------------------

  /** No blanks are left at the end of the first line, if another line follows. */
  predicate Tidy(segs: seq<string>)
    requires segs != []
  {
    |segs| == 1 || EndsWith(segs[0], Strip(segs[0]))
  }

  lemma {:induction false} JoinLast(pieces: seq<string>)
    requires |pieces| > 1
    ensures Join(pieces, " ") == Join(pieces[..|pieces| - 1], " ") + " " + pieces[|pieces| - 1]
  {
    var front, last := pieces[..|pieces| - 1], pieces[|pieces| - 1];
    if |pieces| == 2 {
      assert pieces[1..] == [last];
    } else {
      JoinLast(pieces[1..]);
      assert pieces[1..][..|pieces| - 2] == front[1..];
      assert front[0] + " " + (Join(front[1..], " ") + " " + last)
          == (front[0] + " " + Join(front[1..], " ")) + " " + last;
    }
  }

  /** The first line stands as it is in the joined text, and stripped in the unwrapped one; the rest
      is the same in both. */
  lemma {:induction false} JoinedRest(segs: seq<string>) returns (rest: string)
    requires segs != []
    ensures Joined(segs) == segs[0] + rest && Join(StripEach(segs), " ") == Strip(segs[0]) + rest
    ensures if |segs| == 1 then rest == "" else |rest| > 0 && rest[0] == ' ' && EndsWith(rest, Strip(segs[|segs| - 1]))
  {
    hide Strip;
    var n := |segs| - 1;
    var pieces := StripEach(segs);
    if n == 0 {
      rest := "";
    } else {
      var front := JoinedRest(segs[..n]);
      assert StripEach(segs[..n]) == pieces[..n];
      JoinLast(pieces);
      rest := front + " " + pieces[n];
      assert segs[0] + front + " " + pieces[n] == segs[0] + rest;
      assert pieces[0] + front + " " + pieces[n] == pieces[0] + rest;
    }
  }

  /** Stripped, the joined line is the lines' own texts with one blank between them if and only if the
      first line leaves no blanks at its end. */
  lemma {:induction false} JoinedIsTheText(segs: seq<string>)
    requires segs != [] && Strip(segs[0]) != "" && Strip(segs[|segs| - 1]) != ""
    ensures Strip(Joined(segs)) == Join(StripEach(segs), " ") <==> Tidy(segs)
  {
    var rest := JoinedRest(segs);
    var a, b := StripSplits(segs[0]);
    var p := Strip(segs[0]);
    if |segs| == 1 {
      assert p + rest == p && segs[0] + rest == segs[0];
    } else {
      var last := Strip(segs[|segs| - 1]);
      var _, _ := StripSplits(segs[|segs| - 1]);
      hide Strip, Joined, StripEach, Join;
      LastSolid(rest, last);
      StripMiddle(a, p, b, rest);
      TidyExactly(a, p, b);
      assert p + b + rest == p + rest <==> b == "" by {
        assert |p + b + rest| == |p + rest| + |b|;
        assert p + "" == p;
      }
    }
  }

  lemma {:induction false} LastSolid(s: string, t: string)
    requires EndsWith(s, t) && t != "" && Trimmed(t)
    ensures s != "" && !IsSpace(s[|s| - 1])
  {
    assert s[|s| - |t|..][|t| - 1] == s[|s| - 1];
  }

  lemma {:induction false} StripMiddle(a: string, p: string, b: string, rest: string)
    requires AllSpace(a) && p != "" && !IsSpace(p[0]) && rest != "" && !IsSpace(rest[|rest| - 1])
    ensures Strip(a + p + b + rest) == p + b + rest
  {
    var inner := p + b + rest;
    assert inner[0] == p[0] && inner[|inner| - 1] == rest[|rest| - 1];
    assert a + p + b + rest == a + inner + "";
    StripIs(a, inner, "");
  }

  lemma {:induction false} TidyExactly(a: string, p: string, b: string)
    requires AllSpace(b) && p != "" && !IsSpace(p[|p| - 1])
    ensures EndsWith(a + p + b, p) <==> b == ""
  {
    var s := a + p + b;
    if b == "" {
      assert s[|s| - |p|..] == p;
    } else {
      assert s[|s| - 1] == b[|b| - 1];
      assert s[|s| - |p|..][|p| - 1] == s[|s| - 1];
    }
  }

  /** With no proviso on blanks anywhere: normalised, the joined line is the unwrapped text. */
  lemma {:induction false} JoinedNormalised(segs: seq<string>)
    requires segs != []
    ensures Collapse(Joined(segs)) == Collapse(Join(StripEach(segs), " "))
  {
    hide Strip, Collapse;
    var n := |segs| - 1;
    var pieces := StripEach(segs);
    if n == 0 {
      CollapseStrip(segs[0]);
    } else {
      JoinedNormalised(segs[..n]);
      assert StripEach(segs[..n]) == pieces[..n];
      JoinLast(pieces);
      CollapseApart(Joined(segs[..n]), " ", pieces[n]);
      CollapseApart(Join(pieces[..n], " "), " ", pieces[n]);
    }
  }

  lemma {:induction false} CollapseStrip(s: string)
    ensures Collapse(Strip(s)) == Collapse(s)
  {
    var _, _ := StripSplits(s);
    StripTrimmed(Strip(s));
  }

  /** Anywhere in a body, a wrapped declaration yields one line, and normalised that line is the
      declaration's own text, whatever the wrapping. */
  lemma {:induction false} WrapNormalised(before: seq<Item>, segs: seq<string>, rest: seq<string>)
    requires AllValid(before) && Wrapping(segs)
    ensures Logical(Render(before) + segs + rest) == OneLineEach(before) + [Joined(segs)] + Logical(rest)
    ensures Collapse(Joined(segs)) == Collapse(Join(StripEach(segs), " "))
  {
    assert segs != [];
    hide *;
    OneItem(segs, rest);
    WrapInvariance(before, segs + rest);
    Regrouped(Render(before), segs, rest);
    Regrouped(OneLineEach(before), [Joined(segs)], Logical(rest));
    JoinedNormalised(segs);
  }

  lemma {:induction false} Regrouped(a: seq<string>, b: seq<string>, c: seq<string>)
    ensures a + b + c == a + (b + c)
  {
  }

  lemma {:induction false} OneItem(segs: seq<string>, rest: seq<string>)
    requires Wrapping(segs)
    ensures Logical(segs + rest) == [Joined(segs)] + Logical(rest)
  {
    assert segs != [];
    hide Wrapping, Logical, Joined;
    var items := [Decl(segs)];
    assert AllValid(items) && items[1..] == [];
    assert Render(items) == segs + [] == segs;
    assert OneLineEach(items) == [Joined(segs)] + [];
    WrapInvariance(items, rest);
  }

  // ---- idempotence -----------------------------------------------------------------------

  lemma {:induction false} StripStart(x: string, y: string)
    requires Strip(x) != ""
    ensures var s := Strip(x + " " + y);
            s != "" && s[0] == Strip(x)[0] &&
            (|s| > 1 ==> if |Strip(x)| > 1 then s[1] == Strip(x)[1] else IsSpace(s[1]))
  {
    var a, b := StripSplits(x);
    var p, u := Strip(x), b + " " + y;
    assert x + " " + y == a + (p + u);
    LStripSkips(a, p + u);
    assert LStrip(p + u) == p + u by { assert (p + u)[0] == p[0]; }
    RStripKeeps(p, u);
    assert IsSpace(u[0]);
  }

  /** The first line decides that a joined declaration is neither blank nor a comment. */
  lemma {:induction false} CommentStart(x: string, y: string)
    requires var p := Strip(x); p != "" && !StartsWith(p, "//") && !StartsWith(p, "#")
    ensures var s := Strip(x + " " + y); s != "" && !StartsWith(s, "//") && !StartsWith(s, "#")
  {
    StripStart(x, y);
    var s, p := Strip(x + " " + y), Strip(x);
    hide Strip;
  }

  lemma {:induction false} ParensJoin(x: string, y: string)
    ensures Parens(x + " " + Strip(y)) == Parens(x) + Parens(y)
  {
    CountAppend(x + " ", Strip(y), '(');
    CountAppend(x, " ", '(');
    CountStrip(y, '(');
    CountAppend(x + " ", Strip(y), ')');
    CountAppend(x, " ", ')');
    CountStrip(y, ')');
  }

  lemma {:induction false} JoinedShape(segs: seq<string>)
    requires segs != [] && !Passes(segs[0])
    ensures Parens(Joined(segs)) == DepthOf(segs)
    ensures var s := Strip(Joined(segs)); s != "" && !StartsWith(s, "//") && !StartsWith(s, "#")
  {
    var n := |segs| - 1;
    if n == 0 {
      assert segs[..0] == [];
    } else {
      JoinedShape(segs[..n]);
      CommentStart(Joined(segs[..n]), Strip(segs[n]));
      ParensJoin(Joined(segs[..n]), segs[n]);
    }
  }

  lemma {:induction false} StripEnd(x: string, y: string)
    requires Trimmed(y) && y != ""
    ensures var s := Strip(x + " " + y); s != "" && s[|s| - 1] == y[|y| - 1]
  {
    LStripKeeps(x + " ", y);
    var t := LStrip(x + " " + y);
    assert t[|t| - 1] == t[|t| - |y|..][|y| - 1] == y[|y| - 1];
  }

  lemma {:induction false} JoinedEnds(segs: seq<string>)
    requires segs != [] && Ends(segs[|segs| - 1])
    ensures Ends(Joined(segs)) && !EndsWith(Strip(Joined(segs)), ":")
  {
    var n := |segs| - 1;
    var y := Strip(segs[n]);
    LastOfEnd(y);
    if n > 0 {
      var _, _ := StripSplits(segs[n]);
      StripEnd(Joined(segs[..n]), y);
      LastOfEnd(Strip(Joined(segs)));
    }
  }

  lemma {:induction false} LastOfEnd(s: string)
    ensures forall c {:trigger EndsWith(s, [c])} :: EndsWith(s, [c]) <==> s != "" && s[|s| - 1] == c
  {
    forall c {:trigger EndsWith(s, [c])} ensures EndsWith(s, [c]) <==> s != "" && s[|s| - 1] == c {
      if s != "" {
        assert s[|s| - 1..] == [s[|s| - 1]];
        assert s[|s| - 1..] == [c] <==> s[|s| - 1] == c by {
          assert [c][0] == c;
        }
      }
    }
  }

  /** A joined declaration is itself a declaration on one line. */
  lemma {:induction false} JoinedIsWhole(segs: seq<string>)
    requires Wrapping(segs)
    ensures Wrapping([Joined(segs)])
  {
    JoinedShape(segs);
    JoinedEnds(segs);
    var one := [Joined(segs)];
    assert one[..0] == [];
    assert DepthOf(one) == Parens(Joined(segs));
  }

  /** The item with its declaration, if it is one, on a single line. */
  function OnOneLine(item: Item): (one: Item)
    requires item.Valid()
    ensures one.Valid() && one.Lines() == [item.Line()] && one.Line() == item.Line()
  {
    match item
    case Plain(_) => item
    case Decl(segs) => JoinedIsWhole(segs); Decl([Joined(segs)])
  }

  function Unwrapped(items: seq<Item>): (r: seq<Item>)
    requires AllValid(items)
    ensures AllValid(r)
  {
    if items == [] then [] else [OnOneLine(items[0])] + Unwrapped(items[1..])
  }

  lemma {:induction false} UnwrappedSame(items: seq<Item>)
    requires AllValid(items)
    ensures Render(Unwrapped(items)) == OneLineEach(items) == OneLineEach(Unwrapped(items))
  {
    hide OnOneLine;
    if items != [] {
      var head, rest := OnOneLine(items[0]), Unwrapped(items[1..]);
      UnwrappedSame(items[1..]);
      assert Unwrapped(items) == [head] + rest;
      assert ([head] + rest)[1..] == rest;
    }
  }

  lemma {:induction false} SingleLine(line: string)
    requires line != ""
    ensures Logical([line]) == [line]
  {
    hide Strip;
    assert [line][1..] == [];
    assert Run(START, [line]) == Step(START, line);
    assert [] + [line] == [line];
  }

  /** Running the joiner on its own output changes nothing. */
  lemma {:induction false} LogicalIdempotent(lines: seq<string>)
    ensures Logical(Logical(lines)) == Logical(lines)
  {
    var items, tail := Decompose(lines);
    UnwrappedSame(items);
    var last := if tail == [] then [] else [Joined(tail)];
    WrapInvariance(Unwrapped(items), last);
    if tail != [] {
      Accumulates(tail, []);
      SingleLine(Joined(tail));
    } else {
      assert Logical(last) == last;
    }
  }

  lemma {:induction false} OneLineEachAt(items: seq<Item>, i: nat)
    requires AllValid(items) && i < |items|
    ensures |OneLineEach(items)| == |items| && OneLineEach(items)[i] == items[i].Line()
    decreases i
  {
    if i > 0 {
      OneLineEachAt(items[1..], i - 1);
    } else {
      OneLineEachLength(items);
    }
  }

  lemma {:induction false} OneLineEachLength(items: seq<Item>)
    requires AllValid(items)
    ensures |OneLineEach(items)| == |items|
  {
    if items != [] {
      OneLineEachLength(items[1..]);
    }
  }
}
