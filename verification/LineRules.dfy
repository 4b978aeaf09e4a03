/** The rules of `logical_lines` over its own output: which lines are yielded alone, how many lines a
    declaration takes, and what its line reads, every character written out. */
module LineRules {
  import opened Text
  import opened LogicalLines

  /** What no declaration starts with: a blank line, a comment, a preprocessor line, an access label. */
  predicate Alone(line: string) {
    var s := Strip(line);
    s == "" || s[0] == '#' || (|s| > 1 && s[0] == '/' && s[1] == '/') || s[|s| - 1] == ':'
  }

  /** The last line ends in `;`, `{` or `}`, and in all the text no more parens open than close. */
  predicate Complete(block: seq<string>) {
    && block != []
    && (var s := Strip(block[|block| - 1]); s != "" && s[|s| - 1] in {';', '{', '}'})
    && Count(Concat(block), '(') <= Count(Concat(block), ')')
  }

  /** The line of a declaration: the first as it stands, then a blank and the text of each further one. */
  function LineOf(block: seq<string>): string
    requires block != []
  {
    if |block| == 1 then block[0] else block[0] + " " + Join(StripEach(block[1..]), " ")
  }

  // ---- the scanner's predicates, in these words --------------------------------------------

  lemma {:induction false} PassesIs(line: string)
    ensures Passes(line) <==> Alone(line)
  {
    var s := Strip(line);
    LastOfEnd(s);
    assert ":" == [':'] && "#" == ['#'];
    hide Strip;
    assert StartsWith(s, "#") <==> s != "" && s[0] == '#' by {
      assert |s| > 0 ==> s[..1] == [s[0]];
    }
    assert StartsWith(s, "//") <==> |s| > 1 && s[0] == '/' && s[1] == '/' by {
      assert |s| > 1 ==> s[..2] == [s[0], s[1]];
    }
  }

  lemma {:induction false} EndsIs(line: string)
    ensures Ends(line) <==> Strip(line) != "" && Strip(line)[|Strip(line)| - 1] in {';', '{', '}'}
  {
    LastOfEnd(Strip(line));
    hide Strip;
    assert ";" == [';'] && "{" == ['{'] && "}" == ['}'];
  }

  lemma {:induction false} DepthIs(block: seq<string>)
    ensures DepthOf(block) == Count(Concat(block), '(') - Count(Concat(block), ')')
  {
    if block != [] {
      var front, last := block[..|block| - 1], block[|block| - 1];
      DepthIs(front);
      assert block == front + [last];
      ConcatAppend(front, [last]);
      assert Concat([last]) == last + Concat([]) == last;
      CountAppend(Concat(front), last, '(');
      CountAppend(Concat(front), last, ')');
    }
  }

  lemma {:induction false} FinishedIs(block: seq<string>)
    ensures Finished(block) <==> Complete(block)
  {
    DepthIs(block);
    if block != [] {
      EndsIs(block[|block| - 1]);
    }
    hide Strip, Count, Concat, DepthOf, Ends;
  }

  lemma {:induction false} JoinedIs(block: seq<string>)
    requires block != []
    ensures Joined(block) == LineOf(block)
  {
    hide Strip, LineOf;
    if |block| > 1 {
      JoinedIs(block[..|block| - 1]);
      LineOfNext(block);
    } else {
      LineOfOne(block);
    }
  }

  lemma {:induction false} LineOfOne(block: seq<string>)
    requires |block| == 1
    ensures LineOf(block) == block[0]
  {
  }

  lemma {:induction false} LineOfNext(block: seq<string>)
    requires |block| > 1
    ensures LineOf(block) == LineOf(block[..|block| - 1]) + " " + Strip(block[|block| - 1])
  {
    hide Strip;
    var n := |block| - 1;
    var rest := StripEach(block[1..]);
    assert rest[|rest| - 1] == Strip(block[n]);
    if n == 1 {
      assert rest == [Strip(block[1])];
    } else {
      assert rest[..n - 1] == StripEach(block[..n][1..]);
      JoinLast(rest);
      hide StripEach, Join;
      OneBlankMore(block[0], Join(rest[..n - 1], " "), Strip(block[n]));
    }
  }

  lemma {:induction false} OneBlankMore(a: string, b: string, c: string)
    ensures a + " " + b + " " + c == a + " " + (b + " " + c)
  {
  }

  // ---- what is yielded ---------------------------------------------------------------------

  /** A declaration takes as few lines as complete it, wherever it stands, and is one line. */
  lemma {:induction false} FewestLines(block: seq<string>, rest: seq<string>)
    requires block != [] && !Alone(block[0]) && Complete(block)
    requires forall k | 0 < k < |block| :: !Complete(block[..k])
    ensures Logical(block + rest) == [LineOf(block)] + Logical(rest)
  {
    hide Alone, Complete, Joined, LineOf, Logical;
    WrappingIs(block);
    OneItem(block, rest);
    JoinedIs(block);
  }

  lemma {:induction false} WrappingIs(block: seq<string>)
    requires block != [] && !Alone(block[0]) && Complete(block)
    requires forall k | 0 < k < |block| :: !Complete(block[..k])
    ensures Wrapping(block)
  {
    hide Alone, Complete, Passes, Finished;
    PassesIs(block[0]);
    FinishedIs(block);
    forall k | 0 < k < |block| ensures !Finished(block[..k]) {
      FinishedIs(block[..k]);
    }
  }

  /** A declaration that nothing completes takes all the lines that are left. */
  lemma {:induction false} NeverComplete(block: seq<string>)
    requires block != [] && !Alone(block[0])
    requires forall k | 0 < k <= |block| :: !Complete(block[..k])
    ensures Logical(block) == [LineOf(block)]
  {
    hide Alone, Complete, Passes, Finished, Logical, Joined;
    PassesIs(block[0]);
    forall k | 0 < k <= |block| ensures !Finished(block[..k]) {
      FinishedIs(block[..k]);
    }
    LogicalTail(block);
    JoinedIs(block);
  }

  lemma {:induction false} PlainFirst(line: string, rest: seq<string>)
    requires Alone(line)
    ensures Logical([line] + rest) == [line] + Logical(rest)
  {
    hide Logical, Passes, Alone;
    PassesIs(line);
    var items := [Plain(line)];
    assert items[1..] == [] && Render(items) == [line] + [] == [line];
    assert OneLineEach(items) == [line] + [];
    WrapInvariance(items, rest);
  }

  lemma {:induction false} NothingLogical()
    ensures Logical([]) == []
  {
  }

  /** The first line of a declaration that goes on is not yielded as it is. */
  lemma {:induction false} GoesOn(line: string, rest: seq<string>)
    requires rest != [] && !Alone(line) && !Complete([line])
    ensures Logical([line] + rest) != [] && |Logical([line] + rest)[0]| > |line|
  {
    hide Alone, Complete, Logical;
    var all := [line] + rest;
    assert all[..1] == [line];
    if k :| 0 < k <= |all| && Complete(all[..k]) {
      var n := Fewest(all, 1, k);
      assert forall j | 0 < j < n :: all[..n][..j] == all[..j];
      FewestLines(all[..n], all[n..]);
      assert all == all[..n] + all[n..];
    } else {
      assert all[..|all|] == all;
      NeverComplete(all);
    }
  }

  lemma {:induction false} Fewest(all: seq<string>, from: nat, k: nat) returns (n: nat)
    requires 0 < from <= k <= |all| && Complete(all[..k])
    requires forall j | 0 < j < from :: !Complete(all[..j])
    ensures from <= n <= k && Complete(all[..n]) && forall j | 0 < j < n :: !Complete(all[..j])
    decreases k - from
  {
    hide Complete;
    if Complete(all[..from]) {
      n := from;
    } else {
      n := Fewest(all, from + 1, k);
    }
  }

  /** A line that others follow is yielded alone, and does not touch them, if and only if it is blank, a
      comment, a preprocessor line or a label, or it is a declaration complete as it stands. */
  lemma {:induction false} StandsAlone(line: string, rest: seq<string>)
    requires rest != []
    ensures Logical([line] + rest) == [line] + Logical(rest) <==> Alone(line) || Complete([line])
  {
    hide Alone, Complete, Logical;
    if Alone(line) {
      PlainFirst(line, rest);
    } else if Complete([line]) {
      FewestLines([line], rest);
      assert LineOf([line]) == line;
    } else {
      GoesOn(line, rest);
    }
  }

  /** Every text is read by these rules and no other: from the first line on, a line alone, the fewest
      lines that complete a declaration, or all that is left. */
  lemma {:induction false} FirstRead(lines: seq<string>) returns (n: nat)
    requires lines != []
    ensures 0 < n <= |lines|
    ensures Logical(lines) == [LineOf(lines[..n])] + Logical(lines[n..])
    ensures Alone(lines[0]) ==> n == 1
    ensures !Alone(lines[0]) ==> (Complete(lines[..n]) || n == |lines|) && forall k | 0 < k < n :: !Complete(lines[..k])
  {
    hide Alone, Complete, Logical;
    assert lines == [lines[0]] + lines[1..] && lines[..1] == [lines[0]];
    if Alone(lines[0]) {
      n := 1;
      PlainFirst(lines[0], lines[1..]);
    } else if k :| 0 < k <= |lines| && Complete(lines[..k]) {
      n := Fewest(lines, 1, k);
      assert forall j | 0 < j < n :: lines[..n][..j] == lines[..j];
      FewestLines(lines[..n], lines[n..]);
      assert lines == lines[..n] + lines[n..];
    } else {
      n := |lines|;
      assert lines[..n] == lines && lines[n..] == [];
      NeverComplete(lines);
      NothingLogical();
    }
  }

  // ---- `str.splitlines` --------------------------------------------------------------------

  /** What ends a line. */
  predicate Newline(br: string) {
    || br in {"\n", "\r", "\r\n", "\U{0B}", "\U{0C}", "\U{1C}", "\U{1D}", "\U{1E}"}
    || br in {"\U{85}", "\U{2028}", "\U{2029}"}
  }

  predicate NoNewline(line: string) {
    forall i | 0 <= i < |line| :: !Newline([line[i]])
  }

  lemma {:induction false} BreakIs(c: char)
    ensures IsBreak(c) <==> Newline([c])
  {
    hide IsBreak;
    var s := [c];
    assert s == "\n" <==> c == '\n';
    assert s == "\r" <==> c == '\r';
    assert s != "\r\n";
    assert s == "\U{0B}" <==> c == '\U{0B}';
    assert s == "\U{0C}" <==> c == '\U{0C}';
    assert s == "\U{1C}" <==> c == '\U{1C}';
    assert s == "\U{1D}" <==> c == '\U{1D}';
    assert s == "\U{1E}" <==> c == '\U{1E}';
    assert s == "\U{85}" <==> c == '\U{85}';
    assert s == "\U{2028}" <==> c == '\U{2028}';
    assert s == "\U{2029}" <==> c == '\U{2029}';
    BreakChars(c);
  }

  lemma {:induction false} BreakChars(c: char)
    ensures IsBreak(c)
       <==> c in {'\n', '\U{0B}', '\U{0C}', '\r', '\U{1C}', '\U{1D}', '\U{1E}', '\U{85}', '\U{2028}', '\U{2029}'}
  {
  }

  lemma {:induction false} ToBreakIs(line: string, more: string)
    requires NoNewline(line) && (more == "" || IsBreak(more[0]))
    ensures ToBreak(line + more) == |line|
  {
    if line == "" {
      assert line + more == more;
    } else {
      BreakIs(line[0]);
      assert (line + more)[1..] == line[1..] + more;
      ToBreakIs(line[1..], more);
    }
  }

  /** The text up to the first line end is a line, and the rest is split the same way; a carriage return
      and the line feed after it are one line end, and no empty line is left after the last one. */
  lemma {:induction false} SplitFirst(line: string, br: string, rest: string)
    requires NoNewline(line) && Newline(br) && !(br == "\r" && rest != "" && rest[0] == '\n')
    ensures SplitLines(line + br + rest) == [line] + SplitLines(rest)
  {
    var more := br + rest;
    var t := line + more;
    assert line + br + rest == t;
    BreakIs(br[0]);
    assert br == "\r\n" ==> br[0] == '\r' && IsBreak('\r');
    assert |br| == 1 ==> br == [br[0]];
    assert IsBreak(more[0]);
    ToBreakIs(line, more);
    assert t[..|line|] == line && t[|line|..] == more;
    assert BreakWidth(more) == |br|;
    assert more[|br|..] == rest;
  }

  lemma {:induction false} SplitLast(line: string)
    requires NoNewline(line)
    ensures SplitLines(line) == if line == "" then [] else [line]
  {
    assert line + "" == line;
    ToBreakIs(line, "");
  }
}
