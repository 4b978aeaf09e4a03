/** Declarations that a wrap may break next to a parenthesis or a comma as well: what a method
    declaration says is its head, its parameters and its tail. */
module Signatures {
  import opened Options
  import opened Text
  import opened Names
  import opened Bindings
  import opened LogicalLines
  import opened ParamSplit
  import opened MethodPattern
  import opened WrapGaps
  import opened ClassParse

  // ---- one declaration, spelled in many ways -----------------------------------------------

  /** The parts of a declaration: a head, parameters split where the source splits them, a tail. */
  predicate WellFormed(head: string, params: seq<string>, tail: string) {
    && Trimmed(head) && Lacks(head, "(;{") && head != "static" && head != "struct"
    && (forall i | 0 <= i < |params| :: Lacks(params[i], ENDERS))
    && Trimmed(tail) && ')' !in tail[..FirstOf(tail, ENDERS)]
  }

  /** The text is that declaration with white space, or none, on either side of both parens and
      around every parameter. */
  ghost predicate Spells(s: string, head: string, params: seq<string>, tail: string) {
    exists a, b, padded :: SpelledBy(s, head, params, tail, a, b, padded)
  }

  predicate SpelledBy(s: string, head: string, params: seq<string>, tail: string, a: string, b: string,
                      padded: seq<string>) {
    && AllSpace(a) && AllSpace(b) && Splittable(padded) && StripEach(padded) == params
    && s == head + a + "(" + Join(padded, ",") + ")" + b + tail
  }

  /** What such a declaration declares. */
  function MethodSaid(head: string, params: seq<string>, tail: string): Option<Declared>
    requires params != []
  {
    var h, t := RetAndName(head), ConstAfter(tail);
    if h.None? || t.None? then None
    else Some(Declared(h.value.0, h.value.1, Each(Listed(params)), t.value))
  }

  lemma {:induction false} StripLacks(s: string, chars: string)
    requires Lacks(Strip(s), chars) && forall c | c in chars :: !IsSpace(c)
    ensures Lacks(s, chars)
  {
    var a, b := StripSplits(s);
    SpaceLacks(a, chars);
    SpaceLacks(b, chars);
  }

  lemma {:induction false} JoinLacks(ps: seq<string>, chars: string)
    requires ',' !in chars && forall i | 0 <= i < |ps| :: Lacks(ps[i], chars)
    ensures Lacks(Join(ps, ","), chars)
  {
    if |ps| > 1 {
      JoinLacks(ps[1..], chars);
    }
  }

  lemma {:induction false} LacksFewer(s: string, chars: string, fewer: string)
    requires Lacks(s, chars) && forall c | c in fewer :: c in chars
    ensures Lacks(s, fewer)
  {
  }

  lemma {:induction false} EnderChars()
    ensures '(' !in ENDERS && ')' !in ENDERS && forall c | c in ENDERS :: c in "(;{"
  {
  }

  lemma {:induction false} PartsAre(h: string, inner: string, t: string)
    requires Lacks(h, "(;{") && Lacks(inner, ENDERS) && ')' !in t[..FirstOf(t, ENDERS)]
    ensures PartsOf(h + "(" + inner + ")" + t) == Parens(h, inner, t)
  {
    EnderChars();
    LacksFewer(h, "(;{", ENDERS);
    LacksFewer(h, "(;{", "(");
    NotIn(h, '(');
    hide *;
    CloseFrom(h, inner, t);
    PartsFrom(h, inner + ")" + t);
    Associative(h + "(", inner, ")");
    Associative(h + "(", inner + ")", t);
  }

  lemma {:induction false} PaddedLacks(params: seq<string>, padded: seq<string>)
    requires padded != [] && StripEach(padded) == params
    requires forall i | 0 <= i < |params| :: Lacks(params[i], ENDERS)
    ensures Lacks(Join(padded, ","), ENDERS)
  {
    hide Strip;
    forall i | 0 <= i < |padded| ensures Lacks(padded[i], ENDERS) {
      assert Lacks(Strip(padded[i]), ENDERS) by {
        assert Strip(padded[i]) == params[i];
      }
      StripLacks(padded[i], ENDERS);
    }
    JoinLacks(padded, ENDERS);
  }

  lemma {:induction false} HeadPadded(head: string, a: string)
    requires Trimmed(head) && Lacks(head, "(;{") && AllSpace(a)
    ensures Lacks(head + a, "(;{") && Strip(head + a) == head
  {
    SpaceLacks(a, "(;{");
    LacksAppend(head, a, "(;{");
    StripIs("", head, a);
    assert "" + head + a == head + a;
  }

  lemma {:induction false} TailPadded(b: string, tail: string)
    requires Trimmed(tail) && ')' !in tail[..FirstOf(tail, ENDERS)] && AllSpace(b)
    ensures ')' !in (b + tail)[..FirstOf(b + tail, ENDERS)] && Strip(b + tail) == tail
  {
    SpaceLacks(b, ENDERS);
    EnderAfter(b, tail);
    assert ')' !in b by { SpaceLacks(b, ")"); }
    StripIs(b, tail, "");
    assert b + tail + "" == b + tail;
  }

  lemma {:induction false} StrippedSame(x: string, y: string)
    requires Strip(x) == Strip(y)
    ensures RetAndName(x) == RetAndName(y) && ConstAfter(x) == ConstAfter(y)
  {
    assert Collapse(x) == Collapse(y);
    hide *;
    RetAndNameOfWords(x, y);
    ConstAfterWords(x, y);
  }

  /** However it is spelled, the same method is read of a declaration. */
  lemma {:induction false} SpelledMethod(s: string, head: string, params: seq<string>, tail: string)
    requires WellFormed(head, params, tail) && Spells(s, head, params, tail)
    ensures params != [] && MethodOf(s) == MethodSaid(head, params, tail)
  {
    var a, b, padded :| SpelledBy(s, head, params, tail, a, b, padded);
    SpelledByMethod(s, head, params, tail, a, b, padded);
  }

  lemma {:induction false} SpelledByMethod(s: string, head: string, params: seq<string>, tail: string,
                                           a: string, b: string, padded: seq<string>)
    requires WellFormed(head, params, tail) && SpelledBy(s, head, params, tail, a, b, padded)
    ensures params != [] && MethodOf(s) == MethodSaid(head, params, tail)
  {
    var inner := Join(padded, ",");
    assert s == (head + a) + "(" + inner + ")" + (b + tail);
    CutJoin(padded);
    ParamsListed(inner);
    PaddedLacks(params, padded);
    HeadRead(head, a);
    TailRead(b, tail);
    hide *;
    PartsAre(head + a, inner, b + tail);
    MethodAt(s, head + a, inner, b + tail);
    MethodOfParts(head, params, tail, head + a, inner, b + tail);
  }

  lemma {:induction false} MethodAt(s: string, h: string, inner: string, t: string)
    requires PartsOf(s) == Parens(h, inner, t)
    ensures MethodOf(s) == MethodIn(Parens(h, inner, t))
  {
  }

  lemma {:induction false} MethodOfParts(head: string, params: seq<string>, tail: string, h: string, inner: string,
                                         t: string)
    requires params != [] && RetAndName(h) == RetAndName(head) && ConstAfter(t) == ConstAfter(tail)
               && Params(inner) == Listed(params)
    ensures MethodIn(Parens(h, inner, t)) == MethodSaid(head, params, tail)
  {
    hide RetAndName, ConstAfter, Params, Listed, Each;
  }

  lemma {:induction false} HeadRead(head: string, a: string)
    requires Trimmed(head) && Lacks(head, "(;{") && AllSpace(a)
    ensures Lacks(head + a, "(;{") && RetAndName(head + a) == RetAndName(head)
  {
    hide *;
    HeadPadded(head, a);
    StripTrimmed(head);
    StrippedSame(head + a, head);
  }

  lemma {:induction false} TailRead(b: string, tail: string)
    requires Trimmed(tail) && ')' !in tail[..FirstOf(tail, ENDERS)] && AllSpace(b)
    ensures ')' !in (b + tail)[..FirstOf(b + tail, ENDERS)] && ConstAfter(b + tail) == ConstAfter(tail)
  {
    hide *;
    TailPadded(b, tail);
    StripTrimmed(tail);
    StrippedSame(b + tail, tail);
  }

  ghost predicate OneDeclaration(x: string, y: string) {
    exists head, params, tail ::
      WellFormed(head, params, tail) && Spells(x, head, params, tail) && Spells(y, head, params, tail)
  }

  lemma {:induction false} BlankFirst(params: seq<string>) returns (padded: seq<string>)
    requires Splittable(params)
    ensures Splittable(padded) && Join(padded, ",") == " " + Join(params, ",")
    ensures StripEach(padded) == StripEach(params)
  {
    var raw := Join(params, ",");
    padded := [" " + params[0]] + params[1..];
    CutJoin(params);
    CutLeftPieces(" ", raw);
    JoinSplit(" " + raw);
    SplitJoinExactly(padded);
    StripFirst(" ", params);
  }

  lemma {:induction false} SpelledWith(s: string, head: string, params: seq<string>, tail: string, padded: seq<string>)
    requires Splittable(padded) && StripEach(padded) == params
    requires s == head + "(" + Join(padded, ",") + ")" + tail
    ensures Spells(s, head, params, tail)
  {
    hide Splittable, StripEach, Join;
    assert s == head + "" + "(" + Join(padded, ",") + ")" + "" + tail;
    assert SpelledBy(s, head, params, tail, "", "", padded);
  }

  /** A break right after the open paren, where the unbroken text has no blank, is such a spelling. */
  lemma {:induction false} BrokenAtParen(head: string, params: seq<string>, tail: string)
    requires WellFormed(head, params, tail) && Splittable(params) && StripEach(params) == params
    ensures OneDeclaration(head + "(" + Join(params, ",") + ")" + tail,
              head + "(" + " " + Join(params, ",") + ")" + tail)
  {
    var padded := BlankFirst(params);
    var raw := Join(params, ",");
    var x, y := head + "(" + raw + ")" + tail, head + "(" + " " + raw + ")" + tail;
    assert y == head + "(" + (" " + raw) + ")" + tail;
    SpelledWith(x, head, params, tail, params);
    SpelledWith(y, head, params, tail, padded);
    hide WellFormed, Spells, Join;
  }

  lemma {:induction false} NotLabel(s: string)
    requires '(' in s
    ensures Label(s) == None
  {
    assert '(' !in "public:" && '(' !in "protected:" && '(' !in "private:";
  }

  lemma {:induction false} StartsWithHead(head: string, rest: string, w: string)
    requires '(' !in w && '(' in rest && rest != "" && (rest[0] == '(' || IsSpace(rest[0]))
    requires Solid(w) || (Solid(w[..|w| - 1]) && head != w[..|w| - 1])
    ensures StartsWith(head + rest, w) <==> StartsWith(head, w)
  {
    var s := head + rest;
    if |w| <= |head| {
      assert s[..|w|] == head[..|w|];
    } else if |w| <= |s| {
      assert s[..|w|][|head|] == rest[0] && s[..|w|][..|head|] == head;
      assert forall i | 0 <= i < |w| - 1 :: w[..|w| - 1][i] == w[i];
    }
  }

  /** Whether a declaration is skipped depends on its head alone. */
  lemma {:induction false} SkipsHead(head: string, rest: string)
    requires head != "static" && head != "struct"
    requires '(' in rest && rest != "" && (rest[0] == '(' || IsSpace(rest[0]))
    ensures Skips(head + rest) <==> Skips(head)
  {
    SkipsIs(head + rest);
    SkipsIs(head);
    SolidWords();
    hide StartsWith, Skips;
    StartsWithHead(head, rest, "//");
    StartsWithHead(head, rest, "friend");
    StartsWithHead(head, rest, "typedef");
    StartsWithHead(head, rest, "using");
    StartsWithHead(head, rest, "enum");
    assert ("static" + " ")[..6] == "static" && ("struct" + " ")[..6] == "struct";
    StartsWithHead(head, rest, "static" + " ");
    StartsWithHead(head, rest, "struct" + " ");
  }

  lemma {:induction false} SpelledTurn(s: string, head: string, params: seq<string>, tail: string)
    requires WellFormed(head, params, tail) && Spells(s, head, params, tail)
    ensures Label(s) == None && (Skips(s) <==> Skips(head))
  {
    var a, b, padded :| SpelledBy(s, head, params, tail, a, b, padded);
    assert AllSpace(a) && head != "static" && head != "struct";
    hide *;
    var inner := Join(padded, ",");
    assert s == head + (a + "(" + inner + ")" + (b + tail)) by { SpelledIs(s, head, params, tail, a, b, padded); }
    HeadTurn(head, a, inner, b + tail);
  }

  lemma {:induction false} SpelledIs(s: string, head: string, params: seq<string>, tail: string,
                                     a: string, b: string, padded: seq<string>)
    requires SpelledBy(s, head, params, tail, a, b, padded)
    ensures s == head + (a + "(" + Join(padded, ",") + ")" + (b + tail))
  {
  }

  lemma {:induction false} HeadTurn(head: string, a: string, inner: string, more: string)
    requires AllSpace(a) && head != "static" && head != "struct"
    ensures var s := head + (a + "(" + inner + ")" + more); Label(s) == None && (Skips(s) <==> Skips(head))
  {
    AfterHead(head, a, inner, more);
    hide *;
    var rest := a + "(" + inner + ")" + more;
    SkipsHead(head, rest);
    NotLabel(head + rest);
  }

  lemma {:induction false} AfterHead(head: string, a: string, inner: string, more: string)
    requires AllSpace(a)
    ensures var rest := a + "(" + inner + ")" + more;
            '(' in rest && '(' in head + rest && rest != "" && (rest[0] == '(' || IsSpace(rest[0]))
  {
    var rest := a + "(" + inner + ")" + more;
    assert rest[|a|] == '(' && (head + rest)[|head| + |a|] == '(';
  }

  // ---- parsed alike ------------------------------------------------------------------------

  /** The recogniser of the source: the method pattern, and then what is decided from the method alone,
      its name filters and its kind. */
  function Recognise<M>(keep: Declared -> Option<M>): string -> Option<M> {
    s => if MethodOf(s).None? then None else keep(MethodOf(s).value)
  }

  /** What an item is read as. Of a tidy one it is what the item says. */
  function ReadAs(item: Item): string
    requires item.Valid()
  {
    Strip(item.Line())
  }

  lemma {:induction false} ReadAlike<M(!new)>(x: string, y: string, keep: Declared -> Option<M>)
    requires Label(Strip(x)) == Label(Strip(y)) && (Skips(Strip(x)) <==> Skips(Strip(y)))
    requires MethodOf(Strip(x)) == MethodOf(Strip(y))
    ensures TurnAlike(x, y, Recognise(keep))
  {
    hide Label, Skips, Strip, MethodOf;
  }

  /** The two items are read as one text, or as one declaration. */
  ghost predicate SameDeclaration(a: Item, b: Item)
    requires a.Valid() && b.Valid()
  {
    ReadAs(a) == ReadAs(b) || OneDeclaration(ReadAs(a), ReadAs(b))
  }

  lemma {:induction false} SpelledAlike(x: string, y: string)
    requires OneDeclaration(x, y)
    ensures Label(x) == Label(y) && (Skips(x) <==> Skips(y)) && MethodOf(x) == MethodOf(y)
  {
    var head, params, tail :|
      WellFormed(head, params, tail) && Spells(x, head, params, tail) && Spells(y, head, params, tail);
    hide *;
    SpelledMethod(x, head, params, tail);
    SpelledMethod(y, head, params, tail);
    SpelledTurn(x, head, params, tail);
    SpelledTurn(y, head, params, tail);
  }

  /** Where clang-format breaks a declaration does not decide what is bound: two bodies whose items are
      pairwise read as the same declarations, broken at blanks, next to a paren or around a parameter,
      parse to the same methods, whatever is kept of them. */
  lemma {:induction false} DeclarationsParseAlike<M(!new)>(a: seq<Item>, b: seq<Item>, keep: Declared -> Option<M>)
    requires |a| == |b| && AllValid(a) && AllValid(b)
    requires forall i | 0 <= i < |a| :: SameDeclaration(a[i], b[i])
    ensures Parse(Private, Logical(Render(a)), Recognise(keep)) == Parse(Private, Logical(Render(b)), Recognise(keep))
  {
    hide TurnAlike, OneDeclaration, Strip, Label, Skips, MethodOf, Parse, Render, Logical, Recognise;
    forall i | 0 <= i < |a| ensures TurnAlike(a[i].Line(), b[i].Line(), Recognise(keep)) {
      assert SameDeclaration(a[i], b[i]);
      if ReadAs(a[i]) != ReadAs(b[i]) {
        SpelledAlike(ReadAs(a[i]), ReadAs(b[i]));
      }
      ReadAlike(a[i].Line(), b[i].Line(), keep);
    }
    ItemsParseAlike(a, b, Recognise(keep));
  }

  /** Items that leave no blanks at the end of a first line need only say the same declaration. */
  lemma {:induction false} TidyDeclarations(a: Item, b: Item)
    requires a.Valid() && b.Valid() && (a.Decl? ==> Tidy(a.segs)) && (b.Decl? ==> Tidy(b.segs))
    requires Said(a) == Said(b) || OneDeclaration(Said(a), Said(b))
    ensures SameDeclaration(a, b)
  {
    hide OneDeclaration, Said, Tidy, Strip;
    LineIsSaid(a);
    LineIsSaid(b);
  }

  // ---- wraps that leave more than one blank ------------------------------------------------

  lemma {:induction false} SameWordsRuns(a: Item, b: Item)
    requires a.Valid() && b.Valid() && SameWords(a, b)
    ensures Runs(ReadAs(a)) == Runs(ReadAs(b))
    ensures Label(ReadAs(a)) == Label(ReadAs(b)) && (Skips(ReadAs(a)) <==> Skips(ReadAs(b)))
  {
    SaidCollapsed(a);
    SaidCollapsed(b);
    CollapseIs(a.Line());
    CollapseIs(b.Line());
    hide *;
    WordsTurn(a.Line(), b.Line());
  }

  lemma {:induction false} WordsTurn(x: string, y: string)
    requires Collapse(x) == Collapse(y) && BlankAfterKeyword(x) && BlankAfterKeyword(y)
    ensures Label(Strip(x)) == Label(Strip(y)) && (Skips(Strip(x)) <==> Skips(Strip(y)))
  {
    hide *;
    SkipsCollapsed(x);
    SkipsCollapsed(y);
    LabelCollapsed(x);
    LabelCollapsed(y);
  }

  /** Two bodies whose items pairwise say the same words, in any wrapping and with any white space, and
      have the same parameters, parse to the same methods. */
  lemma {:induction false} WordsParseAlike<M(!new)>(a: seq<Item>, b: seq<Item>, keep: Declared -> Option<M>)
    requires |a| == |b| && AllValid(a) && AllValid(b)
    requires forall i | 0 <= i < |a| ::
               SameWords(a[i], b[i]) && ParametersOf(ReadAs(a[i])) == ParametersOf(ReadAs(b[i]))
    ensures Parse(Private, Logical(Render(a)), Recognise(keep)) == Parse(Private, Logical(Render(b)), Recognise(keep))
  {
    hide TurnAlike, SameWords, ParametersOf, Strip, Label, Skips, MethodOf, Parse, Render, Logical, Recognise, ReadAs,
           Runs;
    forall i | 0 <= i < |a| ensures TurnAlike(a[i].Line(), b[i].Line(), Recognise(keep)) {
      SameWordsRuns(a[i], b[i]);
      WordsExactly(ReadAs(a[i]), ReadAs(b[i]));
      ReadIs(a[i]);
      ReadIs(b[i]);
      ReadAlike(a[i].Line(), b[i].Line(), keep);
    }
    ItemsParseAlike(a, b, Recognise(keep));
  }

  lemma {:induction false} ReadIs(item: Item)
    requires item.Valid()
    ensures ReadAs(item) == Strip(item.Line())
  {
  }

  /** A declaration whose first line leaves blanks at its end is read as its own text, the lines joined by
      single blanks, if and only if no method is read of it anyway, or the break is not inside the type
      of a parameter. */
  lemma {:induction false} UntidyExactly(segs: seq<string>)
    requires |segs| > 1 && !Tidy(segs)
    requires Strip(segs[0]) != "" && Strip(segs[1]) != "" && Strip(segs[|segs| - 1]) != ""
    ensures var text, first, rest := Join(StripEach(segs), " "), Strip(segs[0]), Join(StripEach(segs[1..]), " ");
            MethodOf(Strip(Joined(segs))) == MethodOf(text) <==> MethodOf(text).None? || !GapInType(first, rest)
  {
    var text, first, rest := Join(StripEach(segs), " "), Strip(segs[0]), Join(StripEach(segs[1..]), " ");
    var b := UntidyJoined(segs);
    RestSolid(segs);
    FirstSolid(segs[0]);
    hide *;
    GapExactly(first, " ", b + " ", rest);
  }

  lemma {:induction false} FirstSolid(x: string)
    ensures EndsSolid(Strip(x))
  {
    var _, _ := StripSplits(x);
  }

  lemma {:induction false} RestSolid(segs: seq<string>)
    requires |segs| > 1 && Strip(segs[1]) != ""
    ensures var rest := Join(StripEach(segs[1..]), " "); rest != "" && StartsSolid(rest)
  {
    var pieces := StripEach(segs[1..]);
    var _, _ := StripSplits(segs[1]);
    hide Strip;
    assert pieces[0] == Strip(segs[1]);
    assert Join(pieces, " ")[0] == pieces[0][0];
  }

  lemma {:induction false} UntidyJoined(segs: seq<string>) returns (b: string)
    requires |segs| > 1 && !Tidy(segs) && Strip(segs[0]) != "" && Strip(segs[|segs| - 1]) != ""
    ensures var text, first, rest := Join(StripEach(segs), " "), Strip(segs[0]), Join(StripEach(segs[1..]), " ");
            && Spacing(b + " ") && b + " " != " " && Spacing(" ")
            && Strip(Joined(segs)) == first + (b + " ") + rest && text == first + " " + rest
  {
    var first, rest := Strip(segs[0]), Join(StripEach(segs[1..]), " ");
    var more := JoinedRest(segs);
    var a, c := StripSplits(segs[0]);
    b := c;
    var last := Strip(segs[|segs| - 1]);
    var _, _ := StripSplits(segs[|segs| - 1]);
    JoinFirst(segs);
    hide *;
    TidyIs(segs, a, first, c);
    LastSolid(more, last);
    StripMiddle(a, first, c, more);
    MoreIs(first, more, rest);
    Associative(first + c, " ", rest);
    Associative(first, c, " ");
    GapGrows(c);
  }

  lemma {:induction false} JoinFirst(segs: seq<string>)
    requires |segs| > 1
    ensures Join(StripEach(segs), " ") == Strip(segs[0]) + " " + Join(StripEach(segs[1..]), " ")
  {
    hide Strip;
    assert StripEach(segs)[1..] == StripEach(segs[1..]);
  }

  lemma {:induction false} TidyIs(segs: seq<string>, a: string, p: string, b: string)
    requires |segs| > 1 && segs[0] == a + p + b && p == Strip(segs[0]) && p != ""
    requires AllSpace(b) && Trimmed(p)
    ensures Tidy(segs) <==> b == ""
  {
    TidyExactly(a, p, b);
  }

  lemma {:induction false} MoreIs(first: string, more: string, rest: string)
    requires first + more == first + " " + rest
    ensures more == " " + rest
  {
    assert first + " " + rest == first + (" " + rest);
    assert (first + more)[|first|..] == more && (first + (" " + rest))[|first|..] == " " + rest;
  }

  lemma {:induction false} GapGrows(c: string)
    requires AllSpace(c) && c != ""
    ensures Spacing(c + " ") && Spacing(" ") && c + " " != " "
  {
    assert |c + " "| > 1;
  }

  /** A type that goes on with a star after the gap has not ended before it. */
  lemma {:induction false} StarOpen(c: string, e: string)
    requires e != "" && e[0] == '*' && '=' !in c
    ensures !Settled(c, e)
  {
    forall k | 1 <= k <= |c| ensures !CompletesApart(c[k..], e) {
      var r := c[k..];
      if r == "" {
        assert LStrip(e) == e;
      } else {
        var a := LStrip(r);
        var x := LStripSplits(r);
        var q := LStrip(a[NameLength(a)..]);
        var y := LStripSplits(a[NameLength(a)..]);
        assert q != "" ==> q[0] in a[NameLength(a)..];
        assert q != "" ==> q[0] in r && q[0] in c;
      }
    }
  }

  lemma {:induction false} StarParam(v: string)
    requires Spacing(v)
    ensures ParamOf("const char" + v + "*name").ty == "const char" + v + "*"
  {
    var c, e := "const char", "*name";
    StarOpen(c, e);
    assert Trimmed(c) && '=' !in c;
    assert e[1..] == "name" && TypeEnd(e, 1) == 1 by { NameCompletes(); }
    assert e[..1] == "*" && RStrip("*") == "*";
    hide *;
    OpenParam(c, v, e);
  }

  lemma {:induction false} NameCompletes()
    ensures CompleteAt("*name", 1)
  {
    assert "*name"[1..] == "name" && NameLength("name") == 4 && "name"[4..] == "";
  }

  lemma {:induction false} StarPiece(v: string)
    requires Spacing(v)
    ensures var p := "const char" + v + "*name";
            Lacks(p, ENDERS) && Splittable([p]) && Strip(p) == p && Listed([p]) == [p]
  {
    var p := "const char" + v + "*name";
    assert AllSpace(v);
    SpaceLacks(v, ";{,");
    assert Lacks("const char", ";{,") && Lacks("*name", ";{,");
    LacksAppend("const char" + v, "*name", ";{,");
    LacksAppend("const char", v, ";{,");
    LacksFewer(p, ";{,", ENDERS);
    assert ',' !in p by { assert ',' in ";{,"; }
    assert p[0] == 'c' && p[|p| - 1] == 'e' && p[1] == 'o';
    StripTrimmed(p);
  }

  lemma {:induction false} HeadIs(head: string, ret: string, name: string)
    requires Collapse(head) == ret + " " + name && IsIdent(ret) && IsIdent(name)
    ensures RetAndName(head) == Some((ret, name))
  {
    var c, k := ret + " " + name, |ret|;
    assert c[k] == ' ' && c[..k] == ret && c[k + 1..] == name && c[0] == ret[0];
    assert ' ' !in name;
    hide LastOf, Collapse;
    LastAt(c, ' ', k);
    forall i | 0 <= i < k ensures TypeChar(c[i]) {
      assert c[i] == ret[i];
    }
  }

  lemma {:induction false} SolidRuns(s: string)
    requires AllSolid(s)
    ensures Runs(s) == s
  {
    if s != "" {
      SolidRuns(s[1..]);
    }
  }

  lemma {:induction false} TwoWords(a: string, b: string)
    requires a != "" && b != "" && AllSolid(a) && AllSolid(b)
    ensures Collapse(a + " " + b) == a + " " + b
  {
    var s := a + " " + b;
    assert s[0] == a[0] && s[|s| - 1] == b[|b| - 1];
    StripTrimmed(s);
    SolidRuns(a);
    SolidRuns(b);
    RunsGap(a, " ", b);
    hide Strip, Runs;
  }

  lemma {:induction false} IsFooHead()
    ensures RetAndName("bool isFoo") == Some(("bool", "isFoo"))
  {
    TwoWords("bool", "isFoo");
    assert "bool" + " " + "isFoo" == "bool isFoo" && IsIdent("bool") && IsIdent("isFoo");
    hide *;
    HeadIs("bool isFoo", "bool", "isFoo");
  }

  lemma {:induction false} SemicolonTail()
    ensures ConstAfter(";") == Some(false)
  {
    StripTrimmed(";");
    SolidRuns(";");
    hide Runs, Strip;
  }

  lemma {:induction false} IsFooFormed(p: string)
    requires Lacks(p, ENDERS)
    ensures WellFormed("bool isFoo", [p], ";")
  {
    assert Lacks("bool isFoo", "(;{");
    assert ')' !in ";"[..FirstOf(";", ENDERS)];
  }

  lemma {:induction false} IsFooSpelled(p: string)
    requires Splittable([p]) && Strip(p) == p
    ensures Spells("bool isFoo(" + p + ");", "bool isFoo", [p], ";")
  {
    hide Strip, Splittable;
    assert Join([p], ",") == p && StripEach([p]) == [p];
    assert "bool isFoo(" + p + ");" == "bool isFoo" + "(" + p + ")" + ";";
    SpelledWith("bool isFoo(" + p + ");", "bool isFoo", [p], ";", [p]);
  }

  /** The amount of white space inside a parameter's type reaches the type. */
  lemma {:induction false} BlankDecides(v: string)
    requires Spacing(v)
    ensures var m := MethodOf("bool isFoo(" + ("const char" + v + "*name") + ");");
            m.Some? && |m.value.params| == 1 && m.value.params[0].ty == "const char" + v + "*"
  {
    hide *;
    var p := "const char" + v + "*name";
    StarPiece(v);
    StarParam(v);
    IsFooHead();
    SemicolonTail();
    IsFooFormed(p);
    IsFooSpelled(p);
    SpelledMethod("bool isFoo(" + p + ");", "bool isFoo", [p], ";");
    SaidIs("bool isFoo", [p], ";");
  }

  lemma {:induction false} SaidIs(head: string, params: seq<string>, tail: string)
    requires params != [] && RetAndName(head).Some? && ConstAfter(tail).Some? && Listed(params) == params
    ensures var m := MethodSaid(head, params, tail);
            m.Some? && |m.value.params| == |params| && m.value.params[0] == ParamOf(params[0])
  {
    hide RetAndName, ConstAfter, ParamOf;
  }

  lemma {:induction false} ReplaceStar(x: string)
    requires '*' !in x
    ensures Replace(x + " *", " *", "*") == x + "*"
  {
    var s := x + " *";
    if x == "" {
      assert s == " *" && s[2..] == "";
    } else {
      assert s[1..] == x[1..] + " *" && s[0] == x[0];
      assert s[..2] != " *" by { assert s[1] == (if |x| > 1 then x[1] else ' '); }
      ReplaceStar(x[1..]);
    }
  }

  /** The type as `add_query` normalises it before it looks it up. */
  lemma {:induction false} QueryText(x: string)
    requires '*' !in x && '&' !in x
    ensures Replace(Replace(x + " *", " &", "&"), " *", "*") == x + "*"
  {
    ReplaceAbsent(x + " *", " &", "&", '&');
    ReplaceStar(x);
  }

  lemma {:induction false} OneBlank()
    ensures Collapse("const char*") == "const char*"
  {
    TwoWords("const", "char*");
    assert "const" + " " + "char*" == "const char*";
  }

  lemma {:induction false} TwoBlanks()
    ensures Collapse("const char *") == "const char *"
  {
    var a := "const" + " " + "char";
    TwoWords("const", "char");
    LoneStar();
    assert "const char *" == a + " " + "*";
    hide *;
    CollapseApart(a, " ", "*");
  }

  lemma {:induction false} LoneStar()
    ensures Collapse("*") == "*" && AllSpace(" ")
  {
    StripTrimmed("*");
    SolidRuns("*");
    hide Strip, Runs;
  }

  /** No type of that length is looked up. */
  lemma {:induction false} TwelveUnknown(cls: string, ty: string, pn: string)
    requires |Collapse(Replace(Replace(ty, " &", "&"), " *", "*"))| == 12
    ensures QueryParam(cls, ty, pn).None?
  {
    hide Collapse, Replace;
    assert forall k | k in ENUM_MAPPED :: |k.1| != 12;
  }

  lemma {:induction false} StarKnown(cls: string, ty: string, pn: string)
    requires Collapse(Replace(Replace(ty, " &", "&"), " *", "*")) == "const char*"
    ensures QueryParam(cls, ty, pn).Some?
  {
    hide Collapse, Replace, ENUM_MAPPED;
  }

  /** And from there it decides whether a parameterised read is bound: one blank is read, two are not. */
  lemma {:induction false} BlankUnbinds(cls: string, pn: string)
    ensures QueryParam(cls, "const char *", pn).Some? && QueryParam(cls, "const char  *", pn).None?
  {
    QueryText("const char");
    QueryText("const char ");
    assert "const char" + " *" == "const char *" && "const char " + " *" == "const char  *";
    assert "const char" + "*" == "const char*" && "const char " + "*" == "const char *" && |"const char *"| == 12;
    hide *;
    OneBlank();
    TwoBlanks();
    StarKnown(cls, "const char *", pn);
    TwelveUnknown(cls, "const char  *", pn);
  }
}
