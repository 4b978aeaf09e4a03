/** The texts that declare a method, spelled out: a line declares one if and only if it is spelled this
    way, and what it declares is read off the spelling. */
module Declarations {
  import opened Options
  import opened Text
  import opened Names
  import opened ParamSplit
  import opened MethodPattern
  import opened WrapGaps
  import opened ClassParse
  import opened Signatures

  // ---- the spelling ------------------------------------------------------------------------

  /** What a return type goes on in. */
  predicate TypeLetter(c: char) {
    Letter(c) || '0' <= c <= '9' || c in {':', '*', '&', '<', '>', ','} || IsSpace(c)
  }

  predicate TypeText(ty: string) {
    ty != "" && Letter(ty[0]) && forall i | 0 <= i < |ty| :: TypeLetter(ty[i])
  }

  /** A return type, white space, a name, and white space around them. */
  predicate HeadSpelled(h: string, lead: string, ty: string, gap: string, name: string, after: string) {
    && h == lead + ty + gap + name + after
    && AllSpace(lead) && AllSpace(gap) && gap != "" && AllSpace(after)
    && TypeText(ty) && Identifier(name)
  }

  /** The end of a declaration: `const` or not, `= 0` or not, each with white space around, an ender, and
      then anything. */
  datatype End = End(a: string, isConst: bool, b: string, pure: bool, c: string, d: string, ender: char, rest: string) {
    predicate Formed() {
      AllSpace(a) && AllSpace(b) && AllSpace(c) && AllSpace(d) && (ender == ';' || ender == '{')
    }

    function Spelled(): string {
      a + (if isConst then "const" else "") + b + (if pure then "=" + c + "0" else "") + d + [ender] + rest
    }
  }

  predicate NoEnder(s: string) {
    forall i | 0 <= i < |s| :: s[i] != ';' && s[i] != '{'
  }

  /** The line is a head, a list in parens that no ender interrupts, and an end. */
  datatype Spelling = Spelling(lead: string, ty: string, gap: string, name: string, after: string, inner: string,
                               end: End) {
    function Head(): string {
      lead + ty + gap + name + after
    }

    predicate Of(s: string) {
      && s == Head() + "(" + inner + ")" + end.Spelled()
      && HeadSpelled(Head(), lead, ty, gap, name, after)
      && end.Formed() && NoEnder(inner)
    }
  }

  // ---- characters --------------------------------------------------------------------------

  lemma {:induction false} IdentIs(s: string)
    ensures IsIdent(s) <==> Identifier(s)
  {
  }

  lemma {:induction false} LetterSolid(c: char)
    requires Letter(c) || '0' <= c <= '9'
    ensures !IsSpace(c) && c !in "(;{"
  {
  }

  lemma {:induction false} TypeLetterIs(c: char)
    requires !IsSpace(c)
    ensures TypeChar(c) <==> TypeLetter(c)
  {
    assert ":*&<>, " == [':', '*', '&', '<', '>', ',', ' '];
  }

  lemma {:induction false} BlankTypeLetter(c: char)
    requires IsSpace(c)
    ensures TypeChar(' ') && TypeLetter(c)
  {
    assert ":*&<>, "[6] == ' ';
  }

  predicate AllTypeChars(s: string) {
    forall i | 0 <= i < |s| :: TypeChar(s[i])
  }

  predicate AllTypeLetters(s: string) {
    forall i | 0 <= i < |s| :: TypeLetter(s[i])
  }

  lemma {:induction false} TypeCharsCons(c: char, s: string)
    ensures AllTypeChars([c] + s) <==> TypeChar(c) && AllTypeChars(s)
  {
    hide TypeChar;
    var t := [c] + s;
    assert t[0] == c && forall i | 0 <= i < |s| :: t[i + 1] == s[i];
  }

  lemma {:induction false} TypeLetterCons(s: string)
    requires s != ""
    ensures AllTypeLetters(s) <==> TypeLetter(s[0]) && AllTypeLetters(s[1..])
  {
    hide TypeLetter;
    assert forall i | 0 <= i < |s| - 1 :: s[i + 1] == s[1..][i];
  }

  /** Normalised, a text is made of the pattern's characters if and only if it was. */
  lemma {:induction false} RunsTypes(u: string)
    ensures AllTypeChars(Runs(u)) <==> AllTypeLetters(u)
  {
    hide TypeChar, TypeLetter, AllTypeChars, AllTypeLetters;
    if u == "" {
      assert AllTypeChars("") && AllTypeLetters("") by { NoChars(); }
    } else {
      RunsTypes(u[1..]);
      TypeLetterCons(u);
      if IsSpace(u[0]) {
        BlankTypeLetter(u[0]);
        TypeCharsCons(' ', Runs(u[1..]));
        assert "" + Runs(u[1..]) == Runs(u[1..]);
      } else {
        TypeLetterIs(u[0]);
        TypeCharsCons(u[0], Runs(u[1..]));
      }
    }
  }

  lemma {:induction false} NoChars()
    ensures AllTypeChars("") && AllTypeLetters("")
  {
  }

  lemma {:induction false} IdentifierSolid(s: string)
    requires Identifier(s)
    ensures AllSolid(s) && Trimmed(s) && ' ' !in s && Lacks(s, "(;{")
  {
    forall i | 0 <= i < |s| ensures !IsSpace(s[i]) && s[i] !in "(;{" && s[i] != ' ' {
      LetterSolid(s[i]);
    }
  }

  lemma {:induction false} TypeLetterLacks(c: char)
    requires TypeLetter(c)
    ensures c !in "(;{"
  {
  }

  lemma {:induction false} HeadLacks(h: string, lead: string, ty: string, gap: string, name: string, after: string)
    requires HeadSpelled(h, lead, ty, gap, name, after)
    ensures Lacks(h, "(;{")
  {
    forall i | 0 <= i < |ty| ensures ty[i] !in "(;{" {
      TypeLetterLacks(ty[i]);
    }
    IdentifierSolid(name);
    SpaceLacks(lead, "(;{");
    SpaceLacks(gap, "(;{");
    SpaceLacks(after, "(;{");
    hide TypeText, Identifier, AllSpace;
    LacksAppend(lead, ty, "(;{");
    LacksAppend(lead + ty, gap, "(;{");
    LacksAppend(lead + ty + gap, name, "(;{");
    LacksAppend(lead + ty + gap + name, after, "(;{");
  }

  // ---- the head ----------------------------------------------------------------------------

  /** The head normalised to a type and a name. */
  lemma {:induction false} HeadRuns(u: string, v: string)
    requires Trimmed(u) && u != "" && v != "" && AllSolid(v) && ' ' !in v
    ensures var c := Runs(u) + " " + v; LastOf(c, ' ') == |Runs(u)| && Runs(u) != "" && Runs(u)[0] == u[0]
  {
    var c, k := Runs(u) + " " + v, |Runs(u)|;
    assert c[k] == ' ' && c[k + 1..] == v;
    hide LastOf;
    LastAt(c, ' ', k);
  }

  /** What `RetAndName` makes of a head whose words are known. */
  lemma {:induction false} HeadReadAs(h: string, u: string, v: string)
    requires Collapse(h) == Runs(u) + " " + v
    requires Trimmed(u) && u != "" && v != "" && AllSolid(v) && ' ' !in v
    ensures RetAndName(h) == if TypeText(u) && Identifier(v) then Some((Runs(u), v)) else None
  {
    var c, k := Runs(u) + " " + v, |Runs(u)|;
    HeadRuns(u, v);
    RunsTypes(u);
    IdentIs(v);
    assert c[..k] == Runs(u) && c[k + 1..] == v && c[0] == u[0];
    hide Collapse, LastOf, Runs, TypeLetter, TypeChar, IsIdent, Identifier, Letter, NameStart;
    assert (exists i | 0 <= i < k :: !TypeChar(c[i])) <==> !AllTypeChars(Runs(u)) by {
      assert forall i | 0 <= i < k :: c[i] == Runs(u)[i];
    }
    assert NameStart(u[0]) <==> Letter(u[0]) by { StartIs(u[0]); }
    assert TypeText(u) <==> Letter(u[0]) && AllTypeLetters(u);
  }

  lemma {:induction false} StartIs(c: char)
    ensures NameStart(c) <==> Letter(c)
  {
  }

  lemma {:induction false} TypeStripped(ty: string) returns (u: string, w: string)
    requires TypeText(ty)
    ensures ty == u + w && AllSpace(w) && Trimmed(u) && u != "" && TypeText(u) && Collapse(ty) == Runs(u)
  {
    LetterSolid(ty[0]);
    w := RStripSplits(ty);
    u := RStrip(ty);
    assert u == "" ==> ty == w;
    NotAllSpace(ty);
    assert u[0] == ty[0];
    hide TypeText, TypeLetter, RStrip;
    CollapseAround("", u, w);
    assert "" + u + w == ty;
    assert TypeText(u) by { TypePrefix(u, w); }
  }

  lemma {:induction false} NotAllSpace(t: string)
    requires t != "" && !IsSpace(t[0])
    ensures !AllSpace(t)
  {
  }

  lemma {:induction false} TypePrefix(u: string, w: string)
    requires TypeText(u + w) && u != ""
    ensures TypeText(u)
  {
    hide TypeLetter;
    assert forall i | 0 <= i < |u| :: (u + w)[i] == u[i];
  }

  lemma {:induction false} HeadSaid(h: string, lead: string, ty: string, gap: string, name: string, after: string)
    requires HeadSpelled(h, lead, ty, gap, name, after)
    ensures RetAndName(h) == Some((Collapse(ty), name))
  {
    HeadText(h, lead, ty, gap, name, after);
    hide *;
    var u, w := TypeStripped(ty);
    IdentifierSolid(name);
    SolidRuns(name);
    NameNotEmpty(name);
    SpacesJoin(w, gap);
    SomeSpace(w, gap);
    HeadWords(lead, u, w + gap, name, after);
    Associative(lead, u, w);
    Associative(lead + u, w, gap);
    HeadReadAs(h, u, name);
  }

  lemma {:induction false} HeadText(h: string, lead: string, ty: string, gap: string, name: string, after: string)
    requires HeadSpelled(h, lead, ty, gap, name, after)
    ensures h == lead + ty + gap + name + after && TypeText(ty) && Identifier(name)
    ensures AllSpace(lead) && AllSpace(gap) && gap != "" && AllSpace(after)
  {
  }

  lemma {:induction false} SomeSpace(w: string, gap: string)
    requires gap != ""
    ensures w + gap != ""
  {
    assert |w + gap| > 0;
  }

  lemma {:induction false} NameNotEmpty(name: string)
    requires Identifier(name)
    ensures name != ""
  {
  }

  lemma {:induction false} SpacesJoin(a: string, b: string)
    requires AllSpace(a) && AllSpace(b)
    ensures AllSpace(a + b)
  {
  }

  lemma {:induction false} HeadWords(a: string, u: string, gap: string, v: string, b: string)
    requires AllSpace(a) && AllSpace(b)
    requires Trimmed(u) && u != "" && Trimmed(v) && Runs(v) == v && v != ""
    requires AllSpace(gap) && gap != ""
    ensures Collapse(a + u + gap + v + b) == Runs(u) + " " + v
  {
    RunsEmpty(u);
    hide *;
    CollapseParts(a, u, gap, v, b);
  }

  /** A text is cut before its last word. */
  lemma {:induction false} LastWord(y: string) returns (front: string, v: string)
    ensures y == front + v && AllSolid(v) && (front != "" ==> IsSpace(front[|front| - 1]))
  {
    if y == "" || IsSpace(y[|y| - 1]) {
      front, v := y, "";
    } else {
      var n := |y| - 1;
      var w;
      front, w := LastWord(y[..n]);
      v := w + [y[n]];
      assert y == y[..n] + [y[n]];
    }
  }

  lemma {:induction false} NoBlankNoHead(h: string, v: string)
    requires Collapse(h) == v && AllSolid(v)
    ensures RetAndName(h).None?
  {
    hide Collapse;
    assert forall i | 0 <= i < |v| :: v[i] != ' ';
  }

  lemma {:induction false} SpacedFront(y: string, front: string, v: string) returns (u: string, gap: string)
    requires Trimmed(y) && y == front + v && front != "" && IsSpace(front[|front| - 1])
    ensures front == u + gap && AllSpace(gap) && gap != "" && u != "" && Trimmed(u) && v != ""
  {
    gap := RStripSplits(front);
    u := RStrip(front);
    assert y[0] == front[0];
    assert v != "" by { assert v == "" ==> y == front; }
    assert u != "" by { assert u == "" ==> front == gap; }
    assert u[0] == front[0];
    assert gap != "" by { assert gap == "" ==> u == front; }
  }

  /** A head from which a type and a name are read is spelled as one. */
  lemma {:induction false} HeadOnly(h: string)
    returns (lead: string, ty: string, gap: string, name: string, after: string)
    requires RetAndName(h).Some?
    ensures HeadSpelled(h, lead, ty, gap, name, after)
    ensures RetAndName(h) == Some((Collapse(ty), name))
  {
    lead, after := StripSplits(h);
    var y := Strip(h);
    CollapseIs(h);
    var front, v := LastWord(y);
    hide Strip, Runs, Collapse, RetAndName;
    SolidRuns(v);
    if front == "" {
      assert y == v;
      NoBlankNoHead(h, v);
    }
    ty, gap := SpacedFront(y, front, v);
    name := v;
    HeadReads(h, lead, ty, gap, name, after);
  }

  lemma {:induction false} HeadReads(h: string, a: string, u: string, gap: string, v: string, b: string)
    requires h == a + (u + gap + v) + b && RetAndName(h).Some?
    requires AllSpace(a) && AllSpace(b) && AllSpace(gap) && gap != ""
    requires Trimmed(u) && u != "" && v != "" && AllSolid(v)
    ensures HeadSpelled(h, a, u, gap, v, b) && RetAndName(h) == Some((Collapse(u), v))
  {
    hide *;
    SolidRuns(v);
    SolidTrimmed(v);
    TrimmedCollapse(u);
    Regapped(a, u, gap, v, b);
    HeadWords(a, u, gap, v, b);
    HeadReadAs(h, u, v);
    HeadFormed(h, a, u, gap, v, b);
  }

  lemma {:induction false} Regapped(a: string, u: string, gap: string, v: string, b: string)
    ensures a + (u + gap + v) + b == a + u + gap + v + b
  {
  }

  lemma {:induction false} HeadFormed(h: string, a: string, u: string, gap: string, v: string, b: string)
    requires h == a + u + gap + v + b && AllSpace(a) && AllSpace(b) && AllSpace(gap) && gap != ""
    requires TypeText(u) && Identifier(v)
    ensures HeadSpelled(h, a, u, gap, v, b)
  {
    hide TypeText, Identifier, AllSpace;
  }

  lemma {:induction false} TrimmedCollapse(u: string)
    requires Trimmed(u)
    ensures Collapse(u) == Runs(u)
  {
    CollapseAround("", u, "");
    assert "" + u + "" == u;
  }

  lemma {:induction false} SolidTrimmed(v: string)
    requires AllSolid(v)
    ensures Trimmed(v) && ' ' !in v
  {
  }

  // ---- the end -----------------------------------------------------------------------------

  /** `ConstAfter` without normalising first. */
  function EndOf(y: string): Option<bool> {
    var isConst := StartsWith(y, "const");
    var b := LStrip(if isConst then y[5..] else y);
    var pure := StartsWith(b, "=") && StartsWith(LStrip(b[1..]), "0");
    var e := if pure then LStrip(LStrip(b[1..])[1..]) else b;
    if e != "" && e[0] in ENDERS then Some(isConst) else None
  }

  lemma {:induction false} SolidMarks()
    ensures Solid("const") && Solid("=") && Solid("0") && |"const"| == 5
  {
  }

  lemma {:induction false} AfterPrefix(y: string, p: string)
    requires Solid(p)
    ensures StartsWith(y, p) <==> StartsWith(Runs(y), p)
    ensures StartsWith(y, p) ==> Runs(y)[|p|..] == Runs(y[|p|..])
  {
    RunsPrefix(y, p);
    hide Runs;
    assert StartsWith(y, p) ==> (p + Runs(y[|p|..]))[|p|..] == Runs(y[|p|..]);
  }

  lemma {:induction false} EnderFirst(e: string)
    ensures (e != "" && e[0] in ENDERS) <==> (Runs(e) != "" && Runs(e)[0] in ENDERS)
  {
    if e != "" && IsSpace(e[0]) {
      RunsStart(e);
      assert e[0] !in ENDERS;
    }
  }

  lemma {:induction false} PureRuns(b: string)
    ensures var pure := StartsWith(b, "=") && StartsWith(LStrip(b[1..]), "0"); var r := Runs(b);
            && (pure <==> StartsWith(r, "=") && StartsWith(LStrip(r[1..]), "0"))
            && (pure ==> LStrip(LStrip(r[1..])[1..]) == Runs(LStrip(LStrip(b[1..])[1..])))
  {
    SolidMarks();
    AfterPrefix(b, "=");
    if StartsWith(b, "=") {
      StartsWithFits(b, "=");
      LStripRuns(b[1..]);
      var z := LStrip(b[1..]);
      AfterPrefix(z, "0");
      if StartsWith(z, "0") {
        StartsWithFits(z, "0");
        LStripRuns(z[1..]);
      }
    }
    hide *;
  }

  /** The end is read the same whether white space is normalised or not. */
  lemma {:induction false} EndRaw(tail: string)
    ensures ConstAfter(tail) == EndOf(Strip(tail))
  {
    var y := Strip(tail);
    CollapseIs(tail);
    var _, _ := StripSplits(tail);
    SolidMarks();
    AfterPrefix(y, "const");
    TrimmedStart(y);
    var isConst := StartsWith(y, "const");
    assert isConst ==> |y| >= 5 by { if isConst { StartsWithFits(y, "const"); } }
    var b := LStrip(if isConst then y[5..] else y);
    if isConst {
      LStripRuns(y[5..]);
    }
    assert (if isConst then LStrip(Runs(y)[5..]) else Runs(y)) == Runs(b);
    PureRuns(b);
    var pure := StartsWith(b, "=") && StartsWith(LStrip(b[1..]), "0");
    EnderFirst(if pure then LStrip(LStrip(b[1..])[1..]) else b);
    hide Runs, LStrip, Strip, Collapse;
  }

  lemma {:induction false} TrimmedStart(y: string)
    requires Trimmed(y)
    ensures LStrip(y) == y
  {
  }

  lemma {:induction false} LeadSkipped(a: string, z: string)
    requires AllSpace(a) && z != "" && !IsSpace(z[0])
    ensures LStrip(a + z) == z
  {
    LStripSkips(a, z);
  }

  /** What follows `const`: nothing but an ender, or `= 0` and then an ender. */
  lemma {:induction false} PureSaid(z: string, pure: bool, c: string, d: string, ender: char, rest: string)
    requires AllSpace(c) && AllSpace(d) && (ender == ';' || ender == '{')
    requires z == if pure then "=" + (c + ("0" + (d + ([ender] + rest)))) else [ender] + rest
    ensures z != "" && !IsSpace(z[0]) && z[0] != 'c'
    ensures (StartsWith(z, "=") && StartsWith(LStrip(z[1..]), "0")) <==> pure
    ensures pure ==> LStrip(LStrip(z[1..])[1..]) == [ender] + rest
  {
    var e := [ender] + rest;
    if pure {
      var zero := "0" + (d + e);
      assert z[1..] == c + zero && z[0] == '=' && z[..1] == "=";
      LeadSkipped(c, zero);
      assert zero[..1] == "0" && zero[1..] == d + e;
      LeadSkipped(d, e);
    } else {
      assert z[0] == ender;
      StartsWithFirst(z, "=");
    }
  }

  lemma {:induction false} EndSaidSolid(y: string, b: string, isConst: bool, pure: bool, c: string, d: string,
                                        ender: char, rest: string)
    requires AllSpace(b) && AllSpace(c) && AllSpace(d) && (ender == ';' || ender == '{')
    requires var z := if pure then "=" + (c + ("0" + (d + ([ender] + rest)))) else [ender] + rest;
             y == if isConst then "const" + (b + z) else z
    ensures EndOf(y) == Some(isConst)
  {
    var z := if pure then "=" + (c + ("0" + (d + ([ender] + rest)))) else [ender] + rest;
    PureSaid(z, pure, c, d, ender, rest);
    EndersAre(ender);
    if isConst {
      assert y[..5] == "const" && y[5..] == b + z;
      LeadSkipped(b, z);
    } else {
      StartsWithFirst(z, "const");
      LeadSkipped("", z);
      assert "" + z == z;
    }
    hide LStrip;
  }

  lemma {:induction false} EndersAre(c: char)
    ensures c in ENDERS <==> c == ';' || c == '{'
  {
    assert ENDERS == [';', '{'];
  }

  /** Cutting white space off the end leaves everything up to the ender. */
  lemma {:induction false} EndStripped(a: string, p: string, ender: char, rest: string) returns (kept: string)
    requires AllSpace(a) && !IsSpace(ender) && (p != "" ==> !IsSpace(p[0]))
    ensures Strip(a + (p + ([ender] + rest))) == p + ([ender] + kept)
  {
    var t := p + [ender];
    assert p + ([ender] + rest) == t + rest;
    assert t[0] == if p == "" then ender else p[0];
    LStripSkips(a, t + rest);
    assert LStrip(t + rest) == t + rest;
    RStripKeeps(t, rest);
    var r := RStrip(t + rest);
    kept := r[|t|..];
    assert r == t + kept;
    assert t + kept == p + ([ender] + kept);
  }

  /** The solid part of an end: from `const`, the equals sign or the ender on. */
  function Core(isConst: bool, b: string, pure: bool, c: string, d: string): string {
    (if isConst then "const" + (if pure then b else b + d) else "") + (if pure then "=" + c + "0" + d else "")
  }

  lemma {:induction false} CoreLast(isConst: bool, b: string, pure: bool, c: string, d: string, last: string)
    ensures var z := if pure then "=" + (c + ("0" + (d + last))) else last;
            Core(isConst, b, pure, c, d) + last == if isConst then "const" + ((if pure then b else b + d) + z) else z
  {
    var eq := "=" + c + "0" + d;
    assert eq + last == "=" + (c + ("0" + (d + last)));
    if isConst {
      var k := if pure then b else b + d;
      assert "const" + k + eq + last == "const" + (k + (eq + last));
      assert "const" + k + "" + last == "const" + (k + last);
    } else {
      assert "" + eq + last == eq + last && "" + "" + last == last;
    }
  }

  lemma {:induction false} CoreSolid(isConst: bool, b: string, pure: bool, c: string, d: string)
    ensures var p := Core(isConst, b, pure, c, d); p != "" ==> !IsSpace(p[0])
  {
  }

  /** The white space before the solid part. */
  function Lead(end: End): string {
    if end.isConst then end.a else if end.pure then end.a + end.b else end.a + end.b + end.d
  }

  lemma {:induction false} SpelledCore(end: End)
    ensures end.Spelled()
         == Lead(end) + (Core(end.isConst, end.b, end.pure, end.c, end.d) + ([end.ender] + end.rest))
  {
    var e := [end.ender] + end.rest;
    var k := if end.isConst then "const" else "";
    var p := if end.pure then "=" + end.c + "0" else "";
    assert end.Spelled() == end.a + k + end.b + p + end.d + e;
    hide *;
    if end.isConst {
      if end.pure {
        assert end.a + k + end.b + p + end.d + e == end.a + ((k + end.b) + (p + end.d) + e);
      } else {
        assert end.a + k + end.b + p + end.d + e == end.a + ((k + (end.b + end.d)) + "" + e);
      }
    } else if end.pure {
      assert end.a + k + end.b + p + end.d + e == (end.a + end.b) + ("" + (p + end.d) + e);
    } else {
      assert end.a + k + end.b + p + end.d + e == (end.a + end.b + end.d) + ("" + "" + e);
    }
  }

  /** An end that is spelled as one is read as one. */
  lemma {:induction false} EndSaid(end: End)
    requires end.Formed()
    ensures ConstAfter(end.Spelled()) == Some(end.isConst)
  {
    EndRaw(end.Spelled());
    SpelledCore(end);
    CoreSolid(end.isConst, end.b, end.pure, end.c, end.d);
    SpacesJoin(end.a, end.b);
    SpacesJoin(end.a + end.b, end.d);
    SpacesJoin(end.b, end.d);
    assert !IsSpace(end.ender);
    hide ConstAfter, EndOf, Strip, Core, AllSpace;
    var p := Core(end.isConst, end.b, end.pure, end.c, end.d);
    var kept := EndStripped(Lead(end), p, end.ender, end.rest);
    CoreLast(end.isConst, end.b, end.pure, end.c, end.d, [end.ender] + kept);
    EndSaidSolid(p + ([end.ender] + kept), if end.pure then end.b else end.b + end.d, end.isConst, end.pure, end.c,
      end.d, end.ender, kept);
  }

  lemma {:induction false} PrefixSplits(s: string, p: string)
    requires StartsWith(s, p)
    ensures |p| <= |s| && s == p + s[|p|..]
  {
  }

  /** An end that is read as one is spelled as one. */
  lemma {:induction false} EndOnly(tail: string) returns (end: End)
    requires ConstAfter(tail).Some?
    ensures end.Formed() && tail == end.Spelled() && ConstAfter(tail) == Some(end.isConst)
  {
    EndRaw(tail);
    var a, q := StripSplits(tail);
    hide *;
    var e := EndFound(Strip(tail));
    end := EndPadded(a, e, q);
  }

  lemma {:induction false} EndPadded(a: string, e: End, q: string) returns (end: End)
    requires AllSpace(a) && e.Formed()
    ensures end.Formed() && end.Spelled() == a + e.Spelled() + q && end.isConst == e.isConst
  {
    end := e.(a := a + e.a, rest := e.rest + q);
    var before := (if e.isConst then "const" else "") + e.b + (if e.pure then "=" + e.c + "0" else "") + e.d;
    SpelledBefore(e, before);
    SpelledBefore(end, before);
    SpacesJoin(a, e.a);
    hide *;
    Padded(a, e.a + before, [e.ender], e.rest, q);
    Associative(a, e.a, before);
  }

  lemma {:induction false} Padded(a: string, b: string, c: string, d: string, q: string)
    ensures a + b + (c + (d + q)) == a + (b + (c + d)) + q
  {
  }

  lemma {:induction false} SpelledBefore(e: End, before: string)
    requires before == (if e.isConst then "const" else "") + e.b + (if e.pure then "=" + e.c + "0" else "") + e.d
    ensures e.Spelled() == e.a + before + ([e.ender] + e.rest)
  {
    var k, p := if e.isConst then "const" else "", if e.pure then "=" + e.c + "0" else "";
    assert e.a + k + e.b + p + e.d + [e.ender] + e.rest == e.a + (k + e.b + p + e.d) + ([e.ender] + e.rest);
  }

  lemma {:induction false} PureFound(z: string) returns (c: string, d: string)
    requires StartsWith(z, "=") && StartsWith(LStrip(z[1..]), "0")
    ensures AllSpace(c) && AllSpace(d) && z == "=" + c + "0" + d + LStrip(LStrip(z[1..])[1..])
  {
    PrefixSplits(z, "=");
    var y, more := z[1..], LStrip(z[1..]);
    PrefixSplits(more, "0");
    hide *;
    c := LStripSplits(y);
    d := LStripSplits(more[1..]);
    FourParts("=", c, "0", d, LStrip(more[1..]));
  }

  lemma {:induction false} FourParts(a: string, b: string, c: string, d: string, e: string)
    ensures a + (b + (c + (d + e))) == a + b + c + d + e
  {
  }

  lemma {:induction false} EndFound(y: string) returns (end: End)
    requires EndOf(y).Some?
    ensures end.Formed() && y == end.Spelled() && EndOf(y) == Some(end.isConst)
  {
    var isConst := StartsWith(y, "const");
    var k := if isConst then "const" else "";
    if isConst {
      PrefixSplits(y, "const");
    }
    var y5 := if isConst then y[5..] else y;
    assert y == k + y5;
    var b := LStripSplits(y5);
    var z := LStrip(y5);
    var pure := StartsWith(z, "=") && StartsWith(LStrip(z[1..]), "0");
    var c, d := "", "";
    if pure {
      c, d := PureFound(z);
    }
    var e := if pure then LStrip(LStrip(z[1..])[1..]) else z;
    assert e != "" && e[0] in ENDERS && EndOf(y) == Some(isConst);
    EndersAre(e[0]);
    end := End("", isConst, b, pure, c, d, e[0], e[1..]);
    var p := if pure then "=" + c + "0" else "";
    assert end.Spelled() == "" + k + b + p + d + [e[0]] + e[1..];
    hide EndOf, LStrip, StartsWith;
    FoundText(k, b, p, d, e, z, y);
  }

  lemma {:induction false} FoundText(k: string, b: string, p: string, d: string, e: string, z: string, y: string)
    requires e != "" && y == k + (b + z) && z == p + d + e
    ensures y == "" + k + b + p + d + [e[0]] + e[1..]
  {
    assert e == [e[0]] + e[1..];
    assert k + (b + (p + d + e)) == "" + k + b + p + d + e;
    assert "" + k + b + p + d + ([e[0]] + e[1..]) == "" + k + b + p + d + [e[0]] + e[1..];
  }

  /** No close paren stands before the ender of an end. */
  lemma {:induction false} EndCloses(end: End)
    requires end.Formed()
    ensures var t := end.Spelled(); ')' !in t[..FirstOf(t, ENDERS)]
  {
    var t := end.Spelled();
    var before := end.a + (if end.isConst then "const" else "") + end.b + (if end.pure then "=" + end.c + "0" else "")
      + end.d;
    assert t == before + ([end.ender] + end.rest);
    SpaceLacks(end.a, ";{)");
    SpaceLacks(end.b, ";{)");
    SpaceLacks(end.c, ";{)");
    SpaceLacks(end.d, ";{)");
    assert Lacks("const", ";{)") && Lacks("=", ";{)") && Lacks("0", ";{)") && Lacks("", ";{)");
    EndersAre(end.ender);
    LacksAppend("=", end.c, ";{)");
    LacksAppend("=" + end.c, "0", ";{)");
    hide AllSpace;
    BeforeLacks(end.a, if end.isConst then "const" else "", end.b, if end.pure then "=" + end.c + "0" else "", end.d);
    EnderOf(before, end.ender, end.rest);
  }

  lemma {:induction false} BeforeLacks(a: string, b: string, c: string, d: string, e: string)
    requires Lacks(a, ";{)") && Lacks(b, ";{)") && Lacks(c, ";{)") && Lacks(d, ";{)") && Lacks(e, ";{)")
    ensures Lacks(a + b + c + d + e, ";{)")
  {
    LacksAppend(a + b + c + d, e, ";{)");
    LacksAppend(a + b + c, d, ";{)");
    LacksAppend(a + b, c, ";{)");
    LacksAppend(a, b, ";{)");
  }

  lemma {:induction false} EnderOf(before: string, ender: char, rest: string)
    requires Lacks(before, ";{)") && ender in ENDERS
    ensures var t := before + ([ender] + rest); FirstOf(t, ENDERS) == |before| && ')' !in t[..|before|]
  {
    var t := before + ([ender] + rest);
    assert t[..|before|] == before && t[|before|] == ender;
    assert forall c | c in ENDERS :: c in ";{)" by { assert ENDERS == ";{)"[..2]; }
    LacksFewer(before, ";{)", ENDERS);
    FirstAt(t, ENDERS, |before|);
    assert ')' == ";{)"[2];
  }

  // ---- the line ----------------------------------------------------------------------------

  /** What a spelling declares. */
  function SpelledOut(x: Spelling): Declared {
    Declared(Collapse(x.ty), x.name, Parameters(x.inner), x.end.isConst)
  }

  lemma {:induction false} SpelledSaid(s: string, x: Spelling)
    requires x.Of(s)
    ensures MethodOf(s) == Some(SpelledOut(x))
  {
    var h, t := x.Head(), x.end.Spelled();
    HeadLacks(h, x.lead, x.ty, x.gap, x.name, x.after);
    HeadSaid(h, x.lead, x.ty, x.gap, x.name, x.after);
    EndSaid(x.end);
    EndCloses(x.end);
    assert Lacks(x.inner, ENDERS) by {
      forall i | 0 <= i < |x.inner| ensures x.inner[i] !in ENDERS {
        EndersAre(x.inner[i]);
      }
    }
    hide *;
    PartsAre(h, x.inner, t);
    SaidOf(s, x, h, t);
  }

  lemma {:induction false} SaidOf(s: string, x: Spelling, h: string, t: string)
    requires PartsOf(h + "(" + x.inner + ")" + t) == Parens(h, x.inner, t)
    requires s == h + "(" + x.inner + ")" + t
    requires RetAndName(h) == Some((Collapse(x.ty), x.name)) && ConstAfter(t) == Some(x.end.isConst)
    ensures MethodOf(s) == Some(SpelledOut(x))
  {
    hide PartsOf, RetAndName, ConstAfter, Parameters, Collapse;
  }

  lemma {:induction false} CloseFound(head: string, r: string)
    requires CloseOf(head, r).Parens?
    ensures var p := CloseOf(head, r);
            p.head == head && r == p.inner + ")" + p.tail && NoEnder(p.inner)
  {
    var first := FirstOf(r, ENDERS);
    var close := LastOf(r[..first], ')');
    hide FirstOf, LastOf;
    assert r[close] == r[..first][close] == ')';
    assert r == r[..close] + ")" + r[close + 1..];
    forall i | 0 <= i < close ensures r[..close][i] != ';' && r[..close][i] != '{' {
      EndersAre(r[i]);
    }
  }

  lemma {:induction false} OpenFound(s: string) returns (h: string, r: string)
    requires PartsOf(s).Parens?
    ensures s == h + "(" + r && PartsOf(s) == CloseOf(h, r)
  {
    var open := FirstOf(s, "(");
    h, r := s[..open], s[open + 1..];
    hide FirstOf, CloseOf;
    assert s[open] == '(' by { assert s[open] in "("; }
  }

  lemma {:induction false} PartsCut(s: string)
    requires PartsOf(s).Parens?
    ensures var p := PartsOf(s); s == p.head + "(" + p.inner + ")" + p.tail && NoEnder(p.inner)
  {
    hide *;
    var h, r := OpenFound(s);
    CloseFound(h, r);
    var p := CloseOf(h, r);
    Associative(h + "(", p.inner, ")");
    Associative(h + "(", p.inner + ")", p.tail);
  }

  lemma {:induction false} SpellingFound(s: string) returns (x: Spelling)
    requires MethodOf(s).Some?
    ensures x.Of(s)
  {
    var p := PartsOf(s);
    hide PartsOf, RetAndName, ConstAfter, Parameters;
    PartsCut(s);
    var lead, ty, gap, name, after := HeadOnly(p.head);
    var end := EndOnly(p.tail);
    x := Spelling(lead, ty, gap, name, after, p.inner, end);
    hide HeadSpelled;
    assert p.head == lead + ty + gap + name + after by { HeadText(p.head, lead, ty, gap, name, after); }
  }

  /** A line declares a method if and only if it is spelled as one: it declares the return type with
      single blanks, the name, the parameters in the parens, and `const` when the word is there. */
  lemma {:induction false} DeclaresExactly(s: string, m: Declared)
    ensures MethodOf(s) == Some(m)
       <==> exists x: Spelling :: x.Of(s)
              && m == Declared(Collapse(x.ty), x.name, Parameters(x.inner), x.end.isConst)
  {
    hide *;
    if MethodOf(s) == Some(m) {
      var x := SpellingFound(s);
      SpelledSaid(s, x);
      SaidMeans(x);
    }
    if x: Spelling :| x.Of(s) && m == Declared(Collapse(x.ty), x.name, Parameters(x.inner), x.end.isConst) {
      SpelledSaid(s, x);
      SaidMeans(x);
    }
  }

  lemma {:induction false} SaidMeans(x: Spelling)
    ensures SpelledOut(x) == Declared(Collapse(x.ty), x.name, Parameters(x.inner), x.end.isConst)
  {
  }

  // ---- a parameter -------------------------------------------------------------------------

  /** What may follow the type of a parameter: a name or none, and a default or none. */
  datatype Ending = Ending(w: string, name: string, v: string, default: string) {
    predicate Of(r: string) {
      && r == w + name + v + default && AllSpace(w) && AllSpace(v)
      && (name == "" || Identifier(name)) && (default == "" || default[0] == '=')
    }
  }

  ghost predicate CanEnd(r: string) {
    exists x: Ending :: x.Of(r)
  }

  lemma {:induction false} NameLengthIs(n: string, more: string)
    requires n == "" || Identifier(n)
    requires more == "" || IsSpace(more[0]) || more[0] == '='
    ensures NameLength(n + more) == |n|
  {
    if n == "" {
      assert n + more == more;
    } else {
      IdentIs(n);
      assert (n + more)[0] == n[0] && (n + more)[1..] == n[1..] + more;
      WordLengthIs(n[1..], more);
    }
  }

  lemma {:induction false} WordLengthIs(n: string, more: string)
    requires forall i | 0 <= i < |n| :: WordChar(n[i])
    requires more == "" || IsSpace(more[0]) || more[0] == '='
    ensures WordLength(n + more) == |n|
  {
    if n == "" {
      assert n + more == more;
    } else {
      assert (n + more)[0] == n[0] && (n + more)[1..] == n[1..] + more;
      WordLengthIs(n[1..], more);
    }
  }

  lemma {:induction false} EndingRead(r: string, x: Ending)
    requires x.Of(r)
    ensures Completes(r) && NameIn(r) == x.name
  {
    var after, d := x.v + x.default, x.default;
    var a := x.name + after;
    assert r == x.w + a;
    LStripSkips(x.w, a);
    LStripSkips(x.v, d);
    TrimmedDefault(d);
    if x.name == "" {
      assert a == after && LStrip(a) == d;
      NameLengthIs("", d);
      assert "" + d == d && d[0..] == d && d[..0] == "";
    } else {
      IdentifierSolid(x.name);
      assert a[0] == x.name[0];
      NameLengthIs(x.name, after);
      assert a[|x.name|..] == after && a[..|x.name|] == x.name;
    }
    hide NameLength, Identifier;
  }

  lemma {:induction false} TrimmedDefault(d: string)
    requires d == "" || d[0] == '='
    ensures LStrip(d) == d
  {
  }

  lemma {:induction false} NameFound(a: string)
    ensures var n := a[..NameLength(a)]; n == "" || Identifier(n)
  {
    var n := a[..NameLength(a)];
    if n != "" {
      IdentIs(n);
      assert NameStart(a[0]);
    }
  }

  lemma {:induction false} EndingFound(r: string) returns (x: Ending)
    requires Completes(r)
    ensures x.Of(r)
  {
    var w := LStripSplits(r);
    var a := LStrip(r);
    var n := NameLength(a);
    var v := LStripSplits(a[n..]);
    var d := LStrip(a[n..]);
    NameFound(a);
    assert d == "" || d[0] == '=';
    hide *;
    x := EndingOf(r, a, n, w, v, d);
  }

  lemma {:induction false} EndingOf(r: string, a: string, n: nat, w: string, v: string, d: string)
    returns (x: Ending)
    requires r == w + a && n <= |a| && a[n..] == v + d && AllSpace(w) && AllSpace(v)
    requires (a[..n] == "" || Identifier(a[..n])) && (d == "" || d[0] == '=')
    ensures x.Of(r)
  {
    hide Identifier;
    x := Ending(w, a[..n], v, d);
    assert a == a[..n] + (v + d);
    Associative(w, a[..n], v + d);
    Associative(w + a[..n], v, d);
  }

  lemma {:induction false} CanEndIs(r: string)
    ensures CanEnd(r) <==> Completes(r)
  {
    hide Completes;
    if Completes(r) {
      var x := EndingFound(r);
    }
    if x: Ending :| x.Of(r) {
      EndingRead(r, x);
    }
  }

  lemma {:induction false} CanEndAt(p: string, k: nat)
    requires k <= |p|
    ensures CanEnd(p[k..]) <==> CompleteAt(p, k)
  {
    hide Completes, CanEnd;
    CanEndIs(p[k..]);
  }

  /** A parameter's type is the shortest start of the text that a name, if any, and a default, if any, can
      follow; its name is the identifier that does. */
  lemma {:induction false} ParameterExactly(p: string) returns (ty: string, x: Ending)
    requires p != ""
    ensures ty != "" && |ty| <= |p| && p[..|ty|] == ty && x.Of(p[|ty|..])
    ensures forall k | 0 < k < |ty| :: !CanEnd(p[k..])
    ensures ParamOf(p) == Parameter(Strip(ty), if x.name == "" then None else Some(x.name))
  {
    hide TypeEnd, Completes, NameIn, Strip, CanEnd;
    var k := TypeEnd(p, 1);
    ty := p[..k];
    x := EndingFound(p[k..]);
    EndingRead(p[k..], x);
    forall i | 0 < i < |ty| ensures !CanEnd(p[i..]) {
      CanEndAt(p, i);
    }
  }

  /** And of a text spelled so, they are the type and the name read. */
  lemma {:induction false} ParamSpelled(ty: string, x: Ending, r: string)
    requires ty != "" && x.Of(r) && forall k | 0 < k < |ty| :: !CanEnd((ty + r)[k..])
    ensures ParamOf(ty + r) == Parameter(Strip(ty), if x.name == "" then None else Some(x.name))
  {
    var p := ty + r;
    assert p[|ty|..] == r && p[..|ty|] == ty;
    EndingRead(r, x);
    forall k | 0 < k < |ty| ensures !CompleteAt(p, k) {
      CanEndAt(p, k);
    }
    hide TypeEnd, NameIn, Strip, CanEnd, Completes;
    assert CompleteAt(p, |ty|);
    assert TypeEnd(p, 1) == |ty|;
  }
}
