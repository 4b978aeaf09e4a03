/** What the parser reads from a line that declares a method: the method pattern, its parameters, and
    that white space decides it only inside the type of a parameter. */
module MethodPattern {
  import opened Options
  import opened Text
  import opened Names
  import opened ParamSplit

  // ---- the first and the last position of a character --------------------------------------

  /** The first position whose character is one of `chars`, or the length. */
  function FirstOf(s: string, chars: string): (k: nat)
    ensures k <= |s| && (k < |s| ==> s[k] in chars) && forall i | 0 <= i < k :: s[i] !in chars
  {
    if s == "" || s[0] in chars then 0 else 1 + FirstOf(s[1..], chars)
  }

  /** The last position of the character, or -1. */
  function LastOf(s: string, c: char): (k: int)
    ensures -1 <= k < |s| && (k >= 0 ==> s[k] == c) && forall i | k < i < |s| :: s[i] != c
  {
    if s == "" then -1 else if s[|s| - 1] == c then |s| - 1 else LastOf(s[..|s| - 1], c)
  }

  predicate Lacks(s: string, chars: string) {
    forall i | 0 <= i < |s| :: s[i] !in chars
  }

  // ---- the parts of a declaration ----------------------------------------------------------

  const ENDERS := ";{"

  /** What stands before the first open paren, between the parens, and after the last close paren that
      comes before any `;` or `{`. */
  datatype Parts = NoParens | Parens(head: string, inner: string, tail: string)

  /** What follows the first open paren, cut at the close paren. */
  function CloseOf(head: string, r: string): Parts {
    var close := LastOf(r[..FirstOf(r, ENDERS)], ')');
    if close < 0 then NoParens else Parens(head, r[..close], r[close + 1..])
  }

  function PartsOf(s: string): Parts {
    var open := FirstOf(s, "(");
    if open == |s| || !Lacks(s[..open], ENDERS) then NoParens else CloseOf(s[..open], s[open + 1..])
  }

  predicate TypeChar(c: char) {
    WordChar(c) || c in ":*&<>, "
  }

  /** The return type, single-spaced, and the name, which is the last word. White space of any amount is
      `\s` to the pattern, so the normalised head says it all. */
  function RetAndName(head: string): Option<(string, string)> {
    var c := Collapse(head);
    var k := LastOf(c, ' ');
    if k < 1 || !NameStart(c[0]) || !IsIdent(c[k + 1..]) || exists i | 0 <= i < k :: !TypeChar(c[i]) then None
    else Some((c[..k], c[k + 1..]))
  }

  /** Whether the method is `const`, when the declaration goes on to its `;` or `{`. */
  function ConstAfter(tail: string): Option<bool> {
    var c := Collapse(tail);
    var isConst := StartsWith(c, "const");
    var b := if isConst then LStrip(c[5..]) else c;
    var pure := StartsWith(b, "=") && StartsWith(LStrip(b[1..]), "0");
    var e := if pure then LStrip(LStrip(b[1..])[1..]) else b;
    if e != "" && e[0] in ENDERS then Some(isConst) else None
  }

  // ---- where the parts are found -----------------------------------------------------------

  lemma {:induction false} FirstAt(s: string, chars: string, k: nat)
    requires k <= |s| && Lacks(s[..k], chars) && (k < |s| ==> s[k] in chars)
    ensures FirstOf(s, chars) == k
  {
    hide FirstOf;
    assert forall i | 0 <= i < k :: s[i] == s[..k][i];
  }

  lemma {:induction false} FirstMissing(s: string, chars: string)
    requires Lacks(s, chars)
    ensures FirstOf(s, chars) == |s|
  {
    assert s[..|s|] == s;
    FirstAt(s, chars, |s|);
  }

  lemma {:induction false} LastAt(s: string, c: char, k: nat)
    requires k < |s| && s[k] == c && c !in s[k + 1..]
    ensures LastOf(s, c) == k
  {
    hide LastOf;
    assert forall i | k < i < |s| :: s[i] == s[k + 1..][i - k - 1];
  }

  lemma {:induction false} LacksAppend(a: string, b: string, chars: string)
    ensures Lacks(a + b, chars) <==> Lacks(a, chars) && Lacks(b, chars)
  {
    assert forall i | 0 <= i < |a| :: (a + b)[i] == a[i];
    assert forall i | 0 <= i < |b| :: (a + b)[|a| + i] == b[i];
  }

  lemma {:induction false} SpaceLacks(s: string, chars: string)
    requires AllSpace(s) && forall c | c in chars :: !IsSpace(c)
    ensures Lacks(s, chars)
  {
  }

  /** The first ender of a text whose start has none. */
  lemma {:induction false} EnderAfter(front: string, t: string)
    requires Lacks(front, ENDERS)
    ensures var k := FirstOf(front + t, ENDERS);
            k == |front| + FirstOf(t, ENDERS) && (front + t)[..k] == front + t[..FirstOf(t, ENDERS)]
  {
    var k := |front| + FirstOf(t, ENDERS);
    hide FirstOf;
    var before := t[..FirstOf(t, ENDERS)];
    assert (front + t)[..k] == front + before;
    LacksAppend(front, before, ENDERS);
    FirstAt(front + t, ENDERS, k);
  }

  lemma {:induction false} PartsFrom(h: string, r: string)
    requires '(' !in h
    ensures PartsOf(h + "(" + r) == if Lacks(h, ENDERS) then CloseOf(h, r) else NoParens
  {
    var s := h + "(" + r;
    hide CloseOf, FirstOf;
    assert s[..|h|] == h && s[|h|] == '(' && s[|h| + 1..] == r;
    FirstAt(s, "(", |h|);
  }

  lemma {:induction false} CloseFrom(h: string, inner: string, t: string)
    requires Lacks(inner, ENDERS) && ')' !in t[..FirstOf(t, ENDERS)]
    ensures CloseOf(h, inner + ")" + t) == Parens(h, inner, t)
  {
    var front, before := inner + ")", t[..FirstOf(t, ENDERS)];
    LacksAppend(inner, ")", ENDERS);
    EnderAfter(front, t);
    hide FirstOf, LastOf, Lacks;
    var s := front + before;
    assert s[|inner|] == ')' && s[|inner| + 1..] == before;
    LastAt(s, ')', |inner|);
    var r := inner + ")" + t;
    assert r[..|inner|] == inner && r[|inner| + 1..] == t;
  }

  // ---- one parameter -----------------------------------------------------------------------

  datatype Parameter = Parameter(ty: string, name: Option<string>)

  /** The length of the identifier that the text starts with. */
  function NameLength(s: string): (n: nat)
    ensures n <= |s| && forall i | 0 <= i < n :: WordChar(s[i])
  {
    if s != "" && NameStart(s[0]) then 1 + WordLength(s[1..]) else 0
  }

  function WordLength(s: string): (n: nat)
    ensures n <= |s| && (n < |s| ==> !WordChar(s[n])) && forall i | 0 <= i < n :: WordChar(s[i])
  {
    if s != "" && WordChar(s[0]) then 1 + WordLength(s[1..]) else 0
  }

  /** White space, a name if there is one, white space, and a default if there is one. */
  predicate Completes(s: string) {
    var a := LStrip(s);
    var b := LStrip(a[NameLength(a)..]);
    b == "" || b[0] == '='
  }

  predicate CompleteAt(p: string, k: nat) {
    k <= |p| && Completes(p[k..])
  }

  /** The type is lazy: it ends as soon as the rest can complete the parameter. */
  function TypeEnd(p: string, k: nat): (e: nat)
    requires k <= |p|
    ensures k <= e <= |p| && CompleteAt(p, e) && forall i | k <= i < e :: !CompleteAt(p, i)
    decreases |p| - k
  {
    if k == |p| || CompleteAt(p, k) then k else TypeEnd(p, k + 1)
  }

  /** The name that comes after the type, or no text. */
  function NameIn(s: string): string {
    var a := LStrip(s);
    a[..NameLength(a)]
  }

  /** A stripped piece of the parameter list. */
  function ParamOf(p: string): Parameter {
    if p == "" then Parameter("", None)
    else
      var k := TypeEnd(p, 1);
      var n := NameIn(p[k..]);
      Parameter(Strip(p[..k]), if n == "" then None else Some(n))
  }

  /** A parameter without a name whose type is one word loses all but its first letter to a name. */
  lemma {:induction false} LoneWordCut(w: string)
    requires IsIdent(w) && |w| > 1 && NameStart(w[1])
    ensures ParamOf(w) == Parameter(w[..1], Some(w[1..]))
  {
    var r := w[1..];
    WordWhole(r[1..]);
    assert LStrip(r) == r && NameLength(r) == |r| && r[|r|..] == "" && r[..|r|] == r;
    assert Completes(r) && NameIn(r) == r;
    assert Strip(w[..1]) == w[..1] by { StripTrimmed(w[..1]); }
  }

  lemma {:induction false} WordWhole(s: string)
    requires forall i | 0 <= i < |s| :: WordChar(s[i])
    ensures WordLength(s) == |s|
  {
    if s != "" {
      WordWhole(s[1..]);
    }
  }

  function Each(pieces: seq<string>): (ps: seq<Parameter>)
    ensures |ps| == |pieces| && forall i | 0 <= i < |ps| :: ps[i] == ParamOf(pieces[i])
  {
    seq(|pieces|, i requires 0 <= i < |pieces| => ParamOf(pieces[i]))
  }

  /** `parse_params`. */
  function Parameters(raw: string): seq<Parameter> {
    Each(Params(raw))
  }

  // ---- the method --------------------------------------------------------------------------

  datatype Declared = Declared(ret: string, name: string, params: seq<Parameter>, isConst: bool)

  function MethodIn(parts: Parts): Option<Declared> {
    match parts
    case NoParens => None
    case Parens(head, inner, tail) =>
      var h, t := RetAndName(head), ConstAfter(tail);
      if h.None? || t.None? then None else Some(Declared(h.value.0, h.value.1, Parameters(inner), t.value))
  }

  /** The method that a line declares, if it declares one. */
  function MethodOf(s: string): Option<Declared> {
    MethodIn(PartsOf(s))
  }

  // ---- only the parameters feel the amount of white space ----------------------------------

  lemma {:induction false} RunsWith(a: string, c: char)
    requires !IsSpace(c)
    ensures Runs(a + [c]) == Runs(a) + [c]
  {
    if a == "" {
      assert a + [c] == [c] && [c][1..] == "";
    } else {
      var t := a + [c];
      assert t[1..] == a[1..] + [c];
      RunsWith(a[1..], c);
      assert |a| > 1 ==> t[1] == a[1];
    }
  }

  /** Normalisation does not reach across a solid character. */
  lemma {:induction false} RunsAt(a: string, c: char, b: string)
    requires !IsSpace(c)
    ensures Runs(a + [c] + b) == Runs(a) + [c] + Runs(b)
  {
    RunsAfter(a + [c], b);
    RunsWith(a, c);
  }

  lemma {:induction false} RunsHas(s: string, c: char)
    requires !IsSpace(c)
    ensures c in Runs(s) <==> c in s
  {
    if s != "" {
      RunsHas(s[1..], c);
    }
  }

  predicate AllSolid(chars: string) {
    forall i | 0 <= i < |chars| :: !IsSpace(chars[i])
  }

  lemma {:induction false} RunsLack(s: string, chars: string)
    requires AllSolid(chars)
    ensures Lacks(Runs(s), chars) <==> Lacks(s, chars)
  {
    forall c | c in chars ensures c in Runs(s) <==> c in s {
      RunsHas(s, c);
    }
    hide Runs;
    assert Lacks(Runs(s), chars) <==> forall c | c in chars :: c !in Runs(s);
    assert Lacks(s, chars) <==> forall c | c in chars :: c !in s;
  }

  lemma {:induction false} FirstUnique(a: string, c: char, b: string, d: string, e: char, f: string, chars: string)
    requires a + [c] + b == d + [e] + f && Lacks(a, chars) && Lacks(d, chars) && c in chars && e in chars
    ensures a == d && b == f
  {
    var s, t := a + [c] + b, d + [e] + f;
    assert s[|a|] == c && t[|d|] == e;
    assert forall i | 0 <= i < |a| :: s[i] == a[i];
    assert forall i | 0 <= i < |d| :: t[i] == d[i];
    assert s[..|a|] == a && t[..|d|] == d && s[|a| + 1..] == b && t[|d| + 1..] == f;
  }

  lemma {:induction false} LastUnique(a: string, c: char, b: string, d: string, f: string)
    requires a + [c] + b == d + [c] + f && c !in b && c !in f
    ensures a == d && b == f
  {
    var s, t := a + [c] + b, d + [c] + f;
    assert s[|a|] == c && t[|d|] == c;
    assert forall i | |a| < i < |s| :: s[i] == b[i - |a| - 1];
    assert forall i | |d| < i < |t| :: t[i] == f[i - |d| - 1];
    assert s[..|a|] == a && t[..|d|] == d && s[|a| + 1..] == b && t[|d| + 1..] == f;
  }

  lemma {:induction false} FirstSplits(s: string, chars: string)
    ensures var k := FirstOf(s, chars);
            Lacks(s[..k], chars) && if k == |s| then Lacks(s, chars) else s == s[..k] + [s[k]] + s[k + 1..]
  {
  }

  /** The first of some solid characters stands at the same place of both texts. */
  lemma {:induction false} FirstAlike(x: string, y: string, chars: string)
    requires Runs(x) == Runs(y) && AllSolid(chars)
    ensures var i, j := FirstOf(x, chars), FirstOf(y, chars);
            && (i < |x| <==> j < |y|) && Runs(x[..i]) == Runs(y[..j])
            && (i < |x| ==> Runs(x[i + 1..]) == Runs(y[j + 1..]))
  {
    var i, j := FirstOf(x, chars), FirstOf(y, chars);
    FirstSplits(x, chars);
    FirstSplits(y, chars);
    RunsLack(x, chars);
    RunsLack(y, chars);
    hide Runs, FirstOf;
    assert i < |x| ==> !Lacks(x, chars) by { assert i < |x| ==> x[i] in chars; }
    assert j < |y| ==> !Lacks(y, chars) by { assert j < |y| ==> y[j] in chars; }
    if i < |x| {
      RunsAt(x[..i], x[i], x[i + 1..]);
      RunsAt(y[..j], y[j], y[j + 1..]);
      RunsLack(x[..i], chars);
      RunsLack(y[..j], chars);
      hide Lacks;
      FirstUnique(Runs(x[..i]), x[i], Runs(x[i + 1..]), Runs(y[..j]), y[j], Runs(y[j + 1..]), chars);
    } else {
      assert x[..i] == x && y[..j] == y;
    }
  }

  lemma {:induction false} LastSplits(s: string, c: char)
    ensures var k := LastOf(s, c); if k < 0 then c !in s else s == s[..k] + [c] + s[k + 1..] && c !in s[k + 1..]
  {
  }

  lemma {:induction false} LastAlike(x: string, y: string, c: char)
    requires Runs(x) == Runs(y) && !IsSpace(c)
    ensures var i, j := LastOf(x, c), LastOf(y, c);
            && (i >= 0 <==> j >= 0)
            && (i >= 0 ==> Runs(x[..i]) == Runs(y[..j]) && Runs(x[i + 1..]) == Runs(y[j + 1..]))
  {
    var i, j := LastOf(x, c), LastOf(y, c);
    LastSplits(x, c);
    LastSplits(y, c);
    RunsHas(x, c);
    RunsHas(y, c);
    hide Runs, LastOf;
    if i >= 0 {
      RunsAt(x[..i], c, x[i + 1..]);
      RunsAt(y[..j], c, y[j + 1..]);
      RunsHas(x[i + 1..], c);
      RunsHas(y[j + 1..], c);
      LastUnique(Runs(x[..i]), c, Runs(x[i + 1..]), Runs(y[..j]), Runs(y[j + 1..]));
    }
  }

  predicate PartsAlike(a: Parts, b: Parts) {
    if a.NoParens? then b.NoParens?
    else b.Parens? && Runs(a.head) == Runs(b.head) && Runs(a.inner) == Runs(b.inner) && Runs(a.tail) == Runs(b.tail)
  }

  lemma {:induction false} CutTwice(s: string, e: nat, i: nat)
    requires i < e <= |s|
    ensures s[..e][..i] == s[..i] && s[..e][i] == s[i]
  {
  }

  lemma {:induction false} CloseAlike(g: string, r: string, h: string, s: string)
    requires Runs(g) == Runs(h) && Runs(r) == Runs(s)
    ensures PartsAlike(CloseOf(g, r), CloseOf(h, s))
  {
    var e, f := FirstOf(r, ENDERS), FirstOf(s, ENDERS);
    FirstAlike(r, s, ENDERS);
    LastAlike(r[..e], s[..f], ')');
    var i, j := LastOf(r[..e], ')'), LastOf(s[..f], ')');
    hide Runs, FirstOf, LastOf;
    if i >= 0 {
      CutTwice(r, e, i);
      CutTwice(s, f, j);
      hide *;
      AfterAlike(r, i, s, j, ')');
    }
  }

  lemma {:induction false} AfterAlike(r: string, i: nat, s: string, j: nat, c: char)
    requires i < |r| && j < |s| && r[i] == s[j] == c && !IsSpace(c)
    requires Runs(r) == Runs(s) && Runs(r[..i]) == Runs(s[..j])
    ensures Runs(r[i + 1..]) == Runs(s[j + 1..])
  {
    RunsAt(r[..i], c, r[i + 1..]);
    RunsAt(s[..j], c, s[j + 1..]);
    hide *;
    assert r == r[..i] + [c] + r[i + 1..] && s == s[..j] + [c] + s[j + 1..];
    var p, u, v := Runs(r[..i]) + [c], Runs(r[i + 1..]), Runs(s[j + 1..]);
    assert (p + u)[|p|..] == u && (p + v)[|p|..] == v;
  }

  /** Two texts with the same words, white space of any amount wherever there is some, have the same
      parts. */
  lemma {:induction false} PartsOfWords(x: string, y: string)
    requires Runs(x) == Runs(y)
    ensures PartsAlike(PartsOf(x), PartsOf(y))
  {
    var i, j := FirstOf(x, "("), FirstOf(y, "(");
    FirstAlike(x, y, "(");
    RunsLack(x[..i], ENDERS);
    RunsLack(y[..j], ENDERS);
    hide Runs, FirstOf, LastOf, Lacks;
    if i < |x| && Lacks(x[..i], ENDERS) {
      CloseAlike(x[..i], x[i + 1..], y[..j], y[j + 1..]);
    }
  }

  lemma {:induction false} LStripRuns(s: string)
    ensures LStrip(Runs(s)) == Runs(LStrip(s))
  {
    if s != "" && IsSpace(s[0]) {
      LStripRuns(s[1..]);
      var more := Runs(s[1..]);
      assert (" " + more)[1..] == more && "" + more == more;
    }
  }

  lemma {:induction false} RunsWithSpace(t: string, c: char)
    requires IsSpace(c)
    ensures Runs(t + [c]) == if t != "" && IsSpace(t[|t| - 1]) then Runs(t) else Runs(t) + " "
  {
    var s := t + [c];
    assert s[1..] == if t == "" then "" else t[1..] + [c];
    if t == "" {
      assert Runs(s) == " " + Runs("");
    } else {
      RunsWithSpace(t[1..], c);
      assert |t| > 1 ==> s[1] == t[1] && t[1..][|t| - 2] == t[|t| - 1];
    }
  }

  lemma {:induction false} RStripRuns(s: string)
    ensures RStrip(Runs(s)) == Runs(RStrip(s))
  {
    if s != "" {
      var t, c := s[..|s| - 1], s[|s| - 1];
      assert s == t + [c];
      if IsSpace(c) {
        RStripRuns(t);
        RunsWithSpace(t, c);
        assert (Runs(t) + " ")[..|Runs(t)|] == Runs(t);
      } else {
        RunsWith(t, c);
      }
    }
  }

  lemma {:induction false} RunsCollapse(x: string, y: string)
    requires Runs(x) == Runs(y)
    ensures Collapse(x) == Collapse(y)
  {
    LStripRuns(x);
    LStripRuns(y);
    RStripRuns(LStrip(x));
    RStripRuns(LStrip(y));
    hide LStrip, RStrip, Runs;
  }

  function ParametersOf(s: string): seq<Parameter> {
    var parts := PartsOf(s);
    if parts.NoParens? then [] else Parameters(parts.inner)
  }

  /** Two lines with the same words declare the same method, or none, if and only if their parameters
      are the same; everything else is blind to the amount of white space. */
  lemma {:induction false} WordsExactly(x: string, y: string)
    requires Runs(x) == Runs(y)
    ensures MethodOf(x).None? <==> MethodOf(y).None?
    ensures MethodOf(x) == MethodOf(y) <==> MethodOf(x).None? || ParametersOf(x) == ParametersOf(y)
  {
    PartsOfWords(x, y);
    var p, q := PartsOf(x), PartsOf(y);
    hide PartsOf, Runs, RetAndName, ConstAfter, Parameters;
    if p.Parens? {
      RunsCollapse(p.head, q.head);
      RunsCollapse(p.tail, q.tail);
      RetAndNameOfWords(p.head, q.head);
      ConstAfterWords(p.tail, q.tail);
    }
  }

  lemma {:induction false} RetAndNameOfWords(g: string, h: string)
    requires Collapse(g) == Collapse(h)
    ensures RetAndName(g) == RetAndName(h)
  {
    hide Collapse, LastOf;
  }

  lemma {:induction false} ConstAfterWords(g: string, h: string)
    requires Collapse(g) == Collapse(h)
    ensures ConstAfter(g) == ConstAfter(h)
  {
    hide Collapse, StartsWith, LStrip;
  }
}
