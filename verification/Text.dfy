/** Text as the scripts see it: Python's `str` operations on `seq<char>`. */
module Text {

  /** Positions in order. */
  predicate Increasing(ix: seq<nat>) {
    forall a, b | 0 <= a < b < |ix| :: ix[a] < ix[b]
  }

  predicate Letter(c: char) {
    'A' <= c <= 'Z' || 'a' <= c <= 'z' || c == '_'
  }

  predicate Identifier(s: string) {
    s != "" && Letter(s[0]) && forall i | 0 <= i < |s| :: Letter(s[i]) || '0' <= s[i] <= '9'
  }

  /** `str.isspace` for one character, restricted to the code points Python strips. */
  predicate IsSpace(c: char) {
    || ('\t' <= c <= '\r') || c == ' '
    || ('\U{1C}' <= c <= '\U{1F}') || c == '\U{85}' || c == '\U{A0}'
    || c == '\U{1680}' || ('\U{2000}' <= c <= '\U{200A}')
    || c == '\U{2028}' || c == '\U{2029}' || c == '\U{202F}' || c == '\U{205F}' || c == '\U{3000}'
  }

  predicate AllSpace(s: string) {
    forall i | 0 <= i < |s| :: IsSpace(s[i])
  }

  function LStrip(s: string): string {
    if s != "" && IsSpace(s[0]) then LStrip(s[1..]) else s
  }

  function RStrip(s: string): string {
    if s != "" && IsSpace(s[|s| - 1]) then RStrip(s[..|s| - 1]) else s
  }

  function Strip(s: string): string {
    RStrip(LStrip(s))
  }

  function StripEach(segs: seq<string>): (r: seq<string>)
    ensures |r| == |segs| && forall i | 0 <= i < |segs| :: r[i] == Strip(segs[i])
  {
    seq(|segs|, i requires 0 <= i < |segs| => Strip(segs[i]))
  }

  /** Neither end is white space (the empty text included). */
  predicate Trimmed(s: string) {
    s == "" || (!IsSpace(s[0]) && !IsSpace(s[|s| - 1]))
  }

  predicate StartsWith(s: string, prefix: string) {
    |prefix| <= |s| && s[..|prefix|] == prefix
  }

  predicate EndsWith(s: string, suffix: string) {
    |suffix| <= |s| && s[|s| - |suffix|..] == suffix
  }

  function Count(s: string, c: char): nat {
    if s == "" then 0 else (if s[0] == c then 1 else 0) + Count(s[1..], c)
  }

  /** The text with every white-space character dropped. */
  function Squeeze(s: string): string {
    if s == "" then "" else (if IsSpace(s[0]) then "" else [s[0]]) + Squeeze(s[1..])
  }

  function Concat(lines: seq<string>): string {
    if lines == [] then "" else lines[0] + Concat(lines[1..])
  }

  /** `sep.join(parts)`. */
  function Join(parts: seq<string>, sep: string): string {
    if parts == [] then ""
    else if |parts| == 1 then parts[0]
    else parts[0] + sep + Join(parts[1..], sep)
  }

  /** `s.replace(pat, sub)`. */
  function Replace(s: string, pat: string, sub: string): string
    decreases |s|
  {
    if pat == "" || |s| < |pat| then s
    else if s[..|pat|] == pat then sub + Replace(s[|pat|..], pat, sub)
    else [s[0]] + Replace(s[1..], pat, sub)
  }

  /** `" ".join(s.split())`: stripped, and every inner run of white space one blank. */
  function Collapse(s: string): string {
    Runs(Strip(s))
  }

  function Runs(s: string): string {
    if s == "" then ""
    else if !IsSpace(s[0]) then [s[0]] + Runs(s[1..])
    else (if |s| > 1 && IsSpace(s[1]) then "" else " ") + Runs(s[1..])
  }

  /** `s.lstrip(chars)` and `s.rstrip(chars)`: strip by character SET, as Python does. */
  function LStripSet(s: string, chars: string): string {
    if s != "" && s[0] in chars then LStripSet(s[1..], chars) else s
  }

  function RStripSet(s: string, chars: string): string {
    if s != "" && s[|s| - 1] in chars then RStripSet(s[..|s| - 1], chars) else s
  }

  /** A pattern with a character the text lacks is never replaced. */
  lemma {:induction false} ReplaceAbsent(s: string, pat: string, sub: string, c: char)
    requires c in pat && c !in s
    ensures Replace(s, pat, sub) == s
    decreases |s|
  {
    if |pat| <= |s| {
      assert forall i | 0 <= i < |pat| :: s[..|pat|][i] == s[i];
      ReplaceAbsent(s[1..], pat, sub, c);
    }
  }

  // ---- facts about stripping -------------------------------------------------------------

  lemma {:induction false} LStripSplits(s: string) returns (a: string)
    ensures s == a + LStrip(s) && AllSpace(a)
    ensures LStrip(s) == "" || !IsSpace(LStrip(s)[0])
  {
    if s != "" && IsSpace(s[0]) {
      a := LStripSplits(s[1..]);
      a := [s[0]] + a;
    } else {
      a := "";
    }
  }

  lemma {:induction false} RStripSplits(s: string) returns (b: string)
    ensures s == RStrip(s) + b && AllSpace(b)
    ensures RStrip(s) == "" || !IsSpace(RStrip(s)[|RStrip(s)| - 1])
  {
    if s != "" && IsSpace(s[|s| - 1]) {
      b := RStripSplits(s[..|s| - 1]);
      assert s == s[..|s| - 1] + [s[|s| - 1]];
      b := b + [s[|s| - 1]];
    } else {
      b := "";
    }
  }

  /** Stripping removes white space at the two ends and nothing else. */
  lemma {:induction false} StripSplits(s: string) returns (a: string, b: string)
    ensures s == a + Strip(s) + b && AllSpace(a) && AllSpace(b) && Trimmed(Strip(s))
  {
    a := LStripSplits(s);
    b := RStripSplits(LStrip(s));
    assert s == a + (Strip(s) + b);
    if Strip(s) != "" {
      assert LStrip(s)[0] == Strip(s)[0];
    }
  }

  lemma {:induction false} LStripSkips(a: string, t: string)
    requires AllSpace(a)
    ensures LStrip(a + t) == LStrip(t)
  {
    if a == "" {
      assert a + t == t;
    } else {
      assert (a + t)[1..] == a[1..] + t;
      LStripSkips(a[1..], t);
    }
  }

  lemma {:induction false} RStripSkips(t: string, b: string)
    requires AllSpace(b)
    ensures RStrip(t + b) == RStrip(t)
  {
    if b == "" {
      assert t + b == t;
    } else {
      assert (t + b)[..|t + b| - 1] == t + b[..|b| - 1];
      RStripSkips(t, b[..|b| - 1]);
    }
  }

  /** The converse of `StripSplits`: such a split determines what stripping returns. */
  lemma {:induction false} StripIs(a: string, t: string, b: string)
    requires AllSpace(a) && AllSpace(b) && Trimmed(t)
    ensures Strip(a + t + b) == t
  {
    assert a + t + b == a + (t + b);
    LStripSkips(a, t + b);
    if t == "" {
      assert t + b == b;
      assert b + "" == b;
      LStripSkips(b, "");
      assert LStrip(b) == "";
    } else {
      assert (t + b)[0] == t[0];
      RStripSkips(t, b);
    }
  }

  lemma {:induction false} StripTrimmed(s: string)
    requires Trimmed(s)
    ensures Strip(s) == s
  {
    assert "" + s + "" == s;
    StripIs("", s, "");
  }

  /** Stripping on the right stops at the last solid character, whatever follows it. */
  lemma {:induction false} RStripKeeps(t: string, u: string)
    requires t != "" && !IsSpace(t[|t| - 1])
    ensures |t| <= |RStrip(t + u)| <= |t + u| && RStrip(t + u) == (t + u)[..|RStrip(t + u)|]
  {
    if u == "" {
      assert t + u == t;
    } else if IsSpace(u[|u| - 1]) {
      assert (t + u)[..|t + u| - 1] == t + u[..|u| - 1];
      RStripKeeps(t, u[..|u| - 1]);
    }
  }

  /** Stripping on the left stops at the first solid character, whatever precedes it. */
  lemma {:induction false} LStripKeeps(t: string, u: string)
    requires u != "" && !IsSpace(u[0])
    ensures |u| <= |LStrip(t + u)| <= |t + u| && EndsWith(LStrip(t + u), u)
  {
    if t == "" {
      assert t + u == u;
    } else if IsSpace(t[0]) {
      assert (t + u)[1..] == t[1..] + u;
      LStripKeeps(t[1..], u);
    } else {
      assert (t + u)[|t|..] == u;
    }
  }

  lemma {:induction false} RunsBlank(w: string, q: string)
    requires w != "" && AllSpace(w) && q != "" && !IsSpace(q[0])
    ensures Runs(w + q) == " " + Runs(q)
  {
    assert (w + q)[1..] == w[1..] + q;
    if |w| > 1 {
      RunsBlank(w[1..], q);
    } else {
      assert w[1..] + q == q;
    }
  }

  lemma {:induction false} RunsAfter(p: string, t: string)
    requires p == "" || !IsSpace(p[|p| - 1])
    ensures Runs(p + t) == Runs(p) + Runs(t)
    decreases |p|
  {
    if p == "" {
      assert "" + t == t;
    } else {
      assert (p + t)[1..] == p[1..] + t;
      assert (p + t)[0] == p[0] && (|p| > 1 ==> (p + t)[1] == p[1]);
      RunsAfter(p[1..], t);
      assert forall x: string, y: string :: [p[0]] + (x + y) == ([p[0]] + x) + y;
      assert forall x: string, y: string :: " " + (x + y) == (" " + x) + y;
    }
  }

  lemma {:induction false} CollapseAround(a: string, p: string, b: string)
    requires AllSpace(a) && AllSpace(b) && Trimmed(p)
    ensures Collapse(a + p + b) == Runs(p)
  {
    StripIs(a, p, b);
  }

  /** White space between two texts, however much, is one blank after normalisation, and no blank
      at all when one of them has no words. */
  lemma {:induction false} CollapseApart(a: string, w: string, b: string)
    requires w != "" && AllSpace(w)
    ensures Collapse(a + w + b)
         == if Collapse(a) == "" then Collapse(b)
            else if Collapse(b) == "" then Collapse(a) else Collapse(a) + " " + Collapse(b)
  {
    var a1, a2 := StripSplits(a);
    var b1, b2 := StripSplits(b);
    var p, q, gap := Strip(a), Strip(b), a2 + w + b1;
    CollapseIs(a);
    CollapseIs(b);
    hide *;
    CollapseGap(a2, w, b1);
    CollapseParts(a1, p, gap, q, b2);
    assert a + w + b == a1 + p + gap + q + b2;
  }

  lemma {:induction false} CollapseIs(s: string)
    ensures Collapse(s) == Runs(Strip(s))
  {
  }

  lemma {:induction false} CollapseGap(a: string, w: string, b: string)
    requires AllSpace(a) && AllSpace(w) && AllSpace(b) && w != ""
    ensures AllSpace(a + w + b) && a + w + b != ""
  {
  }

  lemma {:induction false} CollapseParts(a: string, p: string, gap: string, q: string, b: string)
    requires AllSpace(a) && AllSpace(gap) && AllSpace(b) && gap != "" && Trimmed(p) && Trimmed(q)
    ensures Collapse(a + p + gap + q + b)
         == if Runs(p) == "" then Runs(q) else if Runs(q) == "" then Runs(p) else Runs(p) + " " + Runs(q)
  {
    RunsEmpty(p);
    RunsEmpty(q);
    hide Runs, Collapse;
    if p == "" {
      assert a + p + gap + q + b == (a + gap) + q + b;
      CollapseAround(a + gap, q, b);
    } else if q == "" {
      assert a + p + gap + q + b == a + p + (gap + b);
      CollapseAround(a, p, gap + b);
    } else {
      var inner := p + (gap + q);
      assert a + p + gap + q + b == a + inner + b;
      assert inner[0] == p[0] && inner[|inner| - 1] == q[|q| - 1];
      CollapseAround(a, inner, b);
      RunsAfter(p, gap + q);
      RunsBlank(gap, q);
      assert Runs(p) + (" " + Runs(q)) == Runs(p) + " " + Runs(q);
    }
  }

  lemma {:induction false} RunsEmpty(p: string)
    requires Trimmed(p)
    ensures Runs(p) == "" <==> p == ""
  {
  }

  lemma {:induction false} SqueezeAppend(a: string, b: string)
    ensures Squeeze(a + b) == Squeeze(a) + Squeeze(b)
  {
    if a == "" {
      assert a + b == b;
    } else {
      assert (a + b)[1..] == a[1..] + b;
      SqueezeAppend(a[1..], b);
    }
  }

  lemma {:induction false} SqueezeSpace(a: string)
    requires AllSpace(a)
    ensures Squeeze(a) == ""
  {
    if a != "" {
      SqueezeSpace(a[1..]);
    }
  }

  lemma {:induction false} SqueezeStrip(s: string)
    ensures Squeeze(Strip(s)) == Squeeze(s)
  {
    var a, b := StripSplits(s);
    SqueezeAppend(a + Strip(s), b);
    SqueezeAppend(a, Strip(s));
    SqueezeSpace(a);
    SqueezeSpace(b);
  }

  lemma {:induction false} CountAppend(a: string, b: string, c: char)
    ensures Count(a + b, c) == Count(a, c) + Count(b, c)
  {
    if a == "" {
      assert a + b == b;
    } else {
      assert (a + b)[1..] == a[1..] + b;
      CountAppend(a[1..], b, c);
    }
  }

  lemma {:induction false} CountSpace(a: string, c: char)
    requires AllSpace(a) && !IsSpace(c)
    ensures Count(a, c) == 0
  {
    if a != "" {
      CountSpace(a[1..], c);
    }
  }

  lemma {:induction false} CountStrip(s: string, c: char)
    requires !IsSpace(c)
    ensures Count(Strip(s), c) == Count(s, c)
  {
    var a, b := StripSplits(s);
    CountAppend(a + Strip(s), b, c);
    CountAppend(a, Strip(s), c);
    CountSpace(a, c);
    CountSpace(b, c);
  }

  lemma {:induction false} ConcatAppend(a: seq<string>, b: seq<string>)
    ensures Concat(a + b) == Concat(a) + Concat(b)
  {
    if a == [] {
      assert a + b == b;
    } else {
      assert (a + b)[1..] == a[1..] + b;
      ConcatAppend(a[1..], b);
    }
  }
}
