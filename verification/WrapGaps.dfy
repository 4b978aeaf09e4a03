/** Where a break in a declaration may leave more than one blank: anywhere but inside the type of a
    parameter. */
module WrapGaps {
  import opened Options
  import opened Text
  import opened Names
  import opened ParamSplit
  import opened MethodPattern

  predicate Spacing(v: string) {
    v != "" && AllSpace(v)
  }

  predicate EndsSolid(s: string) {
    s == "" || !IsSpace(s[|s| - 1])
  }

  predicate StartsSolid(s: string) {
    s == "" || !IsSpace(s[0])
  }

  // ---- a gap in one parameter --------------------------------------------------------------

  lemma {:induction false} LStripSolid(s: string)
    requires EndsSolid(s)
    ensures (LStrip(s) == "" <==> s == "") && EndsSolid(LStrip(s)) && StartsSolid(LStrip(s))
  {
    if s != "" && IsSpace(s[0]) {
      assert |s| > 1;
      LStripSolid(s[1..]);
    }
  }

  lemma {:induction false} LStripOver(r: string, t: string)
    requires r != "" && EndsSolid(r)
    ensures LStrip(r + t) == LStrip(r) + t
  {
    if IsSpace(r[0]) {
      assert |r| > 1 && (r + t)[1..] == r[1..] + t;
      LStripOver(r[1..], t);
    } else {
      assert (r + t)[0] == r[0];
    }
  }

  lemma {:induction false} LStripGap(v: string, e: string)
    requires AllSpace(v) && StartsSolid(e)
    ensures LStrip(v + e) == e
  {
    LStripSkips(v, e);
  }

  lemma {:induction false} WordStops(a: string, t: string)
    requires t != "" && !WordChar(t[0])
    ensures WordLength(a + t) == WordLength(a)
  {
    if a == "" {
      assert a + t == t;
    } else {
      assert (a + t)[1..] == a[1..] + t && (a + t)[0] == a[0];
      WordStops(a[1..], t);
    }
  }

  lemma {:induction false} NameStops(a: string, v: string, e: string)
    requires Spacing(v)
    ensures NameLength(a + v + e) == NameLength(a)
  {
    var t := v + e;
    assert a + v + e == a + t && t[0] == v[0] && IsSpace(v[0]) && !WordChar(t[0]);
    if a == "" {
      assert a + t == t;
    } else {
      assert (a + t)[1..] == a[1..] + t && (a + t)[0] == a[0];
      WordStops(a[1..], t);
    }
  }

  /** What `Completes` says of a text with a gap, without the gap. */
  predicate CompletesApart(r: string, e: string)
    requires e != ""
  {
    if r == "" then Completes(e)
    else
      var a := LStrip(r);
      var q := LStrip(a[NameLength(a)..]);
      if q == "" then e[0] == '=' else q[0] == '='
  }

  lemma {:induction false} CompletesGap(r: string, v: string, e: string)
    requires EndsSolid(r) && Spacing(v) && e != "" && StartsSolid(e)
    ensures Completes(r + v + e) <==> CompletesApart(r, e)
  {
    assert AllSpace(v);
    ApartEmpty(e);
    hide *;
    if r == "" {
      NothingBefore(v, e);
      assert r + v + e == v + e;
    } else {
      CompletesPast(r, v, e);
    }
  }

  lemma {:induction false} ApartEmpty(e: string)
    requires e != ""
    ensures CompletesApart("", e) <==> Completes(e)
  {
  }

  lemma {:induction false} NothingBefore(v: string, e: string)
    requires AllSpace(v) && StartsSolid(e)
    ensures Completes(v + e) <==> Completes(e)
  {
    LStripGap(v, e);
    LStripGap("", e);
    hide LStrip;
    assert "" + e == e;
  }

  lemma {:induction false} CompletesPast(r: string, v: string, e: string)
    requires r != "" && EndsSolid(r) && Spacing(v) && e != "" && StartsSolid(e)
    ensures Completes(r + v + e) <==> CompletesApart(r, e)
  {
    LStripSolid(r);
    var a, t := LStrip(r), v + e;
    NameStops(a, v, e);
    var n := NameLength(a);
    LStripOver(r, t);
    hide LStrip, NameLength, Spacing;
    assert r + v + e == r + t && a + t == a + v + e;
    AfterName(a, v, e, n);
    CompletesIs(r + t, a + t, n);
  }

  lemma {:induction false} AfterName(a: string, v: string, e: string, n: nat)
    requires n <= |a| && EndsSolid(a) && Spacing(v) && e != "" && StartsSolid(e)
    ensures var b := LStrip((a + (v + e))[n..]);
            b != "" && b[0] == if LStrip(a[n..]) == "" then e[0] else LStrip(a[n..])[0]
  {
    hide LStrip, Spacing;
    assert (a + (v + e))[n..] == a[n..] + (v + e);
    GapAfter(a[n..], v, e);
  }

  lemma {:induction false} CompletesIs(s: string, a: string, n: nat)
    requires LStrip(s) == a && NameLength(a) == n
    ensures var b := LStrip(a[n..]); Completes(s) <==> b == "" || b[0] == '='
  {
    hide LStrip, NameLength;
  }

  lemma {:induction false} GapAfter(q: string, v: string, e: string)
    requires EndsSolid(q) && Spacing(v) && e != "" && StartsSolid(e)
    ensures LStrip(q + (v + e)) != ""
    ensures LStrip(q + (v + e))[0] == if LStrip(q) == "" then e[0] else LStrip(q)[0]
  {
    LStripSolid(q);
    if q == "" {
      LStripGap(v, e);
      assert q + (v + e) == v + e;
    } else {
      LStripOver(q, v + e);
    }
  }

  lemma {:induction false} NameGap(r: string, v: string, e: string)
    requires EndsSolid(r) && Spacing(v) && StartsSolid(e)
    ensures NameIn(r + v + e) == if r == "" then NameIn(e) else NameIn(r)
  {
    if r == "" {
      LStripGap(v, e);
      LStripGap("", e);
      assert r + v + e == v + e && "" + e == e;
    } else {
      LStripOver(r, v + e);
      var a := LStrip(r);
      NameStops(a, v, e);
      hide *;
      Associative(r, v, e);
      Associative(a, v, e);
      NameInIs(r + v + e, a + v + e, NameLength(a));
      NameInIs(r, a, NameLength(a));
      Front(a, v + e, NameLength(a));
    }
  }

  lemma {:induction false} NameInIs(s: string, a: string, n: nat)
    requires LStrip(s) == a && NameLength(a) == n
    ensures NameIn(s) == a[..n]
  {
  }

  lemma {:induction false} Front(a: string, t: string, n: nat)
    requires n <= |a|
    ensures (a + t)[..n] == a[..n]
  {
  }

  /** The type of the parameter can end before the gap: what follows completes it. */
  predicate Settled(c: string, e: string)
    requires e != ""
  {
    exists k | 1 <= k <= |c| :: CompletesApart(c[k..], e)
  }

  lemma {:induction false} TypeEndIs(p: string, k: nat, e: nat)
    requires k <= e <= |p| && CompleteAt(p, e) && forall i | k <= i < e :: !CompleteAt(p, i)
    ensures TypeEnd(p, k) == e
  {
    hide CompleteAt;
  }

  /** Whether the parameter can be complete from a position up to the gap does not depend on the gap. */
  lemma {:induction false} CompletesBefore(c: string, v: string, e: string, k: nat)
    requires c != "" && EndsSolid(c) && Spacing(v) && e != "" && StartsSolid(e) && k <= |c|
    ensures CompleteAt(c + v + e, k) <==> CompletesApart(c[k..], e)
  {
    Slices(c, v, e, k);
    assert EndsSolid(c[k..]);
    hide Completes, CompletesApart, Spacing, EndsSolid, StartsSolid;
    CompletesGap(c[k..], v, e);
  }

  lemma {:induction false} Slices(c: string, v: string, e: string, k: nat)
    requires k <= |c|
    ensures (c + v + e)[k..] == c[k..] + v + e && (c + v + e)[..k] == c[..k] && |c + v + e| == |c| + |v| + |e|
  {
  }

  /** The first position from which the parameter is complete, when it comes before the gap. */
  lemma {:induction false} FirstSettled(c: string, e: string) returns (k: nat)
    requires e != "" && Settled(c, e)
    ensures 1 <= k <= |c| && CompletesApart(c[k..], e) && forall i | 1 <= i < k :: !CompletesApart(c[i..], e)
  {
    hide CompletesApart;
    k := 1;
    while !CompletesApart(c[k..], e)
      invariant 1 <= k <= |c| && forall i | 1 <= i < k :: !CompletesApart(c[i..], e)
      decreases |c| - k
    {
      var j :| 1 <= j <= |c| && CompletesApart(c[j..], e);
      assert k < j;
      k := k + 1;
    }
  }

  lemma {:induction false} ParamIs(p: string, k: nat)
    requires 1 <= k <= |p| && CompleteAt(p, k) && forall i | 1 <= i < k :: !CompleteAt(p, i)
    ensures var n := NameIn(p[k..]); ParamOf(p) == Parameter(Strip(p[..k]), if n == "" then None else Some(n))
  {
    hide CompleteAt, NameIn, Strip;
    TypeEndIs(p, 1, k);
  }

  lemma {:induction false} TypeIs(p: string, k: nat)
    requires 1 <= k <= |p| && CompleteAt(p, k) && forall i | 1 <= i < k :: !CompleteAt(p, i)
    ensures ParamOf(p).ty == Strip(p[..k])
  {
    hide *;
    ParamIs(p, k);
  }

  lemma {:induction false} SettledParam(c: string, v: string, e: string, k: nat)
    requires c != "" && EndsSolid(c) && Spacing(v) && e != "" && StartsSolid(e)
    requires 1 <= k <= |c| && CompletesApart(c[k..], e) && forall i | 1 <= i < k :: !CompletesApart(c[i..], e)
    ensures var n := if k == |c| then NameIn(e) else NameIn(c[k..]);
            ParamOf(c + v + e) == Parameter(Strip(c[..k]), if n == "" then None else Some(n))
  {
    var p := c + v + e;
    Slices(c, v, e, k);
    assert EndsSolid(c[k..]) && (c[k..] == "" <==> k == |c|);
    hide *;
    forall i | 1 <= i <= k ensures CompleteAt(p, i) <==> CompletesApart(c[i..], e) {
      CompletesBefore(c, v, e, i);
    }
    NameGap(c[k..], v, e);
    ParamIs(p, k);
  }

  lemma {:induction false} OpenBefore(c: string, v: string, e: string, i: nat)
    requires c != "" && EndsSolid(c) && Spacing(v) && e != "" && StartsSolid(e) && !Settled(c, e)
    requires 1 <= i <= |c + v|
    ensures !CompleteAt(c + v + e, i)
  {
    hide CompletesApart, Completes;
    assert c[|c|..] == "" && !CompletesApart(c[|c|..], e);
    if i <= |c| {
      CompletesBefore(c, v, e, i);
    } else if i < |c| + |v| {
      var u := v[i - |c|..];
      assert (c + v + e)[i..] == "" + u + e;
      CompletesGap("", u, e);
    } else {
      assert (c + v + e)[i..] == e;
      ApartEmpty(e);
    }
  }

  lemma {:induction false} Beyond(a: string, e: string, i: nat)
    requires i <= |e|
    ensures CompleteAt(a + e, |a| + i) <==> CompleteAt(e, i)
    ensures (a + e)[..|a| + i] == a + e[..i]
  {
    assert (a + e)[|a| + i..] == e[i..];
  }

  /** A text that nothing in its front can complete ends its type where the rest alone would. */
  lemma {:induction false} OpenFront(a: string, e: string)
    requires a != "" && e != "" && forall i | 1 <= i <= |a| :: !CompleteAt(a + e, i)
    ensures ParamOf(a + e).ty == Strip(a + e[..TypeEnd(e, 1)])
  {
    var m := TypeEnd(e, 1);
    hide *;
    forall i | 1 <= i < |a| + m ensures !CompleteAt(a + e, i) {
      if i > |a| {
        Beyond(a, e, i - |a|);
      }
    }
    Beyond(a, e, m);
    TypeIs(a + e, |a| + m);
  }

  lemma {:induction false} OpenParamIs(c: string, v: string, e: string)
    requires c != "" && EndsSolid(c) && Spacing(v) && e != "" && StartsSolid(e) && !Settled(c, e)
    ensures ParamOf(c + v + e).ty == Strip(c + v + e[..TypeEnd(e, 1)])
  {
    hide *;
    var a := c + v;
    forall i | 1 <= i <= |a| ensures !CompleteAt(a + e, i) {
      OpenBefore(c, v, e, i);
    }
    OpenFront(a, e);
  }

  lemma {:induction false} OpenParam(c: string, v: string, e: string)
    requires c != "" && Trimmed(c) && Spacing(v) && e != "" && StartsSolid(e) && !Settled(c, e)
    ensures ParamOf(c + v + e).ty == c + v + RStrip(e[..TypeEnd(e, 1)])
  {
    OpenParamIs(c, v, e);
    hide TypeEnd, Settled, RStrip, Strip, ParamOf, Spacing;
    var t := e[..TypeEnd(e, 1)];
    assert t[0] == e[0];
    StripOpen(c, v, t);
  }

  lemma {:induction false} StripOpen(c: string, v: string, t: string)
    requires c != "" && StartsSolid(c) && t != "" && StartsSolid(t)
    ensures Strip(c + v + t) == c + v + RStrip(t)
  {
    var b := RStripSplits(t);
    var x := RStrip(t);
    assert StartsSolid(c + v) && EndsSolid(x) by { assert (c + v)[0] == c[0]; }
    hide *;
    SolidLeft(t, x, b);
    StripLeft(c + v, x, b);
    assert c + v + t == c + v + x + b;
  }

  lemma {:induction false} SolidLeft(t: string, x: string, b: string)
    requires t == x + b && AllSpace(b) && t != "" && StartsSolid(t)
    ensures x != ""
  {
    assert x == "" ==> t == b;
  }

  lemma {:induction false} StripLeft(a: string, x: string, b: string)
    requires a != "" && StartsSolid(a) && x != "" && EndsSolid(x) && AllSpace(b)
    ensures Strip(a + x + b) == a + x
  {
    var y := a + x;
    assert y[0] == a[0] && y[|y| - 1] == x[|x| - 1];
    hide Strip;
    assert "" + y + b == y + b;
    StripIs("", y, b);
  }

  lemma {:induction false} MiddleDiffers(c: string, v: string, w: string, x: string)
    requires c + v + x == c + w + x
    ensures v == w
  {
    assert |v| == |w|;
    assert (c + v + x)[|c|..|c| + |v|] == v && (c + w + x)[|c|..|c| + |v|] == w;
  }

  /** The amount of white space in a gap of a parameter is read only if the gap is inside its type. */
  lemma {:induction false} ParamGapExactly(c: string, v: string, w: string, e: string)
    requires c != "" && Trimmed(c) && Spacing(v) && Spacing(w) && e != "" && StartsSolid(e)
    ensures ParamOf(c + v + e) == ParamOf(c + w + e) <==> v == w || Settled(c, e)
  {
    if Settled(c, e) {
      var k := FirstSettled(c, e);
      SettledParam(c, v, e, k);
      SettledParam(c, w, e, k);
    } else {
      OpenParam(c, v, e);
      OpenParam(c, w, e);
      hide ParamOf, Settled;
      if ParamOf(c + v + e) == ParamOf(c + w + e) {
        MiddleDiffers(c, v, w, RStrip(e[..TypeEnd(e, 1)]));
      }
    }
  }

  // ---- a gap in a parameter list -----------------------------------------------------------

  lemma {:induction false} CutAppend(a: string, b: string, depth: int, cur: string)
    ensures var qs := Cut(a, depth, cur);
            Cut(a + b, depth, cur) == qs[..|qs| - 1] + Cut(b, depth + Net(a), qs[|qs| - 1])
    decreases |a|
  {
    if a == "" {
      assert a + b == b;
    } else {
      assert (a + b)[1..] == a[1..] + b && (a + b)[0] == a[0];
      var d, rest := depth + Bracket(a[0]), a[1..];
      CutAppend(rest, b, d, if a[0] == ',' && d == 0 then "" else cur + [a[0]]);
      if a[0] == ',' && d == 0 {
        AfterFirst(cur, Cut(rest, d, ""), Cut(b, d + Net(rest), Cut(rest, d, "")[|Cut(rest, d, "")| - 1]));
      }
    }
  }

  lemma {:induction false} AfterFirst(p: string, qs: seq<string>, more: seq<string>)
    requires qs != []
    ensures var all := [p] + qs;
            [p] + (qs[..|qs| - 1] + more) == all[..|all| - 1] + more && all[|all| - 1] == qs[|qs| - 1]
  {
  }

  /** The pieces of a text with a gap: those before it and those after it, one of them across it. */
  lemma {:induction false} CutGap(a: string, v: string, b: string)
    requires AllSpace(v)
    ensures var qs, rs := Cut(a, 0, ""), Cut(b, Net(a), "");
            Cut(a + v + b, 0, "") == qs[..|qs| - 1] + [qs[|qs| - 1] + v + rs[0]] + rs[1..]
  {
    var qs, rs := Cut(a, 0, ""), Cut(b, Net(a), "");
    var c := qs[|qs| - 1];
    CutAppend(a, v + b, 0, "");
    NetOfSpace(v);
    Gather(v, b, Net(a), c);
    CutPrefix(b, Net(a), c + v, "");
    hide *;
    Associative(a, v, b);
    Associative(qs[..|qs| - 1], [c + v + rs[0]], rs[1..]);
    assert c + v + "" == c + v;
  }

  lemma {:induction false} Associative<T>(a: seq<T>, b: seq<T>, c: seq<T>)
    ensures a + (b + c) == a + b + c
  {
  }

  /** `parse_params` from the stripped pieces. */
  function Listed(pieces: seq<string>): seq<string>
    requires pieces != []
  {
    if pieces == ["void"] then []
    else if pieces[|pieces| - 1] == "" then pieces[..|pieces| - 1] else pieces
  }

  lemma {:induction false} ParamsListed(raw: string)
    ensures Params(raw) == Listed(StripEach(Cut(raw, 0, "")))
  {
    var ps := Cut(raw, 0, "");
    CutSplittable(raw, 0, "");
    JoinSplit(raw);
    hide *;
    ParamsOfJoin(ps);
    VoidPieces(raw);
    KeptListed(ps);
  }

  lemma {:induction false} KeptListed(ps: seq<string>)
    requires ps != []
    ensures StripEach(ps) != ["void"] ==> Listed(StripEach(ps)) == StripEach(Kept(ps))
    ensures StripEach(ps) == ["void"] ==> Listed(StripEach(ps)) == []
  {
    hide Strip;
    var n := |ps| - 1;
    assert StripEach(ps)[n] == Strip(ps[n]);
    assert StripEach(ps[..n]) == StripEach(ps)[..n];
  }

  lemma {:induction false} VoidPieces(raw: string)
    ensures Strip(raw) == "void" <==> StripEach(Cut(raw, 0, "")) == ["void"]
  {
    var ps := Cut(raw, 0, "");
    JoinSplit(raw);
    if StripEach(ps) == ["void"] {
      assert |ps| == 1 && StripEach(ps)[0] == Strip(ps[0]);
      assert Join(ps, ",") == ps[0];
    }
    if Strip(raw) == "void" {
      var a, b := StripSplits(raw);
      CutAround(a, "void", b);
      VoidCut();
    }
  }

  lemma {:induction false} VoidCut()
    ensures StripEach(Cut("void", 0, "")) == ["void"]
  {
    assert ',' !in "void";
    Gather("void", "", 0, "");
    assert "void" + "" == "void" && "" + "void" == "void";
    StripTrimmed("void");
  }

  lemma {:induction false} JoinEnds(ps: seq<string>)
    requires ps != []
    ensures StartsWith(Join(ps, ","), ps[0]) && EndsWith(Join(ps, ","), ps[|ps| - 1])
  {
    if |ps| > 1 {
      JoinEnds(ps[1..]);
    }
  }

  /** The piece before the gap ends as the text does, the piece after it starts as the text does. */
  lemma {:induction false} PieceBefore(a: string)
    requires EndsSolid(a)
    ensures var qs := Cut(a, 0, ""); EndsSolid(qs[|qs| - 1])
  {
    var qs := Cut(a, 0, "");
    JoinSplit(a);
    JoinEnds(qs);
    hide Cut, Join;
    var q := qs[|qs| - 1];
    assert q != "" ==> q[|q| - 1] == a[|a| - 1] by { assert a[|a| - |q|..] == q; }
  }

  lemma {:induction false} PieceAfter(b: string, depth: int)
    requires StartsSolid(b)
    ensures StartsSolid(Cut(b, depth, "")[0])
  {
    var rs := Cut(b, depth, "");
    JoinCut(b, depth, "");
    JoinEnds(rs);
    hide Cut, Join;
    assert "" + b == b;
    assert rs[0] != "" ==> rs[0][0] == b[0] by { assert b[..|rs[0]|] == rs[0]; }
  }

  /** The gap stands inside the type of a parameter: there is text of the same parameter on both sides,
      and the type does not end before it. */
  predicate InType(a: string, b: string) {
    var c, e := PartBefore(a), PartAfter(a, b);
    c != "" && e != "" && !Settled(c, e)
  }

  function PartBefore(a: string): string {
    var qs := Cut(a, 0, "");
    LStrip(qs[|qs| - 1])
  }

  function PartAfter(a: string, b: string): string {
    RStrip(Cut(b, Net(a), "")[0])
  }

  /** The piece across the gap, stripped. */
  lemma {:induction false} AcrossGap(a: string, v: string, b: string)
    requires EndsSolid(a) && StartsSolid(b) && Spacing(v)
    ensures var qs, rs, c, e := Cut(a, 0, ""), Cut(b, Net(a), ""), PartBefore(a), PartAfter(a, b);
            && Strip(qs[|qs| - 1] + v + rs[0]) == (if c == "" then e else if e == "" then c else c + v + e)
            && Trimmed(c) && Trimmed(e)
  {
    PieceBefore(a);
    PieceAfter(b, Net(a));
    var qs, rs := Cut(a, 0, ""), Cut(b, Net(a), "");
    hide Cut;
    StripAcross(qs[|qs| - 1], v, rs[0]);
  }

  lemma {:induction false} StripAcross(p: string, v: string, q: string)
    requires EndsSolid(p) && StartsSolid(q) && Spacing(v)
    ensures var c, e := LStrip(p), RStrip(q);
            && Strip(p + v + q) == (if c == "" then e else if e == "" then c else c + v + e)
            && Trimmed(c) && Trimmed(e)
  {
    var a := LStripSplits(p);
    var b := RStripSplits(q);
    LStripSolid(p);
    var c, e := LStrip(p), RStrip(q);
    hide LStrip, RStrip, Strip;
    assert e != "" ==> e[0] == q[0];
    assert c == "" ==> p == "";
    AroundGap(a, c, v, e, b);
    assert p + v + q == a + c + v + e + b;
  }

  lemma {:induction false} AroundGap(a: string, c: string, v: string, e: string, b: string)
    requires AllSpace(a) && AllSpace(b) && Spacing(v) && Trimmed(c) && Trimmed(e)
    ensures Strip(a + c + v + e + b) == if c == "" then e else if e == "" then c else c + v + e
  {
    hide Strip;
    if c == "" {
      assert a + c + v + e + b == (a + v) + e + b;
      StripIs(a + v, e, b);
    } else if e == "" {
      assert a + c + v + e + b == a + c + (v + b);
      StripIs(a, c, v + b);
    } else {
      var y := c + v + e;
      assert y[0] == c[0] && y[|y| - 1] == e[|e| - 1];
      assert a + c + v + e + b == a + y + b;
      StripIs(a, y, b);
    }
  }

  lemma {:induction false} ListedAt(xs: seq<string>, i: nat)
    requires i < |xs| && xs[i] != "" && xs[i] != "void"
    ensures i < |Listed(xs)| && Listed(xs)[i] == xs[i] && xs != ["void"]
  {
  }

  /** Lists of pieces that differ in one piece at most declare the same parameters if and only if that
      piece does. */
  lemma {:induction false} OneDiffers(xs: seq<string>, ys: seq<string>, i: nat)
    requires |xs| == |ys| && i < |xs| && forall k | 0 <= k < |xs| && k != i :: xs[k] == ys[k]
    requires xs[i] == ys[i] || (xs[i] !in {"", "void"} && ys[i] !in {"", "void"})
    ensures Each(Listed(xs)) == Each(Listed(ys)) <==> ParamOf(xs[i]) == ParamOf(ys[i])
  {
    hide ParamOf;
    if xs[i] == ys[i] {
      assert xs == ys;
    } else {
      ListedAt(xs, i);
      ListedAt(ys, i);
      var p, q := Listed(xs), Listed(ys);
      assert |p| == |q| && forall k | 0 <= k < |p| :: p[k] == xs[k] && q[k] == ys[k];
      assert Each(p)[i] == ParamOf(xs[i]) && Each(q)[i] == ParamOf(ys[i]);
    }
  }

  lemma {:induction false} NotVoid(c: string, v: string, e: string)
    requires Spacing(v)
    ensures c + v + e != "" && c + v + e != "void"
  {
    var s := c + v + e;
    assert s[|c|] == v[0];
    assert forall i | 0 <= i < 4 :: !IsSpace("void"[i]);
  }

  lemma {:induction false} StripEachGap(front: seq<string>, x: string, back: seq<string>)
    ensures StripEach(front + [x] + back) == StripEach(front) + [Strip(x)] + StripEach(back)
  {
    hide Strip;
  }

  function Spanned(c: string, v: string, e: string): string {
    if c == "" then e else if e == "" then c else c + v + e
  }

  /** The pieces of a list with a gap, of which one may span it. */
  lemma {:induction false} GapListed(a: string, v: string, b: string)
    requires EndsSolid(a) && StartsSolid(b) && Spacing(v)
    ensures var qs, rs := Cut(a, 0, ""), Cut(b, Net(a), "");
            var x := Spanned(PartBefore(a), v, PartAfter(a, b));
            Parameters(a + v + b) == Each(Listed(StripEach(qs[..|qs| - 1]) + [x] + StripEach(rs[1..])))
  {
    var qs, rs := Cut(a, 0, ""), Cut(b, Net(a), "");
    var front, back, last := qs[..|qs| - 1], rs[1..], qs[|qs| - 1];
    AcrossGap(a, v, b);
    ParametersAre(a + v + b);
    assert AllSpace(v);
    hide Cut, PartBefore, PartAfter, Listed, Each, Parameters, Params, Strip, Spacing;
    CutGap(a, v, b);
    ParamsListed(a + v + b);
    StripEachGap(front, last + v + rs[0], back);
  }

  /** The parameters of a list do not feel the amount of white space in a gap, unless it stands inside
      the type of one of them. */
  lemma {:induction false} ListGapExactly(a: string, v: string, w: string, b: string)
    requires EndsSolid(a) && StartsSolid(b) && Spacing(v) && Spacing(w) && v != w
    ensures Parameters(a + v + b) == Parameters(a + w + b) <==> !InType(a, b)
  {
    var qs, rs, c, e := Cut(a, 0, ""), Cut(b, Net(a), ""), PartBefore(a), PartAfter(a, b);
    GapListed(a, v, b);
    GapListed(a, w, b);
    AcrossGap(a, v, b);
    assert InType(a, b) <==> c != "" && e != "" && !Settled(c, e);
    assert Spanned(c, v, e) == Spanned(c, w, e) || (Spanned(c, v, e) == c + v + e && Spanned(c, w, e) == c + w + e);
    hide *;
    NotVoid(c, v, e);
    NotVoid(c, w, e);
    var fs, bs := StripEach(qs[..|qs| - 1]), StripEach(rs[1..]);
    ListsDiffer(fs, Spanned(c, v, e), Spanned(c, w, e), bs);
    SpannedExactly(c, v, w, e);
  }

  lemma {:induction false} ListsDiffer(fs: seq<string>, x: string, y: string, bs: seq<string>)
    requires x == y || (x !in {"", "void"} && y !in {"", "void"})
    ensures Each(Listed(fs + [x] + bs)) == Each(Listed(fs + [y] + bs)) <==> ParamOf(x) == ParamOf(y)
  {
    hide Each, Listed, ParamOf;
    OneDiffers(fs + [x] + bs, fs + [y] + bs, |fs|);
  }

  lemma {:induction false} SpannedExactly(c: string, v: string, w: string, e: string)
    requires Trimmed(c) && Trimmed(e) && Spacing(v) && Spacing(w) && v != w
    ensures ParamOf(Spanned(c, v, e)) == ParamOf(Spanned(c, w, e)) <==> c == "" || e == "" || Settled(c, e)
  {
    hide ParamOf, Settled, Spacing;
    if c != "" && e != "" {
      SolidTrimmed(e);
      ParamGapExactly(c, v, w, e);
    }
  }

  lemma {:induction false} SolidTrimmed(e: string)
    requires Trimmed(e)
    ensures StartsSolid(e) && EndsSolid(e)
  {
  }

  lemma {:induction false} ParametersAre(raw: string)
    ensures Parameters(raw) == Each(Params(raw))
  {
  }

  // ---- a gap in a line ---------------------------------------------------------------------

  function InnerClose(r: string): Option<string> {
    var parts := CloseOf("", r);
    if parts.NoParens? then None else Some(parts.inner)
  }

  function InnerOf(s: string): Option<string> {
    var parts := PartsOf(s);
    if parts.NoParens? then None else Some(parts.inner)
  }

  /** The stretches of the parameter list before and after a gap between two texts, when it stands
      between the parens of a declaration. */
  function Between(u: string, w: string): Option<(string, string)> {
    var open := FirstOf(u, "(");
    var close := LastOf(w[..FirstOf(w, ENDERS)], ')');
    if open == |u| || close < 0 || !Lacks(u[..open], ENDERS) || !Lacks(u[open + 1..], ENDERS) then None
    else Some((u[open + 1..], w[..close]))
  }

  lemma {:induction false} OpenSplits(u: string)
    ensures var k := FirstOf(u, "(");
            '(' !in u[..k] && if k == |u| then '(' !in u else u == u[..k] + "(" + u[k + 1..]
  {
    hide FirstOf;
  }

  lemma {:induction false} CloseSplits(w: string)
    ensures var k := LastOf(w[..FirstOf(w, ENDERS)], ')');
            k >= 0 ==>
              && w == w[..k] + ")" + w[k + 1..] && Lacks(w[..k], ENDERS)
              && ')' !in w[k + 1..][..FirstOf(w[k + 1..], ENDERS)]
  {
    var f := FirstOf(w, ENDERS);
    var k := LastOf(w[..f], ')');
    FirstSplits(w, ENDERS);
    LastSplits(w[..f], ')');
    hide FirstOf, LastOf, Lacks;
    if k >= 0 {
      EnderPast(w, f, k);
      CloseAt(w, f, k);
    }
  }

  lemma {:induction false} CloseAt(w: string, f: nat, k: nat)
    requires k < f <= |w| && Lacks(w[..f], ENDERS) && w[..f] == w[..f][..k] + ")" + w[..f][k + 1..]
    ensures w == w[..k] + ")" + w[k + 1..] && Lacks(w[..k], ENDERS)
  {
    assert w[..f][k] == ')' == w[k];
    assert forall i | 0 <= i < k :: w[..k][i] == w[..f][i];
  }

  lemma {:induction false} EnderPast(w: string, f: nat, k: nat)
    requires k < f <= |w| && Lacks(w[..f], ENDERS) && (f < |w| ==> w[f] in ENDERS)
    ensures w[k + 1..][..FirstOf(w[k + 1..], ENDERS)] == w[..f][k + 1..]
  {
    var t := w[k + 1..];
    hide FirstOf;
    assert t[..f - k - 1] == w[..f][k + 1..];
    assert forall i | 0 <= i < f - k - 1 :: t[i] == w[..f][k + 1 + i];
    FirstAt(t, ENDERS, f - k - 1);
  }

  lemma {:induction false} GapLacks(a: string, v: string, b: string, chars: string)
    requires AllSpace(v) && forall c | c in chars :: !IsSpace(c)
    ensures Lacks(a + v + b, chars) <==> Lacks(a, chars) && Lacks(b, chars)
  {
    SpaceLacks(v, chars);
    LacksAppend(a + v, b, chars);
    LacksAppend(a, v, chars);
  }

  lemma {:induction false} GapBetween(u: string, v: string, w: string)
    requires AllSpace(v) && Between(u, w).Some?
    ensures var (a, b) := Between(u, w).value; InnerOf(u + v + w) == Some(a + v + b)
  {
    var open := FirstOf(u, "(");
    var close := LastOf(w[..FirstOf(w, ENDERS)], ')');
    var h, a, b, t := u[..open], u[open + 1..], w[..close], w[close + 1..];
    OpenSplits(u);
    CloseSplits(w);
    assert Between(u, w) == Some((a, b)) && Lacks(h, ENDERS) && Lacks(a, ENDERS) && Lacks(b, ENDERS);
    hide *;
    GapLacks(a, v, b, ENDERS);
    var inner := a + v + b;
    CloseFrom(h, inner, t);
    PartsFrom(h, inner + ")" + t);
    Laid(h, a, v, b, t);
    InnerIs(u + v + w, h, inner, t);
  }

  lemma {:induction false} Laid(h: string, a: string, v: string, b: string, t: string)
    ensures h + "(" + a + v + (b + ")" + t) == h + "(" + (a + v + b + ")" + t)
  {
    Associative(h + "(", a, v);
    Associative(h + "(", a + v, b + ")" + t);
    Associative(a + v, b, ")");
    Associative(a + v, b + ")", t);
  }

  lemma {:induction false} InnerIs(s: string, h: string, inner: string, t: string)
    requires PartsOf(s) == Parens(h, inner, t)
    ensures InnerOf(s) == Some(inner)
  {
  }

  /** What stands between the parens when the gap does not. */
  function Elsewhere(u: string, w: string): Option<string> {
    var i, j := FirstOf(u, "("), FirstOf(w, "(");
    if i < |u| then (if Lacks(u[..i], ENDERS) then InnerClose(u[i + 1..]) else None)
    else if j < |w| && Lacks(u, ENDERS) && Lacks(w[..j], ENDERS) then InnerClose(w[j + 1..])
    else None
  }

  lemma {:induction false} InnerFrom(h: string, r: string)
    requires '(' !in h
    ensures InnerOf(h + "(" + r) == if Lacks(h, ENDERS) then InnerClose(r) else None
  {
    PartsFrom(h, r);
  }

  lemma {:induction false} InnerNone(s: string)
    requires '(' !in s
    ensures InnerOf(s) == None
  {
    NotIn(s, '(');
    FirstMissing(s, "(");
    hide FirstOf;
  }

  lemma {:induction false} GapInHead(u: string, v: string, w: string)
    requires AllSpace(v) && '(' !in u
    ensures InnerOf(u + v + w) == Elsewhere(u, w)
  {
    var i, j := FirstOf(u, "("), FirstOf(w, "(");
    OpenSplits(u);
    OpenSplits(w);
    NotIn(u, '(');
    FirstMissing(u, "(");
    var g := w[..j];
    GapLacks(u, v, g, ENDERS);
    GapLacks(u, v, g, "(");
    NotIn(g, '(');
    NotIn(u + v + g, '(');
    hide FirstOf, Lacks, InnerClose, InnerOf;
    if j < |w| {
      assert u + v + w == (u + v + g) + "(" + w[j + 1..];
      InnerFrom(u + v + g, w[j + 1..]);
    } else {
      assert g == w;
      InnerNone(u + v + w);
    }
  }

  lemma {:induction false} NotIn(s: string, c: char)
    ensures Lacks(s, [c]) <==> c !in s
  {
  }

  /** Past the open paren, a gap that no close paren follows in time. */
  lemma {:induction false} GapAfterParens(a: string, v: string, w: string)
    requires AllSpace(v)
    requires !Lacks(a, ENDERS) || LastOf(w[..FirstOf(w, ENDERS)], ')') < 0
    ensures InnerClose(a + v + w) == InnerClose(a)
  {
    hide *;
    if Lacks(a, ENDERS) {
      NoCloseAfter(a, v, w);
    } else {
      EnderBefore(a, v + w);
      Associative(a, v, w);
    }
  }

  lemma {:induction false} EnderBefore(a: string, t: string)
    requires !Lacks(a, ENDERS)
    ensures InnerClose(a + t) == InnerClose(a)
  {
    var f := FirstOf(a, ENDERS);
    FirstSplits(a, ENDERS);
    hide FirstOf, LastOf, InnerClose;
    assert (a + t)[..f] == a[..f] && (a + t)[f] == a[f];
    FirstAt(a + t, ENDERS, f);
    SameClose(a + t, f, a, f);
  }

  lemma {:induction false} NoCloseAfter(a: string, v: string, w: string)
    requires AllSpace(v) && Lacks(a, ENDERS) && LastOf(w[..FirstOf(w, ENDERS)], ')') < 0
    ensures InnerClose(a + v + w) == InnerClose(a)
  {
    var before := w[..FirstOf(w, ENDERS)];
    LastSplits(before, ')');
    FirstMissing(a, ENDERS);
    SpaceLacks(v, ENDERS);
    SpaceLacks(v, ")");
    LacksAppend(a, v, ENDERS);
    EnderAfter(a + v, w);
    assert ')' !in v + before;
    assert a[..|a|] == a;
    hide *;
    LastKept(a, v + before, ')');
    Associative(a, v, before);
    assert (a + v + w)[..|a|] == a;
    SameClose(a + v + w, FirstOf(a + v + w, ENDERS), a, |a|);
  }

  lemma {:induction false} LastKept(a: string, b: string, c: char)
    requires c !in b
    ensures LastOf(a + b, c) == LastOf(a, c)
  {
    LastSplits(a, c);
    var k := LastOf(a, c);
    hide LastOf;
    var s := a + b;
    if k >= 0 {
      assert s[k] == c && s[k + 1..] == a[k + 1..] + b;
      LastAt(s, c, k);
    } else {
      assert c !in s;
    }
  }

  lemma {:induction false} SameClose(r: string, e: nat, a: string, f: nat)
    requires FirstOf(r, ENDERS) == e && FirstOf(a, ENDERS) == f && LastOf(r[..e], ')') == LastOf(a[..f], ')')
    requires f <= e && r[..f] == a[..f]
    ensures InnerClose(r) == InnerClose(a)
  {
    var k := LastOf(a[..f], ')');
    hide FirstOf, LastOf;
    if k >= 0 {
      assert r[..k] == r[..f][..k] && a[..k] == a[..f][..k];
    }
  }

  lemma {:induction false} GapElsewhere(u: string, v: string, w: string)
    requires AllSpace(v) && Between(u, w).None?
    ensures InnerOf(u + v + w) == Elsewhere(u, w)
  {
    var i := FirstOf(u, "(");
    OpenSplits(u);
    if i == |u| {
      hide *;
      GapInHead(u, v, w);
    } else {
      var h, a := u[..i], u[i + 1..];
      hide FirstOf, LastOf, InnerClose, InnerOf, Lacks;
      assert u + v + w == h + "(" + (a + v + w);
      InnerFrom(h, a + v + w);
      if Lacks(h, ENDERS) {
        GapAfterParens(a, v, w);
      }
    }
  }

  lemma {:induction false} ParametersAt(s: string)
    ensures ParametersOf(s) == if InnerOf(s).None? then [] else Parameters(InnerOf(s).value)
  {
  }

  /** The gap stands inside the type of a parameter of the line. */
  predicate GapInType(u: string, w: string) {
    Between(u, w).Some? && InType(Between(u, w).value.0, Between(u, w).value.1)
  }

  lemma {:induction false} BetweenEdges(u: string, w: string)
    requires Between(u, w).Some? && EndsSolid(u) && StartsSolid(w)
    ensures var (a, b) := Between(u, w).value; EndsSolid(a) && StartsSolid(b)
  {
    var open := FirstOf(u, "(");
    hide FirstOf, LastOf;
    assert u[open + 1..] != "" ==> u[open + 1..][|u| - open - 2] == u[|u| - 1];
  }

  lemma {:induction false} ParametersGap(u: string, v: string, x: string, w: string)
    requires EndsSolid(u) && StartsSolid(w) && Spacing(v) && Spacing(x) && v != x
    ensures ParametersOf(u + v + w) == ParametersOf(u + x + w) <==> !GapInType(u, w)
  {
    assert AllSpace(v) && AllSpace(x);
    ParametersAt(u + v + w);
    ParametersAt(u + x + w);
    hide ParametersOf, InnerOf, Between, Elsewhere, InType, Parameters, Spacing, EndsSolid, StartsSolid;
    if Between(u, w).Some? {
      var (a, b) := Between(u, w).value;
      GapBetween(u, v, w);
      GapBetween(u, x, w);
      BetweenEdges(u, w);
      ListGapExactly(a, v, x, b);
    } else {
      GapElsewhere(u, v, w);
      GapElsewhere(u, x, w);
    }
  }

  lemma {:induction false} RunsGap(u: string, v: string, w: string)
    requires EndsSolid(u) && StartsSolid(w) && w != "" && Spacing(v)
    ensures Runs(u + v + w) == Runs(u) + " " + Runs(w)
  {
    RunsAfter(u, v + w);
    RunsBlank(v, w);
    hide *;
    Associative(u, v, w);
    Associative(Runs(u), " ", Runs(w));
  }

  /** One declaration with two amounts of white space at one place: the same method is read if and only
      if there is none to read, or the place is not inside the type of a parameter. */
  lemma {:induction false} GapExactly(u: string, v: string, x: string, w: string)
    requires EndsSolid(u) && StartsSolid(w) && w != "" && Spacing(v) && Spacing(x) && v != x
    ensures MethodOf(u + v + w) == MethodOf(u + x + w) <==> MethodOf(u + v + w).None? || !GapInType(u, w)
  {
    RunsGap(u, v, w);
    RunsGap(u, x, w);
    hide *;
    WordsExactly(u + v + w, u + x + w);
    ParametersGap(u, v, x, w);
  }
}
