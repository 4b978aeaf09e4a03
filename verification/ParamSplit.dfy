/** `parse_params`: a parameter list split at its top-level commas. */
module ParamSplit {
  import opened Text

  function Bracket(c: char): int {
    if c in "<([" then 1 else if c in ">)]" then -1 else 0
  }

  function Net(p: string): int {
    if p == "" then 0 else Bracket(p[0]) + Net(p[1..])
  }

  /** The loop over the characters: the pieces cut off so far and the one being gathered. */
  function Cut(raw: string, depth: int, cur: string): (pieces: seq<string>)
    ensures pieces != []
    decreases |raw|
  {
    if raw == "" then [cur]
    else
      var d := depth + Bracket(raw[0]);
      if raw[0] == ',' && d == 0 then [cur] + Cut(raw[1..], d, "")
      else Cut(raw[1..], d, cur + [raw[0]])
  }

  /** The last piece is kept only if it is not blank. */
  function Kept(pieces: seq<string>): seq<string>
    requires pieces != []
  {
    if Strip(pieces[|pieces| - 1]) == "" then pieces[..|pieces| - 1] else pieces
  }

  function Params(raw: string): seq<string> {
    var r := Strip(raw);
    if r == "" || r == "void" then [] else StripEach(Kept(Cut(r, 0, "")))
  }

  lemma {:induction false} CutUnrolls(r: string, i: nat, depth: int, cur: string, done: seq<string>)
    requires i < |r|
    ensures var d := depth + Bracket(r[i]);
            done + Cut(r[i..], depth, cur)
            == if r[i] == ',' && d == 0 then (done + [cur]) + Cut(r[i + 1..], d, "")
               else done + Cut(r[i + 1..], d, cur + [r[i]])
  {
    assert r[i..][1..] == r[i + 1..];
    var d := depth + Bracket(r[i]);
    assert done + ([cur] + Cut(r[i + 1..], d, "")) == (done + [cur]) + Cut(r[i + 1..], d, "");
  }

  lemma {:induction false} CutEnds(r: string, depth: int, cur: string)
    ensures r[0..] == r && Cut(r[|r|..], depth, cur) == [cur]
  {
  }

  method SplitTop(r: string) returns (params: seq<string>)
    ensures params == Kept(Cut(r, 0, ""))
  {
    hide Strip, Cut, Bracket;
    params := [];
    var depth, cur := 0, "";
    CutEnds(r, depth, cur);
    assert params + Cut(r, 0, "") == Cut(r, 0, "");
    for i := 0 to |r|
      invariant Cut(r, 0, "") == params + Cut(r[i..], depth, cur)
    {
      CutUnrolls(r, i, depth, cur, params);
      var ch := r[i];
      depth := depth + Bracket(ch);
      if ch == ',' && depth == 0 {
        params := params + [cur];
        cur := "";
      } else {
        cur := cur + [ch];
      }
    }
    CutEnds(r, depth, cur);
    assert (params + [cur])[..|params|] == params;
    if Strip(cur) != "" {
      params := params + [cur];
    }
  }

  method ParseParams(raw: string) returns (out: seq<string>)
    ensures out == Params(raw)
  {
    hide Strip, Cut, Kept;
    var r := Strip(raw);
    if r == "" || r == "void" {
      return [];
    }
    var params := SplitTop(r);
    out := [];
    for k := 0 to |params|
      invariant |out| == k && forall j | 0 <= j < k :: out[j] == Strip(params[j])
    {
      out := out + [Strip(params[k])];
    }
  }

  // ---- splitting and joining are inverse --------------------------------------------------

  /** No comma of `p` stands outside every bracket. */
  predicate NoTopComma(p: string) {
    forall i | 0 <= i < |p| :: p[i] == ',' ==> Net(p[..i]) != 0
  }

  /** What the splitter can give back: closed pieces, only the last one possibly left open. */
  predicate Splittable(ps: seq<string>) {
    && ps != []
    && (forall i | 0 <= i < |ps| :: NoTopComma(ps[i]))
    && (forall i | 0 <= i < |ps| - 1 :: Net(ps[i]) == 0)
  }

  lemma {:induction false} NetAppend(a: string, b: string)
    ensures Net(a + b) == Net(a) + Net(b)
  {
    if a == "" {
      assert a + b == b;
    } else {
      assert (a + b)[1..] == a[1..] + b;
      NetAppend(a[1..], b);
    }
  }

  /** A stretch with no cut in it is gathered whole. */
  lemma {:induction false} Gather(p: string, rest: string, depth: int, cur: string)
    requires forall i | 0 <= i < |p| :: p[i] == ',' ==> depth + Net(p[..i]) != 0
    ensures Cut(p + rest, depth, cur) == Cut(rest, depth + Net(p), cur + p)
    decreases |p|
  {
    if p == "" {
      assert p + rest == rest && cur + p == cur;
    } else {
      assert (p + rest)[1..] == p[1..] + rest;
      assert p[..0] == "";
      var d := depth + Bracket(p[0]);
      forall i | 0 <= i < |p[1..]| ensures p[1..][i] == ',' ==> d + Net(p[1..][..i]) != 0 {
        assert p[..i + 1] == [p[0]] + p[1..][..i];
        NetAppend([p[0]], p[1..][..i]);
      }
      Gather(p[1..], rest, d, cur + [p[0]]);
      assert cur + [p[0]] + p[1..] == cur + p;
    }
  }

  lemma {:induction false} CutComma(p: string, more: string)
    requires NoTopComma(p) && Net(p) == 0
    ensures Cut(p + "," + more, 0, "") == [p] + Cut(more, 0, "")
  {
    Gather(p, "," + more, 0, "");
    assert p + "," + more == p + ("," + more);
    assert "" + p == p;
    assert ("," + more)[1..] == more;
  }

  lemma {:induction false} CutJoin(ps: seq<string>)
    requires Splittable(ps)
    ensures Cut(Join(ps, ","), 0, "") == ps
  {
    var p := ps[0];
    if |ps| == 1 {
      Gather(p, "", 0, "");
      assert p + "" == p && "" + p == p;
    } else {
      hide Cut, Net, NoTopComma;
      CutComma(p, Join(ps[1..], ","));
      CutJoin(ps[1..]);
    }
  }

  lemma {:induction false} JoinCut(raw: string, depth: int, cur: string)
    ensures Join(Cut(raw, depth, cur), ",") == cur + raw
    decreases |raw|
  {
    if raw == "" {
      assert cur + raw == cur;
    } else {
      var d, rest := depth + Bracket(raw[0]), raw[1..];
      if raw[0] == ',' && d == 0 {
        JoinCut(rest, d, "");
        var next := Cut(rest, d, "");
        assert ([cur] + next)[1..] == next;
        assert "" + rest == rest;
        assert cur + "," + rest == cur + raw;
      } else {
        JoinCut(rest, d, cur + [raw[0]]);
        assert cur + [raw[0]] + rest == cur + raw;
      }
    }
  }

  lemma {:induction false} CutSplittable(raw: string, depth: int, cur: string)
    requires depth == Net(cur) && NoTopComma(cur)
    ensures Splittable(Cut(raw, depth, cur))
    decreases |raw|
  {
    if raw != "" {
      var d, rest := depth + Bracket(raw[0]), raw[1..];
      NetAppend(cur, [raw[0]]);
      if raw[0] == ',' && d == 0 {
        CutSplittable(rest, d, "");
      } else {
        var next := cur + [raw[0]];
        assert forall i | 0 <= i < |cur| :: next[..i] == cur[..i];
        assert next[..|cur|] == cur;
        CutSplittable(rest, d, next);
      }
    }
  }

  /** Joining with commas and splitting again gives the list back for exactly the lists whose
      pieces hide no top-level comma and are, up to the last one, closed. */
  lemma {:induction false} SplitJoinExactly(ps: seq<string>)
    requires ps != []
    ensures Cut(Join(ps, ","), 0, "") == ps <==> Splittable(ps)
  {
    if Splittable(ps) {
      CutJoin(ps);
    }
    CutSplittable(Join(ps, ","), 0, "");
  }

  /** Whatever the text, its pieces joined with commas are the text. */
  lemma {:induction false} JoinSplit(raw: string)
    ensures Join(Cut(raw, 0, ""), ",") == raw
    ensures var pieces := Cut(raw, 0, "");
            Strip(pieces[|pieces| - 1]) != "" ==> Join(Kept(pieces), ",") == raw
  {
    JoinCut(raw, 0, "");
    assert "" + raw == raw;
  }

  // ---- the outer `strip` does not disturb the pieces ---------------------------------------

  lemma {:induction false} StripAround(a: string, x: string, b: string)
    requires AllSpace(a) && AllSpace(b)
    ensures Strip(a + x + b) == Strip(x)
  {
    var c, d := StripSplits(x);
    assert a + x + b == (a + c) + Strip(x) + (d + b);
    StripIs(a + c, Strip(x), d + b);
  }

  lemma {:induction false} CutPrefix(raw: string, depth: int, a: string, cur: string)
    ensures var qs := Cut(raw, depth, cur);
            Cut(raw, depth, a + cur) == [a + qs[0]] + qs[1..]
    decreases |raw|
  {
    if raw != "" {
      var d := depth + Bracket(raw[0]);
      if !(raw[0] == ',' && d == 0) {
        CutPrefix(raw[1..], d, a, cur + [raw[0]]);
        assert a + (cur + [raw[0]]) == a + cur + [raw[0]];
      }
    }
  }

  lemma {:induction false} CutSuffix(raw: string, depth: int, cur: string, b: string)
    requires AllSpace(b)
    ensures var qs := Cut(raw, depth, cur);
            Cut(raw + b, depth, cur) == qs[..|qs| - 1] + [qs[|qs| - 1] + b]
    decreases |raw|
  {
    if raw == "" {
      assert raw + b == b && b + "" == b;
      NetOfSpace(b);
      Gather(b, "", depth, cur);
    } else {
      assert (raw + b)[1..] == raw[1..] + b;
      var d := depth + Bracket(raw[0]);
      if raw[0] == ',' && d == 0 {
        CutSuffix(raw[1..], d, "", b);
        LastAppended(cur, Cut(raw[1..], d, ""), b);
      } else {
        CutSuffix(raw[1..], d, cur + [raw[0]], b);
      }
    }
  }

  lemma {:induction false} LastAppended(cur: string, qs: seq<string>, b: string)
    requires qs != []
    ensures var all := [cur] + qs;
            [cur] + (qs[..|qs| - 1] + [qs[|qs| - 1] + b]) == all[..|all| - 1] + [all[|all| - 1] + b]
  {
  }

  lemma {:induction false} NetOfSpace(b: string)
    requires AllSpace(b)
    ensures Net(b) == 0 && ',' !in b
  {
    if b != "" {
      NetOfSpace(b[1..]);
      assert IsSpace(b[0]);
    }
  }

  lemma {:induction false} CutLeftPieces(a: string, r: string)
    requires AllSpace(a)
    ensures Cut(a + r, 0, "") == [a + Cut(r, 0, "")[0]] + Cut(r, 0, "")[1..]
  {
    NetOfSpace(a);
    Gather(a, r, 0, "");
    hide Cut, Net;
    assert "" + a == a;
    CutPrefix(r, 0, a, "");
    assert a + "" == a;
  }

  lemma {:induction false} StripFirst(a: string, qs: seq<string>)
    requires AllSpace(a) && qs != []
    ensures StripEach([a + qs[0]] + qs[1..]) == StripEach(qs)
  {
    hide Strip;
    StripAround(a, qs[0], "");
    assert a + qs[0] + "" == a + qs[0];
    var ps := [a + qs[0]] + qs[1..];
    assert forall i | 0 <= i < |ps| :: Strip(ps[i]) == Strip(qs[i]);
  }

  lemma {:induction false} StripLast(qs: seq<string>, b: string)
    requires AllSpace(b) && qs != []
    ensures StripEach(qs[..|qs| - 1] + [qs[|qs| - 1] + b]) == StripEach(qs)
  {
    hide Strip;
    var n := |qs| - 1;
    StripAround("", qs[n], b);
    assert "" + qs[n] + b == qs[n] + b;
    var ps := qs[..n] + [qs[n] + b];
    assert forall i | 0 <= i < |ps| :: Strip(ps[i]) == Strip(qs[i]);
  }

  /** White space around a text changes its pieces only by white space around them. */
  lemma {:induction false} CutAround(a: string, r: string, b: string)
    requires AllSpace(a) && AllSpace(b)
    ensures StripEach(Cut(a + r + b, 0, "")) == StripEach(Cut(r, 0, ""))
  {
    hide Cut, Strip;
    assert a + r + b == a + (r + b);
    CutLeftPieces(a, r + b);
    StripFirst(a, Cut(r + b, 0, ""));
    CutSuffix(r, 0, "", b);
    StripLast(Cut(r, 0, ""), b);
  }

  lemma {:induction false} KeptStripped(ps: seq<string>, qs: seq<string>)
    requires ps != [] && qs != [] && StripEach(ps) == StripEach(qs)
    ensures StripEach(Kept(ps)) == StripEach(Kept(qs))
  {
    var n := |ps| - 1;
    assert |qs| == |StripEach(qs)| == n + 1;
    forall i | 0 <= i <= n ensures Strip(ps[i]) == Strip(qs[i]) {
      assert StripEach(ps)[i] == StripEach(qs)[i];
    }
  }

  /** Every splittable list comes back from its comma-join, each piece stripped, a blank last
      piece dropped; the one exception is the lone word `void`. */
  lemma {:induction false} ParamsOfJoin(ps: seq<string>)
    requires Splittable(ps)
    ensures Params(Join(ps, ",")) == if Strip(Join(ps, ",")) == "void" then [] else StripEach(Kept(ps))
  {
    var raw := Join(ps, ",");
    var a, b := StripSplits(raw);
    var r := Strip(raw);
    CutJoin(ps);
    CutAround(a, r, b);
    KeptStripped(ps, Cut(r, 0, ""));
    if r == "" {
      StripTrimmed("");
      assert Cut(r, 0, "") == [""];
      assert Kept([""]) == [];
    }
  }

  // ---- the pieces by their characters ------------------------------------------------------

  /** As many brackets open as close. */
  predicate Even(p: string) {
    Count(p, '<') + Count(p, '(') + Count(p, '[') == Count(p, '>') + Count(p, ')') + Count(p, ']')
  }

  /** No piece has a comma before which its brackets are even, and those of all but the last are. */
  predicate EvenPieces(ps: seq<string>) {
    && (forall i, j | 0 <= i < |ps| && 0 <= j < |ps[i]| :: ps[i][j] == ',' ==> !Even(ps[i][..j]))
    && (forall i | 0 <= i < |ps| - 1 :: Even(ps[i]))
  }

  lemma {:induction false} NetIs(p: string)
    ensures Net(p) == Count(p, '<') + Count(p, '(') + Count(p, '[') - Count(p, '>') - Count(p, ')') - Count(p, ']')
  {
    if p != "" {
      NetIs(p[1..]);
      BracketIs(p[0]);
    }
    hide Bracket;
  }

  lemma {:induction false} BracketIs(c: char)
    ensures Bracket(c) == if c in {'<', '(', '['} then 1 else if c in {'>', ')', ']'} then -1 else 0
  {
    assert "<([" == ['<', '(', '['] && ">)]" == ['>', ')', ']'];
  }

  lemma {:induction false} SplittableIs(ps: seq<string>)
    requires ps != []
    ensures Splittable(ps) <==> EvenPieces(ps)
  {
    forall p ensures Net(p) == 0 <==> Even(p) {
      NetIs(p);
    }
    hide Net, Even;
  }

  /** The pieces of a text are the one list that joined with commas gives the text, in which every comma
      inside a piece stands in an open bracket and every piece but the last has closed its own. */
  lemma {:induction false} SplitExactly(raw: string, ps: seq<string>)
    requires ps != []
    ensures Cut(raw, 0, "") == ps <==> Join(ps, ",") == raw && EvenPieces(ps)
  {
    hide Cut, Splittable, EvenPieces;
    SplittableIs(ps);
    JoinSplit(raw);
    SplitJoinExactly(ps);
  }

  /** The parameters of a list: none of a blank one or of `void`, otherwise the stripped pieces, without
      the last one when it is blank. */
  lemma {:induction false} ParamsExactly(raw: string, ps: seq<string>)
    requires ps != [] && Join(ps, ",") == Strip(raw) && EvenPieces(ps)
    ensures Params(raw)
         == if Strip(raw) == "" || Strip(raw) == "void" then []
            else StripEach(if Strip(ps[|ps| - 1]) == "" then ps[..|ps| - 1] else ps)
  {
    SplitExactly(Strip(raw), ps);
    hide Cut, Strip, EvenPieces;
  }
}
