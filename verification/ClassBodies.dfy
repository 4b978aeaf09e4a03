/** Brace matching: `iter_class_bodies` and the copy of it inside `nameable_classes`. */
module ClassBodies {

  function Delta(c: char): int {
    if c == '{' then 1 else if c == '}' then -1 else 0
  }

  function Nest(s: string): int {
    if s == "" then 0 else Nest(s[..|s| - 1]) + Delta(s[|s| - 1])
  }

  /** Every brace opened in `s` is closed in `s`, and none is closed that was not opened. */
  predicate Balanced(s: string) {
    Nest(s) == 0 && forall k | 0 <= k <= |s| :: Nest(s[..k]) >= 0
  }

  /** The loop `while i < n and depth`: where it stops, and the depth it stops at. */
  function Match(t: string, i: nat, depth: nat): (r: (nat, nat))
    requires i <= |t|
    ensures i <= r.0 <= |t|
    ensures r.1 == 0 || r.0 == |t|
    decreases |t| - i
  {
    if i < |t| && depth != 0 then Match(t, i + 1, depth + Delta(t[i])) else (i, depth)
  }

  predicate Terminated(t: string, open: nat)
    requires open <= |t|
  {
    Match(t, open, 1).1 == 0
  }

  /** Python's `text[a:b]` for `0 <= a <= len(text)` and `b >= -1`, `b == -1` only if empty. */
  function Slice(t: string, a: nat, b: int): string
    requires a <= |t| && b <= |t|
  {
    if a <= b then t[a..b] else ""
  }

  /** The body yielded for a header whose opening brace ends at `open`. */
  function BodyOf(t: string, open: nat): string
    requires open <= |t|
  {
    Slice(t, open, Match(t, open, 1).0 - 1)
  }

  /** The position of the brace that ends a terminated body. */
  function Close(t: string, open: nat): (c: nat)
    requires open <= |t| && Terminated(t, open)
    ensures open <= c < |t|
  {
    MatchStops(t, open, 1);
    Match(t, open, 1).0 - 1
  }

  // ---- the two loops ---------------------------------------------------------------------

  datatype Header = Header(name: string, base: string, open: nat)

  method IterClassBodies(text: string, headers: seq<Header>) returns (bodies: seq<string>)
    requires forall k | 0 <= k < |headers| :: headers[k].open <= |text|
    ensures |bodies| == |headers|
    ensures forall k | 0 <= k < |headers| :: bodies[k] == BodyOf(text, headers[k].open)
    // text that ends inside a class: the slice runs to the end and still drops the last character
    ensures forall k | 0 <= k < |headers| && !Terminated(text, headers[k].open) ::
              bodies[k] == if headers[k].open < |text| then text[headers[k].open..|text| - 1] else ""
  {
    forall k | 0 <= k < |headers| && !Terminated(text, headers[k].open)
      ensures BodyOf(text, headers[k].open)
           == if headers[k].open < |text| then text[headers[k].open..|text| - 1] else ""
    {
      UnterminatedBody(text, headers[k].open);
    }
    bodies := [];
    for k := 0 to |headers|
      invariant |bodies| == k
      invariant forall j | 0 <= j < k :: bodies[j] == BodyOf(text, headers[j].open)
    {
      var i := headers[k].open;
      var depth: nat := 1;
      var n := |text|;
      while i < n && depth != 0
        invariant headers[k].open <= i <= n
        invariant Match(text, headers[k].open, 1) == Match(text, i, depth)
      {
        var c := text[i];
        if c == '{' {
          depth := depth + 1;
        } else if c == '}' {
          depth := depth - 1;
        }
        i := i + 1;
      }
      bodies := bodies + [Slice(text, headers[k].open, i - 1)];
    }
  }

  /** The second matcher, written with one arithmetic update in place of the branches. */
  method NameableBody(dbH: string, end: nat) returns (body: string)
    requires end <= |dbH|
    ensures body == BodyOf(dbH, end)
  {
    var i, n := end, |dbH|;
    var depth: int := 1;
    while i < n && depth != 0
      invariant end <= i <= n && depth >= 0
      invariant Match(dbH, end, 1) == Match(dbH, i, depth)
    {
      depth := depth + ((if dbH[i] == '{' then 1 else 0) - (if dbH[i] == '}' then 1 else 0));
      i := i + 1;
    }
    body := Slice(dbH, end, i - 1);
  }

  // ---- what the matcher finds ------------------------------------------------------------

  lemma {:induction false} MatchStops(t: string, i: nat, depth: nat)
    requires i <= |t| && depth > 0 && Match(t, i, depth).1 == 0
    ensures i < Match(t, i, depth).0 && t[Match(t, i, depth).0 - 1] == '}'
    decreases |t| - i
  {
    var next := depth + Delta(t[i]);
    if next > 0 {
      MatchStops(t, i + 1, next);
    }
  }

  lemma {:induction false} NestNext(t: string, a: nat, i: nat)
    requires a <= i < |t|
    ensures Nest(t[a..i + 1]) == Nest(t[a..i]) + Delta(t[i])
  {
    assert t[a..i + 1][..i - a] == t[a..i];
  }

  /** If the loop has come from `a` to `i` without reaching depth zero, it goes on from there. */
  lemma {:induction false} MatchAlong(t: string, a: nat, depth: nat, i: nat)
    requires a <= i <= |t|
    requires forall j | a <= j < i :: depth + Nest(t[a..j]) > 0
    requires depth + Nest(t[a..i]) >= 0
    ensures Match(t, a, depth) == Match(t, i, depth + Nest(t[a..i]))
    decreases i - a
  {
    if a == i {
      assert t[a..i] == "";
    } else {
      MatchAlong(t, a, depth, i - 1);
      NestNext(t, a, i - 1);
    }
  }

  /** Before the place where it stops, the loop's depth is positive: it counts the nesting. */
  lemma {:induction false} MatchInside(t: string, a: nat, depth: nat, i: nat)
    requires a <= i <= |t| && depth > 0
    requires i < Match(t, a, depth).0
    ensures depth + Nest(t[a..i]) > 0
    ensures forall j | a <= j <= i :: depth + Nest(t[a..j]) > 0
    decreases i
  {
    if a == i {
      assert t[a..i] == "";
    } else {
      MatchInside(t, a, depth, i - 1);
      NestNext(t, a, i - 1);
      MatchAlong(t, a, depth, i - 1);
      var d := depth + Nest(t[a..i - 1]);
      assert Match(t, i - 1, d) == Match(t, i, d + Delta(t[i - 1]));
    }
  }

  lemma {:induction false} CloseIsBalanced(t: string, open: nat)
    requires open <= |t| && Terminated(t, open)
    ensures Balanced(t[open..Close(t, open)]) && t[Close(t, open)] == '}'
  {
    var c := Close(t, open);
    var body := t[open..c];
    MatchStops(t, open, 1);
    MatchInside(t, open, 1, c);
    forall k | 0 <= k <= |body| ensures Nest(body[..k]) >= 0 {
      assert body[..k] == t[open..open + k];
    }
    MatchAlong(t, open, 1, c);
    var d := 1 + Nest(body);
    assert Match(t, c, d) == Match(t, c + 1, d - 1);
  }

  /** The body of a terminated header is the one balanced text that a closing brace follows. */
  lemma {:induction false} BodyExactly(t: string, open: nat, c: nat)
    requires open <= c < |t|
    ensures Terminated(t, open) && Close(t, open) == c <==> Balanced(t[open..c]) && t[c] == '}'
  {
    var body := t[open..c];
    if Terminated(t, open) && Close(t, open) == c {
      CloseIsBalanced(t, open);
    }
    if Balanced(body) && t[c] == '}' {
      forall j | open <= j < c ensures 1 + Nest(t[open..j]) > 0 {
        assert body[..j - open] == t[open..j];
      }
      MatchAlong(t, open, 1, c);
      assert Match(t, c, 1) == Match(t, c + 1, 0) == (c + 1, 0);
    }
  }

  lemma {:induction false} MatchNotBefore(t: string, i: nat, depth: nat)
    requires i <= |t| && depth > 0
    ensures Match(t, i, depth).1 == 0 ==> Match(t, i, depth).0 > i
  {
    if Match(t, i, depth).1 == 0 {
      MatchStops(t, i, depth);
    }
  }

  /** The yielded body of a terminated header, and what follows it. */
  lemma {:induction false} TerminatedBody(t: string, open: nat)
    requires open <= |t| && Terminated(t, open)
    ensures Balanced(BodyOf(t, open))
    ensures t[open + |BodyOf(t, open)|] == '}'
  {
    CloseIsBalanced(t, open);
  }

  /** Text that ends inside a class: the slice still drops one character, the last of the text. */
  lemma {:induction false} UnterminatedBody(t: string, open: nat)
    requires open <= |t| && !Terminated(t, open)
    ensures BodyOf(t, open) == if open < |t| then t[open..|t| - 1] else ""
  {
  }

  // ---- two headers -----------------------------------------------------------------------

  /** From the same place, a smaller depth reaches zero, and sooner. */
  lemma {:induction false} ShallowerFirst(t: string, i: nat, d: nat, e: nat)
    requires i <= |t| && 0 < d < e && Match(t, i, e).1 == 0
    ensures Match(t, i, d).1 == 0 && Match(t, i, d).0 < Match(t, i, e).0
    decreases |t| - i
  {
    var step := Delta(t[i]);
    if d + step > 0 {
      ShallowerFirst(t, i + 1, d + step, e + step);
    } else {
      MatchNotBefore(t, i + 1, e + step);
    }
  }

  datatype Relation = Nested | Disjoint

  /** The second header's opening brace lies inside the first body, or after its end. */
  function Relate(t: string, open1: nat, open2: nat): Relation
    requires open1 < open2 <= |t| && Terminated(t, open1)
  {
    if open2 <= Close(t, open1) then Nested else Disjoint
  }

  /** Two class bodies never cross. If the second header opens inside the first body then the
      second body is terminated too and lies, closing brace included, inside the first; otherwise
      the first body and its closing brace are over before the second opening brace. */
  lemma {:induction false} NestedOrDisjoint(t: string, open1: nat, open2: nat)
    requires open1 < open2 <= |t| && t[open2 - 1] == '{'
    requires Terminated(t, open1)
    ensures match Relate(t, open1, open2)
            case Nested => Terminated(t, open2) && Close(t, open2) < Close(t, open1)
            case Disjoint => Close(t, open1) < open2 - 1
  {
    var c := Close(t, open1);
    MatchStops(t, open1, 1);
    if open2 <= c {
      MatchInside(t, open1, 1, open2 - 1);
      NestNext(t, open1, open2 - 1);
      MatchAlong(t, open1, 1, open2);
      var d := 1 + Nest(t[open1..open2]);
      ShallowerFirst(t, open2, 1, d);
    }
  }

  /** The nested body is a stretch of the outer one. */
  lemma {:induction false} NestedBodyInside(t: string, open1: nat, open2: nat)
    requires open1 < open2 <= |t| && t[open2 - 1] == '{'
    requires Terminated(t, open1) && open2 <= Close(t, open1)
    ensures Terminated(t, open2)
    ensures var outer := BodyOf(t, open1); var inner := BodyOf(t, open2);
            && open2 - open1 + |inner| < |outer|
            && outer[open2 - open1 - 1] == '{'
            && outer[open2 - open1..][..|inner|] == inner
            && outer[open2 - open1 + |inner|] == '}'
  {
    NestedOrDisjoint(t, open1, open2);
    TerminatedBody(t, open2);
  }
}
