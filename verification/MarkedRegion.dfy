/** `rewrite_block`: replacing the text between two markers in a file. */
module MarkedRegion {

  const BEGIN := "<!-- coverage-summary:begin -->"
  const END := "<!-- coverage-summary:end -->"

  // ---- searching -------------------------------------------------------------------------

  predicate At(t: string, p: string, i: int) {
    0 <= i <= |t| - |p| && t[i..i + |p|] == p
  }

  /** `t.find(p, from)`: the first occurrence at or after `from`, or the length of the text. */
  function Find(t: string, p: string, from: nat): (i: nat)
    requires from <= |t|
    ensures from <= i <= |t|
    ensures i < |t| ==> At(t, p, i)
    ensures forall k | from <= k < i :: !At(t, p, k)
    decreases |t| - from
  {
    if from == |t| || At(t, p, from) then from else Find(t, p, from + 1)
  }

  /** `t.count(p)`: the occurrences met scanning left to right without overlaps. */
  function CountFrom(t: string, p: string, from: nat): nat
    requires from <= |t| && p != ""
    decreases |t| - from
  {
    var i := Find(t, p, from);
    if i == |t| then 0 else 1 + CountFrom(t, p, i + |p|)
  }

  function Occurrences(t: string, p: string): nat
    requires p != ""
  {
    CountFrom(t, p, 0)
  }

  /** The only occurrence of `p` starts at `i`. */
  ghost predicate OnlyAt(t: string, p: string, i: int) {
    At(t, p, i) && forall k :: At(t, p, k) ==> k == i
  }

  // ---- the guard and the splice ------------------------------------------------------------

  predicate Rewritable(t: string) {
    && Occurrences(t, BEGIN) == 1 && Occurrences(t, END) == 1
    && Find(t, BEGIN, 0) <= Find(t, END, 0)
  }

  function ContentStart(t: string): nat {
    Find(t, BEGIN, 0) + |BEGIN|
  }

  function ContentStop(t: string): nat {
    Find(t, END, 0)
  }

  function Rewritten(t: string, body: string): string
    requires Rewritable(t)
  {
    RegionOrdered(t);
    t[..ContentStart(t)] + "\n" + body + t[ContentStop(t)..]
  }

  datatype Rewrite = Updated | Unchanged | NeedsOneRegion

  class File {
    var text: string
    var writes: nat

    constructor (t: string)
      ensures text == t && writes == 0
    {
      text, writes := t, 0;
    }

    /** A file without exactly one region is an error and is left alone; an unchanged file is not
        written. */
    method RewriteBlock(body: string) returns (o: Rewrite)
      modifies this
      ensures o == if !Rewritable(old(text)) then NeedsOneRegion
                   else if Rewritten(old(text), body) != old(text) then Updated else Unchanged
      ensures text == if Rewritable(old(text)) then Rewritten(old(text), body) else old(text)
      ensures writes == old(writes) + if o == Updated then 1 else 0
      // everything up to the region's content and everything from the end marker on is kept
      ensures o != NeedsOneRegion ==>
                var i, after := ContentStart(old(text)), old(text)[ContentStop(old(text))..];
                && |text| == i + 1 + |body| + |after|
                && text[..i] == old(text)[..i] && text[i..i + 1 + |body|] == "\n" + body
                && text[i + 1 + |body|..] == after
    {
      var t := text;
      if Occurrences(t, BEGIN) != 1 || Occurrences(t, END) != 1 || Find(t, BEGIN, 0) > Find(t, END, 0) {
        return NeedsOneRegion;
      }
      RegionOrdered(t);
      OutsideUntouched(t, body);
      var i := Find(t, BEGIN, 0) + |BEGIN|;
      var j := Find(t, END, 0);
      var fresh' := t[..i] + "\n" + body + t[j..];
      if fresh' != t {
        text := fresh';
        writes := writes + 1;
        return Updated;
      }
      return Unchanged;
    }
  }

  // ---- the markers -------------------------------------------------------------------------

  /** The first character of a marker occurs nowhere else in it. */
  predicate Marker(p: string) {
    |p| > 1 && p[0] == '<' && forall k | 0 < k < |p| :: p[k] != '<' && p[k] != '\n'
  }

  lemma {:induction false} MarkersAre()
    ensures Marker(BEGIN) && Marker(END)
    ensures |BEGIN| == 31 && |END| == 29
    ensures BEGIN[22] != END[22]
  {
  }

  lemma {:induction false} AtChars(t: string, p: string, i: int)
    requires At(t, p, i)
    ensures forall k | i <= k < i + |p| :: t[k] == p[k - i]
  {
    forall k | i <= k < i + |p| ensures t[k] == p[k - i] {
      assert t[i..i + |p|][k - i] == t[k];
    }
  }

  /** Two occurrences of markers, of the same or of different ones, never overlap. */
  lemma {:induction false} NoOverlap(t: string, p: string, q: string, i: int, j: int)
    requires Marker(p) && Marker(q) && At(t, p, i) && At(t, q, j) && i < j
    ensures i + |p| <= j
  {
    AtChars(t, p, i);
    AtChars(t, q, j);
    assert t[j] == '<';
  }

  lemma {:induction false} CountNone(t: string, p: string, from: nat)
    requires from <= |t| && p != ""
    ensures CountFrom(t, p, from) == 0 <==> forall k | from <= k :: !At(t, p, k)
  {
    var i := Find(t, p, from);
    assert i == |t| ==> !At(t, p, i);
    assert i < |t| ==> At(t, p, i);
  }

  /** The scan counts one occurrence exactly when there is one position, because a marker cannot
      overlap another copy of itself. */
  lemma {:induction false} CountedOnce(t: string, p: string)
    requires Marker(p)
    ensures Occurrences(t, p) == 1 <==> OnlyAt(t, p, Find(t, p, 0))
  {
    var i := Find(t, p, 0);
    CountNone(t, p, 0);
    if i < |t| {
      CountNone(t, p, i + |p|);
      forall k | At(t, p, k) && k > i ensures k >= i + |p| {
        NoOverlap(t, p, p, i, k);
      }
    }
  }

  /** A file can be rewritten if and only if each marker stands in it once and the first one comes first. */
  lemma {:induction false} RewritableExactly(t: string)
    ensures Rewritable(t)
       <==> exists i, j :: OnlyAt(t, "<!-- coverage-summary:begin -->", i)
                           && OnlyAt(t, "<!-- coverage-summary:end -->", j) && i < j
  {
    MarkersAre();
    CountedOnce(t, BEGIN);
    CountedOnce(t, END);
    hide Find, CountFrom;
    var i, j := Find(t, BEGIN, 0), Find(t, END, 0);
    assert At(t, BEGIN, i) && At(t, END, j) ==> i != j by { TwoMarkers(t, i, j); }
    forall p, k | (p == BEGIN || p == END) && OnlyAt(t, p, k) ensures k == Find(t, p, 0) {
      FirstFound(t, p, k);
    }
  }

  lemma {:induction false} TwoMarkers(t: string, i: int, j: int)
    ensures At(t, BEGIN, i) && At(t, END, j) ==> i != j
  {
    MarkersAre();
    if At(t, BEGIN, i) && At(t, END, j) {
      AtChars(t, BEGIN, i);
      AtChars(t, END, j);
      assert t[i + 22] == BEGIN[22] && t[j + 22] == END[22];
    }
  }

  lemma {:induction false} FirstFound(t: string, p: string, k: int)
    requires |p| > 0 && OnlyAt(t, p, k)
    ensures k == Find(t, p, 0)
  {
    var i := Find(t, p, 0);
    assert At(t, p, k);
  }

  /** The guard compares where the markers start; it follows that the first one ends before the
      second one starts. */
  lemma {:induction false} RegionOrdered(t: string)
    requires Rewritable(t)
    ensures ContentStart(t) <= ContentStop(t) < |t|
    ensures OnlyAt(t, BEGIN, ContentStart(t) - |BEGIN|) && OnlyAt(t, END, ContentStop(t))
  {
    MarkersAre();
    CountedOnce(t, BEGIN);
    CountedOnce(t, END);
    var i, j := Find(t, BEGIN, 0), Find(t, END, 0);
    AtChars(t, BEGIN, i);
    AtChars(t, END, j);
    assert t[i + 22] == BEGIN[22] && t[j + 22] == END[22];
    if i < j {
      NoOverlap(t, BEGIN, END, i, j);
    }
  }

  // ---- after the splice ----------------------------------------------------------------------

  lemma {:induction false} AtAppendLeft(a: string, b: string, p: string, k: int)
    requires 0 <= k && k + |p| <= |a|
    ensures At(a + b, p, k) <==> At(a, p, k)
  {
    assert (a + b)[k..k + |p|] == a[k..k + |p|];
  }

  lemma {:induction false} AtAppendRight(a: string, b: string, p: string, k: int)
    requires |a| <= k
    ensures At(a + b, p, k) <==> At(b, p, k - |a|)
  {
    if k + |p| <= |a + b| {
      assert (a + b)[k..k + |p|] == b[k - |a|..k - |a| + |p|];
    }
  }

  /** No marker straddles a cut: its second half would have to contain a `<` or a line break. */
  lemma {:induction false} NoStraddle(a: string, b: string, p: string, k: int)
    requires Marker(p) && At(a + b, p, k) && k < |a|
    requires b != "" && (b[0] == '<' || b[0] == '\n')
    ensures k + |p| <= |a|
  {
    AtChars(a + b, p, k);
    assert (a + b)[|a|] == b[0];
  }

  /** An occurrence in a text cut before a `<` or a line break lies in one of the two parts. */
  lemma {:induction false} InOnePart(a: string, b: string, p: string)
    requires Marker(p) && b != "" && (b[0] == '<' || b[0] == '\n')
    ensures forall k :: At(a + b, p, k) <==> At(a, p, k) || (k >= |a| && At(b, p, k - |a|))
  {
    forall k ensures At(a + b, p, k) <==> At(a, p, k) || (k >= |a| && At(b, p, k - |a|)) {
      if 0 <= k < |a| {
        if At(a + b, p, k) {
          NoStraddle(a, b, p, k);
        }
        if k + |p| <= |a| {
          AtAppendLeft(a, b, p, k);
        }
      } else if k >= |a| {
        AtAppendRight(a, b, p, k);
      }
    }
  }

  predicate MarkerFree(body: string) {
    Occurrences(body, BEGIN) == 0 && Occurrences(body, END) == 0
  }

  lemma {:induction false} FreeMeans(body: string)
    ensures MarkerFree(body) <==> forall k :: !At(body, BEGIN, k) && !At(body, END, k)
  {
    CountNone(body, BEGIN, 0);
    CountNone(body, END, 0);
  }

  lemma {:induction false} InMiddle(body: string, p: string)
    requires Marker(p)
    ensures forall k :: At("\n" + body, p, k) <==> k >= 1 && At(body, p, k - 1)
  {
    var middle := "\n" + body;
    assert middle[0] == '\n';
    forall k ensures At(middle, p, k) <==> k >= 1 && At(body, p, k - 1) {
      if k >= 1 {
        AtAppendRight("\n", body, p, k);
      } else if k == 0 && At(middle, p, 0) {
        AtChars(middle, p, 0);
      }
    }
  }

  /** Where a marker occurs in the new text: where it did before the region, in the body, or where it
      did from the end marker on. */
  lemma {:induction false} WhereMarkers(head: string, body: string, tail: string, p: string)
    requires Marker(p) && tail != "" && tail[0] == '<'
    ensures forall k :: At(head + "\n" + body + tail, p, k) <==>
              (At(head, p, k) || (k >= |head| + 1 && At(body, p, k - |head| - 1))
               || (k >= |head| + 1 + |body| && At(tail, p, k - |head| - 1 - |body|)))
  {
    var middle := "\n" + body;
    assert head + "\n" + body + tail == head + (middle + tail);
    assert (middle + tail)[0] == '\n';
    InOnePart(head, middle + tail, p);
    InOnePart(middle, tail, p);
    InMiddle(body, p);
    hide At, Marker;
  }

  lemma {:induction false} HeadOf(t: string, p: string)
    requires Rewritable(t) && (p == BEGIN || p == END)
    ensures ContentStart(t) <= |t|
    ensures forall k :: At(t[..ContentStart(t)], p, k) <==> p == BEGIN && k == ContentStart(t) - |BEGIN|
  {
    RegionOrdered(t);
    hide Rewritable, ContentStart, ContentStop;
    var i := ContentStart(t);
    assert t == t[..i] + t[i..];
    forall k ensures At(t[..i], p, k) <==> p == BEGIN && k == i - |BEGIN| {
      if 0 <= k && k + |p| <= i {
        AtAppendLeft(t[..i], t[i..], p, k);
      }
    }
  }

  lemma {:induction false} TailOf(t: string, p: string)
    requires Rewritable(t) && (p == BEGIN || p == END)
    ensures ContentStop(t) < |t| && t[ContentStop(t)] == '<'
    ensures forall k | k >= 0 :: At(t[ContentStop(t)..], p, k) <==> p == END && k == 0
  {
    RegionOrdered(t);
    MarkersAre();
    hide *;
    TailAt(t, ContentStart(t) - |BEGIN|, ContentStop(t), p);
  }

  lemma {:induction false} TailAt(t: string, i: int, j: int, p: string)
    requires OnlyAt(t, BEGIN, i) && OnlyAt(t, END, j) && i < j < |t| && (p == BEGIN || p == END)
    ensures t[j] == '<' && forall k | k >= 0 :: At(t[j..], p, k) <==> p == END && k == 0
  {
    MarkersAre();
    AtChars(t, END, j);
    assert t == t[..j] + t[j..];
    hide At, Marker, BEGIN, END;
    forall k | k >= 0 ensures At(t[j..], p, k) <==> p == END && k == 0 {
      AtAppendRight(t[..j], t[j..], p, j + k);
      TwoMarkers(t, i, j);
    }
  }

  /** Where a marker occurs in a rewritten text. */
  lemma {:induction false} MarkersIn(t: string, body: string, p: string)
    requires Rewritable(t) && (p == BEGIN || p == END)
    ensures forall k :: At(Rewritten(t, body), p, k) <==>
              ((p == BEGIN && k == ContentStart(t) - |BEGIN|)
               || (k >= ContentStart(t) + 1 && At(body, p, k - ContentStart(t) - 1))
               || (p == END && k == ContentStart(t) + 1 + |body|))
  {
    hide *;
    HeadOf(t, p);
    TailOf(t, p);
    MarkersAre();
    var head, tail := RewrittenIs(t, body);
    WhereMarkers(head, body, tail, p);
    MarkersJoined(Rewritten(t, body), body, p, ContentStart(t), head, tail);
  }

  lemma {:induction false} RewrittenIs(t: string, body: string) returns (head: string, tail: string)
    requires Rewritable(t)
    ensures ContentStart(t) <= ContentStop(t) < |t| && head == t[..ContentStart(t)] && tail == t[ContentStop(t)..]
    ensures Rewritten(t, body) == head + "\n" + body + tail && |head| == ContentStart(t)
    ensures tail != "" && tail[0] == t[ContentStop(t)]
  {
    RegionOrdered(t);
    head, tail := t[..ContentStart(t)], t[ContentStop(t)..];
  }

  lemma {:induction false} MarkersJoined(n: string, body: string, p: string, start: nat, head: string, tail: string)
    requires |head| == start && n == head + "\n" + body + tail
    requires forall k :: At(n, p, k) <==>
               (At(head, p, k) || (k >= start + 1 && At(body, p, k - start - 1))
                || (k >= start + 1 + |body| && At(tail, p, k - start - 1 - |body|)))
    requires forall k :: At(head, p, k) <==> p == BEGIN && k == start - |BEGIN|
    requires forall k | k >= 0 :: At(tail, p, k) <==> p == END && k == 0
    ensures forall k :: At(n, p, k) <==>
              ((p == BEGIN && k == start - |BEGIN|) || (k >= start + 1 && At(body, p, k - start - 1))
               || (p == END && k == start + 1 + |body|))
  {
    hide At;
  }

  /** Everything before the region's content and everything from the end marker on is untouched, the
      markers included. */
  lemma {:induction false} OutsideUntouched(t: string, body: string)
    requires Rewritable(t)
    ensures var n := Rewritten(t, body); var i, j := ContentStart(t), ContentStop(t);
            && i <= j <= |t| && |n| == i + 1 + |body| + |t[j..]|
            && n[..i] == t[..i] && n[i..i + 1 + |body|] == "\n" + body && n[i + 1 + |body|..] == t[j..]
  {
    RegionOrdered(t);
  }

  /** Where the markers of the new text are, when the body holds none. */
  lemma {:induction false} NewRegion(t: string, body: string)
    requires Rewritable(t) && MarkerFree(body)
    ensures var n := Rewritten(t, body);
            OnlyAt(n, BEGIN, ContentStart(t) - |BEGIN|) && OnlyAt(n, END, ContentStart(t) + 1 + |body|)
  {
    RegionOrdered(t);
    MarkersAre();
    FreeMeans(body);
    MarkersIn(t, body, BEGIN);
    MarkersIn(t, body, END);
  }

  lemma {:induction false} OnlyAtFound(t: string, p: string, i: int)
    requires Marker(p) && OnlyAt(t, p, i)
    ensures Occurrences(t, p) == 1 && Find(t, p, 0) == i
  {
    CountedOnce(t, p);
  }

  /** A rewritten file can be rewritten again if and only if the body held neither marker. */
  lemma {:induction false} RewritableAgain(t: string, body: string)
    requires Rewritable(t)
    ensures Rewritable(Rewritten(t, body)) <==> MarkerFree(body)
    ensures MarkerFree(body) ==>
              && ContentStart(Rewritten(t, body)) == ContentStart(t)
              && ContentStop(Rewritten(t, body)) == ContentStart(t) + 1 + |body|
  {
    var n := Rewritten(t, body);
    MarkersAre();
    if MarkerFree(body) {
      NewRegion(t, body);
      OnlyAtFound(n, BEGIN, ContentStart(t) - |BEGIN|);
      OnlyAtFound(n, END, ContentStart(t) + 1 + |body|);
    } else {
      FreeMeans(body);
      hide *;
      var k :| At(body, BEGIN, k) || At(body, END, k);
      MarkerTwice(t, body, if At(body, BEGIN, k) then BEGIN else END, k);
    }
  }

  /** A marker in the body stands twice in the file, so the guard fails. */
  lemma {:induction false} MarkerTwice(t: string, body: string, p: string, k: int)
    requires Rewritable(t) && (p == BEGIN || p == END) && At(body, p, k)
    ensures !Rewritable(Rewritten(t, body))
  {
    var n := Rewritten(t, body);
    MarkersAre();
    MarkersIn(t, body, p);
    CountedOnce(n, p);
    hide Find, CountFrom, Rewritten;
    var here := ContentStart(t) + 1 + k;
    var there := if p == BEGIN then ContentStart(t) - |BEGIN| else ContentStart(t) + 1 + |body|;
    assert At(n, p, here) && At(n, p, there);
  }

  /** A later rewrite replaces an earlier one completely; so rewriting twice with one body is the
      same as rewriting once, and the second time the file is not written. */
  lemma {:induction false} LastRewriteWins(t: string, first: string, second: string)
    requires Rewritable(t) && MarkerFree(first)
    ensures Rewritable(Rewritten(t, first))
    ensures Rewritten(Rewritten(t, first), second) == Rewritten(t, second)
    ensures Rewritten(Rewritten(t, first), first) == Rewritten(t, first)
  {
    RewritableAgain(t, first);
    OutsideUntouched(t, first);
    RegionOrdered(t);
    var n := Rewritten(t, first);
    assert n[ContentStop(n)..] == t[ContentStop(t)..];
  }
}
