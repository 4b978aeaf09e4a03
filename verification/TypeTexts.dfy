/** What the emitter reads off the text of a type, told by how the text is spelled. */
module TypeTexts {
  import opened Options
  import opened Text
  import opened Targets
  import opened Bindings

  // ---- without its blanks ------------------------------------------------------------------

  /** The text with every blank dropped. */
  function Dense(t: string): string {
    if t == "" then "" else (if t[0] == ' ' then "" else [t[0]]) + Dense(t[1..])
  }

  lemma {:induction false} DenseIs(t: string)
    ensures Norm(t) == Dense(t)
  {
    if t != "" {
      DenseIs(t[1..]);
      assert t[..1] == [t[0]] && " "[0] == ' ';
    }
  }

  lemma {:induction false} DenseWhole(t: string)
    requires ' ' !in t
    ensures Dense(t) == t
  {
    if t != "" {
      DenseWhole(t[1..]);
    }
  }

  // ---- cutting off characters of a set -----------------------------------------------------

  predicate AllIn(s: string, chars: string) {
    forall i | 0 <= i < |s| :: s[i] in chars
  }

  lemma {:induction false} RStripSetIs(t: string, b: string, chars: string)
    requires AllIn(b, chars) && (t == "" || t[|t| - 1] !in chars)
    ensures RStripSet(t + b, chars) == t
  {
    if b == "" {
      assert t + b == t;
    } else {
      var s := t + b;
      assert s[|s| - 1] == b[|b| - 1] && s[..|s| - 1] == t + b[..|b| - 1];
      RStripSetIs(t, b[..|b| - 1], chars);
    }
  }

  lemma {:induction false} RStripSetSplits(s: string, chars: string) returns (b: string)
    ensures var t := RStripSet(s, chars); s == t + b && AllIn(b, chars) && (t == "" || t[|t| - 1] !in chars)
  {
    if s != "" && s[|s| - 1] in chars {
      b := RStripSetSplits(s[..|s| - 1], chars);
      assert s == s[..|s| - 1] + [s[|s| - 1]];
      b := b + [s[|s| - 1]];
    } else {
      b := "";
    }
  }

  lemma {:induction false} LStripSetIs(a: string, t: string, chars: string)
    requires AllIn(a, chars) && (t == "" || t[0] !in chars)
    ensures LStripSet(a + t, chars) == t
  {
    if a == "" {
      assert a + t == t;
    } else {
      assert (a + t)[1..] == a[1..] + t;
      LStripSetIs(a[1..], t, chars);
    }
  }

  lemma {:induction false} LStripSetSplits(s: string, chars: string) returns (a: string)
    ensures var t := LStripSet(s, chars); s == a + t && AllIn(a, chars) && (t == "" || t[0] !in chars)
  {
    if s != "" && s[0] in chars {
      a := LStripSetSplits(s[1..], chars);
      a := [s[0]] + a;
    } else {
      a := "";
    }
  }

  // ---- the class a pointer type names ------------------------------------------------------

  /** The class, white space around it, and the stars at the end. */
  predicate PointerSpelled(ret: string, cls: string, a: string, b: string, stars: string) {
    && ret == a + cls + b + stars && AllSpace(a) && AllSpace(b) && Trimmed(cls) && AllIn(stars, "*")
    && (a + cls + b == "" || (a + cls + b)[|a + cls + b| - 1] != '*')
  }

  ghost predicate PointsTo(ret: string, cls: string) {
    exists a, b, stars :: PointerSpelled(ret, cls, a, b, stars)
  }

  lemma {:induction false} TargetIs(ret: string, cls: string)
    ensures RelationTarget(ret) == cls <==> PointsTo(ret, cls)
  {
    assert forall c | c in "*" :: c == '*';
    assert '*' in "*" by { assert "*"[0] == '*'; }
    if RelationTarget(ret) == cls {
      var stars := RStripSetSplits(ret, "*");
      var a, b := StripSplits(RStripSet(ret, "*"));
      hide *;
      TargetFound(ret, cls, RStripSet(ret, "*"), a, b, stars);
    }
    forall a, b, stars | PointerSpelled(ret, cls, a, b, stars) ensures RelationTarget(ret) == cls {
      RStripSetIs(a + cls + b, stars, "*");
      StripIs(a, cls, b);
    }
  }

  lemma {:induction false} TargetFound(ret: string, cls: string, x: string, a: string, b: string, stars: string)
    requires ret == x + stars && x == a + cls + b && AllSpace(a) && AllSpace(b) && Trimmed(cls) && AllIn(stars, "*")
    requires x == "" || x[|x| - 1] !in "*"
    ensures PointsTo(ret, cls)
  {
    assert '*' in "*" by { assert "*"[0] == '*'; }
    assert PointerSpelled(ret, cls, a, b, stars);
  }

  // ---- the class a set type holds ----------------------------------------------------------

  /** The element class after the six characters of `dbSet<`, white space around it, its stars, white space
      after them, and the closing brackets. */
  datatype SetText = SetText(front: string, a: string, b: string, stars: string, d: string, angles: string) {
    predicate Spells(ret: string, cls: string) {
      var inner := a + cls + b + stars + d;
      && ret == front + inner + angles && (|front| == 6 || (|front| < 6 && inner + angles == ""))
      && AllSpace(a) && AllSpace(b) && AllSpace(d) && Trimmed(cls) && AllIn(stars, "*") && AllIn(angles, ">")
      && (inner == "" || inner[|inner| - 1] != '>')
      && (stars == "" ==> b == "") && (cls + b == "" || (cls + b)[|cls + b| - 1] != '*')
    }
  }

  ghost predicate SetOf(ret: string, cls: string) {
    exists t: SetText :: t.Spells(ret, cls)
  }

  /** The stars are cut off the stripped text. */
  lemma {:induction false} StarsCut(a: string, cls: string, b: string, stars: string, d: string)
    requires AllSpace(a) && AllSpace(b) && AllSpace(d) && Trimmed(cls) && AllIn(stars, "*")
    requires (stars == "" ==> b == "") && (cls + b == "" || (cls + b)[|cls + b| - 1] != '*')
    ensures Strip(RStripSet(Strip(a + cls + b + stars + d), "*")) == cls
  {
    assert "*" == ['*'];
    if stars == "" {
      assert a + cls + b + stars + d == a + cls + d;
      StripIs(a, cls, d);
      assert cls + "" == cls;
      RStripSetIs(cls, "", "*");
      StripTrimmed(cls);
    } else if cls == "" {
      assert a + cls + b + stars + d == (a + b) + stars + d;
      StarsSolid(stars);
      StripIs(a + b, stars, d);
      assert "" + stars == stars;
      RStripSetIs("", stars, "*");
      StripTrimmed("");
    } else {
      var y := cls + b + stars;
      assert a + cls + b + stars + d == a + y + d;
      StarsSolid(stars);
      assert y[0] == cls[0] && y[|y| - 1] == stars[|stars| - 1];
      StripIs(a, y, d);
      RStripSetIs(cls + b, stars, "*");
      assert "" + cls + b == cls + b;
      StripIs("", cls, b);
    }
  }

  lemma {:induction false} StarsSolid(stars: string)
    requires AllIn(stars, "*") && stars != ""
    ensures Trimmed(stars)
  {
    assert stars[0] in "*" && stars[|stars| - 1] in "*";
    assert "*" == ['*'];
  }

  function Inner(ret: string): string {
    if |ret| >= 6 then ret[6..] else ""
  }

  lemma {:induction false} ElemSpelled(ret: string, cls: string, t: SetText)
    requires t.Spells(ret, cls)
    ensures IteratorElem(ret) == cls
  {
    var x := t.a + cls + t.b + t.stars + t.d;
    assert ">" == ['>'];
    SetInner(t.front, x, t.angles, ret);
    StarsCut(t.a, cls, t.b, t.stars, t.d);
    RStripSetIs(x, t.angles, ">");
    hide RStripSet, Strip;
  }

  lemma {:induction false} SetInner(front: string, x: string, angles: string, ret: string)
    requires ret == front + x + angles && (|front| == 6 || (|front| < 6 && x + angles == ""))
    ensures Inner(ret) == x + angles
  {
    assert front + x + angles == front + (x + angles);
  }

  /** The steps of the reading, undone one after the other. */
  lemma {:induction false} StarsFound(x: string) returns (a: string, b: string, stars: string, d: string)
    ensures var cls := Strip(RStripSet(Strip(x), "*"));
            && x == a + cls + b + stars + d && AllSpace(a) && AllSpace(b) && AllSpace(d) && Trimmed(cls)
            && AllIn(stars, "*") && (stars == "" ==> b == "")
            && (cls + b == "" || (cls + b)[|cls + b| - 1] != '*')
  {
    var p, q := StripSplits(x);
    var y := Strip(x);
    stars := RStripSetSplits(y, "*");
    var z := RStripSet(y, "*");
    var k, e := StripSplits(z);
    var cls := Strip(z);
    hide *;
    a, b, d := p + k, e, q;
    ElemParts(p, k, cls, e, stars, q);
    Nested(p, k, cls, e, stars, q);
  }

  lemma {:induction false} Nested(p: string, k: string, cls: string, e: string, stars: string, q: string)
    ensures p + (k + cls + e + stars) + q == p + k + cls + e + stars + q
  {
  }

  lemma {:induction false} ElemFound(ret: string) returns (t: SetText)
    ensures t.Spells(ret, IteratorElem(ret))
  {
    var cls := IteratorElem(ret);
    var inner := Inner(ret);
    var angles := RStripSetSplits(inner, ">");
    var x := RStripSet(inner, ">");
    assert cls == Strip(RStripSet(Strip(x), "*"));
    var front := if |ret| >= 6 then ret[..6] else ret;
    assert ret == front + inner && (|front| == 6 || (|front| < 6 && inner == ""));
    assert ">" == ['>'];
    hide *;
    var a, b, stars, d := StarsFound(x);
    t := SetText(front, a, b, stars, d, angles);
    Joins(front, x, angles);
    ElemText(t, ret, cls, x);
  }

  lemma {:induction false} Joins(a: string, b: string, c: string)
    ensures a + (b + c) == a + b + c
  {
  }

  lemma {:induction false} ElemText(t: SetText, ret: string, cls: string, x: string)
    requires x == t.a + cls + t.b + t.stars + t.d && ret == t.front + x + t.angles
    requires |t.front| == 6 || (|t.front| < 6 && x + t.angles == "")
    requires AllSpace(t.a) && AllSpace(t.b) && AllSpace(t.d) && Trimmed(cls) && AllIn(t.stars, "*")
    requires AllIn(t.angles, ">") && (x == "" || x[|x| - 1] != '>')
    requires (t.stars == "" ==> t.b == "") && (cls + t.b == "" || (cls + t.b)[|cls + t.b| - 1] != '*')
    ensures t.Spells(ret, cls)
  {
    hide AllSpace, AllIn, Trimmed;
  }

  lemma {:induction false} ElemParts(p: string, a: string, cls: string, b: string, stars: string, q: string)
    requires AllSpace(p) && AllSpace(a) && AllSpace(b) && Trimmed(cls) && Trimmed(a + cls + b + stars)
    requires a + cls + b == "" || (a + cls + b)[|a + cls + b| - 1] !in "*"
    ensures AllSpace(p + a) && (stars == "" ==> b == "")
    ensures cls + b == "" || (cls + b)[|cls + b| - 1] != '*'
  {
    assert '*' in "*" by { assert "*"[0] == '*'; }
    var z := a + cls + b;
    assert cls + b != "" ==> z[|z| - 1] == (cls + b)[|cls + b| - 1];
    if b != "" {
      SpaceEnd(a + cls, b);
    }
    assert stars == "" ==> z + stars == z;
  }

  lemma {:induction false} SpaceEnd(w: string, b: string)
    requires AllSpace(b) && b != ""
    ensures !Trimmed(w + b)
  {
    assert (w + b)[|w + b| - 1] == b[|b| - 1];
  }

  /** The element class that the emitter reads is the one the set's type is spelled with. */
  lemma {:induction false} ElemIs(ret: string, cls: string)
    ensures IteratorElem(ret) == cls <==> SetOf(ret, cls)
  {
    hide IteratorElem;
    var t := ElemFound(ret);
    if s: SetText :| s.Spells(ret, cls) {
      ElemSpelled(ret, cls, s);
    }
  }

  // ---- the rows of the class table ---------------------------------------------------------

  /** The first row of that class is row `i`. */
  predicate RowOf(rows: seq<Spec>, cls: string, i: nat) {
    i < |rows| && rows[i].cls == cls && forall j | 0 <= j < i :: rows[j].cls != cls
  }

  lemma {:induction false} FindIs(rows: seq<Spec>, cls: string)
    ensures FindSpec(rows, cls).Some? <==> exists i :: 0 <= i < |rows| && rows[i].cls == cls
    ensures forall i: nat | RowOf(rows, cls, i) :: FindSpec(rows, cls) == Some(rows[i])
    ensures FindSpec(rows, cls).Some? ==> exists i: nat :: RowOf(rows, cls, i)
  {
    if rows != [] {
      FindIs(rows[1..], cls);
      if rows[0].cls == cls {
        assert RowOf(rows, cls, 0);
      } else {
        var more := rows[1..];
        assert forall i | 0 <= i < |more| :: more[i] == rows[i + 1];
        assert forall i | 1 <= i < |rows| :: rows[i] == more[i - 1];
        forall i: nat | RowOf(rows, cls, i) ensures FindSpec(rows, cls) == Some(rows[i]) {
          assert RowOf(more, cls, i - 1);
        }
        if FindSpec(rows, cls).Some? {
          var i: nat :| RowOf(more, cls, i);
          assert RowOf(rows, cls, i + 1);
        }
      }
    }
  }
}
