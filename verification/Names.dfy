/** Generated names: `snake`, and the class keys that prefix them. */
module Names {
  // ---- `snake` ---------------------------------------------------------------------------

  predicate IsUpper(c: char) {
    'A' <= c <= 'Z'
  }

  predicate IsLower(c: char) {
    'a' <= c <= 'z'
  }

  /** A character that may start an identifier, and one that may go on it. */
  predicate NameStart(c: char) {
    IsLower(c) || IsUpper(c) || c == '_'
  }

  predicate WordChar(c: char) {
    NameStart(c) || '0' <= c <= '9'
  }

  predicate IsIdent(s: string) {
    s != "" && NameStart(s[0]) && forall i | 0 <= i < |s| :: WordChar(s[i])
  }

  function ToLower(c: char): char {
    if IsUpper(c) then (c as int + 32) as char else c
  }

  function ToUpper(c: char): char {
    if IsLower(c) then (c as int - 32) as char else c
  }

  /** An underscore before every capital that does not start the name, then lower case. */
  function SnakeTail(t: string): string {
    if t == "" then ""
    else (if IsUpper(t[0]) then "_" else "") + [ToLower(t[0])] + SnakeTail(t[1..])
  }

  function Snake(name: string): string {
    if name == "" then "" else [ToLower(name[0])] + SnakeTail(name[1..])
  }

  /** The inverse: an underscore and a small letter are one capital. */
  function Unsnake(s: string): string
    decreases |s|
  {
    if s == "" then ""
    else if |s| > 1 && s[0] == '_' && IsLower(s[1]) then [ToUpper(s[1])] + Unsnake(s[2..])
    else [s[0]] + Unsnake(s[1..])
  }

  /** No underscore is followed by a small letter. */
  predicate NoUnderLower(t: string) {
    forall i | 0 <= i < |t| - 1 :: !(t[i] == '_' && IsLower(t[i + 1]))
  }

  predicate Camel(name: string) {
    (name == "" || !IsUpper(name[0])) && NoUnderLower(name)
  }

  lemma {:induction false} UnsnakeCapital(c: char, tail: string)
    requires IsUpper(c)
    ensures Unsnake("_" + [ToLower(c)] + tail) == [c] + Unsnake(tail)
  {
    var s := "_" + [ToLower(c)] + tail;
    assert s[2..] == tail;
  }

  lemma {:induction false} UnsnakeOther(c: char, tail: string)
    requires !(c == '_' && tail != "" && IsLower(tail[0]))
    ensures Unsnake([c] + tail) == [c] + Unsnake(tail)
  {
    assert ([c] + tail)[1..] == tail;
  }

  lemma {:induction false} ConsEqual(c: char, x: string, t: string)
    requires t != "" && t[0] == c
    ensures [c] + x == t <==> x == t[1..]
  {
    assert ([c] + x)[1..] == x;
    assert t == [c] + t[1..];
  }

  lemma {:induction false} NoUnderLowerCons(t: string)
    requires t != ""
    ensures NoUnderLower(t) <==> NoUnderLower(t[1..]) && !(t[0] == '_' && |t| > 1 && IsLower(t[1]))
  {
    if NoUnderLower(t[1..]) {
      forall i | 1 <= i < |t| - 1 ensures !(t[i] == '_' && IsLower(t[i + 1])) {
        assert t[1..][i - 1] == t[i] && t[1..][i] == t[i + 1];
      }
    }
  }

  lemma {:induction false} UnsnakeTail(t: string)
    ensures Unsnake(SnakeTail(t)) == t <==> NoUnderLower(t)
    decreases |t|
  {
    if t != "" {
      var rest, tail := t[1..], SnakeTail(t[1..]);
      UnsnakeTail(rest);
      NoUnderLowerCons(t);
      hide NoUnderLower;
      ConsEqual(t[0], Unsnake(tail), t);
      if IsUpper(t[0]) {
        UnsnakeCapital(t[0], tail);
      } else {
        assert SnakeTail(t) == [t[0]] + tail;
        assert rest == "" ==> tail == "";
        assert rest != "" ==> tail[0] == (if IsUpper(rest[0]) then '_' else rest[0]);
        if t[0] == '_' && rest != "" && IsLower(rest[0]) {
          assert Unsnake([t[0]] + tail)[0] == ToUpper(rest[0]);
        } else {
          UnsnakeOther(t[0], tail);
        }
      }
    }
  }

  /** `snake` can be undone for exactly the names that do not start with a capital and have no
      underscore before a small letter. */
  lemma {:induction false} SnakeExactly(name: string)
    ensures Unsnake(Snake(name)) == name <==> Camel(name)
  {
    if name != "" {
      if IsUpper(name[0]) {
        var s := Snake(name);
        assert s[0] == ToLower(name[0]) && s[0] != '_';
        assert Unsnake(s)[0] == s[0];
      } else {
        assert SnakeTail(name) == [name[0]] + SnakeTail(name[1..]);
        UnsnakeTail(name);
      }
    }
  }

  /** Method names spelled that way never collide after translation. */
  lemma {:induction false} SnakeInjective(a: string, b: string)
    requires Camel(a) && Camel(b) && Snake(a) == Snake(b)
    ensures a == b
  {
    SnakeExactly(a);
    SnakeExactly(b);
  }

  /** Outside that spelling two different names can collide. */
  lemma {:induction false} SnakeCollision()
    ensures "get_b" != "getB" && Snake("get_b") == Snake("getB")
    ensures !Camel("get_b")
  {
    assert "get_b"[3] == '_' && IsLower("get_b"[4]);
  }

  // ---- names of different classes --------------------------------------------------------

  /** How a generated name stands to its method: itself, or one of the readers of a list. */
  datatype Form = Single | Num | Nth | All

  function Prefix(form: Form): string {
    match form
    case Single => ""
    case Num => "num_"
    case Nth => "nth_"
    case All => "all_"
  }

  /** A generated name: a list prefix or none, the class key, an underscore, the field. */
  function NameOf(form: Form, key: string, field: string): string {
    Prefix(form) + key + "_" + field
  }

  predicate PlainKey(key: string) {
    |key| >= 3 && '_' !in key && key != "num" && key != "nth" && key != "all"
  }

  const COMPOUND := ["marker_cat", "pwr_domain", "pwr_switch", "level_shifter", "via_params"]

  /** What the field of class `a` must start with for its name to read as one of class `b`. */
  function Clash(a: string, b: string): (rest: string)
    requires Cousins(a, b)
    ensures b + "_" == a + "_" + rest
  {
    if a == "marker" then "cat_" else "params_"
  }

  /** The two pairs of keys of which one, followed by an underscore, starts the other. */
  predicate Cousins(a: string, b: string) {
    (a == "marker" && b == "marker_cat") || (a == "via" && b == "via_params")
  }

  predicate KeyOk(key: string) {
    (PlainKey(key) && key != "pwr" && key != "level") || key in COMPOUND
  }

  lemma {:induction false} FieldCut(k1: string, f1: string, k2: string, f2: string)
    requires k1 + "_" + f1 == k2 + "_" + f2 && |k1| <= |k2|
    ensures |k1| == |k2| ==> k1 == k2 && f1 == f2
    ensures |k1| < |k2| ==> k2[|k1|] == '_' && k1 == k2[..|k1|]
  {
    var s, t := k1 + "_" + f1, k2 + "_" + f2;
    assert s[..|k1|] == k1 && s[|k1|] == '_' && s[|k1| + 1..] == f1;
    assert t[..|k1|] == k2[..|k1|] && t[|k2| + 1..] == f2;
  }

  lemma {:induction false} UnderscoreAt(k: string, i: nat)
    requires KeyOk(k) && i < |k| && k[i] == '_'
    ensures k[..i] == "pwr" || k[..i] == "level" || Cousins(k[..i], k)
  {
    assert k in COMPOUND;
  }

  lemma {:induction false} NoListPrefix(k: string, f: string, form: Form)
    requires KeyOk(k) && form != Single
    ensures (k + "_" + f)[..4] != Prefix(form)
  {
    var s, p := k + "_" + f, Prefix(form);
    assert p[3] == '_' && (p[..3] == "num" || p[..3] == "nth" || p[..3] == "all");
    if |k| == 3 {
      assert s[..4][..3] == k;
    } else {
      assert s[..4] == k[..4];
      assert k in COMPOUND ==> k[0] == 'm' || k[0] == 'p' || k[0] == 'l' || k[0] == 'v';
      assert k in COMPOUND ==> k[1] == 'a' || k[1] == 'w' || k[1] == 'e' || k[1] == 'i';
      assert p[0] == k[0] && p[1] == k[1] ==> k[3] != '_';
    }
  }

  lemma {:induction false} FieldsCollide(k1: string, f1: string, k2: string, f2: string)
    requires KeyOk(k1) && KeyOk(k2) && |k1| <= |k2| && k1 != k2
    ensures k1 + "_" + f1 == k2 + "_" + f2 <==> Cousins(k1, k2) && f1 == Clash(k1, k2) + f2
  {
    if k1 + "_" + f1 == k2 + "_" + f2 {
      FieldCut(k1, f1, k2, f2);
      UnderscoreAt(k2, |k1|);
      hide KeyOk;
      assert k2 + "_" + f2 == k1 + "_" + (Clash(k1, k2) + f2);
      FieldCut(k1, f1, k1, Clash(k1, k2) + f2);
    } else if Cousins(k1, k2) {
      hide KeyOk;
      assert k1 + "_" + (Clash(k1, k2) + f2) == k1 + "_" + Clash(k1, k2) + f2;
    }
  }

  /** Two generated names of different classes are the same name exactly when they are of the same
      form, their keys are one of the two cousin pairs, and the field of the shorter key starts
      with what the longer key adds. */
  lemma {:induction false} NamesCollide(p1: Form, k1: string, f1: string, p2: Form, k2: string, f2: string)
    requires KeyOk(k1) && KeyOk(k2) && |k1| <= |k2| && k1 != k2
    ensures NameOf(p1, k1, f1) == NameOf(p2, k2, f2)
       <==> p1 == p2 && Cousins(k1, k2) && f1 == Clash(k1, k2) + f2
  {
    hide KeyOk, Cousins, Prefix;
    FieldsCollide(k1, f1, k2, f2);
    var s, t := k1 + "_" + f1, k2 + "_" + f2;
    assert NameOf(p1, k1, f1) == Prefix(p1) + s;
    assert NameOf(p2, k2, f2) == Prefix(p2) + t;
    if NameOf(p1, k1, f1) == NameOf(p2, k2, f2) {
      SameForm(p1, k1, f1, p2, k2, f2);
      assert (Prefix(p1) + s)[|Prefix(p1)|..] == s;
      assert (Prefix(p1) + t)[|Prefix(p1)|..] == t;
    }
  }

  lemma {:induction false} Start(form: Form, s: string)
    requires form != Single
    ensures |Prefix(form)| == 4 && (Prefix(form) + s)[..4] == Prefix(form)
  {
  }

  lemma {:induction false} FormSeen(form: Form, s: string, k: string, f: string, other: Form)
    requires KeyOk(k) && form != Single && Prefix(form) + s == Prefix(other) + (k + "_" + f)
    ensures form == other
  {
    hide KeyOk;
    Start(form, s);
    NoListPrefix(k, f, form);
    if other != Single {
      Start(other, k + "_" + f);
    }
  }

  lemma {:induction false} SameForm(p1: Form, k1: string, f1: string, p2: Form, k2: string, f2: string)
    requires KeyOk(k1) && KeyOk(k2)
    requires NameOf(p1, k1, f1) == NameOf(p2, k2, f2)
    ensures p1 == p2
  {
    hide KeyOk, Prefix;
    var s, t := k1 + "_" + f1, k2 + "_" + f2;
    assert NameOf(p1, k1, f1) == Prefix(p1) + s;
    assert NameOf(p2, k2, f2) == Prefix(p2) + t;
    if p1 != Single {
      FormSeen(p1, s, k2, f2, p2);
    } else if p2 != Single {
      FormSeen(p2, t, k1, f1, p1);
    }
  }
}
