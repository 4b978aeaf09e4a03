/** The C++ type of a parameter, as a header spells it. */
module CppTypes {
  import opened Options
  import opened Text
  import opened Names

  // ---- the tokens of a type ----------------------------------------------------------------

  /** A character of a name, qualified or not. */
  predicate NameChar(c: char) {
    WordChar(c) || c == ':'
  }

  function NameSpan(s: string): (n: nat)
    ensures n <= |s| && (n < |s| ==> !NameChar(s[n])) && forall i | 0 <= i < n :: NameChar(s[i])
  {
    if s != "" && NameChar(s[0]) then 1 + NameSpan(s[1..]) else 0
  }

  /** Whole names, and every other character that is not white space by itself. */
  function Tokens(s: string): seq<string>
    decreases |s|
  {
    if s == "" then []
    else if IsSpace(s[0]) then Tokens(s[1..])
    else
      var n := if NameChar(s[0]) then NameSpan(s) else 1;
      [s[..n]] + Tokens(s[n..])
  }

  predicate IsTypeName(s: string) {
    s != "" && s != "const" && forall i | 0 <= i < |s| :: NameChar(s[i])
  }

  /** By value, by reference, or by rvalue reference. */
  datatype RefKind = ByValue | LRef | RRef

  /** A named type with its `const` before or after the name, the pointers to it, each `const` or not, and
      how it is passed. */
  datatype CppType = CppType(before: bool, base: string, after: bool, stars: seq<bool>, ref: RefKind)

  function ConstToken(isConst: bool): seq<string> {
    if isConst then ["const"] else []
  }

  function StarTokens(stars: seq<bool>): seq<string> {
    if stars == [] then [] else ["*"] + ConstToken(stars[0]) + StarTokens(stars[1..])
  }

  function RefTokens(ref: RefKind): seq<string> {
    match ref
    case ByValue => []
    case LRef => ["&"]
    case RRef => ["&", "&"]
  }

  function TypeTokens(t: CppType): seq<string> {
    ConstToken(t.before) + [t.base] + ConstToken(t.after) + StarTokens(t.stars) + RefTokens(t.ref)
  }

  /** The text is that type, with any white space between its tokens. */
  predicate SpelledType(ty: string, t: CppType) {
    IsTypeName(t.base) && Tokens(ty) == TypeTokens(t)
  }

  predicate TopConst(t: CppType) {
    if t.stars == [] then t.before || t.after else t.stars[|t.stars| - 1]
  }

  /** Only a variable of that type can be passed. */
  predicate MutableRef(t: CppType) {
    t.ref == LRef && !TopConst(t)
  }

  // ---- a pointer to a database object ------------------------------------------------------

  predicate DbName(s: string) {
    |s| > 2 && s[..2] == "db" && forall i | 0 <= i < |s| :: WordChar(s[i])
  }

  function Without(ts: seq<string>): seq<string> {
    if ts == [] then [] else (if ts[0] == "const" || ts[0] == "&" then [] else [ts[0]]) + Without(ts[1..])
  }

  /** The class pointed to, when the whole type is a pointer to a database class; `const` and `&` are
      dropped before the type is looked at. */
  function PointeeOf(ty: string): Option<string> {
    var ts := Without(Tokens(ty));
    if |ts| == 2 && ts[1] == "*" && DbName(ts[0]) then Some(ts[0]) else None
  }

  // ---- what the text of a type tells -------------------------------------------------------

  lemma {:induction false} TokensWhole(s: string)
    ensures Concat(Tokens(s)) == Squeeze(s)
    decreases |s|
  {
    if s != "" {
      if IsSpace(s[0]) {
        TokensWhole(s[1..]);
      } else {
        var n := if NameChar(s[0]) then NameSpan(s) else 1;
        TokensWhole(s[n..]);
        SolidSqueeze(s[..n]);
        SqueezeAppend(s[..n], s[n..]);
        assert s == s[..n] + s[n..];
        hide Squeeze;
        assert ([s[..n]] + Tokens(s[n..]))[1..] == Tokens(s[n..]);
      }
    }
  }

  lemma {:induction false} SolidSqueeze(s: string)
    requires forall i | 0 <= i < |s| :: !IsSpace(s[i])
    ensures Squeeze(s) == s
  {
    if s != "" {
      SolidSqueeze(s[1..]);
    }
  }

  lemma {:induction false} WordToken(s: string)
    requires IsTypeName(s)
    ensures Tokens(s) == [s]
  {
    SpanWhole(s);
    assert s[|s|..] == "" && s[..|s|] == s;
  }

  lemma {:induction false} SpanWhole(s: string)
    requires forall i | 0 <= i < |s| :: NameChar(s[i])
    ensures NameSpan(s) == |s|
  {
    if s != "" {
      SpanWhole(s[1..]);
    }
  }

  /** The characters of a type in order, without white space. */
  function Compact(t: CppType): string {
    Concat(TypeTokens(t))
  }

  function ConstText(isConst: bool): string {
    if isConst then "const" else ""
  }

  function StarText(stars: seq<bool>): string {
    if stars == [] then "" else "*" + ConstText(stars[0]) + StarText(stars[1..])
  }

  function RefText(ref: RefKind): string {
    match ref
    case ByValue => ""
    case LRef => "&"
    case RRef => "&&"
  }

  lemma {:induction false} OneConcat(s: string)
    ensures Concat([s]) == s
  {
    assert [s][1..] == [];
  }

  lemma {:induction false} ConstConcat(isConst: bool)
    ensures Concat(ConstToken(isConst)) == ConstText(isConst)
  {
    OneConcat("const");
  }

  lemma {:induction false} StarConcat(stars: seq<bool>)
    ensures Concat(StarTokens(stars)) == StarText(stars)
  {
    if stars != [] {
      StarConcat(stars[1..]);
      ConstConcat(stars[0]);
      OneConcat("*");
      ConcatAppend(["*"] + ConstToken(stars[0]), StarTokens(stars[1..]));
      ConcatAppend(["*"], ConstToken(stars[0]));
      hide Concat;
    }
  }

  lemma {:induction false} RefConcat(ref: RefKind)
    ensures Concat(RefTokens(ref)) == RefText(ref)
  {
    OneConcat("&");
    assert ["&", "&"][1..] == ["&"];
  }

  lemma {:induction false} CompactIs(t: CppType)
    ensures Compact(t) == ConstText(t.before) + t.base + ConstText(t.after) + StarText(t.stars) + RefText(t.ref)
  {
    ConstConcat(t.before);
    ConstConcat(t.after);
    StarConcat(t.stars);
    RefConcat(t.ref);
    OneConcat(t.base);
    hide Concat, ConstToken, StarTokens, RefTokens;
    var a := ConstToken(t.before) + [t.base];
    ConcatAppend(ConstToken(t.before), [t.base]);
    ConcatAppend(a, ConstToken(t.after));
    ConcatAppend(a + ConstToken(t.after), StarTokens(t.stars));
    ConcatAppend(a + ConstToken(t.after) + StarTokens(t.stars), RefTokens(t.ref));
  }

  // ---- reading a type off its text ---------------------------------------------------------

  lemma {:induction false} BaseChars(base: string)
    requires IsTypeName(base)
    ensures base != "" && '*' !in base && '&' !in base && forall c | c in base :: !IsSpace(c)
  {
  }

  lemma {:induction false} StarChars(stars: seq<bool>)
    ensures '*' in StarText(stars) <==> stars != []
    ensures '&' !in StarText(stars)
    ensures 'c' !in StarText(stars) ==> forall i | 0 <= i < |stars| :: !stars[i]
    ensures forall c | c in StarText(stars) :: c in "const*"
  {
    if stars != [] {
      StarChars(stars[1..]);
      var rest := StarText(stars[1..]);
      var s := "*" + ConstText(stars[0]) + rest;
      assert s[0] == '*';
      assert forall c | c in rest :: c in s;
      assert stars[0] ==> s[1] == 'c';
    }
  }

  /** Where the characters of a type come from. */
  lemma {:induction false} CharsOf(t: CppType, c: char)
    requires IsTypeName(t.base)
    ensures c in Compact(t)
       <==> (c in "const" && (t.before || t.after)) || c in t.base || c in StarText(t.stars) || c in RefText(t.ref)
  {
    CompactIs(t);
    hide StarText, RefText, IsTypeName, Compact;
  }

  /** Characters of its own tell whether a type has a name with them, pointers, a reference or a `const`. */
  lemma {:induction false} CharsTell(t: CppType)
    requires IsTypeName(t.base)
    ensures '*' in Compact(t) <==> t.stars != []
    ensures '&' in Compact(t) <==> t.ref != ByValue
    ensures 'c' !in Compact(t) ==> !t.before && !t.after && forall i | 0 <= i < |t.stars| :: !t.stars[i]
    ensures forall c | c !in "const*&" :: c in Compact(t) <==> c in t.base
  {
    BaseChars(t.base);
    StarChars(t.stars);
    CharsOf(t, '*');
    CharsOf(t, '&');
    CharsOf(t, 'c');
    assert "const"[0] == 'c' && '*' !in "const" && '&' !in "const";
    hide IsTypeName, Compact;
    forall c | c !in "const*&" ensures c in Compact(t) <==> c in t.base {
      CharsOf(t, c);
      assert forall i | 0 <= i < 5 :: "const"[i] == "const*&"[i];
      assert forall i | 0 <= i < 6 :: "const*"[i] == "const*&"[i];
      assert "const*&"[6] == '&';
    }
  }

  lemma {:induction false} BareType(t: CppType)
    requires IsTypeName(t.base) && 'c' !in Compact(t) && '*' !in Compact(t) && '&' !in Compact(t)
    ensures t == CppType(false, Compact(t), false, [], ByValue)
  {
    CharsTell(t);
    CompactIs(t);
    hide Compact;
    assert "" + t.base + "" + "" + "" == t.base;
  }

  lemma {:induction false} TwoRefs(x: string, ref: RefKind)
    ensures var s := x + RefText(ref); ref == RRef ==> |s| > 1 && s[|s| - 2] == '&'
  {
  }

  lemma {:induction false} ConstLast(x: string, isConst: bool)
    ensures var s := x + ConstText(isConst); isConst ==> s[|s| - 1] == 't'
  {
  }

  lemma {:induction false} ConstFirst(isConst: bool, x: string)
    ensures var s := ConstText(isConst) + x; isConst ==> |s| > 1 && s[1] == 'o'
  {
  }

  lemma {:induction false} OnlyLast(s: string, k: nat)
    requires k < |s| && s[k] == '*' && '*' !in s[..|s| - 1]
    ensures k == |s| - 1
  {
    assert forall i | 0 <= i < |s| - 1 :: s[i] == s[..|s| - 1][i];
  }

  /** A type whose text ends in a reference, and nothing else of it does. */
  lemma {:induction false} RefType(t: CppType)
    requires IsTypeName(t.base) && '*' !in Compact(t)
    requires var s := Compact(t); |s| > 1 && s[|s| - 1] == '&' && s[|s| - 2] == 'g'
    ensures t.stars == [] && t.ref == LRef && !t.after && Compact(t) == ConstText(t.before) + t.base + "&"
  {
    CharsTell(t);
    CompactIs(t);
    hide Compact;
    var s, x := Compact(t), ConstText(t.before) + t.base + ConstText(t.after);
    assert s == x + "" + RefText(t.ref) == x + RefText(t.ref);
    assert '&' in s;
    TwoRefs(x, t.ref);
    assert s == x + "&" && s[|s| - 2] == x[|x| - 1];
    ConstLast(ConstText(t.before) + t.base, t.after);
    assert ConstText(t.before) + t.base + "" == ConstText(t.before) + t.base;
  }

  lemma {:induction false} StringForms(t: CppType)
    requires IsTypeName(t.base)
    ensures Compact(t) == "std::string" ==> t == CppType(false, "std::string", false, [], ByValue)
    ensures Compact(t) == "std::string&" ==> MutableRef(t)
    ensures Compact(t) == "conststd::string&" ==>
              if t.before then t == CppType(true, "std::string", false, [], LRef) else MutableRef(t)
  {
    hide Compact;
    if Compact(t) == "std::string" {
      BareType(t);
    }
    if Compact(t) == "std::string&" {
      CharsTell(t);
      RefType(t);
    }
    if Compact(t) == "conststd::string&" {
      RefType(t);
      assert "const" + "std::string" + "&" == "conststd::string&";
      hide *;
      if t.before {
        assert ConstText(true) == "const" by { ConstIs(); }
        CutOut("const", t.base, "std::string", "&");
      } else {
        NoConstRef(t);
      }
    }
  }

  lemma {:induction false} ConstIs()
    ensures ConstText(true) == "const"
  {
  }

  lemma {:induction false} NoConstRef(t: CppType)
    requires t.stars == [] && t.ref == LRef && !t.before && !t.after
    ensures MutableRef(t)
  {
  }

  lemma {:induction false} OneStar(x: string, stars: seq<bool>)
    requires stars != []
    requires var s := x + StarText(stars); s[|s| - 1] == '*' && '*' !in s[..|s| - 1]
    ensures stars == [false] && x + StarText(stars) == x + "*"
  {
    var s, rest := x + StarText(stars), ConstText(stars[0]) + StarText(stars[1..]);
    assert StarText(stars) == "*" + rest && s[|x|] == '*';
    OnlyLast(s, |x|);
    assert rest == "";
    StarChars(stars[1..]);
    assert stars[1..] == [] && !stars[0];
  }

  /** A type whose text ends in the only star of it. */
  lemma {:induction false} PointerType(t: CppType)
    requires IsTypeName(t.base) && '&' !in Compact(t)
    requires var s := Compact(t); |s| > 1 && s[|s| - 1] == '*' && '*' !in s[..|s| - 1] && s[|s| - 2] == 'r'
    ensures t.stars == [false] && t.ref == ByValue && !t.after && Compact(t) == ConstText(t.before) + t.base + "*"
  {
    CharsTell(t);
    CompactIs(t);
    var s, y := Compact(t), ConstText(t.before) + t.base;
    var x := y + ConstText(t.after);
    hide Compact, StarText, IsTypeName;
    assert '*' in s by { assert s[|s| - 1] == '*'; }
    assert s == x + StarText(t.stars) + "" == x + StarText(t.stars);
    OneStar(x, t.stars);
    assert s[|s| - 2] == x[|x| - 1];
    ConstLast(y, t.after);
    assert y + "" == y;
  }

  lemma {:induction false} CutOut(p: string, x: string, y: string, q: string)
    requires p + x + q == p + y + q
    ensures x == y
  {
    assert |x| == |y|;
    assert (p + x + q)[|p|..|p| + |x|] == x && (p + y + q)[|p|..|p| + |x|] == y;
  }

  lemma {:induction false} CharForms(t: CppType)
    requires IsTypeName(t.base)
    ensures Compact(t) == "char*" ==> t == CppType(false, "char", false, [false], ByValue)
    ensures Compact(t) == "constchar*" ==>
              t == CppType(t.before, if t.before then "char" else "constchar", false, [false], ByValue)
  {
    hide Compact;
    if Compact(t) == "char*" {
      PointerType(t);
      ConstFirst(t.before, t.base + "*");
      assert ConstText(t.before) + t.base + "*" == ConstText(t.before) + (t.base + "*");
      var s := t.base + "*";
      assert "" + t.base + "*" == s && s[..|s| - 1] == t.base && "char*"[..4] == "char";
    }
    if Compact(t) == "constchar*" {
      PointerType(t);
      assert "const" + "char" + "*" == "constchar*" && "" + "constchar" + "*" == "constchar*";
      CutOut(ConstText(t.before), t.base, if t.before then "char" else "constchar", "*");
    }
  }

  lemma {:induction false} StarCount(stars: seq<bool>)
    ensures |StarTokens(stars)| >= |stars|
  {
    if stars != [] {
      StarCount(stars[1..]);
    }
  }

  lemma {:induction false} WordType(ty: string, t: CppType)
    requires IsTypeName(ty) && SpelledType(ty, t)
    ensures t == CppType(false, ty, false, [], ByValue)
  {
    WordToken(ty);
    StarCount(t.stars);
    hide Tokens, StarTokens, IsTypeName;
    assert |TypeTokens(t)| == |ConstToken(t.before)| + 1 + |ConstToken(t.after)| + |StarTokens(t.stars)|
                              + |RefTokens(t.ref)|;
    assert t.stars == [];
    assert !t.before && !t.after && t.ref == ByValue;
    assert TypeTokens(t)[0] == t.base;
  }

  lemma {:induction false} WithoutAdds(a: seq<string>, b: seq<string>)
    ensures Without(a + b) == Without(a) + Without(b)
  {
    if a == [] {
      assert a + b == b;
    } else {
      assert (a + b)[1..] == a[1..] + b;
      WithoutAdds(a[1..], b);
    }
  }

  lemma {:induction false} WithoutStars(stars: seq<bool>)
    ensures |Without(StarTokens(stars))| == |stars|
  {
    if stars != [] {
      WithoutStars(stars[1..]);
      WithoutAdds(["*"] + ConstToken(stars[0]), StarTokens(stars[1..]));
      WithoutAdds(["*"], ConstToken(stars[0]));
      WithoutOne("*");
      WithoutOne("const");
    }
  }

  lemma {:induction false} WithoutOne(x: string)
    ensures Without([x]) == if x == "const" || x == "&" then [] else [x]
  {
    assert [x][1..] == [];
  }

  lemma {:induction false} WithoutType(t: CppType)
    requires IsTypeName(t.base)
    ensures var ts := Without(TypeTokens(t)); |ts| == 1 + |t.stars| && ts[0] == t.base
  {
    BaseChars(t.base);
    assert t.base != "const" && t.base != "&" by { assert t.base == "&" ==> '&' in t.base; }
    WithoutOne(t.base);
    WithoutOne("const");
    WithoutOne("&");
    WithoutStars(t.stars);
    WithoutRef(t.ref);
    var a, b, c := ConstToken(t.before), ConstToken(t.after), StarTokens(t.stars);
    WithoutAdds(a, [t.base]);
    WithoutAdds(a + [t.base], b);
    WithoutAdds(a + [t.base] + b, c);
    WithoutAdds(a + [t.base] + b + c, RefTokens(t.ref));
    hide Without, StarTokens, RefTokens, IsTypeName;
  }

  lemma {:induction false} WithoutRef(ref: RefKind)
    ensures Without(RefTokens(ref)) == []
  {
    WithoutOne("&");
    assert ["&", "&"][1..] == ["&"];
  }

  /** The class that a pointer type names is its base, and there is one star. */
  lemma {:induction false} PointerForms(ty: string, t: CppType)
    requires SpelledType(ty, t) && PointeeOf(ty).Some?
    ensures t.base == PointeeOf(ty).value && |t.stars| == 1 && DbName(t.base)
  {
    WithoutType(t);
    hide Without, TypeTokens, Tokens, DbName, IsTypeName;
  }

  lemma {:induction false} SpanStops(w: string, t: string)
    requires (forall i | 0 <= i < |w| :: NameChar(w[i])) && t != "" && !NameChar(t[0])
    ensures NameSpan(w + t) == |w|
  {
    if w == "" {
      assert w + t == t;
    } else {
      assert (w + t)[1..] == w[1..] + t && (w + t)[0] == w[0];
      SpanStops(w[1..], t);
    }
  }

  /** A name and a reference to it. */
  lemma {:induction false} RefSpelled(w: string)
    requires IsTypeName(w)
    ensures SpelledType(w + "&", CppType(false, w, false, [], LRef))
  {
    var s := w + "&";
    SpanStops(w, "&");
    assert s[..|w|] == w && s[|w|..] == "&" && s[0] == w[0];
    assert "&"[1..] == "" && "&"[..1] == "&" && Tokens("&") == ["&"] + Tokens("");
    assert Tokens(s) == [w] + ["&"];
    assert [] + [w] + [] + [] + ["&"] == [w] + ["&"];
  }
}
