/** Which setters must be bound, and how each of their parameters is passed: the decision of `add_setter` and
    of the marshalling of a parameter, over the text of its type. */
module SetterRules {
  import opened Options
  import opened Text
  import opened Names
  import opened CppTypes
  import opened Targets
  import opened Bindings
  import opened EmitLaws
  import opened TypeTexts
  import opened Readers
  import opened Setters

  // ---- a pointer to a database class -------------------------------------------------------

  predicate InName(c: char) {
    Letter(c) || '0' <= c <= '9' || c == ':'
  }

  lemma {:induction false} InNameIs(c: char)
    ensures InName(c) <==> NameChar(c)
  {
  }

  /** White space, references, and the word `const`. */
  predicate Filler(s: string)
    decreases |s|
  {
    || s == ""
    || ((IsSpace(s[0]) || s[0] == '&') && Filler(s[1..]))
    || (|s| >= 5 && s[..5] == "const" && (|s| > 5 ==> !InName(s[5])) && Filler(s[5..]))
  }

  /** `db` and more letters, digits and underscores. */
  predicate DbWord(s: string) {
    && |s| > 2 && s[0] == 'd' && s[1] == 'b'
    && forall i | 0 <= i < |s| :: Letter(s[i]) || '0' <= s[i] <= '9'
  }

  /** The class, a star, and nothing but filler before, between and after. */
  predicate PointerParts(ty: string, cls: string, f: string, g: string, h: string) {
    && ty == f + cls + g + "*" + h && Filler(f) && Filler(g) && Filler(h) && DbWord(cls)
    && (f != "" ==> !InName(f[|f| - 1])) && (g != "" ==> !InName(g[0]))
  }

  ghost predicate PointerTo(ty: string, cls: string) {
    exists f, g, h :: PointerParts(ty, cls, f, g, h)
  }

  lemma {:induction false} DbWordIs(s: string)
    ensures DbWord(s) <==> DbName(s)
  {
    if |s| > 2 {
      assert s[..2] == [s[0], s[1]];
      assert "db" == ['d', 'b'];
    }
  }

  /** One step of the tokens of a text. */
  lemma {:induction false} NameToken(w: string, r: string)
    requires w != "" && (forall i | 0 <= i < |w| :: NameChar(w[i])) && (r != "" ==> !NameChar(r[0]))
    ensures Tokens(w + r) == [w] + Tokens(r)
  {
    var s := w + r;
    NameSolid(w[0]);
    if r == "" {
      assert s == w;
      SpanWhole(w);
    } else {
      SpanStops(w, r);
    }
    assert s[0] == w[0] && s[..|w|] == w && s[|w|..] == r;
  }

  lemma {:induction false} NameSolid(c: char)
    requires NameChar(c)
    ensures !IsSpace(c) && c != '&' && c != '*'
  {
  }

  lemma {:induction false} MarkToken(c: char, r: string)
    requires !NameChar(c) && !IsSpace(c)
    ensures Tokens([c] + r) == [[c]] + Tokens(r)
  {
    var s := [c] + r;
    assert s[..1] == [c] && s[1..] == r;
  }

  lemma {:induction false} ConstChars()
    ensures |"const"| == 5 && forall i | 0 <= i < 5 :: NameChar("const"[i])
  {
  }

  lemma {:induction false} WithoutCons(t: string, ts: seq<string>)
    ensures Without([t] + ts) == (if t == "const" || t == "&" then [] else [t]) + Without(ts)
  {
    assert ([t] + ts)[1..] == ts;
  }

  lemma {:induction false} FillerDrops(f: string, r: string)
    requires Filler(f) && (f != "" && r != "" ==> !(InName(f[|f| - 1]) && InName(r[0])))
    ensures Without(Tokens(f + r)) == Without(Tokens(r))
    decreases |f|
  {
    hide Tokens, Without, InName, NameChar;
    if f == "" {
      assert f + r == r;
    } else if (IsSpace(f[0]) || f[0] == '&') && Filler(f[1..]) {
      var more := f[1..] + r;
      assert f + r == [f[0]] + more;
      FillerDrops(f[1..], r);
      if IsSpace(f[0]) {
        SpaceToken(f[0], more);
      } else {
        AmpersandToken(more);
      }
    } else {
      var k, more := f[..5], f[5..] + r;
      assert f + r == k + more;
      ConstChars();
      FillerDrops(f[5..], r);
      assert more != "" ==> !NameChar(more[0]) by {
        if more != "" {
          InNameIs(more[0]);
          InNameIs(f[4]);
          if |f| == 5 {
            assert f[4] == k[4] && InName(f[|f| - 1]);
          }
        }
      }
      NameToken(k, more);
      WithoutCons("const", Tokens(more));
    }
  }

  lemma {:induction false} SpaceToken(c: char, r: string)
    requires IsSpace(c)
    ensures Tokens([c] + r) == Tokens(r)
  {
    assert ([c] + r)[1..] == r;
  }

  lemma {:induction false} AmpersandToken(r: string)
    ensures Without(Tokens(['&'] + r)) == Without(Tokens(r))
  {
    MarkToken('&', r);
    WithoutCons("&", Tokens(r));
    hide Tokens, Without;
    assert "&" == ['&'];
  }

  /** A text is cut after its first token, or its first white space. */
  lemma {:induction false} CutToken(s: string) returns (t: string, rest: string)
    requires s != ""
    ensures s == t + rest && t != "" && t[0] == s[0]
    ensures IsSpace(s[0]) ==> Tokens(s) == Tokens(rest)
    ensures !IsSpace(s[0]) ==> Tokens(s) == [t] + Tokens(rest)
    ensures NameChar(s[0]) ==> (forall i | 0 <= i < |t| :: NameChar(t[i])) && (rest != "" ==> !NameChar(rest[0]))
    ensures !NameChar(s[0]) ==> t == [s[0]]
  {
    var n := if NameChar(s[0]) then NameSpan(s) else 1;
    if NameChar(s[0]) {
      NameSolid(s[0]);
      SomeSpan(s);
    }
    t, rest := s[..n], s[n..];
  }

  lemma {:induction false} SomeSpan(s: string)
    requires s != "" && NameChar(s[0])
    ensures NameSpan(s) > 0
  {
  }

  /** What is found at the start of a text: filler, then the first token that is kept, then the rest. */
  predicate FoundToken(s: string, f: string, x: string, r: string) {
    && Filler(f)
    && (Without(Tokens(s)) == [] ==> f == s)
    && (Without(Tokens(s)) != [] ==>
          && s == f + x + r && Without(Tokens(s)) == [x] + Without(Tokens(r)) && x != ""
          && (f != "" ==> !(InName(f[|f| - 1]) && InName(x[0])))
          && (InName(x[0]) && r != "" ==> !InName(r[0])))
  }

  lemma {:induction false} FirstToken(s: string) returns (f: string, x: string, r: string)
    ensures FoundToken(s, f, x, r)
    decreases |s|
  {
    hide Without, FoundToken, Tokens, InName, NameChar, Filler;
    if s == "" {
      f, x, r := "", "", "";
      NothingFound();
    } else {
      var t, rest := CutToken(s);
      if IsSpace(s[0]) || s[0] == '&' {
        var g;
        g, x, r := FirstToken(rest);
        MarkOnly(s[0]);
        SkipOne(s, rest, g, x, r);
        f := [s[0]] + g;
      } else if t == "const" {
        var g;
        g, x, r := FirstToken(rest);
        ConstNamed(s, t);
        SkipConst(s, rest, g, x, r);
        f := "const" + g;
      } else {
        f, x, r := "", t, rest;
        KeepToken(s, t, rest);
      }
    }
  }

  lemma {:induction false} MarkOnly(c: char)
    requires IsSpace(c) || c == '&'
    ensures !NameChar(c)
  {
  }

  lemma {:induction false} ConstNamed(s: string, t: string)
    requires t == "const" && s != "" && t[0] == s[0]
    ensures NameChar(s[0])
  {
    assert "const"[0] == 'c';
  }

  lemma {:induction false} NoTokens()
    ensures Without(Tokens("")) == []
  {
  }

  lemma {:induction false} NothingFound()
    ensures FoundToken("", "", "", "")
  {
  }

  lemma {:induction false} SkipOne(s: string, rest: string, g: string, x: string, r: string)
    requires s != "" && s == [s[0]] + rest && (IsSpace(s[0]) || s[0] == '&') && FoundToken(rest, g, x, r)
    ensures FoundToken(s, [s[0]] + g, x, r)
  {
    MarkOnly(s[0]);
    InNameIs(s[0]);
    var f := [s[0]] + g;
    assert f[1..] == g;
    assert Without(Tokens(s)) == Without(Tokens(rest)) by {
      if IsSpace(s[0]) {
        SpaceToken(s[0], rest);
      } else {
        AmpersandToken(rest);
      }
    }
    hide Without, Tokens, InName;
    if Without(Tokens(rest)) != [] {
      assert [s[0]] + (g + x + r) == [s[0]] + g + x + r;
    }
  }

  lemma {:induction false} SkipConst(s: string, rest: string, g: string, x: string, r: string)
    requires s == "const" + rest && Tokens(s) == ["const"] + Tokens(rest) && FoundToken(rest, g, x, r)
    requires rest != "" ==> !NameChar(rest[0])
    ensures FoundToken(s, "const" + g, x, r)
  {
    var f := "const" + g;
    assert f[..5] == "const" && f[5..] == g;
    WithoutCons("const", Tokens(rest));
    if rest != "" {
      InNameIs(rest[0]);
    }
    hide Without, Tokens, InName;
    if Without(Tokens(rest)) != [] {
      assert rest[0] == (g + x + r)[0];
      assert "const" + (g + x + r) == "const" + g + x + r;
    }
  }

  lemma {:induction false} KeepToken(s: string, t: string, rest: string)
    requires s == t + rest && t != "" && Tokens(s) == [t] + Tokens(rest) && t[0] != '&' && t != "const"
    requires NameChar(t[0]) && rest != "" ==> !NameChar(rest[0])
    ensures FoundToken(s, "", t, rest)
  {
    WithoutCons(t, Tokens(rest));
    InNameIs(t[0]);
    if rest != "" {
      InNameIs(rest[0]);
    }
    hide Without, Tokens, InName;
    assert "&" == ['&'];
    assert "" + t + rest == s;
  }

  // ---- the class pointed to ----------------------------------------------------------------

  lemma {:induction false} DbWordNamed(cls: string)
    requires DbWord(cls)
    ensures forall i | 0 <= i < |cls| :: NameChar(cls[i]) && InName(cls[i])
    ensures cls != "const" && cls != "&" && cls != ""
  {
    assert "const"[0] == 'c';
  }

  lemma {:induction false} PointerRead(ty: string, cls: string, f: string, g: string, h: string)
    requires PointerParts(ty, cls, f, g, h)
    ensures Without(Tokens(ty)) == [cls] + ["*"]
  {
    var star, after := "*" + h, g + ("*" + h);
    DbWordNamed(cls);
    assert ty == f + (cls + after);
    FillerDrops(f, cls + after);
    assert after[0] == if g == "" then '*' else g[0];
    assert !NameChar(after[0]) by {
      InNameIs(after[0]);
    }
    hide Tokens, Without, InName, NameChar, Filler;
    NameToken(cls, after);
    WithoutCons(cls, Tokens(after));
    FillerDrops(g, star) by {
      StarMark(h);
    }
    StarMark(h);
    MarkToken('*', h);
    WithoutCons("*", Tokens(h));
    FillerDrops(h, "");
    NoTokens();
    assert h + "" == h && "*" == ['*'];
    assert ["*"] + [] == ["*"];
  }

  lemma {:induction false} StarMark(h: string)
    ensures ("*" + h)[0] == '*' && !InName('*') && !NameChar('*') && !IsSpace('*')
  {
  }

  /** The first kept token of a text, and where it stands. */
  lemma {:induction false} TokenFound(s: string, x: string, more: seq<string>) returns (f: string, r: string)
    requires Without(Tokens(s)) == [x] + more
    ensures s == f + x + r && x != "" && Filler(f) && Without(Tokens(r)) == more
    ensures f != "" ==> !(InName(f[|f| - 1]) && InName(x[0]))
    ensures InName(x[0]) && r != "" ==> !InName(r[0])
  {
    hide Tokens, Without, Filler, InName, NameChar;
    var y;
    f, y, r := FirstToken(s);
    assert ([x] + more)[0] == x && ([x] + more)[1..] == more;
    assert ([y] + Without(Tokens(r)))[0] == y && ([y] + Without(Tokens(r)))[1..] == Without(Tokens(r));
  }

  lemma {:induction false} NoneFound(s: string)
    requires Without(Tokens(s)) == []
    ensures Filler(s)
  {
    hide Tokens, Without, Filler;
    var f, _, _ := FirstToken(s);
  }

  lemma {:induction false} PointerFound(ty: string, cls: string)
    requires Without(Tokens(ty)) == [cls] + ["*"] && DbWord(cls)
    ensures PointerTo(ty, cls)
  {
    DbWordNamed(cls);
    hide Tokens, Without, Filler, InName, NameChar, DbWord;
    var f, r := TokenFound(ty, cls, ["*"]);
    assert ["*"] == ["*"] + [];
    var g, h := TokenFound(r, "*", []);
    NoneFound(h);
    hide *;
    PointerJoined(ty, cls, f, r, g, h);
  }

  lemma {:induction false} PointerJoined(ty: string, cls: string, f: string, r: string, g: string, h: string)
    requires ty == f + cls + r && r == g + "*" + h && Filler(f) && Filler(g) && Filler(h) && DbWord(cls)
    requires (f != "" ==> !InName(f[|f| - 1])) && (r != "" ==> !InName(r[0]))
    ensures PointerTo(ty, cls)
  {
    hide Filler, InName, DbWord;
    assert ty == f + cls + g + "*" + h;
    assert g != "" ==> r[0] == g[0];
    assert PointerParts(ty, cls, f, g, h);
  }

  /** A type points to a database class if and only if it is that class and one star, `const` and references
      aside. */
  lemma {:induction false} PointeeIs(ty: string, cls: string)
    ensures PointeeOf(ty) == Some(cls) <==> PointerTo(ty, cls)
  {
    DbWordIs(cls);
    if PointeeOf(ty) == Some(cls) {
      var ts := Without(Tokens(ty));
      assert ts == [ts[0]] + [ts[1]];
      PointerFound(ty, cls);
    }
    forall f, g, h | PointerParts(ty, cls, f, g, h) ensures PointeeOf(ty) == Some(cls) {
      PointerRead(ty, cls, f, g, h);
    }
    hide Tokens, Without, Filler;
  }

  // ---- a geometry struct -------------------------------------------------------------------

  /** Without its blanks: letters of the word `const` to start with, references, a name, references; and the
      name, without any `const` in it, is the struct's. */
  predicate StructSpelled(ty: string, base: string, a: string, b: string, core: string, c: string) {
    && Dense(ty) == a + b + core + c
    && AllIn(a, "const") && (b + core + c == "" || (b + core + c)[0] !in "const")
    && AllIn(b, "&") && AllIn(c, "&")
    && (core == "" || (core[0] != '&' && core[|core| - 1] != '&'))
    && Replace(core, "const", "") == base
  }

  ghost predicate StructParam(ty: string, base: string) {
    exists a, b, core, c :: StructSpelled(ty, base, a, b, core, c)
  }

  lemma {:induction false} StructRead(ty: string, base: string, a: string, b: string, core: string, c: string)
    requires base != "" && StructSpelled(ty, base, a, b, core, c)
    ensures StructName(ty) == base
  {
    DenseIs(ty);
    assert core != "" by { EmptyKept(); }
    assert "&" == ['&'];
    assert Dense(ty) == a + (b + core + c);
    LStripSetIs(a, b + core + c, "const");
    RStripSetIs(b + core, c, "&");
    LStripSetIs(b, core, "&");
    hide LStripSet, RStripSet, Replace, Norm, Dense;
  }

  lemma {:induction false} EmptyKept()
    ensures Replace("", "const", "") == ""
  {
  }

  lemma {:induction false} StructFound(ty: string)
    ensures StructParam(ty, StructName(ty))
  {
    DenseIs(ty);
    var n := Norm(ty);
    var a := LStripSetSplits(n, "const");
    var y := LStripSet(n, "const");
    var c := RStripSetSplits(y, "&");
    var z := RStripSet(y, "&");
    var b := LStripSetSplits(z, "&");
    var core := LStripSet(z, "&");
    assert StructName(ty) == Replace(core, "const", "");
    assert "&" == ['&'];
    hide *;
    StructJoined(ty, StructName(ty), a, b, core, c, y, z);
  }

  lemma {:induction false} StructJoined(ty: string, base: string, a: string, b: string, core: string, c: string,
                                        y: string, z: string)
    requires Dense(ty) == a + y && y == z + c && z == b + core && Replace(core, "const", "") == base
    requires AllIn(a, "const") && (y == "" || y[0] !in "const") && AllIn(b, "&") && AllIn(c, "&")
    requires (z == "" || z[|z| - 1] !in ['&']) && (core == "" || core[0] !in ['&'])
    ensures StructParam(ty, base)
  {
    hide Dense, Replace, AllIn;
    assert core != "" ==> z[|z| - 1] == core[|core| - 1];
    assert a + (b + core + c) == a + b + core + c;
    assert StructSpelled(ty, base, a, b, core, c);
  }

  /** The struct that the marshaller works out is the one the type is spelled with. */
  lemma {:induction false} StructNameIs(ty: string, base: string)
    requires base != ""
    ensures StructName(ty) == base <==> StructParam(ty, base)
  {
    hide StructName;
    StructFound(ty);
    forall a, b, core, c | StructSpelled(ty, base, a, b, core, c) ensures StructName(ty) == base {
      StructRead(ty, base, a, b, core, c);
    }
  }

  // ---- how a parameter is passed -----------------------------------------------------------

  predicate ScalarParam(t: string, c: CTy, r: RTy) {
    || (t in {"int", "int32_t"} && c == CInt32 && r == RI32)
    || (t in {"uint", "uint32_t", "unsigned"} && c == CUint32 && r == RU32)
    || (t == "int64_t" && c == CInt64 && r == RI64)
    || (t == "uint64_t" && c == CUint64 && r == RU64)
    || (t == "bool" && c == CBool && r == RBool)
    || (t == "float" && c == CFloat && r == RF32)
    || (t == "double" && c == CDouble && r == RF64)
  }

  /** An object of a class that the table addresses by one name is passed by that name. */
  ghost predicate ObjectParam(tbl: seq<Spec>, ty: string, m: Marshal) {
    exists cls, i: nat ::
      && PointerTo(ty, cls) && RowOf(tbl, cls, i) && |tbl[i].args| == 1 && tbl[i].args[0].Named?
      && m == One(CStr, RStr, FObject(tbl[i].resolver, cls))
  }

  /** A struct goes in as its components; a scalar as it is; a text, characters, an enum that is spelled, and
      an object each as one text. */
  ghost predicate PassedAs(tbl: seq<Spec>, ty: string, m: Marshal) {
    if StructParam(ty, "Point3D") then m == Expand("odb::Point3D", ["x", "y", "z"])
    else if StructParam(ty, "Point") then m == Expand("odb::Point", ["x", "y"])
    else if exists c, r :: ScalarParam(Dense(ty), c, r) then
      m.One? && m.form == FPlain && ScalarParam(Dense(ty), m.c, m.r)
    else if Dense(ty) in {"std::string", "conststd::string&", "std::string&"} then m == One(CStr, RStr, FString)
    else if Dense(ty) in {"constchar*", "char*"} then m == One(CStr, RStr, FChars)
    else if SpellingEnum(ty) then m == One(CStr, RStr, FEnum(ty))
    else ObjectParam(tbl, ty, m)
  }

  lemma {:induction false} ScalarParamIs(t: string, c: CTy, r: RTy)
    ensures ScalarParam(t, c, r) <==> ScalarIn(t) == Some((c, r))
  {
    assert "bool"[0] == 'b' && "uint"[0] == 'u';
  }

  lemma {:induction false} ObjectIs(tbl: seq<Spec>, ty: string, m: Marshal)
    ensures MarshalPointer(tbl, ty) == Some(m) <==> ObjectParam(tbl, ty, m)
  {
    forall cls ensures PointeeOf(ty) == Some(cls) <==> PointerTo(ty, cls) {
      PointeeIs(ty, cls);
    }
    if PointeeOf(ty).Some? {
      FindIs(tbl, PointeeOf(ty).value);
    }
    hide PointeeOf, PointerTo, FindSpec;
  }

  lemma {:induction false} ValuePassed(ty: string, m: Marshal)
    ensures MarshalValue(ty) == Some(m)
       <==> if exists c, r :: ScalarParam(Dense(ty), c, r) then
              m.One? && m.form == FPlain && ScalarParam(Dense(ty), m.c, m.r)
            else if Dense(ty) in {"std::string", "conststd::string&", "std::string&"} then m == One(CStr, RStr, FString)
            else if Dense(ty) in {"constchar*", "char*"} then m == One(CStr, RStr, FChars)
            else SpellingEnum(ty) && m == One(CStr, RStr, FEnum(ty))
    ensures MarshalValue(ty).None?
       <==> && (forall c, r :: !ScalarParam(Dense(ty), c, r)) && !SpellingEnum(ty)
            && Dense(ty) !in {"std::string", "conststd::string&", "std::string&", "constchar*", "char*"}
  {
    DenseIs(ty);
    EnumIs(ty);
    var t := Norm(ty);
    forall c, r ensures ScalarParam(t, c, r) <==> ScalarIn(t) == Some((c, r)) {
      ScalarParamIs(t, c, r);
    }
    hide Norm, Dense, ScalarIn, ScalarParam, ENUMS, SpellingEnum;
    assert ScalarIn(t).Some? ==> ScalarParam(t, ScalarIn(t).value.0, ScalarIn(t).value.1);
  }

  /** A parameter is passed as the row of its type's text says, and not at all when there is none. */
  lemma {:induction false} PassedExactly(tbl: seq<Spec>, p: Param, m: Marshal)
    ensures MarshalParam(tbl, p) == Some(m) <==> PassedAs(tbl, p.ty, m)
  {
    StructNameIs(p.ty, "Point3D");
    StructNameIs(p.ty, "Point");
    ValuePassed(p.ty, m);
    ObjectIs(tbl, p.ty, m);
    StructTable(StructName(p.ty));
    hide StructName, StructParam, MarshalValue, MarshalPointer, ObjectParam, Dense, ScalarParam, SpellingEnum,
           STRUCT_IN;
  }

  lemma {:induction false} StructTable(base: string)
    ensures base in STRUCT_IN <==> base == "Point" || base == "Point3D"
    ensures STRUCT_IN["Point"] == ("odb::Point", ["x", "y"]) && "Point" != "Point3D"
    ensures STRUCT_IN["Point3D"] == ("odb::Point3D", ["x", "y", "z"])
  {
    assert |"Point"| == 5;
  }

  // ---- which setters are bound -------------------------------------------------------------

  predicate ChangesByName(name: string) {
    || (|name| >= 3 && name[0] == 's' && name[1] == 'e' && name[2] == 't')
    || (|name| >= 5 && name[0] == 'c' && name[1] == 'l' && name[2] == 'e' && name[3] == 'a' && name[4] == 'r')
  }

  lemma {:induction false} ChangesIs(name: string)
    ensures IsSetterName(name) <==> ChangesByName(name)
  {
    assert "set" == ['s', 'e', 't'] && "clear" == ['c', 'l', 'e', 'a', 'r'];
    if |name| >= 3 {
      assert name[..3] == [name[0], name[1], name[2]];
    }
    if |name| >= 5 {
      assert name[..5] == [name[0], name[1], name[2], name[3], name[4]];
    }
  }

  /** The method's name starts with `set` or `clear`, it is not withheld from the class, its own name is free,
      and there is a way to pass every parameter. */
  ghost predicate CanSet(ctx: Ctx, spec: Spec, m: Method, seen: set<string>) {
    && ChangesByName(m.name) && m.name !in spec.withheld
    && IsFree(ctx, seen, spec.key + "_" + Snake(m.name))
    && forall i | 0 <= i < |m.params| :: Passable(ctx.table, m.params[i].ty)
  }

  ghost predicate Passable(tbl: seq<Spec>, ty: string) {
    exists w: Marshal :: PassedAs(tbl, ty, w)
  }

  lemma {:induction false} PassableIs(tbl: seq<Spec>, p: Param)
    ensures MarshalParam(tbl, p).Some? <==> Passable(tbl, p.ty)
  {
    forall w: Marshal ensures MarshalParam(tbl, p) == Some(w) <==> PassedAs(tbl, p.ty, w) {
      PassedExactly(tbl, p, w);
    }
    hide PassedAs, MarshalParam;
    if MarshalParam(tbl, p).Some? {
      assert PassedAs(tbl, p.ty, MarshalParam(tbl, p).value);
    }
  }

  lemma {:induction false} AllPassed(tbl: seq<Spec>, ps: seq<Param>)
    ensures MarshalAll(tbl, ps).Some? <==> forall i | 0 <= i < |ps| :: Passable(tbl, ps[i].ty)
  {
    hide Passable, MarshalParam;
    if ps != [] {
      var more := ps[1..];
      AllPassed(tbl, more);
      PassableIs(tbl, ps[0]);
      assert forall i | 0 <= i < |more| :: more[i] == ps[i + 1];
      assert forall i | 1 <= i < |ps| :: ps[i] == more[i - 1];
    }
  }

  /** `add_setter` binds exactly the methods that can be set. */
  lemma {:induction false} SetterExactly(ctx: Ctx, spec: Spec, m: Method, seen: set<string>)
    ensures Binds(ctx, spec, m, seen) <==> CanSet(ctx, spec, m, seen)
  {
    FnIs(spec, m);
    ChangesIs(m.name);
    AllPassed(ctx.table, m.params);
    hide NameOf, Snake, IsSetterName, ChangesByName, MarshalAll, Passable;
  }

  // ---- how the parameters are named --------------------------------------------------------

  /** The reserved words of Rust. */
  predicate Keyword(w: string) {
    || w in {"type", "match", "move", "ref", "box", "fn", "let", "mut", "self", "use", "mod", "impl", "as", "in"}
    || w in {"loop", "if", "else", "for", "while", "const", "static", "trait", "where", "enum", "struct", "crate"}
    || w in {"pub", "return", "break", "continue", "dyn", "async", "await", "gen", "become", "yield", "macro"}
    || w in {"super", "true", "false", "unsafe", "extern"}
  }

  lemma {:induction false} KeywordIs(w: string)
    ensures Keyword(w) <==> w in RUST_KW
  {
  }

  /** A decimal numeral read back. */
  function Numeral(s: string): int {
    if s == "" then 0 else 10 * Numeral(s[..|s| - 1]) + (s[|s| - 1] as int - '0' as int)
  }

  lemma {:induction false} DigitsRead(n: nat)
    ensures var s := Digits(n);
            && Numeral(s) == n && s != "" && (forall i | 0 <= i < |s| :: '0' <= s[i] <= '9')
            && (|s| > 1 ==> s[0] != '0')
  {
    var s := Digits(n);
    if n >= 10 {
      DigitsRead(n / 10);
      assert s[..|s| - 1] == Digits(n / 10);
    } else {
      assert s[..0] == "";
    }
  }

  /** The name of a parameter passed as one: the header's, in snake case when it is an identifier, unless it
      is missing, a reserved word, or taken; then `a` and its position. */
  lemma {:induction false} NameChosen(p: Param, i: nat, used: set<string>)
    ensures var given := if p.name.None? then ""
                         else if Identifier(p.name.value) then Snake(p.name.value) else p.name.value;
            OneName(p, i, used) == if given == "" || Keyword(given) || given in used then "a" + Digits(i) else given
  {
    KeywordIs(Offered(p));
    hide Snake, RUST_KW, Keyword, Digits;
    assert p.name.Some? ==> (IsIdent(p.name.value) <==> Identifier(p.name.value));
  }

  /** The names of the components of a struct: their own, unless taken before the struct or in it; then `a`,
      the position and the component's. */
  lemma {:induction false} PartNameAt(i: nat, suffixes: seq<string>, used: set<string>, k: nat)
    requires k < |suffixes|
    ensures var names := PartNames(i, suffixes, used);
            names[k] == if suffixes[k] in used || suffixes[k] in names[..k] then "a" + Digits(i) + "_" + suffixes[k]
                        else suffixes[k]
    decreases k
  {
    hide Digits;
    if k > 0 {
      var names := PartNames(i, suffixes, used);
      var first, rest := names[0], PartNames(i, suffixes[1..], used + {names[0]});
      assert names == [first] + rest;
      PartNameAt(i, suffixes[1..], used + {first}, k - 1);
      assert names[..k] == [first] + rest[..k - 1];
    }
  }

  /** Every name is chosen with the keys and all the names before it taken. */
  lemma {:induction false} ChosenAt(ms: seq<Marshal>, ps: seq<Param>, i: nat, used: set<string>, k: nat)
    requires |ms| == |ps| && i <= |ms| && k < |ms| - i
    ensures var names := Choose(ms, ps, i, used);
            names[k] == NamesFor(ms[i + k], ps[i + k], i + k, used + Elements(Flat(names[..k])))
    decreases k
  {
    hide NamesFor;
    var names := Choose(ms, ps, i, used);
    var here := NamesFor(ms[i], ps[i], i, used);
    if k == 0 {
      assert names[..0] == [] && used + Elements([]) == used;
    } else {
      var rest := Choose(ms, ps, i + 1, used + Elements(here));
      ChosenAt(ms, ps, i + 1, used + Elements(here), k - 1);
      assert names == [here] + rest && names[..k] == [here] + rest[..k - 1];
      assert Flat([here] + rest[..k - 1]) == here + Flat(rest[..k - 1]) by {
        assert ([here] + rest[..k - 1])[1..] == rest[..k - 1];
      }
      assert used + Elements(here) + Elements(Flat(rest[..k - 1])) == used + Elements(here + Flat(rest[..k - 1]));
    }
  }

  // ---- what a bound setter leaves in the buffers -------------------------------------------

  /** One function that returns nothing, declared with the keys and then the flattened parameters, whose
      definition resolves the object and calls the setter on it; its bridge entry, re-export and wrapper,
      which may fail and forwards everything; and an entry under the setter's field. */
  predicate SetterAdded(spec: Spec, m: Method, w: WriteSurface, t: WriteSurface, s: Flattened, decl: Decl,
                        entry: WriteEntry)
    requires |s.names| == |s.types|
  {
    var fn, keyed := spec.key + "_" + Snake(m.name), KeyR(spec) + FlatR(s);
    && t.wh == w.wh + [decl] && decl == Decl(fn, CVoid, KeyC(spec) + FlatC(s))
    && t.wcc == w.wcc + [WriteDef(decl, spec.resolver, m.name, s.args)]
    && t.wbridge == w.wbridge + [BridgeFn(fn, keyed, RUnitResult)]
    && t.wreexport == w.wreexport + [fn]
    && t.wapi == w.wapi + [ApiFn(fn, keyed, RUnitResult, fn, ArgNames(keyed))]
    && t.wreg == w.wreg + [entry]
    && entry.cls == spec.cls && entry.field == Snake(m.name) && entry.keys == spec.args && entry.api == fn
    && |entry.values| == |s.types|
    && t.wperClass == w.wperClass[spec.cls := if spec.cls in w.wperClass then w.wperClass[spec.cls] + 1 else 1]
  }

  lemma {:induction false} SetterAppends(ctx: Ctx, spec: Spec, m: Method, w: WriteSurface, seen: set<string>)
    returns (decl: Decl, entry: WriteEntry)
    requires CanSet(ctx, spec, m, seen)
    ensures MarshalAll(ctx.table, m.params).Some?
    ensures SetterAdded(spec, m, w, SetterAfter(ctx, spec, m, w, seen), Compiled(ctx.table, spec, m), decl, entry)
  {
    SetterExactly(ctx, spec, m, seen);
    AfterBound(ctx, spec, m, w, seen);
    SetterPieces(ctx.table, spec, m);
    FnIs(spec, m);
    decl, entry := SetterDecl(ctx.table, spec, m), SetterEntry(ctx.table, spec, m);
    hide *;
    AddedBy(spec, m, w, SetterAfter(ctx, spec, m, w, seen), Compiled(ctx.table, spec, m), decl, entry,
      SetterApi(ctx.table, spec, m));
  }

  lemma {:induction false} AfterBound(ctx: Ctx, spec: Spec, m: Method, w: WriteSurface, seen: set<string>)
    requires Binds(ctx, spec, m, seen)
    ensures var decl := SetterDecl(ctx.table, spec, m); var s := Compiled(ctx.table, spec, m);
            var fn := FnName(spec, m);
            SetterAfter(ctx, spec, m, w, seen) == WriteSurface(
              w.wh + [decl], w.wcc + [WriteDef(decl, spec.resolver, m.name, s.args)],
              w.wbridge + [BridgeFn(fn, KeyR(spec) + FlatR(s), RUnitResult)], w.wreexport + [fn],
              w.wapi + [SetterApi(ctx.table, spec, m)], w.wreg + [SetterEntry(ctx.table, spec, m)],
              Counted(w.wperClass, spec.cls))
  {
    hide Compiled, SetterDecl, SetterApi, SetterEntry, KeyR, FlatR, FnName;
  }

  lemma {:induction false} AddedBy(spec: Spec, m: Method, w: WriteSurface, t: WriteSurface, s: Flattened, decl: Decl,
                                   entry: WriteEntry, api: ApiFn)
    requires |s.names| == |s.types|
    requires var fn, keyed := spec.key + "_" + Snake(m.name), KeyR(spec) + FlatR(s);
             && t == WriteSurface(
                  w.wh + [decl], w.wcc + [WriteDef(decl, spec.resolver, m.name, s.args)],
                  w.wbridge + [BridgeFn(fn, keyed, RUnitResult)], w.wreexport + [fn],
                  w.wapi + [api], w.wreg + [entry], Counted(w.wperClass, spec.cls))
             && decl == Decl(fn, CVoid, KeyC(spec) + FlatC(s))
             && api == ApiFn(fn, keyed, RUnitResult, fn, ArgNames(keyed))
             && entry.cls == spec.cls && entry.field == Snake(m.name) && entry.keys == spec.args && entry.api == fn
             && |entry.values| == |s.types|
    ensures SetterAdded(spec, m, w, t, s, decl, entry)
  {
    hide Snake, KeyC, KeyR, FlatC, FlatR, ArgNames;
  }

  lemma {:induction false} SetterPieces(tbl: seq<Spec>, spec: Spec, m: Method)
    requires MarshalAll(tbl, m.params).Some?
    ensures var fn, s := FnName(spec, m), Compiled(tbl, spec, m);
            var keyed, entry := KeyR(spec) + FlatR(s), SetterEntry(tbl, spec, m);
            && SetterDecl(tbl, spec, m) == Decl(fn, CVoid, KeyC(spec) + FlatC(s))
            && SetterApi(tbl, spec, m) == ApiFn(fn, keyed, RUnitResult, fn, ArgNames(keyed))
            && entry.cls == spec.cls && entry.field == Snake(m.name) && entry.keys == spec.args && entry.api == fn
            && |entry.values| == |s.types|
  {
    hide MarshalAll, Compiled, FnName, Snake, KeyC, KeyR, FlatC, FlatR, ArgNames, Feeds;
  }

  /** How the registry calls the value that a parameter takes. */
  lemma {:induction false} ValueWords(ctx: Ctx, spec: Spec, m: Method, j: nat)
    requires MarshalAll(ctx.table, m.params).Some? && j < |Compiled(ctx.table, spec, m).types|
    ensures var e, r := SetterEntry(ctx.table, spec, m), Compiled(ctx.table, spec, m).types[j].1;
            && (r == RStr ==> e.values[j] == "str") && (r == RI32 ==> e.values[j] == "i32")
            && (r == RU32 ==> e.values[j] == "u32") && (r == RI64 ==> e.values[j] == "i64")
            && (r == RU64 ==> e.values[j] == "u64") && (r == RBool ==> e.values[j] == "bool")
            && (r == RF32 ==> e.values[j] == "f32") && (r == RF64 ==> e.values[j] == "f64")
  {
    hide Compiled, MarshalAll, Feeds;
  }
}
