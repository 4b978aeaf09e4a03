/** Whether the argument that a generated setter passes can initialise the parameter of the method. */
module SetterTypes {
  import opened Options
  import opened Text
  import opened Names
  import opened CppTypes
  import opened Targets
  import opened Bindings
  import opened EmitLaws
  import opened Setters

  // ---- what C++ accepts --------------------------------------------------------------------

  /** The argument expression can initialise a parameter of that type. Every expression but a plain name
      makes a temporary, which a mutable reference refuses; a pointer may gain a `const` and not lose one;
      and the flattened parameters it uses have the types it needs. */
  predicate Initialises(e: Expr, t: CppType, params: seq<Arg<CTy>>) {
    match e
    case Construct(ty, names) =>
      && ((t.base == "Point" && ty == "odb::Point" && |names| == 2)
          || (t.base == "Point3D" && ty == "odb::Point3D" && |names| == 3))
      && t.stars == [] && !MutableRef(t) && forall i | 0 <= i < |names| :: Arg(names[i], CInt32) in params
    case Use(FPlain, n) =>
      && t.stars == [] && !MutableRef(t) && t.ref != RRef
      && ScalarIn(t.base).Some? && Arg(n, ScalarIn(t.base).value.0) in params
    case Use(FString, n) => t.base == "std::string" && t.stars == [] && !MutableRef(t) && Arg(n, CStr) in params
    case Use(FChars, n) =>
      t.base == "char" && |t.stars| == 1 && (t.before || t.after) && !MutableRef(t) && Arg(n, CStr) in params
    case Use(FEnum(ty), n) => t.base == ty && t.stars == [] && !MutableRef(t) && Arg(n, CStr) in params
    case Use(FObject(_, target), n) =>
      t.base == target && |t.stars| == 1 && !MutableRef(t) && Arg(n, CStr) in params
  }

  // ---- what a header can see to ------------------------------------------------------------

  /** A name that the generator is meant to marshal. */
  predicate KnownName(n: string) {
    ScalarIn(n).Some? || n in {"std::string", "char", "Point", "Point3D"} || DbName(n)
  }

  /** The parameter is of a type the generator knows, and asks for neither a variable to write to nor for
      characters to write to. */
  predicate Takes(t: CppType) {
    KnownName(t.base) && !MutableRef(t) && !(t.base == "char" && t.stars != [] && !t.before && !t.after)
  }

  // ---- they agree --------------------------------------------------------------------------

  lemma {:induction false} NormStep(s: string)
    requires s != ""
    ensures Norm(s) == (if s[0] == ' ' then "" else [s[0]]) + Norm(s[1..])
  {
    assert s[..1] == [s[0]] && " "[0] == ' ';
  }

  lemma {:induction false} NormSolid(s: string)
    requires forall c | c in Norm(s) :: !IsSpace(c)
    ensures Norm(s) == Squeeze(s)
  {
    if s != "" {
      NormStep(s);
      hide Norm;
      assert forall c | c in Norm(s[1..]) :: c in Norm(s);
      NormSolid(s[1..]);
      assert s[0] != ' ' ==> s[0] in Norm(s);
    }
  }

  lemma {:induction false} CompactNorm(ty: string, t: CppType)
    requires SpelledType(ty, t) && forall c | c in Norm(ty) :: !IsSpace(c)
    ensures Compact(t) == Norm(ty)
  {
    NormSolid(ty);
    TokensWhole(ty);
    hide Norm, Squeeze, Tokens, TypeTokens, Concat;
  }

  lemma {:induction false} LStripSetKeeps(s: string, chars: string, c: char)
    requires c !in chars
    ensures c in LStripSet(s, chars) <==> c in s
  {
    if s != "" && s[0] in chars {
      LStripSetKeeps(s[1..], chars, c);
    }
  }

  lemma {:induction false} RStripSetKeeps(s: string, chars: string, c: char)
    requires c !in chars
    ensures c in RStripSet(s, chars) <==> c in s
  {
    if s != "" && s[|s| - 1] in chars {
      RStripSetKeeps(s[..|s| - 1], chars, c);
      assert s == s[..|s| - 1] + [s[|s| - 1]];
    }
  }

  lemma {:induction false} DropKeeps(s: string, pat: string, c: char)
    requires c !in pat && pat != ""
    ensures c in Replace(s, pat, "") <==> c in s
    decreases |s|
  {
    if |s| >= |pat| {
      if s[..|pat|] == pat {
        DropKeeps(s[|pat|..], pat, c);
        assert s == s[..|pat|] + s[|pat|..];
      } else {
        DropKeeps(s[1..], pat, c);
      }
    }
  }

  /** The base that the generator works out has the characters of the type, those of `const` and `&` aside. */
  lemma {:induction false} StructNameKeeps(ty: string, c: char)
    requires c !in "const&"
    ensures c in StructName(ty) <==> c in Norm(ty)
  {
    assert forall i | 0 <= i < 5 :: "const"[i] == "const&"[i];
    assert c != '&' by { assert "const&"[5] == '&'; }
    var n := Norm(ty);
    var x := LStripSet(n, "const");
    var y := RStripSet(x, "&");
    hide Norm, Replace;
    LStripSetKeeps(n, "const", c);
    RStripSetKeeps(x, "&", c);
    LStripSetKeeps(y, "&", c);
    DropKeeps(LStripSet(y, "&"), "const", c);
  }

  lemma {:induction false} StructSolid(ty: string)
    requires StructName(ty) in {"Point", "Point3D"}
    ensures forall c | c in Norm(ty) :: !IsSpace(c)
  {
    hide StructName, Norm;
    forall c | c in Norm(ty) ensures !IsSpace(c) {
      if c !in "const&" {
        StructNameKeeps(ty, c);
      }
    }
  }

  lemma {:induction false} DbHasB(b: string)
    ensures DbName(b) ==> 'b' in b
  {
    if DbName(b) {
      assert b[..2][1] == b[1];
    }
  }

  lemma {:induction false} ScalarHasNoP(b: string)
    ensures ScalarIn(b).Some? ==> 'P' !in b
  {
  }

  /** A known name whose characters are, some aside, those of a point is that point. */
  lemma {:induction false} PointNames(b: string)
    requires KnownName(b) && 'P' in b && 'b' !in b
    ensures b == "Point" || b == "Point3D"
  {
    DbHasB(b);
    ScalarHasNoP(b);
    hide ScalarIn, DbName;
    assert 'P' !in "std::string" && 'P' !in "char";
  }

  lemma {:induction false} StructChars(ty: string, t: CppType, c: char)
    requires SpelledType(ty, t) && StructName(ty) in {"Point", "Point3D"} && c !in "const*&"
    ensures t.stars == [] && (c in t.base <==> c in StructName(ty))
  {
    StructSolid(ty);
    CompactNorm(ty, t);
    CharsTell(t);
    StructNameKeeps(ty, '*');
    assert c !in "const&" by {
      assert forall i | 0 <= i < 5 :: "const&"[i] == "const*&"[i];
      assert "const*&"[6] == '&';
    }
    StructNameKeeps(ty, c);
    hide StructName, Norm, Compact;
    assert '*' !in StructName(ty);
  }

  lemma {:induction false} StructTakes(ty: string, t: CppType)
    requires SpelledType(ty, t) && StructName(ty) in {"Point", "Point3D"}
    ensures t.stars == [] && (KnownName(t.base) <==> t.base == StructName(ty))
  {
    var base := StructName(ty);
    StructChars(ty, t, 'P');
    StructChars(ty, t, 'b');
    StructChars(ty, t, '3');
    hide StructName, SpelledType;
    assert "Point"[0] == 'P' && "Point3D"[0] == 'P' && "Point3D"[5] == '3';
    assert '3' !in "Point" && 'b' !in "Point" && 'b' !in "Point3D";
    if KnownName(t.base) {
      hide KnownName;
      PointNames(t.base);
    }
  }

  lemma {:induction false} ScalarTakes(ty: string, t: CppType)
    requires SpelledType(ty, t) && ScalarIn(Norm(ty)).Some?
    ensures t == CppType(false, Norm(ty), false, [], ByValue)
  {
    ScalarText(Norm(ty));
    hide Norm, ScalarIn;
    CompactNorm(ty, t);
    BareType(t);
  }

  lemma {:induction false} ScalarText(n: string)
    requires ScalarIn(n).Some?
    ensures 'c' !in n && '*' !in n && '&' !in n && forall c | c in n :: !IsSpace(c)
  {
  }

  lemma {:induction false} TextTakes(ty: string, t: CppType)
    requires SpelledType(ty, t) && Norm(ty) in {"std::string", "conststd::string&", "std::string&"}
    ensures MutableRef(t) || (t.base == "std::string" && t.stars == [])
  {
    StringSolid(Norm(ty));
    hide Norm;
    CompactNorm(ty, t);
    StringForms(t);
    hide Compact;
  }

  lemma {:induction false} StringSolid(n: string)
    requires n in {"std::string", "conststd::string&", "std::string&"}
    ensures forall c | c in n :: !IsSpace(c)
  {
  }

  lemma {:induction false} CharsTakes(ty: string, t: CppType)
    requires SpelledType(ty, t) && Norm(ty) in {"constchar*", "char*"}
    ensures t == CppType(t.before, t.base, false, [false], ByValue)
    ensures t.base == "char" || (t.base == "constchar" && !t.before)
  {
    CharSolid(Norm(ty));
    hide Norm;
    CompactNorm(ty, t);
    CharForms(t);
    hide Compact;
  }

  lemma {:induction false} CharSolid(n: string)
    requires n in {"constchar*", "char*"}
    ensures forall c | c in n :: !IsSpace(c)
  {
  }

  lemma {:induction false} EnumTakes(ty: string, t: CppType)
    requires SpelledType(ty, t) && ty in ENUMS
    ensures t == CppType(false, ty, false, [], ByValue) && DbName(ty)
  {
    EnumNames(ty);
    hide ENUMS;
    WordType(ty, t);
  }

  lemma {:induction false} EnumNames(ty: string)
    requires ty in ENUMS
    ensures IsTypeName(ty) && DbName(ty)
  {
    hide IsTypeName, DbName;
    if ty in {"dbSigType", "dbIoType", "dbPlacementStatus"} {
      ShortEnums(ty);
    } else if ty in {"dbOrientType", "dbSourceType", "dbWireType"} {
      TypeEnums(ty);
    } else {
      LongEnums(ty);
    }
  }

  lemma {:induction false} ShortEnums(ty: string)
    requires ty in {"dbSigType", "dbIoType", "dbPlacementStatus"}
    ensures IsTypeName(ty) && DbName(ty)
  {
  }

  lemma {:induction false} TypeEnums(ty: string)
    requires ty in {"dbOrientType", "dbSourceType", "dbWireType"}
    ensures IsTypeName(ty) && DbName(ty)
  {
  }

  lemma {:induction false} LongEnums(ty: string)
    requires ty in {"dbOrientType3D", "dbTechLayerMinStepType"}
    ensures IsTypeName(ty) && DbName(ty)
  {
  }

  // ---- one parameter -----------------------------------------------------------------------

  /** The flattened names of the parameter stand in the definition at the types they are given. */
  predicate Placed(m: Marshal, names: seq<string>, params: seq<Arg<CTy>>) {
    |names| == Width(m) && forall k | 0 <= k < |names| :: Arg(names[k], TypesOf(m)[k].0) in params
  }

  lemma {:induction false} ParamTakes(tbl: seq<Spec>, p: Param, t: CppType, m: Marshal, names: seq<string>,
                                      params: seq<Arg<CTy>>)
    requires MarshalParam(tbl, p) == Some(m) && SpelledType(p.ty, t) && Placed(m, names, params)
    ensures Initialises(ExprOf(m, names), t, params) <==> Takes(t)
  {
    var base := StructName(p.ty);
    hide StructName, Norm, SpelledType, FindSpec, PointeeOf;
    if base in STRUCT_IN {
      StructTakes(p.ty, t);
      StructFits(p, t, m, names, params);
    } else if MarshalValue(p.ty).Some? {
      ValueFits(p, t, m, names, params);
    } else {
      PointerForms(p.ty, t);
      hide STRUCT_IN, MarshalValue;
      PointerFits(tbl, p, t, m, names, params);
    }
  }

  lemma {:induction false} StructFits(p: Param, t: CppType, m: Marshal, names: seq<string>, params: seq<Arg<CTy>>)
    requires StructName(p.ty) in STRUCT_IN && Placed(m, names, params)
    requires m == Expand(STRUCT_IN[StructName(p.ty)].0, STRUCT_IN[StructName(p.ty)].1)
    requires t.stars == [] && (KnownName(t.base) <==> t.base == StructName(p.ty))
    ensures Initialises(ExprOf(m, names), t, params) <==> Takes(t)
  {
    hide StructName, KnownName;
    assert forall k | 0 <= k < |names| :: Arg(names[k], TypesOf(m)[k].0) == Arg(names[k], CInt32);
    assert "odb::Point" != "odb::Point3D" && "Point" != "Point3D" by { assert |"Point"| != |"Point3D"|; }
  }

  lemma {:induction false} ValueFits(p: Param, t: CppType, m: Marshal, names: seq<string>, params: seq<Arg<CTy>>)
    requires MarshalValue(p.ty) == Some(m) && SpelledType(p.ty, t) && Placed(m, names, params)
    ensures Initialises(ExprOf(m, names), t, params) <==> Takes(t)
  {
    hide Norm, SpelledType;
    var n := Norm(p.ty);
    if ScalarIn(n).Some? {
      ScalarTakes(p.ty, t);
      ScalarFits(t, m, names, params);
    } else if n in {"std::string", "conststd::string&", "std::string&"} {
      TextTakes(p.ty, t);
      TextFits(t, m, names, params);
    } else if n in {"constchar*", "char*"} {
      CharsTakes(p.ty, t);
      CharsFit(t, m, names, params);
    } else {
      EnumTakes(p.ty, t);
      EnumFits(p.ty, t, m, names, params);
    }
  }

  lemma {:induction false} ScalarFits(t: CppType, m: Marshal, names: seq<string>, params: seq<Arg<CTy>>)
    requires t == CppType(false, t.base, false, [], ByValue) && ScalarIn(t.base).Some? && Placed(m, names, params)
    requires m == One(ScalarIn(t.base).value.0, ScalarIn(t.base).value.1, FPlain)
    ensures Initialises(ExprOf(m, names), t, params) && Takes(t)
  {
    hide ScalarIn;
    assert TypesOf(m)[0].0 == ScalarIn(t.base).value.0;
  }

  lemma {:induction false} TextFits(t: CppType, m: Marshal, names: seq<string>, params: seq<Arg<CTy>>)
    requires MutableRef(t) || (t.base == "std::string" && t.stars == [])
    requires m == One(CStr, RStr, FString) && Placed(m, names, params)
    ensures Initialises(ExprOf(m, names), t, params) <==> Takes(t)
  {
    assert TypesOf(m)[0].0 == CStr;
    assert "std::string" != "char" by { assert |"char"| == 4; }
  }

  lemma {:induction false} CharsFit(t: CppType, m: Marshal, names: seq<string>, params: seq<Arg<CTy>>)
    requires t == CppType(t.before, t.base, false, [false], ByValue)
    requires t.base == "char" || (t.base == "constchar" && !t.before)
    requires m == One(CStr, RStr, FChars) && Placed(m, names, params)
    ensures Initialises(ExprOf(m, names), t, params) <==> Takes(t)
  {
    assert TypesOf(m)[0].0 == CStr;
    NotKnown();
    hide KnownName;
    assert KnownName("char") by { CharKnown(); }
    assert "constchar" != "char" by { assert |"char"| == 4; }
  }

  lemma {:induction false} NotKnown()
    ensures !KnownName("constchar")
  {
    assert "constchar"[..2][0] == 'c' && "db"[0] == 'd';
    assert |"constchar"| == 9;
  }

  lemma {:induction false} CharKnown()
    ensures KnownName("char")
  {
  }

  lemma {:induction false} EnumFits(ty: string, t: CppType, m: Marshal, names: seq<string>, params: seq<Arg<CTy>>)
    requires t == CppType(false, ty, false, [], ByValue) && DbName(ty)
    requires m == One(CStr, RStr, FEnum(ty)) && Placed(m, names, params)
    ensures Initialises(ExprOf(m, names), t, params) && Takes(t)
  {
    assert TypesOf(m)[0].0 == CStr;
    hide ScalarIn, DbName;
  }

  lemma {:induction false} PointerFits(tbl: seq<Spec>, p: Param, t: CppType, m: Marshal, names: seq<string>,
                                       params: seq<Arg<CTy>>)
    requires PointeeOf(p.ty).Some? && MarshalPointer(tbl, p.ty) == Some(m) && Placed(m, names, params)
    requires t.base == PointeeOf(p.ty).value && |t.stars| == 1 && DbName(t.base)
    ensures Initialises(ExprOf(m, names), t, params) <==> Takes(t)
  {
    hide FindSpec, PointeeOf, ScalarIn;
    assert TypesOf(m)[0].0 == CStr;
    assert t.base != "char" by { assert t.base[..2] == "db" && "char"[..2] == "ch"; }
    hide DbName;
  }

  // ---- parameters that are marshalled and cannot be passed ---------------------------------

  lemma {:induction false} NormWhole(s: string)
    requires ' ' !in s
    ensures Norm(s) == s
  {
    ReplaceAbsent(s, " ", "", ' ');
  }

  /** A string to write to is marshalled as a string to read. */
  lemma {:induction false} StringRefMarshalled(tbl: seq<Spec>, p: Param)
    requires p.ty == "std::string&"
    ensures MarshalParam(tbl, p) == Some(One(CStr, RStr, FString))
    ensures var t := CppType(false, "std::string", false, [], LRef); SpelledType(p.ty, t) && !Takes(t)
  {
    var ty := "std::string&";
    hide *;
    StringRefText();
    StringName();
    RefSpelled("std::string");
    NormWhole(ty);
    StructNameKeeps(ty, 'P');
    NotStruct(ty);
    LongNotScalar(ty);
    TextMarshalled(tbl, p);
    RefNotTaken("std::string");
  }

  lemma {:induction false} StringRefText()
    ensures var ty := "std::string&"; ' ' !in ty && 'P' !in ty && |ty| == 12 && "std::string" + "&" == ty
  {
  }

  lemma {:induction false} StringName()
    ensures IsTypeName("std::string") && 'P' !in "const&"
  {
  }

  lemma {:induction false} NotStruct(ty: string)
    requires 'P' !in StructName(ty)
    ensures StructName(ty) !in STRUCT_IN
  {
    hide StructName;
    assert "Point"[0] == 'P' && "Point3D"[0] == 'P';
  }

  lemma {:induction false} LongNotScalar(n: string)
    requires |n| == 12
    ensures ScalarIn(n).None?
  {
  }

  lemma {:induction false} TextMarshalled(tbl: seq<Spec>, p: Param)
    requires StructName(p.ty) !in STRUCT_IN && ScalarIn(Norm(p.ty)).None? && Norm(p.ty) == "std::string&"
    ensures MarshalParam(tbl, p) == Some(One(CStr, RStr, FString))
  {
    hide StructName, STRUCT_IN, ScalarIn, Norm, FindSpec;
  }

  lemma {:induction false} RefNotTaken(base: string)
    ensures !Takes(CppType(false, base, false, [], LRef))
  {
  }

  /** A type whose name starts with letters of `const` loses them: `tPoint` is marshalled as a point. */
  lemma {:induction false} PointMistaken(tbl: seq<Spec>, p: Param)
    requires p.ty == "tPoint"
    ensures MarshalParam(tbl, p) == Some(Expand("odb::Point", ["x", "y"]))
    ensures var t := CppType(false, "tPoint", false, [], ByValue); SpelledType(p.ty, t) && !Takes(t)
  {
    TPointName();
    TPointType();
    TPointUnknown();
    hide StructName, Norm, Tokens, IsTypeName, KnownName, SpelledType;
  }

  lemma {:induction false} TPointType()
    ensures SpelledType("tPoint", CppType(false, "tPoint", false, [], ByValue))
  {
    assert IsTypeName("tPoint");
    hide IsTypeName;
    WordToken("tPoint");
    assert [] + ["tPoint"] + [] + [] + [] == ["tPoint"];
  }

  lemma {:induction false} TPointName()
    ensures StructName("tPoint") == "Point"
  {
    NormWhole("tPoint");
    assert LStripSet("tPoint", "const") == "Point" by { assert "tPoint"[1..] == "Point"; }
    assert RStripSet("Point", "&") == "Point" && LStripSet("Point", "&") == "Point";
    ReplaceAbsent("Point", "const", "", 'c');
    assert 'c' !in "Point" && "const"[0] == 'c';
    hide Norm;
  }

  lemma {:induction false} TPointUnknown()
    ensures !KnownName("tPoint")
  {
    assert |"tPoint"| == 6 && "tPoint"[..2][0] == 't' && "db"[0] == 'd';
  }
}
