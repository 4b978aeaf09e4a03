/** Which parameterised reads must be bound, under which name, and with which types. */
module QueryRules {
  import opened Options
  import opened Text
  import opened Names
  import opened Targets
  import opened Bindings
  import opened TypeTexts
  import opened Readers
  import opened SetterRules

  /** `get`, `is` or `has`, and a capital. */
  predicate AsksByName(name: string) {
    || (|name| > 3 && name[..3] == "get" && 'A' <= name[3] <= 'Z')
    || (|name| > 2 && name[..2] == "is" && 'A' <= name[2] <= 'Z')
    || (|name| > 3 && name[..3] == "has" && 'A' <= name[3] <= 'Z')
  }

  /** What is answered: the type without `const`, single-spaced. */
  predicate AskedFor(ret: string, c: CTy, r: RTy) {
    var t := Collapse(Replace(ret, "const", ""));
    || (t in {"int", "int32_t"} && c == CInt32 && r == RI32)
    || (t in {"uint", "uint32_t"} && c == CUint32 && r == RU32)
    || (t == "bool" && c == CBool && r == RBool)
  }

  /** What is asked with: a text, characters, a truth value, a number, or an enum by the name of its value. */
  predicate AskedWith(cls: string, ty: string, word: string, c: CTy, r: RTy, how: Conversion) {
    var t := Collapse(Replace(Replace(ty, " &", "&"), " *", "*"));
    || (t in {"std::string", "const std::string&"} && c == CStr && r == RStr && how == AsString(word))
    || (t == "const char*" && c == CStr && r == RStr && how == AsCharPtr(word))
    || (t == "bool" && c == CBool && r == RBool && how == AsIs(word))
    || (t in {"int", "int32_t"} && c == CInt32 && r == RI32 && how == AsIs(word))
    || (how.Parsed? && NestedEnum(cls, t, how.helper) && c == CStr && r == RStr && how.arg == word)
  }

  function SmallLetters(s: string): (r: string)
    ensures |r| == |s|
    ensures forall k | 0 <= k < |s| :: r[k] == if 'A' <= s[k] <= 'Z' then (s[k] as int + 32) as char else s[k]
  {
    seq(|s|, k requires 0 <= k < |s| => if 'A' <= s[k] <= 'Z' then (s[k] as int + 32) as char else s[k])
  }

  /** What a parameter is called: its name in small letters when it has no others, else in snake case, or `a`
      and its position without one; with an underscore after a reserved word. */
  function AskedName(p: Param, i: nat): string {
    var given :=
      if p.name.None? || p.name.value == "" then "a" + Digits(i)
      else if (exists k | 0 <= k < |p.name.value| :: 'A' <= p.name.value[k] <= 'Z')
              && forall k | 0 <= k < |p.name.value| :: !('a' <= p.name.value[k] <= 'z')
        then SmallLetters(p.name.value)
      else Snake(p.name.value);
    if Keyword(given) then given + "_" else given
  }

  /** The field: the name, and of an overloaded one each parameter's after an underscore. */
  function AskedField(m: Method, overloaded: bool): string {
    Snake(m.name) + if overloaded then Suffixes(m.params, |m.params|) else ""
  }

  function Suffixes(ps: seq<Param>, n: nat): string
    requires n <= |ps|
  {
    if n == 0 then "" else Suffixes(ps, n - 1) + "_" + AskedName(ps[n - 1], n - 1)
  }

  ghost predicate Askable(cls: string, p: Param, i: nat) {
    exists c, r, how :: AskedWith(cls, p.ty, AskedName(p, i), c, r, how)
  }

  // ---- the emitter's own decision ----------------------------------------------------------

  lemma {:induction false} AsksIs(name: string)
    ensures QueryName(name) <==> AsksByName(name)
  {
  }

  lemma {:induction false} ForIs(ret: string, c: CTy, r: RTy)
    ensures QueryRet(ret) == Some((c, r)) <==> AskedFor(ret, c, r)
  {
    hide Collapse, Replace;
    assert "uint"[0] == 'u' && "bool"[0] == 'b';
  }

  lemma {:induction false} NameIs(p: Param, i: nat)
    ensures QueryParamName(p, i) == AskedName(p, i)
  {
    if p.name.Some? {
      assert Lowered(p.name.value) == SmallLetters(p.name.value);
      assert AllCaps(p.name.value)
        <==> (exists k | 0 <= k < |p.name.value| :: 'A' <= p.name.value[k] <= 'Z')
             && forall k | 0 <= k < |p.name.value| :: !('a' <= p.name.value[k] <= 'z');
    }
    hide Snake, Digits, RUST_KW, Keyword, Lowered, AllCaps, SmallLetters;
    forall w ensures Keyword(w) <==> w in RUST_KW {
      KeywordIs(w);
    }
  }

  lemma {:induction false} WithIs(cls: string, ty: string, word: string, c: CTy, r: RTy, how: Conversion)
    ensures QueryParam(cls, ty, word) == Some((c, r, how)) <==> AskedWith(cls, ty, word, c, r, how)
  {
    var t := Collapse(Replace(Replace(ty, " &", "&"), " *", "*"));
    hide Collapse, Replace, ENUM_MAPPED, NestedEnum;
    forall helper ensures NestedEnum(cls, t, helper) <==> (cls, t) in ENUM_MAPPED && ENUM_MAPPED[(cls, t)] == helper {
      NestedIs(cls, t, helper);
    }
    if how.Parsed? && NestedEnum(cls, t, how.helper) {
      NestedCapital(cls, t, how.helper);
    }
  }

  lemma {:induction false} NestedCapital(cls: string, t: string, helper: string)
    requires NestedEnum(cls, t, helper)
    ensures t !in {"std::string", "const std::string&", "const char*", "bool", "int", "int32_t"}
  {
    NestedStarts(cls, t, helper);
    hide NestedEnum;
  }

  lemma {:induction false} SuffixesIs(ps: seq<Param>, n: nat)
    requires n <= |ps|
    ensures JoinedNames(ps, 0) == Suffixes(ps, n) + JoinedNames(ps, n)
  {
    hide QueryParamName, AskedName;
    if n == 0 {
      assert "" + JoinedNames(ps, 0) == JoinedNames(ps, 0);
    } else {
      SuffixesIs(ps, n - 1);
      NameIs(ps[n - 1], n - 1);
      var a, b, c := Suffixes(ps, n - 1), "_" + AskedName(ps[n - 1], n - 1), JoinedNames(ps, n);
      assert a + (b + c) == a + b + c;
      assert a + b == a + "_" + AskedName(ps[n - 1], n - 1);
    }
  }

  lemma {:induction false} FieldIs(m: Method, overloaded: bool)
    ensures QueryField(m, overloaded) == AskedField(m, overloaded)
  {
    SuffixesIs(m.params, |m.params|);
    hide Snake;
    assert Suffixes(m.params, |m.params|) + "" == Suffixes(m.params, |m.params|);
  }

  lemma {:induction false} AskableIs(spec: Spec, m: Method, i: nat)
    requires i < |m.params|
    ensures QueryParam(spec.cls, m.params[i].ty, QueryParamName(m.params[i], i)).Some?
       <==> Askable(spec.cls, m.params[i], i)
  {
    var p := m.params[i];
    NameIs(p, i);
    forall c, r, how
      ensures QueryParam(spec.cls, p.ty, AskedName(p, i)) == Some((c, r, how))
         <==> AskedWith(spec.cls, p.ty, AskedName(p, i), c, r, how)
    {
      WithIs(spec.cls, p.ty, AskedName(p, i), c, r, how);
    }
    hide QueryParam, AskedWith, AskedName, QueryParamName;
    var q := QueryParam(spec.cls, p.ty, AskedName(p, i));
    assert q.Some? ==> q == Some((q.value.0, q.value.1, q.value.2));
  }

  /** `add_query` binds a read exactly when it takes parameters, is named as a question, answers a number or a
      truth value, is asked with nothing that cannot be passed, and its name is free. */
  lemma {:induction false} QueryExactly(ctx: Ctx, spec: Spec, m: Method, overloaded: bool, seen: set<string>)
    ensures QueryPlan(ctx, spec, m, overloaded, seen).Bound?
       <==> && m.params != [] && AsksByName(m.name) && (exists c, r :: AskedFor(m.ret, c, r))
            && (forall i | 0 <= i < |m.params| :: Askable(spec.cls, m.params[i], i))
            && IsFree(ctx, seen, spec.key + "_" + AskedField(m, overloaded))
    ensures QueryPlan(ctx, spec, m, overloaded, seen) != Skipped
  {
    AsksIs(m.name);
    FieldIs(m, overloaded);
    NameText(spec.key, QueryField(m, overloaded));
    ForSome(m.ret);
    forall i | 0 <= i < |m.params|
      ensures QueryParam(spec.cls, m.params[i].ty, QueryParamName(m.params[i], i)).Some?
         <==> Askable(spec.cls, m.params[i], i)
    {
      AskableIs(spec, m, i);
    }
    hide QueryName, QueryRet, QueryParam, QueryParamName, QueryField, QueryUnit, AsksByName, AskedFor, Askable, NameOf,
           AskedField, KeyR, ArgNames;
  }

  lemma {:induction false} ForSome(ret: string)
    ensures QueryRet(ret).Some? <==> exists c, r :: AskedFor(ret, c, r)
  {
    forall c, r ensures QueryRet(ret) == Some((c, r)) <==> AskedFor(ret, c, r) {
      ForIs(ret, c, r);
    }
    hide QueryRet, AskedFor;
    var q := QueryRet(ret);
    assert q.Some? ==> q == Some((q.value.0, q.value.1));
  }

  lemma {:induction false} NameText(key: string, field: string)
    ensures NameOf(Single, key, field) == key + "_" + field
  {
    assert "" + key + "_" + field == key + "_" + field;
  }

  /** What is added: one function of the answer's types, its parameters the keys and then the ones asked with,
      each under its name and with its own types, each converted in its place; a wrapper; no entry. */
  lemma {:induction false} QueryAdds(ctx: Ctx, spec: Spec, m: Method, overloaded: bool, seen: set<string>, i: nat,
                                     c: CTy, r: RTy, how: Conversion)
    requires QueryPlan(ctx, spec, m, overloaded, seen).Bound? && i < |m.params|
    requires AskedWith(spec.cls, m.params[i].ty, AskedName(m.params[i], i), c, r, how)
    ensures var fn, plan := spec.key + "_" + AskedField(m, overloaded), QueryPlan(ctx, spec, m, overloaded, seen).plan;
            && |plan.units| == |plan.apis| == 1 && plan.regs == [] && plan.names == {fn}
            && plan.units[0].name == fn && AskedFor(m.ret, plan.units[0].ret, plan.units[0].rret)
            && |plan.units[0].moreC| == |plan.units[0].moreR| == |m.params|
            && plan.units[0].moreC[i] == Arg(AskedName(m.params[i], i), c)
            && plan.units[0].moreR[i] == Arg(AskedName(m.params[i], i), r)
            && plan.units[0].body.QueryOf? && |plan.units[0].body.conversions| == |m.params|
            && plan.units[0].body.conversions[i] == how
            && plan.apis[0] == ApiFn(fn, KeyR(spec) + plan.units[0].moreR, plan.units[0].rret, fn,
                                     ArgNames(KeyR(spec) + plan.units[0].moreR))
  {
    FieldIs(m, overloaded);
    NameText(spec.key, QueryField(m, overloaded));
    NameIs(m.params[i], i);
    WithIs(spec.cls, m.params[i].ty, AskedName(m.params[i], i), c, r, how);
    var q := QueryRet(m.ret);
    ForIs(m.ret, q.value.0, q.value.1);
    hide QueryName, QueryRet, QueryParam, QueryParamName, QueryField, AskedFor, NameOf, AskedWith, AskedName,
           AskedField, KeyR, ArgNames;
  }
}
