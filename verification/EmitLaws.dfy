/** What every run of the emitter keeps. */
module EmitLaws {
  import opened Options
  import opened Names
  import opened Targets
  import opened Bindings

  // ---- one call ----------------------------------------------------------------------------

  datatype Op = Add(m: Method) | OutParam(m: Method) | Query(m: Method, overloaded: bool)

  function Decide(ctx: Ctx, spec: Spec, op: Op, seen: set<string>): Outcome {
    match op
    case Add(m) => AddPlan(ctx, spec, m, seen)
    case OutParam(m) => OutParamPlan(ctx, spec, m, seen)
    case Query(m, overloaded) => QueryPlan(ctx, spec, m, overloaded, seen)
  }

  predicate NoDup<T(==)>(xs: seq<T>) {
    forall i, j | 0 <= i < j < |xs| :: xs[i] != xs[j]
  }

  function Flat<T>(xs: seq<seq<T>>): seq<T> {
    if xs == [] then [] else xs[0] + Flat(xs[1..])
  }

  predicate Apart<T(==)>(xs: seq<T>, ys: seq<T>) {
    forall x | x in xs :: x !in ys
  }

  lemma {:induction false} NoDupAppend<T>(xs: seq<T>, ys: seq<T>)
    ensures NoDup(xs + ys) <==> NoDup(xs) && NoDup(ys) && Apart(xs, ys)
  {
    var all := xs + ys;
    if NoDup(all) {
      assert forall i, j | 0 <= i < j < |xs| :: xs[i] == all[i] && xs[j] == all[j];
      forall i, j | 0 <= i < j < |ys| ensures ys[i] != ys[j] {
        assert ys[i] == all[|xs| + i] && ys[j] == all[|xs| + j];
      }
      forall x | x in xs ensures x !in ys {
        var i :| 0 <= i < |xs| && xs[i] == x;
        forall j | 0 <= j < |ys| ensures ys[j] != x {
          assert all[i] == x && all[|xs| + j] == ys[j];
        }
      }
    }
    if NoDup(xs) && NoDup(ys) && Apart(xs, ys) {
      forall i, j | 0 <= i < j < |all| ensures all[i] != all[j] {
        if i < |xs| <= j {
          assert xs[i] in xs && all[j] == ys[j - |xs|];
        }
      }
    }
  }

  /** The two sides of the unit agree under cxx's type mapping, and its body with its type. */
  predicate UnitAgrees(u: Unit) {
    u.rret == Bridged(u.ret) && SameArgs(u.moreC, u.moreR) && BodyFits(u.body, u.ret, u.moreC)
  }

  /** The field is the method's snake name, or that name, an underscore and a suffix. */
  ghost predicate FieldOf(name: string, field: string) {
    field == Snake(name) || exists suffix :: field == Snake(name) + "_" + suffix
  }

  /** A name of the class, its field one of the ofs, whose plain form is reserved by neither
      hand-written layer. */
  ghost predicate Proper(ctx: Ctx, key: string, of: string, name: string) {
    exists form: Form, field: string ::
      && name == NameOf(form, key, field) && FieldOf(of, field)
      && NameOf(Single, key, field) !in ctx.reservedFn && NameOf(Single, key, field) !in ctx.reservedDb
  }

  /** The new names are new, distinct, marked as seen, and proper, those of the wrappers too. */
  ghost predicate NamesFresh(ctx: Ctx, spec: Spec, name: string, seen: set<string>, plan: Plan) {
    && NoDup(UnitNames(plan.units)) && plan.units != []
    && plan.names !! seen
    && (forall u | u in plan.units :: u.name in plan.names && Proper(ctx, spec.key, name, u.name))
    && forall a | a in plan.apis :: a.name in plan.names && Proper(ctx, spec.key, name, a.name)
  }

  /** The wrapper calls one of the units with that unit's own parameters and returns its result. */
  ghost predicate ApiCalls(spec: Spec, api: ApiFn, us: seq<Unit>) {
    exists u ::
      && u in us && api.callee == u.name && api.ret == u.rret
      && api.params == KeyR(spec) + u.moreR && api.forwards == ArgNames(api.params)
  }

  /** The registry entry dispatches to the wrapper with exactly that wrapper's keys and describes its
      result, and the name of the wrapper is the field's own name or the name of its counter. */
  predicate RegCalls(spec: Spec, r: RegEntry, a: ApiFn) {
    && r.cls == spec.cls && r.keys == spec.args && r.api == a.name && a.params == KeyR(spec)
    && r.value == ValueWord(a.ret)
    && (r.api == NameOf(Single, spec.key, r.field) || r.api == NameOf(Num, spec.key, r.field))
  }

  function ApiNames(apis: seq<ApiFn>): (r: seq<string>)
    ensures |r| == |apis| && forall i | 0 <= i < |apis| :: r[i] == apis[i].name
  {
    seq(|apis|, i requires 0 <= i < |apis| => apis[i].name)
  }

  ghost predicate Linked(spec: Spec, plan: Plan) {
    && (forall a | a in plan.apis :: ApiCalls(spec, a, plan.units))
    && NoDup(ApiNames(plan.apis))
    && (plan.regs == [] || |plan.regs| == |plan.apis|)
    && (forall i | 0 <= i < |plan.regs| :: RegCalls(spec, plan.regs[i], plan.apis[i]))
  }

  ghost predicate PlanOk(ctx: Ctx, spec: Spec, name: string, seen: set<string>, plan: Plan) {
    && (forall u | u in plan.units :: UnitAgrees(u))
    && NamesFresh(ctx, spec, name, seen, plan)
    && Linked(spec, plan)
    && forall r | r in plan.regs :: FieldOf(name, r.field)
  }

  lemma {:induction false} KeysCorrespond(spec: Spec)
    ensures SameArgs(KeyC(spec), KeyR(spec))
  {
  }

  lemma {:induction false} SameArgsAppend(a: seq<Arg<CTy>>, b: seq<Arg<CTy>>, x: seq<Arg<RTy>>, y: seq<Arg<RTy>>)
    requires SameArgs(a, x) && SameArgs(b, y)
    ensures SameArgs(a + b, x + y)
  {
  }

  lemma {:induction false} ProperName(ctx: Ctx, key: string, of: string, form: Form, field: string)
    requires NameOf(Single, key, field) !in ctx.reservedFn && NameOf(Single, key, field) !in ctx.reservedDb
    requires FieldOf(of, field)
    ensures Proper(ctx, key, of, NameOf(form, key, field))
  {
  }

  lemma {:induction false} FormsDiffer(key: string, field: string)
    ensures forall f: Form, g: Form :: f != g ==> NameOf(f, key, field) != NameOf(g, key, field)
  {
    var s := key + "_" + field;
    assert NameOf(Num, key, field) == "num_" + s && NameOf(Nth, key, field) == "nth_" + s;
    assert NameOf(All, key, field) == "all_" + s && NameOf(Single, key, field) == "" + s == s;
    assert ("num_" + s)[1] == 'u' && ("nth_" + s)[1] == 't' && ("all_" + s)[1] == 'l';
  }

  lemma {:induction false} OneUnit(ctx: Ctx, spec: Spec, name: string, seen: set<string>, u: Unit, api: ApiFn,
                                   regs: seq<RegEntry>, field: string)
    requires UnitAgrees(u) && FieldOf(name, field)
    requires u.name == NameOf(Single, spec.key, field) || u.name == NameOf(Num, spec.key, field)
    requires u.name !in seen
    requires NameOf(Single, spec.key, field) !in ctx.reservedFn && NameOf(Single, spec.key, field) !in ctx.reservedDb
    requires api == ApiFn(u.name, KeyR(spec) + u.moreR, u.rret, u.name, ArgNames(KeyR(spec) + u.moreR))
    requires |regs| <= 1
    requires regs != [] ==>
               && u.moreR == [] && field == Snake(name)
               && regs[0] == RegEntry(spec.cls, field, ValueWord(u.rret), spec.args, u.name)
    ensures PlanOk(ctx, spec, name, seen, Plan([u], [api], regs, {u.name}))
  {
    ProperName(ctx, spec.key, name, Single, field);
    ProperName(ctx, spec.key, name, Num, field);
    var plan := Plan([u], [api], regs, {u.name});
    assert u in plan.units && api in plan.apis;
    assert ApiCalls(spec, api, plan.units);
    if regs != [] {
      assert KeyR(spec) + [] == KeyR(spec);
    }
  }

  lemma {:induction false} KeyedApiIs(spec: Spec, name: string, ret: RTy, callee: string)
    ensures KeyR(spec) + [] == KeyR(spec)
    ensures KeyedApi(spec, name, ret, callee) == ApiFn(name, KeyR(spec) + [], ret, callee, ArgNames(KeyR(spec) + []))
  {
  }

  lemma {:induction false} OnePlanOk(ctx: Ctx, spec: Spec, m: Method, ret: CTy, rret: RTy, body: Body, value: string,
                                     seen: set<string>)
    requires rret == Bridged(ret) && BodyFits(body, ret, []) && value == ValueWord(rret)
    requires !Taken(ctx, seen, FnName(spec, m))
    ensures PlanOk(ctx, spec, m.name, seen, OnePlan(spec, m, ret, rret, body, value).plan)
  {
    var plan := OnePlan(spec, m, ret, rret, body, value).plan;
    hide PlanOk;
    KeyedApiIs(spec, FnName(spec, m), rret, FnName(spec, m));
    OneUnit(ctx, spec, m.name, seen, plan.units[0], plan.apis[0], plan.regs, Snake(m.name));
  }

  lemma {:induction false} CountPlanOk(ctx: Ctx, spec: Spec, m: Method, seen: set<string>)
    requires CountPlan(spec, m, seen).Bound? && !Taken(ctx, seen, FnName(spec, m))
    ensures PlanOk(ctx, spec, m.name, seen, CountPlan(spec, m, seen).plan)
  {
    var plan := CountPlan(spec, m, seen).plan;
    hide PlanOk;
    KeyedApiIs(spec, plan.units[0].name, RUsize, plan.units[0].name);
    OneUnit(ctx, spec, m.name, seen, plan.units[0], plan.apis[0], plan.regs, Snake(m.name));
  }

  lemma {:induction false} ThreeFresh(ctx: Ctx, spec: Spec, name: string, seen: set<string>, plan: Plan, fn: string)
    requires |plan.units| == 3
    requires var n := UnitNames(plan.units);
             && n[0] != n[1] && n[0] != n[2] && n[1] != n[2]
             && plan.names == {n[0], n[1], n[2], fn}
             && n[0] !in seen && n[1] !in seen && n[2] !in seen && fn !in seen
             && Proper(ctx, spec.key, name, n[0]) && Proper(ctx, spec.key, name, n[1])
             && Proper(ctx, spec.key, name, n[2])
    requires Proper(ctx, spec.key, name, fn) && forall a | a in plan.apis :: a.name == fn
    ensures NamesFresh(ctx, spec, name, seen, plan)
  {
    hide Proper;
    assert plan.units == [plan.units[0], plan.units[1], plan.units[2]];
  }

  lemma {:induction false} ListNames(ctx: Ctx, spec: Spec, m: Method, seen: set<string>)
    requires ListPlan(spec, m, seen).Bound? && !Taken(ctx, seen, FnName(spec, m))
    ensures NamesFresh(ctx, spec, m.name, seen, ListPlan(spec, m, seen).plan)
  {
    var field := Snake(m.name);
    FormsDiffer(spec.key, field);
    ProperName(ctx, spec.key, m.name, Single, field);
    ProperName(ctx, spec.key, m.name, Num, field);
    ProperName(ctx, spec.key, m.name, Nth, field);
    ProperName(ctx, spec.key, m.name, All, field);
    hide Snake, Proper, NameOf, NamesFresh;
    ThreeFresh(ctx, spec, m.name, seen, ListPlan(spec, m, seen).plan, FnName(spec, m));
  }

  lemma {:induction false} ListLinked(spec: Spec, m: Method, seen: set<string>)
    requires ListPlan(spec, m, seen).Bound?
    ensures Linked(spec, ListPlan(spec, m, seen).plan)
  {
    var plan := ListPlan(spec, m, seen).plan;
    hide Snake, NameOf;
    var all := plan.units[2];
    KeyedApiIs(spec, FnName(spec, m), RVecString, all.name);
    assert all in plan.units;
    assert ApiCalls(spec, plan.apis[0], plan.units);
    assert RegCalls(spec, plan.regs[0], plan.apis[0]);
  }

  lemma {:induction false} ListPlanOk(ctx: Ctx, spec: Spec, m: Method, seen: set<string>)
    requires ListPlan(spec, m, seen).Bound? && !Taken(ctx, seen, FnName(spec, m))
    ensures PlanOk(ctx, spec, m.name, seen, ListPlan(spec, m, seen).plan)
  {
    ListNames(ctx, spec, m, seen);
    ListLinked(spec, m, seen);
    ListUnits(spec, m, seen);
    hide Linked, NamesFresh, Snake, NameOf, UnitAgrees;
    assert FieldOf(m.name, ListPlan(spec, m, seen).plan.regs[0].field);
  }

  lemma {:induction false} ListUnits(spec: Spec, m: Method, seen: set<string>)
    requires ListPlan(spec, m, seen).Bound?
    ensures forall u | u in ListPlan(spec, m, seen).plan.units :: UnitAgrees(u)
  {
    hide UnitAgrees, NameOf, Snake;
    var units := ListPlan(spec, m, seen).plan.units;
    NthUnitAgrees(units[1].name, m.kind == Getter);
    PlainUnitAgrees(units[0].name, CSize, CountOf);
    PlainUnitAgrees(units[2].name, CVecString, AllNames);
    assert units == [units[0], units[1], units[2]];
  }

  lemma {:induction false} NthUnitAgrees(name: string, copies: bool)
    ensures UnitAgrees(Unit(name, CString, RString, [Arg("i", CSize)], [Arg("i", RUsize)], NthName(copies)))
  {
    assert Bridged(CSize) == RUsize && Bridged(CString) == RString;
  }

  lemma {:induction false} PlainUnitAgrees(name: string, ret: CTy, body: Body)
    requires BodyFits(body, ret, [])
    ensures UnitAgrees(Unit(name, ret, Bridged(ret), [], [], body))
  {
  }

  lemma {:induction false} QueryPlanOk(ctx: Ctx, spec: Spec, m: Method, overloaded: bool, seen: set<string>)
    requires QueryPlan(ctx, spec, m, overloaded, seen).Bound?
    ensures PlanOk(ctx, spec, m.name, seen, QueryPlan(ctx, spec, m, overloaded, seen).plan)
  {
    var field := QueryField(m, overloaded);
    var fn := NameOf(Single, spec.key, field);
    var ret := QueryRet(m.ret).value;
    var u := QueryUnit(spec, m, fn, ret);
    QueryUnitAgrees(spec, m, fn, ret);
    QueryFieldOf(m, overloaded);
    hide PlanOk, QueryUnit;
    var params := KeyR(spec) + u.moreR;
    OneUnit(ctx, spec, m.name, seen, u, ApiFn(fn, params, u.rret, fn, ArgNames(params)), [], field);
  }

  lemma {:induction false} QueryFieldOf(m: Method, overloaded: bool)
    requires m.params != []
    ensures FieldOf(m.name, QueryField(m, overloaded))
  {
    hide Snake, QueryParamName;
    if overloaded {
      var suffix := QueryParamName(m.params[0], 0) + JoinedNames(m.params, 1);
      assert Snake(m.name) + ("_" + QueryParamName(m.params[0], 0) + JoinedNames(m.params, 1))
          == Snake(m.name) + "_" + suffix;
    } else {
      assert Snake(m.name) + "" == Snake(m.name);
    }
  }

  lemma {:induction false} QueryUnitAgrees(spec: Spec, m: Method, fn: string, ret: (CTy, RTy))
    requires QueryParamsOk(spec, m) && ret.1 == Bridged(ret.0) && ScalarTy(ret.0)
    ensures UnitAgrees(QueryUnit(spec, m, fn, ret)) && QueryUnit(spec, m, fn, ret).name == fn
  {
    var u := QueryUnit(spec, m, fn, ret);
    var cs := u.body.conversions;
    hide QueryArg, QueryParamName, QueryParamsOk, Bridged;
    forall i | 0 <= i < |u.moreC|
      ensures u.moreR[i] == Arg(u.moreC[i].name, Bridged(u.moreC[i].ty)) && Converts(cs[i], u.moreC[i])
    {
      QueryArgAgrees(spec, m, i);
    }
  }

  lemma {:induction false} QueryArgAgrees(spec: Spec, m: Method, i: nat)
    requires i < |m.params| && QueryParamsOk(spec, m)
    ensures var a := QueryArg(spec, m, i);
            a.1 == Bridged(a.0) && Converts(a.2, Arg(QueryParamName(m.params[i], i), a.0))
  {
    var p := m.params[i];
    assert QueryArg(spec, m, i) == QueryParam(spec.cls, p.ty, QueryParamName(p, i)).value;
    hide QueryParamName;
  }

  // ---- expansions into components ----------------------------------------------------------

  predicate SubAgrees(sub: Sub) {
    sub.rret == Bridged(sub.ret) && BodyFits(sub.body, sub.ret, []) && sub.value == ValueWord(sub.rret)
  }

  lemma {:induction false} SubsPlanOk(ctx: Ctx, spec: Spec, m: Method, subs: seq<Sub>, seen: set<string>)
    requires forall i | 0 <= i < |subs| :: SubAgrees(subs[i])
    ensures var plan := SubsPlan(ctx, spec, m, subs, seen);
            && (plan.units == [] ==> plan == NOTHING)
            && (plan.units != [] ==> PlanOk(ctx, spec, m.name, seen, plan) && plan.regs != [])
    decreases |subs|
  {
    if subs != [] {
      var sub, rest := subs[0], subs[1..];
      var fn := NameOf(Single, spec.key, SubField(m, sub));
      assert SubAgrees(sub);
      assert forall i | 0 <= i < |rest| :: rest[i] == subs[i + 1];
      if Taken(ctx, seen, fn) {
        SubsPlanOk(ctx, spec, m, rest, seen);
      } else {
        SubsPlanOk(ctx, spec, m, rest, seen + {fn});
        SubFirst(ctx, spec, m, sub, SubsPlan(ctx, spec, m, rest, seen + {fn}), seen);
      }
    }
  }

  lemma {:induction false} SubFirst(ctx: Ctx, spec: Spec, m: Method, sub: Sub, more: Plan, seen: set<string>)
    requires SubAgrees(sub)
    requires var fn := NameOf(Single, spec.key, SubField(m, sub));
             && !Taken(ctx, seen, fn)
             && (more == NOTHING || (PlanOk(ctx, spec, m.name, seen + {fn}, more) && more.regs != []))
    ensures var fn := NameOf(Single, spec.key, SubField(m, sub));
            PlanOk(ctx, spec, m.name, seen,
              Plan([Unit(fn, sub.ret, sub.rret, [], [], sub.body)] + more.units,
                   [KeyedApi(spec, fn, sub.rret, fn)] + more.apis,
                   [RegEntry(spec.cls, SubField(m, sub), sub.value, spec.args, fn)] + more.regs,
                   {fn} + more.names))
  {
    var fn := NameOf(Single, spec.key, SubField(m, sub));
    var u := Unit(fn, sub.ret, sub.rret, [], [], sub.body);
    var api, reg := KeyedApi(spec, fn, sub.rret, fn), RegEntry(spec.cls, SubField(m, sub), sub.value, spec.args, fn);
    var plan := Plan([u] + more.units, [api] + more.apis, [reg] + more.regs, {fn} + more.names);
    assert NamesFresh(ctx, spec, m.name, seen, plan) by { SubNames(ctx, spec, m, sub, u, api, plan, more, seen); }
    assert Linked(spec, plan) by { SubLinked(spec, u, api, reg, plan, more, seen + {fn}); }
    SubFieldOf(m, sub);
  }

  lemma {:induction false} SubFieldOf(m: Method, sub: Sub)
    ensures FieldOf(m.name, SubField(m, sub))
  {
    assert SubField(m, sub) == Snake(m.name) + "_" + sub.suffix;
  }

  lemma {:induction false} SubNames(ctx: Ctx, spec: Spec, m: Method, sub: Sub, u: Unit, api: ApiFn, plan: Plan,
                                    more: Plan, seen: set<string>)
    requires u.name == NameOf(Single, spec.key, SubField(m, sub)) && !Taken(ctx, seen, u.name)
    requires more == NOTHING || NamesFresh(ctx, spec, m.name, seen + {u.name}, more)
    requires plan.units == [u] + more.units && plan.names == {u.name} + more.names
    requires plan.apis == [api] + more.apis && api.name == u.name
    ensures NamesFresh(ctx, spec, m.name, seen, plan)
  {
    SubFieldOf(m, sub);
    ProperName(ctx, spec.key, m.name, Single, SubField(m, sub));
    hide Proper, NameOf, SubField;
    var names := UnitNames(plan.units);
    forall i, j | 0 <= i < j < |names| ensures names[i] != names[j] {
      var inner := UnitNames(more.units);
      assert names[j] == inner[j - 1];
      assert more.units[j - 1] in more.units;
      if i > 0 {
        assert names[i] == inner[i - 1];
      }
    }
  }

  lemma {:induction false} SubLinked(spec: Spec, u: Unit, api: ApiFn, reg: RegEntry, plan: Plan, more: Plan,
                                     seen: set<string>)
    requires u.name in seen && u.moreR == [] && u.name == NameOf(Single, spec.key, reg.field)
    requires api == KeyedApi(spec, u.name, u.rret, u.name) && reg.value == ValueWord(u.rret)
    requires reg.cls == spec.cls && reg.keys == spec.args && reg.api == u.name
    requires more == NOTHING || (Linked(spec, more) && more.names !! seen && more.regs != [])
    requires forall a | a in more.apis :: a.name in more.names
    requires plan.units == [u] + more.units && plan.apis == [api] + more.apis
    requires plan.regs == [reg] + more.regs && plan.names == {u.name} + more.names
    ensures Linked(spec, plan)
  {
    KeyedApiIs(spec, u.name, u.rret, u.name);
    hide NameOf, ApiCalls, KeyedApi;
    SubCalls(spec, u, api, plan, more);
    SubApiNames(api, plan.apis, more.apis, seen, more.names);
    assert forall i | 1 <= i < |plan.regs| :: plan.regs[i] == more.regs[i - 1] && plan.apis[i] == more.apis[i - 1];
  }

  lemma {:induction false} SubCalls(spec: Spec, u: Unit, api: ApiFn, plan: Plan, more: Plan)
    requires api == KeyedApi(spec, u.name, u.rret, u.name) && u.moreR == []
    requires forall a | a in more.apis :: ApiCalls(spec, a, more.units)
    requires plan.units == [u] + more.units && plan.apis == [api] + more.apis
    ensures forall a | a in plan.apis :: ApiCalls(spec, a, plan.units)
  {
    KeyedApiIs(spec, u.name, u.rret, u.name);
    assert u in plan.units;
    forall a | a in plan.apis ensures ApiCalls(spec, a, plan.units) {
      if a != api {
        assert a in more.apis;
        var v :| v in more.units && a.callee == v.name && a.ret == v.rret
                 && a.params == KeyR(spec) + v.moreR && a.forwards == ArgNames(a.params);
        assert v in plan.units;
      }
    }
  }

  lemma {:induction false} SubApiNames(api: ApiFn, apis: seq<ApiFn>, more: seq<ApiFn>, seen: set<string>,
                                       later: set<string>)
    requires apis == [api] + more && NoDup(ApiNames(more))
    requires api.name in seen && later !! seen && forall a | a in more :: a.name in later
    ensures NoDup(ApiNames(apis))
  {
    var names, inner := ApiNames(apis), ApiNames(more);
    forall i, j | 0 <= i < j < |names| ensures names[i] != names[j] {
      assert names[j] == inner[j - 1] && more[j - 1] in more;
      if i > 0 {
        assert names[i] == inner[i - 1];
      }
    }
  }

  // ---- every call --------------------------------------------------------------------------

  lemma {:induction false} ValuePlanOk(ctx: Ctx, spec: Spec, m: Method, seen: set<string>)
    requires ValuePlan(ctx, spec, m, seen).Bound? && !Taken(ctx, seen, FnName(spec, m))
    ensures PlanOk(ctx, spec, m.name, seen, ValuePlan(ctx, spec, m, seen).plan)
    ensures ValuePlan(ctx, spec, m, seen).plan.regs != []
  {
    hide PlanOk, FnName, Norm, StructBase, Snake, SubsPlan, StructSubs, Taken, KeyedApi, ValueWord;
    var n := Norm(m.ret);
    if Scalar(n).Some? {
      ScalarWord(n);
      OnePlanOk(ctx, spec, m, Scalar(n).value.0, Scalar(n).value.1, Value, RName(Scalar(n).value.1), seen);
    } else if n in {"std::string", "conststd::string&", "std::string&"} {
      StringWord();
      OnePlanOk(ctx, spec, m, CString, RString, StringValue, "string", seen);
    } else if n in {"constchar*", "char*"} {
      StringWord();
      OnePlanOk(ctx, spec, m, CString, RString, CharPtrValue, "string", seen);
    } else if m.ret in ENUMS {
      StringWord();
      OnePlanOk(ctx, spec, m, CString, RString, EnumText, "string", seen);
    } else if (spec.cls, m.ret) in ENUM_MAPPED {
      StringWord();
      OnePlanOk(ctx, spec, m, CString, RString, MappedEnum(ENUM_MAPPED[(spec.cls, m.ret)]), "string", seen);
    } else {
      StructSubsAgree(STRUCT_FIELDS[StructBase(m.ret)]);
      SubsPlanOk(ctx, spec, m, StructSubs(STRUCT_FIELDS[StructBase(m.ret)]), seen);
    }
  }

  lemma {:induction false} ScalarWord(t: string)
    requires Scalar(t).Some?
    ensures var ty := Scalar(t).value;
            ty.1 == Bridged(ty.0) && ScalarTy(ty.0) && ValueWord(ty.1) == RName(ty.1)
  {
  }

  lemma {:induction false} StringWord()
    ensures ValueWord(RString) == "string" && Bridged(CString) == RString
  {
  }

  lemma {:induction false} StructSubsAgree(fields: seq<(string, string)>)
    ensures forall i | 0 <= i < |StructSubs(fields)| :: SubAgrees(StructSubs(fields)[i])
  {
  }

  lemma {:induction false} AddPlanOk(ctx: Ctx, spec: Spec, m: Method, seen: set<string>)
    requires AddPlan(ctx, spec, m, seen).Bound?
    ensures PlanOk(ctx, spec, m.name, seen, AddPlan(ctx, spec, m, seen).plan)
    ensures AddPlan(ctx, spec, m, seen).plan.regs != []
  {
    hide PlanOk, FnName, ValuePlan, Snake, IteratorElem, RelationTarget;
    if m.kind == Getter && m.vecElem.Some? {
      ListPlanOk(ctx, spec, m, seen);
    } else if m.kind == Getter || m.kind == Predicate {
      ValuePlanOk(ctx, spec, m, seen);
    } else if m.kind == Relation {
      OnePlanOk(ctx, spec, m, CString, RString, TargetName, "string", seen);
    } else if IteratorElem(m.ret) in ctx.nameable {
      ListPlanOk(ctx, spec, m, seen);
    } else {
      CountPlanOk(ctx, spec, m, seen);
    }
  }

  lemma {:induction false} OutSubsAgree(m: Method)
    requires AllScalarRefs(m)
    ensures forall i | 0 <= i < |OutSubs(m)| :: SubAgrees(OutSubs(m)[i])
  {
    hide Norm, Snake;
    forall i | 0 <= i < |m.params| ensures SubAgrees(OutSub(m, i)) {
      assert m.params[i].shape.ScalarRef?;
    }
  }

  lemma {:induction false} TableSubsAgree(m: Method)
    requires |m.params| == 3
    ensures forall i | 0 <= i < |TableSubs(m)| :: SubAgrees(TableSubs(m)[i])
  {
    hide ParamName;
  }

  lemma {:induction false} OutParamPlanOk(ctx: Ctx, spec: Spec, m: Method, seen: set<string>)
    requires OutParamPlan(ctx, spec, m, seen).Bound?
    ensures PlanOk(ctx, spec, m.name, seen, OutParamPlan(ctx, spec, m, seen).plan)
    ensures OutParamPlan(ctx, spec, m, seen).plan.regs != []
  {
    hide PlanOk, FnName, Snake, Norm, SubsPlan;
    if |m.params| == 1 && VectorPlan(ctx, spec, m, seen).Bound? {
      OnePlanOk(ctx, spec, m, CVecInt32, RVecI32, OutVector(m.params[0].shape.PairVecRef?), "list", seen);
    } else if |m.params| == 3 && TablePlan(ctx, spec, m, seen).Bound? {
      TableSubsAgree(m);
      hide TableSubs;
      SubsPlanOk(ctx, spec, m, TableSubs(m), seen);
    } else {
      OutSubsAgree(m);
      hide OutSubs, AllScalarRefs, VectorPlan, TablePlan;
      SubsPlanOk(ctx, spec, m, OutSubs(m), seen);
    }
  }

  /** Whatever a call binds is sound: types agree across the bridge, names are fresh, distinct and
      not reserved, wrappers and registry entries reach what was emitted. */
  lemma {:induction false} DecideOk(ctx: Ctx, spec: Spec, op: Op, seen: set<string>)
    requires Decide(ctx, spec, op, seen).Bound?
    ensures PlanOk(ctx, spec, op.m.name, seen, Decide(ctx, spec, op, seen).plan)
    ensures !op.Query? ==> Decide(ctx, spec, op, seen).plan.regs != []
  {
    match op {
      case Add(m) => AddPlanOk(ctx, spec, m, seen);
      case OutParam(m) => OutParamPlanOk(ctx, spec, m, seen);
      case Query(m, overloaded) => QueryPlanOk(ctx, spec, m, overloaded, seen);
    }
  }
}
