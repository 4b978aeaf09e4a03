/** What the generated readers answer: the meaning of a definition's body on what the object's method
    returns and writes, followed from a field of the registry through its wrapper to the definition. */
module Readings {
  import opened Options
  import opened Text
  import opened Names
  import opened Targets
  import opened Bindings
  import opened TypeTexts
  import opened Readers
  import FlatTable

  // ---- the meaning of a body ---------------------------------------------------------------

  /** What a generated function gives back. */
  datatype Datum = Flag(b: bool) | Number(n: int) | Fraction(x: real) | Str(s: string) | Strs(ss: seq<string>)
                 | Numbers(ns: seq<int>)

  /** What a method of the database returns, or writes to a parameter: a scalar, a text, a pointer to
      characters or none, a value of an enum that spells it, one that a helper spells, a struct by its
      accessors, an object by its name or none, a list of objects by their names, and the containers. */
  datatype CppValue = Scal(d: Datum) | Text(s: string) | Chars(chars: Option<string>) | Spelled(spelling: string)
                    | Unspelled(helped: map<string, string>) | Geometry(parts: map<string, int>)
                    | Object(name: Option<string>)
                    | Objects(names: seq<string>) | Ints(ns: seq<int>) | IntPairs(ps: FlatTable.PairRow)
                    | IntTable(t: FlatTable.Table) | NameMap(entries: seq<(string, int)>)

  /** One call: what it returns, and what it leaves in the variables it is handed. */
  datatype MethodCall = MethodCall(result: CppValue, outs: seq<CppValue>)

  /** What a function gives back when there is no object. */
  function Zero(ret: CTy): Datum {
    match ret
    case CBool => Flag(false)
    case CFloat => Fraction(0.0)
    case CDouble => Fraction(0.0)
    case CString => Str("")
    case CVecString => Strs([])
    case CVecInt32 => Numbers([])
    case CVecUint32 => Numbers([])
    case _ => Number(0)
  }

  function EntryKeys(entries: seq<(string, int)>): (r: seq<string>)
    ensures |r| == |entries| && forall k | 0 <= k < |r| :: r[k] == entries[k].0
  {
    seq(|entries|, k requires 0 <= k < |entries| => entries[k].0)
  }

  function EntryValues(entries: seq<(string, int)>): (r: seq<int>)
    ensures |r| == |entries| && forall k | 0 <= k < |r| :: r[k] == entries[k].1
  {
    seq(|entries|, k requires 0 <= k < |entries| => entries[k].1)
  }

  /** The body on the result alone. */
  function OfResult(body: Body, ret: CTy, v: CppValue, at: nat): Datum {
    match (body, v)
    case (Value, Scal(d)) => d
    case (StringValue, Text(s)) => Str(s)
    case (CharPtrValue, Chars(c)) => Str(if c.Some? then c.value else "")
    case (EnumText, Spelled(s)) => Str(s)
    case (MappedEnum(helper), Unspelled(helped)) => if helper in helped then Str(helped[helper]) else Zero(ret)
    case (Accessor(a), Geometry(parts)) => if a in parts then Number(parts[a]) else Zero(ret)
    case (TargetName, Object(n)) => Str(if n.Some? then n.value else "")
    case (CountOf, Objects(names)) => Number(|names|)
    case (NthName(_), Objects(names)) => if at < |names| then Str(names[at]) else Zero(ret)
    case (AllNames, Objects(names)) => Strs(names)
    case (QueryOf(_), Scal(d)) => d
    case (OutFlag, Scal(d)) => d
    case _ => Zero(ret)
  }

  /** The body on one of the variables handed over. */
  function OfOut(body: Body, ret: CTy, v: CppValue): Datum {
    match (body, v)
    case (OutArg(_), Scal(d)) => d
    case (OutVector(pairs), Ints(ns)) => if pairs then Zero(ret) else Numbers(ns)
    case (OutVector(pairs), IntPairs(ps)) => if pairs then Numbers(FlatTable.Pairs(ps)) else Zero(ret)
    case (TableRows, IntTable(t)) => Numbers(FlatTable.Encode(t))
    case (MapNames(_), NameMap(es)) => Strs(EntryKeys(es))
    case (MapIndexes(_), NameMap(es)) => Numbers(EntryValues(es))
    case _ => Zero(ret)
  }

  /** The variable a body reads, if it reads one. */
  function OutRead(body: Body): Option<nat> {
    match body
    case OutArg(k) => Some(k)
    case OutVector(_) => Some(0)
    case TableRows => Some(0)
    case MapNames(k) => Some(k)
    case MapIndexes(k) => Some(k)
    case _ => None
  }

  /** What a definition answers, `at` being the position it is asked for if it is asked for one. */
  function Answer(body: Body, ret: CTy, call: Option<MethodCall>, at: nat): Datum {
    if call.None? then Zero(ret)
    else if OutRead(body).None? then OfResult(body, ret, call.value.result, at)
    else if OutRead(body).value < |call.value.outs| then OfOut(body, ret, call.value.outs[OutRead(body).value])
    else Zero(ret)
  }

  // ---- from a field to its definition ------------------------------------------------------

  function FieldEntry(regs: seq<RegEntry>, field: string): (k: nat)
    ensures k <= |regs| && (k < |regs| ==> regs[k].field == field) && forall i | 0 <= i < k :: regs[i].field != field
  {
    if regs == [] || regs[0].field == field then 0 else 1 + FieldEntry(regs[1..], field)
  }

  function WrapperAt(apis: seq<ApiFn>, name: string): (k: nat)
    ensures k <= |apis| && (k < |apis| ==> apis[k].name == name) && forall i | 0 <= i < k :: apis[i].name != name
  {
    if apis == [] || apis[0].name == name then 0 else 1 + WrapperAt(apis[1..], name)
  }

  function UnitAt(units: seq<Unit>, name: string): (k: nat)
    ensures k <= |units| && (k < |units| ==> units[k].name == name) && forall i | 0 <= i < k :: units[i].name != name
  {
    if units == [] || units[0].name == name then 0 else 1 + UnitAt(units[1..], name)
  }

  /** What reading a field of the class answers, when a call's readers are those of the plan. */
  function ReadField(o: Outcome, field: string, call: Option<MethodCall>): Option<Datum> {
    if !o.Bound? then None
    else
      var e := FieldEntry(o.plan.regs, field);
      if e == |o.plan.regs| then None
      else
        var w := WrapperAt(o.plan.apis, o.plan.regs[e].api);
        if w == |o.plan.apis| then None
        else
          var k := UnitAt(o.plan.units, o.plan.apis[w].callee);
          if k == |o.plan.units| then None
          else Some(Answer(o.plan.units[k].body, o.plan.units[k].ret, call, 0))
  }

  // ---- plans read back ---------------------------------------------------------------------

  lemma {:induction false} OneAnswers(spec: Spec, m: Method, plan: Plan, row: Reading, call: Option<MethodCall>)
    requires OneReader(spec, m, plan, row)
    ensures ReadField(Bound(plan), Snake(m.name), call) == Some(Answer(row.body, row.c, call, 0))
  {
    hide Answer, KeyR, ArgNames, Snake;
  }

  lemma {:induction false} ListAnswersAll(spec: Spec, m: Method, plan: Plan, copies: bool, call: Option<MethodCall>)
    requires ListReader(spec, m, plan, copies)
    ensures ReadField(Bound(plan), Snake(m.name), call) == Some(Answer(AllNames, CVecString, call, 0))
  {
    hide Answer, KeyR, ArgNames, Snake;
    var fn := spec.key + "_" + Snake(m.name);
    assert ("num_" + fn)[0] == 'n' && ("nth_" + fn)[0] == 'n' && ("all_" + fn)[0] == 'a';
    assert plan.units[2].name == "all_" + fn;
  }

  /** Reading a component's field answers with that component, the first of its suffix. */
  lemma {:induction false} PartsAnswer(ctx: Ctx, spec: Spec, m: Method, subs: seq<Sub>, seen: set<string>, i: nat,
                                       call: Option<MethodCall>)
    requires i < |subs| && forall j | 0 <= j < i :: subs[j].suffix != subs[i].suffix
    ensures ReadField(Bound(SubsPlan(ctx, spec, m, subs, seen)), Snake(m.name) + "_" + subs[i].suffix, call)
         == if IsFree(ctx, seen, spec.key + "_" + Snake(m.name) + "_" + subs[i].suffix)
            then Some(Answer(subs[i].body, subs[i].ret, call, 0)) else None
  {
    var ix := SubsExactly(ctx, spec, m, subs, seen);
    var plan := SubsPlan(ctx, spec, m, subs, seen);
    var field := Snake(m.name) + "_" + subs[i].suffix;
    PartNameIs(spec, m, subs[i]);
    hide SubsPlan, PartName, KeyR, ArgNames, Snake, Answer, BoundParts, PartOf;
    assert Taken(ctx, seen, PartName(spec, m, subs[i]))
      <==> !IsFree(ctx, seen, spec.key + "_" + Snake(m.name) + "_" + subs[i].suffix);
    forall k | 0 <= k < |ix|
      ensures ix[k] < |subs| && (subs[ix[k]].suffix == subs[i].suffix <==> ix[k] == i)
    {
      assert ix[k] in ix;
      assert FirstFree(ctx, spec, m, subs, seen, ix[k]);
    }
    assert FirstFree(ctx, spec, m, subs, seen, i) <==> !Taken(ctx, seen, PartName(spec, m, subs[i]));
    PartFound(spec, m, subs, ix, plan, i, call);
  }

  /** Which of the plan's entries, wrappers and units are those of component `i`. */
  lemma {:induction false} PartAt(spec: Spec, m: Method, subs: seq<Sub>, ix: seq<nat>, plan: Plan, i: nat, k: nat)
    requires i < |subs| && k < |ix| && BoundParts(spec, m, subs, ix, plan)
    requires ix[k] < |subs| && (subs[ix[k]].suffix == subs[i].suffix <==> ix[k] == i)
    ensures plan.regs[k].field == Snake(m.name) + "_" + subs[i].suffix <==> ix[k] == i
    ensures plan.apis[k].name == PartName(spec, m, subs[i]) <==> ix[k] == i
    ensures plan.units[k].name == PartName(spec, m, subs[i]) <==> ix[k] == i
    ensures ix[k] == i ==> PartOf(spec, m, subs[i], plan.units[k], plan.apis[k], plan.regs[k])
  {
    NamesDiffer(spec, m, subs[ix[k]], subs[i]);
    SuffixTells(Snake(m.name), subs[ix[k]].suffix, subs[i].suffix);
    hide PartName, Snake, KeyR, ArgNames;
  }

  lemma {:induction false} PartFound(spec: Spec, m: Method, subs: seq<Sub>, ix: seq<nat>, plan: Plan, i: nat,
                                      call: Option<MethodCall>)
    requires i < |subs| && BoundParts(spec, m, subs, ix, plan)
    requires forall k | 0 <= k < |ix| :: ix[k] < |subs| && (subs[ix[k]].suffix == subs[i].suffix <==> ix[k] == i)
    ensures ReadField(Bound(plan), Snake(m.name) + "_" + subs[i].suffix, call)
         == if i in ix then Some(Answer(subs[i].body, subs[i].ret, call, 0)) else None
  {
    var field := Snake(m.name) + "_" + subs[i].suffix;
    var fn := PartName(spec, m, subs[i]);
    assert |plan.units| == |plan.apis| == |plan.regs| == |ix|;
    forall k | 0 <= k < |ix|
      ensures plan.regs[k].field == field <==> ix[k] == i
      ensures plan.apis[k].name == fn <==> ix[k] == i
      ensures plan.units[k].name == fn <==> ix[k] == i
      ensures ix[k] == i ==> plan.regs[k].api == fn && plan.apis[k].callee == fn
      ensures ix[k] == i ==> plan.units[k].body == subs[i].body && plan.units[k].ret == subs[i].ret
    {
      PartAt(spec, m, subs, ix, plan, i, k);
    }
    hide BoundParts, PartOf, PartName, Snake, KeyR, ArgNames, Answer;
    if i in ix {
      var k :| 0 <= k < |ix| && ix[k] == i;
      assert plan.regs[k].field == field && plan.apis[k].name == fn && plan.units[k].name == fn;
    }
  }

  lemma {:induction false} SuffixTells(base: string, a: string, b: string)
    ensures base + "_" + a == base + "_" + b <==> a == b
  {
    var p := base + "_";
    assert (p + a)[|p|..] == a && (p + b)[|p|..] == b;
  }

  // ---- readers without arguments -----------------------------------------------------------

  /** A value reads as what the method returns: a scalar as it is, a text as it is, characters as their text
      or the empty one, an enum as the text that it, or its helper, spells. */
  lemma {:induction false} ValueAnswers(ctx: Ctx, spec: Spec, m: Method, seen: set<string>, v: CppValue,
                                        outs: seq<CppValue>)
    requires IsFree(ctx, seen, spec.key + "_" + Snake(m.name)) && IsValue(m)
    ensures var got := ReadField(AddPlan(ctx, spec, m, seen), Snake(m.name), Some(MethodCall(v, outs)));
            var t := Dense(m.ret);
            && (t in {"int", "int32_t", "uint", "uint32_t", "unsigned", "bool", "float", "double"} && v.Scal?
                ==> got == Some(v.d))
            && (t in {"std::string", "conststd::string&", "std::string&"} && v.Text? ==> got == Some(Str(v.s)))
            && (t in {"constchar*", "char*"} && v.Chars?
                ==> got == Some(Str(if v.chars.Some? then v.chars.value else "")))
            && (SpellingEnum(m.ret) && v.Spelled? ==> got == Some(Str(v.spelling)))
            && forall helper | NestedEnum(spec.cls, m.ret, helper) && v.Unspelled? && helper in v.helped ::
                 got == Some(Str(v.helped[helper]))
  {
    var t := Dense(m.ret);
    hide AddPlan, ReadField, Snake, Dense, NestedEnum, SpellingEnum, IsFree;
    if t in {"int", "int32_t"} {
      RowAnswers(ctx, spec, m, seen, Reading(CInt32, RI32, "i32", Value), v, outs);
    } else if t in {"uint", "uint32_t", "unsigned"} {
      RowAnswers(ctx, spec, m, seen, Reading(CUint32, RU32, "u32", Value), v, outs);
    } else if t == "bool" {
      RowAnswers(ctx, spec, m, seen, Reading(CBool, RBool, "bool", Value), v, outs);
    } else if t == "float" {
      RowAnswers(ctx, spec, m, seen, Reading(CFloat, RF32, "f32", Value), v, outs);
    } else if t == "double" {
      RowAnswers(ctx, spec, m, seen, Reading(CDouble, RF64, "f64", Value), v, outs);
    }
    if t in {"std::string", "conststd::string&", "std::string&"} {
      RowAnswers(ctx, spec, m, seen, Reading(CString, RString, "string", StringValue), v, outs);
    }
    if t in {"constchar*", "char*"} {
      RowAnswers(ctx, spec, m, seen, Reading(CString, RString, "string", CharPtrValue), v, outs);
    }
    if SpellingEnum(m.ret) {
      RowAnswers(ctx, spec, m, seen, Reading(CString, RString, "string", EnumText), v, outs);
    }
    forall helper | NestedEnum(spec.cls, m.ret, helper) && v.Unspelled? && helper in v.helped
      ensures ReadField(AddPlan(ctx, spec, m, seen), Snake(m.name), Some(MethodCall(v, outs)))
           == Some(Str(v.helped[helper]))
    {
      RowAnswers(ctx, spec, m, seen, Reading(CString, RString, "string", MappedEnum(helper)), v, outs);
    }
  }

  lemma {:induction false} RowAnswers(ctx: Ctx, spec: Spec, m: Method, seen: set<string>, row: Reading, v: CppValue,
                                      outs: seq<CppValue>)
    requires IsFree(ctx, seen, spec.key + "_" + Snake(m.name)) && IsValue(m) && ValueRow(spec.cls, m.ret, row)
    requires OutRead(row.body).None?
    ensures ReadField(AddPlan(ctx, spec, m, seen), Snake(m.name), Some(MethodCall(v, outs)))
         == Some(OfResult(row.body, row.c, v, 0))
  {
    AddsValue(ctx, spec, m, seen, row);
    hide AddPlan, OneReader, ReadField, Snake, IsFree, ValueRow;
    OneAnswers(spec, m, AddPlan(ctx, spec, m, seen).plan, row, Some(MethodCall(v, outs)));
  }

  function NoValue(t: string): Datum {
    if t == "bool" then Flag(false)
    else if t == "float" || t == "double" then Fraction(0.0)
    else if t in {"int", "int32_t", "uint", "uint32_t", "unsigned"} then Number(0)
    else Str("")
  }

  /** When there is no object the reader of a value answers zero, false, or the empty text. */
  lemma {:induction false} AbsentAnswers(ctx: Ctx, spec: Spec, m: Method, seen: set<string>)
    requires IsFree(ctx, seen, spec.key + "_" + Snake(m.name)) && IsValue(m) && OneValue(spec.cls, m.ret)
    ensures ReadField(AddPlan(ctx, spec, m, seen), Snake(m.name), None)
         == Some(NoValue(Dense(m.ret)))
  {
    var row: Reading :| ValueRow(spec.cls, m.ret, row);
    AddsValue(ctx, spec, m, seen, row);
    RowZero(spec.cls, m.ret, row);
    hide AddPlan, OneReader, ReadField, Snake, IsFree, ValueRow, Dense;
    OneAnswers(spec, m, AddPlan(ctx, spec, m, seen).plan, row, None);
  }

  lemma {:induction false} RowZero(cls: string, ret: string, row: Reading)
    requires ValueRow(cls, ret, row)
    ensures Zero(row.c) == NoValue(Dense(ret))
  {
    hide Dense, SpellingEnum, NestedEnum, Zero, NoValue, PlainRow;
    if PlainRow(Dense(ret), row) {
      RowZeroPlain(Dense(ret), row);
    } else {
      EnumStarts(ret);
      if row.body.MappedEnum? && NestedEnum(cls, ret, row.body.helper) {
        NestedStarts(cls, ret, row.body.helper);
      }
      DenseWhole(ret);
      NotScalarText(ret);
      assert Zero(CString) == Str("") by { TextZero(); }
    }
  }

  lemma {:induction false} TextZero()
    ensures Zero(CString) == Str("")
  {
  }

  lemma {:induction false} RowZeroPlain(t: string, row: Reading)
    requires PlainRow(t, row)
    ensures Zero(row.c) == NoValue(t)
  {
    assert "bool"[0] == 'b' && "uint"[0] == 'u' && "float"[0] == 'f' && "char*"[0] == 'c';
  }

  lemma {:induction false} NotScalarText(t: string)
    requires |t| > 1 && (('A' <= t[0] <= 'Z') || t[..2] == "db")
    ensures NoValue(t) == Str("")
  {
    assert t[..2] == "db" ==> t[0] == 'd' && t[1] == 'b' by { assert "db"[0] == 'd' && "db"[1] == 'b'; }
    assert "double"[1] == 'o';
  }

  /** The name of the object that the method returns, or no name. */
  lemma {:induction false} TargetAnswers(ctx: Ctx, spec: Spec, m: Method, seen: set<string>, cls: string,
                                         name: Option<string>, outs: seq<CppValue>)
    requires IsFree(ctx, seen, spec.key + "_" + Snake(m.name))
    requires m.kind == Relation && PointsTo(m.ret, cls) && cls in ctx.nameable
    ensures ReadField(AddPlan(ctx, spec, m, seen), Snake(m.name), Some(MethodCall(Object(name), outs)))
         == Some(Str(if name.Some? then name.value else ""))
    ensures ReadField(AddPlan(ctx, spec, m, seen), Snake(m.name), None) == Some(Str(""))
  {
    AddsTarget(ctx, spec, m, seen, cls);
    TargetEval(name, outs);
    hide *;
    var row := Reading(CString, RString, "string", TargetName);
    OneAnswers(spec, m, AddPlan(ctx, spec, m, seen).plan, row, Some(MethodCall(Object(name), outs)));
    OneAnswers(spec, m, AddPlan(ctx, spec, m, seen).plan, row, None);
  }

  lemma {:induction false} TargetEval(name: Option<string>, outs: seq<CppValue>)
    ensures Answer(TargetName, CString, Some(MethodCall(Object(name), outs)), 0)
         == Str(if name.Some? then name.value else "")
    ensures Answer(TargetName, CString, None, 0) == Str("")
  {
  }

  /** All the names of a list, in its order; and of the other two functions one gives the length, the other
      the name at a position, or the empty text past the end. */
  lemma {:induction false} ListAnswers(ctx: Ctx, spec: Spec, m: Method, seen: set<string>, cls: string,
                                       names: seq<string>, outs: seq<CppValue>, at: nat)
    requires IsFree(ctx, seen, spec.key + "_" + Snake(m.name)) && ListFree(spec, m, seen) && cls in ctx.nameable
    requires (m.kind == Getter && m.vecElem == Some(cls)) || (m.kind == Iterator && SetOf(m.ret, cls))
    ensures var o, call := AddPlan(ctx, spec, m, seen), Some(MethodCall(Objects(names), outs));
            && ReadField(o, Snake(m.name), call) == Some(Strs(names))
            && ReadField(o, Snake(m.name), None) == Some(Strs([]))
            && o.Bound? && |o.plan.units| == 3
            && o.plan.units[0].name == "num_" + (spec.key + "_" + Snake(m.name))
            && Answer(o.plan.units[0].body, o.plan.units[0].ret, call, at) == Number(|names|)
            && o.plan.units[1].name == "nth_" + (spec.key + "_" + Snake(m.name))
            && Answer(o.plan.units[1].body, o.plan.units[1].ret, call, at)
               == Str(if at < |names| then names[at] else "")
  {
    AddsList(ctx, spec, m, seen, cls);
    hide AddPlan, ReadField, Snake, IsFree, SetOf, ListFree, ListReader, Answer;
    ListPlanAnswers(spec, m, AddPlan(ctx, spec, m, seen).plan, m.kind == Getter, names, outs, at);
  }

  lemma {:induction false} ListPlanAnswers(spec: Spec, m: Method, plan: Plan, copies: bool, names: seq<string>,
                                           outs: seq<CppValue>, at: nat)
    requires ListReader(spec, m, plan, copies)
    ensures var call := Some(MethodCall(Objects(names), outs));
            && ReadField(Bound(plan), Snake(m.name), call) == Some(Strs(names))
            && ReadField(Bound(plan), Snake(m.name), None) == Some(Strs([]))
            && |plan.units| == 3
            && plan.units[0].name == "num_" + (spec.key + "_" + Snake(m.name))
            && Answer(plan.units[0].body, plan.units[0].ret, call, at) == Number(|names|)
            && plan.units[1].name == "nth_" + (spec.key + "_" + Snake(m.name))
            && Answer(plan.units[1].body, plan.units[1].ret, call, at) == Str(if at < |names| then names[at] else "")
  {
    ListAnswersAll(spec, m, plan, copies, Some(MethodCall(Objects(names), outs)));
    ListAnswersAll(spec, m, plan, copies, None);
    ListEval(names, outs, copies, at);
    hide ReadField, Snake, KeyR, ArgNames, Answer;
  }

  lemma {:induction false} ListEval(names: seq<string>, outs: seq<CppValue>, copies: bool, at: nat)
    ensures var call := Some(MethodCall(Objects(names), outs));
            && Answer(AllNames, CVecString, call, 0) == Strs(names) && Answer(AllNames, CVecString, None, 0) == Strs([])
            && Answer(CountOf, CSize, call, at) == Number(|names|)
            && Answer(NthName(copies), CString, call, at) == Str(if at < |names| then names[at] else "")
  {
  }

  /** The number of objects in a set whose elements have no name. */
  lemma {:induction false} CountAnswers(ctx: Ctx, spec: Spec, m: Method, seen: set<string>, cls: string,
                                        names: seq<string>, outs: seq<CppValue>)
    requires IsFree(ctx, seen, spec.key + "_" + Snake(m.name)) && m.kind == Iterator && SetOf(m.ret, cls)
    requires cls !in ctx.nameable && IsClass(ctx, cls)
    requires "num_" + spec.key + "_" + Snake(m.name) !in seen
    ensures ReadField(AddPlan(ctx, spec, m, seen), Snake(m.name), Some(MethodCall(Objects(names), outs)))
         == Some(Number(|names|))
    ensures ReadField(AddPlan(ctx, spec, m, seen), Snake(m.name), None) == Some(Number(0))
  {
    AddsCount(ctx, spec, m, seen, cls);
    hide *;
    var num, keys := "num_" + spec.key + "_" + Snake(m.name), KeyR(spec);
    CountPlanAnswers(Unit(num, CSize, RUsize, [], [], CountOf), ApiFn(num, keys, RUsize, num, ArgNames(keys)),
      RegEntry(spec.cls, Snake(m.name), "u64", spec.args, num), names, outs);
  }

  lemma {:induction false} CountPlanAnswers(u: Unit, a: ApiFn, r: RegEntry, names: seq<string>, outs: seq<CppValue>)
    requires r.api == a.name && a.callee == u.name && u.body == CountOf && u.ret == CSize
    ensures var o := Bound(Plan([u], [a], [r], {u.name}));
            && ReadField(o, r.field, Some(MethodCall(Objects(names), outs))) == Some(Number(|names|))
            && ReadField(o, r.field, None) == Some(Number(0))
  {
  }

  /** Reading `<field>_<suffix>` of a struct answers with the accessor of that suffix. */
  lemma {:induction false} StructAnswers(ctx: Ctx, spec: Spec, m: Method, seen: set<string>, base: string, i: nat,
                                         suffix: string, accessor: string, parts: map<string, int>, outs: seq<CppValue>)
    requires IsFree(ctx, seen, spec.key + "_" + Snake(m.name)) && IsValue(m)
    requires !OneValue(spec.cls, m.ret) && StructText(m.ret, base) && Component(base, i, suffix, accessor)
    requires accessor in parts
    ensures ReadField(AddPlan(ctx, spec, m, seen), Snake(m.name) + "_" + suffix,
                      Some(MethodCall(Geometry(parts), outs)))
         == if IsFree(ctx, seen, spec.key + "_" + Snake(m.name) + "_" + suffix) then Some(Number(parts[accessor]))
            else None
  {
    StructIs(m.ret, base);
    StructPlanIs(ctx, spec, m, seen, base);
    ComponentAnswers(ctx, spec, m, seen, base, i, suffix, accessor, Some(MethodCall(Geometry(parts), outs)));
    AccessorAnswers(accessor, parts, outs);
    hide *;
    NothingAnswers(SubsPlan(ctx, spec, m, StructSubs(STRUCT_FIELDS[base]), seen), Snake(m.name) + "_" + suffix,
      Some(MethodCall(Geometry(parts), outs)));
  }

  lemma {:induction false} AccessorAnswers(accessor: string, parts: map<string, int>, outs: seq<CppValue>)
    requires accessor in parts
    ensures Answer(Accessor(accessor), CInt32, Some(MethodCall(Geometry(parts), outs)), 0) == Number(parts[accessor])
  {
  }

  lemma {:induction false} ComponentAnswers(ctx: Ctx, spec: Spec, m: Method, seen: set<string>, base: string, i: nat,
                                            suffix: string, accessor: string, call: Option<MethodCall>)
    requires base in STRUCT_FIELDS && Component(base, i, suffix, accessor)
    ensures ReadField(Bound(SubsPlan(ctx, spec, m, StructSubs(STRUCT_FIELDS[base]), seen)),
                      Snake(m.name) + "_" + suffix, call)
         == if IsFree(ctx, seen, spec.key + "_" + Snake(m.name) + "_" + suffix)
            then Some(Answer(Accessor(accessor), CInt32, call, 0)) else None
  {
    ComponentIs(base, i, suffix, accessor);
    var subs := StructSubs(STRUCT_FIELDS[base]);
    hide SubsPlan, STRUCT_FIELDS, Snake, IsFree, ReadField, Answer, Component;
    forall j | 0 <= j < i ensures subs[j].suffix != subs[i].suffix {
      SuffixesDiffer(base, j, i);
    }
    PartsAnswer(ctx, spec, m, subs, seen, i, call);
  }

  lemma {:induction false} StructPlanIs(ctx: Ctx, spec: Spec, m: Method, seen: set<string>, base: string)
    requires IsFree(ctx, seen, spec.key + "_" + Snake(m.name)) && IsValue(m) && !OneValue(spec.cls, m.ret)
    requires StructBase(m.ret) == base && base in STRUCT_FIELDS && PlainType(m.ret)
    ensures var plan := SubsPlan(ctx, spec, m, StructSubs(STRUCT_FIELDS[base]), seen);
            AddPlan(ctx, spec, m, seen) == if plan.units == [] then Skipped else Bound(plan)
  {
    FnIs(spec, m);
    OneValueIs(spec.cls, m.ret);
    hide NameOf, Snake, Norm, OneValue, Scalar, StructBase, STRUCT_FIELDS, ENUMS, ENUM_MAPPED, SubsPlan, PlainType;
  }

  /** A plan without functions answers nothing, bound or not. */
  lemma {:induction false} NothingAnswers(plan: Plan, field: string, call: Option<MethodCall>)
    ensures plan.units == [] ==> ReadField(Bound(plan), field, call) == None
    ensures ReadField(Skipped, field, call) == ReadField(Declined, field, call) == None
  {
  }
}
