/** The readers of what a method writes to its parameters: which are bound, and what each answers. */
module OutReadings {
  import opened Options
  import opened Text
  import opened Names
  import opened Targets
  import opened Bindings
  import opened TypeTexts
  import opened Readers
  import opened Readings
  import FlatTable

  // ---- the three forms ---------------------------------------------------------------------

  /** Every parameter is a reference to a scalar. */
  predicate ScalarOuts(m: Method) {
    forall i | 0 <= i < |m.params| ::
      && m.params[i].shape.ScalarRef?
      && m.params[i].shape.scalar in {"int", "int32_t", "uint", "uint32_t", "unsigned", "bool", "float", "double"}
  }

  /** The word a scalar parameter is read under: its name, or `a` and its position. */
  function OutWord(p: Param, i: nat): string {
    if p.name.Some? && Identifier(p.name.value) then Snake(p.name.value) else "a" + Digits(i)
  }

  lemma {:induction false} OutWordIs(p: Param, i: nat)
    ensures OutName(p, i) == OutWord(p, i)
  {
    hide Snake, Digits;
  }

  lemma {:induction false} ScalarTexts(t: string)
    ensures Scalar(t).Some? <==> t in {"int", "int32_t", "uint", "uint32_t", "unsigned", "bool", "float", "double"}
    ensures Scalar(t).Some? ==> Zero(Scalar(t).value.0) == NoValue(t)
  {
    assert "bool"[0] == 'b' && "uint"[0] == 'u';
  }

  lemma {:induction false} ScalarOutsIs(m: Method)
    ensures ScalarOuts(m) <==> AllScalarRefs(m)
  {
    forall i | 0 <= i < |m.params| && m.params[i].shape.ScalarRef?
      ensures Scalar(m.params[i].shape.scalar).Some?
         <==> m.params[i].shape.scalar in {"int", "int32_t", "uint", "uint32_t", "unsigned", "bool", "float", "double"}
    {
      ScalarTexts(m.params[i].shape.scalar);
    }
    hide Scalar;
  }

  predicate IsGet(name: string) {
    |name| >= 3 && name[0] == 'g' && name[1] == 'e' && name[2] == 't'
  }

  lemma {:induction false} GetIs(name: string)
    ensures StartsWith(name, "get") <==> IsGet(name)
  {
    assert "get" == ['g', 'e', 't'];
    if |name| >= 3 {
      assert name[..3] == [name[0], name[1], name[2]];
    }
  }

  // ---- one reader per scalar ---------------------------------------------------------------

  /** How many components come before those of the parameters. */
  function Before(m: Method): nat {
    if Dense(m.ret) == "bool" then 1 else 0
  }

  lemma {:induction false} OutSubsAre(m: Method)
    requires ScalarOuts(m)
    ensures AllScalarRefs(m)
    ensures var subs := OutSubs(m);
            && |subs| == Before(m) + |m.params|
            && (Before(m) == 1 ==> subs[0] == Sub("valid", CBool, RBool, OutFlag, "bool"))
            && forall i | 0 <= i < |m.params| ::
                 && subs[Before(m) + i].suffix == OutWord(m.params[i], i) && subs[Before(m) + i].body == OutArg(i)
                 && Some((subs[Before(m) + i].ret, subs[Before(m) + i].rret)) == Scalar(m.params[i].shape.scalar)
                 && subs[Before(m) + i].value == RName(subs[Before(m) + i].rret)
  {
    ScalarOutsIs(m);
    DenseIs(m.ret);
    forall i | 0 <= i < |m.params| ensures OutName(m.params[i], i) == OutWord(m.params[i], i) {
      OutWordIs(m.params[i], i);
    }
    hide Norm, Dense, Scalar, RName, OutName, OutWord;
  }

  lemma {:induction false} OutPlanIs(ctx: Ctx, spec: Spec, m: Method, seen: set<string>)
    requires IsGet(m.name) && m.params != [] && ScalarOuts(m)
    ensures AllScalarRefs(m)
    ensures var plan := SubsPlan(ctx, spec, m, OutSubs(m), seen);
            OutParamPlan(ctx, spec, m, seen) == if plan.units == [] then Declined else Bound(plan)
  {
    GetIs(m.name);
    ScalarOutsIs(m);
    hide SubsPlan, OutSubs, FnName, TableSubs, Scalar;
  }

  lemma {:induction false} OutPartAnswers(ctx: Ctx, spec: Spec, m: Method, seen: set<string>, k: nat,
                                          call: Option<MethodCall>)
    requires IsGet(m.name) && m.params != [] && ScalarOuts(m) && AllScalarRefs(m) && k < |OutSubs(m)|
    requires forall j | 0 <= j < k :: OutSubs(m)[j].suffix != OutSubs(m)[k].suffix
    ensures ReadField(OutParamPlan(ctx, spec, m, seen), Snake(m.name) + "_" + OutSubs(m)[k].suffix, call)
         == if IsFree(ctx, seen, spec.key + "_" + Snake(m.name) + "_" + OutSubs(m)[k].suffix)
            then Some(Answer(OutSubs(m)[k].body, OutSubs(m)[k].ret, call, 0)) else None
  {
    OutPlanIs(ctx, spec, m, seen);
    hide *;
    PartsAnswer(ctx, spec, m, OutSubs(m), seen, k, call);
    NothingAnswers(SubsPlan(ctx, spec, m, OutSubs(m), seen), Snake(m.name) + "_" + OutSubs(m)[k].suffix, call);
    assert ReadField(Declined, Snake(m.name) + "_" + OutSubs(m)[k].suffix, call) == None;
  }

  /** Reading `<field>_<word of parameter i>` answers with the value that the method writes to that
      parameter, the first parameter of its word; without an object, with the zero of its type. */
  lemma {:induction false} OutAnswers(ctx: Ctx, spec: Spec, m: Method, seen: set<string>, i: nat, result: CppValue,
                                      outs: seq<CppValue>, d: Datum)
    requires IsGet(m.name) && ScalarOuts(m) && i < |m.params| && i < |outs| && outs[i] == Scal(d)
    requires forall j | 0 <= j < i :: OutWord(m.params[j], j) != OutWord(m.params[i], i)
    requires Dense(m.ret) == "bool" ==> OutWord(m.params[i], i) != "valid"
    ensures var o, part := OutParamPlan(ctx, spec, m, seen), "_" + OutWord(m.params[i], i);
            var free := IsFree(ctx, seen, spec.key + "_" + Snake(m.name) + part);
            && ReadField(o, Snake(m.name) + part, Some(MethodCall(result, outs))) == (if free then Some(d) else None)
            && ReadField(o, Snake(m.name) + part, None)
               == (if free then Some(NoValue(m.params[i].shape.scalar)) else None)
  {
    var k := OutFirst(m, i);
    var sub := OutSubs(m)[k];
    OutEval(i, sub.ret, result, outs, d);
    hide *;
    OutPartAnswers(ctx, spec, m, seen, k, Some(MethodCall(result, outs)));
    OutPartAnswers(ctx, spec, m, seen, k, None);
    PartText(spec.key + "_" + Snake(m.name), sub.suffix);
    PartText(Snake(m.name), sub.suffix);
  }

  lemma {:induction false} OutEval(i: nat, ret: CTy, result: CppValue, outs: seq<CppValue>, d: Datum)
    requires i < |outs| && outs[i] == Scal(d)
    ensures Answer(OutArg(i), ret, Some(MethodCall(result, outs)), 0) == d
    ensures Answer(OutArg(i), ret, None, 0) == Zero(ret)
  {
  }

  /** The component of parameter `i`, the first of its word. */
  lemma {:induction false} OutFirst(m: Method, i: nat) returns (k: nat)
    requires ScalarOuts(m) && i < |m.params|
    requires forall j | 0 <= j < i :: OutWord(m.params[j], j) != OutWord(m.params[i], i)
    requires Dense(m.ret) == "bool" ==> OutWord(m.params[i], i) != "valid"
    ensures m.params != [] && AllScalarRefs(m) && k < |OutSubs(m)|
    ensures forall j | 0 <= j < k :: OutSubs(m)[j].suffix != OutSubs(m)[k].suffix
    ensures var sub := OutSubs(m)[k];
            sub.suffix == OutWord(m.params[i], i) && sub.body == OutArg(i)
            && Zero(sub.ret) == NoValue(m.params[i].shape.scalar)
  {
    OutSubsAre(m);
    ScalarTexts(m.params[i].shape.scalar);
    var b := Before(m);
    k := b + i;
    var subs := OutSubs(m);
    hide OutSubs, OutWord, Scalar, RName, AllScalarRefs, NoValue, Zero;
    forall j | 0 <= j < k ensures subs[j].suffix != subs[k].suffix {
      if j >= b {
        assert subs[b + (j - b)].suffix == OutWord(m.params[j - b], j - b);
      }
    }
    hide ScalarOuts, Dense;
  }

  lemma {:induction false} PartText(a: string, x: string)
    ensures a + ("_" + x) == a + "_" + x
  {
  }

  /** Reading `<field>_valid` answers with what the method returns. */
  lemma {:induction false} ValidAnswers(ctx: Ctx, spec: Spec, m: Method, seen: set<string>, b: bool,
                                        outs: seq<CppValue>)
    requires IsGet(m.name) && m.params != [] && ScalarOuts(m) && Dense(m.ret) == "bool"
    ensures var o := OutParamPlan(ctx, spec, m, seen);
            var free := IsFree(ctx, seen, spec.key + "_" + Snake(m.name) + "_valid");
            && ReadField(o, Snake(m.name) + "_valid", Some(MethodCall(Scal(Flag(b)), outs)))
               == (if free then Some(Flag(b)) else None)
            && ReadField(o, Snake(m.name) + "_valid", None) == (if free then Some(Flag(false)) else None)
  {
    OutSubsAre(m);
    assert OutSubs(m)[0] == Sub("valid", CBool, RBool, OutFlag, "bool");
    FlagEval(b, outs);
    hide *;
    OutPartAnswers(ctx, spec, m, seen, 0, Some(MethodCall(Scal(Flag(b)), outs)));
    OutPartAnswers(ctx, spec, m, seen, 0, None);
    PartText(spec.key + "_" + Snake(m.name), "valid");
    PartText(Snake(m.name), "valid");
    assert "_" + "valid" == "_valid";
  }

  lemma {:induction false} FlagEval(b: bool, outs: seq<CppValue>)
    ensures Answer(OutFlag, CBool, Some(MethodCall(Scal(Flag(b)), outs)), 0) == Flag(b)
    ensures Answer(OutFlag, CBool, None, 0) == Flag(false)
  {
  }

  /** The types of the reader of parameter `i`: those of the scalar that it refers to. */
  lemma {:induction false} OutTyped(ctx: Ctx, spec: Spec, m: Method, seen: set<string>, i: nat, row: Reading)
    returns (k: nat)
    requires IsGet(m.name) && ScalarOuts(m) && i < |m.params|
    requires PlainRow(m.params[i].shape.scalar, row)
    requires forall j | 0 <= j < i :: OutWord(m.params[j], j) != OutWord(m.params[i], i)
    requires Dense(m.ret) == "bool" ==> OutWord(m.params[i], i) != "valid"
    requires IsFree(ctx, seen, spec.key + "_" + Snake(m.name) + "_" + OutWord(m.params[i], i))
    ensures var o, fn, keys := OutParamPlan(ctx, spec, m, seen),
                               spec.key + "_" + Snake(m.name) + "_" + OutWord(m.params[i], i), KeyR(spec);
            && o.Bound? && k < |o.plan.units| && |o.plan.units| == |o.plan.apis| == |o.plan.regs|
            && o.plan.units[k] == Unit(fn, row.c, row.r, [], [], OutArg(i))
            && o.plan.apis[k] == ApiFn(fn, keys, row.r, fn, ArgNames(keys))
            && o.plan.regs[k]
               == RegEntry(spec.cls, Snake(m.name) + "_" + OutWord(m.params[i], i), row.word, spec.args, fn)
  {
    var n := OutFirst(m, i);
    var sub := OutSubs(m)[n];
    OutTypes(m, i, n, row);
    OutPlanIs(ctx, spec, m, seen);
    hide *;
    k := PartPlaced(ctx, spec, m, OutSubs(m), seen, n);
  }

  lemma {:induction false} OutTypes(m: Method, i: nat, n: nat, row: Reading)
    requires ScalarOuts(m) && AllScalarRefs(m) && i < |m.params| && n < |OutSubs(m)| && OutSubs(m)[n].body == OutArg(i)
    requires PlainRow(m.params[i].shape.scalar, row)
    ensures OutSubs(m)[n].ret == row.c && OutSubs(m)[n].rret == row.r && OutSubs(m)[n].value == row.word
  {
    OutSubsAre(m);
    var b := Before(m);
    assert b + (n - b) == n;
    ScalarTexts(m.params[i].shape.scalar);
    ScalarRowOnly(m.params[i].shape.scalar, row);
    ScalarRow(m.params[i].shape.scalar, row);
    hide OutSubs, OutWord, Scalar, RName, Dense, PlainRow;
  }

  lemma {:induction false} ScalarRowOnly(t: string, row: Reading)
    requires PlainRow(t, row) && Scalar(t).Some?
    ensures row.body == Value
  {
    hide Scalar, PlainRow;
    if row.body != Value {
      TextRow(t, row);
    }
  }

  /** Where a component that is bound stands in the plan. */
  lemma {:induction false} PartPlaced(ctx: Ctx, spec: Spec, m: Method, subs: seq<Sub>, seen: set<string>, i: nat)
    returns (k: nat)
    requires i < |subs| && forall j | 0 <= j < i :: subs[j].suffix != subs[i].suffix
    requires IsFree(ctx, seen, spec.key + "_" + Snake(m.name) + "_" + subs[i].suffix)
    ensures var plan, fn, keys := SubsPlan(ctx, spec, m, subs, seen),
                                  spec.key + "_" + Snake(m.name) + "_" + subs[i].suffix, KeyR(spec);
            && k < |plan.units| && |plan.units| == |plan.apis| == |plan.regs|
            && plan.units[k] == Unit(fn, subs[i].ret, subs[i].rret, [], [], subs[i].body)
            && plan.apis[k] == ApiFn(fn, keys, subs[i].rret, fn, ArgNames(keys))
            && plan.regs[k] == RegEntry(spec.cls, Snake(m.name) + "_" + subs[i].suffix, subs[i].value, spec.args, fn)
  {
    PartNameIs(spec, m, subs[i]);
    var ix := SubsExactly(ctx, spec, m, subs, seen);
    hide SubsPlan, PartName, Snake, KeyR, ArgNames;
    assert FirstFree(ctx, spec, m, subs, seen, i);
    k :| 0 <= k < |ix| && ix[k] == i;
  }

  // ---- the containers ----------------------------------------------------------------------

  /** The one vector that a method fills is read as one list: its numbers, or its pairs flattened, the first
      and the second of each after another. */
  lemma {:induction false} VectorAnswers(ctx: Ctx, spec: Spec, m: Method, seen: set<string>, result: CppValue,
                                         v: CppValue)
    requires IsGet(m.name) && |m.params| == 1 && (m.params[0].shape.IntVecRef? || m.params[0].shape.PairVecRef?)
    requires IsFree(ctx, seen, spec.key + "_" + Snake(m.name))
    ensures var o := OutParamPlan(ctx, spec, m, seen);
            && o.Bound?
            && OneReader(spec, m, o.plan, Reading(CVecInt32, RVecI32, "list", OutVector(m.params[0].shape.PairVecRef?)))
            && ReadField(o, Snake(m.name), None) == Some(Numbers([]))
            && (m.params[0].shape.IntVecRef? && v.Ints?
                ==> ReadField(o, Snake(m.name), Some(MethodCall(result, [v]))) == Some(Numbers(v.ns)))
            && (m.params[0].shape.PairVecRef? && v.IntPairs?
                ==> exists ns: seq<int> ::
                      && ReadField(o, Snake(m.name), Some(MethodCall(result, [v]))) == Some(Numbers(ns))
                      && |ns| == 2 * |v.ps|
                      && forall j | 0 <= j < |v.ps| :: ns[2 * j] == v.ps[j].0 && ns[2 * j + 1] == v.ps[j].1)
  {
    hide *;
    VectorPlanIs(ctx, spec, m, seen);
    var row := Reading(CVecInt32, RVecI32, "list", OutVector(m.params[0].shape.PairVecRef?));
    var o := OutParamPlan(ctx, spec, m, seen);
    VectorEval(m.params[0].shape.PairVecRef?, result, v);
    if m.params[0].shape.PairVecRef? && v.IntPairs? {
      PairsFlat(v.ps);
    }
    OneAnswers(spec, m, o.plan, row, Some(MethodCall(result, [v])));
    OneAnswers(spec, m, o.plan, row, None);
  }

  lemma {:induction false} VectorPlanIs(ctx: Ctx, spec: Spec, m: Method, seen: set<string>)
    requires IsGet(m.name) && |m.params| == 1 && (m.params[0].shape.IntVecRef? || m.params[0].shape.PairVecRef?)
    requires IsFree(ctx, seen, spec.key + "_" + Snake(m.name))
    ensures var o := OutParamPlan(ctx, spec, m, seen);
            && o.Bound?
            && OneReader(spec, m, o.plan, Reading(CVecInt32, RVecI32, "list", OutVector(m.params[0].shape.PairVecRef?)))
  {
    GetIs(m.name);
    FnIs(spec, m);
    OneReaderIs(spec, m, Reading(CVecInt32, RVecI32, "list", OutVector(m.params[0].shape.PairVecRef?)));
    hide OnePlan, OneReader, NameOf, Snake, SubsPlan, OutSubs;
  }

  lemma {:induction false} VectorEval(pairs: bool, result: CppValue, v: CppValue)
    ensures var call := Some(MethodCall(result, [v]));
            && Answer(OutVector(pairs), CVecInt32, None, 0) == Numbers([])
            && (!pairs && v.Ints? ==> Answer(OutVector(pairs), CVecInt32, call, 0) == Numbers(v.ns))
            && (pairs && v.IntPairs? ==> Answer(OutVector(pairs), CVecInt32, call, 0) == Numbers(FlatTable.Pairs(v.ps)))
  {
  }

  lemma {:induction false} PairsFlat(ps: FlatTable.PairRow)
    ensures var ns := FlatTable.Pairs(ps);
            |ns| == 2 * |ps| && forall j | 0 <= j < |ps| :: ns[2 * j] == ps[j].0 && ns[2 * j + 1] == ps[j].1
  {
    if ps != [] {
      PairsFlat(ps[1..]);
      var ns, more := FlatTable.Pairs(ps), FlatTable.Pairs(ps[1..]);
      assert ns == [ps[0].0, ps[0].1] + more;
      forall j | 0 <= j < |ps| ensures ns[2 * j] == ps[j].0 && ns[2 * j + 1] == ps[j].1 {
        if j > 0 {
          assert ns[2 * j] == more[2 * (j - 1)] && ns[2 * j + 1] == more[2 * (j - 1) + 1];
          assert ps[1..][j - 1] == ps[j];
        }
      }
    }
  }

  /** The word a parameter of the table reader is read under. */
  function TableWord(m: Method, i: nat): string
    requires i < |m.params|
  {
    var p := m.params[i];
    Snake(if p.name.Some? && p.name.value != "" then p.name.value else "a" + Digits(i))
  }

  /** The five parts: the table, then names and indexes of each map. */
  function TableParts(m: Method): seq<string>
    requires |m.params| == 3
  {
    [TableWord(m, 0), TableWord(m, 1) + "_names", TableWord(m, 1) + "_indexes",
     TableWord(m, 2) + "_names", TableWord(m, 2) + "_indexes"]
  }

  predicate TableOuts(m: Method) {
    && |m.params| == 3
    && m.params[0].shape.TableRef? && m.params[1].shape.NameMapRef? && m.params[2].shape.NameMapRef?
  }

  lemma {:induction false} TableSubsAre(m: Method)
    requires |m.params| == 3
    ensures var subs, p := TableSubs(m), TableParts(m);
            && |subs| == 5
            && subs[0] == Sub(p[0], CVecInt32, RVecI32, TableRows, "list")
            && subs[1] == Sub(p[1], CVecString, RVecString, MapNames(1), "list")
            && subs[2] == Sub(p[2], CVecUint32, RVecU32, MapIndexes(1), "list")
            && subs[3] == Sub(p[3], CVecString, RVecString, MapNames(2), "list")
            && subs[4] == Sub(p[4], CVecUint32, RVecU32, MapIndexes(2), "list")
            && forall k | 0 <= k < 5 :: subs[k].suffix == p[k]
  {
    hide Snake, Digits;
  }

  lemma {:induction false} TablePlanIs(ctx: Ctx, spec: Spec, m: Method, seen: set<string>)
    requires IsGet(m.name) && TableOuts(m)
    ensures var plan := SubsPlan(ctx, spec, m, TableSubs(m), seen);
            OutParamPlan(ctx, spec, m, seen) == if plan.units == [] then Declined else Bound(plan)
  {
    GetIs(m.name);
    hide SubsPlan, TableSubs, OutSubs, NameOf, Snake;
    assert !AllScalarRefs(m) by { assert !m.params[0].shape.ScalarRef?; }
  }

  /** What part `k` is of a table and two maps. */
  function TablePart(k: nat, t: FlatTable.Table, a: seq<(string, int)>, b: seq<(string, int)>): Datum
    requires k < 5
  {
    match k
    case 0 => Numbers(FlatTable.Encode(t))
    case 1 => Strs(EntryKeys(a))
    case 2 => Numbers(EntryValues(a))
    case 3 => Strs(EntryKeys(b))
    case _ => Numbers(EntryValues(b))
  }

  /** The table reader: the field of each part, the first of its name, answers with the flattened table, or
      with the keys or the values of its own map. */
  lemma {:induction false} TableAnswers(ctx: Ctx, spec: Spec, m: Method, seen: set<string>, k: nat, result: CppValue,
                                        t: FlatTable.Table, a: seq<(string, int)>, b: seq<(string, int)>)
    requires IsGet(m.name) && TableOuts(m) && k < 5
    requires forall j | 0 <= j < k :: TableParts(m)[j] != TableParts(m)[k]
    ensures ReadField(OutParamPlan(ctx, spec, m, seen), Snake(m.name) + "_" + TableParts(m)[k],
                      Some(MethodCall(result, [IntTable(t), NameMap(a), NameMap(b)])))
         == if IsFree(ctx, seen, spec.key + "_" + Snake(m.name) + "_" + TableParts(m)[k])
            then Some(TablePart(k, t, a, b)) else None
  {
    var call := Some(MethodCall(result, [IntTable(t), NameMap(a), NameMap(b)]));
    TableSubsAre(m);
    TablePlanIs(ctx, spec, m, seen);
    var subs := TableSubs(m);
    var plan := SubsPlan(ctx, spec, m, subs, seen);
    assert Answer(subs[k].body, subs[k].ret, call, 0) == TablePart(k, t, a, b) by { TableEval(m, k, result, t, a, b); }
    assert forall j | 0 <= j < k :: subs[j].suffix != subs[k].suffix;
    hide *;
    PartsAnswer(ctx, spec, m, subs, seen, k, call);
    NothingAnswers(plan, Snake(m.name) + "_" + subs[k].suffix, call);
  }

  lemma {:induction false} TableEval(m: Method, k: nat, result: CppValue, t: FlatTable.Table, a: seq<(string, int)>,
                                     b: seq<(string, int)>)
    requires |m.params| == 3 && k < 5
    ensures |TableSubs(m)| == 5
    ensures Answer(TableSubs(m)[k].body, TableSubs(m)[k].ret,
                   Some(MethodCall(result, [IntTable(t), NameMap(a), NameMap(b)])), 0)
         == TablePart(k, t, a, b)
  {
    TableSubsAre(m);
    hide TableSubs, TableParts, FlatTable.Encode, EntryKeys, EntryValues;
  }

  /** A decoder of the flat form, told nothing else, gets back from those five fields the table that the method
      wrote and both maps entry by entry. */
  lemma {:induction false} TableReadBack(t: FlatTable.Table, a: seq<(string, int)>, k: nat)
    requires FlatTable.SizesFit(t) && k < |a|
    ensures FlatTable.Decode(TablePart(0, t, a, a).ns) == Some((t, []))
    ensures TablePart(1, t, a, a).ss[k] == a[k].0 && TablePart(2, t, a, a).ns[k] == a[k].1
  {
    FlatTable.DecodeEncode(t, []);
    hide FlatTable.Encode, FlatTable.Decode, FlatTable.SizesFit;
    assert FlatTable.Encode(t) + [] == FlatTable.Encode(t);
  }

  // ---- when one is bound -------------------------------------------------------------------

  /** A getter that writes to its parameters is read when it fills one vector and its name is free, or fills a
      table and two maps and a part's name is, or writes scalars and the name of one is, or of its result. */
  predicate CanReadOut(ctx: Ctx, spec: Spec, m: Method, seen: set<string>) {
    var fn := spec.key + "_" + Snake(m.name);
    && IsGet(m.name)
    && (|| (|m.params| == 1 && (m.params[0].shape.IntVecRef? || m.params[0].shape.PairVecRef?) && IsFree(ctx, seen, fn))
        || (TableOuts(m) && exists k :: 0 <= k < 5 && IsFree(ctx, seen, fn + "_" + TableParts(m)[k]))
        || (m.params != [] && ScalarOuts(m)
            && (|| (Dense(m.ret) == "bool" && IsFree(ctx, seen, fn + "_valid"))
                || exists i :: 0 <= i < |m.params| && IsFree(ctx, seen, fn + "_" + OutWord(m.params[i], i)))))
  }

  lemma {:induction false} OutExactly(ctx: Ctx, spec: Spec, m: Method, seen: set<string>)
    ensures OutParamPlan(ctx, spec, m, seen).Bound? <==> CanReadOut(ctx, spec, m, seen)
    ensures OutParamPlan(ctx, spec, m, seen) != Skipped
  {
    GetIs(m.name);
    FnIs(spec, m);
    ScalarOutsIs(m);
    if TableOuts(m) {
      TableFree(ctx, spec, m, seen);
    }
    if m.params != [] && ScalarOuts(m) {
      OutFree(ctx, spec, m, seen);
    }
    hide SubsPlan, TableSubs, OutSubs, NameOf, Snake, Dense, OutWord, TableParts, Scalar, AllScalarRefs;
    assert |m.params| == 1 && !m.params[0].shape.ScalarRef? ==> !ScalarOuts(m);
    assert TableOuts(m) ==> !ScalarOuts(m) by { if TableOuts(m) { assert !m.params[0].shape.ScalarRef?; } }
  }

  lemma {:induction false} TableFree(ctx: Ctx, spec: Spec, m: Method, seen: set<string>)
    requires TableOuts(m)
    ensures SubsPlan(ctx, spec, m, TableSubs(m), seen).units != []
       <==> exists k :: 0 <= k < 5 && IsFree(ctx, seen, spec.key + "_" + Snake(m.name) + "_" + TableParts(m)[k])
  {
    TableSubsAre(m);
    var subs := TableSubs(m);
    SubsUnits(ctx, spec, m, subs, seen);
    hide SubsPlan, TableSubs, TableParts, Snake, PartName;
    forall k | 0 <= k < 5
      ensures PartName(spec, m, subs[k]) == spec.key + "_" + Snake(m.name) + "_" + TableParts(m)[k]
    {
      PartNameIs(spec, m, subs[k]);
    }
  }

  lemma {:induction false} OutFree(ctx: Ctx, spec: Spec, m: Method, seen: set<string>)
    requires m.params != [] && ScalarOuts(m)
    ensures AllScalarRefs(m)
    ensures SubsPlan(ctx, spec, m, OutSubs(m), seen).units != []
       <==> || (Dense(m.ret) == "bool" && IsFree(ctx, seen, spec.key + "_" + Snake(m.name) + "_valid"))
            || exists i :: 0 <= i < |m.params|
                 && IsFree(ctx, seen, spec.key + "_" + Snake(m.name) + "_" + OutWord(m.params[i], i))
  {
    OutPartNames(spec, m);
    var subs, b := OutSubs(m), Before(m);
    SubsUnits(ctx, spec, m, subs, seen);
    TakenIs(ctx, seen);
    hide SubsPlan, OutSubs, OutWord, Snake, PartName, ScalarOuts, AllScalarRefs, Taken, IsFree, Dense;
    assert forall k | b <= k < |subs| :: PartName(spec, m, subs[k]) == PartName(spec, m, subs[b + (k - b)]);
  }

  lemma {:induction false} TakenIs(ctx: Ctx, seen: set<string>)
    ensures forall name :: Taken(ctx, seen, name) <==> !IsFree(ctx, seen, name)
  {
  }

  lemma {:induction false} OutPartNames(spec: Spec, m: Method)
    requires ScalarOuts(m)
    ensures AllScalarRefs(m) && |OutSubs(m)| == Before(m) + |m.params|
    ensures Before(m) == 1 ==> PartName(spec, m, OutSubs(m)[0]) == spec.key + "_" + Snake(m.name) + "_valid"
    ensures forall i | 0 <= i < |m.params| ::
              PartName(spec, m, OutSubs(m)[Before(m) + i])
              == spec.key + "_" + Snake(m.name) + "_" + OutWord(m.params[i], i)
  {
    OutSubsAre(m);
    var subs, b := OutSubs(m), Before(m);
    hide OutSubs, OutWord, Snake, PartName, Scalar, RName, ScalarOuts, AllScalarRefs;
    if b == 1 {
      PartNameIs(spec, m, subs[0]);
      assert "_" + "valid" == "_valid";
      PartText(spec.key + "_" + Snake(m.name), "valid");
    }
    forall i | 0 <= i < |m.params|
      ensures PartName(spec, m, subs[b + i]) == spec.key + "_" + Snake(m.name) + "_" + OutWord(m.params[i], i)
    {
      PartNameIs(spec, m, subs[b + i]);
    }
    hide *;
  }
}
