/** Which readers a method must be given, and with which types: the decision of `add` as a table over the
    kind of the method and the text of its return type. */
module Readers {
  import opened Options
  import opened Text
  import opened Names
  import opened Targets
  import opened Bindings
  import opened TypeTexts

  // ---- the table ---------------------------------------------------------------------------

  /** How a value is declared on both sides, what the registry calls it, and how it is answered. */
  datatype Reading = Reading(c: CTy, r: RTy, word: string, body: Body)

  /** Return types answered by one value, by their text without blanks. */
  predicate PlainRow(t: string, row: Reading) {
    || (t in {"int", "int32_t"} && row == Reading(CInt32, RI32, "i32", Value))
    || (t in {"uint", "uint32_t", "unsigned"} && row == Reading(CUint32, RU32, "u32", Value))
    || (t == "bool" && row == Reading(CBool, RBool, "bool", Value))
    || (t == "float" && row == Reading(CFloat, RF32, "f32", Value))
    || (t == "double" && row == Reading(CDouble, RF64, "f64", Value))
    || (t in {"std::string", "conststd::string&", "std::string&"}
        && row == Reading(CString, RString, "string", StringValue))
    || (t in {"constchar*", "char*"} && row == Reading(CString, RString, "string", CharPtrValue))
  }

  /** The enums that spell their values. */
  predicate SpellingEnum(ret: string) {
    || ret in {"dbSigType", "dbIoType", "dbPlacementStatus", "dbOrientType", "dbSourceType", "dbWireType"}
    || ret in {"dbOrientType3D", "dbTechLayerMinStepType"}
  }

  /** The enums nested in a class that do not, and the helper that spells them. */
  predicate NestedEnum(cls: string, ret: string, helper: string) {
    || (cls == "dbChip" && ret == "ChipType" && helper == "chip_type_str")
    || (cls == "dbChipRegion" && ret == "Side" && helper == "chip_region_side_str")
    || (cls == "dbTechLayerCutEnclosureRule" && ret == "ENC_TYPE" && helper == "cut_enclosure_type_str")
    || (cls == "dbTechLayerCutSpacingRule" && ret == "CutSpacingType" && helper == "cut_spacing_type_str")
    || (cls == "dbTechLayerCutSpacingTableDefRule" && ret == "LOOKUP_STRATEGY" && helper == "cut_spacing_lookup_str")
    || (cls == "dbTechLayerCornerSpacingRule" && ret == "CornerType" && helper == "corner_spacing_type_str")
    || (cls == "dbUnfoldedChipRegionInst" && ret == "EffectiveSide" && helper == "unfolded_side_str")
  }

  predicate ValueRow(cls: string, ret: string, row: Reading) {
    || PlainRow(Dense(ret), row)
    || (SpellingEnum(ret) && row == Reading(CString, RString, "string", EnumText))
    || (row.body.MappedEnum? && NestedEnum(cls, ret, row.body.helper)
        && row == Reading(CString, RString, "string", MappedEnum(row.body.helper)))
  }

  ghost predicate OneValue(cls: string, ret: string) {
    exists row: Reading :: ValueRow(cls, ret, row)
  }

  /** A geometry struct returned by value: its name, with its namespace or not. */
  predicate StructText(ret: string, base: string) {
    && base in {"Point", "Rect", "Point3D"} && Strip(Replace(ret, "odb::", "")) == base
    && '<' !in ret && '&' !in ret && '*' !in ret
  }

  /** The components of a struct: the suffix of the reader and the accessor it answers with. */
  predicate Component(base: string, i: nat, suffix: string, accessor: string) {
    match base
    case "Point" => (i, suffix, accessor) in {(0, "x", "getX"), (1, "y", "getY")}
    case "Rect" => (i, suffix, accessor) in {(0, "x_min", "xMin"), (1, "y_min", "yMin"), (2, "x_max", "xMax"),
                                             (3, "y_max", "yMax"), (4, "dx", "dx"), (5, "dy", "dy")}
    case "Point3D" => (i, suffix, accessor) in {(0, "x", "x"), (1, "y", "y"), (2, "z", "z")}
    case _ => false
  }

  // ---- when a reader must be bound ---------------------------------------------------------

  predicate IsFree(ctx: Ctx, seen: set<string>, name: string) {
    name !in seen && name !in ctx.reservedFn && name !in ctx.reservedDb
  }

  predicate ListFree(spec: Spec, m: Method, seen: set<string>) {
    var fn := spec.key + "_" + Snake(m.name);
    "num_" + fn !in seen && "nth_" + fn !in seen && "all_" + fn !in seen
  }

  predicate IsValue(m: Method) {
    (m.kind == Getter && m.vecElem.None?) || m.kind == Predicate
  }

  ghost predicate SomeComponentFree(ctx: Ctx, spec: Spec, m: Method, seen: set<string>, base: string) {
    exists i: nat, suffix, accessor ::
      Component(base, i, suffix, accessor) && IsFree(ctx, seen, spec.key + "_" + Snake(m.name) + "_" + suffix)
  }

  predicate IsClass(ctx: Ctx, cls: string) {
    exists i :: 0 <= i < |ctx.table| && ctx.table[i].cls == cls
  }

  /** What can be read without arguments: a value of a known type, a struct with a component whose name is
      free, the name of an object, a list of names, the number of objects. */
  ghost predicate CanRead(ctx: Ctx, spec: Spec, m: Method, seen: set<string>) {
    && IsFree(ctx, seen, spec.key + "_" + Snake(m.name))
    && (|| (IsValue(m) && OneValue(spec.cls, m.ret))
        || (IsValue(m) && !OneValue(spec.cls, m.ret)
            && exists base :: StructText(m.ret, base) && SomeComponentFree(ctx, spec, m, seen, base))
        || (m.kind == Getter && m.vecElem.Some? && m.vecElem.value in ctx.nameable && ListFree(spec, m, seen))
        || (m.kind == Relation && exists cls :: PointsTo(m.ret, cls) && cls in ctx.nameable)
        || (m.kind == Iterator && exists cls ::
              && SetOf(m.ret, cls)
              && if cls in ctx.nameable then ListFree(spec, m, seen)
                 else IsClass(ctx, cls) && "num_" + spec.key + "_" + Snake(m.name) !in seen))
  }

  // ---- the rows are the emitter's ----------------------------------------------------------

  lemma {:induction false} FnIs(spec: Spec, m: Method)
    ensures FnName(spec, m) == spec.key + "_" + Snake(m.name)
    ensures ListName(Num, spec, m) == "num_" + spec.key + "_" + Snake(m.name)
    ensures ListName(Num, spec, m) == "num_" + (spec.key + "_" + Snake(m.name))
    ensures ListName(Nth, spec, m) == "nth_" + (spec.key + "_" + Snake(m.name))
    ensures ListName(All, spec, m) == "all_" + (spec.key + "_" + Snake(m.name))
  {
    hide Snake;
    var key, f := spec.key, Snake(m.name);
    assert "" + key + "_" + f == key + "_" + f;
    assert "num_" + key + "_" + f == "num_" + (key + "_" + f);
    assert "nth_" + key + "_" + f == "nth_" + (key + "_" + f);
    assert "all_" + key + "_" + f == "all_" + (key + "_" + f);
  }

  lemma {:induction false} ScalarRow(t: string, row: Reading)
    requires row.body == Value
    ensures PlainRow(t, row) <==> Scalar(t).Some? && row == Reading(Scalar(t).value.0, Scalar(t).value.1,
                                                                RName(Scalar(t).value.1), Value)
  {
    assert "bool"[0] == 'b' && "uint"[0] == 'u';
  }

  lemma {:induction false} TextRow(t: string, row: Reading)
    requires row.body != Value && PlainRow(t, row)
    ensures Scalar(t).None?
    ensures || (t in {"std::string", "conststd::string&", "std::string&"}
                && row == Reading(CString, RString, "string", StringValue))
            || (t in {"constchar*", "char*"} && t !in {"std::string", "conststd::string&", "std::string&"}
                && row == Reading(CString, RString, "string", CharPtrValue))
  {
    assert "char*"[0] == 'c' && "float"[0] == 'f';
  }

  /** Starts no type that is answered plainly. */
  lemma {:induction false} NotPlain(t: string, row: Reading)
    requires |t| > 1 && (('A' <= t[0] <= 'Z') || t[..2] == "db")
    ensures !PlainRow(t, row) && Scalar(t).None?
    ensures t !in {"std::string", "conststd::string&", "std::string&", "constchar*", "char*"}
  {
    assert t[..2] == "db" ==> t[0] == 'd' && t[1] == 'b' by { assert "db"[0] == 'd' && "db"[1] == 'b'; }
    assert t != "double" by { assert "double"[1] == 'o'; }
  }

  lemma {:induction false} EnumStarts(ret: string)
    ensures SpellingEnum(ret) ==> |ret| > 1 && ret[..2] == "db" && ret[0] == 'd' && ' ' !in ret
  {
  }

  lemma {:induction false} EnumIs(ret: string)
    ensures SpellingEnum(ret) <==> ret in ENUMS
  {
  }

  lemma {:induction false} NestedIs(cls: string, ret: string, helper: string)
    ensures NestedEnum(cls, ret, helper) <==> (cls, ret) in ENUM_MAPPED && ENUM_MAPPED[(cls, ret)] == helper
  {
  }

  lemma {:induction false} NestedStarts(cls: string, ret: string, helper: string)
    requires NestedEnum(cls, ret, helper)
    ensures |ret| > 1 && 'A' <= ret[0] <= 'Z' && ' ' !in ret && !SpellingEnum(ret)
  {
    EnumStarts(ret);
    NestedNames(cls, ret, helper);
    hide SpellingEnum, NestedEnum;
  }

  lemma {:induction false} NestedNames(cls: string, ret: string, helper: string)
    requires NestedEnum(cls, ret, helper)
    ensures ret in {"ChipType", "Side", "ENC_TYPE", "CutSpacingType", "LOOKUP_STRATEGY", "CornerType", "EffectiveSide"}
  {
  }

  /** The emitter's own decision on a value is the row of the table. */
  lemma {:induction false} ValueIs(ctx: Ctx, spec: Spec, m: Method, seen: set<string>, row: Reading)
    requires ValueRow(spec.cls, m.ret, row)
    ensures ValuePlan(ctx, spec, m, seen) == OnePlan(spec, m, row.c, row.r, row.body, row.word)
  {
    var t := Norm(m.ret);
    DenseIs(m.ret);
    hide Norm, Dense, OnePlan, StructPlan, Scalar, RName, ENUMS, ENUM_MAPPED;
    if PlainRow(t, row) {
      if row.body == Value {
        ScalarRow(t, row);
      } else {
        TextRow(t, row);
      }
    } else if SpellingEnum(m.ret) && row.body == EnumText {
      EnumStarts(m.ret);
      EnumIs(m.ret);
      DenseWhole(m.ret);
      NotPlain(t, row);
    } else {
      NestedIs(spec.cls, m.ret, row.body.helper);
      NestedStarts(spec.cls, m.ret, row.body.helper);
      EnumIs(m.ret);
      DenseWhole(m.ret);
      NotPlain(t, row);
    }
  }

  lemma {:induction false} OneValueIs(cls: string, ret: string)
    ensures OneValue(cls, ret)
       <==> || Scalar(Norm(ret)).Some?
            || Norm(ret) in {"std::string", "conststd::string&", "std::string&", "constchar*", "char*"}
            || ret in ENUMS || (cls, ret) in ENUM_MAPPED
  {
    var t := Norm(ret);
    DenseIs(ret);
    EnumIs(ret);
    hide Norm, Dense, Scalar, RName, ENUMS, ENUM_MAPPED, SpellingEnum, NestedEnum;
    if Scalar(t).Some? {
      var row := Reading(Scalar(t).value.0, Scalar(t).value.1, RName(Scalar(t).value.1), Value);
      ScalarRow(t, row);
      assert ValueRow(cls, ret, row);
    } else if t in {"std::string", "conststd::string&", "std::string&"} {
      assert ValueRow(cls, ret, Reading(CString, RString, "string", StringValue));
    } else if t in {"constchar*", "char*"} {
      assert ValueRow(cls, ret, Reading(CString, RString, "string", CharPtrValue));
    } else if ret in ENUMS {
      assert ValueRow(cls, ret, Reading(CString, RString, "string", EnumText));
    } else if (cls, ret) in ENUM_MAPPED {
      NestedIs(cls, ret, ENUM_MAPPED[(cls, ret)]);
      assert ValueRow(cls, ret, Reading(CString, RString, "string", MappedEnum(ENUM_MAPPED[(cls, ret)])));
    } else {
      forall row ensures !ValueRow(cls, ret, row) {
        NoRow(cls, ret, row);
      }
    }
  }

  lemma {:induction false} NoRow(cls: string, ret: string, row: Reading)
    requires Scalar(Norm(ret)).None? && ret !in ENUMS && (cls, ret) !in ENUM_MAPPED
    requires Norm(ret) !in {"std::string", "conststd::string&", "std::string&", "constchar*", "char*"}
    ensures !ValueRow(cls, ret, row)
  {
    DenseIs(ret);
    EnumIs(ret);
    hide Norm, Dense, ENUMS, ENUM_MAPPED, SpellingEnum, NestedEnum;
    if row.body.MappedEnum? {
      NestedIs(cls, ret, row.body.helper);
    }
  }

  lemma {:induction false} StructIs(ret: string, base: string)
    ensures StructText(ret, base) <==> StructBase(ret) == base && base in STRUCT_FIELDS && PlainType(ret)
  {
    hide Strip, Replace;
    assert "<&*" == ['<', '&', '*'];
  }

  lemma {:induction false} ComponentIs(base: string, i: nat, suffix: string, accessor: string)
    ensures Component(base, i, suffix, accessor)
       <==> base in STRUCT_FIELDS && i < |STRUCT_FIELDS[base]| && STRUCT_FIELDS[base][i] == (suffix, accessor)
  {
  }

  // ---- binding exactly ---------------------------------------------------------------------

  /** The name of the reader of component `i`. */
  function PartName(spec: Spec, m: Method, sub: Sub): string {
    NameOf(Single, spec.key, SubField(m, sub))
  }

  lemma {:induction false} PartNameIs(spec: Spec, m: Method, sub: Sub)
    ensures PartName(spec, m, sub) == spec.key + "_" + Snake(m.name) + "_" + sub.suffix
  {
    hide Snake;
    var key, f := spec.key, Snake(m.name);
    assert "" + key + "_" + (f + "_" + sub.suffix) == key + "_" + f + "_" + sub.suffix;
  }

  lemma {:induction false} SubsUnits(ctx: Ctx, spec: Spec, m: Method, subs: seq<Sub>, seen: set<string>)
    ensures SubsPlan(ctx, spec, m, subs, seen).units != []
       <==> exists i :: 0 <= i < |subs| && !Taken(ctx, seen, PartName(spec, m, subs[i]))
    decreases |subs|
  {
    hide NameOf, SubField, Taken;
    if subs != [] {
      var more := subs[1..];
      assert forall i | 0 <= i < |more| :: more[i] == subs[i + 1];
      assert forall i | 1 <= i < |subs| :: subs[i] == more[i - 1];
      if Taken(ctx, seen, PartName(spec, m, subs[0])) {
        SubsUnits(ctx, spec, m, more, seen);
      }
    }
  }

  lemma {:induction false} ComponentsFree(ctx: Ctx, spec: Spec, m: Method, seen: set<string>, base: string)
    requires base in STRUCT_FIELDS
    ensures SubsPlan(ctx, spec, m, StructSubs(STRUCT_FIELDS[base]), seen).units != []
       <==> SomeComponentFree(ctx, spec, m, seen, base)
  {
    hide STRUCT_FIELDS, Component, SubsPlan, Snake, PartName;
    var fields := STRUCT_FIELDS[base];
    var subs := StructSubs(fields);
    SubsUnits(ctx, spec, m, subs, seen);
    forall i | 0 <= i < |subs|
      ensures PartName(spec, m, subs[i]) == spec.key + "_" + Snake(m.name) + "_" + fields[i].0
      ensures Component(base, i, fields[i].0, fields[i].1)
    {
      PartNameIs(spec, m, subs[i]);
      ComponentIs(base, i, fields[i].0, fields[i].1);
    }
    forall i: nat, suffix, accessor | Component(base, i, suffix, accessor)
      ensures i < |subs| && fields[i] == (suffix, accessor)
    {
      ComponentIs(base, i, suffix, accessor);
    }
  }

  /** What `add` does with a value. */
  lemma {:induction false} ValueBinds(ctx: Ctx, spec: Spec, m: Method, seen: set<string>)
    ensures ValuePlan(ctx, spec, m, seen).Bound?
       <==> || OneValue(spec.cls, m.ret)
            || exists base :: StructText(m.ret, base) && SomeComponentFree(ctx, spec, m, seen, base)
    ensures !ValuePlan(ctx, spec, m, seen).Bound? ==> ValuePlan(ctx, spec, m, seen) == Skipped
  {
    hide Norm, SubsPlan, Scalar, ENUMS, ENUM_MAPPED, StructBase, STRUCT_FIELDS, StructText, SomeComponentFree, OneValue,
           RName, StructSubs, PlainType;
    if OneValue(spec.cls, m.ret) {
      OneValueFound(spec.cls, m.ret);
      var row: Reading :| ValueRow(spec.cls, m.ret, row);
      ValueIs(ctx, spec, m, seen, row);
    } else {
      OneValueIs(spec.cls, m.ret);
      forall base ensures StructText(m.ret, base)
                     <==> StructBase(m.ret) == base && base in STRUCT_FIELDS && PlainType(m.ret)
      {
        StructIs(m.ret, base);
      }
      if StructBase(m.ret) in STRUCT_FIELDS {
        ComponentsFree(ctx, spec, m, seen, StructBase(m.ret));
      }
    }
  }

  lemma {:induction false} OneValueFound(cls: string, ret: string)
    requires OneValue(cls, ret)
    ensures exists row: Reading :: ValueRow(cls, ret, row)
  {
  }

  lemma {:induction false} RelationBinds(ctx: Ctx, m: Method)
    ensures RelationTarget(m.ret) in ctx.nameable <==> exists cls :: PointsTo(m.ret, cls) && cls in ctx.nameable
  {
    forall cls ensures RelationTarget(m.ret) == cls <==> PointsTo(m.ret, cls) {
      TargetIs(m.ret, cls);
    }
    hide RelationTarget, PointsTo;
  }

  lemma {:induction false} IteratorBinds(ctx: Ctx, spec: Spec, m: Method, seen: set<string>)
    ensures (if IteratorElem(m.ret) in ctx.nameable then ListFree(spec, m, seen)
             else FindSpec(ctx.table, IteratorElem(m.ret)).Some? && ListName(Num, spec, m) !in seen)
       <==> exists cls ::
              && SetOf(m.ret, cls)
              && if cls in ctx.nameable then ListFree(spec, m, seen)
                 else IsClass(ctx, cls) && "num_" + spec.key + "_" + Snake(m.name) !in seen
  {
    FnIs(spec, m);
    FindIs(ctx.table, IteratorElem(m.ret));
    forall cls ensures IteratorElem(m.ret) == cls <==> SetOf(m.ret, cls) {
      ElemIs(m.ret, cls);
    }
    hide IteratorElem, SetOf, FindSpec, ListFree, NameOf, Snake;
  }

  /** The method is listed or counted, and a name of its readers is taken. */
  ghost predicate ListTaken(ctx: Ctx, spec: Spec, m: Method, seen: set<string>) {
    || (m.kind == Getter && m.vecElem.Some? && m.vecElem.value in ctx.nameable && !ListFree(spec, m, seen))
    || (m.kind == Iterator && exists cls ::
          && SetOf(m.ret, cls)
          && if cls in ctx.nameable then !ListFree(spec, m, seen)
             else IsClass(ctx, cls) && "num_" + spec.key + "_" + Snake(m.name) in seen)
  }

  lemma {:induction false} IteratorTaken(ctx: Ctx, spec: Spec, m: Method, seen: set<string>)
    ensures (if IteratorElem(m.ret) in ctx.nameable then !ListFree(spec, m, seen)
             else FindSpec(ctx.table, IteratorElem(m.ret)).Some? && ListName(Num, spec, m) in seen)
       <==> exists cls ::
              && SetOf(m.ret, cls)
              && if cls in ctx.nameable then !ListFree(spec, m, seen)
                 else IsClass(ctx, cls) && "num_" + spec.key + "_" + Snake(m.name) in seen
  {
    FnIs(spec, m);
    FindIs(ctx.table, IteratorElem(m.ret));
    forall cls ensures IteratorElem(m.ret) == cls <==> SetOf(m.ret, cls) {
      ElemIs(m.ret, cls);
    }
    hide IteratorElem, SetOf, FindSpec, ListFree, NameOf, Snake;
  }

  /** `add` binds a reader if and only if the method can be read. Of the others it counts as skipped
      exactly those whose own name is free and none of whose list names is taken. */
  lemma {:induction false} AddExactly(ctx: Ctx, spec: Spec, m: Method, seen: set<string>)
    ensures AddPlan(ctx, spec, m, seen).Bound? <==> CanRead(ctx, spec, m, seen)
    ensures AddPlan(ctx, spec, m, seen) == Declined
       <==> !IsFree(ctx, seen, spec.key + "_" + Snake(m.name)) || ListTaken(ctx, spec, m, seen)
  {
    FnIs(spec, m);
    ValueBinds(ctx, spec, m, seen);
    RelationBinds(ctx, m);
    IteratorBinds(ctx, spec, m, seen);
    IteratorTaken(ctx, spec, m, seen);
    hide ValuePlan, OneValue, StructText, SomeComponentFree, PointsTo, SetOf, RelationTarget, IteratorElem, FindSpec,
           FnName, NameOf, Snake, IsClass, CountUnit;
  }

  // ---- what is added -----------------------------------------------------------------------

  /** The keys as parameters: positions by size, names by text, on both sides under their own names. */
  lemma {:induction false} KeysAre(spec: Spec, i: nat)
    requires i < |spec.args|
    ensures KeyC(spec)[i] == Arg(spec.args[i].name, if spec.args[i].Named? then CStr else CSize)
    ensures KeyR(spec)[i] == Arg(spec.args[i].name, if spec.args[i].Named? then RStr else RUsize)
    ensures ArgNames(KeyR(spec))[i] == spec.args[i].name
  {
  }

  /** One function, its wrapper of the same name, and the entry of the method's field. */
  predicate OneReader(spec: Spec, m: Method, plan: Plan, row: Reading) {
    var fn, keys := spec.key + "_" + Snake(m.name), KeyR(spec);
    && plan.units == [Unit(fn, row.c, row.r, [], [], row.body)]
    && plan.apis == [ApiFn(fn, keys, row.r, fn, ArgNames(keys))]
    && plan.regs == [RegEntry(spec.cls, Snake(m.name), row.word, spec.args, fn)]
    && plan.names == {fn}
  }

  lemma {:induction false} OneReaderIs(spec: Spec, m: Method, row: Reading)
    ensures var o := OnePlan(spec, m, row.c, row.r, row.body, row.word); o.Bound? && OneReader(spec, m, o.plan, row)
  {
    FnIs(spec, m);
    hide FnName, KeyR, ArgNames, Snake;
  }

  /** A value is read by one function of the types in its row. */
  lemma {:induction false} AddsValue(ctx: Ctx, spec: Spec, m: Method, seen: set<string>, row: Reading)
    requires IsFree(ctx, seen, spec.key + "_" + Snake(m.name)) && IsValue(m) && ValueRow(spec.cls, m.ret, row)
    ensures AddPlan(ctx, spec, m, seen).Bound? && OneReader(spec, m, AddPlan(ctx, spec, m, seen).plan, row)
  {
    FnIs(spec, m);
    ValueIs(ctx, spec, m, seen, row);
    OneReaderIs(spec, m, row);
    hide ValuePlan, OnePlan, OneReader, NameOf, Snake, ValueRow;
  }

  /** An object is read by one function that gives its name. */
  lemma {:induction false} AddsTarget(ctx: Ctx, spec: Spec, m: Method, seen: set<string>, cls: string)
    requires IsFree(ctx, seen, spec.key + "_" + Snake(m.name))
    requires m.kind == Relation && PointsTo(m.ret, cls) && cls in ctx.nameable
    ensures AddPlan(ctx, spec, m, seen).Bound?
    ensures OneReader(spec, m, AddPlan(ctx, spec, m, seen).plan, Reading(CString, RString, "string", TargetName))
  {
    FnIs(spec, m);
    TargetIs(m.ret, cls);
    OneReaderIs(spec, m, Reading(CString, RString, "string", TargetName));
    hide OnePlan, OneReader, NameOf, Snake, PointsTo, RelationTarget;
  }

  /** A list is read by three functions, its length, the name at a position and all the names, and one
      wrapper, under the method's own name, that gives all the names. */
  predicate ListReader(spec: Spec, m: Method, plan: Plan, copies: bool) {
    var fn, keys := spec.key + "_" + Snake(m.name), KeyR(spec);
    && plan.units == [Unit("num_" + fn, CSize, RUsize, [], [], CountOf),
                      Unit("nth_" + fn, CString, RString, [Arg("i", CSize)], [Arg("i", RUsize)], NthName(copies)),
                      Unit("all_" + fn, CVecString, RVecString, [], [], AllNames)]
    && plan.apis == [ApiFn(fn, keys, RVecString, "all_" + fn, ArgNames(keys))]
    && plan.regs == [RegEntry(spec.cls, Snake(m.name), "list", spec.args, fn)]
    && plan.names == {fn, "num_" + fn, "nth_" + fn, "all_" + fn}
  }

  lemma {:induction false} ListReaderIs(spec: Spec, m: Method, seen: set<string>)
    requires ListFree(spec, m, seen)
    ensures ListPlan(spec, m, seen).Bound? && ListReader(spec, m, ListPlan(spec, m, seen).plan, m.kind == Getter)
  {
    FnIs(spec, m);
    hide NameOf, KeyR, ArgNames, Snake;
  }

  lemma {:induction false} AddsList(ctx: Ctx, spec: Spec, m: Method, seen: set<string>, cls: string)
    requires IsFree(ctx, seen, spec.key + "_" + Snake(m.name)) && ListFree(spec, m, seen) && cls in ctx.nameable
    requires (m.kind == Getter && m.vecElem == Some(cls)) || (m.kind == Iterator && SetOf(m.ret, cls))
    ensures AddPlan(ctx, spec, m, seen).Bound?
    ensures ListReader(spec, m, AddPlan(ctx, spec, m, seen).plan, m.kind == Getter)
  {
    FnIs(spec, m);
    ElemIs(m.ret, cls);
    ListReaderIs(spec, m, seen);
    hide ListPlan, ListReader, ListFree, NameOf, Snake, SetOf, IteratorElem, ValuePlan;
  }

  /** A set of objects that have no name of their own is counted, under the counter's name alone. */
  lemma {:induction false} AddsCount(ctx: Ctx, spec: Spec, m: Method, seen: set<string>, cls: string)
    requires IsFree(ctx, seen, spec.key + "_" + Snake(m.name)) && m.kind == Iterator && SetOf(m.ret, cls)
    requires cls !in ctx.nameable && IsClass(ctx, cls)
    requires "num_" + spec.key + "_" + Snake(m.name) !in seen
    ensures var num, keys := "num_" + spec.key + "_" + Snake(m.name), KeyR(spec);
            AddPlan(ctx, spec, m, seen) == Bound(Plan(
              [Unit(num, CSize, RUsize, [], [], CountOf)], [ApiFn(num, keys, RUsize, num, ArgNames(keys))],
              [RegEntry(spec.cls, Snake(m.name), "u64", spec.args, num)], {num}))
  {
    FnIs(spec, m);
    ElemIs(m.ret, cls);
    FindIs(ctx.table, cls);
    hide NameOf, Snake, SetOf, IteratorElem, FindSpec, KeyR, ArgNames, ListPlan;
  }

  // ---- components --------------------------------------------------------------------------

  /** Component `i` has a free name, and no component before it has its suffix. */
  predicate FirstFree(ctx: Ctx, spec: Spec, m: Method, subs: seq<Sub>, seen: set<string>, i: nat)
    requires i < |subs|
  {
    && !Taken(ctx, seen, PartName(spec, m, subs[i]))
    && forall j | 0 <= j < i :: subs[j].suffix != subs[i].suffix
  }

  /** The unit, the wrapper and the entry of one component. */
  predicate PartOf(spec: Spec, m: Method, sub: Sub, u: Unit, a: ApiFn, r: RegEntry) {
    var fn := PartName(spec, m, sub);
    && u == Unit(fn, sub.ret, sub.rret, [], [], sub.body)
    && a == ApiFn(fn, KeyR(spec), sub.rret, fn, ArgNames(KeyR(spec)))
    && r == RegEntry(spec.cls, Snake(m.name) + "_" + sub.suffix, sub.value, spec.args, fn)
  }

  predicate BoundParts(spec: Spec, m: Method, subs: seq<Sub>, ix: seq<nat>, plan: Plan) {
    && |plan.units| == |plan.apis| == |plan.regs| == |ix|
    && forall a | 0 <= a < |ix| ::
         ix[a] < |subs| && PartOf(spec, m, subs[ix[a]], plan.units[a], plan.apis[a], plan.regs[a])
  }

  lemma {:induction false} NamesDiffer(spec: Spec, m: Method, a: Sub, b: Sub)
    ensures PartName(spec, m, a) == PartName(spec, m, b) <==> a.suffix == b.suffix
  {
    PartNameIs(spec, m, a);
    PartNameIs(spec, m, b);
    hide PartName, Snake;
    var p := spec.key + "_" + Snake(m.name) + "_";
    assert (p + a.suffix)[|p|..] == a.suffix && (p + b.suffix)[|p|..] == b.suffix;
  }

  function SeenNext(ctx: Ctx, spec: Spec, m: Method, sub: Sub, seen: set<string>): set<string> {
    if Taken(ctx, seen, PartName(spec, m, sub)) then seen else seen + {PartName(spec, m, sub)}
  }

  lemma {:induction false} FirstFreeNext(ctx: Ctx, spec: Spec, m: Method, subs: seq<Sub>, seen: set<string>, i: nat)
    requires 0 < i < |subs|
    ensures FirstFree(ctx, spec, m, subs, seen, i)
       <==> FirstFree(ctx, spec, m, subs[1..], SeenNext(ctx, spec, m, subs[0], seen), i - 1)
  {
    NamesDiffer(spec, m, subs[0], subs[i]);
    hide PartName;
    var more := subs[1..];
    assert forall j | 0 <= j < |more| :: more[j] == subs[j + 1];
    assert forall j | 1 <= j < |subs| :: subs[j] == more[j - 1];
  }

  function Shifted(ix: seq<nat>): (r: seq<nat>)
    ensures |r| == |ix| && forall a | 0 <= a < |ix| :: r[a] == ix[a] + 1
  {
    seq(|ix|, a requires 0 <= a < |ix| => ix[a] + 1)
  }

  lemma {:induction false} ShiftedHas(ix: seq<nat>, i: nat)
    ensures i in Shifted(ix) <==> i > 0 && i - 1 in ix
  {
    if i > 0 && i - 1 in ix {
      var a :| 0 <= a < |ix| && ix[a] == i - 1;
      assert Shifted(ix)[a] == i;
    }
  }

  /** The components are bound in order, each under its own name, the first of those that share one. */
  lemma {:induction false} SubsExactly(ctx: Ctx, spec: Spec, m: Method, subs: seq<Sub>, seen: set<string>)
    returns (ix: seq<nat>)
    ensures Increasing(ix) && BoundParts(spec, m, subs, ix, SubsPlan(ctx, spec, m, subs, seen))
    ensures forall i: nat :: i in ix <==> i < |subs| && FirstFree(ctx, spec, m, subs, seen, i)
    decreases |subs|
  {
    if subs == [] {
      ix := [];
    } else {
      var taken := Taken(ctx, seen, PartName(spec, m, subs[0]));
      var more := SubsExactly(ctx, spec, m, subs[1..], SeenNext(ctx, spec, m, subs[0], seen));
      forall i: nat ensures i in Shifted(more) <==> 0 < i < |subs| && FirstFree(ctx, spec, m, subs, seen, i) {
        ShiftedHas(more, i);
        if 0 < i < |subs| {
          FirstFreeNext(ctx, spec, m, subs, seen, i);
        }
        hide FirstFree, Shifted;
      }
      hide FirstFree, SubsPlan, PartName, PartOf;
      assert !taken <==> FirstFree(ctx, spec, m, subs, seen, 0) by { FirstIsFree(ctx, spec, m, subs, seen); }
      SubsStep(ctx, spec, m, subs, seen, more);
      ix := if taken then Shifted(more) else [0] + Shifted(more);
      FrontIncreasing(more);
      assert forall i: nat :: i in [0] + Shifted(more) <==> i == 0 || i in Shifted(more);
    }
  }

  lemma {:induction false} FirstIsFree(ctx: Ctx, spec: Spec, m: Method, subs: seq<Sub>, seen: set<string>)
    requires subs != []
    ensures FirstFree(ctx, spec, m, subs, seen, 0) <==> !Taken(ctx, seen, PartName(spec, m, subs[0]))
  {
  }

  lemma {:induction false} FrontIncreasing(more: seq<nat>)
    requires Increasing(more)
    ensures Increasing(Shifted(more)) && Increasing([0] + Shifted(more))
  {
  }

  lemma {:induction false} PartsShift(spec: Spec, m: Method, subs: seq<Sub>, more: seq<nat>, plan: Plan)
    requires subs != [] && BoundParts(spec, m, subs[1..], more, plan)
    ensures BoundParts(spec, m, subs, Shifted(more), plan)
  {
    hide PartOf;
    assert forall i | 0 <= i < |subs[1..]| :: subs[1..][i] == subs[i + 1];
  }

  lemma {:induction false} PartsCons(spec: Spec, m: Method, subs: seq<Sub>, more: seq<nat>, plan: Plan, u: Unit,
                                     a: ApiFn, r: RegEntry, all: Plan)
    requires subs != [] && BoundParts(spec, m, subs, more, plan) && PartOf(spec, m, subs[0], u, a, r)
    requires all.units == [u] + plan.units && all.apis == [a] + plan.apis && all.regs == [r] + plan.regs
    ensures BoundParts(spec, m, subs, [0] + more, all)
  {
    hide PartOf;
    var ix := [0] + more;
    forall k | 0 <= k < |ix|
      ensures ix[k] < |subs| && PartOf(spec, m, subs[ix[k]], all.units[k], all.apis[k], all.regs[k])
    {
      if k > 0 {
        assert ix[k] == more[k - 1];
      }
    }
  }

  lemma {:induction false} SubsStep(ctx: Ctx, spec: Spec, m: Method, subs: seq<Sub>, seen: set<string>,
                                    more: seq<nat>)
    requires subs != []
    requires BoundParts(spec, m, subs[1..], more,
                     SubsPlan(ctx, spec, m, subs[1..], SeenNext(ctx, spec, m, subs[0], seen)))
    ensures BoundParts(spec, m, subs, if Taken(ctx, seen, PartName(spec, m, subs[0])) then Shifted(more)
                                   else [0] + Shifted(more), SubsPlan(ctx, spec, m, subs, seen))
  {
    hide NameOf, KeyR, ArgNames, Snake, BoundParts, SubField, KeyedApi;
    var sub := subs[0];
    var fn := PartName(spec, m, sub);
    var rest := SubsPlan(ctx, spec, m, subs[1..], SeenNext(ctx, spec, m, sub, seen));
    PartsShift(spec, m, subs, more, rest);
    if !Taken(ctx, seen, fn) {
      PartIs(spec, m, sub);
      PartsCons(spec, m, subs, Shifted(more), rest, Unit(fn, sub.ret, sub.rret, [], [], sub.body),
        KeyedApi(spec, fn, sub.rret, fn), RegEntry(spec.cls, SubField(m, sub), sub.value, spec.args, fn),
        SubsPlan(ctx, spec, m, subs, seen));
    }
  }

  lemma {:induction false} PartIs(spec: Spec, m: Method, sub: Sub)
    ensures var fn := PartName(spec, m, sub);
            PartOf(spec, m, sub, Unit(fn, sub.ret, sub.rret, [], [], sub.body), KeyedApi(spec, fn, sub.rret, fn),
                   RegEntry(spec.cls, SubField(m, sub), sub.value, spec.args, fn))
  {
    hide NameOf, Snake, KeyR, ArgNames;
  }

  /** A component of a struct is read by one function that answers with its accessor. */
  predicate ComponentReader(spec: Spec, m: Method, suffix: string, accessor: string, u: Unit, a: ApiFn, r: RegEntry) {
    var fn, keys := spec.key + "_" + Snake(m.name) + "_" + suffix, KeyR(spec);
    && u == Unit(fn, CInt32, RI32, [], [], Accessor(accessor))
    && a == ApiFn(fn, keys, RI32, fn, ArgNames(keys))
    && r == RegEntry(spec.cls, Snake(m.name) + "_" + suffix, "i32", spec.args, fn)
  }

  ghost predicate ReadsComponent(spec: Spec, m: Method, base: string, i: nat, u: Unit, a: ApiFn, r: RegEntry) {
    exists suffix, accessor ::
      Component(base, i, suffix, accessor) && ComponentReader(spec, m, suffix, accessor, u, a, r)
  }

  lemma {:induction false} ComponentReaderIs(spec: Spec, m: Method, suffix: string, accessor: string, u: Unit, a: ApiFn,
                                             r: RegEntry)
    requires PartOf(spec, m, Sub(suffix, CInt32, RI32, Accessor(accessor), "i32"), u, a, r)
    ensures ComponentReader(spec, m, suffix, accessor, u, a, r)
  {
    PartNameIs(spec, m, Sub(suffix, CInt32, RI32, Accessor(accessor), "i32"));
    hide PartName, KeyR, ArgNames, Snake;
  }

  lemma {:induction false} SuffixesDiffer(base: string, i: nat, j: nat)
    requires base in STRUCT_FIELDS && i < j < |STRUCT_FIELDS[base]|
    ensures STRUCT_FIELDS[base][i].0 != STRUCT_FIELDS[base][j].0
  {
    assert "x"[0] == 'x' && "y"[0] == 'y' && "z"[0] == 'z' && "dx"[1] == 'x' && "dy"[1] == 'y';
    assert "x_min"[0] == 'x' && "x_min"[3] == 'i' && "y_min"[0] == 'y' && "y_min"[3] == 'i';
    assert "x_max"[0] == 'x' && "x_max"[3] == 'a' && "y_max"[0] == 'y' && "y_max"[3] == 'a';
  }

  /** A struct is read by its components in order, those whose names are free. */
  lemma {:induction false} AddsComponents(ctx: Ctx, spec: Spec, m: Method, seen: set<string>, base: string)
    returns (ix: seq<nat>)
    requires IsFree(ctx, seen, spec.key + "_" + Snake(m.name)) && IsValue(m)
    requires !OneValue(spec.cls, m.ret) && StructText(m.ret, base) && SomeComponentFree(ctx, spec, m, seen, base)
    ensures AddPlan(ctx, spec, m, seen).Bound? && Increasing(ix)
    ensures forall i: nat :: i in ix <==> exists suffix, accessor ::
              Component(base, i, suffix, accessor) && IsFree(ctx, seen, spec.key + "_" + Snake(m.name) + "_" + suffix)
    ensures var plan := AddPlan(ctx, spec, m, seen).plan;
            && |plan.units| == |plan.apis| == |plan.regs| == |ix|
            && forall a | 0 <= a < |ix| ::
                 ReadsComponent(spec, m, base, ix[a], plan.units[a], plan.apis[a], plan.regs[a])
  {
    StructIs(m.ret, base);
    ComponentsFree(ctx, spec, m, seen, base);
    StructAdded(ctx, spec, m, seen, base);
    ix := StructBound(ctx, spec, m, seen, base);
    hide *;
  }

  lemma {:induction false} StructAdded(ctx: Ctx, spec: Spec, m: Method, seen: set<string>, base: string)
    requires IsFree(ctx, seen, spec.key + "_" + Snake(m.name)) && IsValue(m) && !OneValue(spec.cls, m.ret)
    requires StructBase(m.ret) == base && base in STRUCT_FIELDS && PlainType(m.ret)
    requires SubsPlan(ctx, spec, m, StructSubs(STRUCT_FIELDS[base]), seen).units != []
    ensures AddPlan(ctx, spec, m, seen) == Bound(SubsPlan(ctx, spec, m, StructSubs(STRUCT_FIELDS[base]), seen))
  {
    FnIs(spec, m);
    OneValueIs(spec.cls, m.ret);
    hide NameOf, Snake, Norm, OneValue, Scalar, StructBase, STRUCT_FIELDS, ENUMS, ENUM_MAPPED, SubsPlan, PlainType;
  }

  lemma {:induction false} StructBound(ctx: Ctx, spec: Spec, m: Method, seen: set<string>, base: string)
    returns (ix: seq<nat>)
    requires base in STRUCT_FIELDS
    ensures Increasing(ix)
    ensures forall i: nat :: i in ix <==> exists suffix, accessor ::
              Component(base, i, suffix, accessor) && IsFree(ctx, seen, spec.key + "_" + Snake(m.name) + "_" + suffix)
    ensures var plan := SubsPlan(ctx, spec, m, StructSubs(STRUCT_FIELDS[base]), seen);
            && |plan.units| == |plan.apis| == |plan.regs| == |ix|
            && forall a | 0 <= a < |ix| ::
                 ReadsComponent(spec, m, base, ix[a], plan.units[a], plan.apis[a], plan.regs[a])
  {
    var fields := STRUCT_FIELDS[base];
    var subs := StructSubs(fields);
    var plan := SubsPlan(ctx, spec, m, subs, seen);
    ix := SubsExactly(ctx, spec, m, subs, seen);
    hide SubsPlan, STRUCT_FIELDS, Component, FirstFree, Snake, PartOf, ComponentReader, Increasing;
    forall i: nat ensures i in ix <==> exists suffix, accessor ::
      Component(base, i, suffix, accessor) && IsFree(ctx, seen, spec.key + "_" + Snake(m.name) + "_" + suffix)
    {
      PartFree(ctx, spec, m, seen, base, i);
    }
    forall a | 0 <= a < |ix|
      ensures ReadsComponent(spec, m, base, ix[a], plan.units[a], plan.apis[a], plan.regs[a])
    {
      var f := fields[ix[a]];
      ComponentIs(base, ix[a], f.0, f.1);
      ComponentReaderIs(spec, m, f.0, f.1, plan.units[a], plan.apis[a], plan.regs[a]);
    }
  }

  lemma {:induction false} PartFree(ctx: Ctx, spec: Spec, m: Method, seen: set<string>, base: string, i: nat)
    requires base in STRUCT_FIELDS
    ensures (i < |STRUCT_FIELDS[base]| && FirstFree(ctx, spec, m, StructSubs(STRUCT_FIELDS[base]), seen, i))
       <==> exists suffix, accessor ::
              Component(base, i, suffix, accessor) && IsFree(ctx, seen, spec.key + "_" + Snake(m.name) + "_" + suffix)
  {
    var fields := STRUCT_FIELDS[base];
    var subs := StructSubs(fields);
    forall suffix, accessor
      ensures Component(base, i, suffix, accessor) <==> i < |fields| && fields[i] == (suffix, accessor)
    {
      ComponentIs(base, i, suffix, accessor);
    }
    hide STRUCT_FIELDS, Component, Snake, PartName;
    if i < |subs| {
      PartNameIs(spec, m, subs[i]);
      forall j | 0 <= j < i ensures subs[j].suffix != subs[i].suffix {
        SuffixesDiffer(base, j, i);
      }
      assert Component(base, i, fields[i].0, fields[i].1);
    }
  }

  // ---- what a call leaves in the buffers ---------------------------------------------------

  /** A call that binds appends, for every function of its plan, a declaration with the keys in front, a
      definition that resolves the object and calls the database's method, a bridge entry and a re-export;
      then its wrappers and entries; and it counts one more for the class. Any other call only counts. */
  lemma {:induction false} Appends(s: Surface, spec: Spec, odb: string, plan: Plan, k: nat)
    requires k < |plan.units|
    ensures var t, u := After(s, spec, odb, Bound(plan)), plan.units[k];
            var decl := Decl(u.name, u.ret, KeyC(spec) + u.moreC);
            && |t.h| == |s.h| + |plan.units| && t.h[..|s.h|] == s.h && t.h[|s.h| + k] == decl
            && |t.cc| == |s.cc| + |plan.units| && t.cc[..|s.cc|] == s.cc
            && t.cc[|s.cc| + k] == Def(decl, spec.resolver, odb, u.body)
            && |t.bridge| == |s.bridge| + |plan.units| && t.bridge[..|s.bridge|] == s.bridge
            && t.bridge[|s.bridge| + k] == BridgeFn(u.name, KeyR(spec) + u.moreR, u.rret)
            && |t.reexport| == |s.reexport| + |plan.units| && t.reexport[..|s.reexport|] == s.reexport
            && t.reexport[|s.reexport| + k] == u.name
            && t.api == s.api + plan.apis && t.reg == s.reg + plan.regs && t.skipped == s.skipped
            && t.perClass == s.perClass[spec.cls := if spec.cls in s.perClass then s.perClass[spec.cls] + 1 else 1]
  {
    hide KeyC, KeyR;
  }

  lemma {:induction false} OnlyCounts(s: Surface, spec: Spec, odb: string)
    ensures After(s, spec, odb, Declined) == s
    ensures After(s, spec, odb, Skipped) == s.(skipped := s.skipped + 1)
  {
  }
}
