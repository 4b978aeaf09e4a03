/** What the emitter writes: declarations, definitions, bridge entries, wrappers, registry entries,
    and, for every read emitter, the plan of what one call adds. */
module Bindings {
  import opened Options
  import opened Text
  import opened Names
  import opened Targets

  // ---- the two sides of the bridge ---------------------------------------------------------

  datatype CTy = CBool | CInt32 | CUint32 | CInt64 | CUint64 | CFloat | CDouble
               | CStr | CString | CSize | CVecInt32 | CVecUint32 | CVecString | CVoid

  datatype RTy = RBool | RI32 | RU32 | RI64 | RU64 | RF32 | RF64
               | RStr | RString | RUsize | RVecI32 | RVecU32 | RVecString | RUnitResult

  /** The type cxx requires on the Rust side of a C++ type: anything else does not build. */
  function Bridged(c: CTy): RTy {
    match c
    case CBool => RBool
    case CInt32 => RI32
    case CUint32 => RU32
    case CInt64 => RI64
    case CUint64 => RU64
    case CFloat => RF32
    case CDouble => RF64
    case CStr => RStr
    case CString => RString
    case CSize => RUsize
    case CVecInt32 => RVecI32
    case CVecUint32 => RVecU32
    case CVecString => RVecString
    case CVoid => RUnitResult
  }

  datatype Arg<+T> = Arg(name: string, ty: T)

  predicate SameArgs(cs: seq<Arg<CTy>>, rs: seq<Arg<RTy>>) {
    |cs| == |rs| && forall i | 0 <= i < |cs| :: rs[i] == Arg(cs[i].name, Bridged(cs[i].ty))
  }

  function ArgNames<T>(args: seq<Arg<T>>): (names: seq<string>)
    ensures |names| == |args| && forall i | 0 <= i < |args| :: names[i] == args[i].name
  {
    seq(|args|, i requires 0 <= i < |args| => args[i].name)
  }

  function KeyC(spec: Spec): (r: seq<Arg<CTy>>)
    ensures |r| == |spec.args|
  {
    seq(|spec.args|, i requires 0 <= i < |spec.args| =>
      Arg(spec.args[i].name, if spec.args[i].Index? then CSize else CStr))
  }

  /** The Rust parameters that carry the keys. */
  function ArgsOf(keys: seq<Key>): (r: seq<Arg<RTy>>)
    ensures |r| == |keys|
  {
    seq(|keys|, i requires 0 <= i < |keys| => Arg(keys[i].name, if keys[i].Index? then RUsize else RStr))
  }

  function KeyR(spec: Spec): (r: seq<Arg<RTy>>)
    ensures |r| == |spec.args|
  {
    ArgsOf(spec.args)
  }

  // ---- what a header method looks like -----------------------------------------------------

  datatype Kind = Getter | Predicate | Relation | Iterator | Setter | Other

  /** What the out-parameter patterns say of a parameter type, a pattern being given by its result:
      a scalar reference, one of the container references, or none of them. */
  datatype Shape = ScalarRef(scalar: string) | IntVecRef | PairVecRef | TableRef | NameMapRef | OtherShape

  datatype Param = Param(ty: string, name: Option<string>, shape: Shape)

  /** `vecElem` is the class a `std::vector` of db pointers holds, when the return type is one. */
  datatype Method = Method(name: string, ret: string, kind: Kind, params: seq<Param>, vecElem: Option<string>)

  // ---- the emitter's constant tables -------------------------------------------------------

  /** `SCALAR`: a C++ scalar return type, and how the bridge spells it. */
  function Scalar(t: string): Option<(CTy, RTy)> {
    if t == "int" || t == "int32_t" then Some((CInt32, RI32))
    else if t == "uint" || t == "uint32_t" || t == "unsigned" then Some((CUint32, RU32))
    else if t == "bool" then Some((CBool, RBool))
    else if t == "float" then Some((CFloat, RF32))
    else if t == "double" then Some((CDouble, RF64))
    else None
  }

  const ENUMS := {"dbSigType", "dbIoType", "dbPlacementStatus", "dbOrientType", "dbSourceType",
                  "dbWireType", "dbOrientType3D", "dbTechLayerMinStepType"}

  /** `ENUM_MAPPED`: the helper that spells a nested enum, by owning class and enum name. */
  const ENUM_MAPPED: map<(string, string), string> := map[
    ("dbChip", "ChipType") := "chip_type_str",
    ("dbChipRegion", "Side") := "chip_region_side_str",
    ("dbTechLayerCutEnclosureRule", "ENC_TYPE") := "cut_enclosure_type_str",
    ("dbTechLayerCutSpacingRule", "CutSpacingType") := "cut_spacing_type_str",
    ("dbTechLayerCutSpacingTableDefRule", "LOOKUP_STRATEGY") := "cut_spacing_lookup_str",
    ("dbTechLayerCornerSpacingRule", "CornerType") := "corner_spacing_type_str",
    ("dbUnfoldedChipRegionInst", "EffectiveSide") := "unfolded_side_str"
  ]

  /** `STRUCT_FIELDS`: suffix and accessor of every component of a geometry struct. */
  const STRUCT_FIELDS: map<string, seq<(string, string)>> := map[
    "Point" := [("x", "getX"), ("y", "getY")],
    "Rect" := [("x_min", "xMin"), ("y_min", "yMin"), ("x_max", "xMax"), ("y_max", "yMax"),
               ("dx", "dx"), ("dy", "dy")],
    "Point3D" := [("x", "x"), ("y", "y"), ("z", "z")]
  ]

  const RUST_KW := {"type", "match", "move", "ref", "box", "fn", "let", "mut", "self", "use", "mod",
    "impl", "as", "in", "loop", "if", "else", "for", "while", "const", "static", "trait", "where",
    "enum", "struct", "crate", "pub", "return", "break", "continue", "dyn", "async", "await", "gen",
    "become", "yield", "macro", "super", "true", "false", "unsafe", "extern"}

  /** What the run is given: the nameable classes, the table of bound classes, and the names already
      taken by hand. */
  datatype Ctx = Ctx(nameable: set<string>, table: seq<Spec>, reservedFn: set<string>, reservedDb: set<string>)

  function FindSpec(rows: seq<Spec>, cls: string): Option<Spec> {
    if rows == [] then None else if rows[0].cls == cls then Some(rows[0]) else FindSpec(rows[1..], cls)
  }

  // ---- text helpers of the generator -------------------------------------------------------

  function Norm(t: string): string {
    Replace(t, " ", "")
  }

  function Digits(n: nat): string {
    if n < 10 then [('0' as int + n) as char] else Digits(n / 10) + [('0' as int + n % 10) as char]
  }

  predicate AllCaps(s: string) {
    (exists i | 0 <= i < |s| :: IsUpper(s[i])) && forall i | 0 <= i < |s| :: !IsLower(s[i])
  }

  function Lowered(s: string): string {
    seq(|s|, i requires 0 <= i < |s| => ToLower(s[i]))
  }

  function IteratorElem(ret: string): string {
    var inner := if |ret| >= 6 then ret[6..] else "";
    Strip(RStripSet(Strip(RStripSet(inner, ">")), "*"))
  }

  function RelationTarget(ret: string): string {
    Strip(RStripSet(ret, "*"))
  }

  function StructBase(ret: string): string {
    Strip(Replace(ret, "odb::", ""))
  }

  predicate PlainType(ret: string) {
    forall i | 0 <= i < |ret| :: ret[i] !in "<&*"
  }

  // ---- the outputs -------------------------------------------------------------------------

  /** How a C++ definition answers once the resolver has found its object. */
  datatype Body = Value | StringValue | CharPtrValue | EnumText | MappedEnum(helper: string)
                | Accessor(accessor: string) | TargetName | CountOf | NthName(copies: bool) | AllNames
                | QueryOf(conversions: seq<Conversion>) | OutFlag | OutArg(index: nat)
                | OutVector(pairs: bool) | TableRows | MapNames(which: nat) | MapIndexes(which: nat)

  datatype Conversion = AsIs(arg: string) | AsString(arg: string) | AsCharPtr(arg: string)
      | Parsed(helper: string, arg: string)

  predicate ScalarTy(t: CTy) {
    t in {CBool, CInt32, CUint32, CFloat, CDouble}
  }

  /** The conversion takes the parameter it names, at the type it can take. */
  predicate Converts(c: Conversion, a: Arg<CTy>) {
    match c
    case AsIs(n) => a.name == n && a.ty in {CBool, CInt32}
    case AsString(n) => a == Arg(n, CStr)
    case AsCharPtr(n) => a == Arg(n, CStr)
    case Parsed(_, n) => a == Arg(n, CStr)
  }

  /** What the body gives back is of the declared type, and the parameters it reads beyond the keys
      are the last ones declared. */
  predicate BodyFits(body: Body, ret: CTy, params: seq<Arg<CTy>>) {
    match body
    case Value => ScalarTy(ret)
    case StringValue => ret == CString
    case CharPtrValue => ret == CString
    case EnumText => ret == CString
    case MappedEnum(_) => ret == CString
    case Accessor(_) => ret == CInt32
    case TargetName => ret == CString
    case CountOf => ret == CSize
    case NthName(_) => ret == CString && params != [] && params[|params| - 1] == Arg("i", CSize)
    case AllNames => ret == CVecString
    case QueryOf(cs) =>
      && ScalarTy(ret) && |cs| <= |params|
      && forall k | 0 <= k < |cs| :: Converts(cs[k], params[|params| - |cs| + k])
    case OutFlag => ret == CBool
    case OutArg(_) => ScalarTy(ret)
    case OutVector(_) => ret == CVecInt32
    case TableRows => ret == CVecInt32
    case MapNames(_) => ret == CVecString
    case MapIndexes(_) => ret == CVecUint32
  }

  datatype Decl = Decl(name: string, ret: CTy, params: seq<Arg<CTy>>)
  datatype Def = Def(decl: Decl, resolver: string, odb: string, body: Body)
  datatype BridgeFn = BridgeFn(name: string, params: seq<Arg<RTy>>, ret: RTy)
  datatype ApiFn = ApiFn(name: string, params: seq<Arg<RTy>>, ret: RTy, callee: string, forwards: seq<string>)
  datatype RegEntry = RegEntry(cls: string, field: string, value: string, keys: seq<Key>, api: string)

  /** The read buffers of the emitter. */
  datatype Surface = Surface(h: seq<Decl>, cc: seq<Def>, bridge: seq<BridgeFn>, reexport: seq<string>,
                             api: seq<ApiFn>, reg: seq<RegEntry>, perClass: map<string, nat>, skipped: nat)

  // ---- plans -------------------------------------------------------------------------------

  /** One generated function. */
  datatype Unit = Unit(name: string, ret: CTy, rret: RTy, moreC: seq<Arg<CTy>>, moreR: seq<Arg<RTy>>, body: Body)

  /** What one successful call appends, and the names it marks as seen. */
  datatype Plan = Plan(units: seq<Unit>, apis: seq<ApiFn>, regs: seq<RegEntry>, names: set<string>)

  const NOTHING := Plan([], [], [], {})

  /** A call binds, declines, or declines and counts the method as skipped. */
  datatype Outcome = Bound(plan: Plan) | Declined | Skipped

  function DeclOf(spec: Spec, u: Unit): Decl {
    Decl(u.name, u.ret, KeyC(spec) + u.moreC)
  }

  function DefOf(spec: Spec, odb: string, u: Unit): Def {
    Def(DeclOf(spec, u), spec.resolver, odb, u.body)
  }

  function BridgeOf(spec: Spec, u: Unit): BridgeFn {
    BridgeFn(u.name, KeyR(spec) + u.moreR, u.rret)
  }

  function Decls(spec: Spec, us: seq<Unit>): seq<Decl> {
    seq(|us|, i requires 0 <= i < |us| => DeclOf(spec, us[i]))
  }

  function Defs(spec: Spec, odb: string, us: seq<Unit>): seq<Def> {
    seq(|us|, i requires 0 <= i < |us| => DefOf(spec, odb, us[i]))
  }

  function BridgeFns(spec: Spec, us: seq<Unit>): seq<BridgeFn> {
    seq(|us|, i requires 0 <= i < |us| => BridgeOf(spec, us[i]))
  }

  function UnitNames(us: seq<Unit>): (r: seq<string>)
    ensures |r| == |us| && forall i | 0 <= i < |us| :: r[i] == us[i].name
  {
    seq(|us|, i requires 0 <= i < |us| => us[i].name)
  }

  function Counted(m: map<string, nat>, cls: string): map<string, nat> {
    m[cls := (if cls in m then m[cls] else 0) + 1]
  }

  /** The buffers after a plan. */
  function Write(s: Surface, spec: Spec, odb: string, plan: Plan): Surface {
    Surface(
      s.h + Decls(spec, plan.units),
      s.cc + Defs(spec, odb, plan.units),
      s.bridge + BridgeFns(spec, plan.units),
      s.reexport + UnitNames(plan.units),
      s.api + plan.apis,
      s.reg + plan.regs,
      s.perClass,
      s.skipped)
  }

  /** The buffers and the seen names after a call. */
  function After(s: Surface, spec: Spec, odb: string, o: Outcome): Surface {
    match o
    case Bound(plan) => Write(s, spec, odb, plan).(perClass := Counted(s.perClass, spec.cls))
    case Declined => s
    case Skipped => s.(skipped := s.skipped + 1)
  }

  function SeenAfter(seen: set<string>, o: Outcome): set<string> {
    match o
    case Bound(plan) => seen + plan.names
    case _ => seen
  }

  predicate Taken(ctx: Ctx, seen: set<string>, fn: string) {
    fn in seen || fn in ctx.reservedFn || fn in ctx.reservedDb
  }

  function FnName(spec: Spec, m: Method): string {
    NameOf(Single, spec.key, Snake(m.name))
  }

  function ListName(form: Form, spec: Spec, m: Method): string {
    NameOf(form, spec.key, Snake(m.name))
  }

  /** A wrapper that hands its own parameters, the keys, to one bridge function. */
  function KeyedApi(spec: Spec, name: string, ret: RTy, callee: string): ApiFn {
    ApiFn(name, KeyR(spec), ret, callee, ArgNames(KeyR(spec)))
  }

  function OnePlan(spec: Spec, m: Method, ret: CTy, rret: RTy, body: Body, value: string): Outcome {
    var fn := FnName(spec, m);
    Bound(Plan([Unit(fn, ret, rret, [], [], body)], [KeyedApi(spec, fn, rret, fn)],
               [RegEntry(spec.cls, Snake(m.name), value, spec.args, fn)], {fn}))
  }

  function CountUnit(spec: Spec, m: Method): Unit {
    Unit(ListName(Num, spec, m), CSize, RUsize, [], [], CountOf)
  }

  function ListPlan(spec: Spec, m: Method, seen: set<string>): Outcome {
    var fn, num, nth, all := FnName(spec, m), ListName(Num, spec, m), ListName(Nth, spec, m), ListName(All, spec, m);
    if num in seen || nth in seen || all in seen then Declined
    else
      Bound(Plan(
        [CountUnit(spec, m),
         Unit(nth, CString, RString, [Arg("i", CSize)], [Arg("i", RUsize)], NthName(m.kind == Getter)),
         Unit(all, CVecString, RVecString, [], [], AllNames)],
        [KeyedApi(spec, fn, RVecString, all)],
        [RegEntry(spec.cls, Snake(m.name), "list", spec.args, fn)],
        {num, nth, all, fn}))
  }

  function CountPlan(spec: Spec, m: Method, seen: set<string>): Outcome {
    var num := ListName(Num, spec, m);
    if num in seen then Declined
    else
      Bound(Plan([CountUnit(spec, m)], [KeyedApi(spec, num, RUsize, num)],
                 [RegEntry(spec.cls, Snake(m.name), "u64", spec.args, num)], {num}))
  }

  /** One component of an expanded method: the suffix of its name and how it is read. */
  datatype Sub = Sub(suffix: string, ret: CTy, rret: RTy, body: Body, value: string)

  function SubField(m: Method, sub: Sub): string {
    Snake(m.name) + "_" + sub.suffix
  }

  /** Every component whose name is free is bound under its own name; the others are passed over. */
  function SubsPlan(ctx: Ctx, spec: Spec, m: Method, subs: seq<Sub>, seen: set<string>): Plan
    decreases |subs|
  {
    if subs == [] then NOTHING
    else
      var fn := NameOf(Single, spec.key, SubField(m, subs[0]));
      if Taken(ctx, seen, fn) then SubsPlan(ctx, spec, m, subs[1..], seen)
      else
        var more := SubsPlan(ctx, spec, m, subs[1..], seen + {fn});
        var sub := subs[0];
        Plan([Unit(fn, sub.ret, sub.rret, [], [], sub.body)] + more.units,
             [KeyedApi(spec, fn, sub.rret, fn)] + more.apis,
             [RegEntry(spec.cls, SubField(m, sub), sub.value, spec.args, fn)] + more.regs,
             {fn} + more.names)
  }

  function RName(r: RTy): string {
    match r
    case RBool => "bool"
    case RI32 => "i32"
    case RU32 => "u32"
    case RI64 => "i64"
    case RU64 => "u64"
    case RF32 => "f32"
    case RF64 => "f64"
    case RStr => "&str"
    case RString => "String"
    case RUsize => "usize"
    case RVecI32 => "Vec<i32>"
    case RVecU32 => "Vec<u32>"
    case RVecString => "Vec<String>"
    case RUnitResult => "Result<()>"
  }

  /** How the registry describes a value of the wrapper's result type. */
  function ValueWord(r: RTy): string {
    match r
    case RVecI32 => "list"
    case RVecU32 => "list"
    case RVecString => "list"
    case RUsize => "u64"
    case RString => "string"
    case _ => RName(r)
  }

  function StructSubs(fields: seq<(string, string)>): seq<Sub> {
    seq(|fields|, i requires 0 <= i < |fields| => Sub(fields[i].0, CInt32, RI32, Accessor(fields[i].1), "i32"))
  }

  function StructPlan(ctx: Ctx, spec: Spec, m: Method, seen: set<string>): Outcome
    requires StructBase(m.ret) in STRUCT_FIELDS
  {
    var plan := SubsPlan(ctx, spec, m, StructSubs(STRUCT_FIELDS[StructBase(m.ret)]), seen);
    if plan.units == [] then Skipped else Bound(plan)
  }

  /** `add` on a getter or predicate that is not a vector of db pointers. */
  function ValuePlan(ctx: Ctx, spec: Spec, m: Method, seen: set<string>): Outcome {
    var n := Norm(m.ret);
    if Scalar(n).Some? then
      OnePlan(spec, m, Scalar(n).value.0, Scalar(n).value.1, Value, RName(Scalar(n).value.1))
    else if n in {"std::string", "conststd::string&", "std::string&"} then
      OnePlan(spec, m, CString, RString, StringValue, "string")
    else if n in {"constchar*", "char*"} then
      OnePlan(spec, m, CString, RString, CharPtrValue, "string")
    else if m.ret in ENUMS then
      OnePlan(spec, m, CString, RString, EnumText, "string")
    else if (spec.cls, m.ret) in ENUM_MAPPED then
      OnePlan(spec, m, CString, RString, MappedEnum(ENUM_MAPPED[(spec.cls, m.ret)]), "string")
    else if StructBase(m.ret) in STRUCT_FIELDS && PlainType(m.ret) then
      StructPlan(ctx, spec, m, seen)
    else Skipped
  }

  /** `add`. */
  function AddPlan(ctx: Ctx, spec: Spec, m: Method, seen: set<string>): Outcome {
    if Taken(ctx, seen, FnName(spec, m)) then Declined
    else if m.kind == Getter && m.vecElem.Some? then
      if m.vecElem.value !in ctx.nameable then Skipped else ListPlan(spec, m, seen)
    else
      match m.kind
      case Getter => ValuePlan(ctx, spec, m, seen)
      case Predicate => ValuePlan(ctx, spec, m, seen)
      case Relation =>
        if RelationTarget(m.ret) !in ctx.nameable then Skipped
        else OnePlan(spec, m, CString, RString, TargetName, "string")
      case Iterator =>
        if IteratorElem(m.ret) in ctx.nameable then ListPlan(spec, m, seen)
        else if FindSpec(ctx.table, IteratorElem(m.ret)).Some? then CountPlan(spec, m, seen)
        else Skipped
      case _ => Skipped
  }

  /** `add_vector_outparam_getter`. */
  function VectorPlan(ctx: Ctx, spec: Spec, m: Method, seen: set<string>): Outcome
    requires |m.params| == 1
  {
    var shape := m.params[0].shape;
    if !(shape.IntVecRef? || shape.PairVecRef?) || Taken(ctx, seen, FnName(spec, m)) then Declined
    else OnePlan(spec, m, CVecInt32, RVecI32, OutVector(shape.PairVecRef?), "list")
  }

  function ParamName(p: Param, i: nat): string {
    Snake(if p.name.Some? && p.name.value != "" then p.name.value else "a" + Digits(i))
  }

  function TableSubs(m: Method): seq<Sub>
    requires |m.params| == 3
  {
    var p := seq(3, i requires 0 <= i < 3 => ParamName(m.params[i], i));
    [Sub(p[0], CVecInt32, RVecI32, TableRows, "list"),
     Sub(p[1] + "_names", CVecString, RVecString, MapNames(1), "list"),
     Sub(p[1] + "_indexes", CVecUint32, RVecU32, MapIndexes(1), "list"),
     Sub(p[2] + "_names", CVecString, RVecString, MapNames(2), "list"),
     Sub(p[2] + "_indexes", CVecUint32, RVecU32, MapIndexes(2), "list")]
  }

  /** `add_table_and_maps_getter`. */
  function TablePlan(ctx: Ctx, spec: Spec, m: Method, seen: set<string>): Outcome
    requires |m.params| == 3
  {
    if !(m.params[0].shape.TableRef? && m.params[1].shape.NameMapRef? && m.params[2].shape.NameMapRef?) then Declined
    else
      var plan := SubsPlan(ctx, spec, m, TableSubs(m), seen);
      if plan.units == [] then Declined else Bound(plan)
  }

  predicate AllScalarRefs(m: Method) {
    forall i | 0 <= i < |m.params| :: m.params[i].shape.ScalarRef? && Scalar(m.params[i].shape.scalar).Some?
  }

  function OutName(p: Param, i: nat): string {
    if p.name.Some? && IsIdent(p.name.value) then Snake(p.name.value) else "a" + Digits(i)
  }

  function OutSub(m: Method, i: nat): Sub
    requires i < |m.params| && AllScalarRefs(m)
  {
    var ty := Scalar(m.params[i].shape.scalar).value;
    Sub(OutName(m.params[i], i), ty.0, ty.1, OutArg(i), RName(ty.1))
  }

  function OutSubs(m: Method): seq<Sub>
    requires AllScalarRefs(m)
  {
    (if Norm(m.ret) == "bool" then [Sub("valid", CBool, RBool, OutFlag, "bool")] else [])
    + seq(|m.params|, i requires 0 <= i < |m.params| => OutSub(m, i))
  }

  /** `add_outparam_getter`: the two container forms first, then one reader per scalar out. */
  function OutParamPlan(ctx: Ctx, spec: Spec, m: Method, seen: set<string>): Outcome {
    if !StartsWith(m.name, "get") || m.params == [] then Declined
    else if |m.params| == 1 && VectorPlan(ctx, spec, m, seen).Bound? then VectorPlan(ctx, spec, m, seen)
    else if |m.params| == 3 && TablePlan(ctx, spec, m, seen).Bound? then TablePlan(ctx, spec, m, seen)
    else if !AllScalarRefs(m) then Declined
    else
      var plan := SubsPlan(ctx, spec, m, OutSubs(m), seen);
      if plan.units == [] then Declined else Bound(plan)
  }

  // ---- `add_query` -------------------------------------------------------------------------

  function QueryRet(ret: string): Option<(CTy, RTy)> {
    var t := Collapse(Replace(ret, "const", ""));
    if t in {"int", "int32_t"} then Some((CInt32, RI32))
    else if t in {"uint", "uint32_t"} then Some((CUint32, RU32))
    else if t == "bool" then Some((CBool, RBool))
    else None
  }

  predicate QueryName(name: string) {
    || (StartsWith(name, "get") && |name| > 3 && IsUpper(name[3]))
    || (StartsWith(name, "is") && |name| > 2 && IsUpper(name[2]))
    || (StartsWith(name, "has") && |name| > 3 && IsUpper(name[3]))
  }

  function QueryParamName(p: Param, i: nat): string {
    var pn := if p.name.None? || p.name.value == "" then "a" + Digits(i)
              else if AllCaps(p.name.value) then Lowered(p.name.value) else Snake(p.name.value);
    if pn in RUST_KW then pn + "_" else pn
  }

  /** One query parameter: its two types and how the call converts it. */
  function QueryParam(cls: string, ty: string, pn: string): Option<(CTy, RTy, Conversion)> {
    var t := Collapse(Replace(Replace(ty, " &", "&"), " *", "*"));
    if t in {"std::string", "const std::string&"} then Some((CStr, RStr, AsString(pn)))
    else if t == "const char*" then Some((CStr, RStr, AsCharPtr(pn)))
    else if t == "bool" then Some((CBool, RBool, AsIs(pn)))
    else if t in {"int", "int32_t"} then Some((CInt32, RI32, AsIs(pn)))
    else if (cls, t) in ENUM_MAPPED then Some((CStr, RStr, Parsed(ENUM_MAPPED[(cls, t)], pn)))
    else None
  }

  function JoinedNames(ps: seq<Param>, i: nat): string
    requires i <= |ps|
    decreases |ps| - i
  {
    if i == |ps| then "" else "_" + QueryParamName(ps[i], i) + JoinedNames(ps, i + 1)
  }

  predicate QueryParamsOk(spec: Spec, m: Method) {
    forall i | 0 <= i < |m.params| :: QueryParam(spec.cls, m.params[i].ty, QueryParamName(m.params[i], i)).Some?
  }

  /** Parameter `i` of a query all of whose parameters are marshallable. */
  function QueryArg(spec: Spec, m: Method, i: nat): (CTy, RTy, Conversion)
    requires i < |m.params| && QueryParamsOk(spec, m)
  {
    QueryParam(spec.cls, m.params[i].ty, QueryParamName(m.params[i], i)).value
  }

  function QueryField(m: Method, overloaded: bool): string {
    Snake(m.name) + (if overloaded then JoinedNames(m.params, 0) else "")
  }

  function QueryUnit(spec: Spec, m: Method, fn: string, ret: (CTy, RTy)): Unit
    requires QueryParamsOk(spec, m)
  {
    var n := |m.params|;
    Unit(fn, ret.0, ret.1,
      seq(n, i requires 0 <= i < n => Arg(QueryParamName(m.params[i], i), QueryArg(spec, m, i).0)),
      seq(n, i requires 0 <= i < n => Arg(QueryParamName(m.params[i], i), QueryArg(spec, m, i).1)),
      QueryOf(seq(n, i requires 0 <= i < n => QueryArg(spec, m, i).2)))
  }

  /** `add_query`: bound, wrapped and re-exported, but not entered in the registry. */
  function QueryPlan(ctx: Ctx, spec: Spec, m: Method, overloaded: bool, seen: set<string>): Outcome {
    var fn := NameOf(Single, spec.key, QueryField(m, overloaded));
    if m.params == [] || !QueryName(m.name) || QueryRet(m.ret).None? || !QueryParamsOk(spec, m)
       || Taken(ctx, seen, fn) then Declined
    else
      var u := QueryUnit(spec, m, fn, QueryRet(m.ret).value);
      var params := KeyR(spec) + u.moreR;
      Bound(Plan([u], [ApiFn(fn, params, u.rret, fn, ArgNames(params))], [], {fn}))
  }
}
