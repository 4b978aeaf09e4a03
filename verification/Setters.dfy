/** `add_setter`: a small compiler from a method signature to a flattened call. */
module Setters {
  import opened Options
  import opened Text
  import opened Names
  import opened CppTypes
  import opened Targets
  import opened Bindings
  import opened EmitLaws

  // ---- marshalling one parameter -----------------------------------------------------------

  /** How the C++ call uses one flattened parameter. */
  datatype Passing = FPlain | FString | FChars | FEnum(ty: string) | FObject(resolver: string, target: string)

  /** A parameter kept as one, or a geometry struct expanded into its constructor's scalars. */
  datatype Marshal = One(c: CTy, r: RTy, form: Passing) | Expand(ty: string, suffixes: seq<string>)

  /** `STRUCT_IN`; every component is an `int32_t`. */
  const STRUCT_IN: map<string, (string, seq<string>)> := map[
    "Point3D" := ("odb::Point3D", ["x", "y", "z"]),
    "Point" := ("odb::Point", ["x", "y"])
  ]

  /** `SCALAR_IN`. */
  function ScalarIn(t: string): Option<(CTy, RTy)> {
    if t == "int64_t" then Some((CInt64, RI64))
    else if t == "uint64_t" then Some((CUint64, RU64))
    else Scalar(t)
  }

  function StructName(ty: string): string {
    Replace(LStripSet(RStripSet(LStripSet(Norm(ty), "const"), "&"), "&"), "const", "")
  }

  /** `marshal_param`. */
  function MarshalValue(ty: string): Option<Marshal> {
    var n := Norm(ty);
    if ScalarIn(n).Some? then Some(One(ScalarIn(n).value.0, ScalarIn(n).value.1, FPlain))
    else if n in {"std::string", "conststd::string&", "std::string&"} then Some(One(CStr, RStr, FString))
    else if n in {"constchar*", "char*"} then Some(One(CStr, RStr, FChars))
    else if ty in ENUMS then Some(One(CStr, RStr, FEnum(ty)))
    else None
  }

  /** `_marshal_db_ptr`: an object of a class addressed by a single name is passed by that name. */
  function MarshalPointer(tbl: seq<Spec>, ty: string): Option<Marshal> {
    var pointee := PointeeOf(ty);
    if pointee.None? then None
    else
      var spec := FindSpec(tbl, pointee.value);
      if spec.None? || |spec.value.args| != 1 || spec.value.args[0].Index? then None
      else Some(One(CStr, RStr, FObject(spec.value.resolver, pointee.value)))
  }

  function MarshalParam(tbl: seq<Spec>, p: Param): Option<Marshal> {
    var base := StructName(p.ty);
    if base in STRUCT_IN then Some(Expand(STRUCT_IN[base].0, STRUCT_IN[base].1))
    else if MarshalValue(p.ty).Some? then MarshalValue(p.ty)
    else MarshalPointer(tbl, p.ty)
  }

  function MarshalAll(tbl: seq<Spec>, ps: seq<Param>): Option<seq<Marshal>> {
    if ps == [] then Some([])
    else
      var m, more := MarshalParam(tbl, ps[0]), MarshalAll(tbl, ps[1..]);
      if m.None? || more.None? then None else Some([m.value] + more.value)
  }

  // ---- choosing the flattened names --------------------------------------------------------

  /** The fallback name of parameter `i`, and of one of its components. */
  function Fallback(i: nat): string {
    "a" + Digits(i)
  }

  function FallbackPart(i: nat, suffix: string): string {
    "a" + Digits(i) + "_" + suffix
  }

  function PartNames(i: nat, suffixes: seq<string>, used: set<string>): (names: seq<string>)
    ensures |names| == |suffixes|
  {
    if suffixes == [] then []
    else
      var pn := if suffixes[0] in used then FallbackPart(i, suffixes[0]) else suffixes[0];
      [pn] + PartNames(i, suffixes[1..], used + {pn})
  }

  /** The name the header offers for a parameter, already in snake case. */
  function Offered(p: Param): string {
    if p.name.None? then "" else if IsIdent(p.name.value) then Snake(p.name.value) else p.name.value
  }

  /** The offered name cannot be taken. */
  predicate Unusable(p: Param, used: set<string>) {
    Offered(p) == "" || Offered(p) in RUST_KW || Offered(p) in used
  }

  function OneName(p: Param, i: nat, used: set<string>): string {
    if Unusable(p, used) then Fallback(i) else Offered(p)
  }

  function Width(m: Marshal): nat {
    match m
    case One(_, _, _) => 1
    case Expand(_, suffixes) => |suffixes|
  }

  function NamesFor(m: Marshal, p: Param, i: nat, used: set<string>): (names: seq<string>)
    ensures |names| == Width(m)
  {
    match m
    case One(_, _, _) => [OneName(p, i, used)]
    case Expand(_, suffixes) => PartNames(i, suffixes, used)
  }

  function Elements(names: seq<string>): set<string> {
    set n | n in names
  }

  /** The flattened names of every parameter from `i` on, `used` growing as they are chosen. */
  function Choose(ms: seq<Marshal>, ps: seq<Param>, i: nat, used: set<string>): (names: seq<seq<string>>)
    requires |ms| == |ps| && i <= |ms|
    ensures |names| == |ms| - i
    ensures forall k | 0 <= k < |names| :: |names[k]| == Width(ms[i + k])
    decreases |ms| - i
  {
    if i == |ms| then []
    else
      var here := NamesFor(ms[i], ps[i], i, used);
      [here] + Choose(ms, ps, i + 1, used + Elements(here))
  }

  // ---- the generated setter ----------------------------------------------------------------

  /** An argument of the call on the object. */
  datatype Expr = Use(form: Passing, name: string) | Construct(ty: string, names: seq<string>)

  function TypesOf(m: Marshal): (r: seq<(CTy, RTy)>)
    ensures |r| == Width(m)
  {
    match m
    case One(c, r, _) => [(c, r)]
    case Expand(_, suffixes) => seq(|suffixes|, i => (CInt32, RI32))
  }

  function ExprOf(m: Marshal, names: seq<string>): Expr
    requires |names| == Width(m)
  {
    match m
    case One(_, _, form) => Use(form, names[0])
    case Expand(ty, _) => Construct(ty, names)
  }

  /** What the dispatch arm of the registry passes at one position of the wrapper's call. */
  datatype Feed = KeyStr(i: nat) | KeyIdx(i: nat) | ValueAt(j: nat, r: RTy)

  datatype WriteDef = WriteDef(decl: Decl, resolver: string, odb: string, args: seq<Expr>)
  datatype WriteEntry = WriteEntry(cls: string, field: string, values: seq<string>, keys: seq<Key>, api: string,
                                   feeds: seq<Feed>)

  datatype WriteSurface = WriteSurface(wh: seq<Decl>, wcc: seq<WriteDef>, wbridge: seq<BridgeFn>,
                                       wreexport: seq<string>, wapi: seq<ApiFn>, wreg: seq<WriteEntry>,
                                           wperClass: map<string, nat>)

  /** One setter: its flattened parameters and the arguments of the call it makes. */
  datatype Flattened = Flattened(names: seq<string>, types: seq<(CTy, RTy)>, args: seq<Expr>)

  function AllTypes(ms: seq<Marshal>): seq<(CTy, RTy)> {
    if ms == [] then [] else TypesOf(ms[0]) + AllTypes(ms[1..])
  }

  function KeySet(spec: Spec): set<string> {
    set k | k in spec.args :: k.name
  }

  lemma {:induction false} FlatLength(ms: seq<Marshal>, names: seq<seq<string>>)
    requires |names| == |ms| && forall k | 0 <= k < |ms| :: |names[k]| == Width(ms[k])
    ensures |Flat(names)| == |AllTypes(ms)|
  {
    if ms != [] {
      FlatLength(ms[1..], names[1..]);
    }
  }

  /** The compiled setter of a method all of whose parameters are marshallable. */
  function Compile(spec: Spec, ps: seq<Param>, ms: seq<Marshal>): (s: Flattened)
    requires |ms| == |ps|
    ensures |s.names| == |s.types| && |s.args| == |ms|
  {
    var names := Choose(ms, ps, 0, KeySet(spec));
    FlatLength(ms, names);
    Flattened(Flat(names), AllTypes(ms), seq(|ms|, i requires 0 <= i < |ms| => ExprOf(ms[i], names[i])))
  }

  function FlatC(s: Flattened): seq<Arg<CTy>>
    requires |s.names| == |s.types|
  {
    seq(|s.names|, j requires 0 <= j < |s.names| => Arg(s.names[j], s.types[j].0))
  }

  function FlatR(s: Flattened): seq<Arg<RTy>>
    requires |s.names| == |s.types|
  {
    seq(|s.names|, j requires 0 <= j < |s.names| => Arg(s.names[j], s.types[j].1))
  }

  function Feeds(spec: Spec, s: Flattened): (r: seq<Feed>)
    ensures |r| == |spec.args| + |s.types|
  {
    seq(|spec.args|, i requires 0 <= i < |spec.args| => if spec.args[i].Index? then KeyIdx(i) else KeyStr(i))
    + seq(|s.types|, j requires 0 <= j < |s.types| => ValueAt(j, s.types[j].1))
  }

  function ValueName(r: RTy): string {
    if r == RStr then "str" else RName(r)
  }

  predicate IsSetterName(name: string) {
    StartsWith(name, "set") || StartsWith(name, "clear")
  }

  /** Whether `add_setter` binds the method. */
  predicate Binds(ctx: Ctx, spec: Spec, m: Method, seen: set<string>) {
    && IsSetterName(m.name) && m.name !in spec.withheld
    && !Taken(ctx, seen, FnName(spec, m)) && MarshalAll(ctx.table, m.params).Some?
  }

  lemma {:induction false} MarshalAllLength(tbl: seq<Spec>, ps: seq<Param>)
    requires MarshalAll(tbl, ps).Some?
    ensures |MarshalAll(tbl, ps).value| == |ps|
    ensures forall i | 0 <= i < |ps| :: MarshalParam(tbl, ps[i]) == Some(MarshalAll(tbl, ps).value[i])
  {
    hide MarshalParam;
    if ps != [] {
      MarshalAllLength(tbl, ps[1..]);
    }
  }

  function Compiled(tbl: seq<Spec>, spec: Spec, m: Method): (s: Flattened)
    requires MarshalAll(tbl, m.params).Some?
    ensures |s.names| == |s.types| && |s.args| == |m.params|
  {
    MarshalAllLength(tbl, m.params);
    Compile(spec, m.params, MarshalAll(tbl, m.params).value)
  }

  /** The compiled setter, part by part. */
  lemma {:induction false} CompiledIs(tbl: seq<Spec>, spec: Spec, m: Method, ms: seq<Marshal>)
    requires MarshalAll(tbl, m.params) == Some(ms)
    ensures |ms| == |m.params|
    ensures var all := Choose(ms, m.params, 0, KeySet(spec)); var s := Compiled(tbl, spec, m);
            && s.names == Flat(all) && s.types == AllTypes(ms) && |s.args| == |ms|
            && forall i | 0 <= i < |ms| :: s.args[i] == ExprOf(ms[i], all[i])
  {
    MarshalAllLength(tbl, m.params);
    hide MarshalAll, Choose, AllTypes, ExprOf, Flat;
  }

  function SetterDecl(tbl: seq<Spec>, spec: Spec, m: Method): Decl
    requires MarshalAll(tbl, m.params).Some?
  {
    Decl(FnName(spec, m), CVoid, KeyC(spec) + FlatC(Compiled(tbl, spec, m)))
  }

  function SetterApi(tbl: seq<Spec>, spec: Spec, m: Method): ApiFn
    requires MarshalAll(tbl, m.params).Some?
  {
    var params := KeyR(spec) + FlatR(Compiled(tbl, spec, m));
    ApiFn(FnName(spec, m), params, RUnitResult, FnName(spec, m), ArgNames(params))
  }

  function SetterEntry(tbl: seq<Spec>, spec: Spec, m: Method): WriteEntry
    requires MarshalAll(tbl, m.params).Some?
  {
    var s := Compiled(tbl, spec, m);
    WriteEntry(spec.cls, Snake(m.name),
               seq(|s.types|, j requires 0 <= j < |s.types| => ValueName(s.types[j].1)),
               spec.args, FnName(spec, m), Feeds(spec, s))
  }

  /** The write buffers after a call of `add_setter`. */
  function SetterAfter(ctx: Ctx, spec: Spec, m: Method, w: WriteSurface, seen: set<string>): WriteSurface {
    if !Binds(ctx, spec, m, seen) then w
    else
      var fn := FnName(spec, m);
      WriteSurface(
        w.wh + [SetterDecl(ctx.table, spec, m)],
        w.wcc + [WriteDef(SetterDecl(ctx.table, spec, m), spec.resolver, m.name, Compiled(ctx.table, spec, m).args)],
        w.wbridge + [BridgeFn(fn, KeyR(spec) + FlatR(Compiled(ctx.table, spec, m)), RUnitResult)],
        w.wreexport + [fn],
        w.wapi + [SetterApi(ctx.table, spec, m)],
        w.wreg + [SetterEntry(ctx.table, spec, m)],
        Counted(w.wperClass, spec.cls))
  }

  // ---- the names of a definition -----------------------------------------------------------

  predicate Fresh(names: seq<string>, used: set<string>) {
    NoDup(names) && forall n | n in names :: n !in used
  }

  /** The functions a passed parameter is handed to. */
  function Calls(form: Passing): set<string> {
    match form
    case FPlain => {}
    case FObject(resolver, _) => {resolver, "gen_req"}
    case _ => {"gs"}
  }

  function CallsOf(ms: seq<Marshal>): set<string> {
    if ms == [] then {} else (if ms[0].One? then Calls(ms[0].form) else {}) + CallsOf(ms[1..])
  }

  /** The names the generated text uses for itself: the handle, as declared and as defined, the
      object, the resolver, and the functions the arguments go through. */
  function Own(spec: Spec, ms: seq<Marshal>): set<string> {
    {"db", "h", "p", spec.resolver} + CallsOf(ms)
  }

  /** At every component the name chosen is free: a suffix in use falls back to a name that is not,
      and a suffix taken as it is is none of the text's own. */
  predicate PartsScoped(i: nat, suffixes: seq<string>, used: set<string>, own: set<string>)
    decreases |suffixes|
  {
    suffixes == [] ||
    var s := suffixes[0];
    if s in used then
      FallbackPart(i, s) !in used + own && PartsScoped(i, suffixes[1..], used + {FallbackPart(i, s)}, own)
    else s !in own && PartsScoped(i, suffixes[1..], used + {s}, own)
  }

  predicate ParamScoped(m: Marshal, p: Param, i: nat, used: set<string>, own: set<string>) {
    match m
    case One(_, _, _) => if Unusable(p, used) then Fallback(i) !in used + own else Offered(p) !in own
    case Expand(_, suffixes) => PartsScoped(i, suffixes, used, own)
  }

  /** The guard the generator does not have, parameter by parameter: where it falls back, the fallback
      is not in use yet; where it takes the header's name, that name is none of the text's own. */
  predicate Scoped(ms: seq<Marshal>, ps: seq<Param>, i: nat, used: set<string>, own: set<string>)
    requires |ms| == |ps| && i <= |ms|
    decreases |ms| - i
  {
    i == |ms| ||
    (ParamScoped(ms[i], ps[i], i, used, own)
     && Scoped(ms, ps, i + 1, used + Elements(NamesFor(ms[i], ps[i], i, used)), own))
  }

  lemma {:induction false} FreshCons(n: string, names: seq<string>, used: set<string>)
    ensures Fresh([n] + names, used) <==> n !in used && Fresh(names, used + {n})
  {
    var all := [n] + names;
    assert forall i | 0 <= i < |names| :: all[i + 1] == names[i];
    if n !in used && Fresh(names, used + {n}) {
      forall i, j | 0 <= i < j < |all| ensures all[i] != all[j] {
        assert all[j] in names;
      }
    }
    if Fresh(all, used) {
      assert all[0] in all;
      forall x | x in names ensures x != n && x !in used {
        var i :| 0 <= i < |names| && names[i] == x;
        assert all[i + 1] in all;
      }
    }
  }

  lemma {:induction false} FreshAppend(a: seq<string>, b: seq<string>, used: set<string>)
    ensures Fresh(a + b, used) <==> Fresh(a, used) && Fresh(b, used + Elements(a))
    decreases |a|
  {
    if a == [] {
      assert a + b == b && used + Elements(a) == used;
    } else {
      var n, rest := a[0], a[1..];
      assert a + b == [n] + (rest + b) && a == [n] + rest;
      FreshCons(n, rest + b, used);
      FreshCons(n, rest, used);
      FreshAppend(rest, b, used + {n});
      assert used + {n} + Elements(rest) == used + Elements(a);
    }
  }

  lemma {:induction false} PartsExactly(i: nat, suffixes: seq<string>, used: set<string>, own: set<string>)
    ensures Fresh(PartNames(i, suffixes, used), used + own) <==> PartsScoped(i, suffixes, used, own)
    decreases |suffixes|
  {
    hide Fresh, FallbackPart;
    if suffixes == [] {
      NothingFresh(used + own);
    } else {
      var s, rest := suffixes[0], suffixes[1..];
      var pn := if s in used then FallbackPart(i, s) else s;
      PartsExactly(i, rest, used + {pn}, own);
      FreshCons(pn, PartNames(i, rest, used + {pn}), used + own);
      assert used + own + {pn} == used + {pn} + own;
    }
  }

  lemma {:induction false} ParamExactly(m: Marshal, p: Param, i: nat, used: set<string>, own: set<string>)
    ensures Fresh(NamesFor(m, p, i, used), used + own) <==> ParamScoped(m, p, i, used, own)
  {
    if m.One? {
      hide Offered, Fallback;
      var n := OneName(p, i, used);
      assert [n] == [n] + [];
      NothingFresh(used + own + {n});
      FreshCons(n, [], used + own);
    } else {
      PartsExactly(i, m.suffixes, used, own);
    }
  }

  /** The flattened names are pairwise different and new to the scope exactly when the missing guard
      would have passed at every parameter. */
  lemma {:induction false} ChooseExactly(ms: seq<Marshal>, ps: seq<Param>, i: nat, used: set<string>, own: set<string>)
    requires |ms| == |ps| && i <= |ms|
    ensures Fresh(Flat(Choose(ms, ps, i, used)), used + own) <==> Scoped(ms, ps, i, used, own)
    decreases |ms| - i
  {
    hide Fresh, ParamScoped;
    if i == |ms| {
      NothingFresh(used + own);
    } else {
      var here := NamesFor(ms[i], ps[i], i, used);
      var rest := Choose(ms, ps, i + 1, used + Elements(here));
      ParamExactly(ms[i], ps[i], i, used, own);
      ChooseExactly(ms, ps, i + 1, used + Elements(here), own);
      FreshAppend(here, Flat(rest), used + own);
      assert used + own + Elements(here) == used + Elements(here) + own;
      assert ([here] + rest)[1..] == rest;
    }
  }

  lemma {:induction false} NothingFresh(used: set<string>)
    ensures Fresh([], used)
  {
  }

  /** The names of a compiled setter are pairwise different, different from the keys and from any names
      they are to stay off, if and only if that guard holds. */
  lemma {:induction false} SetterNamesExactly(tbl: seq<Spec>, spec: Spec, m: Method, ms: seq<Marshal>,
                                              own: set<string>)
    requires MarshalAll(tbl, m.params) == Some(ms)
    ensures |ms| == |m.params|
    ensures Fresh(Compiled(tbl, spec, m).names, KeySet(spec) + own) <==> Scoped(ms, m.params, 0, KeySet(spec), own)
  {
    CompiledIs(tbl, spec, m, ms);
    hide Fresh, Scoped, Compiled, MarshalAll, KeySet, Choose, Flat;
    ChooseExactly(ms, m.params, 0, KeySet(spec), own);
  }

  // ---- a header that keeps to it -----------------------------------------------------------

  /** A name of the fallback form. */
  ghost predicate IsFallback(n: string) {
    (exists i: nat :: n == Fallback(i)) || exists i: nat, s: string :: n == FallbackPart(i, s)
  }

  /** No name that is offered reads as a fallback, and none that the generator would take is to be stayed
      off. */
  ghost predicate KeepsClear(ps: seq<Param>, own: set<string>) {
    forall i | 0 <= i < |ps| :: Clear(ps[i], own)
  }

  ghost predicate Clear(p: Param, own: set<string>) {
    !IsFallback(Offered(p)) && (Offered(p) in RUST_KW || Offered(p) !in own)
  }

  lemma {:induction false} DigitsSolid(n: nat)
    ensures Digits(n) != "" && forall k | 0 <= k < |Digits(n)| :: '0' <= Digits(n)[k] <= '9'
  {
    if n >= 10 {
      DigitsSolid(n / 10);
    }
  }

  lemma {:induction false} DigitsInjective(i: nat, j: nat)
    requires Digits(i) == Digits(j)
    ensures i == j
  {
    var s, t := Digits(i), Digits(j);
    if i >= 10 {
      DigitsSolid(i / 10);
    }
    if j >= 10 {
      DigitsSolid(j / 10);
    }
    if i >= 10 && j >= 10 {
      assert s[..|s| - 1] == Digits(i / 10) && t[..|t| - 1] == Digits(j / 10);
      DigitsInjective(i / 10, j / 10);
      assert s[|s| - 1] == ('0' as int + i % 10) as char;
      assert t[|t| - 1] == ('0' as int + j % 10) as char;
    }
  }

  lemma {:induction false} FallbacksDiffer(i: nat, j: nat, s: string, t: string)
    ensures Fallback(i) == Fallback(j) ==> i == j
    ensures Fallback(i) != FallbackPart(j, t)
    ensures FallbackPart(i, s) == FallbackPart(j, t) ==> i == j && s == t
  {
    DigitsSolid(i);
    DigitsSolid(j);
    assert Fallback(i)[1..] == Digits(i) && Fallback(j)[1..] == Digits(j);
    if Fallback(i) == Fallback(j) {
      DigitsInjective(i, j);
    }
    assert FallbackPart(j, t)[1 + |Digits(j)|] == '_';
    if FallbackPart(i, s) == FallbackPart(j, t) {
      assert FallbackPart(i, s) == "a" + (Digits(i) + "_" + s);
      assert FallbackPart(j, t) == "a" + (Digits(j) + "_" + t);
      assert (Digits(i) + "_" + s) == FallbackPart(i, s)[1..] == (Digits(j) + "_" + t);
      SolidPrefix(Digits(i), s, Digits(j), t);
      DigitsInjective(i, j);
    }
  }

  lemma {:induction false} SolidPrefix(a: string, s: string, b: string, t: string)
    requires a + "_" + s == b + "_" + t
    requires '_' !in a && '_' !in b
    ensures a == b && s == t
  {
    var x, y := a + "_" + s, b + "_" + t;
    assert x[|a|] == '_' && y[|b|] == '_';
    assert x[..|a|] == a && y[..|b|] == b && x[|a| + 1..] == s && y[|b| + 1..] == t;
  }

  /** No fallback of parameter `i` or of a later one is in use. */
  ghost predicate NoFallbackIn(used: set<string>, i: nat) {
    && (forall j: nat | i <= j :: Fallback(j) !in used)
    && (forall j: nat, s: string | i <= j :: FallbackPart(j, s) !in used)
  }

  lemma {:induction false} CleanIsFree(used: set<string>)
    requires forall n | n in used :: !IsFallback(n)
    ensures NoFallbackIn(used, 0)
  {
    assert forall j: nat :: IsFallback(Fallback(j));
    assert forall j: nat, s: string :: IsFallback(FallbackPart(j, s));
  }

  lemma {:induction false} FreeWith(used: set<string>, i: nat, n: string)
    requires NoFallbackIn(used, i + 1)
    requires !IsFallback(n) || n == Fallback(i) || exists s :: n == FallbackPart(i, s)
    ensures NoFallbackIn(used + {n}, i + 1)
  {
    forall j: nat | i + 1 <= j ensures n != Fallback(j) {
      assert IsFallback(Fallback(j));
      FallbacksDiffer(i, j, "", "");
      forall s ensures FallbackPart(i, s) != Fallback(j) {
        FallbacksDiffer(j, i, "", s);
      }
    }
    forall j: nat, t: string | i + 1 <= j ensures n != FallbackPart(j, t) {
      assert IsFallback(FallbackPart(j, t));
      FallbacksDiffer(i, j, "", t);
      forall s ensures FallbackPart(i, s) != FallbackPart(j, t) {
        FallbacksDiffer(i, j, s, t);
      }
    }
  }

  lemma {:induction false} PartsFree(i: nat, suffixes: seq<string>, used: set<string>, own: set<string>)
    requires NoFallbackIn(used, i + 1) && NoFallbackIn(own, i)
    requires forall s | s in suffixes :: !IsFallback(s) && FallbackPart(i, s) !in used && s !in own
    requires NoDup(suffixes)
    ensures PartsScoped(i, suffixes, used, own)
    ensures NoFallbackIn(used + Elements(PartNames(i, suffixes, used)), i + 1)
    decreases |suffixes|
  {
    if suffixes == [] {
      assert used + Elements([]) == used;
    } else {
      var s, rest := suffixes[0], suffixes[1..];
      var pn := if s in used then FallbackPart(i, s) else s;
      FreeWith(used, i, pn);
      assert FallbackPart(i, s) !in own;
      hide NoFallbackIn, FallbackPart;
      forall t | t in rest ensures !IsFallback(t) && FallbackPart(i, t) !in used + {pn} {
        assert t in suffixes;
        FallbacksDiffer(i, i, s, t);
        assert !IsFallback(s);
      }
      PartsFree(i, rest, used + {pn}, own);
      assert used + Elements(PartNames(i, suffixes, used)) == used + {pn} + Elements(PartNames(i, rest, used + {pn}));
    }
  }

  lemma {:induction false} FreeLater(used: set<string>, i: nat)
    requires NoFallbackIn(used, i)
    ensures NoFallbackIn(used, i + 1)
  {
  }

  /** The suffixes of the struct table are distinct and none reads as a fallback. */
  predicate GoodSuffixes(m: Marshal) {
    m.Expand? ==> m.suffixes == ["x", "y", "z"] || m.suffixes == ["x", "y"]
  }

  lemma {:induction false} SuffixNotFallback(s: string)
    requires s == "x" || s == "y" || s == "z"
    ensures !IsFallback(s)
  {
    assert forall i: nat :: Fallback(i)[0] == 'a';
    assert forall i: nat, t: string :: FallbackPart(i, t)[0] == 'a';
  }

  lemma {:induction false} ParamFree(m: Marshal, p: Param, i: nat, used: set<string>, own: set<string>)
    requires NoFallbackIn(used, i) && NoFallbackIn(own, i) && GoodSuffixes(m)
    requires Clear(p, own) && "x" !in own && "y" !in own && "z" !in own
    ensures ParamScoped(m, p, i, used, own)
    ensures NoFallbackIn(used + Elements(NamesFor(m, p, i, used)), i + 1)
  {
    FreeLater(used, i);
    if m.One? {
      var n := OneName(p, i, used);
      FreeWith(used, i, n);
      assert ParamScoped(m, p, i, used, own);
      hide NoFallbackIn, OneName, ParamScoped;
      assert Elements([n]) == {n};
    } else {
      forall s | s in m.suffixes ensures !IsFallback(s) && FallbackPart(i, s) !in used && s !in own {
        SuffixNotFallback(s);
      }
      hide NoFallbackIn;
      PartsFree(i, m.suffixes, used, own);
    }
  }

  lemma {:induction false} ChooseFree(ms: seq<Marshal>, ps: seq<Param>, i: nat, used: set<string>, own: set<string>)
    requires |ms| == |ps| && i <= |ms|
    requires NoFallbackIn(used, i) && NoFallbackIn(own, i) && "x" !in own && "y" !in own && "z" !in own
    requires forall k | 0 <= k < |ms| :: GoodSuffixes(ms[k]) && Clear(ps[k], own)
    ensures Scoped(ms, ps, i, used, own)
    decreases |ms| - i
  {
    hide NoFallbackIn, GoodSuffixes, IsFallback, Offered, ParamScoped, Clear;
    if i < |ms| {
      var here := NamesFor(ms[i], ps[i], i, used);
      ParamFree(ms[i], ps[i], i, used, own);
      FreeLater(own, i);
      ChooseFree(ms, ps, i + 1, used + Elements(here), own);
    }
  }

  lemma {:induction false} MarshalParamGood(tbl: seq<Spec>, p: Param)
    requires MarshalParam(tbl, p).Some?
    ensures GoodSuffixes(MarshalParam(tbl, p).value)
  {
    hide StructName, ScalarIn, FindSpec, Norm;
  }

  lemma {:induction false} MarshalGood(tbl: seq<Spec>, ps: seq<Param>)
    requires MarshalAll(tbl, ps).Some?
    ensures forall k | 0 <= k < |MarshalAll(tbl, ps).value| :: GoodSuffixes(MarshalAll(tbl, ps).value[k])
  {
    hide MarshalParam, GoodSuffixes;
    if ps != [] {
      MarshalParamGood(tbl, ps[0]);
      MarshalGood(tbl, ps[1..]);
    }
  }

  lemma {:induction false} StartsOtherwise(n: string)
    requires n == "" || n[0] != 'a'
    ensures !IsFallback(n)
  {
    assert forall i: nat :: Fallback(i)[0] == 'a';
    assert forall i: nat, t: string :: FallbackPart(i, t)[0] == 'a';
  }

  /** The functions that marshalled parameters go through: two helpers, and resolvers of the table. */
  lemma {:induction false} CallsKnown(tbl: seq<Spec>, ps: seq<Param>, n: string)
    requires MarshalAll(tbl, ps).Some? && n in CallsOf(MarshalAll(tbl, ps).value)
    ensures n == "gs" || n == "gen_req" || ResolverOk(n)
  {
    hide MarshalParam, ResolverOk;
    var ms := MarshalAll(tbl, ps).value;
    if ms[0].One? && n in Calls(ms[0].form) {
      CallKnown(tbl, ps[0], n);
    } else {
      CallsKnown(tbl, ps[1..], n);
    }
  }

  lemma {:induction false} CallKnown(tbl: seq<Spec>, p: Param, n: string)
    requires MarshalParam(tbl, p).Some? && MarshalParam(tbl, p).value.One?
    requires n in Calls(MarshalParam(tbl, p).value.form)
    ensures n == "gs" || n == "gen_req" || ResolverOk(n)
  {
    hide StructName, ScalarIn, FindSpec, Norm, ResolverOk, PointeeOf;
    var m := MarshalParam(tbl, p).value;
    if m.form.FObject? {
      var spec: Spec := FindSpec(tbl, PointeeOf(p.ty).value).value;
      assert n == spec.resolver || n == "gen_req";
    }
  }

  /** What the table guarantees: the keys of a class and the names the text uses for itself keep out of
      each other's way, and neither reads as a fallback or as a component. */
  lemma {:induction false} TableNames(tbl: seq<Spec>, spec: Spec, ps: seq<Param>)
    requires MarshalAll(tbl, ps).Some?
    ensures var own := Own(spec, MarshalAll(tbl, ps).value);
            && (forall n | n in own :: !IsFallback(n) && n != "x" && n != "y" && n != "z")
            && forall k | k in KeySet(spec) :: k !in own && !IsFallback(k)
  {
    var own := Own(spec, MarshalAll(tbl, ps).value);
    forall n | n in own ensures OwnName(n) {
      if n in CallsOf(MarshalAll(tbl, ps).value) {
        CallsKnown(tbl, ps, n);
      }
    }
    hide MarshalAll, CallsOf, IsFallback, Own;
    forall n | n in own ensures !IsFallback(n) && n != "x" && n != "y" && n != "z" {
      assert OwnName(n);
      StartsOtherwise(n);
    }
    forall k | k in KeySet(spec) ensures k !in own && !IsFallback(k) {
      var key: Key :| key in spec.args && key.name == k;
      var name: KeyName := key.name;
      assert KeyNameOk(k);
      StartsOtherwise(k);
      NotOwn(k);
      assert k in own ==> OwnName(k);
    }
  }

  predicate OwnName(n: string) {
    n == "db" || n == "h" || n == "p" || n == "gs" || n == "gen_req" || ResolverOk(n)
  }

  lemma {:induction false} NotOwn(k: string)
    requires KeyNameOk(k)
    ensures !OwnName(k)
  {
    assert "gen_req"[4] == 'r';
  }

  // ---- reserved words ----------------------------------------------------------------------

  // The reserved words of C++ in alphabetical order, then those Rust uses and those it keeps.

  const CPP_A_TO_C: set<string> := {"alignas", "alignof", "and", "and_eq", "asm", "auto", "bitand", "bitor", "bool",
    "break", "case", "catch", "char", "char8_t", "char16_t", "char32_t", "class", "compl", "concept", "const",
    "consteval", "constexpr", "constinit", "const_cast", "continue", "co_await", "co_return", "co_yield"}

  const CPP_D_TO_O: set<string> := {"decltype", "default", "delete", "do", "double", "dynamic_cast", "else", "enum",
    "explicit", "export", "extern", "false", "float", "for", "friend", "goto", "if", "inline", "int", "long",
    "mutable", "namespace", "new", "noexcept", "not", "not_eq", "nullptr", "operator", "or", "or_eq"}

  const CPP_P_TO_S: set<string> := {"private", "protected", "public", "register", "reinterpret_cast", "requires",
    "return", "short", "signed", "sizeof", "static", "static_assert", "static_cast", "struct", "switch"}

  const CPP_T_TO_Z: set<string> := {"template", "this", "thread_local", "throw", "true", "try", "typedef", "typeid",
    "typename", "union", "unsigned", "using", "virtual", "void", "volatile", "wchar_t", "while", "xor", "xor_eq"}

  const RUST_USED: set<string> := {"as", "break", "const", "continue", "crate", "else", "enum", "extern", "false",
    "fn", "for", "if", "impl", "in", "let", "loop", "match", "mod", "move", "mut", "pub", "ref", "return", "self",
    "static", "struct", "super", "trait", "true", "type", "unsafe", "use", "where", "while", "async", "await",
    "dyn"}

  const RUST_KEPT: set<string> := {"abstract", "become", "box", "do", "final", "gen", "macro", "override", "priv",
    "try", "typeof", "unsized", "virtual", "yield", "_"}

  /** What no parameter can be called, in C++ or in Rust. */
  function Reserved(): set<string> {
    CPP_A_TO_C + CPP_D_TO_O + CPP_P_TO_S + CPP_T_TO_Z + RUST_USED + RUST_KEPT
  }

  predicate WordShape(w: string) {
    w == "_" || (|w| > 1 && !('0' <= w[1] <= '9'))
  }

  lemma {:induction false} CppShapes()
    ensures forall w | w in CPP_A_TO_C :: WordShape(w)
    ensures forall w | w in CPP_D_TO_O :: WordShape(w)
  {
  }

  lemma {:induction false} MoreCppShapes()
    ensures forall w | w in CPP_P_TO_S :: WordShape(w)
    ensures forall w | w in CPP_T_TO_Z :: WordShape(w)
  {
  }

  lemma {:induction false} RustShapes()
    ensures forall w | w in RUST_USED :: WordShape(w)
    ensures forall w | w in RUST_KEPT :: WordShape(w)
  {
  }

  lemma {:induction false} ShapeIsFree(w: string)
    requires WordShape(w)
    ensures !IsFallback(w) && w != "x" && w != "y" && w != "z"
  {
    forall i: nat ensures Fallback(i) != w {
      DigitsSolid(i);
      assert Fallback(i)[1] == Digits(i)[0];
    }
    forall i: nat, s: string ensures FallbackPart(i, s) != w {
      DigitsSolid(i);
      assert FallbackPart(i, s)[1] == Digits(i)[0];
    }
  }

  lemma {:induction false} ReservedFree(w: string)
    requires w in Reserved()
    ensures !IsFallback(w) && w != "x" && w != "y" && w != "z"
  {
    CppShapes();
    MoreCppShapes();
    RustShapes();
    hide CPP_A_TO_C, CPP_D_TO_O, CPP_P_TO_S, CPP_T_TO_Z, RUST_USED, RUST_KEPT, WordShape, IsFallback;
    assert WordShape(w);
    ShapeIsFree(w);
  }

  /** A header that offers no name of the fallback form keeps to the guard for whatever else its names are to
      stay off, among the text's own names and the reserved words; with nothing to stay off, its names are
      still pairwise different and off the keys. */
  lemma {:induction false} SetterNamesDistinct(tbl: seq<Spec>, spec: Spec, m: Method, ms: seq<Marshal>,
                                               own: set<string>)
    requires MarshalAll(tbl, m.params) == Some(ms) && KeepsClear(m.params, own)
    requires own <= Own(spec, ms) + Reserved()
    ensures |ms| == |m.params|
    ensures Scoped(ms, m.params, 0, KeySet(spec), own)
    ensures Fresh(Compiled(tbl, spec, m).names, KeySet(spec) + own)
  {
    MarshalAllLength(tbl, m.params);
    MarshalGood(tbl, m.params);
    TableNames(tbl, spec, m.params);
    hide MarshalAll, Own, Fresh, Scoped, KeySet, Reserved, IsFallback;
    forall n | n in own ensures !IsFallback(n) && n != "x" && n != "y" && n != "z" {
      if n in Reserved() {
        ReservedFree(n);
      }
    }
    CleanIsFree(KeySet(spec));
    CleanIsFree(own);
    hide NoFallbackIn;
    ChooseFree(ms, m.params, 0, KeySet(spec), own);
    SetterNamesExactly(tbl, spec, m, ms, own);
  }

  // ---- headers that do not -----------------------------------------------------------------

  function IntParam(name: string): Param {
    Param("int", Some(name), OtherShape)
  }

  const INT_MARSHAL := One(CInt32, RI32, FPlain)

  lemma {:induction false} IntMarshalled(tbl: seq<Spec>, name: string)
    ensures MarshalParam(tbl, IntParam(name)) == Some(INT_MARSHAL)
  {
    hide FindSpec;
    assert Norm("int") == "int" by { NormInt(); }
    assert StructName("int") == "int" by { NormInt(); }
    assert "int" !in STRUCT_IN by { assert |"int"| == 3 && |"Point3D"| == 7 && |"Point"| == 5; }
  }

  lemma {:induction false} NormInt()
    ensures Replace("int", " ", "") == "int" && Replace("int", "const", "") == "int"
    ensures LStripSet("int", "const") == "int" && RStripSet("int", "&") == "int" && LStripSet("int", "&") == "int"
  {
    assert "int"[1..] == "nt" && "nt"[1..] == "t" && "t"[1..] == "";
    assert Replace("t", " ", "") == "t" && Replace("nt", " ", "") == "nt";
    assert "int"[..1] == "i" && "nt"[..1] == "n" && "t"[..1] == "t";
  }

  lemma {:induction false} PlainName(name: string)
    requires IsIdent(name) && forall i | 0 <= i < |name| :: !IsUpper(name[i])
    ensures Offered(IntParam(name)) == name
  {
    PlainTail(name[1..]);
  }

  lemma {:induction false} PlainTail(t: string)
    requires forall i | 0 <= i < |t| :: !IsUpper(t[i])
    ensures SnakeTail(t) == t
  {
    if t != "" {
      PlainTail(t[1..]);
    }
  }

  /** A parameter called `a1` before one whose name is a Rust keyword: in every class of every
      table the emitted declaration has the parameter `a1` twice. */
  lemma {:induction false} SetterNamesCollide(tbl: seq<Spec>, spec: Spec, m: Method)
    requires m.params == [IntParam("a1"), IntParam("type")]
    ensures MarshalAll(tbl, m.params) == Some([INT_MARSHAL, INT_MARSHAL])
    ensures Compiled(tbl, spec, m).names == ["a1", "a1"]
    ensures SetterDecl(tbl, spec, m).params == KeyC(spec) + [Arg("a1", CInt32), Arg("a1", CInt32)]
  {
    var ps, ms := m.params, [INT_MARSHAL, INT_MARSHAL];
    TwoInts(tbl, "a1", "type");
    NotKey(spec, "a1");
    CompiledIs(tbl, spec, m, ms);
    FallsBackOnTwo(ps, KeySet(spec));
    TwoTypes();
    hide *;
    DeclIs(tbl, spec, m, ms);
  }

  lemma {:induction false} NotKey(spec: Spec, n: string)
    requires !KeyNameOk(n)
    ensures n !in KeySet(spec)
  {
    hide KeyNameOk;
    forall key: Key | key in spec.args ensures key.name != n {
      var name: KeyName := key.name;
    }
  }

  lemma {:induction false} TwoTypes()
    ensures AllTypes([INT_MARSHAL, INT_MARSHAL]) == [(CInt32, RI32), (CInt32, RI32)]
  {
    var ms := [INT_MARSHAL, INT_MARSHAL];
    assert ms[1..] == [INT_MARSHAL] && ms[1..][1..] == [];
    assert TypesOf(INT_MARSHAL) == [(CInt32, RI32)];
    assert AllTypes([INT_MARSHAL]) == [(CInt32, RI32)] + AllTypes([]) == [(CInt32, RI32)];
    assert [(CInt32, RI32)] + [(CInt32, RI32)] == [(CInt32, RI32), (CInt32, RI32)];
  }

  lemma {:induction false} DeclIs(tbl: seq<Spec>, spec: Spec, m: Method, ms: seq<Marshal>)
    requires MarshalAll(tbl, m.params) == Some(ms)
    requires Compiled(tbl, spec, m).names == ["a1", "a1"]
               && Compiled(tbl, spec, m).types == [(CInt32, RI32), (CInt32, RI32)]
    ensures SetterDecl(tbl, spec, m).params == KeyC(spec) + [Arg("a1", CInt32), Arg("a1", CInt32)]
  {
    var s := Compiled(tbl, spec, m);
    hide Compiled, MarshalAll, FnName;
    assert |FlatC(s)| == 2 && FlatC(s)[0] == FlatC(s)[1] == Arg("a1", CInt32);
    assert FlatC(s) == [Arg("a1", CInt32), Arg("a1", CInt32)];
    assert SetterDecl(tbl, spec, m).params == KeyC(spec) + FlatC(s);
  }

  lemma {:induction false} OneInt(tbl: seq<Spec>, x: string)
    ensures MarshalAll(tbl, [IntParam(x)]) == Some([INT_MARSHAL])
  {
    hide MarshalParam, IntParam;
    IntMarshalled(tbl, x);
    assert [IntParam(x)][1..] == [];
    assert MarshalAll(tbl, []) == Some([]) && [INT_MARSHAL] + [] == [INT_MARSHAL];
  }

  lemma {:induction false} TwoInts(tbl: seq<Spec>, x: string, y: string)
    ensures MarshalAll(tbl, [IntParam(x), IntParam(y)]) == Some([INT_MARSHAL, INT_MARSHAL])
  {
    hide MarshalParam, IntParam;
    IntMarshalled(tbl, x);
    OneInt(tbl, y);
    assert [IntParam(x), IntParam(y)][1..] == [IntParam(y)]
             && [INT_MARSHAL] + [INT_MARSHAL] == [INT_MARSHAL, INT_MARSHAL];
  }

  lemma {:induction false} TakesA1(used: set<string>)
    requires "a1" !in used
    ensures OneName(IntParam("a1"), 0, used) == "a1"
  {
    PlainName("a1");
    hide Offered, IntParam;
    assert "a1" !in RUST_KW by {
      assert forall k | k in RUST_KW && |k| == 2 :: k[1] != '1';
    }
  }

  lemma {:induction false} FallsBackToA1(used: set<string>)
    ensures OneName(IntParam("type"), 1, used) == "a1"
  {
    PlainName("type");
    hide Offered, IntParam;
    assert Digits(1) == "1";
  }

  lemma {:induction false} FallsBackOnTwo(ps: seq<Param>, used: set<string>)
    requires ps == [IntParam("a1"), IntParam("type")] && "a1" !in used
    ensures Flat(Choose([INT_MARSHAL, INT_MARSHAL], ps, 0, used)) == ["a1", "a1"]
  {
    var ms := [INT_MARSHAL, INT_MARSHAL];
    var later := used + Elements(["a1"]);
    TakesA1(used);
    FallsBackToA1(later);
    hide OneName, IntParam;
    assert Choose(ms, ps, 2, later + Elements(["a1"])) == [];
    assert Choose(ms, ps, 1, later) == [["a1"]];
    assert [["a1"], ["a1"]][1..] == [["a1"]] && [["a1"]][1..] == [];
  }

  lemma {:induction false} OneTaken(tbl: seq<Spec>, spec: Spec, m: Method, n: string)
    requires m.params == [IntParam(n)] && n !in RUST_KW && !KeyNameOk(n)
    requires IsIdent(n) && forall i | 0 <= i < |n| :: !IsUpper(n[i])
    ensures MarshalAll(tbl, m.params) == Some([INT_MARSHAL])
    ensures Compiled(tbl, spec, m).names == [n]
  {
    var ms, ps, used := [INT_MARSHAL], m.params, KeySet(spec);
    OneInt(tbl, n);
    NotKey(spec, n);
    CompiledIs(tbl, spec, m, ms);
    PlainName(n);
    hide Offered, IntParam, RUST_KW, Compiled, MarshalAll, KeySet;
    assert NamesFor(ms[0], ps[0], 0, used) == [n];
    assert Choose(ms, ps, 1, used + Elements([n])) == [];
    assert [[n]][1..] == [];
  }

  /** A parameter called `p` is taken as it is: the definition has it beside its own `p`. */
  lemma {:induction false} SetterNameIsObject(tbl: seq<Spec>, spec: Spec, m: Method)
    requires m.params == [IntParam("p")]
    ensures MarshalAll(tbl, m.params) == Some([INT_MARSHAL])
    ensures Compiled(tbl, spec, m).names == ["p"] && "p" in Own(spec, [INT_MARSHAL])
  {
    assert "p" !in RUST_KW by {
      assert forall k | k in RUST_KW :: |k| > 1;
    }
    OneTaken(tbl, spec, m, "p");
  }

  /** A parameter called `abstract`, which C++ allows and Rust does not, is taken as it is. */
  lemma {:induction false} SetterNameReserved(tbl: seq<Spec>, spec: Spec, m: Method)
    requires m.params == [IntParam("abstract")]
    ensures MarshalAll(tbl, m.params) == Some([INT_MARSHAL])
    ensures Compiled(tbl, spec, m).names == ["abstract"] && "abstract" in Reserved()
  {
    hide *;
    AbstractFree();
    AbstractKept();
    AbstractPlain();
    OneTaken(tbl, spec, m, "abstract");
  }

  lemma {:induction false} AbstractFree()
    ensures "abstract" !in RUST_KW && !KeyNameOk("abstract") && |"abstract"| == 8
  {
    assert forall k | k in RUST_KW && |k| == 8 :: k[0] != 'a';
  }

  lemma {:induction false} AbstractPlain()
    ensures IsIdent("abstract") && forall i | 0 <= i < |"abstract"| :: !IsUpper("abstract"[i])
  {
  }

  lemma {:induction false} AbstractKept()
    ensures "abstract" in Reserved()
  {
    assert "abstract" in RUST_KEPT;
    hide CPP_A_TO_C, CPP_D_TO_O, CPP_P_TO_S, CPP_T_TO_Z, RUST_USED, RUST_KEPT;
  }
}
