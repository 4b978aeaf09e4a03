/** Class `Emit`: the buffers, appended to in place, one method per kind of accessor. */
module Emitter {
  import opened Options
  import opened Text
  import opened Names
  import opened Targets
  import opened Bindings
  import opened EmitLaws
  import opened EmitRuns
  import opened Setters
  import opened SetterLaws
  import opened Readers
  import opened OutReadings
  import opened SetterRules

  /** The set of names already emitted for the class at hand, shared by reference with the driver. */
  class Seen {
    var names: set<string>

    constructor ()
      ensures names == {}
    {
      names := {};
    }
  }

  class Emit {
    var h: seq<Decl>
    var cc: seq<Def>
    var bridge: seq<BridgeFn>
    var reexport: seq<string>
    var api: seq<ApiFn>
    var reg: seq<RegEntry>
    var perClass: map<string, nat>
    var skipped: nat
    // the separate buffers of the gated write surface
    var wh: seq<Decl>
    var wcc: seq<WriteDef>
    var wbridge: seq<BridgeFn>
    var wreexport: seq<string>
    var wapi: seq<ApiFn>
    var wreg: seq<WriteEntry>
    var wperClass: map<string, nat>

    function Read(): Surface
      reads this
    {
      Surface(h, cc, bridge, reexport, api, reg, perClass, skipped)
    }

    function Written(): WriteSurface
      reads this
    {
      WriteSurface(wh, wcc, wbridge, wreexport, wapi, wreg, wperClass)
    }

    constructor ()
      ensures Read() == Surface([], [], [], [], [], [], map[], 0)
      ensures Written() == WriteSurface([], [], [], [], [], [], map[])
    {
      h, cc, bridge, reexport, api, reg, perClass, skipped := [], [], [], [], [], [], map[], 0;
      wh, wcc, wbridge, wreexport, wapi, wreg, wperClass := [], [], [], [], [], [], map[];
    }

    /** The appends every generated function takes part in. */
    method Declare(spec: Spec, odb: string, u: Unit)
      modifies this`h, this`cc, this`bridge
      ensures h == old(h) + [DeclOf(spec, u)]
      ensures cc == old(cc) + [DefOf(spec, odb, u)]
      ensures bridge == old(bridge) + [BridgeOf(spec, u)]
    {
      h := h + [Decl(u.name, u.ret, KeyC(spec) + u.moreC)];
      cc := cc + [Def(Decl(u.name, u.ret, KeyC(spec) + u.moreC), spec.resolver, odb, u.body)];
      bridge := bridge + [BridgeFn(u.name, KeyR(spec) + u.moreR, u.rret)];
    }

    /** Three functions in a row, and their re-exports. */
    method DeclareThree(spec: Spec, odb: string, u: Unit, v: Unit, w: Unit)
      modifies this`h, this`cc, this`bridge, this`reexport
      ensures h == old(h) + [DeclOf(spec, u)] + [DeclOf(spec, v)] + [DeclOf(spec, w)]
      ensures cc == old(cc) + [DefOf(spec, odb, u)] + [DefOf(spec, odb, v)] + [DefOf(spec, odb, w)]
      ensures bridge == old(bridge) + [BridgeOf(spec, u)] + [BridgeOf(spec, v)] + [BridgeOf(spec, w)]
      ensures reexport == old(reexport) + [u.name] + [v.name] + [w.name]
    {
      hide DeclOf, DefOf, BridgeOf;
      Declare(spec, odb, u);
      Declare(spec, odb, v);
      Declare(spec, odb, w);
      reexport := reexport + [u.name];
      reexport := reexport + [v.name];
      reexport := reexport + [w.name];
    }

    /** One function answering for the whole method. */
    method EmitOne(spec: Spec, m: Method, ret: CTy, rret: RTy, body: Body, value: string, seen: Seen)
      modifies this`h, this`cc, this`bridge, this`reexport, this`api, this`reg, this`perClass, this`skipped, seen
      ensures var o := OnePlan(spec, m, ret, rret, body, value);
              Read() == After(old(Read()), spec, m.name, o) && seen.names == SeenAfter(old(seen.names), o)
    {
      ghost var s, o := Read(), OnePlan(spec, m, ret, rret, body, value);
      OneAfter(s, spec, m, ret, rret, body, value);
      hide Write, After, OnePlan, DeclOf, DefOf, BridgeOf, FnName, Snake, KeyedApi, Counted;
      var fn := FnName(spec, m);
      Declare(spec, m.name, Unit(fn, ret, rret, [], [], body));
      api := api + [KeyedApi(spec, fn, rret, fn)];
      reexport := reexport + [fn];
      seen.names := seen.names + {fn};
      perClass := Counted(perClass, spec.cls);
      reg := reg + [RegEntry(spec.cls, Snake(m.name), value, spec.args, fn)];
    }

    /** The three readers of a list. */
    method EmitList(spec: Spec, m: Method, seen: Seen) returns (ok: bool)
      modifies this`h, this`cc, this`bridge, this`reexport, this`api, this`reg, this`perClass, this`skipped, seen
      ensures var o := ListPlan(spec, m, old(seen.names));
              && ok == o.Bound?
              && Read() == After(old(Read()), spec, m.name, o) && seen.names == SeenAfter(old(seen.names), o)
    {
      var fn := FnName(spec, m);
      var num, nth, all := ListName(Num, spec, m), ListName(Nth, spec, m), ListName(All, spec, m);
      hide Write, DeclOf, DefOf, BridgeOf, FnName, ListName, Snake, KeyedApi;
      if num in seen.names || nth in seen.names || all in seen.names {
        return false;
      }
      ListAfter(Read(), spec, m, seen.names);
      hide After, ListPlan, Counted, CountUnit;
      DeclareThree(spec, m.name, CountUnit(spec, m),
        Unit(nth, CString, RString, [Arg("i", CSize)], [Arg("i", RUsize)], NthName(m.kind == Getter)),
        Unit(all, CVecString, RVecString, [], [], AllNames));
      api := api + [KeyedApi(spec, fn, RVecString, all)];
      seen.names := seen.names + {num};
      seen.names := seen.names + {nth};
      seen.names := seen.names + {all};
      seen.names := seen.names + {fn};
      perClass := Counted(perClass, spec.cls);
      reg := reg + [RegEntry(spec.cls, Snake(m.name), "list", spec.args, fn)];
      return true;
    }

    /** The counter alone, of a set whose elements have no name. */
    method EmitCount(spec: Spec, m: Method, seen: Seen) returns (ok: bool)
      modifies this`h, this`cc, this`bridge, this`reexport, this`api, this`reg, this`perClass, this`skipped, seen
      ensures var o := CountPlan(spec, m, old(seen.names));
              && ok == o.Bound?
              && Read() == After(old(Read()), spec, m.name, o) && seen.names == SeenAfter(old(seen.names), o)
    {
      var num := ListName(Num, spec, m);
      hide Write, DeclOf, DefOf, BridgeOf, ListName, Snake, KeyedApi;
      if num in seen.names {
        return false;
      }
      ghost var o := CountPlan(spec, m, seen.names);
      WriteOne(Read(), spec, m.name, CountUnit(spec, m), o.plan.apis, o.plan.regs, o.plan.names);
      Declare(spec, m.name, CountUnit(spec, m));
      reexport := reexport + [num];
      api := api + [KeyedApi(spec, num, RUsize, num)];
      seen.names := seen.names + {num};
      perClass := Counted(perClass, spec.cls);
      reg := reg + [RegEntry(spec.cls, Snake(m.name), "u64", spec.args, num)];
      return true;
    }

    /** One component. */
    method EmitSub(spec: Spec, m: Method, sub: Sub, seen: Seen)
      modifies this`h, this`cc, this`bridge, this`reexport, this`api, this`reg, this`perClass, this`skipped, seen
      ensures Read() == Write(old(Read()), spec, m.name, SubPlan(spec, m, sub))
      ensures seen.names == old(seen.names) + {NameOf(Single, spec.key, SubField(m, sub))}
    {
      hide Write, DeclOf, DefOf, BridgeOf, SubField, KeyedApi, NameOf;
      ghost var one := SubPlan(spec, m, sub);
      WriteOne(Read(), spec, m.name, one.units[0], one.apis, one.regs, one.names);
      var fn := NameOf(Single, spec.key, SubField(m, sub));
      Declare(spec, m.name, Unit(fn, sub.ret, sub.rret, [], [], sub.body));
      api := api + [KeyedApi(spec, fn, sub.rret, fn)];
      reexport := reexport + [fn];
      seen.names := seen.names + {fn};
      reg := reg + [RegEntry(spec.cls, SubField(m, sub), sub.value, spec.args, fn)];
    }

    /** The loop over the components of an expanded method. */
    method EmitSubs(ctx: Ctx, spec: Spec, m: Method, subs: seq<Sub>, seen: Seen) returns (emitted: nat)
      modifies this`h, this`cc, this`bridge, this`reexport, this`api, this`reg, this`perClass, this`skipped, seen
      ensures var plan := SubsPlan(ctx, spec, m, subs, old(seen.names));
              && Read() == Write(old(Read()), spec, m.name, plan)
              && seen.names == old(seen.names) + plan.names
              && emitted == |plan.units|
    {
      emitted := 0;
      ghost var done := NOTHING;
      hide Write, DeclOf, DefOf, BridgeOf, SubField, KeyedApi, NameOf;
      NothingWritten(Read(), spec, m.name);
      assert subs[0..] == subs;
      assert old(seen.names) + {} == old(seen.names);
      for k := 0 to |subs|
        invariant emitted == |done.units|
        invariant SubsPlan(ctx, spec, m, subs, old(seen.names))
                    == Then(done, SubsPlan(ctx, spec, m, subs[k..], seen.names))
        invariant Read() == Write(old(Read()), spec, m.name, done)
        invariant seen.names == old(seen.names) + done.names
      {
        var sub := subs[k];
        assert subs[k..][0] == sub && subs[k..][1..] == subs[k + 1..];
        var fn := NameOf(Single, spec.key, SubField(m, sub));
        if Taken(ctx, seen.names, fn) {
          continue;
        }
        ghost var one := SubPlan(spec, m, sub);
        SubsUnroll(ctx, spec, m, subs[k..], seen.names, done);
        WriteThen(old(Read()), spec, m.name, done, one);
        EmitSub(spec, m, sub, seen);
        emitted := emitted + 1;
        done := Then(done, one);
      }
      NoSubsLeft(ctx, spec, m, subs, seen.names);
      ThenNothing(done);
    }

    /** `add`: a zero-argument reader. */
    method Add(ctx: Ctx, spec: Spec, m: Method, seen: Seen) returns (ok: bool)
      modifies this`h, this`cc, this`bridge, this`reexport, this`api, this`reg, this`perClass, this`skipped, seen
      ensures var o := AddPlan(ctx, spec, m, old(seen.names));
              && ok == o.Bound?
              && Read() == After(old(Read()), spec, m.name, o) && seen.names == SeenAfter(old(seen.names), o)
      ensures ok <==> CanRead(ctx, spec, m, old(seen.names))
    {
      AddExactly(ctx, spec, m, seen.names);
      hide CanRead, ListTaken;
      hide FnName, Norm, StructBase, RelationTarget, IteratorElem, OnePlan, ListPlan, CountPlan, SubsPlan, SeenAfter;
      hide StructSubs, Scalar;
      var fn := FnName(spec, m);
      if Taken(ctx, seen.names, fn) {
        Declining(Read(), spec, m.name, seen.names);
        return false;
      }
      if m.kind == Getter && m.vecElem.Some? {
        if m.vecElem.value !in ctx.nameable {
          Declining(Read(), spec, m.name, seen.names);
          skipped := skipped + 1;
          return false;
        }
        ok := EmitList(spec, m, seen);
        return;
      }
      match m.kind {
        case Getter => ok := AddValue(ctx, spec, m, seen);
        case Predicate => ok := AddValue(ctx, spec, m, seen);
        case Relation =>
          if RelationTarget(m.ret) !in ctx.nameable {
            Declining(Read(), spec, m.name, seen.names);
            skipped := skipped + 1;
            return false;
          }
          OneIsBound(spec, m, CString, RString, TargetName, "string");
          EmitOne(spec, m, CString, RString, TargetName, "string", seen);
          ok := true;
        case Iterator =>
          var elem := IteratorElem(m.ret);
          if elem !in ctx.nameable {
            if FindSpec(ctx.table, elem).Some? {
              ok := EmitCount(spec, m, seen);
              return;
            }
            Declining(Read(), spec, m.name, seen.names);
            skipped := skipped + 1;
            return false;
          }
          ok := EmitList(spec, m, seen);
        case _ =>
          Declining(Read(), spec, m.name, seen.names);
          skipped := skipped + 1;
          ok := false;
      }
    }

    /** The marshalling decision of `add` for getters and predicates. */
    method AddValue(ctx: Ctx, spec: Spec, m: Method, seen: Seen) returns (ok: bool)
      modifies this`h, this`cc, this`bridge, this`reexport, this`api, this`reg, this`perClass, this`skipped, seen
      ensures var o := ValuePlan(ctx, spec, m, old(seen.names));
              && ok == o.Bound?
              && Read() == After(old(Read()), spec, m.name, o) && seen.names == SeenAfter(old(seen.names), o)
    {
      hide Norm, StructBase, OnePlan, SubsPlan, StructSubs, Scalar, SeenAfter, After;
      var n := Norm(m.ret);
      Declining(Read(), spec, m.name, seen.names);
      var ret, rret, body, value := CString, RString, StringValue, "string";
      if Scalar(n).Some? {
        ret, rret, body := Scalar(n).value.0, Scalar(n).value.1, Value;
        value := RName(rret);
      } else if n in {"std::string", "conststd::string&", "std::string&"} {
      } else if n in {"constchar*", "char*"} {
        body := CharPtrValue;
      } else if m.ret in ENUMS {
        body := EnumText;
      } else if (spec.cls, m.ret) in ENUM_MAPPED {
        body := MappedEnum(ENUM_MAPPED[(spec.cls, m.ret)]);
      } else if StructBase(m.ret) in STRUCT_FIELDS && PlainType(m.ret) {
        ok := AddStruct(ctx, spec, m, seen);
        return;
      } else {
        skipped := skipped + 1;
        return false;
      }
      OneIsBound(spec, m, ret, rret, body, value);
      EmitOne(spec, m, ret, rret, body, value, seen);
      return true;
    }

    /** A geometry struct returned by value: one scalar reader per component. */
    method AddStruct(ctx: Ctx, spec: Spec, m: Method, seen: Seen) returns (ok: bool)
      requires StructBase(m.ret) in STRUCT_FIELDS
      modifies this`h, this`cc, this`bridge, this`reexport, this`api, this`reg, this`perClass, this`skipped, seen
      ensures var o := StructPlan(ctx, spec, m, old(seen.names));
              && ok == o.Bound?
              && Read() == After(old(Read()), spec, m.name, o) && seen.names == SeenAfter(old(seen.names), o)
    {
      hide StructBase, SubsPlan, StructSubs, Write;
      var subs := StructSubs(STRUCT_FIELDS[StructBase(m.ret)]);
      SubsNothing(ctx, spec, m, subs, seen.names);
      NothingWritten(Read(), spec, m.name);
      Declining(Read(), spec, m.name, seen.names);
      var emitted := EmitSubs(ctx, spec, m, subs, seen);
      if emitted > 0 {
        WriteKeeps(old(Read()), spec, m.name, SubsPlan(ctx, spec, m, subs, old(seen.names)));
        perClass := Counted(perClass, spec.cls);
        return true;
      }
      skipped := skipped + 1;
      return false;
    }

    /** `add_query`: a parameterised read. */
    method AddQuery(ctx: Ctx, spec: Spec, m: Method, overloaded: bool, seen: Seen) returns (ok: bool)
      modifies this`h, this`cc, this`bridge, this`reexport, this`api, this`reg, this`perClass, this`skipped, seen
      ensures var o := QueryPlan(ctx, spec, m, overloaded, old(seen.names));
              && ok == o.Bound?
              && Read() == After(old(Read()), spec, m.name, o) && seen.names == SeenAfter(old(seen.names), o)
    {
      hide QueryRet, QueryName, QueryUnit, QueryParamsOk, QueryField;
      if m.params == [] || !QueryName(m.name) {
        return false;
      }
      if QueryRet(m.ret).None? || !QueryParamsOk(spec, m) {
        return false;
      }
      var fn := NameOf(Single, spec.key, QueryField(m, overloaded));
      if Taken(ctx, seen.names, fn) {
        return false;
      }
      var u := QueryUnit(spec, m, fn, QueryRet(m.ret).value);
      assert u.name == fn by { QueryUnitName(spec, m, fn, QueryRet(m.ret).value); }
      var params := KeyR(spec) + u.moreR;
      WriteOne(Read(), spec, m.name, u, [ApiFn(fn, params, u.rret, fn, ArgNames(params))], [], {fn});
      hide Write, DeclOf, DefOf, BridgeOf, KeyR, ArgNames;
      assert reg + [] == reg;
      Declare(spec, m.name, u);
      api := api + [ApiFn(fn, params, u.rret, fn, ArgNames(params))];
      reexport := reexport + [fn];
      seen.names := seen.names + {fn};
      perClass := Counted(perClass, spec.cls);
      return true;
    }

    /** `add_vector_outparam_getter`. */
    method AddVectorOutparamGetter(ctx: Ctx, spec: Spec, m: Method, seen: Seen) returns (ok: bool)
      requires |m.params| == 1
      modifies this`h, this`cc, this`bridge, this`reexport, this`api, this`reg, this`perClass, this`skipped, seen
      ensures var o := VectorPlan(ctx, spec, m, old(seen.names));
              && ok == o.Bound?
              && Read() == After(old(Read()), spec, m.name, o) && seen.names == SeenAfter(old(seen.names), o)
    {
      hide OnePlan, SeenAfter, After;
      Declining(Read(), spec, m.name, seen.names);
      var shape := m.params[0].shape;
      if !(shape.IntVecRef? || shape.PairVecRef?) {
        return false;
      }
      if Taken(ctx, seen.names, FnName(spec, m)) {
        return false;
      }
      OneIsBound(spec, m, CVecInt32, RVecI32, OutVector(shape.PairVecRef?), "list");
      EmitOne(spec, m, CVecInt32, RVecI32, OutVector(shape.PairVecRef?), "list", seen);
      return true;
    }

    /** `add_table_and_maps_getter`. */
    method AddTableAndMapsGetter(ctx: Ctx, spec: Spec, m: Method, seen: Seen) returns (ok: bool)
      requires |m.params| == 3
      modifies this`h, this`cc, this`bridge, this`reexport, this`api, this`reg, this`perClass, this`skipped, seen
      ensures var o := TablePlan(ctx, spec, m, old(seen.names));
              && ok == o.Bound?
              && Read() == After(old(Read()), spec, m.name, o) && seen.names == SeenAfter(old(seen.names), o)
    {
      hide SubsPlan, TableSubs;
      if !(m.params[0].shape.TableRef? && m.params[1].shape.NameMapRef? && m.params[2].shape.NameMapRef?) {
        return false;
      }
      ok := EmitComponents(ctx, spec, m, TableSubs(m), seen);
    }

    /** Expand a method into its components, counting the class once if any was emitted. */
    method EmitComponents(ctx: Ctx, spec: Spec, m: Method, subs: seq<Sub>, seen: Seen) returns (ok: bool)
      modifies this`h, this`cc, this`bridge, this`reexport, this`api, this`reg, this`perClass, this`skipped, seen
      ensures var plan := SubsPlan(ctx, spec, m, subs, old(seen.names));
              var o := if plan.units == [] then Declined else Bound(plan);
              && ok == o.Bound?
              && Read() == After(old(Read()), spec, m.name, o) && seen.names == SeenAfter(old(seen.names), o)
    {
      hide SubsPlan, Write;
      SubsNothing(ctx, spec, m, subs, seen.names);
      NothingWritten(Read(), spec, m.name);
      var emitted := EmitSubs(ctx, spec, m, subs, seen);
      if emitted > 0 {
        WriteKeeps(old(Read()), spec, m.name, SubsPlan(ctx, spec, m, subs, old(seen.names)));
        perClass := Counted(perClass, spec.cls);
      }
      return emitted > 0;
    }

    /** `add_outparam_getter`. */
    method AddOutparamGetter(ctx: Ctx, spec: Spec, m: Method, seen: Seen) returns (ok: bool)
      modifies this`h, this`cc, this`bridge, this`reexport, this`api, this`reg, this`perClass, this`skipped, seen
      ensures var o := OutParamPlan(ctx, spec, m, old(seen.names));
              && ok == o.Bound?
              && Read() == After(old(Read()), spec, m.name, o) && seen.names == SeenAfter(old(seen.names), o)
      ensures ok <==> CanReadOut(ctx, spec, m, old(seen.names))
    {
      OutExactly(ctx, spec, m, seen.names);
      hide CanReadOut;
      hide SubsPlan, OutSubs, AllScalarRefs, VectorPlan, TablePlan;
      if !StartsWith(m.name, "get") || m.params == [] {
        return false;
      }
      if |m.params| == 1 {
        var vector := AddVectorOutparamGetter(ctx, spec, m, seen);
        if vector {
          return true;
        }
        Declines(ctx, spec, m, old(Read()), old(seen.names));
      }
      if |m.params| == 3 {
        var table := AddTableAndMapsGetter(ctx, spec, m, seen);
        if table {
          return true;
        }
        Declines(ctx, spec, m, old(Read()), old(seen.names));
      }
      if !AllScalarRefs(m) {
        return false;
      }
      ok := EmitComponents(ctx, spec, m, OutSubs(m), seen);
    }

    /** `add_setter`, on the write buffers. */
    method AddSetter(ctx: Ctx, spec: Spec, m: Method, seen: Seen) returns (ok: bool)
      modifies this`wh, this`wcc, this`wbridge, this`wreexport, this`wapi, this`wreg, this`wperClass, seen
      ensures ok == Binds(ctx, spec, m, old(seen.names))
      ensures ok <==> CanSet(ctx, spec, m, old(seen.names))
      ensures Written() == SetterAfter(ctx, spec, m, old(Written()), old(seen.names))
      ensures seen.names == if ok then old(seen.names) + {FnName(spec, m)} else old(seen.names)
    {
      SetterExactly(ctx, spec, m, seen.names);
      hide CanSet;
      hide Compiled, MarshalAll, FnName, KeyR, FlatR, ArgNames, SetterDecl, SetterEntry;
      if !IsSetterName(m.name) {
        return false;
      }
      if m.name in spec.withheld {
        return false;
      }
      var fn := FnName(spec, m);
      if Taken(ctx, seen.names, fn) {
        return false;
      }
      var ms := MarshalAll(ctx.table, m.params);
      if ms.None? {
        return false;
      }
      var s := CompileSetter(ctx.table, spec, m, ms.value);
      var params := KeyR(spec) + FlatR(s);
      wh := wh + [SetterDecl(ctx.table, spec, m)];
      wcc := wcc + [WriteDef(SetterDecl(ctx.table, spec, m), spec.resolver, m.name, s.args)];
      wbridge := wbridge + [BridgeFn(fn, params, RUnitResult)];
      wreexport := wreexport + [fn];
      wapi := wapi + [SetterApi(ctx.table, spec, m)];
      seen.names := seen.names + {fn};
      wperClass := Counted(wperClass, spec.cls);
      wreg := wreg + [SetterEntry(ctx.table, spec, m)];
      return true;
    }

    // ---- the driving loop ------------------------------------------------------------------

    /** One class: the plain readers, then the out-parameter readers, then the parameterised reads,
        then, unless the class is read only, the setters with seen names of their own. */
    method BindClass(ctx: Ctx, spec: Spec, methods: seq<Method>)
      modifies this
      ensures Read() == RunOps(ctx, spec, Emitted(old(Read()), {}), ClassOps(methods)).s
      ensures Written() == if spec.readOnly then old(Written())
                           else RunSetters(ctx, spec, old(Written()), {}, SetterMethods(methods))
    {
      var seen := new Seen();
      hide RunOps, Do, RunSetters, SetterAfter, Binds;
      Readers(ctx, spec, PlainReaders(methods), seen);
      Readers(ctx, spec, OutReaders(methods), seen);
      Readers(ctx, spec, Queries(methods, methods), seen);
      ghost var st := Emitted(old(Read()), {});
      RunOpsAppend(ctx, spec, st, PlainReaders(methods) + OutReaders(methods), Queries(methods, methods));
      RunOpsAppend(ctx, spec, st, PlainReaders(methods), OutReaders(methods));
      if !spec.readOnly {
        var seenW := new Seen();
        var setters := SetterMethods(methods);
        for i := 0 to |setters|
          invariant RunSetters(ctx, spec, old(Written()), {}, setters)
                 == RunSetters(ctx, spec, Written(), seenW.names, setters[i..])
          invariant Read() == RunOps(ctx, spec, st, ClassOps(methods)).s
          modifies this`wh, this`wcc, this`wbridge, this`wreexport, this`wapi, this`wreg, this`wperClass, seenW
        {
          SettersUnroll(ctx, spec, Written(), seenW.names, setters, i);
          var _ := AddSetter(ctx, spec, setters[i], seenW);
        }
        SettersDone(ctx, spec, Written(), seenW.names, setters);
      }
    }

    /** A pass over the class's methods, already cut down to the calls it makes. */
    method Readers(ctx: Ctx, spec: Spec, ops: seq<Op>, seen: Seen)
      modifies this`h, this`cc, this`bridge, this`reexport, this`api, this`reg, this`perClass, this`skipped, seen
      ensures Emitted(Read(), seen.names) == RunOps(ctx, spec, Emitted(old(Read()), old(seen.names)), ops)
    {
      hide RunOps, Decide, After, SeenAfter;
      NoOpsYet(ctx, spec, Emitted(Read(), seen.names), ops);
      for i := 0 to |ops|
        invariant Emitted(Read(), seen.names) == RunOps(ctx, spec, Emitted(old(Read()), old(seen.names)), ops[..i])
      {
        RunNextOp(ctx, spec, Emitted(old(Read()), old(seen.names)), ops, i);
        DecideIs(ctx, spec, ops[i], seen.names);
        match ops[i] {
          case Add(m) => var _ := Add(ctx, spec, m, seen);
          case OutParam(m) => var _ := AddOutparamGetter(ctx, spec, m, seen);
          case Query(m, overloaded) => var _ := AddQuery(ctx, spec, m, overloaded, seen);
        }
      }
      assert ops[..|ops|] == ops;
    }

    /** Class after class, in the order of the table. */
    method GenerateAll(ctx: Ctx, headers: seq<seq<Method>>)
      requires |headers| == |ctx.table|
      modifies this
      ensures Read() == Generate(ctx, Rows(ctx.table, headers), old(Read()))
      ensures Written() == GenerateSetters(ctx, SetterRows(ctx.table, headers), old(Written()))
    {
      hide RunOps, RunSetters, ClassOps, SetterMethods, Generate, GenerateSetters, Rows, SetterRows;
      for i := 0 to |headers|
        invariant Generate(ctx, Rows(ctx.table, headers), old(Read()))
               == Generate(ctx, Rows(ctx.table[i..], headers[i..]), Read())
        invariant GenerateSetters(ctx, SetterRows(ctx.table, headers), old(Written()))
               == GenerateSetters(ctx, SetterRows(ctx.table[i..], headers[i..]), Written())
      {
        RowUnrolls(ctx, ctx.table, headers, i, Read(), Written());
        BindClass(ctx, ctx.table[i], headers[i]);
      }
      NoRowsLeft(ctx, Read(), Written());
    }
  }

  /** The loop of `add_setter` over the parameters: `used` grows as names are chosen, and names,
      types and call arguments are gathered side by side. */
  method CompileSetter(tbl: seq<Spec>, spec: Spec, m: Method, ms: seq<Marshal>) returns (s: Flattened)
    requires MarshalAll(tbl, m.params) == Some(ms)
    ensures s == Compiled(tbl, spec, m)
  {
    hide *;
    CompiledIs(tbl, spec, m, ms);
    var ps := m.params;
    var used := KeySet(spec);
    var names: seq<seq<string>> := [];
    var types, args := [], [];
    SoFarNone(ms, ps, used);
    for i := 0 to |ms|
      invariant SetterSoFar(ms, ps, KeySet(spec), i, used, names, types, args)
    {
      SoFarNext(ms, ps, KeySet(spec), i, used, names, types, args);
      var here := NamesFor(ms[i], ps[i], i, used);
      used := used + Elements(here);
      names := names + [here];
      types := types + TypesOf(ms[i]);
      args := args + [ExprOf(ms[i], here)];
    }
    s := Flattened(Flat(names), types, args);
    SoFarAll(ms, ps, KeySet(spec), used, names, types, args);
    SameFlattened(s, Compiled(tbl, spec, m));
  }

  /** What the loop has gathered of the first `i` parameters, `used` being the names taken since `keys`. */
  ghost predicate SetterSoFar(ms: seq<Marshal>, ps: seq<Param>, keys: set<string>, i: nat, used: set<string>,
                           names: seq<seq<string>>, types: seq<(CTy, RTy)>, args: seq<Expr>) {
    && |ms| == |ps| && i <= |ms| && |names| == |args| == i
    && Choose(ms, ps, 0, keys) == names + Choose(ms, ps, i, used)
    && AllTypes(ms) == types + AllTypes(ms[i..])
    && forall k | 0 <= k < i :: |names[k]| == Width(ms[k]) && args[k] == ExprOf(ms[k], names[k])
  }

  lemma {:induction false} SoFarNone(ms: seq<Marshal>, ps: seq<Param>, keys: set<string>)
    requires |ms| == |ps|
    ensures SetterSoFar(ms, ps, keys, 0, keys, [], [], [])
  {
    hide Choose, AllTypes;
    assert ms[0..] == ms;
    assert [] + Choose(ms, ps, 0, keys) == Choose(ms, ps, 0, keys) && [] + AllTypes(ms) == AllTypes(ms);
  }

  lemma {:induction false} SoFarNext(ms: seq<Marshal>, ps: seq<Param>, keys: set<string>, i: nat, used: set<string>,
                                        names: seq<seq<string>>, types: seq<(CTy, RTy)>, args: seq<Expr>)
    requires SetterSoFar(ms, ps, keys, i, used, names, types, args) && i < |ms|
    ensures var here := NamesFor(ms[i], ps[i], i, used);
            SetterSoFar(ms, ps, keys, i + 1, used + Elements(here), names + [here], types + TypesOf(ms[i]),
                     args + [ExprOf(ms[i], here)])
  {
    ChooseUnrolls(ms, ps, i, used, names);
    TypesUnroll(ms, i, types);
    hide NamesFor, Choose, AllTypes, ExprOf, TypesOf, Elements, Width;
  }

  lemma {:induction false} SoFarAll(ms: seq<Marshal>, ps: seq<Param>, keys: set<string>, used: set<string>,
                                       names: seq<seq<string>>, types: seq<(CTy, RTy)>, args: seq<Expr>)
    requires SetterSoFar(ms, ps, keys, |ms|, used, names, types, args)
    ensures names == Choose(ms, ps, 0, keys) && types == AllTypes(ms) && |args| == |ms|
    ensures forall k | 0 <= k < |ms| :: |names[k]| == Width(ms[k]) && args[k] == ExprOf(ms[k], names[k])
  {
    AllDone(ms, ps, used);
    hide Choose, AllTypes, ExprOf, Width;
    NothingMore(names, types, Choose(ms, ps, 0, keys), AllTypes(ms));
  }

  lemma {:induction false} SameFlattened(s: Flattened, t: Flattened)
    requires s.names == t.names && s.types == t.types && |s.args| == |t.args|
    requires forall k | 0 <= k < |s.args| :: s.args[k] == t.args[k]
    ensures s == t
  {
    assert s.args == t.args;
  }

  lemma {:induction false} NothingMore<T, U>(a: seq<T>, b: seq<U>, c: seq<T>, d: seq<U>)
    requires c == a + [] && d == b + []
    ensures a == c && b == d
  {
  }

  lemma {:induction false} ChooseUnrolls(ms: seq<Marshal>, ps: seq<Param>, i: nat, used: set<string>,
                                         names: seq<seq<string>>)
    requires |ms| == |ps| && i < |ms|
    ensures var here := NamesFor(ms[i], ps[i], i, used);
            names + Choose(ms, ps, i, used) == (names + [here]) + Choose(ms, ps, i + 1, used + Elements(here))
  {
    hide NamesFor, Elements, Width;
    var here := NamesFor(ms[i], ps[i], i, used);
    var more := Choose(ms, ps, i + 1, used + Elements(here));
    assert Choose(ms, ps, i, used) == [here] + more;
    OneByOne(names, here, more);
  }

  lemma {:induction false} OneByOne<T>(a: seq<T>, x: T, b: seq<T>)
    ensures a + ([x] + b) == (a + [x]) + b
  {
  }

  lemma {:induction false} TypesUnroll(ms: seq<Marshal>, i: nat, types: seq<(CTy, RTy)>)
    requires i < |ms|
    ensures types + AllTypes(ms[i..]) == (types + TypesOf(ms[i])) + AllTypes(ms[i + 1..])
  {
    hide TypesOf;
    assert ms[i..][1..] == ms[i + 1..];
  }

  lemma {:induction false} AllDone(ms: seq<Marshal>, ps: seq<Param>, used: set<string>)
    requires |ms| == |ps|
    ensures Choose(ms, ps, |ms|, used) == [] && AllTypes(ms[|ms|..]) == []
  {
  }

  // ---- which calls the driving loop makes ----------------------------------------------------

  function PlainReaders(methods: seq<Method>): seq<Op> {
    if methods == [] then []
    else
      var m := methods[0];
      (if m.kind in {Getter, Predicate, Relation, Iterator} && m.params == [] then [Op.Add(m)] else [])
      + PlainReaders(methods[1..])
  }

  function OutReaders(methods: seq<Method>): seq<Op> {
    if methods == [] then []
    else
      var m := methods[0];
      (if StartsWith(m.name, "get") && (m.kind == Setter || (m.params != [] && Norm(m.ret) == "bool"))
       then [OutParam(m)] else [])
      + OutReaders(methods[1..])
  }

  function NameCount(methods: seq<Method>, name: string): nat {
    if methods == [] then 0 else (if methods[0].name == name then 1 else 0) + NameCount(methods[1..], name)
  }

  function Queries(methods: seq<Method>, all: seq<Method>): seq<Op> {
    if methods == [] then []
    else
      var m := methods[0];
      (if m.kind != Setter && m.params != [] then [Query(m, NameCount(all, m.name) > 1)] else [])
      + Queries(methods[1..], all)
  }

  function ClassOps(methods: seq<Method>): seq<Op> {
    PlainReaders(methods) + OutReaders(methods) + Queries(methods, methods)
  }

  function SetterMethods(methods: seq<Method>): seq<Method> {
    if methods == [] then []
    else (if methods[0].kind == Setter then [methods[0]] else []) + SetterMethods(methods[1..])
  }

  /** A class of value structs is read only: none of its setters is offered. */
  function OfferedSetters(spec: Spec, methods: seq<Method>): seq<Method> {
    if spec.readOnly then [] else SetterMethods(methods)
  }

  function Rows(table: seq<Spec>, headers: seq<seq<Method>>): seq<Row>
    requires |table| == |headers|
  {
    if table == [] then [] else [Row(table[0], ClassOps(headers[0]))] + Rows(table[1..], headers[1..])
  }

  function SetterRows(table: seq<Spec>, headers: seq<seq<Method>>): seq<SetterRow>
    requires |table| == |headers|
  {
    if table == [] then []
    else
      [SetterRow(table[0], OfferedSetters(table[0], headers[0]))]
      + SetterRows(table[1..], headers[1..])
  }

  lemma {:induction false} RowUnrolls(ctx: Ctx, table: seq<Spec>, headers: seq<seq<Method>>, i: nat, s: Surface,
                                      w: WriteSurface)
    requires i < |table| == |headers|
    ensures Generate(ctx, Rows(table[i..], headers[i..]), s)
         == Generate(ctx, Rows(table[i + 1..], headers[i + 1..]),
                     RunOps(ctx, table[i], Emitted(s, {}), ClassOps(headers[i])).s)
    ensures GenerateSetters(ctx, SetterRows(table[i..], headers[i..]), w)
         == GenerateSetters(ctx, SetterRows(table[i + 1..], headers[i + 1..]),
                            if table[i].readOnly then w
                            else RunSetters(ctx, table[i], w, {}, SetterMethods(headers[i])))
  {
    hide RunOps, ClassOps, SetterMethods;
    assert table[i..][1..] == table[i + 1..] && headers[i..][1..] == headers[i + 1..];
  }

  lemma {:induction false} NoRowsLeft(ctx: Ctx, s: Surface, w: WriteSurface)
    ensures Generate(ctx, Rows([], []), s) == s && GenerateSetters(ctx, SetterRows([], []), w) == w
  {
  }

  lemma {:induction false} NoOpsYet(ctx: Ctx, spec: Spec, st: Emitted, ops: seq<Op>)
    ensures RunOps(ctx, spec, st, ops[..0]) == st
  {
  }

  lemma {:induction false} RunNextOp(ctx: Ctx, spec: Spec, st: Emitted, ops: seq<Op>, i: nat)
    requires i < |ops|
    ensures RunOps(ctx, spec, st, ops[..i + 1]) == Do(ctx, spec, RunOps(ctx, spec, st, ops[..i]), ops[i])
  {
    hide Do;
    assert ops[..i + 1] == ops[..i] + [ops[i]];
    RunOpsAppend(ctx, spec, st, ops[..i], [ops[i]]);
    assert [ops[i]][1..] == [];
  }

  lemma {:induction false} DecideIs(ctx: Ctx, spec: Spec, op: Op, seen: set<string>)
    ensures Decide(ctx, spec, op, seen)
         == match op
            case Add(m) => AddPlan(ctx, spec, m, seen)
            case OutParam(m) => OutParamPlan(ctx, spec, m, seen)
            case Query(m, overloaded) => QueryPlan(ctx, spec, m, overloaded, seen)
  {
  }

  lemma {:induction false} SettersUnroll(ctx: Ctx, spec: Spec, w: WriteSurface, seen: set<string>, ms: seq<Method>,
                                         i: nat)
    requires i < |ms|
    ensures RunSetters(ctx, spec, w, seen, ms[i..])
         == RunSetters(ctx, spec, SetterAfter(ctx, spec, ms[i], w, seen),
                       if Binds(ctx, spec, ms[i], seen) then seen + {FnName(spec, ms[i])} else seen, ms[i + 1..])
  {
    hide SetterAfter, Binds;
    assert ms[i..][1..] == ms[i + 1..];
  }

  lemma {:induction false} SettersDone(ctx: Ctx, spec: Spec, w: WriteSurface, seen: set<string>, ms: seq<Method>)
    ensures RunSetters(ctx, spec, w, seen, ms[|ms|..]) == w
  {
  }

  // ---- facts the methods use ---------------------------------------------------------------

  function Then(a: Plan, b: Plan): Plan {
    Plan(a.units + b.units, a.apis + b.apis, a.regs + b.regs, a.names + b.names)
  }

  function SubPlan(spec: Spec, m: Method, sub: Sub): Plan {
    var fn := NameOf(Single, spec.key, SubField(m, sub));
    Plan([Unit(fn, sub.ret, sub.rret, [], [], sub.body)], [KeyedApi(spec, fn, sub.rret, fn)],
         [RegEntry(spec.cls, SubField(m, sub), sub.value, spec.args, fn)], {fn})
  }

  lemma {:induction false} ThenNothing(p: Plan)
    ensures Then(p, NOTHING) == p && Then(NOTHING, p) == p
  {
  }

  lemma {:induction false} ThenAssociative(a: Plan, b: Plan, c: Plan)
    ensures Then(Then(a, b), c) == Then(a, Then(b, c))
  {
  }

  lemma {:induction false} NoSubsLeft(ctx: Ctx, spec: Spec, m: Method, subs: seq<Sub>, seen: set<string>)
    ensures SubsPlan(ctx, spec, m, subs[|subs|..], seen) == NOTHING
  {
  }

  lemma {:induction false} SubsUnroll(ctx: Ctx, spec: Spec, m: Method, subs: seq<Sub>, seen: set<string>, done: Plan)
    requires subs != [] && !Taken(ctx, seen, NameOf(Single, spec.key, SubField(m, subs[0])))
    ensures var fn := NameOf(Single, spec.key, SubField(m, subs[0]));
            Then(done, SubsPlan(ctx, spec, m, subs, seen))
            == Then(Then(done, SubPlan(spec, m, subs[0])), SubsPlan(ctx, spec, m, subs[1..], seen + {fn}))
  {
    var fn := NameOf(Single, spec.key, SubField(m, subs[0]));
    var more := SubsPlan(ctx, spec, m, subs[1..], seen + {fn});
    assert SubsPlan(ctx, spec, m, subs, seen) == Then(SubPlan(spec, m, subs[0]), more);
    ThenAssociative(done, SubPlan(spec, m, subs[0]), more);
  }

  lemma {:induction false} UnitsAppend(spec: Spec, odb: string, a: seq<Unit>, b: seq<Unit>)
    ensures Decls(spec, a + b) == Decls(spec, a) + Decls(spec, b)
    ensures Defs(spec, odb, a + b) == Defs(spec, odb, a) + Defs(spec, odb, b)
    ensures BridgeFns(spec, a + b) == BridgeFns(spec, a) + BridgeFns(spec, b)
    ensures UnitNames(a + b) == UnitNames(a) + UnitNames(b)
  {
    hide DeclOf, DefOf, BridgeOf;
  }

  lemma {:induction false} WriteThen(s: Surface, spec: Spec, odb: string, a: Plan, b: Plan)
    ensures Write(s, spec, odb, Then(a, b)) == Write(Write(s, spec, odb, a), spec, odb, b)
  {
    UnitsAppend(spec, odb, a.units, b.units);
    hide Decls, Defs, BridgeFns, UnitNames;
  }

  lemma {:induction false} WriteOne(s: Surface, spec: Spec, odb: string, u: Unit, apis: seq<ApiFn>,
                                    regs: seq<RegEntry>, names: set<string>)
    ensures Write(s, spec, odb, Plan([u], apis, regs, names))
         == Surface(s.h + [DeclOf(spec, u)], s.cc + [DefOf(spec, odb, u)], s.bridge + [BridgeOf(spec, u)],
                    s.reexport + [u.name], s.api + apis, s.reg + regs, s.perClass, s.skipped)
  {
    hide DeclOf, DefOf, BridgeOf;
    assert Decls(spec, [u]) == [DeclOf(spec, u)] && Defs(spec, odb, [u]) == [DefOf(spec, odb, u)];
    assert BridgeFns(spec, [u]) == [BridgeOf(spec, u)] && UnitNames([u]) == [u.name];
  }

  lemma {:induction false} OneAfter(s: Surface, spec: Spec, m: Method, ret: CTy, rret: RTy, body: Body, value: string)
    ensures var o := OnePlan(spec, m, ret, rret, body, value);
            var fn := FnName(spec, m); var u := Unit(fn, ret, rret, [], [], body);
            && o.Bound? && o.plan.names == {fn}
            && After(s, spec, m.name, o)
            == Surface(s.h + [DeclOf(spec, u)], s.cc + [DefOf(spec, m.name, u)], s.bridge + [BridgeOf(spec, u)],
                       s.reexport + [fn], s.api + [KeyedApi(spec, fn, rret, fn)],
                       s.reg + [RegEntry(spec.cls, Snake(m.name), value, spec.args, fn)],
                       Counted(s.perClass, spec.cls), s.skipped)
  {
    var o := OnePlan(spec, m, ret, rret, body, value);
    hide Write, FnName, Snake, KeyedApi;
    WriteOne(s, spec, m.name, o.plan.units[0], o.plan.apis, o.plan.regs, o.plan.names);
  }

  lemma {:induction false} WriteThree(s: Surface, spec: Spec, odb: string, u: Unit, v: Unit, w: Unit,
                                      apis: seq<ApiFn>, regs: seq<RegEntry>, names: set<string>)
    ensures Write(s, spec, odb, Plan([u, v, w], apis, regs, names))
         == Surface(s.h + [DeclOf(spec, u)] + [DeclOf(spec, v)] + [DeclOf(spec, w)],
                    s.cc + [DefOf(spec, odb, u)] + [DefOf(spec, odb, v)] + [DefOf(spec, odb, w)],
                    s.bridge + [BridgeOf(spec, u)] + [BridgeOf(spec, v)] + [BridgeOf(spec, w)],
                    s.reexport + [u.name] + [v.name] + [w.name], s.api + apis, s.reg + regs, s.perClass, s.skipped)
  {
    hide DeclOf, DefOf, BridgeOf;
    assert Decls(spec, [u, v, w]) == [DeclOf(spec, u), DeclOf(spec, v), DeclOf(spec, w)];
    assert Defs(spec, odb, [u, v, w]) == [DefOf(spec, odb, u), DefOf(spec, odb, v), DefOf(spec, odb, w)];
    assert BridgeFns(spec, [u, v, w]) == [BridgeOf(spec, u), BridgeOf(spec, v), BridgeOf(spec, w)];
    assert UnitNames([u, v, w]) == [u.name, v.name, w.name];
  }

  lemma {:induction false} ListAfter(s: Surface, spec: Spec, m: Method, seen: set<string>)
    requires ListPlan(spec, m, seen).Bound?
    ensures var o := ListPlan(spec, m, seen);
            var fn, num := FnName(spec, m), ListName(Num, spec, m);
            var nth, all := ListName(Nth, spec, m), ListName(All, spec, m);
            var u, v, w := CountUnit(spec, m),
                           Unit(nth, CString, RString, [Arg("i", CSize)], [Arg("i", RUsize)],
                                NthName(m.kind == Getter)),
                           Unit(all, CVecString, RVecString, [], [], AllNames);
            && o.plan.names == {num} + {nth} + {all} + {fn}
            && After(s, spec, m.name, o)
            == Surface(s.h + [DeclOf(spec, u)] + [DeclOf(spec, v)] + [DeclOf(spec, w)],
                       s.cc + [DefOf(spec, m.name, u)] + [DefOf(spec, m.name, v)] + [DefOf(spec, m.name, w)],
                       s.bridge + [BridgeOf(spec, u)] + [BridgeOf(spec, v)] + [BridgeOf(spec, w)],
                       s.reexport + [num] + [nth] + [all], s.api + [KeyedApi(spec, fn, RVecString, all)],
                       s.reg + [RegEntry(spec.cls, Snake(m.name), "list", spec.args, fn)],
                       Counted(s.perClass, spec.cls), s.skipped)
  {
    hide Write, FnName, Snake, KeyedApi, DeclOf, DefOf, BridgeOf, ListName, Counted;
    var p := ListPlan(spec, m, seen).plan;
    WriteThree(s, spec, m.name, p.units[0], p.units[1], p.units[2], p.apis, p.regs, p.names);
  }

  lemma {:induction false} NothingWritten(s: Surface, spec: Spec, odb: string)
    ensures Write(s, spec, odb, NOTHING) == s
  {
  }

  lemma {:induction false} WriteKeeps(s: Surface, spec: Spec, odb: string, plan: Plan)
    ensures Write(s, spec, odb, plan).perClass == s.perClass && Write(s, spec, odb, plan).skipped == s.skipped
  {
  }

  lemma {:induction false} Declining(s: Surface, spec: Spec, odb: string, seen: set<string>)
    ensures After(s, spec, odb, Declined) == s && SeenAfter(seen, Declined) == seen
    ensures After(s, spec, odb, Skipped) == s.(skipped := s.skipped + 1) && SeenAfter(seen, Skipped) == seen
  {
  }

  lemma {:induction false} OneIsBound(spec: Spec, m: Method, ret: CTy, rret: RTy, body: Body, value: string)
    ensures OnePlan(spec, m, ret, rret, body, value).Bound?
  {
  }

  lemma {:induction false} QueryUnitName(spec: Spec, m: Method, fn: string, ret: (CTy, RTy))
    requires QueryParamsOk(spec, m)
    ensures QueryUnit(spec, m, fn, ret).name == fn
  {
  }

  lemma {:induction false} SubsNothing(ctx: Ctx, spec: Spec, m: Method, subs: seq<Sub>, seen: set<string>)
    ensures SubsPlan(ctx, spec, m, subs, seen).units == [] ==> SubsPlan(ctx, spec, m, subs, seen) == NOTHING
  {
    if subs != [] && Taken(ctx, seen, NameOf(Single, spec.key, SubField(m, subs[0]))) {
      SubsNothing(ctx, spec, m, subs[1..], seen);
    }
  }

  /** A container form that does not bind leaves everything as it was. */
  lemma {:induction false} Declines(ctx: Ctx, spec: Spec, m: Method, s: Surface, seen: set<string>)
    ensures |m.params| == 1 && !VectorPlan(ctx, spec, m, seen).Bound? ==>
              After(s, spec, m.name, VectorPlan(ctx, spec, m, seen)) == s
                  && SeenAfter(seen, VectorPlan(ctx, spec, m, seen)) == seen
    ensures |m.params| == 3 && !TablePlan(ctx, spec, m, seen).Bound? ==>
              After(s, spec, m.name, TablePlan(ctx, spec, m, seen)) == s
                  && SeenAfter(seen, TablePlan(ctx, spec, m, seen)) == seen
  {
    hide SubsPlan, TableSubs;
  }
}
