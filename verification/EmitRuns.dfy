/** Whole runs of the read emitter: any sequence of calls within a class, then class after class. */
module EmitRuns {
  import opened Options
  import opened Text
  import opened Names
  import opened Targets
  import opened Bindings
  import opened EmitLaws

  // ---- runs --------------------------------------------------------------------------------

  datatype Emitted = Emitted(s: Surface, seen: set<string>)

  function Do(ctx: Ctx, spec: Spec, st: Emitted, op: Op): Emitted {
    var o := Decide(ctx, spec, op, st.seen);
    Emitted(After(st.s, spec, op.m.name, o), SeenAfter(st.seen, o))
  }

  function RunOps(ctx: Ctx, spec: Spec, st: Emitted, ops: seq<Op>): Emitted
    decreases |ops|
  {
    if ops == [] then st else RunOps(ctx, spec, Do(ctx, spec, st, ops[0]), ops[1..])
  }

  lemma {:induction false} RunOpsAppend(ctx: Ctx, spec: Spec, st: Emitted, a: seq<Op>, b: seq<Op>)
    ensures RunOps(ctx, spec, st, a + b) == RunOps(ctx, spec, RunOps(ctx, spec, st, a), b)
    decreases |a|
  {
    hide Do;
    if a == [] {
      assert a + b == b;
    } else {
      assert (a + b)[1..] == a[1..] + b;
      RunOpsAppend(ctx, spec, Do(ctx, spec, st, a[0]), a[1..], b);
    }
  }

  // ---- the counters of a run ---------------------------------------------------------------

  /** What each call of a run comes to. */
  function Outcomes(ctx: Ctx, spec: Spec, seen: set<string>, ops: seq<Op>): (os: seq<Outcome>)
    ensures |os| == |ops|
    decreases |ops|
  {
    if ops == [] then []
    else
      var o := Decide(ctx, spec, ops[0], seen);
      [o] + Outcomes(ctx, spec, SeenAfter(seen, o), ops[1..])
  }

  function BoundAmong(os: seq<Outcome>): nat {
    if os == [] then 0 else (if os[0].Bound? then 1 else 0) + BoundAmong(os[1..])
  }

  function SkippedAmong(os: seq<Outcome>): nat {
    if os == [] then 0 else (if os[0].Skipped? then 1 else 0) + SkippedAmong(os[1..])
  }

  function DeclinedAmong(os: seq<Outcome>): nat {
    if os == [] then 0 else (if os[0].Declined? then 1 else 0) + DeclinedAmong(os[1..])
  }

  function ClassCount(m: map<string, nat>, cls: string): nat {
    if cls in m then m[cls] else 0
  }

  /** The two counters tell what a run has done: the class counts the calls that bound, the other counts
      those that were skipped, and with the ones that declined these are all the calls. */
  lemma {:induction false} RunCounts(ctx: Ctx, spec: Spec, st: Emitted, ops: seq<Op>, cls: string)
    ensures var t, os := RunOps(ctx, spec, st, ops).s, Outcomes(ctx, spec, st.seen, ops);
            && ClassCount(t.perClass, cls)
               == ClassCount(st.s.perClass, cls) + (if cls == spec.cls then BoundAmong(os) else 0)
            && t.skipped == st.s.skipped + SkippedAmong(os)
            && BoundAmong(os) + SkippedAmong(os) + DeclinedAmong(os) == |ops|
    decreases |ops|
  {
    if ops != [] {
      RunCounts(ctx, spec, Do(ctx, spec, st, ops[0]), ops[1..], cls);
      DoCounts(ctx, spec, st, ops[0], cls);
      var o, more := Decide(ctx, spec, ops[0], st.seen), Outcomes(ctx, spec, Do(ctx, spec, st, ops[0]).seen, ops[1..]);
      hide Decide, Do, SeenAfter;
      assert Outcomes(ctx, spec, st.seen, ops) == [o] + more by { OutcomesNext(ctx, spec, st, ops); }
      assert ([o] + more)[1..] == more;
    }
  }

  lemma {:induction false} OutcomesNext(ctx: Ctx, spec: Spec, st: Emitted, ops: seq<Op>)
    requires ops != []
    ensures Outcomes(ctx, spec, st.seen, ops)
         == [Decide(ctx, spec, ops[0], st.seen)] + Outcomes(ctx, spec, Do(ctx, spec, st, ops[0]).seen, ops[1..])
  {
    hide Decide, SeenAfter;
  }

  lemma {:induction false} DoCounts(ctx: Ctx, spec: Spec, st: Emitted, op: Op, cls: string)
    ensures var t, o := Do(ctx, spec, st, op).s, Decide(ctx, spec, op, st.seen);
            && ClassCount(t.perClass, cls)
               == ClassCount(st.s.perClass, cls) + (if cls == spec.cls && o.Bound? then 1 else 0)
            && t.skipped == st.s.skipped + (if o.Skipped? then 1 else 0)
  {
    hide Decide, Decls, Defs, BridgeFns, UnitNames;
  }

  // ---- the invariant of the buffers --------------------------------------------------------

  /** The four buffers name the same functions in the same order, the definition repeats the
      declaration with a body of its type, and the bridge entry is the declaration under cxx's type
      mapping. */
  ghost predicate Lockstep(s: Surface) {
    && |s.h| == |s.cc| == |s.bridge| == |s.reexport|
    && forall i | 0 <= i < |s.h| ::
      && s.reexport[i] == s.bridge[i].name == s.h[i].name
      && s.cc[i].decl == s.h[i] && BodyFits(s.cc[i].body, s.h[i].ret, s.h[i].params)
      && s.bridge[i].ret == Bridged(s.h[i].ret)
      && SameArgs(s.h[i].params, s.bridge[i].params)
  }

  /** The wrapper calls a re-exported bridge function, forwarding its own parameters to it and
      returning what it returns. */
  ghost predicate Reaches(a: ApiFn, bridge: seq<BridgeFn>) {
    && a.forwards == ArgNames(a.params)
    && exists i :: 0 <= i < |bridge| && bridge[i] == BridgeFn(a.callee, a.params, a.ret)
  }

  /** The registry entry calls a wrapper whose parameters are the entry's keys, by name, kind and order,
      and describes the value that wrapper returns. */
  ghost predicate Dispatches(r: RegEntry, api: seq<ApiFn>) {
    exists i :: 0 <= i < |api| && api[i].name == r.api && api[i].params == ArgsOf(r.keys)
             && r.value == ValueWord(api[i].ret)
  }

  ghost predicate Sound(s: Surface) {
    && Lockstep(s)
    && (forall a | a in s.api :: Reaches(a, s.bridge))
    && (forall r | r in s.reg :: Dispatches(r, s.api))
  }

  lemma {:induction false} BodyFitsMore(body: Body, ret: CTy, keys: seq<Arg<CTy>>, more: seq<Arg<CTy>>)
    requires BodyFits(body, ret, more)
    ensures BodyFits(body, ret, keys + more)
  {
  }

  lemma {:induction false} WriteLockstep(s: Surface, spec: Spec, odb: string, plan: Plan)
    requires Lockstep(s) && forall u | u in plan.units :: UnitAgrees(u)
    ensures Lockstep(Write(s, spec, odb, plan))
  {
    var t := Write(s, spec, odb, plan);
    forall i | 0 <= i < |t.h|
      ensures t.reexport[i] == t.bridge[i].name == t.h[i].name && t.cc[i].decl == t.h[i]
      ensures BodyFits(t.cc[i].body, t.h[i].ret, t.h[i].params)
      ensures t.bridge[i].ret == Bridged(t.h[i].ret) && SameArgs(t.h[i].params, t.bridge[i].params)
    {
      if i >= |s.h| {
        var u := plan.units[i - |s.h|];
        assert u in plan.units;
        KeysCorrespond(spec);
        SameArgsAppend(KeyC(spec), u.moreC, KeyR(spec), u.moreR);
        BodyFitsMore(u.body, u.ret, KeyC(spec), u.moreC);
      }
    }
  }

  lemma {:induction false} ReachesMore(a: ApiFn, bridge: seq<BridgeFn>, more: seq<BridgeFn>)
    requires Reaches(a, bridge)
    ensures Reaches(a, bridge + more)
  {
    var i :| 0 <= i < |bridge| && bridge[i] == BridgeFn(a.callee, a.params, a.ret);
    assert (bridge + more)[i] == bridge[i];
  }

  lemma {:induction false} DispatchesMore(r: RegEntry, api: seq<ApiFn>, more: seq<ApiFn>)
    requires Dispatches(r, api)
    ensures Dispatches(r, api + more)
  {
    var i :| 0 <= i < |api| && api[i].name == r.api && api[i].params == ArgsOf(r.keys)
        && r.value == ValueWord(api[i].ret);
    assert (api + more)[i] == api[i];
  }

  lemma {:induction false} WriteReaches(s: Surface, spec: Spec, odb: string, plan: Plan)
    requires (forall a | a in s.api :: Reaches(a, s.bridge)) && Linked(spec, plan)
    ensures forall a | a in Write(s, spec, odb, plan).api :: Reaches(a, Write(s, spec, odb, plan).bridge)
  {
    var fns := BridgeFns(spec, plan.units);
    forall a | a in s.api + plan.apis ensures Reaches(a, s.bridge + fns) {
      if a in s.api {
        ReachesMore(a, s.bridge, fns);
      } else {
        assert ApiCalls(spec, a, plan.units);
        var u :| u in plan.units && a.callee == u.name && a.ret == u.rret && a.params == KeyR(spec) + u.moreR
            && a.forwards == ArgNames(a.params);
        var k :| 0 <= k < |plan.units| && plan.units[k] == u;
        assert (s.bridge + fns)[|s.bridge| + k] == BridgeOf(spec, u);
      }
    }
  }

  lemma {:induction false} WriteDispatches(s: Surface, spec: Spec, odb: string, plan: Plan)
    requires (forall r | r in s.reg :: Dispatches(r, s.api)) && Linked(spec, plan)
    ensures forall r | r in Write(s, spec, odb, plan).reg :: Dispatches(r, Write(s, spec, odb, plan).api)
  {
    forall r | r in plan.regs ensures Dispatches(r, plan.apis) {
      var k :| 0 <= k < |plan.regs| && plan.regs[k] == r;
      RegDispatches(spec, plan.regs[k], plan.apis, k);
    }
    hide Linked, Dispatches, Decls, Defs, BridgeFns, UnitNames;
    forall r | r in s.reg + plan.regs ensures Dispatches(r, s.api + plan.apis) {
      if r in s.reg {
        DispatchesMore(r, s.api, plan.apis);
      } else {
        DispatchesAfter(r, s.api, plan.apis);
      }
    }
  }

  lemma {:induction false} DispatchesAfter(r: RegEntry, before: seq<ApiFn>, api: seq<ApiFn>)
    requires Dispatches(r, api)
    ensures Dispatches(r, before + api)
  {
    hide ArgsOf, ValueWord;
    var i :| 0 <= i < |api| && api[i].name == r.api && api[i].params == ArgsOf(r.keys)
        && r.value == ValueWord(api[i].ret);
    assert (before + api)[|before| + i] == api[i];
  }

  lemma {:induction false} RegDispatches(spec: Spec, r: RegEntry, apis: seq<ApiFn>, k: nat)
    requires k < |apis| && RegCalls(spec, r, apis[k])
    ensures Dispatches(r, apis)
  {
    hide ArgsOf, ValueWord, NameOf;
  }

  lemma {:induction false} DoSound(ctx: Ctx, spec: Spec, st: Emitted, op: Op)
    requires Sound(st.s)
    ensures Sound(Do(ctx, spec, st, op).s)
  {
    var o := Decide(ctx, spec, op, st.seen);
    if o.Bound? {
      DecideOk(ctx, spec, op, st.seen);
      hide Decide, Lockstep, Reaches, Dispatches, Linked, NamesFresh;
      WriteLockstep(st.s, spec, op.m.name, o.plan);
      WriteReaches(st.s, spec, op.m.name, o.plan);
      WriteDispatches(st.s, spec, op.m.name, o.plan);
    }
  }

  /** Every run, from any sound buffers and any seen names, leaves sound buffers. */
  lemma {:induction false} RunSound(ctx: Ctx, spec: Spec, st: Emitted, ops: seq<Op>)
    requires Sound(st.s)
    ensures Sound(RunOps(ctx, spec, st, ops).s)
    decreases |ops|
  {
    hide Sound, Do;
    if ops != [] {
      DoSound(ctx, spec, st, ops[0]);
      RunSound(ctx, spec, Do(ctx, spec, st, ops[0]), ops[1..]);
    }
  }

  // ---- what a run adds ---------------------------------------------------------------------

  function PlanOf(o: Outcome): Plan {
    if o.Bound? then o.plan else NOTHING
  }

  function NewNames(ctx: Ctx, spec: Spec, seen: set<string>, ops: seq<Op>): seq<string>
    decreases |ops|
  {
    if ops == [] then []
    else
      var o := Decide(ctx, spec, ops[0], seen);
      UnitNames(PlanOf(o).units) + NewNames(ctx, spec, SeenAfter(seen, o), ops[1..])
  }

  /** The names of the wrappers a run adds. */
  function NewWrappers(ctx: Ctx, spec: Spec, seen: set<string>, ops: seq<Op>): seq<string>
    decreases |ops|
  {
    if ops == [] then []
    else
      var o := Decide(ctx, spec, ops[0], seen);
      ApiNames(PlanOf(o).apis) + NewWrappers(ctx, spec, SeenAfter(seen, o), ops[1..])
  }

  function NewRegs(ctx: Ctx, spec: Spec, seen: set<string>, ops: seq<Op>): seq<RegEntry>
    decreases |ops|
  {
    if ops == [] then []
    else
      var o := Decide(ctx, spec, ops[0], seen);
      PlanOf(o).regs + NewRegs(ctx, spec, SeenAfter(seen, o), ops[1..])
  }

  lemma {:induction false} DoAdds(ctx: Ctx, spec: Spec, st: Emitted, op: Op)
    ensures var o := Decide(ctx, spec, op, st.seen); var t := Do(ctx, spec, st, op);
            && t.s.reexport == st.s.reexport + UnitNames(PlanOf(o).units)
            && ApiNames(t.s.api) == ApiNames(st.s.api) + ApiNames(PlanOf(o).apis)
            && t.s.reg == st.s.reg + PlanOf(o).regs
            && t.seen == SeenAfter(st.seen, o)
  {
    hide Decide;
  }

  /** A call either binds at least one new name or changes nothing: one that declines leaves every
      buffer and the seen names as they were, at most counting the method as skipped. */
  lemma {:induction false} AllOrNothing(ctx: Ctx, spec: Spec, st: Emitted, op: Op)
    ensures var t := Do(ctx, spec, st, op);
            if Decide(ctx, spec, op, st.seen).Bound?
            then t.s.reexport != st.s.reexport && st.seen < t.seen
            else t.s == st.s.(skipped := t.s.skipped) && t.seen == st.seen
  {
    DoAdds(ctx, spec, st, op);
    if Decide(ctx, spec, op, st.seen).Bound? {
      DecideOk(ctx, spec, op, st.seen);
      var plan := Decide(ctx, spec, op, st.seen).plan;
      hide Decide, Linked, UnitAgrees, FieldOf, Proper;
      assert plan.units[0] in plan.units && plan.units[0].name in plan.names;
    }
  }

  lemma {:induction false} RunAdds(ctx: Ctx, spec: Spec, st: Emitted, ops: seq<Op>)
    ensures var t := RunOps(ctx, spec, st, ops).s;
            && t.reexport == st.s.reexport + NewNames(ctx, spec, st.seen, ops)
            && ApiNames(t.api) == ApiNames(st.s.api) + NewWrappers(ctx, spec, st.seen, ops)
            && t.reg == st.s.reg + NewRegs(ctx, spec, st.seen, ops)
    decreases |ops|
  {
    hide Do, Decide, SeenAfter;
    if ops != [] {
      DoAdds(ctx, spec, st, ops[0]);
      RunAdds(ctx, spec, Do(ctx, spec, st, ops[0]), ops[1..]);
    }
  }

  /** A name that some call of the run may give: proper, and of a field of its method. */
  ghost predicate Given(ctx: Ctx, key: string, ops: seq<Op>, n: string) {
    exists op | op in ops :: Proper(ctx, key, op.m.name, n)
  }

  /** The names are new and pairwise different, and calls of the run gave them. */
  ghost predicate RunNames(ctx: Ctx, key: string, ops: seq<Op>, seen: set<string>, names: seq<string>) {
    NoDup(names) && forall n | n in names :: n !in seen && Given(ctx, key, ops, n)
  }

  lemma {:induction false} RunNamesCons(ctx: Ctx, key: string, ops: seq<Op>, seen: set<string>, later: set<string>,
                                        here: seq<string>, rest: seq<string>)
    requires ops != [] && NoDup(here) && seen <= later
    requires forall n | n in here :: n in later && n !in seen && Proper(ctx, key, ops[0].m.name, n)
    requires RunNames(ctx, key, ops[1..], later, rest)
    ensures RunNames(ctx, key, ops, seen, here + rest)
  {
    hide Proper;
    NoDupAppend(here, rest);
    assert ops[0] in ops && forall op | op in ops[1..] :: op in ops;
  }

  lemma {:induction false} PlanNames(ctx: Ctx, spec: Spec, name: string, seen: set<string>, plan: Plan)
    requires NamesFresh(ctx, spec, name, seen, plan) && NoDup(ApiNames(plan.apis))
    ensures NoDup(UnitNames(plan.units))
    ensures forall n | n in UnitNames(plan.units) :: n in plan.names && n !in seen && Proper(ctx, spec.key, name, n)
    ensures forall n | n in ApiNames(plan.apis) :: n in plan.names && n !in seen && Proper(ctx, spec.key, name, n)
  {
    hide Proper;
    assert forall i | 0 <= i < |plan.units| :: plan.units[i] in plan.units;
    assert forall i | 0 <= i < |plan.apis| :: plan.apis[i] in plan.apis;
  }

  /** Within a class no name is emitted twice, and none was seen before; each is given by a call for one
      of its method's fields, and its plain form, which is the name itself unless it reads a list, is
      reserved by neither hand-written layer. The same holds of the wrappers' names. */
  lemma {:induction false} NewNamesFresh(ctx: Ctx, spec: Spec, seen: set<string>, ops: seq<Op>)
    ensures RunNames(ctx, spec.key, ops, seen, NewNames(ctx, spec, seen, ops))
    ensures RunNames(ctx, spec.key, ops, seen, NewWrappers(ctx, spec, seen, ops))
    decreases |ops|
  {
    if ops == [] {
      assert NewNames(ctx, spec, seen, ops) == [] && NewWrappers(ctx, spec, seen, ops) == [];
    } else {
      var o := Decide(ctx, spec, ops[0], seen);
      var later := SeenAfter(seen, o);
      NewNamesFresh(ctx, spec, later, ops[1..]);
      var names, wrappers := UnitNames(PlanOf(o).units), ApiNames(PlanOf(o).apis);
      if o.Bound? {
        DecideOk(ctx, spec, ops[0], seen);
        PlanNames(ctx, spec, ops[0].m.name, seen, o.plan);
      } else {
        assert names == [] && wrappers == [] && NoDup(names) && NoDup(wrappers);
      }
      assert seen <= later && NoDup(wrappers) && NoDup(names);
      hide Decide, Given, Proper, RunNames, NoDup, NamesFresh, Linked;
      RunNamesCons(ctx, spec.key, ops, seen, later, names, NewNames(ctx, spec, later, ops[1..]));
      RunNamesCons(ctx, spec.key, ops, seen, later, wrappers, NewWrappers(ctx, spec, later, ops[1..]));
    }
  }

  // ---- class after class -------------------------------------------------------------------

  /** A class of the table and the calls the driving loop makes for it. */
  datatype Row = Row(spec: Spec, ops: seq<Op>)

  /** The driving loop: `seen` starts empty at every class, the buffers go on. */
  function Generate(ctx: Ctx, rows: seq<Row>, s: Surface): Surface
    decreases |rows|
  {
    if rows == [] then s
    else Generate(ctx, rows[1..], RunOps(ctx, rows[0].spec, Emitted(s, {}), rows[0].ops).s)
  }

  lemma {:induction false} GenerateSound(ctx: Ctx, rows: seq<Row>, s: Surface)
    requires Sound(s)
    ensures Sound(Generate(ctx, rows, s))
    decreases |rows|
  {
    hide Sound, RunOps;
    if rows != [] {
      RunSound(ctx, rows[0].spec, Emitted(s, {}), rows[0].ops);
      GenerateSound(ctx, rows[1..], RunOps(ctx, rows[0].spec, Emitted(s, {}), rows[0].ops).s);
    }
  }

  function ClassNames(ctx: Ctx, row: Row): seq<string> {
    NewNames(ctx, row.spec, {}, row.ops)
  }

  function ClassWrappers(ctx: Ctx, row: Row): seq<string> {
    NewWrappers(ctx, row.spec, {}, row.ops)
  }

  function NamesOf(ctx: Ctx, rows: seq<Row>): (r: seq<seq<string>>)
    ensures |r| == |rows| && forall i | 0 <= i < |rows| :: r[i] == ClassNames(ctx, rows[i])
  {
    seq(|rows|, i requires 0 <= i < |rows| => ClassNames(ctx, rows[i]))
  }

  function WrappersOf(ctx: Ctx, rows: seq<Row>): (r: seq<seq<string>>)
    ensures |r| == |rows| && forall i | 0 <= i < |rows| :: r[i] == ClassWrappers(ctx, rows[i])
  {
    seq(|rows|, i requires 0 <= i < |rows| => ClassWrappers(ctx, rows[i]))
  }

  lemma {:induction false} ClassAdds(ctx: Ctx, row: Row, s: Surface)
    ensures var t := RunOps(ctx, row.spec, Emitted(s, {}), row.ops).s;
            t.reexport == s.reexport + ClassNames(ctx, row)
                && ApiNames(t.api) == ApiNames(s.api) + ClassWrappers(ctx, row)
  {
    RunAdds(ctx, row.spec, Emitted(s, {}), row.ops);
  }

  lemma {:induction false} GenerateNames(ctx: Ctx, rows: seq<Row>, s: Surface)
    ensures var t := Generate(ctx, rows, s);
            t.reexport == s.reexport + Flat(NamesOf(ctx, rows))
            && ApiNames(t.api) == ApiNames(s.api) + Flat(WrappersOf(ctx, rows))
    decreases |rows|
  {
    hide RunOps, ClassNames, ClassWrappers, ApiNames;
    if rows == [] {
      assert s.reexport + [] == s.reexport && ApiNames(s.api) + [] == ApiNames(s.api);
    } else {
      var t := RunOps(ctx, rows[0].spec, Emitted(s, {}), rows[0].ops).s;
      ClassAdds(ctx, rows[0], s);
      GenerateNames(ctx, rows[1..], t);
      var names, wrappers := NamesOf(ctx, rows), WrappersOf(ctx, rows);
      assert names[1..] == NamesOf(ctx, rows[1..]) && wrappers[1..] == WrappersOf(ctx, rows[1..]);
      assert s.reexport + names[0] + Flat(names[1..]) == s.reexport + Flat(names);
      assert ApiNames(s.api) + wrappers[0] + Flat(wrappers[1..]) == ApiNames(s.api) + Flat(wrappers);
    }
  }

  predicate DistinctKeys(rows: seq<Row>) {
    && (forall i | 0 <= i < |rows| :: KeyOk(rows[i].spec.key))
    && forall i, j | 0 <= i < j < |rows| :: rows[i].spec.key != rows[j].spec.key
  }

  // ---- names shared by two classes ---------------------------------------------------------

  ghost predicate OfKey(key: string, names: seq<string>) {
    forall n | n in names :: exists form, field :: n == NameOf(form, key, field)
  }

  /** The classes of two cousin keys share a name: in one form, the shorter key has a field that is what
      the longer key adds and then a field that the longer key has. */
  ghost predicate Shared(a: string, xs: seq<string>, b: string, ys: seq<string>)
    requires Cousins(a, b)
  {
    exists form, field :: NameOf(form, a, Clash(a, b) + field) in xs && NameOf(form, b, field) in ys
  }

  lemma {:induction false} CousinNames(form: Form, a: string, b: string, field: string)
    requires Cousins(a, b)
    ensures NameOf(form, a, Clash(a, b) + field) == NameOf(form, b, field)
  {
    var p, c := Prefix(form), Clash(a, b);
    hide Prefix, Clash, Cousins;
    assert p + a + "_" + (c + field) == p + (a + "_" + c) + field;
    assert p + b + "_" + field == p + (b + "_") + field;
  }

  lemma {:induction false} CommonName(a: string, b: string, p: Form, f: string, q: Form, g: string)
    requires KeyOk(a) && KeyOk(b) && a != b && NameOf(p, a, f) == NameOf(q, b, g)
    ensures p == q && (Cousins(a, b) || Cousins(b, a))
    ensures if Cousins(a, b) then f == Clash(a, b) + g else g == Clash(b, a) + f
  {
    if |a| <= |b| {
      NamesCollide(p, a, f, q, b, g);
    } else {
      NamesCollide(q, b, g, p, a, f);
    }
    hide KeyOk, NameOf;
    CousinsOneWay(a, b);
  }

  lemma {:induction false} CousinsOneWay(a: string, b: string)
    ensures !(Cousins(a, b) && Cousins(b, a))
  {
    if Cousins(a, b) {
      assert |a| < |b|;
    }
    if Cousins(b, a) {
      assert |b| < |a|;
    }
  }

  /** Two classes have a name in common if and only if they are cousins that share one. */
  lemma {:induction false} SharedExactly(a: string, xs: seq<string>, b: string, ys: seq<string>)
    requires KeyOk(a) && KeyOk(b) && a != b && OfKey(a, xs) && OfKey(b, ys)
    ensures Apart(xs, ys) <==> !(Cousins(a, b) && Shared(a, xs, b, ys)) && !(Cousins(b, a) && Shared(b, ys, a, xs))
  {
    hide KeyOk, NameOf, Clash, Cousins;
    forall n | n in xs && n in ys
      ensures (Cousins(a, b) && Shared(a, xs, b, ys)) || (Cousins(b, a) && Shared(b, ys, a, xs))
    {
      var p, f :| n == NameOf(p, a, f);
      var q, g :| n == NameOf(q, b, g);
      CommonName(a, b, p, f, q, g);
    }
    if Cousins(a, b) && Shared(a, xs, b, ys) {
      var form, field :| NameOf(form, a, Clash(a, b) + field) in xs && NameOf(form, b, field) in ys;
      CousinNames(form, a, b, field);
    }
    if Cousins(b, a) && Shared(b, ys, a, xs) {
      var form, field :| NameOf(form, b, Clash(b, a) + field) in ys && NameOf(form, a, field) in xs;
      CousinNames(form, b, a, field);
    }
  }

  lemma {:induction false} NoDupFlat(lists: seq<seq<string>>)
    requires forall i | 0 <= i < |lists| :: NoDup(lists[i])
    ensures NoDup(Flat(lists)) <==> forall i, j | 0 <= i < j < |lists| :: Apart(lists[i], lists[j])
  {
    if lists != [] {
      var here, rest := lists[0], lists[1..];
      hide NoDup, Apart;
      NoDupAppend(here, Flat(rest));
      NoDupFlat(rest);
      ApartFromAll(here, rest);
      assert forall j | 0 <= j < |rest| :: rest[j] == lists[j + 1];
      forall i, j | 0 <= i < j < |lists| ensures NoDup(Flat(lists)) ==> Apart(lists[i], lists[j]) {
        assert lists[j] == rest[j - 1];
        assert i > 0 ==> lists[i] == rest[i - 1];
      }
    }
  }

  lemma {:induction false} ApartFromAll(names: seq<string>, lists: seq<seq<string>>)
    ensures Apart(names, Flat(lists)) <==> forall j | 0 <= j < |lists| :: Apart(names, lists[j])
  {
    if lists != [] {
      ApartFromAll(names, lists[1..]);
      assert forall j | 1 <= j < |lists| :: lists[1..][j - 1] == lists[j];
    }
  }

  /** No two cousin classes share a name. */
  ghost predicate CousinsShareNone(rows: seq<Row>, lists: seq<seq<string>>)
    requires |rows| == |lists|
  {
    forall i, j | 0 <= i < |rows| && 0 <= j < |rows| && Cousins(rows[i].spec.key, rows[j].spec.key) ::
      !Shared(rows[i].spec.key, lists[i], rows[j].spec.key, lists[j])
  }

  lemma {:induction false} UniqueLists(rows: seq<Row>, lists: seq<seq<string>>)
    requires DistinctKeys(rows) && |rows| == |lists|
    requires forall i | 0 <= i < |rows| :: NoDup(lists[i]) && OfKey(rows[i].spec.key, lists[i])
    ensures NoDup(Flat(lists)) <==> CousinsShareNone(rows, lists)
  {
    NoDupFlat(lists);
    hide NoDup, KeyOk, Cousins, Shared, OfKey;
    forall i, j | 0 <= i < j < |rows|
      ensures var a, b := rows[i].spec.key, rows[j].spec.key;
              Apart(lists[i], lists[j])
              <==> !(Cousins(a, b) && Shared(a, lists[i], b, lists[j]))
                   && !(Cousins(b, a) && Shared(b, lists[j], a, lists[i]))
    {
      SharedExactly(rows[i].spec.key, lists[i], rows[j].spec.key, lists[j]);
    }
    forall i | 0 <= i < |rows| ensures !Cousins(rows[i].spec.key, rows[i].spec.key) {
      CousinsOneWay(rows[i].spec.key, rows[i].spec.key);
    }
  }

  lemma {:induction false} GivenOfKey(ctx: Ctx, key: string, ops: seq<Op>, names: seq<string>)
    requires RunNames(ctx, key, ops, {}, names)
    ensures OfKey(key, names)
  {
    hide NameOf, FieldOf;
    forall n | n in names ensures exists form, field :: n == NameOf(form, key, field) {
      var op :| op in ops && Proper(ctx, key, op.m.name, n);
    }
  }

  lemma {:induction false} ClassGiven(ctx: Ctx, row: Row)
    ensures RunNames(ctx, row.spec.key, row.ops, {}, ClassNames(ctx, row))
    ensures RunNames(ctx, row.spec.key, row.ops, {}, ClassWrappers(ctx, row))
    ensures NoDup(ClassNames(ctx, row)) && OfKey(row.spec.key, ClassNames(ctx, row))
    ensures NoDup(ClassWrappers(ctx, row)) && OfKey(row.spec.key, ClassWrappers(ctx, row))
  {
    NewNamesFresh(ctx, row.spec, {}, row.ops);
    hide NewNames, NewWrappers, Given, OfKey;
    GivenOfKey(ctx, row.spec.key, row.ops, ClassNames(ctx, row));
    GivenOfKey(ctx, row.spec.key, row.ops, ClassWrappers(ctx, row));
  }

  const EMPTY := Surface([], [], [], [], [], [], map[], 0)

  /** What a whole run generates: buffers in step and linked. Although the seen names start afresh at
      every class, no function is emitted twice, and no wrapper, if and only if no two cousin classes
      share one. */
  lemma {:induction false} GeneratedSurface(ctx: Ctx, rows: seq<Row>)
    requires DistinctKeys(rows)
    ensures var s := Generate(ctx, rows, EMPTY);
            && Sound(s)
            && (NoDup(s.reexport) <==> CousinsShareNone(rows, NamesOf(ctx, rows)))
            && (NoDup(ApiNames(s.api)) <==> CousinsShareNone(rows, WrappersOf(ctx, rows)))
  {
    hide *;
    EmptySound();
    GenerateSound(ctx, rows, EMPTY);
    GenerateNames(ctx, rows, EMPTY);
    var names, wrappers := NamesOf(ctx, rows), WrappersOf(ctx, rows);
    assert [] + Flat(names) == Flat(names) && [] + Flat(wrappers) == Flat(wrappers);
    ListsGiven(ctx, rows);
    UniqueLists(rows, names);
    UniqueLists(rows, wrappers);
  }

  lemma {:induction false} EmptySound()
    ensures Sound(EMPTY) && EMPTY.reexport == [] && ApiNames(EMPTY.api) == []
  {
  }

  lemma {:induction false} ListsGiven(ctx: Ctx, rows: seq<Row>)
    ensures forall i | 0 <= i < |rows| ::
              NoDup(NamesOf(ctx, rows)[i]) && OfKey(rows[i].spec.key, NamesOf(ctx, rows)[i])
    ensures forall i | 0 <= i < |rows| ::
              NoDup(WrappersOf(ctx, rows)[i]) && OfKey(rows[i].spec.key, WrappersOf(ctx, rows)[i])
  {
    hide ClassNames, ClassWrappers, NoDup, OfKey;
    forall i | 0 <= i < |rows|
      ensures NoDup(ClassNames(ctx, rows[i])) && OfKey(rows[i].spec.key, ClassNames(ctx, rows[i]))
      ensures NoDup(ClassWrappers(ctx, rows[i])) && OfKey(rows[i].spec.key, ClassWrappers(ctx, rows[i]))
    {
      ClassGiven(ctx, rows[i]);
    }
  }

  // ---- headers that keep the cousins apart -------------------------------------------------

  /** No method offered for the class translates to the word, or to the word, an underscore and more. */
  predicate StaysClear(ops: seq<Op>, word: string) {
    forall op | op in ops :: Snake(op.m.name) != word && !StartsWith(Snake(op.m.name), word + "_")
  }

  /** The word that a field of the shorter key would have to begin with. */
  function CousinWord(key: string): string {
    if key == "marker" then "cat" else "params"
  }

  lemma {:induction false} ClashWord(a: string, b: string)
    requires Cousins(a, b)
    ensures Clash(a, b) == CousinWord(a) + "_" && '_' !in CousinWord(a)
  {
  }

  lemma {:induction false} FieldReaches(name: string, word: string, rest: string)
    requires '_' !in word && FieldOf(name, word + "_" + rest)
    ensures Snake(name) == word || StartsWith(Snake(name), word + "_")
  {
    var s, f := Snake(name), word + "_" + rest;
    hide Snake;
    assert f[..|word|] == word && f[|word|] == '_' && f[..|word| + 1] == word + "_";
    assert forall i | 0 <= i < |word| :: f[i] == word[i];
    if s != f {
      var suffix :| f == s + "_" + suffix;
      assert f[..|s|] == s && f[|s|] == '_';
      if |s| > |word| {
        assert s[..|word| + 1] == f[..|word| + 1];
      }
    }
  }

  lemma {:induction false} ClearSharesNone(ctx: Ctx, key: string, ops: seq<Op>, xs: seq<string>, b: string,
                                           ys: seq<string>)
    requires KeyOk(key) && Cousins(key, b) && RunNames(ctx, key, ops, {}, xs) && StaysClear(ops, CousinWord(key))
    ensures !Shared(key, xs, b, ys)
  {
    ClashWord(key, b);
    hide KeyOk, Cousins, Clash, CousinWord, NameOf, FieldOf, Snake, StartsWith, NoDup;
    forall form, field | NameOf(form, key, Clash(key, b) + field) in xs ensures false {
      var n := NameOf(form, key, Clash(key, b) + field);
      assert Given(ctx, key, ops, n);
      var op :| op in ops && Proper(ctx, key, op.m.name, n);
      var p, f :| n == NameOf(p, key, f) && FieldOf(op.m.name, f);
      OneReading(key, p, f, form, Clash(key, b) + field);
      FieldReaches(op.m.name, CousinWord(key), field);
    }
  }

  lemma {:induction false} OneReading(key: string, p: Form, f: string, q: Form, g: string)
    requires KeyOk(key) && NameOf(p, key, f) == NameOf(q, key, g)
    ensures p == q && f == g
  {
    SameForm(p, key, f, q, key, g);
    var n, k := NameOf(p, key, f), |Prefix(p)| + |key| + 1;
    hide KeyOk, Prefix;
    assert n[k..] == f && NameOf(q, key, g)[k..] == g;
  }

  /** What the headers can see to: if no method of the marker class translates to `cat` or to `cat_` and
      more, and none of the via class to `params` or to `params_` and more, then no function and no
      wrapper of the whole run is emitted twice. */
  lemma {:induction false} ClearHeadersUnique(ctx: Ctx, rows: seq<Row>)
    requires DistinctKeys(rows)
    requires forall i | 0 <= i < |rows| && rows[i].spec.key in {"marker", "via"} ::
               StaysClear(rows[i].ops, CousinWord(rows[i].spec.key))
    ensures var s := Generate(ctx, rows, EMPTY); NoDup(s.reexport) && NoDup(ApiNames(s.api))
  {
    hide *;
    GeneratedSurface(ctx, rows);
    ClearLists(ctx, rows);
  }

  lemma {:induction false} ClearLists(ctx: Ctx, rows: seq<Row>)
    requires DistinctKeys(rows)
    requires forall i | 0 <= i < |rows| && rows[i].spec.key in {"marker", "via"} ::
               StaysClear(rows[i].ops, CousinWord(rows[i].spec.key))
    ensures CousinsShareNone(rows, NamesOf(ctx, rows)) && CousinsShareNone(rows, WrappersOf(ctx, rows))
  {
    var names, wrappers := NamesOf(ctx, rows), WrappersOf(ctx, rows);
    hide NoDup, ClassNames, ClassWrappers, Shared, StaysClear, CousinWord, KeyOk, RunNames, OfKey;
    forall i, j | 0 <= i < |rows| && 0 <= j < |rows| && Cousins(rows[i].spec.key, rows[j].spec.key)
      ensures !Shared(rows[i].spec.key, names[i], rows[j].spec.key, names[j])
      ensures !Shared(rows[i].spec.key, wrappers[i], rows[j].spec.key, wrappers[j])
    {
      assert rows[i].spec.key in {"marker", "via"};
      ClassGiven(ctx, rows[i]);
      ClearSharesNone(ctx, rows[i].spec.key, rows[i].ops, names[i], rows[j].spec.key, names[j]);
      ClearSharesNone(ctx, rows[i].spec.key, rows[i].ops, wrappers[i], rows[j].spec.key, wrappers[j]);
    }
  }
}
