/** The registry of fields that a run enters its readers in, and the list of what it does not have. */
module Registry {
  import opened Options
  import opened Text
  import opened Names
  import opened Targets
  import opened Bindings
  import opened EmitLaws
  import opened EmitRuns

  // ---- what is implemented -----------------------------------------------------------------

  /** A class and a field: what a registry entry is dispatched on. */
  type Field = (string, string)

  function Fields(regs: seq<RegEntry>): (r: seq<Field>)
    ensures |r| == |regs| && forall i | 0 <= i < |regs| :: r[i] == (regs[i].cls, regs[i].field)
  {
    seq(|regs|, i requires 0 <= i < |regs| => (regs[i].cls, regs[i].field))
  }

  /** The field is the method's snake name or extends it by an underscore and more. */
  predicate Covers(f: Field, cls: string, name: string) {
    f.0 == cls && (f.1 == Snake(name) || StartsWith(f.1, Snake(name) + "_"))
  }

  /** `is_impl`, over the fields of both registries. */
  predicate Implemented(fields: seq<Field>, cls: string, name: string) {
    exists i | 0 <= i < |fields| :: Covers(fields[i], cls, name)
  }

  /** The (class, field) pairs listed as unimplemented. */
  function Unimplemented(fields: seq<Field>, cls: string, methods: seq<Method>): seq<Field> {
    if methods == [] then []
    else (if Implemented(fields, cls, methods[0].name) then [] else [(cls, Snake(methods[0].name))])
         + Unimplemented(fields, cls, methods[1..])
  }

  lemma {:induction false} CoversIs(f: Field, cls: string, name: string)
    ensures Covers(f, cls, name)
       <==> f == (cls, Snake(name)) || exists more :: f == (cls, Snake(name) + "_" + more)
  {
    hide Snake;
    var b := Snake(name) + "_";
    if StartsWith(f.1, b) {
      assert f.1 == b + f.1[|b|..];
    }
    forall more | f.1 == b + more ensures StartsWith(f.1, b) {
      assert f.1[..|b|] == b;
    }
  }

  /** A method is not implemented if and only if no entry of its class has its name for a field, nor its
      name, an underscore, and more. */
  lemma {:induction false} NotImplementedExactly(fields: seq<Field>, cls: string, name: string)
    ensures !Implemented(fields, cls, name)
       <==> (cls, Snake(name)) !in fields && forall more :: (cls, Snake(name) + "_" + more) !in fields
  {
    hide Snake, Covers;
    if i :| 0 <= i < |fields| && Covers(fields[i], cls, name) {
      CoversIs(fields[i], cls, name);
    } else {
      forall i | 0 <= i < |fields|
        ensures fields[i] != (cls, Snake(name)) && forall more :: fields[i] != (cls, Snake(name) + "_" + more)
      {
        CoversIs(fields[i], cls, name);
      }
    }
  }

  lemma {:induction false} ImplementedAmong(a: seq<Field>, b: seq<Field>, c: seq<Field>, cls: string, name: string)
    requires Implemented(b, cls, name)
    ensures Implemented(a + b + c, cls, name)
  {
    hide Covers;
    var i :| 0 <= i < |b| && Covers(b[i], cls, name);
    assert (a + b + c)[|a| + i] == b[i];
  }

  lemma {:induction false} RegsOfBound(ctx: Ctx, spec: Spec, op: Op, seen: set<string>)
    requires Decide(ctx, spec, op, seen).Bound? && !op.Query?
    ensures Implemented(Fields(Decide(ctx, spec, op, seen).plan.regs), spec.cls, op.m.name)
  {
    DecideOk(ctx, spec, op, seen);
    var plan := Decide(ctx, spec, op, seen).plan;
    hide Decide, Snake;
    var r := plan.regs[0];
    assert r in plan.regs && FieldOf(op.m.name, r.field) && RegCalls(spec, r, plan.apis[0]);
    if r.field != Snake(op.m.name) {
      var suffix :| r.field == Snake(op.m.name) + "_" + suffix;
      assert StartsWith(r.field, Snake(op.m.name) + "_");
    }
    assert Covers(Fields(plan.regs)[0], spec.cls, op.m.name);
  }

  lemma {:induction false} RegsFrom(ctx: Ctx, spec: Spec, st: Emitted, op: Op, after: seq<Op>)
    returns (more: seq<RegEntry>)
    requires Decide(ctx, spec, op, st.seen).Bound?
    ensures RunOps(ctx, spec, st, [op] + after).s.reg == st.s.reg + Decide(ctx, spec, op, st.seen).plan.regs + more
  {
    var next := Do(ctx, spec, st, op);
    assert ([op] + after)[0] == op && ([op] + after)[1..] == after;
    DoAdds(ctx, spec, st, op);
    RunAdds(ctx, spec, next, after);
    more := NewRegs(ctx, spec, next.seen, after);
    PlanIs(Decide(ctx, spec, op, st.seen));
    hide Decide, Do, NewRegs, PlanOf;
  }

  /** A method that a registering emitter binds, at any point of any run, counts as implemented from
      then on, whatever the write registry holds. */
  lemma {:induction false} BoundIsImplemented(ctx: Ctx, spec: Spec, st: Emitted, op: Op, after: seq<Op>,
                                              written: seq<Field>)
    requires !op.Query?
    requires Decide(ctx, spec, op, st.seen).Bound?
    ensures Implemented(Fields(RunOps(ctx, spec, st, [op] + after).s.reg) + written, spec.cls, op.m.name)
  {
    hide *;
    var more := RegsFrom(ctx, spec, st, op, after);
    RegsOfBound(ctx, spec, op, st.seen);
    var regs := Decide(ctx, spec, op, st.seen).plan.regs;
    FieldsAppend(st.s.reg, regs);
    FieldsAppend(st.s.reg + regs, more);
    ImplementedAmong(Fields(st.s.reg), Fields(regs), Fields(more) + written, spec.cls, op.m.name);
    assert Fields(st.s.reg) + Fields(regs) + (Fields(more) + written) == Fields(st.s.reg) + Fields(regs)
             + Fields(more) + written;
  }

  lemma {:induction false} PlanIs(o: Outcome)
    requires o.Bound?
    ensures PlanOf(o) == o.plan
  {
  }

  lemma {:induction false} FieldsAppend(a: seq<RegEntry>, b: seq<RegEntry>)
    ensures Fields(a + b) == Fields(a) + Fields(b)
  {
  }

  /** No unimplemented entry shadows a dispatched pair. */
  lemma {:induction false} UnimplementedDisjoint(fields: seq<Field>, cls: string, methods: seq<Method>)
    ensures forall i | 0 <= i < |fields| :: fields[i] !in Unimplemented(fields, cls, methods)
  {
    if methods != [] {
      UnimplementedDisjoint(fields, cls, methods[1..]);
      assert forall i | 0 <= i < |fields| && fields[i] == (cls, Snake(methods[0].name)) ::
        Covers(fields[i], cls, methods[0].name);
    }
  }

  function Apis(regs: seq<RegEntry>): (r: seq<string>)
    ensures |r| == |regs| && forall i | 0 <= i < |regs| :: r[i] == regs[i].api
  {
    seq(|regs|, i requires 0 <= i < |regs| => regs[i].api)
  }

  /** Within a class no two registry entries call the same wrapper, and each wrapper carries the name
      of the entry's field or of its counter. */
  lemma {:induction false} NewRegsFresh(ctx: Ctx, spec: Spec, seen: set<string>, ops: seq<Op>)
    ensures var regs := NewRegs(ctx, spec, seen, ops);
            && NoDup(Apis(regs))
            && forall r | r in regs :: r.api !in seen
                 && (r.api == NameOf(Single, spec.key, r.field) || r.api == NameOf(Num, spec.key, r.field))
    decreases |ops|
  {
    if ops != [] {
      var o := Decide(ctx, spec, ops[0], seen);
      var later := SeenAfter(seen, o);
      NewRegsFresh(ctx, spec, later, ops[1..]);
      var here, rest := PlanOf(o).regs, NewRegs(ctx, spec, later, ops[1..]);
      if o.Bound? {
        DecideOk(ctx, spec, ops[0], seen);
        hide Decide, NameOf, Proper;
        forall i | 0 <= i < |here| ensures RegCalls(spec, here[i], o.plan.apis[i]) && here[i].api in o.plan.names {
          assert o.plan.apis[i] in o.plan.apis;
        }
        RegNames(here, o.plan.apis);
      }
      hide *;
      RegsApart(here, rest, later, seen);
    }
  }

  lemma {:induction false} RegNames(regs: seq<RegEntry>, apis: seq<ApiFn>)
    requires NoDup(ApiNames(apis)) && (regs == [] || |regs| == |apis|)
    requires forall i | 0 <= i < |regs| :: regs[i].api == apis[i].name
    ensures NoDup(Apis(regs))
  {
    assert regs != [] ==> Apis(regs) == ApiNames(apis);
  }

  lemma {:induction false} RegsApart(here: seq<RegEntry>, rest: seq<RegEntry>, later: set<string>, seen: set<string>)
    requires NoDup(Apis(here)) && NoDup(Apis(rest)) && seen <= later
    requires forall i | 0 <= i < |here| :: here[i].api in later
    requires forall r | r in rest :: r.api !in later
    ensures NoDup(Apis(here + rest))
  {
    assert Apis(here + rest) == Apis(here) + Apis(rest);
    forall x | x in Apis(here) ensures x !in Apis(rest) {
      var i :| 0 <= i < |here| && Apis(here)[i] == x;
      forall j | 0 <= j < |rest| ensures rest[j].api != x {
        assert rest[j] in rest;
      }
    }
    NoDupAppend(Apis(here), Apis(rest));
  }

  lemma {:induction false} UnimplementedExactly(fields: seq<Field>, cls: string, methods: seq<Method>, m: Method)
    requires m in methods
    ensures (cls, Snake(m.name)) in Unimplemented(fields, cls, methods) <==> !Implemented(fields, cls, m.name)
  {
    hide Snake, Implemented;
    UnimplementedSound(fields, cls, methods, m.name);
    UnimplementedComplete(fields, cls, methods, m);
  }

  /** What is listed: the class and the snake name of each method of which no entry of the class has the
      name, nor the name, an underscore and more. */
  lemma {:induction false} ListedExactly(fields: seq<Field>, cls: string, methods: seq<Method>, f: Field)
    ensures f in Unimplemented(fields, cls, methods)
       <==> && (exists i | 0 <= i < |methods| :: f == (cls, Snake(methods[i].name)))
            && f !in fields && forall more :: (cls, f.1 + "_" + more) !in fields
  {
    hide Snake, Implemented;
    if methods != [] {
      var rest := methods[1..];
      ListedExactly(fields, cls, rest, f);
      NotImplementedExactly(fields, cls, methods[0].name);
      assert forall i | 1 <= i < |methods| :: methods[i] == rest[i - 1];
      assert forall i | 0 <= i < |rest| :: rest[i] == methods[i + 1];
    }
  }

  lemma {:induction false} UnimplementedSound(fields: seq<Field>, cls: string, methods: seq<Method>, name: string)
    ensures (cls, Snake(name)) in Unimplemented(fields, cls, methods) ==> !Implemented(fields, cls, name)
  {
    if methods != [] {
      UnimplementedSound(fields, cls, methods[1..], name);
      ImplementedSnake(fields, cls, name, methods[0].name);
    }
  }

  lemma {:induction false} ImplementedSnake(fields: seq<Field>, cls: string, a: string, b: string)
    ensures Snake(a) == Snake(b) ==> (Implemented(fields, cls, a) <==> Implemented(fields, cls, b))
  {
    hide Snake, StartsWith;
    if Snake(a) == Snake(b) {
      assert forall f: Field :: Covers(f, cls, a) <==> Covers(f, cls, b);
    }
  }

  lemma {:induction false} UnimplementedComplete(fields: seq<Field>, cls: string, methods: seq<Method>, m: Method)
    requires m in methods
    ensures !Implemented(fields, cls, m.name) ==> (cls, Snake(m.name)) in Unimplemented(fields, cls, methods)
  {
    hide Snake, Implemented;
    if m != methods[0] {
      UnimplementedComplete(fields, cls, methods[1..], m);
    }
  }

  lemma {:induction false} QueriesRegisterNothing(ctx: Ctx, spec: Spec, seen: set<string>, ops: seq<Op>)
    requires forall op | op in ops :: op.Query?
    ensures NewRegs(ctx, spec, seen, ops) == []
    decreases |ops|
  {
    if ops != [] {
      assert ops[0] in ops && forall op | op in ops[1..] :: op in ops;
      var o := Decide(ctx, spec, ops[0], seen);
      QueriesRegisterNothing(ctx, spec, SeenAfter(seen, o), ops[1..]);
      QueryRegs(ctx, spec, ops[0], seen);
      hide Decide, SeenAfter;
    }
  }

  lemma {:induction false} QueryRegs(ctx: Ctx, spec: Spec, op: Op, seen: set<string>)
    requires op.Query?
    ensures PlanOf(Decide(ctx, spec, op, seen)).regs == []
  {
  }

  /** However many parameterised reads are bound at the end of a class, the registry does not learn of
      them: such a method is listed as unimplemented if and only if a field that one of the earlier
      passes, or the write registry, has covers its name. */
  lemma {:induction false} QueryListedUnimplemented(ctx: Ctx, spec: Spec, st: Emitted, ops: seq<Op>, queries: seq<Op>,
                                                    written: seq<Field>, methods: seq<Method>, m: Method)
    requires (forall op | op in queries :: op.Query?) && m in methods
    ensures var fields := Fields(RunOps(ctx, spec, st, ops).s.reg) + written;
            && Fields(RunOps(ctx, spec, st, ops + queries).s.reg) + written == fields
            && ((spec.cls, Snake(m.name)) in Unimplemented(fields, spec.cls, methods)
                <==> !Implemented(fields, spec.cls, m.name))
  {
    hide *;
    var mid := RunOps(ctx, spec, st, ops);
    RunOpsAppend(ctx, spec, st, ops, queries);
    RunAdds(ctx, spec, mid, queries);
    QueriesRegisterNothing(ctx, spec, mid.seen, queries);
    assert mid.s.reg + [] == mid.s.reg;
    UnimplementedExactly(Fields(mid.s.reg) + written, spec.cls, methods, m);
  }

  // ---- two entries of one field ------------------------------------------------------------

  /** The call counts a set whose elements have no name of their own but are a bound class. */
  predicate IsCounted(ctx: Ctx, op: Op) {
    && op.Add? && op.m.kind == Iterator
    && IteratorElem(op.m.ret) !in ctx.nameable && FindSpec(ctx.table, IteratorElem(op.m.ret)).Some?
  }

  /** The entry is that of a counter of the method, or a reader under its own field. */
  ghost predicate EntryOf(ctx: Ctx, spec: Spec, op: Op, r: RegEntry) {
    if IsCounted(ctx, op) then r.field == Snake(op.m.name) && r.api == NameOf(Num, spec.key, r.field)
    else FieldOf(op.m.name, r.field) && r.api == NameOf(Single, spec.key, r.field)
  }

  lemma {:induction false} SubsEntries(ctx: Ctx, spec: Spec, m: Method, subs: seq<Sub>, seen: set<string>)
    ensures forall r | r in SubsPlan(ctx, spec, m, subs, seen).regs :: r.api == NameOf(Single, spec.key, r.field)
    decreases |subs|
  {
    hide NameOf, SubField;
    if subs != [] {
      var fn := NameOf(Single, spec.key, SubField(m, subs[0]));
      SubsEntries(ctx, spec, m, subs[1..], if Taken(ctx, seen, fn) then seen else seen + {fn});
    }
  }

  lemma {:induction false} ValueEntries(ctx: Ctx, spec: Spec, m: Method, seen: set<string>)
    requires ValuePlan(ctx, spec, m, seen).Bound?
    ensures forall r | r in ValuePlan(ctx, spec, m, seen).plan.regs :: r.api == NameOf(Single, spec.key, r.field)
  {
    hide NameOf, Norm, StructBase, SubsPlan, StructSubs, Snake;
    if StructBase(m.ret) in STRUCT_FIELDS {
      SubsEntries(ctx, spec, m, StructSubs(STRUCT_FIELDS[StructBase(m.ret)]), seen);
    }
  }

  lemma {:induction false} OutEntries(ctx: Ctx, spec: Spec, m: Method, seen: set<string>)
    requires OutParamPlan(ctx, spec, m, seen).Bound?
    ensures forall r | r in OutParamPlan(ctx, spec, m, seen).plan.regs :: r.api == NameOf(Single, spec.key, r.field)
  {
    hide NameOf, SubsPlan, TableSubs, OutSubs, AllScalarRefs, Snake, StartsWith;
    if |m.params| == 3 {
      SubsEntries(ctx, spec, m, TableSubs(m), seen);
    }
    if AllScalarRefs(m) {
      SubsEntries(ctx, spec, m, OutSubs(m), seen);
    }
  }

  lemma {:induction false} DecideEntries(ctx: Ctx, spec: Spec, op: Op, seen: set<string>)
    requires Decide(ctx, spec, op, seen).Bound?
    ensures forall r | r in Decide(ctx, spec, op, seen).plan.regs :: r.cls == spec.cls && EntryOf(ctx, spec, op, r)
  {
    DecideOk(ctx, spec, op, seen);
    EntryFields(spec, op.m.name, seen, Decide(ctx, spec, op, seen).plan, ctx);
    EntryApis(ctx, spec, op, seen);
  }

  lemma {:induction false} EntryFields(spec: Spec, name: string, seen: set<string>, plan: Plan, ctx: Ctx)
    requires PlanOk(ctx, spec, name, seen, plan)
    ensures forall r | r in plan.regs :: r.cls == spec.cls && FieldOf(name, r.field)
  {
    hide NamesFresh, FieldOf, NameOf;
    forall r | r in plan.regs ensures r.cls == spec.cls {
      var i :| 0 <= i < |plan.regs| && plan.regs[i] == r;
      assert RegCalls(spec, plan.regs[i], plan.apis[i]);
    }
  }

  lemma {:induction false} EntryApis(ctx: Ctx, spec: Spec, op: Op, seen: set<string>)
    requires Decide(ctx, spec, op, seen).Bound?
    ensures forall r | r in Decide(ctx, spec, op, seen).plan.regs ::
              if IsCounted(ctx, op) then r.field == Snake(op.m.name) && r.api == NameOf(Num, spec.key, r.field)
              else r.api == NameOf(Single, spec.key, r.field)
  {
    hide NameOf, ValuePlan, OutParamPlan, Snake, IteratorElem, RelationTarget;
    match op {
      case Add(m) =>
        if ValuePlan(ctx, spec, m, seen).Bound? {
          ValueEntries(ctx, spec, m, seen);
        }
      case OutParam(m) => OutEntries(ctx, spec, m, seen);
      case Query(_, _) =>
    }
  }

  /** The names seen when the run comes to its call `k`. */
  function SeenAt(ctx: Ctx, spec: Spec, seen: set<string>, ops: seq<Op>, k: nat): set<string>
    requires k <= |ops|
    decreases k
  {
    if k == 0 then seen else SeenAt(ctx, spec, SeenAfter(seen, Decide(ctx, spec, ops[0], seen)), ops[1..], k - 1)
  }

  /** What call `k` of the run enters in the registry. */
  function RegsAt(ctx: Ctx, spec: Spec, seen: set<string>, ops: seq<Op>, k: nat): seq<RegEntry>
    requires k < |ops|
  {
    PlanOf(Decide(ctx, spec, ops[k], SeenAt(ctx, spec, seen, ops, k))).regs
  }

  lemma {:induction false} EntryFrom(ctx: Ctx, spec: Spec, seen: set<string>, ops: seq<Op>, r: RegEntry)
    returns (k: nat)
    requires r in NewRegs(ctx, spec, seen, ops)
    ensures k < |ops| && r in RegsAt(ctx, spec, seen, ops, k)
    decreases |ops|
  {
    hide Decide, SeenAfter;
    var o := Decide(ctx, spec, ops[0], seen);
    if r in PlanOf(o).regs {
      k := 0;
    } else {
      k := EntryFrom(ctx, spec, SeenAfter(seen, o), ops[1..], r);
      k := k + 1;
    }
  }

  lemma {:induction false} EntryIn(ctx: Ctx, spec: Spec, seen: set<string>, ops: seq<Op>, k: nat, r: RegEntry)
    requires k < |ops| && r in RegsAt(ctx, spec, seen, ops, k)
    ensures r in NewRegs(ctx, spec, seen, ops)
    decreases k
  {
    hide Decide, SeenAfter;
    if k > 0 {
      EntryIn(ctx, spec, SeenAfter(seen, Decide(ctx, spec, ops[0], seen)), ops[1..], k - 1, r);
    }
  }

  lemma {:induction false} EntryAt(ctx: Ctx, spec: Spec, seen: set<string>, ops: seq<Op>, k: nat)
    requires k < |ops|
    ensures forall r | r in RegsAt(ctx, spec, seen, ops, k) :: r.cls == spec.cls && EntryOf(ctx, spec, ops[k], r)
  {
    var now := SeenAt(ctx, spec, seen, ops, k);
    if Decide(ctx, spec, ops[k], now).Bound? {
      DecideEntries(ctx, spec, ops[k], now);
    }
    hide Decide, EntryOf;
  }

  /** Two calls of the run enter one field: one enters a counter, the other a reader. */
  ghost predicate Doubled(ctx: Ctx, spec: Spec, seen: set<string>, ops: seq<Op>, i: nat, j: nat)
    requires i < |ops| && j < |ops|
  {
    && IsCounted(ctx, ops[i]) && RegsAt(ctx, spec, seen, ops, i) != []
    && !IsCounted(ctx, ops[j])
    && exists r | r in RegsAt(ctx, spec, seen, ops, j) :: r.field == Snake(ops[i].m.name)
  }

  lemma {:induction false} FieldsDiffer(regs: seq<RegEntry>, cls: string)
    requires forall r | r in regs :: r.cls == cls
    ensures NoDup(Fields(regs)) <==> forall i, j | 0 <= i < j < |regs| :: regs[i].field != regs[j].field
  {
    var fields := Fields(regs);
    forall i, j | 0 <= i < j < |regs| ensures fields[i] != fields[j] <==> regs[i].field != regs[j].field {
      assert regs[i] in regs && regs[j] in regs;
    }
  }

  /** Over a whole class, no two registry entries have one field, which would leave the second dispatch
      arm without effect, if and only if no counted set and no other reader that the run binds meet in
      a field. */
  lemma {:induction false} FieldsExactly(ctx: Ctx, spec: Spec, seen: set<string>, ops: seq<Op>)
    ensures NoDup(Fields(NewRegs(ctx, spec, seen, ops)))
       <==> forall i, j | 0 <= i < |ops| && 0 <= j < |ops| :: !Doubled(ctx, spec, seen, ops, i, j)
  {
    var regs := NewRegs(ctx, spec, seen, ops);
    OneClass(ctx, spec, seen, ops);
    FieldsDiffer(regs, spec.cls);
    hide NewRegs, Fields, NoDup, Doubled;
    forall a, b | 0 <= a < b < |regs| && regs[a].field == regs[b].field
      ensures exists i, j :: 0 <= i < |ops| && 0 <= j < |ops| && Doubled(ctx, spec, seen, ops, i, j)
    {
      var i, j := MeetsAt(ctx, spec, seen, ops, a, b);
    }
    forall i, j | 0 <= i < |ops| && 0 <= j < |ops| && Doubled(ctx, spec, seen, ops, i, j)
      ensures exists a, b :: 0 <= a < b < |regs| && regs[a].field == regs[b].field
    {
      var a, b := DoubleAt(ctx, spec, seen, ops, i, j);
    }
  }

  lemma {:induction false} OneClass(ctx: Ctx, spec: Spec, seen: set<string>, ops: seq<Op>)
    ensures forall r | r in NewRegs(ctx, spec, seen, ops) :: r.cls == spec.cls
  {
    hide NewRegs, RegsAt, EntryOf;
    forall r | r in NewRegs(ctx, spec, seen, ops) ensures r.cls == spec.cls {
      var k := EntryFrom(ctx, spec, seen, ops, r);
      EntryAt(ctx, spec, seen, ops, k);
    }
  }

  lemma {:induction false} MeetsAt(ctx: Ctx, spec: Spec, seen: set<string>, ops: seq<Op>, a: nat, b: nat)
    returns (i: nat, j: nat)
    requires var regs := NewRegs(ctx, spec, seen, ops); a < b < |regs| && regs[a].field == regs[b].field
    ensures i < |ops| && j < |ops| && Doubled(ctx, spec, seen, ops, i, j)
  {
    var regs := NewRegs(ctx, spec, seen, ops);
    NewRegsFresh(ctx, spec, seen, ops);
    hide *;
    ApisDiffer(regs, a, b);
    assert regs[a] in regs && regs[b] in regs;
    i, j := MeetsIn(ctx, spec, seen, ops, regs[a], regs[b]);
  }

  lemma {:induction false} DoubleAt(ctx: Ctx, spec: Spec, seen: set<string>, ops: seq<Op>, i: nat, j: nat)
    returns (a: nat, b: nat)
    requires i < |ops| && j < |ops| && Doubled(ctx, spec, seen, ops, i, j)
    ensures var regs := NewRegs(ctx, spec, seen, ops); a < b < |regs| && regs[a].field == regs[b].field
  {
    hide *;
    var regs := NewRegs(ctx, spec, seen, ops);
    var r, s := DoubleEntries(ctx, spec, seen, ops, i, j);
    var k: nat :| k < |regs| && regs[k] == r;
    var l: nat :| l < |regs| && regs[l] == s;
    a, b := if k < l then k else l, if k < l then l else k;
  }

  lemma {:induction false} ApisDiffer(regs: seq<RegEntry>, a: nat, b: nat)
    requires NoDup(Apis(regs)) && a < b < |regs|
    ensures regs[a].api != regs[b].api
  {
    assert Apis(regs)[a] == regs[a].api && Apis(regs)[b] == regs[b].api;
  }

  /** Two entries of one field are a counter and a reader, from two calls. */
  lemma {:induction false} MeetsIn(ctx: Ctx, spec: Spec, seen: set<string>, ops: seq<Op>, r: RegEntry, s: RegEntry)
    returns (i: nat, j: nat)
    requires r in NewRegs(ctx, spec, seen, ops) && s in NewRegs(ctx, spec, seen, ops)
    requires r.field == s.field && r.api != s.api
    ensures i < |ops| && j < |ops| && Doubled(ctx, spec, seen, ops, i, j)
  {
    var k := EntryFrom(ctx, spec, seen, ops, r);
    var l := EntryFrom(ctx, spec, seen, ops, s);
    EntryAt(ctx, spec, seen, ops, k);
    EntryAt(ctx, spec, seen, ops, l);
    hide NewRegs, RegsAt, IsCounted, NameOf, Snake, FieldOf;
    assert EntryOf(ctx, spec, ops[k], r) && EntryOf(ctx, spec, ops[l], s);
    i, j := if IsCounted(ctx, ops[k]) then k else l, if IsCounted(ctx, ops[k]) then l else k;
  }

  lemma {:induction false} DoubleEntries(ctx: Ctx, spec: Spec, seen: set<string>, ops: seq<Op>, i: nat, j: nat)
    returns (r: RegEntry, s: RegEntry)
    requires i < |ops| && j < |ops| && Doubled(ctx, spec, seen, ops, i, j)
    ensures r in NewRegs(ctx, spec, seen, ops) && s in NewRegs(ctx, spec, seen, ops)
    ensures r.field == s.field && r != s
  {
    EntryAt(ctx, spec, seen, ops, i);
    EntryAt(ctx, spec, seen, ops, j);
    hide RegsAt, IsCounted, NewRegs, Snake;
    r := RegsAt(ctx, spec, seen, ops, i)[0];
    s :| s in RegsAt(ctx, spec, seen, ops, j) && s.field == Snake(ops[i].m.name);
    assert EntryOf(ctx, spec, ops[i], r) && EntryOf(ctx, spec, ops[j], s);
    FormsDiffer(spec.key, r.field);
    hide NameOf;
    EntryIn(ctx, spec, seen, ops, i, r);
    EntryIn(ctx, spec, seen, ops, j, s);
  }

  /** What a header can see to: if no method of which a set is counted translates to a field of another
      method that is offered, then no two entries of the class have one field. */
  lemma {:induction false} FieldsDistinct(ctx: Ctx, spec: Spec, ops: seq<Op>)
    requires forall i, j | 0 <= i < |ops| && 0 <= j < |ops| && IsCounted(ctx, ops[i]) && !IsCounted(ctx, ops[j]) ::
               !FieldOf(ops[j].m.name, Snake(ops[i].m.name))
    ensures NoDup(Fields(NewRegs(ctx, spec, {}, ops)))
  {
    FieldsExactly(ctx, spec, {}, ops);
    hide NoDup, NewRegs, Fields, IsCounted, FieldOf, Snake, NameOf;
    forall i, j | 0 <= i < |ops| && 0 <= j < |ops| ensures !Doubled(ctx, spec, {}, ops, i, j) {
      EntryAt(ctx, spec, {}, ops, j);
      assert IsCounted(ctx, ops[i]) && !IsCounted(ctx, ops[j]) ==> !FieldOf(ops[j].m.name, Snake(ops[i].m.name));
    }
  }

  // ---- headers in which they meet ----------------------------------------------------------

  /** A counted set, and a call that is bound after it and enters the set's field. */
  lemma {:induction false} MeetsAfter(ctx: Ctx, spec: Spec, m: Method, op: Op)
    requires IsCounted(ctx, Op.Add(m)) && !Taken(ctx, {}, FnName(spec, m)) && !IsCounted(ctx, op)
    requires exists r | r in PlanOf(Decide(ctx, spec, op, {ListName(Num, spec, m)})).regs :: r.field == Snake(m.name)
    ensures !NoDup(Fields(NewRegs(ctx, spec, {}, [Add(m), op])))
  {
    var ops := [Op.Add(m), op];
    FieldsExactly(ctx, spec, {}, ops);
    assert Decide(ctx, spec, ops[0], {}) == CountPlan(spec, m, {});
    assert SeenAfter({}, CountPlan(spec, m, {})) == {ListName(Num, spec, m)};
    hide Decide, NoDup, Fields, NewRegs, IsCounted, Snake, FnName, ListName;
    assert SeenAt(ctx, spec, {}, ops, 1) == {ListName(Num, spec, m)} by {
      assert SeenAt(ctx, spec, {ListName(Num, spec, m)}, ops[1..], 0) == {ListName(Num, spec, m)};
    }
    assert RegsAt(ctx, spec, {}, ops, 0) == CountPlan(spec, m, {}).plan.regs != [];
    assert Doubled(ctx, spec, {}, ops, 0, 1);
  }

  lemma {:induction false} NotSeen(spec: Spec, m: Method)
    ensures FnName(spec, m) !in {ListName(Num, spec, m)}
  {
    FormsDiffer(spec.key, Snake(m.name));
  }

  /** It happens with a plain reader of the same name, here a relation. */
  lemma {:induction false} DoubledByName(ctx: Ctx, spec: Spec, m: Method, n: Method)
    requires IsCounted(ctx, Op.Add(m)) && !Taken(ctx, {}, FnName(spec, m))
    requires n.name == m.name && n.kind == Relation && RelationTarget(n.ret) in ctx.nameable
    ensures !NoDup(Fields(NewRegs(ctx, spec, {}, [Add(m), Add(n)])))
  {
    NotSeen(spec, m);
    var later := {ListName(Num, spec, m)};
    var one := OnePlan(spec, n, CString, RString, TargetName, "string");
    hide Snake, NameOf, ListName, RelationTarget, IteratorElem;
    assert FnName(spec, n) == FnName(spec, m);
    assert Decide(ctx, spec, Add(n), later) == one;
    assert one.plan.regs[0] in PlanOf(one).regs;
    MeetsAfter(ctx, spec, m, Add(n));
  }

  /** It happens with a component of another reader: a set whose field is that of the point's `x`. */
  lemma {:induction false} DoubledByComponent(ctx: Ctx, spec: Spec, m: Method, n: Method)
    requires IsCounted(ctx, Op.Add(m)) && !Taken(ctx, {}, FnName(spec, m))
    requires n.kind == Getter && n.vecElem.None? && n.ret == "Point" && Snake(m.name) == Snake(n.name) + "_x"
    requires !Taken(ctx, {ListName(Num, spec, m)}, FnName(spec, n))
    ensures !NoDup(Fields(NewRegs(ctx, spec, {}, [Add(m), Add(n)])))
  {
    NotSeen(spec, m);
    var later := {ListName(Num, spec, m)};
    var subs := StructSubs([("x", "getX"), ("y", "getY")]);
    PointPlan(ctx, spec, n, later);
    assert subs[0].suffix == "x" && FnName(spec, m) == NameOf(Single, spec.key, SubField(n, subs[0]));
    hide Snake, NameOf, ListName, FnName, IteratorElem, ValuePlan, StructSubs;
    var plan := SubsPlan(ctx, spec, n, subs, later);
    FirstRegs(ctx, spec, n, subs, later);
    assert Decide(ctx, spec, Add(n), later) == Bound(plan);
    assert plan.regs[0] in PlanOf(Bound(plan)).regs;
    MeetsAfter(ctx, spec, m, Add(n));
  }

  lemma {:induction false} FirstRegs(ctx: Ctx, spec: Spec, m: Method, subs: seq<Sub>, seen: set<string>)
    requires subs != [] && !Taken(ctx, seen, NameOf(Single, spec.key, SubField(m, subs[0])))
    ensures var plan := SubsPlan(ctx, spec, m, subs, seen);
            plan.units != [] && plan.regs != [] && plan.regs[0].field == SubField(m, subs[0])
  {
  }

  lemma {:induction false} PointPlan(ctx: Ctx, spec: Spec, n: Method, seen: set<string>)
    requires n.ret == "Point"
    ensures var plan := SubsPlan(ctx, spec, n, StructSubs([("x", "getX"), ("y", "getY")]), seen);
            ValuePlan(ctx, spec, n, seen) == if plan.units == [] then Skipped else Bound(plan)
  {
    PointBase();
    PointOnly(spec.cls);
    hide SubsPlan, StructSubs, Norm, StructBase, Scalar;
    assert STRUCT_FIELDS["Point"] == [("x", "getX"), ("y", "getY")];
  }

  lemma {:induction false} PlainText(s: string)
    requires ' ' !in s && ':' !in s && Trimmed(s)
    ensures Norm(s) == s && StructBase(s) == s
  {
    ReplaceAbsent(s, " ", "", ' ');
    assert "odb::"[4] == ':';
    ReplaceAbsent(s, "odb::", "", ':');
    StripTrimmed(s);
    hide Replace, Strip;
  }

  lemma {:induction false} PointBase()
    ensures Norm("Point") == "Point" && StructBase("Point") == "Point" && PlainType("Point")
  {
    hide Norm, StructBase;
    PlainText("Point");
  }

  lemma {:induction false} PointOnly(cls: string)
    ensures Scalar("Point").None? && "Point" !in ENUMS && (cls, "Point") !in ENUM_MAPPED
    ensures "Point" !in {"std::string", "conststd::string&", "std::string&"} && "Point" !in {"constchar*", "char*"}
  {
    ShortText("Point");
    CapitalP(cls, "Point");
  }

  lemma {:induction false} ShortText(s: string)
    requires |s| == 5 && s[0] == 'P'
    ensures Scalar(s).None? && s !in ENUMS
    ensures s !in {"std::string", "conststd::string&", "std::string&"} && s !in {"constchar*", "char*"}
  {
    assert forall e | e in ENUMS :: |e| > 5;
  }

  lemma {:induction false} CapitalP(cls: string, s: string)
    requires |s| == 5 && s[0] == 'P'
    ensures (cls, s) !in ENUM_MAPPED
  {
    assert forall k | k in ENUM_MAPPED :: |k.1| == 4 || |k.1| > 5;
  }

  lemma {:induction false} OneOut(n: Method)
    requires |n.params| == 1 && n.params[0].shape == ScalarRef("int") && Norm(n.ret) != "bool"
    ensures AllScalarRefs(n) && OutSubs(n) == [OutSub(n, 0)] && OutSub(n, 0).suffix == OutName(n.params[0], 0)
  {
    hide OutName, Norm;
  }

  /** It happens with an out-parameter reader: a set `getFoo` beside `void get(int& foo)`. */
  lemma {:induction false} DoubledByOutParam(ctx: Ctx, spec: Spec, m: Method, n: Method)
    requires IsCounted(ctx, Op.Add(m)) && !Taken(ctx, {}, FnName(spec, m))
    requires StartsWith(n.name, "get") && |n.params| == 1 && n.params[0].shape == ScalarRef("int")
    requires Norm(n.ret) != "bool" && Snake(m.name) == Snake(n.name) + "_" + OutName(n.params[0], 0)
    ensures !NoDup(Fields(NewRegs(ctx, spec, {}, [Add(m), OutParam(n)])))
  {
    NotSeen(spec, m);
    var later := {ListName(Num, spec, m)};
    OneOut(n);
    var subs := OutSubs(n);
    assert FnName(spec, m) == NameOf(Single, spec.key, SubField(n, subs[0]));
    hide AllScalarRefs, SubField, Snake, NameOf, ListName, FnName, IteratorElem, OutSubs, OutSub, Norm, OutName,
           StartsWith;
    var plan := SubsPlan(ctx, spec, n, subs, later);
    FirstRegs(ctx, spec, n, subs, later);
    assert Decide(ctx, spec, OutParam(n), later) == Bound(plan);
    assert plan.regs[0] in PlanOf(Bound(plan)).regs;
    MeetsAfter(ctx, spec, m, OutParam(n));
  }
}
