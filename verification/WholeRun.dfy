/** What a whole run of the generator over the table of bound classes comes to. */
module WholeRun {
  import opened Options
  import opened Text
  import opened Names
  import opened Targets
  import opened TargetKeys
  import opened Bindings
  import opened EmitLaws
  import opened EmitRuns
  import opened Registry
  import opened Setters
  import opened SetterLaws
  import opened Emitter
  import opened Coverage

  // ---- every method is offered to its emitter ------------------------------------------------

  lemma {:induction false} OfferedAmong(methods: seq<Method>, all: seq<Method>, m: Method)
    ensures Op.Add(m) in PlainReaders(methods)
       <==> m in methods && m.kind in {Getter, Predicate, Relation, Iterator} && m.params == []
    ensures Query(m, NameCount(all, m.name) > 1) in Queries(methods, all)
       <==> m in methods && m.kind != Setter && m.params != []
    ensures m in SetterMethods(methods) <==> m in methods && m.kind == Setter
  {
    if methods != [] {
      OfferedAmong(methods[1..], all, m);
      assert methods == [methods[0]] + methods[1..];
    }
  }

  lemma {:induction false} OtherForms(methods: seq<Method>, all: seq<Method>)
    ensures forall op | op in PlainReaders(methods) :: op.Add?
    ensures forall op | op in OutReaders(methods) :: op.OutParam?
    ensures forall op | op in Queries(methods, all) :: op.Query?
  {
    if methods != [] {
      OtherForms(methods[1..], all);
    }
  }

  /** No method that `classify` has labelled falls between the passes of the driving loop: each is
      offered as a plain reader, as a parameterised read, or as a setter, and as one of these only; the
      setters of a read-only class, and no other methods, are offered as none. */
  lemma {:induction false} EveryMethodOffered(spec: Spec, methods: seq<Method>, m: Method)
    requires m in methods && m.kind == Classify(m.name, m.ret, |m.params|)
    ensures var plain := Op.Add(m) in ClassOps(methods);
            var query := Query(m, NameCount(methods, m.name) > 1) in ClassOps(methods);
            var setter := m in OfferedSetters(spec, methods);
            && (plain <==> m.kind != Setter && m.params == [])
            && (query <==> m.kind != Setter && m.params != [])
            && (setter <==> m.kind == Setter && !spec.readOnly)
  {
    KindsReach(m.name, m.ret, |m.params|);
    OfferedAmong(methods, methods, m);
    OtherForms(methods, methods);
    hide Classify, PlainReaders, OutReaders, Queries, SetterMethods, NameCount;
  }

  // ---- the read surface of the real table ----------------------------------------------------

  lemma {:induction false} RowsAre(table: seq<Spec>, headers: seq<seq<Method>>)
    requires |table| == |headers|
    ensures |Rows(table, headers)| == |table| == |SetterRows(table, headers)|
    ensures forall i | 0 <= i < |table| :: Rows(table, headers)[i] == Row(table[i], ClassOps(headers[i]))
    ensures forall i | 0 <= i < |table| :: SetterRows(table, headers)[i].spec == table[i]
    decreases |table|
  {
    hide ClassOps, SetterMethods;
    if table != [] {
      RowsAre(table[1..], headers[1..]);
    }
  }

  lemma {:induction false} TargetsDistinct(headers: seq<seq<Method>>)
    requires |headers| == |TARGETS|
    ensures DistinctKeys(Rows(TARGETS, headers))
  {
    hide ClassOps, KeyOk;
    RowsAre(TARGETS, headers);
    KeysOk();
    KeysDistinct();
    hide TARGETS;
  }

  /** Whatever the headers declare: over the shipped table of classes the read buffers are in step and
      linked, and no function and no wrapper is emitted twice unless the marker classes or the via
      classes share one. */
  lemma {:induction false} TargetsSurface(ctx: Ctx, headers: seq<seq<Method>>)
    requires ctx.table == TARGETS && |headers| == |TARGETS|
    ensures var rows := Rows(TARGETS, headers); var s := Generate(ctx, rows, EMPTY);
            && Sound(s)
            && (NoDup(s.reexport) <==> CousinsShareNone(rows, NamesOf(ctx, rows)))
            && (NoDup(ApiNames(s.api)) <==> CousinsShareNone(rows, WrappersOf(ctx, rows)))
  {
    TargetsDistinct(headers);
    hide *;
    GeneratedSurface(ctx, Rows(TARGETS, headers));
  }

  lemma {:induction false} OpsOf(methods: seq<Method>, all: seq<Method>)
    ensures forall op | op in PlainReaders(methods) :: op.m in methods
    ensures forall op | op in OutReaders(methods) :: op.m in methods
    ensures forall op | op in Queries(methods, all) :: op.m in methods
  {
    if methods != [] {
      OpsOf(methods[1..], all);
      assert forall m | m in methods[1..] :: m in methods;
    }
  }

  /** No method of the header translates to the word, or to the word, an underscore and more. */
  predicate HeaderClear(methods: seq<Method>, word: string) {
    forall m | m in methods :: Snake(m.name) != word && !StartsWith(Snake(m.name), word + "_")
  }

  lemma {:induction false} ClearOps(methods: seq<Method>, word: string)
    requires HeaderClear(methods, word)
    ensures StaysClear(ClassOps(methods), word)
  {
    OpsOf(methods, methods);
    hide PlainReaders, OutReaders, Queries, Snake, StartsWith;
  }

  /** Whatever the headers declare, if no method of dbMarker translates to `cat` or to `cat_` and more, and
      none of dbVia to `params` or to `params_` and more, then over the shipped table every function and
      every wrapper is emitted once. */
  lemma {:induction false} TargetsUnique(ctx: Ctx, headers: seq<seq<Method>>)
    requires ctx.table == TARGETS && |headers| == |TARGETS|
    requires forall i | 0 <= i < |TARGETS| && TARGETS[i].key in {"marker", "via"} ::
               HeaderClear(headers[i], CousinWord(TARGETS[i].key))
    ensures var s := Generate(ctx, Rows(TARGETS, headers), EMPTY); NoDup(s.reexport) && NoDup(ApiNames(s.api))
  {
    TargetsDistinct(headers);
    var rows := Rows(TARGETS, headers);
    RowsAre(TARGETS, headers);
    hide *;
    forall i | 0 <= i < |rows| && rows[i].spec.key in {"marker", "via"}
      ensures StaysClear(rows[i].ops, CousinWord(rows[i].spec.key))
    {
      ClearOps(headers[i], CousinWord(TARGETS[i].key));
    }
    ClearHeadersUnique(ctx, rows);
  }

  // ---- headers that do make a name twice -----------------------------------------------------

  function IntGetter(name: string): Method {
    Method(name, "int", Getter, [], None)
  }

  lemma {:induction false} IntPlan(ctx: Ctx, spec: Spec, name: string)
    requires ctx.reservedFn == {} && ctx.reservedDb == {}
    ensures ClassOps([IntGetter(name)]) == [Op.Add(IntGetter(name))]
    ensures ClassNames(ctx, Row(spec, ClassOps([IntGetter(name)]))) == [NameOf(Single, spec.key, Snake(name))]
  {
    var m := IntGetter(name);
    assert [m][1..] == [];
    OneOp(m);
    NormInt();
    hide Snake, NameOf, SeenAfter;
    assert ValuePlan(ctx, spec, m, {}) == OnePlan(spec, m, CInt32, RI32, Value, RName(RI32));
    OneNamed(ctx, spec, m);
  }

  lemma {:induction false} OneOp(m: Method)
    requires m.kind == Getter && m.params == []
    ensures ClassOps([m]) == [Op.Add(m)]
  {
    assert [m][1..] == [];
    assert PlainReaders([m]) == [Op.Add(m)] && OutReaders([m]) == [] && Queries([m], [m]) == [];
  }

  lemma {:induction false} OneNamed(ctx: Ctx, spec: Spec, m: Method)
    requires Decide(ctx, spec, Op.Add(m), {}).Bound?
    requires UnitNames(Decide(ctx, spec, Op.Add(m), {}).plan.units) == [FnName(spec, m)]
    ensures ClassNames(ctx, Row(spec, [Op.Add(m)])) == [FnName(spec, m)]
  {
    hide Decide, SeenAfter;
    var ops := [Op.Add(m)];
    var o := Decide(ctx, spec, ops[0], {});
    assert ops[1..] == [];
    assert NewNames(ctx, spec, SeenAfter({}, o), []) == [];
    assert UnitNames(PlanOf(o).units) + [] == [FnName(spec, m)];
  }

  /** A marker getter `catId` beside a category getter `id`: over any table with those two classes, the
      one name `marker_cat_id` is emitted for both. */
  lemma {:induction false} CousinsMeet(ctx: Ctx, headers: seq<seq<Method>>, i: nat, j: nat)
    requires ctx.reservedFn == {} && ctx.reservedDb == {} && ctx.table == TARGETS && |headers| == |TARGETS|
    requires i < |TARGETS| && TARGETS[i].key == "marker" && headers[i] == [IntGetter("catId")]
    requires j < |TARGETS| && TARGETS[j].key == "marker_cat" && headers[j] == [IntGetter("id")]
    ensures !NoDup(Generate(ctx, Rows(TARGETS, headers), EMPTY).reexport)
  {
    var rows := Rows(TARGETS, headers);
    TargetsSurface(ctx, headers);
    RowsAre(TARGETS, headers);
    IntPlan(ctx, TARGETS[i], "catId");
    IntPlan(ctx, TARGETS[j], "id");
    CatId();
    assert Cousins("marker", "marker_cat") && Clash("marker", "marker_cat") == "cat_";
    hide *;
    var names := NamesOf(ctx, rows);
    assert names[i] == [NameOf(Single, "marker", Clash("marker", "marker_cat") + "id")];
    assert names[j] == [NameOf(Single, "marker_cat", "id")];
    NotNone(rows, names, i, j, "id");
  }

  lemma {:induction false} NotNone(rows: seq<Row>, names: seq<seq<string>>, i: nat, j: nat, field: string)
    requires |rows| == |names| && i < |rows| && j < |rows| && Cousins(rows[i].spec.key, rows[j].spec.key)
    requires NameOf(Single, rows[i].spec.key, Clash(rows[i].spec.key, rows[j].spec.key) + field) in names[i]
    requires NameOf(Single, rows[j].spec.key, field) in names[j]
    ensures !CousinsShareNone(rows, names)
  {
    hide NameOf, Clash, Cousins;
    assert Shared(rows[i].spec.key, names[i], rows[j].spec.key, names[j]);
  }

  lemma {:induction false} CatId()
    ensures Snake("catId") == "cat_" + "id" && Snake("id") == "id"
  {
    assert "id"[1..] == "d" && "d"[1..] == "";
    assert SnakeTail("d") == "d";
    assert "catId"[1..] == "atId" && "atId"[1..] == "tId" && "tId"[1..] == "Id" && "Id"[1..] == "d";
    assert SnakeTail("Id") == "_id" && SnakeTail("tId") == "t_id" && SnakeTail("atId") == "at_id";
  }

  /** It happens over the shipped table. */
  lemma {:induction false} TargetsShareName(ctx: Ctx) returns (headers: seq<seq<Method>>)
    requires ctx.reservedFn == {} && ctx.reservedDb == {} && ctx.table == TARGETS
    ensures |headers| == |TARGETS| && !NoDup(Generate(ctx, Rows(TARGETS, headers), EMPTY).reexport)
  {
    var i, j := MarkerRows();
    hide *;
    headers := seq(|TARGETS|, k => if k == i then [IntGetter("catId")] else if k == j then [IntGetter("id")] else []);
    CousinsMeet(ctx, headers, i, j);
  }

  lemma {:induction false} MarkerRows() returns (i: nat, j: nat)
    ensures i < |TARGETS| && TARGETS[i].key == "marker"
    ensures j < |TARGETS| && TARGETS[j].key == "marker_cat" && i != j
  {
    var before := NETLIST + LAYERS_AND_VIAS + INDEXED;
    j, i := |before| + 5, |before| + 6;
    HierarchyRows();
    assert TARGETS[i] == HIERARCHY[6] && TARGETS[j] == HIERARCHY[5];
  }

  lemma {:induction false} HierarchyRows()
    ensures |HIERARCHY| == 7 && HIERARCHY[5].key == "marker_cat" && HIERARCHY[6].key == "marker"
  {
  }

  // ---- the write surface ---------------------------------------------------------------------

  /** A setter of the class with this key: its field begins as no cousin's name can go on. */
  ghost predicate SetterOf(key: string, n: string) {
    exists f :: n == NameOf(Single, key, f) && SetterField(f)
  }

  predicate SetterField(f: string) {
    StartsWith(f, "set") || StartsWith(f, "clear")
  }

  lemma {:induction false} SnakeOfSetter(name: string)
    requires IsSetterName(name)
    ensures SetterField(Snake(name))
  {
    var w := if StartsWith(name, "set") then "set" else "clear";
    SnakePrefix(w, name[|w|..]);
    assert name == w + name[|w|..];
  }

  lemma {:induction false} SnakePrefix(w: string, rest: string)
    requires w == "set" || w == "clear"
    ensures StartsWith(Snake(w + rest), w)
  {
    TailPrefix(w[1..], rest);
    assert (w + rest)[1..] == w[1..] + rest;
    assert Snake(w + rest) == [w[0]] + (w[1..] + SnakeTail(rest));
    assert [w[0]] + (w[1..] + SnakeTail(rest)) == w + SnakeTail(rest);
    assert (w + SnakeTail(rest))[..|w|] == w;
  }

  lemma {:induction false} TailPrefix(t: string, rest: string)
    requires forall i | 0 <= i < |t| :: !IsUpper(t[i])
    ensures SnakeTail(t + rest) == t + SnakeTail(rest)
  {
    if t == "" {
      assert t + rest == rest;
    } else {
      assert (t + rest)[1..] == t[1..] + rest;
      TailPrefix(t[1..], rest);
    }
  }

  lemma {:induction false} CousinsApart(k1: string, k2: string, f1: string, f2: string)
    requires Cousins(k1, k2) && SetterField(f1)
    ensures f1 != Clash(k1, k2) + f2
  {
    assert (Clash(k1, k2) + f2)[0] == Clash(k1, k2)[0] && (Clash(k1, k2) + f2)[1] == Clash(k1, k2)[1];
    assert StartsWith(f1, "set") ==> f1[..3][0] == f1[0] && f1[..3][1] == f1[1];
    assert StartsWith(f1, "clear") ==> f1[..5][0] == f1[0] && f1[..5][1] == f1[1];
  }

  /** Setters of different classes never share a name: not even cousins do. */
  lemma {:induction false} SetterNamesApart(k1: string, k2: string, n: string)
    requires KeyOk(k1) && KeyOk(k2) && SetterOf(k1, n) && SetterOf(k2, n)
    ensures k1 == k2
  {
    hide KeyOk, NameOf;
    var f :| n == NameOf(Single, k1, f) && SetterField(f);
    var g :| n == NameOf(Single, k2, g) && SetterField(g);
    if k1 != k2 {
      if |k1| <= |k2| {
        NamesCollide(Single, k1, f, Single, k2, g);
        CousinsApart(k1, k2, f, g);
      } else {
        NamesCollide(Single, k2, g, Single, k1, f);
        CousinsApart(k2, k1, g, f);
      }
    }
  }

  lemma {:induction false} BindsSetterOf(ctx: Ctx, spec: Spec, m: Method, seen: set<string>)
    requires Binds(ctx, spec, m, seen)
    ensures SetterOf(spec.key, FnName(spec, m))
  {
    hide Taken, MarshalAll, Snake, IsSetterName, NameOf;
    SnakeOfSetter(m.name);
  }

  /** What one class adds to the write buffers. */
  lemma {:induction false} ClassSetters(ctx: Ctx, spec: Spec, w: WriteSurface, seen: set<string>, ms: seq<Method>)
    ensures var v := RunSetters(ctx, spec, w, seen, ms);
            w.wreexport <= v.wreexport && forall n | n in v.wreexport[|w.wreexport|..] :: SetterOf(spec.key, n)
    decreases |ms|
  {
    hide Binds, SetterAfter, SetterOf, FnName;
    if ms != [] {
      var m := ms[0];
      var u := SetterAfter(ctx, spec, m, w, seen);
      var later := if Binds(ctx, spec, m, seen) then seen + {FnName(spec, m)} else seen;
      BindsAdds(ctx, spec, m, w, seen);
      ClassSetters(ctx, spec, u, later, ms[1..]);
      if Binds(ctx, spec, m, seen) {
        BindsSetterOf(ctx, spec, m, seen);
        var v := RunSetters(ctx, spec, u, later, ms[1..]);
        hide RunSetters;
        assert v.wreexport[|w.wreexport|..] == [FnName(spec, m)] + v.wreexport[|u.wreexport|..];
      }
    }
  }

  ghost predicate GoodRows(rows: seq<SetterRow>) {
    && (forall i | 0 <= i < |rows| :: KeyOk(rows[i].spec.key))
    && forall i, j | 0 <= i < j < |rows| :: rows[i].spec.key != rows[j].spec.key
  }

  /** The name is a setter of one of the rows. */
  ghost predicate SetterAmong(rows: seq<SetterRow>, n: string) {
    exists i | 0 <= i < |rows| :: SetterOf(rows[i].spec.key, n)
  }

  lemma {:induction false} FirstRowApart(rows: seq<SetterRow>, here: seq<string>, rest: seq<string>)
    requires GoodRows(rows) && rows != []
    requires forall n | n in here :: SetterOf(rows[0].spec.key, n)
    requires forall n | n in rest :: SetterAmong(rows[1..], n)
    ensures Apart(here, rest)
    ensures forall n | n in here + rest :: SetterAmong(rows, n)
  {
    hide KeyOk, SetterOf;
    forall n | n in rest ensures n !in here && SetterAmong(rows, n) {
      var i :| 0 <= i < |rows[1..]| && SetterOf(rows[1..][i].spec.key, n);
      assert rows[1..][i] == rows[i + 1];
      if n in here {
        SetterNamesApart(rows[0].spec.key, rows[i + 1].spec.key, n);
      }
    }
  }

  /** Over every class, the write buffers stay in step and every setter name is emitted once and is
      taken by no hand-written layer: here the seen names may well start afresh at each class. */
  lemma {:induction false} SettersUnique(ctx: Ctx, rows: seq<SetterRow>, w: WriteSurface)
    requires GoodRows(rows) && WriteInStep(w)
    ensures var v := GenerateSetters(ctx, rows, w);
            && WriteInStep(v) && w.wreexport <= v.wreexport
            && var names := v.wreexport[|w.wreexport|..];
               NoDup(names) && Unreserved(ctx, names) && forall n | n in names :: SetterAmong(rows, n)
    decreases |rows|
  {
    hide WriteInStep, RunSetters, SetterAmong, KeyOk;
    if rows != [] {
      var spec, ms := rows[0].spec, rows[0].setters;
      var u := RunSetters(ctx, spec, w, {}, ms);
      SettersInStep(ctx, spec, w, {}, ms);
      ClassSetters(ctx, spec, w, {}, ms);
      SettersUnique(ctx, rows[1..], u);
      var v := GenerateSetters(ctx, rows[1..], u);
      hide *;
      var here, rest := u.wreexport[|w.wreexport|..], v.wreexport[|u.wreexport|..];
      assert v.wreexport[|w.wreexport|..] == here + rest;
      FirstRowApart(rows, here, rest);
      NoDupAppend(here, rest);
    }
  }

  const NO_WRITES := WriteSurface([], [], [], [], [], [], map[])

  /** Whatever the headers declare, the shipped table yields no setter name twice. */
  lemma {:induction false} TargetsSetters(ctx: Ctx, headers: seq<seq<Method>>)
    requires ctx.table == TARGETS && |headers| == |TARGETS|
    ensures var v := GenerateSetters(ctx, SetterRows(TARGETS, headers), NO_WRITES);
            WriteInStep(v) && NoDup(v.wreexport) && Unreserved(ctx, v.wreexport)
  {
    hide KeyOk, SetterMethods, GenerateSetters, SetterAmong;
    RowsAre(TARGETS, headers);
    KeysOk();
    KeysDistinct();
    SettersUnique(ctx, SetterRows(TARGETS, headers), NO_WRITES);
  }

  // ---- the list of what is not implemented ---------------------------------------------------

  function WriteFields(entries: seq<WriteEntry>): (r: seq<Field>)
    ensures |r| == |entries| && forall i | 0 <= i < |entries| :: r[i] == (entries[i].cls, entries[i].field)
  {
    seq(|entries|, i requires 0 <= i < |entries| => (entries[i].cls, entries[i].field))
  }

  lemma {:induction false} RegisteredStays(ctx: Ctx, spec: Spec, w: WriteSurface, seen: set<string>, ms: seq<Method>)
    ensures w.wreg <= RunSetters(ctx, spec, w, seen, ms).wreg
    decreases |ms|
  {
    hide Binds, SetterEntry, SetterDecl, SetterApi, Compiled, FnName;
    if ms != [] {
      var m := ms[0];
      RegisteredStays(ctx, spec, SetterAfter(ctx, spec, m, w, seen),
                      if Binds(ctx, spec, m, seen) then seen + {FnName(spec, m)} else seen, ms[1..]);
    }
  }

  lemma {:induction false} SetterRegisters(ctx: Ctx, spec: Spec, m: Method, w: WriteSurface, seen: set<string>)
    requires Binds(ctx, spec, m, seen)
    ensures var reg := SetterAfter(ctx, spec, m, w, seen).wreg;
            |reg| == |w.wreg| + 1 && (reg[|w.wreg|].cls, reg[|w.wreg|].field) == (spec.cls, Snake(m.name))
  {
    hide Snake, FnName, Compiled, SetterDecl, SetterApi, MarshalAll;
  }

  /** A bound setter, too, counts as implemented from its call on, whatever the read registry holds. */
  lemma {:induction false} SetterIsImplemented(ctx: Ctx, spec: Spec, w: WriteSurface, seen: set<string>, m: Method,
                                               after: seq<Method>, gets: seq<Field>)
    requires Binds(ctx, spec, m, seen)
    ensures Implemented(gets + WriteFields(RunSetters(ctx, spec, w, seen, [m] + after).wreg), spec.cls, m.name)
  {
    var u := SetterAfter(ctx, spec, m, w, seen);
    SetterRegisters(ctx, spec, m, w, seen);
    assert ([m] + after)[0] == m && ([m] + after)[1..] == after;
    RegisteredStays(ctx, spec, u, seen + {FnName(spec, m)}, after);
    hide SetterAfter, Snake, Binds, FnName;
    var v := RunSetters(ctx, spec, u, seen + {FnName(spec, m)}, after);
    assert v.wreg[|w.wreg|] == u.wreg[|w.wreg|];
    var all := gets + WriteFields(v.wreg);
    assert all[|gets| + |w.wreg|] == (spec.cls, Snake(m.name));
    assert Covers(all[|gets| + |w.wreg|], spec.cls, m.name);
  }
}
