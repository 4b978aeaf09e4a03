/** The methods of the generated `Db`: the wrappers of the readers and those of the setters go into one
    block, although each pass keeps its own seen names. */
module ApiSurface {
  import opened Options
  import opened Text
  import opened Names
  import opened Targets
  import opened TargetKeys
  import opened Bindings
  import opened EmitLaws
  import opened EmitRuns
  import opened Setters
  import opened SetterLaws
  import opened Emitter
  import opened Coverage
  import opened WholeRun

  /** The setters that a run of `add_setter` binds, by name. */
  function BoundSetters(ctx: Ctx, spec: Spec, seen: set<string>, ms: seq<Method>): seq<string>
    decreases |ms|
  {
    if ms == [] then []
    else if Binds(ctx, spec, ms[0], seen) then
      [FnName(spec, ms[0])] + BoundSetters(ctx, spec, seen + {FnName(spec, ms[0])}, ms[1..])
    else BoundSetters(ctx, spec, seen, ms[1..])
  }

  lemma {:induction false} RunBinds(ctx: Ctx, spec: Spec, w: WriteSurface, seen: set<string>, ms: seq<Method>)
    ensures RunSetters(ctx, spec, w, seen, ms).wreexport == w.wreexport + BoundSetters(ctx, spec, seen, ms)
    ensures forall n | n in BoundSetters(ctx, spec, seen, ms) :: SetterOf(spec.key, n)
    decreases |ms|
  {
    hide Binds, SetterAfter, FnName, SetterOf;
    if ms == [] {
      assert w.wreexport + [] == w.wreexport;
    } else {
      var m := ms[0];
      BindsAdds(ctx, spec, m, w, seen);
      if Binds(ctx, spec, m, seen) {
        BindsSetterOf(ctx, spec, m, seen);
        var more := BoundSetters(ctx, spec, seen + {FnName(spec, m)}, ms[1..]);
        RunBinds(ctx, spec, SetterAfter(ctx, spec, m, w, seen), seen + {FnName(spec, m)}, ms[1..]);
        assert w.wreexport + [FnName(spec, m)] + more == w.wreexport + ([FnName(spec, m)] + more);
      } else {
        RunBinds(ctx, spec, w, seen, ms[1..]);
      }
    }
  }

  function SettersOf(ctx: Ctx, rows: seq<SetterRow>): (r: seq<seq<string>>)
    ensures |r| == |rows| && forall i | 0 <= i < |rows| :: r[i] == BoundSetters(ctx, rows[i].spec, {}, rows[i].setters)
  {
    seq(|rows|, i requires 0 <= i < |rows| => BoundSetters(ctx, rows[i].spec, {}, rows[i].setters))
  }

  lemma {:induction false} GenerateBinds(ctx: Ctx, rows: seq<SetterRow>, w: WriteSurface)
    ensures GenerateSetters(ctx, rows, w).wreexport == w.wreexport + Flat(SettersOf(ctx, rows))
    decreases |rows|
  {
    hide RunSetters, BoundSetters;
    if rows == [] {
      assert w.wreexport + [] == w.wreexport;
    } else {
      var u := RunSetters(ctx, rows[0].spec, w, {}, rows[0].setters);
      RunBinds(ctx, rows[0].spec, w, {}, rows[0].setters);
      GenerateBinds(ctx, rows[1..], u);
      var lists := SettersOf(ctx, rows);
      assert lists[1..] == SettersOf(ctx, rows[1..]);
      assert w.wreexport + lists[0] + Flat(lists[1..]) == w.wreexport + Flat(lists);
    }
  }

  // ---- one reader and one setter of a name -------------------------------------------------

  /** A reader among `xs` and a setter among `ys` have one name: in the class itself a reader's field is the
      setter's, in the class with the shorter key of two cousins it is the added word and the setter's. */
  ghost predicate Meet(a: string, xs: seq<string>, b: string, ys: seq<string>) {
    exists field ::
      && NameOf(Single, b, field) in ys
      && ((a == b && NameOf(Single, a, field) in xs)
          || (Cousins(a, b) && NameOf(Single, a, Clash(a, b) + field) in xs))
  }

  lemma {:induction false} MeetName(a: string, b: string, form: Form, f: string, g: string)
    requires KeyOk(a) && KeyOk(b) && NameOf(form, a, f) == NameOf(Single, b, g) && SetterField(g)
    ensures form == Single && if a == b then f == g else Cousins(a, b) && f == Clash(a, b) + g
  {
    hide KeyOk, NameOf, SetterField;
    if a == b {
      OneReading(a, form, f, Single, g);
    } else {
      CommonName(a, b, form, f, Single, g);
      if Cousins(b, a) {
        CousinsApart(b, a, g, f);
      }
    }
  }

  lemma {:induction false} MeetExactly(a: string, xs: seq<string>, b: string, ys: seq<string>)
    requires KeyOk(a) && KeyOk(b) && OfKey(a, xs) && forall n | n in ys :: SetterOf(b, n)
    ensures Apart(xs, ys) <==> !Meet(a, xs, b, ys)
  {
    hide KeyOk, NameOf, Clash, Cousins, SetterField;
    forall n | n in xs && n in ys ensures Meet(a, xs, b, ys) {
      var form, f :| n == NameOf(form, a, f);
      assert SetterOf(b, n);
      var g :| n == NameOf(Single, b, g) && SetterField(g);
      MeetName(a, b, form, f, g);
    }
    if Meet(a, xs, b, ys) {
      var field :| NameOf(Single, b, field) in ys
        && ((a == b && NameOf(Single, a, field) in xs)
            || (Cousins(a, b) && NameOf(Single, a, Clash(a, b) + field) in xs));
      if a != b || NameOf(Single, a, field) !in xs {
        CousinNames(Single, a, b, field);
      }
    }
  }

  // ---- over all classes --------------------------------------------------------------------

  lemma {:induction false} FlatApart(xs: seq<seq<string>>, ys: seq<seq<string>>)
    ensures Apart(Flat(xs), Flat(ys)) <==> forall i, j | 0 <= i < |xs| && 0 <= j < |ys| :: Apart(xs[i], ys[j])
  {
    forall x ensures x in Flat(xs) <==> exists i :: 0 <= i < |xs| && x in xs[i] {
      InFlat(xs, x);
    }
    forall y ensures y in Flat(ys) <==> exists j :: 0 <= j < |ys| && y in ys[j] {
      InFlat(ys, y);
    }
    hide Flat;
    if forall i, j | 0 <= i < |xs| && 0 <= j < |ys| :: Apart(xs[i], ys[j]) {
      forall x | x in Flat(xs) ensures x !in Flat(ys) {
        var i :| 0 <= i < |xs| && x in xs[i];
        assert forall j | 0 <= j < |ys| :: Apart(xs[i], ys[j]);
      }
    }
    if Apart(Flat(xs), Flat(ys)) {
      forall i, j | 0 <= i < |xs| && 0 <= j < |ys| ensures Apart(xs[i], ys[j]) {
        forall x | x in xs[i] ensures x !in ys[j] {
          assert x in Flat(xs);
        }
      }
    }
  }

  lemma {:induction false} InFlat(lists: seq<seq<string>>, x: string)
    ensures x in Flat(lists) <==> exists i :: 0 <= i < |lists| && x in lists[i]
  {
    if lists != [] {
      InFlat(lists[1..], x);
      assert forall i | 1 <= i < |lists| :: lists[i] == lists[1..][i - 1];
    }
  }

  /** No reader and no setter of the run meet. */
  ghost predicate NoneMeet(rows: seq<Row>, wrappers: seq<seq<string>>, setters: seq<seq<string>>)
    requires |rows| == |wrappers| == |setters|
  {
    forall i, j | 0 <= i < |rows| && 0 <= j < |rows| ::
      !Meet(rows[i].spec.key, wrappers[i], rows[j].spec.key, setters[j])
  }

  lemma {:induction false} ListsMeetExactly(rows: seq<Row>, wrappers: seq<seq<string>>, setters: seq<seq<string>>)
    requires |rows| == |wrappers| == |setters| && DistinctKeys(rows)
    requires forall i | 0 <= i < |rows| :: OfKey(rows[i].spec.key, wrappers[i])
    requires forall j | 0 <= j < |rows| :: forall n | n in setters[j] :: SetterOf(rows[j].spec.key, n)
    ensures Apart(Flat(wrappers), Flat(setters)) <==> NoneMeet(rows, wrappers, setters)
  {
    FlatApart(wrappers, setters);
    hide KeyOk, OfKey, SetterOf, Meet, Apart, Flat;
    forall i, j | 0 <= i < |rows| && 0 <= j < |rows|
      ensures Apart(wrappers[i], setters[j])
         <==> !Meet(rows[i].spec.key, wrappers[i], rows[j].spec.key, setters[j])
    {
      MeetExactly(rows[i].spec.key, wrappers[i], rows[j].spec.key, setters[j]);
    }
  }

  lemma {:induction false} SettersAre(ctx: Ctx, rows: seq<SetterRow>, i: nat)
    requires i < |rows|
    ensures forall n | n in SettersOf(ctx, rows)[i] :: SetterOf(rows[i].spec.key, n)
  {
    hide BoundSetters, SetterOf, RunSetters;
    RunBinds(ctx, rows[i].spec, NO_WRITES, {}, rows[i].setters);
  }

  /** The names of the methods of `Db`, the readers' and then the setters'. */
  function DbMethods(ctx: Ctx, tbl: seq<Spec>, headers: seq<seq<Method>>): seq<string>
    requires |headers| == |tbl|
  {
    ApiNames(Generate(ctx, Rows(tbl, headers), EMPTY).api)
    + ApiNames(GenerateSetters(ctx, SetterRows(tbl, headers), NO_WRITES).wapi)
  }

  lemma {:induction false} SetterApis(w: WriteSurface)
    requires WriteInStep(w)
    ensures ApiNames(w.wapi) == w.wreexport
  {
    assert forall i | 0 <= i < |w.wh| ::
      SameSetter(w.wh[i], w.wcc[i], w.wbridge[i], w.wreexport[i], w.wapi[i], w.wreg[i]);
    hide SameArgs, ArgNames;
  }

  /** The readers' wrappers belong to their classes, and the setters too. */
  ghost predicate BothOf(ctx: Ctx, rows: seq<Row>, srows: seq<SetterRow>) {
    && |rows| == |srows|
    && (forall i | 0 <= i < |rows| :: OfKey(rows[i].spec.key, WrappersOf(ctx, rows)[i]))
    && (forall j | 0 <= j < |rows| :: forall n | n in SettersOf(ctx, srows)[j] :: SetterOf(rows[j].spec.key, n))
  }

  lemma {:induction false} BothGiven(ctx: Ctx, rows: seq<Row>, srows: seq<SetterRow>)
    requires |rows| == |srows| && forall i | 0 <= i < |rows| :: rows[i].spec == srows[i].spec
    ensures BothOf(ctx, rows, srows)
  {
    hide OfKey, SetterOf, ClassWrappers, BoundSetters, NoDup;
    ListsGiven(ctx, rows);
    forall j | 0 <= j < |srows| ensures forall n | n in SettersOf(ctx, srows)[j] :: SetterOf(srows[j].spec.key, n) {
      SettersAre(ctx, srows, j);
    }
  }

  lemma {:induction false} MethodsAre(ctx: Ctx, tbl: seq<Spec>, headers: seq<seq<Method>>)
    requires |headers| == |tbl|
    requires WriteInStep(GenerateSetters(ctx, SetterRows(tbl, headers), NO_WRITES))
    ensures DbMethods(ctx, tbl, headers)
         == Flat(WrappersOf(ctx, Rows(tbl, headers))) + Flat(SettersOf(ctx, SetterRows(tbl, headers)))
  {
    var rows, srows := Rows(tbl, headers), SetterRows(tbl, headers);
    EmptySound();
    assert NO_WRITES.wreexport == [];
    hide Generate, GenerateSetters, Rows, SetterRows, WriteInStep, Flat, WrappersOf, SettersOf, ApiNames;
    GenerateNames(ctx, rows, EMPTY);
    GenerateBinds(ctx, srows, NO_WRITES);
    SetterApis(GenerateSetters(ctx, srows, NO_WRITES));
    assert [] + Flat(WrappersOf(ctx, rows)) == Flat(WrappersOf(ctx, rows));
    assert [] + Flat(SettersOf(ctx, srows)) == Flat(SettersOf(ctx, srows));
  }

  lemma {:induction false} RowsAgree(tbl: seq<Spec>, headers: seq<seq<Method>>)
    requires |headers| == |tbl|
    ensures var rows, srows := Rows(tbl, headers), SetterRows(tbl, headers);
            |rows| == |srows| == |tbl| && forall i | 0 <= i < |rows| :: rows[i].spec == srows[i].spec == tbl[i]
  {
    RowsAre(tbl, headers);
  }

  /** Over any table of classes with different sound keys, and whatever the headers declare, `Db` has no method
      twice if and only if no two cousin classes share a reader and no reader meets a setter. */
  lemma {:induction false} DbMethodsExactly(ctx: Ctx, tbl: seq<Spec>, headers: seq<seq<Method>>)
    requires |headers| == |tbl| && DistinctKeys(Rows(tbl, headers))
    ensures var rows := Rows(tbl, headers);
            && |rows| == |SetterRows(tbl, headers)|
            && (NoDup(DbMethods(ctx, tbl, headers))
                <==> CousinsShareNone(rows, WrappersOf(ctx, rows))
                     && NoneMeet(rows, WrappersOf(ctx, rows), SettersOf(ctx, SetterRows(tbl, headers))))
  {
    var rows, srows := Rows(tbl, headers), SetterRows(tbl, headers);
    RowsAgree(tbl, headers);
    GoodAgree(rows, srows);
    NoWritesYet();
    hide *;
    SettersUnique(ctx, srows, NO_WRITES);
    MethodsAre(ctx, tbl, headers);
    NoDupAppend(Flat(WrappersOf(ctx, rows)), Flat(SettersOf(ctx, srows)));
    ReadersOnce(ctx, rows);
    SettersOnce(ctx, srows);
    BothGiven(ctx, rows, srows);
    MeetLists(ctx, rows, srows);
  }

  lemma {:induction false} MeetLists(ctx: Ctx, rows: seq<Row>, srows: seq<SetterRow>)
    requires BothOf(ctx, rows, srows) && DistinctKeys(rows)
    ensures |rows| == |srows|
    ensures Apart(Flat(WrappersOf(ctx, rows)), Flat(SettersOf(ctx, srows)))
       <==> NoneMeet(rows, WrappersOf(ctx, rows), SettersOf(ctx, srows))
  {
    hide OfKey, SetterOf, DistinctKeys, Apart, Flat, NoneMeet;
    ListsMeetExactly(rows, WrappersOf(ctx, rows), SettersOf(ctx, srows));
  }

  lemma {:induction false} GoodAgree(rows: seq<Row>, srows: seq<SetterRow>)
    requires DistinctKeys(rows) && |rows| == |srows| && forall i | 0 <= i < |rows| :: rows[i].spec == srows[i].spec
    ensures GoodRows(srows)
  {
    hide KeyOk;
  }

  lemma {:induction false} NoWritesYet()
    ensures WriteInStep(NO_WRITES) && NO_WRITES.wreexport == []
  {
  }

  lemma {:induction false} ReadersOnce(ctx: Ctx, rows: seq<Row>)
    requires DistinctKeys(rows)
    ensures NoDup(Flat(WrappersOf(ctx, rows))) <==> CousinsShareNone(rows, WrappersOf(ctx, rows))
  {
    EmptySound();
    hide *;
    GeneratedSurface(ctx, rows);
    GenerateNames(ctx, rows, EMPTY);
    assert [] + Flat(WrappersOf(ctx, rows)) == Flat(WrappersOf(ctx, rows));
  }

  lemma {:induction false} SettersOnce(ctx: Ctx, srows: seq<SetterRow>)
    requires GoodRows(srows)
    ensures NoDup(Flat(SettersOf(ctx, srows)))
  {
    NoWritesYet();
    hide *;
    SettersUnique(ctx, srows, NO_WRITES);
    GenerateBinds(ctx, srows, NO_WRITES);
    assert [] + Flat(SettersOf(ctx, srows)) == Flat(SettersOf(ctx, srows));
    assert GenerateSetters(ctx, srows, NO_WRITES).wreexport[0..] == GenerateSetters(ctx, srows, NO_WRITES).wreexport;
  }

  // ---- headers in which they are apart, and in which they are not --------------------------

  /** No method offered as a read is called as a setter is. */
  predicate NoSetLike(ops: seq<Op>) {
    forall op | op in ops :: !SetterField(Snake(op.m.name))
  }

  /** A field of a method starts as a setter's only if the method does. */
  lemma {:induction false} FieldStarts(name: string, f: string)
    requires FieldOf(name, f) && SetterField(f)
    ensures SetterField(Snake(name))
  {
    var s := Snake(name);
    hide Snake;
    if f != s {
      var suffix :| f == s + "_" + suffix;
      var w := if StartsWith(f, "set") then "set" else "clear";
      assert f[..|s|] == s && f[|s|] == '_';
      PastWord(f, w, |s|);
      assert s[..|w|] == f[..|w|];
    }
  }

  lemma {:induction false} PastWord(f: string, w: string, k: nat)
    requires StartsWith(f, w) && '_' !in w && k < |f| && f[k] == '_'
    ensures k >= |w|
  {
    assert forall i | 0 <= i < |w| :: f[i] == f[..|w|][i];
  }

  lemma {:induction false} ClearNotMet(ctx: Ctx, a: string, ops: seq<Op>, xs: seq<string>, b: string, ys: seq<string>)
    requires KeyOk(a) && KeyOk(b) && RunNames(ctx, a, ops, {}, xs) && forall n | n in ys :: SetterOf(b, n)
    requires NoSetLike(ops) && (a in {"marker", "via"} ==> StaysClear(ops, CousinWord(a)))
    ensures !Meet(a, xs, b, ys)
  {
    hide KeyOk, NameOf, SetterField, Snake, NoDup, StartsWith;
    if Cousins(a, b) {
      ClashWord(a, b);
      assert a in {"marker", "via"};
    }
    hide Cousins, Clash, CousinWord, FieldOf;
    forall field | NameOf(Single, b, field) in ys
      ensures a == b ==> NameOf(Single, a, field) !in xs
      ensures Cousins(a, b) ==> NameOf(Single, a, Clash(a, b) + field) !in xs
    {
      FieldIsSet(b, field, ys);
      if a == b && NameOf(Single, a, field) in xs {
        var op := GivenBy(ctx, a, ops, xs, field);
        FieldStarts(op.m.name, field);
      }
      if Cousins(a, b) && NameOf(Single, a, Clash(a, b) + field) in xs {
        var op := GivenBy(ctx, a, ops, xs, Clash(a, b) + field);
        FieldReaches(op.m.name, CousinWord(a), field);
      }
    }
  }

  lemma {:induction false} FieldIsSet(b: string, field: string, ys: seq<string>)
    requires KeyOk(b) && NameOf(Single, b, field) in ys && forall n | n in ys :: SetterOf(b, n)
    ensures SetterField(field)
  {
    hide KeyOk, NameOf, SetterField;
    assert SetterOf(b, NameOf(Single, b, field));
    var g :| NameOf(Single, b, field) == NameOf(Single, b, g) && SetterField(g);
    OneReading(b, Single, field, Single, g);
  }

  lemma {:induction false} GivenBy(ctx: Ctx, key: string, ops: seq<Op>, xs: seq<string>, f: string) returns (op: Op)
    requires KeyOk(key) && RunNames(ctx, key, ops, {}, xs) && NameOf(Single, key, f) in xs
    ensures op in ops && FieldOf(op.m.name, f)
  {
    hide KeyOk, NameOf, FieldOf, NoDup;
    var n := NameOf(Single, key, f);
    assert Given(ctx, key, ops, n);
    op :| op in ops && Proper(ctx, key, op.m.name, n);
    var p, g :| n == NameOf(p, key, g) && FieldOf(op.m.name, g);
    OneReading(key, p, g, Single, f);
  }

  /** What headers can see to: if no method offered as a read is called as a setter is, and the marker and
      via classes keep clear of their cousins, `Db` has every method once. */
  lemma {:induction false} ClearDbUnique(ctx: Ctx, tbl: seq<Spec>, headers: seq<seq<Method>>)
    requires |headers| == |tbl| && DistinctKeys(Rows(tbl, headers))
    requires forall i | 0 <= i < |tbl| :: NoSetLike(ClassOps(headers[i]))
    requires forall i | 0 <= i < |tbl| && tbl[i].key in {"marker", "via"} ::
               HeaderClear(headers[i], CousinWord(tbl[i].key))
    ensures NoDup(DbMethods(ctx, tbl, headers))
  {
    var rows, srows := Rows(tbl, headers), SetterRows(tbl, headers);
    RowsAre(tbl, headers);
    RowsAgree(tbl, headers);
    assert forall i | 0 <= i < |rows| :: KeyOk(rows[i].spec.key);
    hide *;
    DbMethodsExactly(ctx, tbl, headers);
    BothGiven(ctx, rows, srows);
    forall i | 0 <= i < |rows| && rows[i].spec.key in {"marker", "via"}
      ensures StaysClear(rows[i].ops, CousinWord(rows[i].spec.key))
    {
      ClearOps(headers[i], CousinWord(tbl[i].key));
    }
    ClearLists(ctx, rows);
    BothApart(ctx, rows, srows);
  }

  lemma {:induction false} BothApart(ctx: Ctx, rows: seq<Row>, srows: seq<SetterRow>)
    requires BothOf(ctx, rows, srows)
    requires forall i | 0 <= i < |rows| :: KeyOk(rows[i].spec.key) && NoSetLike(rows[i].ops)
    requires forall i | 0 <= i < |rows| && rows[i].spec.key in {"marker", "via"} ::
               StaysClear(rows[i].ops, CousinWord(rows[i].spec.key))
    ensures |rows| == |srows| && NoneMeet(rows, WrappersOf(ctx, rows), SettersOf(ctx, srows))
  {
    hide KeyOk, NoSetLike, StaysClear, SetterOf, OfKey, CousinWord, NoneMeet;
    NoneMeetIn(ctx, rows, SettersOf(ctx, srows));
  }

  /** The shipped table is such a table. */
  lemma {:induction false} TargetsDbUnique(ctx: Ctx, headers: seq<seq<Method>>)
    requires |headers| == |TARGETS|
    requires forall i | 0 <= i < |TARGETS| :: NoSetLike(ClassOps(headers[i]))
    requires forall i | 0 <= i < |TARGETS| && TARGETS[i].key in {"marker", "via"} ::
               HeaderClear(headers[i], CousinWord(TARGETS[i].key))
    ensures NoDup(DbMethods(ctx, TARGETS, headers))
  {
    hide *;
    TargetsDistinct(headers);
    ClearDbUnique(ctx, TARGETS, headers);
  }

  lemma {:induction false} NoneMeetIn(ctx: Ctx, rows: seq<Row>, setters: seq<seq<string>>)
    requires |rows| == |setters|
    requires forall i | 0 <= i < |rows| :: KeyOk(rows[i].spec.key) && NoSetLike(rows[i].ops)
    requires forall i | 0 <= i < |rows| && rows[i].spec.key in {"marker", "via"} ::
               StaysClear(rows[i].ops, CousinWord(rows[i].spec.key))
    requires forall j | 0 <= j < |rows| :: forall n | n in setters[j] :: SetterOf(rows[j].spec.key, n)
    ensures NoneMeet(rows, WrappersOf(ctx, rows), setters)
  {
    var lists := WrappersOf(ctx, rows);
    hide KeyOk, NoSetLike, StaysClear, SetterOf, Meet, RunNames, CousinWord, ClassWrappers, NoDup, OfKey;
    forall i, j | 0 <= i < |rows| && 0 <= j < |rows|
      ensures !Meet(rows[i].spec.key, lists[i], rows[j].spec.key, setters[j])
    {
      ClassGiven(ctx, rows[i]);
      ClearNotMet(ctx, rows[i].spec.key, rows[i].ops, lists[i], rows[j].spec.key, setters[j]);
    }
  }

  /** A relation called as a setter beside that setter: the two are one method of `Db`. */
  lemma {:induction false} RelationMeetsSetter(ctx: Ctx, spec: Spec, m: Method, n: Method)
    requires n.name == m.name && IsSetterName(n.name) && Binds(ctx, spec, n, {})
    requires m.kind == Relation && RelationTarget(m.ret) in ctx.nameable
    ensures Meet(spec.key, ClassWrappers(ctx, Row(spec, [Op.Add(m)])), spec.key, BoundSetters(ctx, spec, {}, [n]))
  {
    var one := OnePlan(spec, m, CString, RString, TargetName, "string");
    hide Snake, NameOf, RelationTarget, MarshalAll, StartsWith;
    assert FnName(spec, m) == FnName(spec, n) == NameOf(Single, spec.key, Snake(n.name));
    assert Decide(ctx, spec, Op.Add(m), {}) == one;
    assert [n][1..] == [] && [Op.Add(m)][1..] == [];
    assert FnName(spec, m) in ClassWrappers(ctx, Row(spec, [Op.Add(m)])) by {
      OneWrapper(ctx, spec, Op.Add(m));
      assert ApiNames(one.plan.apis)[0] == FnName(spec, m);
    }
    assert FnName(spec, n) in BoundSetters(ctx, spec, {}, [n]);
  }

  lemma {:induction false} OneWrapper(ctx: Ctx, spec: Spec, op: Op)
    requires Decide(ctx, spec, op, {}).Bound?
    ensures ClassWrappers(ctx, Row(spec, [op])) == ApiNames(Decide(ctx, spec, op, {}).plan.apis)
  {
    hide Decide, SeenAfter;
    var o := Decide(ctx, spec, op, {});
    assert [op][1..] == [];
    assert NewWrappers(ctx, spec, SeenAfter({}, o), []) == [];
    assert ApiNames(o.plan.apis) + [] == ApiNames(o.plan.apis);
  }
}
