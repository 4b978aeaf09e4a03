/** The parameter names of a parameterised read, which are translated one by one and not compared. */
module QueryScope {
  import opened Options
  import opened Text
  import opened Names
  import opened Targets
  import opened Bindings
  import opened EmitLaws
  import opened Setters
  import opened SetterLaws

  /** The parameters of a read as they are called in the generated text. */
  function QueryNames(m: Method): (names: seq<string>)
    ensures |names| == |m.params| && forall i | 0 <= i < |names| :: names[i] == QueryParamName(m.params[i], i)
  {
    seq(|m.params|, i requires 0 <= i < |m.params| => QueryParamName(m.params[i], i))
  }

  /** The functions that read the spelling of an enum. */
  function ParseCalls(body: Body): set<string> {
    if body.QueryOf? then set c | c in body.conversions && c.Parsed? :: c.helper + "_parse" else {}
  }

  /** The definition of a read has no name twice, hides neither its resolver nor a function it calls, and its
      parameters after the keys have legal names. */
  ghost predicate Readable(spec: Spec, u: Unit) {
    var names := ArgNames(DeclOf(spec, u).params);
    && NoDup(["h"] + names + ["p"]) && "db" !in names && spec.resolver !in names
    && forall i | |spec.args| <= i < |names| :: names[i] !in ParseCalls(u.body) + Reserved()
  }

  lemma {:induction false} UnitNamesAre(spec: Spec, m: Method, fn: string, ret: (CTy, RTy))
    requires QueryParamsOk(spec, m)
    ensures ArgNames(DeclOf(spec, QueryUnit(spec, m, fn, ret)).params) == ArgNames(KeyC(spec)) + QueryNames(m)
  {
    var more := QueryUnit(spec, m, fn, ret).moreC;
    ArgNamesAppend(KeyC(spec), more);
    hide QueryParamName, QueryParam, KeyC;
    assert ArgNames(more) == QueryNames(m);
  }

  lemma {:induction false} AfterKeys(keys: seq<string>, names: seq<string>, more: set<string>)
    ensures (forall i | |keys| <= i < |keys + names| :: (keys + names)[i] !in more)
       <==> forall n | n in names :: n !in more
  {
    var all := keys + names;
    assert forall i | |keys| <= i < |all| :: all[i] == names[i - |keys|] && names[i - |keys|] in names;
    forall n | n in names ensures exists i :: |keys| <= i < |all| && all[i] == n {
      var i :| 0 <= i < |names| && names[i] == n;
      assert all[|keys| + i] == n;
    }
  }

  lemma {:induction false} ReadableScope(spec: Spec, names: seq<string>)
    ensures var all := ArgNames(KeyC(spec)) + names;
            Fresh(names, KeySet(spec) + Own(spec, []))
            <==> NoDup(["h"] + all + ["p"]) && "db" !in all && spec.resolver !in all
  {
    TableKeys([], spec, []);
    assert MarshalAll([], []) == Some([]);
    ScopeExactly(spec, names, []);
    var all := ArgNames(KeyC(spec)) + names;
    assert Own(spec, []) == {"db", "h", "p", spec.resolver};
    hide NoDup, ArgNames, KeyC, KeySet, Own, Fresh;
    if NoDup(["h"] + all + ["p"]) && "db" !in all && spec.resolver !in all {
      forall n | n in all ensures n !in Own(spec, []) {
        EndsDiffer(all, n);
      }
    }
  }

  /** The generated read is sound text if and only if the translated names differ from each other, from the
      keys, from the text's own names and from the reserved words. */
  lemma {:induction false} QueryNamesExactly(spec: Spec, m: Method, fn: string, ret: (CTy, RTy))
    requires QueryParamsOk(spec, m)
    ensures var u := QueryUnit(spec, m, fn, ret);
            Readable(spec, u)
            <==> Fresh(QueryNames(m), KeySet(spec) + Own(spec, []) + (ParseCalls(u.body) + Reserved()))
  {
    var u, names, keys := QueryUnit(spec, m, fn, ret), QueryNames(m), ArgNames(KeyC(spec));
    var more := ParseCalls(u.body) + Reserved();
    UnitNamesAre(spec, m, fn, ret);
    ReadableScope(spec, names);
    FreshMore(names, KeySet(spec) + Own(spec, []), more);
    assert |keys| == |spec.args|;
    AfterKeys(keys, names, more);
    hide Fresh, NoDup, QueryUnit, QueryNames, ParseCalls, Reserved, KeySet, Own, ArgNames, KeyC;
  }

  /** A named parameter whose translation is no keyword is called what its name translates to. */
  predicate PlainNamed(p: Param) {
    p.name.Some? && Camel(p.name.value) && !AllCaps(p.name.value) && Snake(p.name.value) !in RUST_KW
    && p.name.value != ""
  }

  /** What a header can see to: parameters with different names in camel case, none of which translates to a
      keyword, are called differently. */
  lemma {:induction false} QueryNamesDistinct(m: Method)
    requires forall i | 0 <= i < |m.params| :: PlainNamed(m.params[i])
    requires forall i, j | 0 <= i < j < |m.params| :: m.params[i].name != m.params[j].name
    ensures NoDup(QueryNames(m))
  {
    hide Snake, Camel, AllCaps, RUST_KW, Lowered, Digits;
    forall i, j | 0 <= i < j < |m.params| ensures QueryNames(m)[i] != QueryNames(m)[j] {
      var p, q := m.params[i], m.params[j];
      assert PlainNamed(p) && PlainNamed(q) && p.name != q.name;
      if Snake(p.name.value) == Snake(q.name.value) {
        SnakeInjective(p.name.value, q.name.value);
      }
    }
  }

  /** A parameter called as a key of the class stands beside it. */
  lemma {:induction false} QueryRepeatsKey(spec: Spec, m: Method, fn: string, ret: (CTy, RTy), k: nat)
    requires QueryParamsOk(spec, m) && |m.params| == 1 && k < |spec.args|
    requires QueryParamName(m.params[0], 0) == spec.args[k].name
    ensures !Readable(spec, QueryUnit(spec, m, fn, ret))
  {
    QueryNamesExactly(spec, m, fn, ret);
    hide QueryUnit, QueryParamName, Own, Reserved, ParseCalls;
    assert spec.args[k].name in KeySet(spec) by { assert spec.args[k] in spec.args; }
    assert QueryNames(m)[0] in QueryNames(m);
  }
}
