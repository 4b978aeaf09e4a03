/** What a generated setter does when it is called through the registry, and what runs of
    `add_setter` keep. */
module SetterLaws {
  import opened Options
  import opened Text
  import opened Names
  import opened CppTypes
  import opened Targets
  import opened Bindings
  import opened EmitLaws
  import opened Setters
  import opened SetterTypes

  // ---- the meaning of a call ---------------------------------------------------------------

  /** A value as it crosses the bridge. */
  datatype Val = IntV(i: int) | FlagV(b: bool) | RealV(r: real) | TextV(s: string)

  /** An argument of the original method. */
  datatype Actual = ScalarArg(v: Val) | StringArg(s: string) | CharsArg(s: string) | EnumArg(ty: string, s: string)
                  | ObjectArg(resolver: string, target: string, name: string)
                  | StructArg(ty: string, parts: seq<Val>)

  /** The argument is of the kind the marshalled parameter takes. */
  predicate Fits(m: Marshal, a: Actual) {
    match m
    case Expand(ty, suffixes) => a.StructArg? && a.ty == ty && |a.parts| == |suffixes|
    case One(_, _, FPlain) => a.ScalarArg?
    case One(_, _, FString) => a.StringArg?
    case One(_, _, FChars) => a.CharsArg?
    case One(_, _, FEnum(ty)) => a.EnumArg? && a.ty == ty
    case One(_, _, FObject(resolver, target)) => a.ObjectArg? && a.resolver == resolver && a.target == target
  }

  /** The scalars a caller of the flattened function passes for the argument. */
  function Flatten(m: Marshal, a: Actual): (vs: seq<Val>)
    requires Fits(m, a)
    ensures |vs| == Width(m)
  {
    match a
    case StructArg(_, parts) => parts
    case ScalarArg(v) => [v]
    case StringArg(s) => [TextV(s)]
    case CharsArg(s) => [TextV(s)]
    case EnumArg(_, s) => [TextV(s)]
    case ObjectArg(_, _, n) => [TextV(n)]
  }

  type Env = map<string, Val>

  /** What the C++ call site makes of one argument expression: a parameter of the name of a function the
      expression calls hides that function. */
  function Eval(e: Expr, env: Env): Option<Actual> {
    match e
    case Construct(ty, names) =>
      if forall i | 0 <= i < |names| :: names[i] in env
      then Some(StructArg(ty, seq(|names|, i requires 0 <= i < |names| && names[i] in env => env[names[i]])))
      else None
    case Use(form, n) =>
      if n !in env || exists f | f in Calls(form) :: f in env then None
      else
        match form
        case FPlain => Some(ScalarArg(env[n]))
        case FString => if env[n].TextV? then Some(StringArg(env[n].s)) else None
        case FChars => if env[n].TextV? then Some(CharsArg(env[n].s)) else None
        case FEnum(ty) => if env[n].TextV? then Some(EnumArg(ty, env[n].s)) else None
        case FObject(r, t) => if env[n].TextV? then Some(ObjectArg(r, t, env[n].s)) else None
  }

  /** Positional binding of the parameters of a function to the values it is called with. */
  function Bind(names: seq<string>, vals: seq<Val>): Env
    requires |names| == |vals|
  {
    if names == [] then map[] else Bind(names[1..], vals[1..])[names[0] := vals[0]]
  }

  predicate Holds(env: Env, names: seq<string>, vals: seq<Val>) {
    |names| == |vals| && forall j | 0 <= j < |names| :: names[j] in env && env[names[j]] == vals[j]
  }

  lemma {:induction false} BindNames(names: seq<string>, vals: seq<Val>)
    requires |names| == |vals|
    ensures forall n :: n in Bind(names, vals) <==> n in names
  {
    if names != [] {
      BindNames(names[1..], vals[1..]);
      assert names == [names[0]] + names[1..];
    }
  }

  lemma {:induction false} BindBinds(names: seq<string>, vals: seq<Val>)
    requires |names| == |vals| && NoDup(names)
    ensures Holds(Bind(names, vals), names, vals)
  {
    if names != [] {
      assert forall i, j | 0 <= i < j < |names[1..]| :: names[1..][i] == names[i + 1] && names[1..][j] == names[j + 1];
      BindBinds(names[1..], vals[1..]);
      var env := Bind(names[1..], vals[1..]);
      forall j | 1 <= j < |names| ensures names[j] in env && env[names[j]] == vals[j] && names[j] != names[0] {
        assert names[1..][j - 1] == names[j] && vals[1..][j - 1] == vals[j];
      }
    }
  }

  predicate AllFit(ms: seq<Marshal>, args: seq<Actual>) {
    |ms| == |args| && forall i | 0 <= i < |ms| :: Fits(ms[i], args[i])
  }

  function FlattenAll(ms: seq<Marshal>, args: seq<Actual>): (vs: seq<Val>)
    requires AllFit(ms, args)
    ensures |vs| == |AllTypes(ms)|
  {
    if ms == [] then []
    else
      assert AllFit(ms[1..], args[1..]);
      Flatten(ms[0], args[0]) + FlattenAll(ms[1..], args[1..])
  }

  lemma {:induction false} EvalOne(m: Marshal, names: seq<string>, a: Actual, env: Env)
    requires Fits(m, a) && |names| == Width(m) && Holds(env, names, Flatten(m, a))
    requires m.One? ==> forall f | f in Calls(m.form) :: f !in env
    ensures Eval(ExprOf(m, names), env) == Some(a)
  {
    if m.Expand? {
      var parts := seq(|names|, i requires 0 <= i < |names| && names[i] in env => env[names[i]]);
      assert parts == a.parts;
    } else {
      assert names[0] in env && env[names[0]] == Flatten(m, a)[0];
    }
  }

  lemma {:induction false} BoundSplit(env: Env, a: seq<string>, b: seq<string>, x: seq<Val>, y: seq<Val>)
    requires Holds(env, a + b, x + y) && |a| == |x|
    ensures Holds(env, a, x) && Holds(env, b, y)
  {
    forall j | 0 <= j < |a| ensures a[j] in env && env[a[j]] == x[j] {
      assert (a + b)[j] == a[j] && (x + y)[j] == x[j];
    }
    forall j | 0 <= j < |b| ensures b[j] in env && env[b[j]] == y[j] {
      assert (a + b)[|a| + j] == b[j] && (x + y)[|x| + j] == y[j];
    }
  }

  /** Reassembling what was flattened gives back every argument, if no function is hidden. */
  lemma {:induction false} EvalAll(ms: seq<Marshal>, names: seq<seq<string>>, args: seq<Actual>, env: Env, i: nat)
    requires AllFit(ms, args) && |names| == |ms| && i < |ms|
    requires forall k | 0 <= k < |ms| :: |names[k]| == Width(ms[k])
    requires Holds(env, Flat(names), FlattenAll(ms, args)) && forall f | f in CallsOf(ms) :: f !in env
    ensures Eval(ExprOf(ms[i], names[i]), env) == Some(args[i])
    decreases i
  {
    assert AllFit(ms[1..], args[1..]);
    BoundSplit(env, names[0], Flat(names[1..]), Flatten(ms[0], args[0]), FlattenAll(ms[1..], args[1..]));
    if i == 0 {
      EvalOne(ms[0], names[0], args[0], env);
    } else {
      EvalAll(ms[1..], names[1..], args[1..], env, i - 1);
    }
  }

  // ---- the registry arm --------------------------------------------------------------------

  type Parser = (RTy, string) -> Option<Val>

  /** What the dispatch arm passes at one position: a key, or the value parsed at the position's type. */
  function Supply(feed: Feed, keys: seq<Val>, values: seq<string>, parse: Parser): Option<Val> {
    match feed
    case KeyStr(i) => if i < |keys| then Some(keys[i]) else None
    case KeyIdx(i) => if i < |keys| then Some(keys[i]) else None
    case ValueAt(j, r) =>
      if j >= |values| then None else if r == RStr then Some(TextV(values[j])) else parse(r, values[j])
  }

  /** The arm passes as many arguments as the wrapper, the bridge and the definition take; after the
      keys, position `j` takes `values[j]`, parsed at the type the bridge gives that parameter. */
  lemma {:induction false} ArmFeedsInOrder(tbl: seq<Spec>, spec: Spec, m: Method, j: nat)
    requires MarshalAll(tbl, m.params).Some? && j < |Compiled(tbl, spec, m).names|
    ensures var names := Compiled(tbl, spec, m).names;
            && |SetterEntry(tbl, spec, m).feeds| == |spec.args| + |names|
            && ParamsAgree(SetterApi(tbl, spec, m).params, SetterDecl(tbl, spec, m).params, |spec.args|, names)
    ensures var p := |spec.args| + j;
            SetterEntry(tbl, spec, m).feeds[p] == ValueAt(j, SetterApi(tbl, spec, m).params[p].ty)
  {
    hide *;
    var s := Compiled(tbl, spec, m);
    SetterParts(tbl, spec, m);
    FlatAgree(s, KeyC(spec), KeyR(spec), |spec.args|);
    FeedAt(spec, s, j);
  }

  /** Both parameter lists have the given names after the keys. */
  predicate ParamsAgree(rs: seq<Arg<RTy>>, cs: seq<Arg<CTy>>, keys: nat, names: seq<string>) {
    && |rs| == |cs| == keys + |names|
    && forall j | 0 <= j < |names| :: rs[keys + j].name == cs[keys + j].name == names[j]
  }

  lemma {:induction false} FlatAgree(s: Flattened, keysC: seq<Arg<CTy>>, keysR: seq<Arg<RTy>>, k: nat)
    requires |s.names| == |s.types| && |keysC| == |keysR| == k
    ensures |keysR + FlatR(s)| == k + |s.names| && ParamsAgree(keysR + FlatR(s), keysC + FlatC(s), k, s.names)
    ensures forall j | 0 <= j < |s.names| :: (keysR + FlatR(s))[k + j].ty == s.types[j].1
  {
  }

  lemma {:induction false} SetterParts(tbl: seq<Spec>, spec: Spec, m: Method)
    requires MarshalAll(tbl, m.params).Some?
    ensures var s := Compiled(tbl, spec, m);
            && SetterEntry(tbl, spec, m).feeds == Feeds(spec, s)
            && SetterApi(tbl, spec, m).params == KeyR(spec) + FlatR(s)
            && SetterDecl(tbl, spec, m).params == KeyC(spec) + FlatC(s)
  {
    hide Compiled, FnName, Snake, KeyC, KeyR, Feeds, FlatC, FlatR, MarshalAll;
  }

  lemma {:induction false} FeedAt(spec: Spec, s: Flattened, j: nat)
    requires j < |s.types|
    ensures |Feeds(spec, s)| == |spec.args| + |s.types| && Feeds(spec, s)[|spec.args| + j] == ValueAt(j, s.types[j].1)
  {
  }

  lemma {:induction false} KeySetIs(spec: Spec)
    ensures forall n :: n in KeySet(spec) <==> n in ArgNames(KeyC(spec))
  {
    var keys := ArgNames(KeyC(spec));
    forall n | n in KeySet(spec) ensures n in keys {
      var k :| k in spec.args && k.name == n;
      var i :| 0 <= i < |spec.args| && spec.args[i] == k;
      assert keys[i] == n;
    }
    assert forall i | 0 <= i < |keys| :: spec.args[i] in spec.args && keys[i] == spec.args[i].name;
  }

  /** The keys of the class are pairwise different and none is a name the text uses for itself. */
  predicate KeysScoped(spec: Spec, own: set<string>) {
    NoDup(ArgNames(KeyC(spec))) && forall k | k in KeySet(spec) :: k !in own
  }

  /** The table sees to that. */
  lemma {:induction false} TableKeys(tbl: seq<Spec>, spec: Spec, ps: seq<Param>)
    requires MarshalAll(tbl, ps).Some?
    ensures KeysScoped(spec, Own(spec, MarshalAll(tbl, ps).value))
  {
    TableNames(tbl, spec, ps);
    KeysDiffer(spec);
    hide MarshalAll, Own, IsFallback, ArgNames, KeyC;
  }

  lemma {:induction false} KeysDiffer(spec: Spec)
    ensures NoDup(ArgNames(KeyC(spec)))
  {
    var args: Keys := spec.args;
    assert Differ(args);
    assert forall i | 0 <= i < |args| :: ArgNames(KeyC(spec))[i] == args[i].name;
    hide ArgNames, KeyC;
  }

  /** The names of the whole definition, keys first, are in order exactly when those of the values are
      new to a scope that has the keys and the text's own names. */
  lemma {:induction false} ScopeExactly(spec: Spec, names: seq<string>, ms: seq<Marshal>)
    requires KeysScoped(spec, Own(spec, ms))
    ensures var all := ArgNames(KeyC(spec)) + names;
            Fresh(names, KeySet(spec) + Own(spec, ms))
            <==> NoDup(["h"] + all + ["p"]) && (forall n | n in all :: n !in Own(spec, ms))
  {
    var keys, own := ArgNames(KeyC(spec)), Own(spec, ms);
    var all := keys + names;
    KeySetIs(spec);
    NoDupAppend(keys, names);
    NoDupAppend(["h"] + all, ["p"]);
    NoDupAppend(["h"], all);
    assert "h" in own && "p" in own;
    hide NoDup, ArgNames, KeyC, KeySet, Own;
    assert forall n :: n in all <==> n in keys || n in names;
    assert NoDup(["h"]) && NoDup(["p"]) by { SinglesDiffer("h"); SinglesDiffer("p"); }
  }

  lemma {:induction false} SinglesDiffer(n: string)
    ensures NoDup([n])
  {
  }

  lemma {:induction false} ArgNamesAppend<T>(a: seq<Arg<T>>, b: seq<Arg<T>>)
    ensures ArgNames(a + b) == ArgNames(a) + ArgNames(b)
  {
  }

  lemma {:induction false} FlatNames(s: Flattened)
    requires |s.names| == |s.types|
    ensures ArgNames(FlatC(s)) == s.names
  {
  }

  lemma {:induction false} DeclNames(tbl: seq<Spec>, spec: Spec, m: Method)
    requires MarshalAll(tbl, m.params).Some?
    ensures ArgNames(SetterDecl(tbl, spec, m).params) == ArgNames(KeyC(spec)) + Compiled(tbl, spec, m).names
  {
    hide Compiled, ArgNames, FlatC, KeyC, FnName;
    ArgNamesAppend(KeyC(spec), FlatC(Compiled(tbl, spec, m)));
    FlatNames(Compiled(tbl, spec, m));
  }

  /** One call through the registry: the keys and the value strings given, the arguments meant, and
      the values that reach the C++ function in order. */
  datatype Call = Call(keys: seq<Val>, values: seq<string>, args: seq<Actual>, actuals: seq<Val>)

  /** The arguments are of the kinds the parameters take, and there is a key for every key. */
  ghost predicate Typed(tbl: seq<Spec>, spec: Spec, m: Method, call: Call)
    requires MarshalAll(tbl, m.params).Some?
  {
    |call.keys| == |spec.args| && AllFit(MarshalAll(tbl, m.params).value, call.args)
  }

  /** What the arguments are flattened to. */
  ghost function Meant(tbl: seq<Spec>, spec: Spec, m: Method, call: Call): (vals: seq<Val>)
    requires MarshalAll(tbl, m.params).Some? && Typed(tbl, spec, m, call)
    ensures |vals| == |Compiled(tbl, spec, m).types|
  {
    hide AllTypes;
    CompiledIs(tbl, spec, m, MarshalAll(tbl, m.params).value);
    FlattenAll(MarshalAll(tbl, m.params).value, call.args)
  }

  /** Every value string parses, at its parameter's type, to the scalar that was meant. */
  ghost predicate Parses(tbl: seq<Spec>, spec: Spec, m: Method, call: Call, parse: Parser)
    requires MarshalAll(tbl, m.params).Some? && Typed(tbl, spec, m, call)
  {
    var types, vals := Compiled(tbl, spec, m).types, Meant(tbl, spec, m, call);
    forall j | 0 <= j < |vals| :: Supply(ValueAt(j, types[j].1), call.keys, call.values, parse) == Some(vals[j])
  }

  /** The values are what the dispatch arm supplies, position by position. */
  ghost predicate Dispatched(feeds: seq<Feed>, call: Call, parse: Parser) {
    && |call.actuals| == |feeds|
    && forall p | 0 <= p < |feeds| :: Supply(feeds[p], call.keys, call.values, parse) == Some(call.actuals[p])
  }

  /** The definition `(h, params) { p = resolver(h, keys); p->method(exprs) }` and the declaration that
      calls the handle `db` have no name twice, the resolver is not hidden, and with the parameters bound
      to the values the resolver's keys are the caller's and every argument expression of the call
      rebuilds the argument that was meant. */
  ghost predicate Carries(decl: Decl, exprs: seq<Expr>, spec: Spec, call: Call) {
    && |decl.params| == |call.actuals|
    && NoDup(["h"] + ArgNames(decl.params) + ["p"]) && "db" !in ArgNames(decl.params)
    && spec.resolver !in ArgNames(decl.params)
    && var env := Bind(ArgNames(decl.params), call.actuals);
    && Holds(env, ArgNames(KeyC(spec)), call.keys)
    && |exprs| == |call.args|
    && forall i | 0 <= i < |exprs| :: Eval(exprs[i], env) == Some(call.args[i])
  }

  lemma {:induction false} FeedCount(spec: Spec, s: Flattened)
    ensures |Feeds(spec, s)| == |spec.args| + |s.types|
  {
  }

  lemma {:induction false} ValueSupplied(tbl: seq<Spec>, spec: Spec, m: Method, call: Call, parse: Parser, j: nat)
    requires MarshalAll(tbl, m.params).Some? && Typed(tbl, spec, m, call) && Parses(tbl, spec, m, call, parse)
    requires j < |Meant(tbl, spec, m, call)|
    ensures var types := Compiled(tbl, spec, m).types;
            Supply(ValueAt(j, types[j].1), call.keys, call.values, parse) == Some(Meant(tbl, spec, m, call)[j])
  {
    hide Compiled, Supply, Meant, MarshalAll, Typed;
  }

  lemma {:induction false} ActualsAre(tbl: seq<Spec>, spec: Spec, m: Method, call: Call, parse: Parser)
    requires MarshalAll(tbl, m.params).Some? && Typed(tbl, spec, m, call) && Parses(tbl, spec, m, call, parse)
    requires Dispatched(Feeds(spec, Compiled(tbl, spec, m)), call, parse)
    ensures call.actuals == call.keys + Meant(tbl, spec, m, call)
  {
    var s, vals := Compiled(tbl, spec, m), Meant(tbl, spec, m, call);
    assert |call.keys| == |spec.args| && |call.actuals| == |Feeds(spec, s)|;
    assert forall p | 0 <= p < |call.actuals| ::
      Supply(Feeds(spec, s)[p], call.keys, call.values, parse) == Some(call.actuals[p]);
    hide *;
    FeedCount(spec, s);
    assert |call.actuals| == |call.keys + vals|;
    forall p | 0 <= p < |call.actuals| ensures call.actuals[p] == (call.keys + vals)[p] {
      if p >= |call.keys| {
        var j := p - |call.keys|;
        FeedAt(spec, s, j);
        ValueSupplied(tbl, spec, m, call, parse, j);
      } else {
        KeyFed(spec, s, p, call.keys, call.values, parse);
      }
    }
  }

  lemma {:induction false} CarriesExactly(tbl: seq<Spec>, spec: Spec, m: Method, ms: seq<Marshal>, call: Call,
                                          parse: Parser)
    requires MarshalAll(tbl, m.params) == Some(ms) && |ms| == |m.params|
    requires Typed(tbl, spec, m, call) && Parses(tbl, spec, m, call, parse)
    requires Dispatched(SetterEntry(tbl, spec, m).feeds, call, parse)
    ensures Carries(SetterDecl(tbl, spec, m), Compiled(tbl, spec, m).args, spec, call)
       <==> Fresh(Compiled(tbl, spec, m).names, KeySet(spec) + Own(spec, ms))
  {
    var names := Compiled(tbl, spec, m).names;
    TableKeys(tbl, spec, m.params);
    ScopeExactly(spec, names, ms);
    hide Scoped, Fresh, KeysScoped;
    if Fresh(names, KeySet(spec) + Own(spec, ms)) {
      ScopedDelivers(tbl, spec, m, ms, call, parse);
    } else if Carries(SetterDecl(tbl, spec, m), Compiled(tbl, spec, m).args, spec, call) {
      CarriesScoped(tbl, spec, m, ms, call);
    }
  }

  lemma {:induction false} CarriesScoped(tbl: seq<Spec>, spec: Spec, m: Method, ms: seq<Marshal>, call: Call)
    requires MarshalAll(tbl, m.params) == Some(ms)
    requires Carries(SetterDecl(tbl, spec, m), Compiled(tbl, spec, m).args, spec, call)
    ensures var all := ArgNames(KeyC(spec)) + Compiled(tbl, spec, m).names;
            NoDup(["h"] + all + ["p"]) && forall n | n in all :: n !in Own(spec, ms)
  {
    hide *;
    var all := ArgNames(KeyC(spec)) + Compiled(tbl, spec, m).names;
    var exprs := Compiled(tbl, spec, m).args;
    DeclNames(tbl, spec, m);
    CarriesMeans(SetterDecl(tbl, spec, m), exprs, spec, call);
    CompiledIs(tbl, spec, m, ms);
    BindNames(all, call.actuals);
    var env := Bind(all, call.actuals);
    forall n | n in all ensures n !in Own(spec, ms) {
      EndsDiffer(all, n);
      NoneHidden(ms, Choose(ms, m.params, 0, KeySet(spec)), exprs, call.args, env, n);
      if n in Own(spec, ms) {
        OwnIs(spec, ms, n);
      }
    }
  }

  lemma {:induction false} OwnIs(spec: Spec, ms: seq<Marshal>, n: string)
    requires n in Own(spec, ms)
    ensures n == "db" || n == "h" || n == "p" || n == spec.resolver || n in CallsOf(ms)
  {
  }

  lemma {:induction false} CarriesMeans(decl: Decl, exprs: seq<Expr>, spec: Spec, call: Call)
    requires Carries(decl, exprs, spec, call)
    ensures var names := ArgNames(decl.params);
            && |names| == |call.actuals| && |exprs| == |call.args|
            && NoDup(["h"] + names + ["p"]) && "db" !in names && spec.resolver !in names
            && forall i | 0 <= i < |exprs| :: Eval(exprs[i], Bind(names, call.actuals)) == Some(call.args[i])
  {
  }

  lemma {:induction false} NoneHidden(ms: seq<Marshal>, chosen: seq<seq<string>>, exprs: seq<Expr>, args: seq<Actual>,
                                      env: Env, n: string)
    requires |chosen| == |exprs| == |args| == |ms| && n in env
    requires forall i | 0 <= i < |ms| :: |chosen[i]| == Width(ms[i]) && exprs[i] == ExprOf(ms[i], chosen[i])
    requires forall i | 0 <= i < |ms| :: Eval(exprs[i], env) == Some(args[i])
    ensures n !in CallsOf(ms)
  {
    hide Eval, ExprOf;
    if n in CallsOf(ms) {
      var i := CalledBy(ms, n);
      HiddenFails(ms[i], chosen[i], n, env);
    }
  }

  lemma {:induction false} EndsDiffer(all: seq<string>, n: string)
    requires NoDup(["h"] + all + ["p"]) && n in all
    ensures n != "h" && n != "p"
  {
    var i :| 0 <= i < |all| && all[i] == n;
    var s := ["h"] + all + ["p"];
    assert s[0] == "h" && s[i + 1] == n && s[|s| - 1] == "p";
  }

  lemma {:induction false} CalledBy(ms: seq<Marshal>, f: string) returns (i: nat)
    requires f in CallsOf(ms)
    ensures i < |ms| && ms[i].One? && f in Calls(ms[i].form)
  {
    if ms[0].One? && f in Calls(ms[0].form) {
      i := 0;
    } else {
      i := CalledBy(ms[1..], f);
      i := i + 1;
    }
  }

  lemma {:induction false} HiddenFails(m: Marshal, names: seq<string>, f: string, env: Env)
    requires m.One? && f in Calls(m.form) && f in env && |names| == Width(m)
    ensures Eval(ExprOf(m, names), env) == None
  {
  }

  lemma {:induction false} ScopedDelivers(tbl: seq<Spec>, spec: Spec, m: Method, ms: seq<Marshal>, call: Call,
                                          parse: Parser)
    requires MarshalAll(tbl, m.params) == Some(ms)
    requires var all := ArgNames(KeyC(spec)) + Compiled(tbl, spec, m).names;
             NoDup(["h"] + all + ["p"]) && forall n | n in all :: n !in Own(spec, ms)
    requires Typed(tbl, spec, m, call) && Parses(tbl, spec, m, call, parse)
    requires Dispatched(SetterEntry(tbl, spec, m).feeds, call, parse)
    ensures Carries(SetterDecl(tbl, spec, m), Compiled(tbl, spec, m).args, spec, call)
  {
    assert SetterEntry(tbl, spec, m).feeds == Feeds(spec, Compiled(tbl, spec, m));
    assert "db" in Own(spec, ms) && spec.resolver in Own(spec, ms) && CallsOf(ms) <= Own(spec, ms);
    var keys, names, vals := ArgNames(KeyC(spec)), Compiled(tbl, spec, m).names, Meant(tbl, spec, m, call);
    var all := keys + names;
    NoDupAppend(["h"] + all, ["p"]);
    NoDupAppend(["h"], all);
    hide MarshalAll, Compiled, Typed, Meant, Parses, Dispatched, SetterDecl, SetterEntry, KeyC, ArgNames, KeySet,
           Supply, Feeds;
    hide Eval, Bind, Holds, NoDup, Own, CallsOf;
    DeclNames(tbl, spec, m);
    ActualsAre(tbl, spec, m, call, parse);
    KeyCount(spec, call, tbl, m);
    BindBinds(all, call.actuals);
    BindNames(all, call.actuals);
    var env := Bind(all, call.actuals);
    BoundSplit(env, keys, names, call.keys, vals);
    ArgsEval(tbl, spec, m, call, env);
  }

  lemma {:induction false} KeyCount(spec: Spec, call: Call, tbl: seq<Spec>, m: Method)
    requires MarshalAll(tbl, m.params).Some? && Typed(tbl, spec, m, call)
    ensures |ArgNames(KeyC(spec))| == |call.keys| == |KeyC(spec)|
  {
  }

  lemma {:induction false} KeyFed(spec: Spec, s: Flattened, p: nat, keys: seq<Val>, values: seq<string>, parse: Parser)
    requires p < |spec.args| == |keys|
    ensures Supply(Feeds(spec, s)[p], keys, values, parse) == Some(keys[p])
  {
  }

  lemma {:induction false} ArgsEval(tbl: seq<Spec>, spec: Spec, m: Method, call: Call, env: Env)
    requires MarshalAll(tbl, m.params).Some? && Typed(tbl, spec, m, call)
    requires Holds(env, Compiled(tbl, spec, m).names, Meant(tbl, spec, m, call))
    requires forall f | f in CallsOf(MarshalAll(tbl, m.params).value) :: f !in env
    ensures var exprs := Compiled(tbl, spec, m).args;
            |exprs| == |call.args| && forall i | 0 <= i < |exprs| :: Eval(exprs[i], env) == Some(call.args[i])
  {
    hide MarshalAll, Compiled, Choose, FlattenAll, Flat, Eval, ExprOf, Fits, AllTypes;
    var ms := MarshalAll(tbl, m.params).value;
    CompiledIs(tbl, spec, m, ms);
    var names := Choose(ms, m.params, 0, KeySet(spec));
    forall i | 0 <= i < |call.args| ensures Eval(Compiled(tbl, spec, m).args[i], env) == Some(call.args[i]) {
      EvalAll(ms, names, call.args, env, i);
    }
  }

  // ---- the text that is built --------------------------------------------------------------

  /** The parameters after the keys have legal names in both languages, and every argument of the call can
      initialise the parameter of the method that the header declares. */
  ghost predicate Builds(decl: Decl, exprs: seq<Expr>, keys: nat, ts: seq<CppType>) {
    && (forall j | keys <= j < |decl.params| :: IsIdent(decl.params[j].name) && decl.params[j].name !in Reserved())
    && |exprs| == |ts| && forall i | 0 <= i < |ts| :: Initialises(exprs[i], ts[i], decl.params)
  }

  /** What a header is: every parameter has the text of its C++ type, and a name, if any, that is one. */
  predicate Declares(ps: seq<Param>, ts: seq<CppType>) {
    && |ps| == |ts|
    && forall i | 0 <= i < |ps| ::
         SpelledType(ps[i].ty, ts[i]) && (ps[i].name.Some? ==> IsIdent(ps[i].name.value))
  }

  lemma {:induction false} TailWords(t: string)
    requires forall i | 0 <= i < |t| :: WordChar(t[i])
    ensures forall i | 0 <= i < |SnakeTail(t)| :: WordChar(SnakeTail(t)[i])
  {
    if t != "" {
      TailWords(t[1..]);
    }
  }

  lemma {:induction false} OfferedIdent(p: Param)
    requires p.name.Some? ==> IsIdent(p.name.value)
    ensures Offered(p) == "" || IsIdent(Offered(p))
  {
    if p.name.Some? {
      var n := p.name.value;
      TailWords(n[1..]);
      assert WordChar(ToLower(n[0])) && NameStart(ToLower(n[0]));
    }
  }

  lemma {:induction false} FallbackIdent(i: nat, s: string)
    requires forall k | 0 <= k < |s| :: WordChar(s[k])
    ensures IsIdent(Fallback(i)) && IsIdent(FallbackPart(i, s))
  {
    DigitsSolid(i);
    var d := Digits(i);
    hide Digits;
    assert Fallback(i)[1..] == d;
  }

  lemma {:induction false} PartsIdent(i: nat, suffixes: seq<string>, used: set<string>)
    requires forall s | s in suffixes :: IsIdent(s)
    ensures forall n | n in PartNames(i, suffixes, used) :: IsIdent(n)
    decreases |suffixes|
  {
    hide IsIdent, FallbackPart;
    if suffixes != [] {
      var s := suffixes[0];
      assert IsIdent(s) by { assert s in suffixes; }
      IdentWords(s);
      FallbackIdent(i, s);
      PartsIdent(i, suffixes[1..], used + {if s in used then FallbackPart(i, s) else s});
    }
  }

  lemma {:induction false} IdentWords(s: string)
    requires IsIdent(s)
    ensures forall k | 0 <= k < |s| :: WordChar(s[k])
  {
  }

  lemma {:induction false} ParamIdent(m: Marshal, p: Param, i: nat, used: set<string>)
    requires GoodSuffixes(m) && (p.name.Some? ==> IsIdent(p.name.value))
    ensures forall n | n in NamesFor(m, p, i, used) :: IsIdent(n)
  {
    if m.One? {
      OfferedIdent(p);
      FallbackIdent(i, "");
      hide IsIdent, Fallback, Offered, RUST_KW;
    } else {
      assert IsIdent("x") && IsIdent("y") && IsIdent("z");
      hide IsIdent;
      PartsIdent(i, m.suffixes, used);
    }
  }

  lemma {:induction false} ChosenIdent(ms: seq<Marshal>, ps: seq<Param>, i: nat, used: set<string>)
    requires |ms| == |ps| && i <= |ms| && forall k | 0 <= k < |ms| :: GoodSuffixes(ms[k])
    requires forall k | 0 <= k < |ps| && ps[k].name.Some? :: IsIdent(ps[k].name.value)
    ensures forall n | n in Flat(Choose(ms, ps, i, used)) :: IsIdent(n)
    decreases |ms| - i
  {
    hide IsIdent, GoodSuffixes;
    if i < |ms| {
      var here := NamesFor(ms[i], ps[i], i, used);
      ParamIdent(ms[i], ps[i], i, used);
      ChosenIdent(ms, ps, i + 1, used + Elements(here));
      var rest := Choose(ms, ps, i + 1, used + Elements(here));
      hide Choose, NamesFor;
      assert ([here] + rest)[1..] == rest;
      assert Flat([here] + rest) == here + Flat(rest);
    }
  }

  /** Where a flattened name stands, its type stands too. */
  lemma {:induction false} FlatPlace(ms: seq<Marshal>, names: seq<seq<string>>, i: nat, k: nat) returns (j: nat)
    requires |names| == |ms| && i < |ms| && forall n | 0 <= n < |ms| :: |names[n]| == Width(ms[n])
    requires k < Width(ms[i])
    ensures j < |Flat(names)| && j < |AllTypes(ms)|
    ensures Flat(names)[j] == names[i][k] && AllTypes(ms)[j] == TypesOf(ms[i])[k]
    decreases i
  {
    if i == 0 {
      j := k;
    } else {
      j := FlatPlace(ms[1..], names[1..], i - 1, k);
      j := Width(ms[0]) + j;
    }
  }

  lemma {:induction false} PlacedAt(tbl: seq<Spec>, spec: Spec, m: Method, ms: seq<Marshal>, i: nat)
    requires MarshalAll(tbl, m.params) == Some(ms) && |ms| == |m.params| && i < |ms|
    ensures Placed(ms[i], Choose(ms, m.params, 0, KeySet(spec))[i], SetterDecl(tbl, spec, m).params)
  {
    var all, s := Choose(ms, m.params, 0, KeySet(spec)), Compiled(tbl, spec, m);
    var params := SetterDecl(tbl, spec, m).params;
    CompiledIs(tbl, spec, m, ms);
    SetterParts(tbl, spec, m);
    hide Choose, Compiled, SetterDecl, MarshalAll, Flat, AllTypes, TypesOf, Width, KeyC, KeySet;
    forall k | 0 <= k < |all[i]| ensures Arg(all[i][k], TypesOf(ms[i])[k].0) in params {
      var j := FlatPlace(ms, all, i, k);
      assert FlatC(s)[j] == Arg(all[i][k], TypesOf(ms[i])[k].0);
      assert params[|KeyC(spec)| + j] == FlatC(s)[j];
    }
  }

  lemma {:induction false} DeclAt(tbl: seq<Spec>, spec: Spec, m: Method)
    requires MarshalAll(tbl, m.params).Some?
    ensures var params, names := SetterDecl(tbl, spec, m).params, Compiled(tbl, spec, m).names;
            && |params| == |spec.args| + |names|
            && forall j | 0 <= j < |names| :: params[|spec.args| + j].name == names[j]
  {
    hide *;
    SetterParts(tbl, spec, m);
    AfterKeyNames(KeyC(spec), Compiled(tbl, spec, m));
  }

  lemma {:induction false} AfterKeyNames(keys: seq<Arg<CTy>>, s: Flattened)
    requires |s.names| == |s.types|
    ensures var params := keys + FlatC(s);
            && |params| == |keys| + |s.names|
            && forall j | 0 <= j < |s.names| :: params[|keys| + j].name == s.names[j]
  {
  }

  lemma {:induction false} MarshalledAt(tbl: seq<Spec>, ps: seq<Param>, ms: seq<Marshal>, i: nat)
    requires MarshalAll(tbl, ps) == Some(ms) && i < |ps|
    ensures |ms| == |ps| && MarshalParam(tbl, ps[i]) == Some(ms[i])
  {
    MarshalAllLength(tbl, ps);
    hide MarshalAll, MarshalParam;
  }

  lemma {:induction false} InitialisesExactly(tbl: seq<Spec>, spec: Spec, m: Method, ms: seq<Marshal>,
                                              ts: seq<CppType>, i: nat)
    requires MarshalAll(tbl, m.params) == Some(ms) && |ms| == |m.params| && Declares(m.params, ts) && i < |ms|
    ensures |Compiled(tbl, spec, m).args| == |ms|
    ensures Initialises(Compiled(tbl, spec, m).args[i], ts[i], SetterDecl(tbl, spec, m).params) <==> Takes(ts[i])
  {
    var all := Choose(ms, m.params, 0, KeySet(spec));
    CompiledIs(tbl, spec, m, ms);
    assert SpelledType(m.params[i].ty, ts[i]);
    hide *;
    PlacedAt(tbl, spec, m, ms, i);
    MarshalledAt(tbl, m.params, ms, i);
    ParamTakes(tbl, m.params[i], ts[i], ms[i], all[i], SetterDecl(tbl, spec, m).params);
  }

  lemma {:induction false} BuildsExactly(tbl: seq<Spec>, spec: Spec, m: Method, ms: seq<Marshal>, ts: seq<CppType>)
    requires MarshalAll(tbl, m.params) == Some(ms) && |ms| == |m.params| && Declares(m.params, ts)
    ensures Builds(SetterDecl(tbl, spec, m), Compiled(tbl, spec, m).args, |spec.args|, ts)
       <==> (forall n | n in Compiled(tbl, spec, m).names :: n !in Reserved())
            && forall i | 0 <= i < |ts| :: Takes(ts[i])
  {
    hide *;
    DeclAt(tbl, spec, m);
    NamesLegible(tbl, spec, m, ms, ts);
    AllInitialise(tbl, spec, m, ms, ts);
    LegalExactly(SetterDecl(tbl, spec, m), Compiled(tbl, spec, m).names, Compiled(tbl, spec, m).args, |spec.args|, ts);
  }

  lemma {:induction false} AllInitialise(tbl: seq<Spec>, spec: Spec, m: Method, ms: seq<Marshal>, ts: seq<CppType>)
    requires MarshalAll(tbl, m.params) == Some(ms) && |ms| == |m.params| && Declares(m.params, ts)
    ensures var exprs := Compiled(tbl, spec, m).args;
            && |exprs| == |ts|
            && forall i | 0 <= i < |ts| ::
                 Initialises(exprs[i], ts[i], SetterDecl(tbl, spec, m).params) <==> Takes(ts[i])
  {
    assert |ts| == |ms|;
    hide *;
    forall i | 0 <= i < |ts|
      ensures Initialises(Compiled(tbl, spec, m).args[i], ts[i], SetterDecl(tbl, spec, m).params) <==> Takes(ts[i])
    {
      InitialisesExactly(tbl, spec, m, ms, ts, i);
    }
  }

  lemma {:induction false} LegalExactly(decl: Decl, names: seq<string>, exprs: seq<Expr>, k: nat, ts: seq<CppType>)
    requires |decl.params| == k + |names| && forall j | 0 <= j < |names| :: decl.params[k + j].name == names[j]
    requires |exprs| == |ts| && forall n | n in names :: IsIdent(n)
    requires forall i | 0 <= i < |ts| :: Initialises(exprs[i], ts[i], decl.params) <==> Takes(ts[i])
    ensures Builds(decl, exprs, k, ts)
       <==> (forall n | n in names :: n !in Reserved()) && forall i | 0 <= i < |ts| :: Takes(ts[i])
  {
    hide Initialises, Takes, IsIdent, Reserved;
    assert forall j | k <= j < |decl.params| :: decl.params[j].name == names[j - k] && names[j - k] in names;
    forall n | n in names ensures exists j :: k <= j < |decl.params| && decl.params[j].name == n {
      var i :| 0 <= i < |names| && names[i] == n;
      assert decl.params[k + i].name == n;
    }
  }

  lemma {:induction false} NamesLegible(tbl: seq<Spec>, spec: Spec, m: Method, ms: seq<Marshal>, ts: seq<CppType>)
    requires MarshalAll(tbl, m.params) == Some(ms) && |ms| == |m.params| && Declares(m.params, ts)
    ensures forall n | n in Compiled(tbl, spec, m).names :: IsIdent(n)
  {
    CompiledIs(tbl, spec, m, ms);
    MarshalGood(tbl, m.params);
    hide Compiled, MarshalAll, Choose, Flat, IsIdent, GoodSuffixes, SpelledType;
    ChosenIdent(ms, m.params, 0, KeySet(spec));
  }

  lemma {:induction false} FreshMore(names: seq<string>, used: set<string>, more: set<string>)
    ensures Fresh(names, used + more) <==> Fresh(names, used) && forall n | n in names :: n !in more
  {
    hide NoDup;
  }

  /** The emitted setter is legal text in both languages, and calling it through the registry hands the
      object's method the arguments that the caller meant, and the resolver the caller's keys. */
  ghost predicate Received(decl: Decl, exprs: seq<Expr>, spec: Spec, ts: seq<CppType>, call: Call) {
    Builds(decl, exprs, |spec.args|, ts) && Carries(decl, exprs, spec, call)
  }

  /** A setter that the generator binds does what it is for if and only if the missing guard on the chosen
      names would have passed, reserved words included, and every parameter is of a known type by value,
      by constant reference or by pointer, and is not there to be written to. */
  lemma {:induction false} SetterDelivers(tbl: seq<Spec>, spec: Spec, m: Method, ms: seq<Marshal>, ts: seq<CppType>,
                                          call: Call, parse: Parser)
    requires MarshalAll(tbl, m.params) == Some(ms) && |ms| == |m.params| && Declares(m.params, ts)
    requires Typed(tbl, spec, m, call) && Parses(tbl, spec, m, call, parse)
    requires Dispatched(SetterEntry(tbl, spec, m).feeds, call, parse)
    ensures Received(SetterDecl(tbl, spec, m), Compiled(tbl, spec, m).args, spec, ts, call)
       <==> Scoped(ms, m.params, 0, KeySet(spec), Own(spec, ms) + Reserved())
            && forall i | 0 <= i < |ts| :: Takes(ts[i])
  {
    var names, own := Compiled(tbl, spec, m).names, Own(spec, ms);
    CarriesExactly(tbl, spec, m, ms, call, parse);
    BuildsExactly(tbl, spec, m, ms, ts);
    SetterNamesExactly(tbl, spec, m, ms, own + Reserved());
    FreshMore(names, KeySet(spec) + own, Reserved());
    assert KeySet(spec) + own + Reserved() == KeySet(spec) + (own + Reserved());
    hide Builds, Carries, Compiled, SetterDecl, MarshalAll, Scoped, Fresh, Takes, Own, Reserved, KeySet;
  }

  // ---- runs of `add_setter` ----------------------------------------------------------------

  function RunSetters(ctx: Ctx, spec: Spec, w: WriteSurface, seen: set<string>, ms: seq<Method>): WriteSurface
    decreases |ms|
  {
    if ms == [] then w
    else
      var m := ms[0];
      RunSetters(ctx, spec, SetterAfter(ctx, spec, m, w, seen),
                 if Binds(ctx, spec, m, seen) then seen + {FnName(spec, m)} else seen, ms[1..])
  }

  /** One name and one flattened parameter list, on both sides of the bridge, in the wrapper and in
      the registry. */
  ghost predicate SameSetter(d: Decl, def: WriteDef, fn: BridgeFn, name: string, api: ApiFn, entry: WriteEntry) {
    && name == fn.name == api.name == api.callee == entry.api == d.name
    && def.decl == d
    && fn.ret == Bridged(d.ret) && SameArgs(d.params, fn.params)
    && api.params == fn.params && api.ret == fn.ret && api.forwards == ArgNames(api.params)
    && |entry.feeds| == |api.params| == |entry.keys| + |entry.values|
  }

  /** The write buffers stay in step. */
  ghost predicate WriteInStep(w: WriteSurface) {
    && |w.wh| == |w.wcc| == |w.wbridge| == |w.wreexport| == |w.wapi| == |w.wreg|
    && forall i | 0 <= i < |w.wh| ::
      SameSetter(w.wh[i], w.wcc[i], w.wbridge[i], w.wreexport[i], w.wapi[i], w.wreg[i])
  }

  lemma {:induction false} WidthTypes(ms: seq<Marshal>)
    requires forall k | 0 <= k < |ms| :: ms[k].One? ==> ms[k].r == Bridged(ms[k].c)
    ensures forall j | 0 <= j < |AllTypes(ms)| :: AllTypes(ms)[j].1 == Bridged(AllTypes(ms)[j].0)
  {
    if ms != [] {
      WidthTypes(ms[1..]);
    }
  }

  lemma {:induction false} MarshalParamBridged(tbl: seq<Spec>, p: Param)
    requires MarshalParam(tbl, p).Some? && MarshalParam(tbl, p).value.One?
    ensures MarshalParam(tbl, p).value.r == Bridged(MarshalParam(tbl, p).value.c)
  {
    hide StructName, FindSpec, Norm, PointeeOf;
  }

  lemma {:induction false} TypesBridged(tbl: seq<Spec>, spec: Spec, m: Method)
    requires MarshalAll(tbl, m.params).Some?
    ensures forall j | 0 <= j < |Compiled(tbl, spec, m).types| ::
              Compiled(tbl, spec, m).types[j].1 == Bridged(Compiled(tbl, spec, m).types[j].0)
  {
    var ms := MarshalAll(tbl, m.params).value;
    MarshalAllLength(tbl, m.params);
    assert Compiled(tbl, spec, m).types == AllTypes(ms);
    hide MarshalAll, Compiled, AllTypes;
    forall k | 0 <= k < |ms| && ms[k].One? ensures ms[k].r == Bridged(ms[k].c) {
      assert MarshalParam(tbl, m.params[k]) == Some(ms[k]);
      hide MarshalParam;
      MarshalParamBridged(tbl, m.params[k]);
    }
    WidthTypes(ms);
  }

  lemma {:induction false} FlatSame(s: Flattened)
    requires |s.names| == |s.types| && forall j | 0 <= j < |s.types| :: s.types[j].1 == Bridged(s.types[j].0)
    ensures SameArgs(FlatC(s), FlatR(s))
  {
  }

  lemma {:induction false} NewSetterSame(tbl: seq<Spec>, spec: Spec, m: Method)
    requires MarshalAll(tbl, m.params).Some?
    ensures var d := SetterDecl(tbl, spec, m); var fn := FnName(spec, m);
            SameSetter(d, WriteDef(d, spec.resolver, m.name, Compiled(tbl, spec, m).args),
                       BridgeFn(fn, KeyR(spec) + FlatR(Compiled(tbl, spec, m)), RUnitResult), fn,
                       SetterApi(tbl, spec, m), SetterEntry(tbl, spec, m))
  {
    var s := Compiled(tbl, spec, m);
    TypesBridged(tbl, spec, m);
    FlatSame(s);
    KeysCorrespond(spec);
    SameArgsAppend(KeyC(spec), FlatC(s), KeyR(spec), FlatR(s));
    hide Compiled, FnName, SameArgs, Bridged, Snake;
    assert |FlatR(s)| == |s.types|;
    assert Bridged(CVoid) == RUnitResult by { VoidBridged(); }
  }

  lemma {:induction false} VoidBridged()
    ensures Bridged(CVoid) == RUnitResult
  {
  }

  lemma {:induction false} SetterInStep(ctx: Ctx, spec: Spec, m: Method, w: WriteSurface, seen: set<string>)
    requires WriteInStep(w)
    ensures WriteInStep(SetterAfter(ctx, spec, m, w, seen))
  {
    if Binds(ctx, spec, m, seen) {
      NewSetterSame(ctx.table, spec, m);
      hide Compiled, MarshalAll, SameSetter, SetterDecl, SetterApi, SetterEntry, FnName;
    }
  }

  predicate Unreserved(ctx: Ctx, names: seq<string>) {
    forall n | n in names :: n !in ctx.reservedFn && n !in ctx.reservedDb
  }

  lemma {:induction false} BindsAdds(ctx: Ctx, spec: Spec, m: Method, w: WriteSurface, seen: set<string>)
    ensures var u := SetterAfter(ctx, spec, m, w, seen);
            if Binds(ctx, spec, m, seen)
            then u.wreexport == w.wreexport + [FnName(spec, m)] && Unreserved(ctx, [FnName(spec, m)])
                && FnName(spec, m) !in seen
            else u == w
  {
    hide MarshalAll, FnName, SetterDecl, SetterApi, SetterEntry, Compiled, IsSetterName;
  }

  /** Every run of `add_setter` keeps the write buffers in step, emits each name once, and emits only
      names that no hand-written layer has taken. */
  lemma {:induction false} SettersInStep(ctx: Ctx, spec: Spec, w: WriteSurface, seen: set<string>, ms: seq<Method>)
    requires WriteInStep(w)
    ensures var v := RunSetters(ctx, spec, w, seen, ms);
            && WriteInStep(v) && w.wreexport <= v.wreexport
            && Fresh(v.wreexport[|w.wreexport|..], seen) && Unreserved(ctx, v.wreexport[|w.wreexport|..])
    decreases |ms|
  {
    hide Binds, SetterAfter, WriteInStep, FnName;
    if ms != [] {
      var m := ms[0];
      var u := SetterAfter(ctx, spec, m, w, seen);
      var later := if Binds(ctx, spec, m, seen) then seen + {FnName(spec, m)} else seen;
      SetterInStep(ctx, spec, m, w, seen);
      BindsAdds(ctx, spec, m, w, seen);
      SettersInStep(ctx, spec, u, later, ms[1..]);
      var v := RunSetters(ctx, spec, u, later, ms[1..]);
      if Binds(ctx, spec, m, seen) {
        var n, rest := FnName(spec, m), v.wreexport[|u.wreexport|..];
        FreshCons(n, rest, seen);
        assert v.wreexport[|w.wreexport|..] == [n] + rest;
      }
    }
  }

  // ---- class after class -------------------------------------------------------------------

  datatype SetterRow = SetterRow(spec: Spec, setters: seq<Method>)

  /** The setters of every class: the seen names start empty at each, the buffers go on. */
  function GenerateSetters(ctx: Ctx, rows: seq<SetterRow>, w: WriteSurface): WriteSurface
    decreases |rows|
  {
    if rows == [] then w
    else GenerateSetters(ctx, rows[1..], RunSetters(ctx, rows[0].spec, w, {}, rows[0].setters))
  }
}
