/** Which calls the driving loop makes for a class, and in which order. */
module Passes {
  import opened Options
  import opened Text
  import opened Bindings
  import opened EmitLaws
  import opened TypeTexts
  import opened OutReadings
  import opened Emitter

  // ---- the calls ---------------------------------------------------------------------------

  /** The pass a call belongs to: plain readers, readers of what is written to parameters, questions. */
  function Pass(op: Op): nat {
    match op
    case Add(_) => 0
    case OutParam(_) => 1
    case Query(_, _) => 2
  }

  /** Whether the pass calls its emitter on the method. */
  predicate Called(m: Method, pass: nat) {
    match pass
    case 0 => m.params == [] && (m.kind == Getter || m.kind == Predicate || m.kind == Relation || m.kind == Iterator)
    case 1 => IsGet(m.name) && (m.kind == Setter || (m.params != [] && Dense(m.ret) == "bool"))
    case 2 => m.kind != Setter && m.params != []
    case _ => false
  }

  /** Another method of the class has the same name. */
  predicate Overloaded(methods: seq<Method>, i: nat)
    requires i < |methods|
  {
    exists j :: 0 <= j < |methods| && j != i && methods[j].name == methods[i].name
  }

  lemma {:induction false} IncreasingFront(n: nat, ix: seq<nat>)
    requires Increasing(ix) && From(n + 1, ix)
    ensures Increasing([n] + ix) && From(n, [n] + ix)
  {
    var all := [n] + ix;
    assert all[0] == n;
    assert forall a | 0 <= a < |ix| :: all[a + 1] == ix[a];
  }

  predicate From(n: nat, ix: seq<nat>) {
    forall a | 0 <= a < |ix| :: n <= ix[a]
  }

  lemma {:induction false} FromLess(n: nat, ix: seq<nat>)
    requires From(n + 1, ix)
    ensures From(n, ix)
  {
  }

  /** The call comes from the method at that place, which the pass calls for. */
  predicate CallOf(methods: seq<Method>, pass: nat, op: Op, i: nat) {
    i < |methods| && Called(methods[i], pass) && Pass(op) == pass && op.m == methods[i]
  }

  predicate EachCall(methods: seq<Method>, pass: nat, ops: seq<Op>, ix: seq<nat>) {
    |ops| == |ix| && forall a | 0 <= a < |ix| :: CallOf(methods, pass, ops[a], ix[a])
  }

  predicate AllCalled(methods: seq<Method>, n: nat, pass: nat, ix: seq<nat>) {
    forall i | n <= i < |methods| && Called(methods[i], pass) :: i in ix
  }

  /** The calls of one pass over the methods from `n` on: `ix` is where each of them comes from. */
  predicate PassCalls(methods: seq<Method>, n: nat, pass: nat, ops: seq<Op>, ix: seq<nat>) {
    EachCall(methods, pass, ops, ix) && From(n, ix) && Increasing(ix) && AllCalled(methods, n, pass, ix)
  }

  lemma {:induction false} CallsNext(methods: seq<Method>, n: nat, pass: nat, ops: seq<Op>, ix: seq<nat>, op: Op)
    returns (all: seq<nat>)
    requires n < |methods| && PassCalls(methods, n + 1, pass, ops, ix) && Pass(op) == pass && op.m == methods[n]
    ensures PassCalls(methods, n, pass, (if Called(methods[n], pass) then [op] else []) + ops, all)
    ensures all == if Called(methods[n], pass) then [n] + ix else ix
  {
    assert Called(methods[n], pass) ==> CallOf(methods, pass, op, n);
    hide Called, Pass, CallOf, EachCall, Increasing, From, AllCalled;
    AllCalledNext(methods, n, pass, ix);
    if Called(methods[n], pass) {
      all := [n] + ix;
      IncreasingFront(n, ix);
      EachCallFront(methods, n, pass, ops, ix, op);
    } else {
      all := ix;
      FromLess(n, ix);
      NoneAdded(ops);
    }
  }

  lemma {:induction false} AllCalledNext(methods: seq<Method>, n: nat, pass: nat, ix: seq<nat>)
    requires n < |methods| && AllCalled(methods, n + 1, pass, ix)
    ensures AllCalled(methods, n, pass, [n] + ix)
    ensures !Called(methods[n], pass) ==> AllCalled(methods, n, pass, ix)
  {
    hide Called;
    assert ([n] + ix)[0] == n;
    assert forall i | i in ix :: i in [n] + ix;
  }

  lemma {:induction false} NoneAdded<T>(xs: seq<T>)
    ensures [] + xs == xs
  {
  }

  lemma {:induction false} EachCallFront(methods: seq<Method>, n: nat, pass: nat, ops: seq<Op>, ix: seq<nat>, op: Op)
    requires EachCall(methods, pass, ops, ix) && CallOf(methods, pass, op, n)
    ensures EachCall(methods, pass, [op] + ops, [n] + ix)
  {
    hide CallOf;
  }

  lemma {:induction false} PlainCalls(methods: seq<Method>, n: nat) returns (ix: seq<nat>)
    requires n <= |methods|
    ensures PassCalls(methods, n, 0, PlainReaders(methods[n..]), ix)
    decreases |methods| - n
  {
    if n == |methods| {
      ix := [];
    } else {
      var more := PlainCalls(methods, n + 1);
      assert methods[n..][1..] == methods[n + 1..];
      ix := CallsNext(methods, n, 0, PlainReaders(methods[n + 1..]), more, Op.Add(methods[n]));
      assert Called(methods[n], 0)
        <==> methods[n].kind in {Getter, Predicate, Relation, Iterator} && methods[n].params == [];
      hide PassCalls, Called;
    }
  }

  lemma {:induction false} OutCalls(methods: seq<Method>, n: nat) returns (ix: seq<nat>)
    requires n <= |methods|
    ensures PassCalls(methods, n, 1, OutReaders(methods[n..]), ix)
    decreases |methods| - n
  {
    if n == |methods| {
      ix := [];
    } else {
      var more := OutCalls(methods, n + 1);
      assert methods[n..][1..] == methods[n + 1..];
      GetIs(methods[n].name);
      DenseIs(methods[n].ret);
      ix := CallsNext(methods, n, 1, OutReaders(methods[n + 1..]), more, OutParam(methods[n]));
      hide PassCalls, StartsWith, Norm, Dense, IsGet;
    }
  }

  lemma {:induction false} QueryCalls(methods: seq<Method>, n: nat, all: seq<Method>) returns (ix: seq<nat>)
    requires n <= |methods|
    ensures PassCalls(methods, n, 2, Queries(methods[n..], all), ix)
    decreases |methods| - n
  {
    if n == |methods| {
      ix := [];
    } else {
      var more := QueryCalls(methods, n + 1, all);
      assert methods[n..][1..] == methods[n + 1..];
      ix := CallsNext(methods, n, 2, Queries(methods[n + 1..], all), more,
        Query(methods[n], NameCount(all, methods[n].name) > 1));
      hide PassCalls, NameCount;
    }
  }

  lemma {:induction false} QueryFlags(methods: seq<Method>, all: seq<Method>)
    ensures forall op | op in Queries(methods, all) :: op.Query? && (op.overloaded <==> NameCount(all, op.m.name) > 1)
  {
    if methods != [] {
      QueryFlags(methods[1..], all);
    }
    hide NameCount;
  }

  lemma {:induction false} CountIs(methods: seq<Method>, name: string)
    ensures NameCount(methods, name) >= 1 <==> exists j :: 0 <= j < |methods| && methods[j].name == name
  {
    if methods != [] {
      CountIs(methods[1..], name);
      assert forall j | 0 <= j < |methods[1..]| :: methods[1..][j] == methods[j + 1];
      assert forall j | 1 <= j < |methods| :: methods[j] == methods[1..][j - 1];
    }
  }

  lemma {:induction false} NameCountAppend(a: seq<Method>, b: seq<Method>, name: string)
    ensures NameCount(a + b, name) == NameCount(a, name) + NameCount(b, name)
  {
    if a == [] {
      assert a + b == b;
    } else {
      assert (a + b)[1..] == a[1..] + b;
      NameCountAppend(a[1..], b, name);
    }
  }

  lemma {:induction false} OverloadedIs(methods: seq<Method>, i: nat)
    requires i < |methods|
    ensures NameCount(methods, methods[i].name) > 1 <==> Overloaded(methods, i)
  {
    var name := methods[i].name;
    var a, b := methods[..i], methods[i + 1..];
    assert methods == a + ([methods[i]] + b);
    NameCountAppend(a, [methods[i]] + b, name);
    NameCountAppend([methods[i]], b, name);
    assert NameCount([methods[i]], name) == 1 by { assert [methods[i]][1..] == []; }
    CountIs(a, name);
    CountIs(b, name);
    assert forall j | 0 <= j < |b| :: b[j] == methods[i + 1 + j];
    assert forall j | i < j < |methods| :: methods[j] == b[j - i - 1];
  }

  /** The calls made for a class: first every plain reader, then every reader of what is written to
      parameters, then every question, each pass in the order of the header; a method is in a pass exactly
      when the pass calls for it, and a question is told whether its name is overloaded. */
  lemma {:induction false} PassesExactly(methods: seq<Method>) returns (ix: seq<nat>)
    ensures var ops := ClassOps(methods);
            && |ix| == |ops|
            && (forall a | 0 <= a < |ops| ::
                  ix[a] < |methods| && ops[a].m == methods[ix[a]] && Called(methods[ix[a]], Pass(ops[a]))
                  && (ops[a].Query? ==> (ops[a].overloaded <==> Overloaded(methods, ix[a]))))
            && (forall a, b | 0 <= a < b < |ops| ::
                  Pass(ops[a]) < Pass(ops[b]) || (Pass(ops[a]) == Pass(ops[b]) && ix[a] < ix[b]))
            && (forall i, pass: nat | 0 <= i < |methods| && Called(methods[i], pass) ::
                  exists a :: 0 <= a < |ops| && ix[a] == i && Pass(ops[a]) == pass)
  {
    assert methods[0..] == methods;
    var plain := PlainCalls(methods, 0);
    var outs := OutCalls(methods, 0);
    var asked := QueryCalls(methods, 0, methods);
    ix := plain + outs + asked;
    QueryFlags(methods, methods);
    var p, o, q := PlainReaders(methods), OutReaders(methods), Queries(methods, methods);
    forall a | 0 <= a < |asked|
      ensures asked[a] < |methods| && q[a].Query? && (q[a].overloaded <==> Overloaded(methods, asked[a]))
    {
      assert CallOf(methods, 2, q[a], asked[a]) && q[a] in q;
      OverloadedIs(methods, asked[a]);
    }
    hide *;
    PassesAt(methods, p, o, q, plain, outs, asked);
    PassesOrder(methods, p, o, q, plain, outs, asked);
    PassesAll(methods, p, o, q, plain, outs, asked);
    OpsAre(methods);
  }

  lemma {:induction false} OpsAre(methods: seq<Method>)
    ensures ClassOps(methods) == PlainReaders(methods) + OutReaders(methods) + Queries(methods, methods)
  {
  }

  lemma {:induction false} PassesAt(methods: seq<Method>, p: seq<Op>, o: seq<Op>, q: seq<Op>, pi: seq<nat>,
                                    oi: seq<nat>, qi: seq<nat>)
    requires PassCalls(methods, 0, 0, p, pi) && PassCalls(methods, 0, 1, o, oi) && PassCalls(methods, 0, 2, q, qi)
    requires forall a | 0 <= a < |qi| ::
               qi[a] < |methods| && q[a].Query? && (q[a].overloaded <==> Overloaded(methods, qi[a]))
    ensures var ops, ix := p + o + q, pi + oi + qi;
            && |ix| == |ops|
            && forall a | 0 <= a < |ops| ::
                 ix[a] < |methods| && ops[a].m == methods[ix[a]] && Called(methods[ix[a]], Pass(ops[a]))
                 && (ops[a].Query? ==> (ops[a].overloaded <==> Overloaded(methods, ix[a])))
  {
    hide Called, Overloaded, Increasing, From, AllCalled;
    var ops, ix := p + o + q, pi + oi + qi;
    forall a | 0 <= a < |ops|
      ensures ix[a] < |methods| && ops[a].m == methods[ix[a]] && Called(methods[ix[a]], Pass(ops[a]))
              && (ops[a].Query? ==> (ops[a].overloaded <==> Overloaded(methods, ix[a])))
    {
      if a < |p| {
        assert CallOf(methods, 0, p[a], pi[a]);
      } else if a < |p| + |o| {
        assert CallOf(methods, 1, o[a - |p|], oi[a - |p|]);
      } else {
        assert CallOf(methods, 2, q[a - |p| - |o|], qi[a - |p| - |o|]);
      }
    }
  }

  lemma {:induction false} PassesOrder(methods: seq<Method>, p: seq<Op>, o: seq<Op>, q: seq<Op>, pi: seq<nat>,
                                       oi: seq<nat>, qi: seq<nat>)
    requires PassCalls(methods, 0, 0, p, pi) && PassCalls(methods, 0, 1, o, oi) && PassCalls(methods, 0, 2, q, qi)
    ensures var ops, ix := p + o + q, pi + oi + qi;
            |ix| == |ops| && forall a, b | 0 <= a < b < |ops| ::
              Pass(ops[a]) < Pass(ops[b]) || (Pass(ops[a]) == Pass(ops[b]) && ix[a] < ix[b])
  {
    PassIs(methods, 0, p, pi);
    PassIs(methods, 1, o, oi);
    PassIs(methods, 2, q, qi);
    hide Called, Pass, CallOf, EachCall, AllCalled, From;
  }

  lemma {:induction false} PassIs(methods: seq<Method>, pass: nat, ops: seq<Op>, ix: seq<nat>)
    requires PassCalls(methods, 0, pass, ops, ix)
    ensures |ops| == |ix| && forall a | 0 <= a < |ops| :: Pass(ops[a]) == pass
  {
    hide Called, Pass, Increasing, From, AllCalled;
    assert forall a | 0 <= a < |ix| :: CallOf(methods, pass, ops[a], ix[a]);
  }

  lemma {:induction false} PassesAll(methods: seq<Method>, p: seq<Op>, o: seq<Op>, q: seq<Op>, pi: seq<nat>,
                                     oi: seq<nat>, qi: seq<nat>)
    requires PassCalls(methods, 0, 0, p, pi) && PassCalls(methods, 0, 1, o, oi) && PassCalls(methods, 0, 2, q, qi)
    ensures var ops, ix := p + o + q, pi + oi + qi;
            |ix| == |ops| && forall i, pass: nat | 0 <= i < |methods| && Called(methods[i], pass) ::
              exists a :: 0 <= a < |ops| && ix[a] == i && Pass(ops[a]) == pass
  {
    PassIs(methods, 0, p, pi);
    PassIs(methods, 1, o, oi);
    PassIs(methods, 2, q, qi);
    hide Called, Pass, CallOf, Increasing, From, EachCall;
    var ops, ix := p + o + q, pi + oi + qi;
    forall i, pass: nat | 0 <= i < |methods| && Called(methods[i], pass)
      ensures exists a :: 0 <= a < |ops| && ix[a] == i && Pass(ops[a]) == pass
    {
      OnlyThree(methods[i], pass);
      if pass == 0 {
        var a :| 0 <= a < |pi| && pi[a] == i;
        assert ix[a] == i && ops[a] == p[a];
      } else if pass == 1 {
        var a :| 0 <= a < |oi| && oi[a] == i;
        assert ix[|pi| + a] == i && ops[|pi| + a] == o[a];
      } else {
        var a :| 0 <= a < |qi| && qi[a] == i;
        assert ix[|pi| + |oi| + a] == i && ops[|pi| + |oi| + a] == q[a];
      }
    }
  }

  lemma {:induction false} OnlyThree(m: Method, pass: nat)
    requires Called(m, pass)
    ensures pass <= 2
  {
  }

  /** The setters offered are the methods of that kind, in the order of the header. */
  predicate SettersFrom(methods: seq<Method>, n: nat, setters: seq<Method>, ix: seq<nat>) {
    EachSetter(methods, setters, ix) && Increasing(ix) && From(n, ix) && AllSetters(methods, n, ix)
  }

  predicate EachSetter(methods: seq<Method>, setters: seq<Method>, ix: seq<nat>) {
    |setters| == |ix| && forall a | 0 <= a < |ix| :: ix[a] < |methods| && setters[a] == methods[ix[a]]
  }

  predicate AllSetters(methods: seq<Method>, n: nat, ix: seq<nat>) {
    forall i | n <= i < |methods| :: i in ix <==> methods[i].kind == Setter
  }

  lemma {:induction false} SettersExactly(methods: seq<Method>, n: nat) returns (ix: seq<nat>)
    requires n <= |methods|
    ensures SettersFrom(methods, n, SetterMethods(methods[n..]), ix)
    decreases |methods| - n
  {
    if n == |methods| {
      ix := [];
    } else {
      var more := SettersExactly(methods, n + 1);
      assert methods[n..][1..] == methods[n + 1..];
      ix := if methods[n].kind == Setter then [n] + more else more;
      hide SettersFrom;
      if methods[n].kind == Setter {
        SettersFront(methods, n, SetterMethods(methods[n + 1..]), more);
      } else {
        SettersSkip(methods, n, SetterMethods(methods[n + 1..]), more);
        NoneAdded(SetterMethods(methods[n + 1..]));
      }
    }
  }

  lemma {:induction false} SettersFront(methods: seq<Method>, n: nat, rest: seq<Method>, more: seq<nat>)
    requires n < |methods| && SettersFrom(methods, n + 1, rest, more) && methods[n].kind == Setter
    ensures SettersFrom(methods, n, [methods[n]] + rest, [n] + more)
  {
    hide AllSetters, Increasing, From, EachSetter;
    IncreasingFront(n, more);
    EachSetterFront(methods, n, rest, more);
    AllSettersFront(methods, n, more);
  }

  lemma {:induction false} EachSetterFront(methods: seq<Method>, n: nat, rest: seq<Method>, more: seq<nat>)
    requires n < |methods| && EachSetter(methods, rest, more)
    ensures EachSetter(methods, [methods[n]] + rest, [n] + more)
  {
  }

  lemma {:induction false} AllSettersFront(methods: seq<Method>, n: nat, more: seq<nat>)
    requires n < |methods| && AllSetters(methods, n + 1, more) && methods[n].kind == Setter
    ensures AllSetters(methods, n, [n] + more)
  {
    forall i | n <= i < |methods| ensures i in [n] + more <==> i == n || i in more {
    }
  }

  lemma {:induction false} SettersSkip(methods: seq<Method>, n: nat, rest: seq<Method>, more: seq<nat>)
    requires n < |methods| && SettersFrom(methods, n + 1, rest, more) && methods[n].kind != Setter
    ensures SettersFrom(methods, n, rest, more)
  {
    FromLess(n, more);
    assert n !in more by { assert forall a | 0 <= a < |more| :: n + 1 <= more[a]; }
    hide Increasing, From, EachSetter;
  }
}
