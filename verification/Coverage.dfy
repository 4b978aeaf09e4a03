/** `classify`, the totals of the derived schema, and the counts of the coverage summary. */
module Coverage {
  import opened Text
  import opened Names
  import opened Bindings

  // ---- `classify` --------------------------------------------------------------------------

  const SETTER_PREFIXES := ["set", "add", "create", "destroy", "remove", "clear",
                            "rename", "swap", "connect", "disconnect", "assign", "apply"]
  const GETTER_PREFIXES := ["get", "is", "has", "find", "first"]

  predicate HasPrefix(s: string, prefixes: seq<string>) {
    exists i | 0 <= i < |prefixes| :: StartsWith(s, prefixes[i])
  }

  /** `^db[A-Za-z0-9_]+\s*\*$` on a stripped type. */
  predicate DbPointer(t: string) {
    && |t| > 3 && t[..2] == "db" && t[|t| - 1] == '*'
    && var inner := RStrip(t[2..|t| - 1]);
       inner != "" && forall i | 0 <= i < |inner| :: WordChar(inner[i])
  }

  function LowerFirst(name: string): string {
    if name == "" then "" else [ToLower(name[0])] + name[1..]
  }

  function Classify(name: string, ret: string, params: nat): Kind {
    var r := Strip(ret);
    var lname := LowerFirst(name);
    if StartsWith(r, "dbSet<") then Iterator
    else if DbPointer(r) then Relation
    else if HasPrefix(lname, SETTER_PREFIXES) || r == "void" then Setter
    else if r == "bool" && HasPrefix(lname, ["is", "has"]) then Predicate
    else if HasPrefix(lname, GETTER_PREFIXES) && params == 0 then Getter
    else if params == 0 && r != "void" then Getter
    else Other
  }

  /** The kind decides how a method may be reached: a reader of no arguments is never `other`, so it
      is offered to an emitter; `other` is kept for parameterised reads; and what returns nothing is
      never taken for a read. */
  lemma {:induction false} KindsReach(name: string, ret: string, params: nat)
    ensures params == 0 ==> Classify(name, ret, params) != Other
    ensures Classify(name, ret, params) == Other ==> params > 0 && Strip(ret) != "void"
    ensures Classify(name, ret, params) == Getter ==> params == 0
    ensures Strip(ret) == "void" ==> Classify(name, ret, params) == Setter
  {
    hide Strip, RStrip, HasPrefix;
    var r := Strip(ret);
    assert r == "void" ==> !DbPointer(r) && !StartsWith(r, "dbSet<") by {
      assert "void"[0] == 'v' && "dbSet<"[0] == 'd' && "db"[0] == 'd';
      if r == "void" {
        assert r[..2][0] == 'v';
      }
    }
  }

  // ---- the kinds, spelled out --------------------------------------------------------------

  /** The name starts with the text, or with the text capitalised. */
  predicate Begins(name: string, p: string)
    requires p != ""
  {
    && |p| <= |name| && name[1..|p|] == p[1..]
    && (name[0] == p[0] || ('A' <= name[0] <= 'Z' && name[0] as int + 32 == p[0] as int))
  }

  lemma {:induction false} BeginsIs(name: string, p: string)
    requires p != "" && 'a' <= p[0] <= 'z'
    ensures StartsWith(LowerFirst(name), p) <==> Begins(name, p)
  {
    var l := LowerFirst(name);
    if |p| <= |name| {
      assert l[..|p|] == [l[0]] + name[1..|p|];
      assert p == [p[0]] + p[1..];
    }
  }

  /** `db`, a name of letters, digits and underscores, white space, a star. */
  predicate PointerText(t: string, w: string, gap: string) {
    && t == "db" + w + gap + "*" && AllSpace(gap) && w != ""
    && forall i | 0 <= i < |w| :: 'A' <= w[i] <= 'Z' || 'a' <= w[i] <= 'z' || '0' <= w[i] <= '9' || w[i] == '_'
  }

  lemma {:induction false} PointerIs(t: string)
    ensures DbPointer(t) <==> exists w, gap :: PointerText(t, w, gap)
  {
    if DbPointer(t) {
      var inner := t[2..|t| - 1];
      var gap := RStripSplits(inner);
      assert t == "db" + inner + "*";
      assert t == "db" + RStrip(inner) + gap + "*";
      assert PointerText(t, RStrip(inner), gap);
    }
    forall w, gap | PointerText(t, w, gap) ensures DbPointer(t) {
      assert t[..2] == "db" && t[2..|t| - 1] == w + gap;
      RStripSkips(w, gap);
      SolidEnd(w);
    }
  }

  lemma {:induction false} SolidEnd(w: string)
    requires w != "" && !IsSpace(w[|w| - 1])
    ensures RStrip(w) == w
  {
  }

  lemma {:induction false} SetterPrefixes(name: string)
    ensures HasPrefix(LowerFirst(name), SETTER_PREFIXES)
       <==> || Begins(name, "set") || Begins(name, "add") || Begins(name, "create") || Begins(name, "destroy")
            || Begins(name, "remove") || Begins(name, "clear") || Begins(name, "rename") || Begins(name, "swap")
            || Begins(name, "connect") || Begins(name, "disconnect") || Begins(name, "assign")
            || Begins(name, "apply")
  {
    forall i | 0 <= i < |SETTER_PREFIXES|
      ensures StartsWith(LowerFirst(name), SETTER_PREFIXES[i]) <==> Begins(name, SETTER_PREFIXES[i])
    {
      BeginsIs(name, SETTER_PREFIXES[i]);
    }
    hide StartsWith, LowerFirst, Begins;
    var p := SETTER_PREFIXES;
    assert p[0] == "set" && p[1] == "add" && p[2] == "create" && p[3] == "destroy" && p[4] == "remove";
    assert p[5] == "clear" && p[6] == "rename" && p[7] == "swap" && p[8] == "connect" && p[9] == "disconnect";
    assert p[10] == "assign" && p[11] == "apply";
  }

  lemma {:induction false} PredicatePrefixes(name: string)
    ensures HasPrefix(LowerFirst(name), ["is", "has"]) <==> Begins(name, "is") || Begins(name, "has")
  {
    BeginsIs(name, "is");
    BeginsIs(name, "has");
    hide StartsWith, LowerFirst, Begins;
    var p := ["is", "has"];
    assert p[0] == "is" && p[1] == "has";
  }

  /** What each kind is: sets by the type's first word, single objects by a pointer, then setters by their
      name or by returning nothing, questions by both, and of the rest what takes no arguments is read. */
  lemma {:induction false} KindsExactly(name: string, ret: string, params: nat)
    ensures var k, r := Classify(name, ret, params), Strip(ret);
            var isSet := |r| >= 6 && r[..6] == "dbSet<";
            var isPointer := exists w, gap :: PointerText(r, w, gap);
            var isChange :=
              || Begins(name, "set") || Begins(name, "add") || Begins(name, "create") || Begins(name, "destroy")
              || Begins(name, "remove") || Begins(name, "clear") || Begins(name, "rename") || Begins(name, "swap")
              || Begins(name, "connect") || Begins(name, "disconnect") || Begins(name, "assign")
              || Begins(name, "apply") || r == "void";
            var isQuestion := r == "bool" && (Begins(name, "is") || Begins(name, "has"));
            && (k == Iterator <==> isSet) && (k == Relation <==> isPointer)
            && (k == Setter <==> isChange && !isSet && !isPointer)
            && (k == Predicate <==> isQuestion && !isChange && !isSet && !isPointer)
            && (k == Getter <==> params == 0 && !isQuestion && !isChange && !isSet && !isPointer)
            && (k == Other <==> params > 0 && !isQuestion && !isChange && !isSet && !isPointer)
  {
    var r := Strip(ret);
    PointerIs(r);
    SetterPrefixes(name);
    PredicatePrefixes(name);
    SetNoPointer(r);
    hide Strip, DbPointer, HasPrefix, Begins, PointerText;
  }

  lemma {:induction false} SetNoPointer(r: string)
    ensures StartsWith(r, "dbSet<") <==> |r| >= 6 && r[..6] == "dbSet<"
    ensures StartsWith(r, "dbSet<") ==> !DbPointer(r)
  {
    if StartsWith(r, "dbSet<") && r[|r| - 1] == '*' {
      var inner := r[2..|r| - 1];
      var gap := RStripSplits(inner);
      assert inner[3] == r[..6][5] == '<';
      assert |RStrip(inner)| <= 3 ==> gap[3 - |RStrip(inner)|] == '<';
      assert |RStrip(inner)| > 3 ==> RStrip(inner)[3] == '<';
    }
  }

  // ---- the schema --------------------------------------------------------------------------

  datatype Entry = Entry(kind: Kind, bridged: bool)
  datatype Class = Class(name: string, methods: seq<Entry>)

  function Tally(ms: seq<Entry>, k: Kind): nat {
    if ms == [] then 0 else Tally(ms[..|ms| - 1], k) + (if ms[|ms| - 1].kind == k then 1 else 0)
  }

  function TallyBound(ms: seq<Entry>, k: Kind): nat {
    if ms == [] then 0
    else TallyBound(ms[..|ms| - 1], k) + (if ms[|ms| - 1].kind == k && ms[|ms| - 1].bridged then 1 else 0)
  }

  function BridgedCount(ms: seq<Entry>): nat {
    if ms == [] then 0 else BridgedCount(ms[..|ms| - 1]) + (if ms[|ms| - 1].bridged then 1 else 0)
  }

  /** All the methods of a schema, class after class. */
  function AllMethods(cs: seq<Class>): seq<Entry> {
    if cs == [] then [] else AllMethods(cs[..|cs| - 1]) + cs[|cs| - 1].methods
  }

  /** The totals `main` writes into the schema. */
  method Totals(classes: seq<Class>) returns (methodCount: nat, bridgedCount: nat)
    ensures methodCount == |AllMethods(classes)| && bridgedCount == BridgedCount(AllMethods(classes))
  {
    methodCount, bridgedCount := 0, 0;
    for i := 0 to |classes|
      invariant methodCount == |AllMethods(classes[..i])|
      invariant bridgedCount == BridgedCount(AllMethods(classes[..i]))
    {
      var ms := classes[i].methods;
      ghost var before := AllMethods(classes[..i]);
      AllNext(classes, i);
      methodCount := methodCount + |ms|;
      assert before + ms[..0] == before && ms[..|ms|] == ms;
      for j := 0 to |ms|
        invariant bridgedCount == BridgedCount(before + ms[..j])
      {
        TallyNext(before, ms, j, Getter);
        if ms[j].bridged {
          bridgedCount := bridgedCount + 1;
        }
      }
    }
    assert classes[..|classes|] == classes;
  }

  lemma {:induction false} AllNext(cs: seq<Class>, i: nat)
    requires i < |cs|
    ensures AllMethods(cs[..i + 1]) == AllMethods(cs[..i]) + cs[i].methods
  {
    assert cs[..i + 1][..i] == cs[..i];
  }

  lemma {:induction false} TallyNext(before: seq<Entry>, ms: seq<Entry>, j: nat, k: Kind)
    requires j < |ms|
    ensures var a, b := before + ms[..j], before + ms[..j + 1];
            && Tally(b, k) == Tally(a, k) + (if ms[j].kind == k then 1 else 0)
            && TallyBound(b, k) == TallyBound(a, k) + (if ms[j].kind == k && ms[j].bridged then 1 else 0)
            && BridgedCount(b) == BridgedCount(a) + (if ms[j].bridged then 1 else 0)
  {
    var b := before + ms[..j + 1];
    assert b[..|b| - 1] == before + ms[..j] && b[|b| - 1] == ms[j];
  }

  // ---- `stats` -----------------------------------------------------------------------------

  /** A `collections.Counter`: a missing key counts zero. */
  function Counter(m: map<Kind, nat>, k: Kind): nat {
    if k in m then m[k] else 0
  }

  /** The gap of a class: unbound methods, name, all methods. */
  type Gap = (int, string, nat)

  function GapOf(c: Class): Gap {
    (|c.methods| - BridgedCount(c.methods), c.name, |c.methods|)
  }

  function Gaps(cs: seq<Class>): (r: seq<Gap>)
    ensures |r| == |cs| && forall i | 0 <= i < |cs| :: r[i] == GapOf(cs[i])
  {
    seq(|cs|, i requires 0 <= i < |cs| => GapOf(cs[i]))
  }

  /** What the two counters say after the methods of `ms` have been counted. */
  ghost predicate Counts(total: map<Kind, nat>, bound: map<Kind, nat>, ms: seq<Entry>) {
    forall k :: Counter(total, k) == Tally(ms, k) && Counter(bound, k) == TallyBound(ms, k)
  }

  method Stats(items: seq<Class>) returns (total: map<Kind, nat>, bound: map<Kind, nat>, perClass: seq<Gap>)
    ensures Counts(total, bound, AllMethods(items))
    ensures perClass == Gaps(items)
  {
    hide Counts, Tally, TallyBound, BridgedCount, AllMethods, Gaps;
    total, bound, perClass := map[], map[], [];
    CountsNone();
    GapsNext(items);
    for i := 0 to |items|
      invariant Counts(total, bound, AllMethods(items[..i]))
      invariant perClass == Gaps(items[..i])
    {
      AllNext(items, i);
      GapsNext(items);
      var b := CountBridged(items[i].methods);
      perClass := perClass + [(|items[i].methods| - b, items[i].name, |items[i].methods|)];
      total, bound := CountClass(AllMethods(items[..i]), items[i].methods, total, bound);
    }
    assert items[..|items|] == items;
  }

  /** The inner loop of `stats`. */
  method CountClass(ghost before: seq<Entry>, ms: seq<Entry>, total0: map<Kind, nat>, bound0: map<Kind, nat>)
    returns (total: map<Kind, nat>, bound: map<Kind, nat>)
    requires Counts(total0, bound0, before)
    ensures Counts(total, bound, before + ms)
  {
    hide Counts, Tally, TallyBound;
    total, bound := total0, bound0;
    assert before + ms[..0] == before;
    for j := 0 to |ms|
      invariant Counts(total, bound, before + ms[..j])
    {
      var m := ms[j];
      CountsNext(before, ms, j, total, bound);
      total := total[m.kind := Counter(total, m.kind) + 1];
      bound := bound[m.kind := Counter(bound, m.kind) + if m.bridged then 1 else 0];
    }
    assert ms[..|ms|] == ms;
  }

  lemma {:induction false} CountsNone()
    ensures Counts(map[], map[], AllMethods([]))
  {}

  lemma {:induction false} CountsNext(before: seq<Entry>, ms: seq<Entry>, j: nat, total: map<Kind, nat>,
                                      bound: map<Kind, nat>)
    requires j < |ms|
    requires Counts(total, bound, before + ms[..j])
    ensures var m := ms[j];
            Counts(total[m.kind := Counter(total, m.kind) + 1],
                   bound[m.kind := Counter(bound, m.kind) + if m.bridged then 1 else 0],
                   before + ms[..j + 1])
  {
    hide Tally, TallyBound;
    var m := ms[j];
    var total' := total[m.kind := Counter(total, m.kind) + 1];
    var bound' := bound[m.kind := Counter(bound, m.kind) + if m.bridged then 1 else 0];
    var now := before + ms[..j + 1];
    forall k ensures Counter(total', k) == Tally(now, k) && Counter(bound', k) == TallyBound(now, k) {
      assert Counter(total, k) == Tally(before + ms[..j], k);
      TallyNext(before, ms, j, k);
    }
  }

  lemma {:induction false} GapsNext(cs: seq<Class>)
    ensures Gaps(cs[..0]) == []
    ensures forall i | 0 <= i < |cs| :: Gaps(cs[..i + 1]) == Gaps(cs[..i]) + [GapOf(cs[i])]
  {}

  method CountBridged(ms: seq<Entry>) returns (b: nat)
    ensures b == BridgedCount(ms)
  {
    b := 0;
    for j := 0 to |ms|
      invariant b == BridgedCount(ms[..j])
    {
      assert ms[..j + 1][..j] == ms[..j];
      if ms[j].bridged {
        b := b + 1;
      }
    }
    assert ms[..|ms|] == ms;
  }

  // ---- conservation --------------------------------------------------------------------------

  const READ_KINDS := [Getter, Predicate, Iterator, Relation]

  function SumOver(f: Kind -> nat, ks: seq<Kind>): nat {
    if ks == [] then 0 else f(ks[0]) + SumOver(f, ks[1..])
  }

  lemma {:induction false} SumRead(f: Kind -> nat)
    ensures SumOver(f, READ_KINDS) == f(Getter) + f(Predicate) + f(Iterator) + f(Relation)
  {
    assert READ_KINDS[1..] == [Predicate, Iterator, Relation];
    assert READ_KINDS[1..][1..] == [Iterator, Relation];
    assert READ_KINDS[1..][1..][1..] == [Relation];
    assert READ_KINDS[1..][1..][1..][1..] == [];
  }

  lemma {:induction false} Partition(ms: seq<Entry>)
    ensures Tally(ms, Getter) + Tally(ms, Predicate) + Tally(ms, Iterator) + Tally(ms, Relation)
            + Tally(ms, Setter) + Tally(ms, Other) == |ms|
    ensures TallyBound(ms, Getter) + TallyBound(ms, Predicate) + TallyBound(ms, Iterator) + TallyBound(ms, Relation)
            + TallyBound(ms, Setter) + TallyBound(ms, Other) == BridgedCount(ms)
    ensures forall k :: TallyBound(ms, k) <= Tally(ms, k)
  {
    if ms != [] {
      Partition(ms[..|ms| - 1]);
    }
  }

  function GapSum(gs: seq<Gap>): int {
    if gs == [] then 0 else GapSum(gs[..|gs| - 1]) + gs[|gs| - 1].0
  }

  lemma {:induction false} BridgedAppend(a: seq<Entry>, b: seq<Entry>)
    ensures BridgedCount(a + b) == BridgedCount(a) + BridgedCount(b)
    decreases |b|
  {
    if b == [] {
      assert a + b == a;
    } else {
      assert (a + b)[..|a + b| - 1] == a + b[..|b| - 1];
      BridgedAppend(a, b[..|b| - 1]);
    }
  }

  lemma {:induction false} GapsSum(cs: seq<Class>)
    ensures GapSum(Gaps(cs)) == |AllMethods(cs)| - BridgedCount(AllMethods(cs))
  {
    if cs != [] {
      var front := cs[..|cs| - 1];
      GapsSum(front);
      assert Gaps(cs)[..|cs| - 1] == Gaps(front);
      BridgedAppend(AllMethods(front), cs[|cs| - 1].methods);
    }
  }

  /** Whatever the schema: what `stats` counts adds up to the totals the schema states. The kinds sum
      to the methods and to the bridged methods, reads with setters and others, the class gaps sum to
      their difference, and no kind has more bound than it has. */
  lemma {:induction false} CoverageConserved(classes: seq<Class>, methodCount: nat, bridgedCount: nat,
                            total: map<Kind, nat>, bound: map<Kind, nat>, perClass: seq<Gap>)
    requires methodCount == |AllMethods(classes)| && bridgedCount == BridgedCount(AllMethods(classes))
    requires Counts(total, bound, AllMethods(classes))
    requires perClass == Gaps(classes)
    ensures SumOver(k => Counter(total, k), READ_KINDS) + Counter(total, Setter) + Counter(total, Other) == methodCount
    ensures SumOver(k => Counter(bound, k), READ_KINDS) + Counter(bound, Setter) + Counter(bound, Other) == bridgedCount
    ensures GapSum(perClass) == methodCount - bridgedCount
    ensures forall k :: Counter(bound, k) <= Counter(total, k)
    ensures forall i | 0 <= i < |perClass| :: 0 <= perClass[i].0 <= perClass[i].2
  {
    var ms := AllMethods(classes);
    Partition(ms);
    GapsSum(classes);
    SumRead(k => Counter(total, k));
    SumRead(k => Counter(bound, k));
    forall i | 0 <= i < |perClass| ensures 0 <= perClass[i].0 <= perClass[i].2 {
      Partition(classes[i].methods);
      BridgedBounded(classes[i].methods);
    }
  }

  lemma {:induction false} BridgedBounded(ms: seq<Entry>)
    ensures BridgedCount(ms) <= |ms|
  {
    if ms != [] {
      BridgedBounded(ms[..|ms| - 1]);
    }
  }
}
