/** What the whole class parser makes of a class body: the entries of the derived schema. */
module HeaderClass {
  import opened Options
  import opened Text
  import opened LogicalLines
  import opened MethodPattern
  import opened ClassParse
  import opened Signatures
  import opened Declarations
  import Bindings
  import Coverage

  /** A method of the schema; whether it is bridged is another file's question. */
  datatype HeaderMethod = HeaderMethod(name: string, ret: string, params: seq<Parameter>, isConst: bool,
                                       kind: Bindings.Kind)

  /** The filters on what the method pattern reads: two names, two words that are no types, the constructor. */
  function EntryOf(cls: string, d: Declared): Option<HeaderMethod> {
    if d.name in {"operator", "dbObject"} || d.ret in {"class", "struct"} || d.name == cls then None
    else Some(HeaderMethod(d.name, d.ret, d.params, d.isConst, Coverage.Classify(d.name, d.ret, |d.params|)))
  }

  function Keep(cls: string): Declared -> Option<HeaderMethod> {
    d => EntryOf(cls, d)
  }

  /** `parse_class`. */
  method ParseHeaderClass(cls: string, body: seq<string>) returns (methods: seq<HeaderMethod>)
    ensures methods == Parse(Private, Logical(body), Recognise(Keep(cls)))
  {
    methods := ParseClass(body, Recognise(Keep(cls)));
  }

  /** The entry of a line spelled as a method, unless the filters drop it. */
  predicate EntryFor(cls: string, x: Spelling, e: HeaderMethod) {
    var ret := Collapse(x.ty);
    && x.name != "operator" && x.name != "dbObject" && x.name != cls && ret != "class" && ret != "struct"
    && e == HeaderMethod(x.name, ret, Parameters(x.inner), x.end.isConst,
                         Coverage.Classify(x.name, ret, |Parameters(x.inner)|))
  }

  ghost predicate Yields(cls: string, line: string, e: HeaderMethod) {
    exists x: Spelling :: x.Of(Strip(line)) && EntryFor(cls, x, e)
  }

  lemma {:induction false} YieldsExactly(cls: string, line: string, e: HeaderMethod)
    ensures Recognise(Keep(cls))(Strip(line)) == Some(e) <==> Yields(cls, line, e)
  {
    var s := Strip(line);
    RecogniseIs(cls, s);
    hide Strip, MethodOf, Collapse, Parameters, Coverage.Classify;
    if MethodOf(s).Some? {
      var x := SpellingFound(s);
      SpelledSaid(s, x);
      SaidMeans(x);
    }
    if x: Spelling :| x.Of(s) && EntryFor(cls, x, e) {
      SpelledSaid(s, x);
      SaidMeans(x);
    }
  }

  lemma {:induction false} RecogniseIs(cls: string, s: string)
    ensures Recognise(Keep(cls))(s)
         == if MethodOf(s).None? then None else EntryOf(cls, MethodOf(s).value)
  {
    hide MethodOf, EntryOf;
  }

  /** The entries of a class, in order: one for each of its joined lines that stands in a public section,
      starts with none of the texts that are passed over, and is spelled as a method that the filters keep. */
  lemma {:induction false} ClassExactly(cls: string, body: seq<string>) returns (ix: seq<nat>)
    ensures Increasing(ix) && forall a | 0 <= a < |ix| :: ix[a] < |Logical(body)|
    ensures forall i: nat :: i in ix
              <==> i < |Logical(body)| && Considered(Logical(body), i) && exists e :: Yields(cls, Logical(body)[i], e)
    ensures var found := Parse(Private, Logical(body), Recognise(Keep(cls)));
            |found| == |ix| && forall a | 0 <= a < |ix| :: Yields(cls, Logical(body)[ix[a]], found[a])
  {
    var lines, r := Logical(body), Recognise(Keep(cls));
    ix := ParseExactly(lines, r);
    hide Logical, Parse, Considered, Yields, Strip, Recognise;
    forall i | 0 <= i < |lines|
      ensures r(Strip(lines[i])).Some? <==> exists e :: Yields(cls, lines[i], e)
      ensures r(Strip(lines[i])).Some? ==> Yields(cls, lines[i], r(Strip(lines[i])).value)
    {
      YieldsSome(cls, lines[i]);
    }
  }

  lemma {:induction false} YieldsSome(cls: string, line: string)
    ensures var got := Recognise(Keep(cls))(Strip(line));
            (got.Some? ==> Yields(cls, line, got.value)) && (got.Some? <==> exists e :: Yields(cls, line, e))
  {
    var got := Recognise(Keep(cls))(Strip(line));
    forall e ensures got == Some(e) <==> Yields(cls, line, e) {
      YieldsExactly(cls, line, e);
    }
    hide Yields, Recognise, Strip;
  }
}
