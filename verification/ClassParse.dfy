/** `parse_class`: which methods a class body declares, and that the wraps do not decide it. */
module ClassParse {
  import opened Options
  import opened Text
  import opened LogicalLines
  import opened ParamSplit

  datatype Access = Public | Protected | Private

  const SKIPPED := ["//", "friend", "typedef", "using", "enum", "static ", "struct "]

  predicate Skips(s: string) {
    exists i | 0 <= i < |SKIPPED| :: StartsWith(s, SKIPPED[i])
  }

  function Label(s: string): Option<Access> {
    if s == "public:" then Some(Public)
    else if s == "protected:" then Some(Protected)
    else if s == "private:" then Some(Private)
    else None
  }

  /** One turn of the loop of `parse_class`: the access section and the method it adds, if any.
      `recognise` stands for everything decided from the stripped line alone: the method pattern,
      the name filters, the parameters and the kind. */
  function Turn<M>(access: Access, line: string, recognise: string -> Option<M>): (Access, seq<M>) {
    var s := Strip(line);
    var section := Label(s);
    if section.Some? then (section.value, [])
    else if access != Public || Skips(s) || recognise(s).None? then (access, [])
    else (access, [recognise(s).value])
  }

  function Parse<M>(access: Access, lines: seq<string>, recognise: string -> Option<M>): seq<M>
    decreases |lines|
  {
    if lines == [] then []
    else
      var (next, found) := Turn(access, lines[0], recognise);
      found + Parse(next, lines[1..], recognise)
  }

  lemma {:induction false} ParseUnrolls<M>(access: Access, lines: seq<string>, i: nat, recognise: string -> Option<M>,
                                           found: seq<M>)
    requires i < |lines|
    ensures var turn := Turn(access, lines[i], recognise);
            found + Parse(access, lines[i..], recognise)
            == (found + turn.1) + Parse(turn.0, lines[i + 1..], recognise)
  {
    hide Turn;
    var turn := Turn(access, lines[i], recognise);
    assert lines[i..][1..] == lines[i + 1..];
    var more := Parse(turn.0, lines[i + 1..], recognise);
    assert found + (turn.1 + more) == (found + turn.1) + more;
  }

  method ParseClass<M>(body: seq<string>, recognise: string -> Option<M>) returns (methods: seq<M>)
    ensures methods == Parse(Private, Logical(body), recognise)
  {
    hide Strip, Label, Skips, Logical, Parse;
    var lines := LogicalLinesOf(body);
    var access := Private;
    methods := [];
    assert lines[0..] == lines;
    assert methods + Parse(access, lines, recognise) == Parse(access, lines, recognise);
    for i := 0 to |lines|
      invariant Parse(Private, lines, recognise) == methods + Parse(access, lines[i..], recognise)
    {
      ParseUnrolls(access, lines, i, recognise, methods);
      ghost var next := (methods, Turn(access, lines[i], recognise));
      var s := Strip(lines[i]);
      var section := Label(s);
      if section.Some? {
        access := section.value;
      } else if access == Public && !Skips(s) {
        var m := recognise(s);
        if m.Some? {
          methods := methods + [m.value];
        }
      }
      assert access == next.1.0 && methods == next.0 + next.1.1;
    }
    NothingLeft(access, lines, recognise);
    assert methods + [] == methods;
  }

  lemma {:induction false} NothingLeft<M>(access: Access, lines: seq<string>, recognise: string -> Option<M>)
    ensures Parse(access, lines[|lines|..], recognise) == []
  {
  }

  // ---- which lines are recognised ----------------------------------------------------------

  predicate Labelled(line: string) {
    Strip(line) == "public:" || Strip(line) == "protected:" || Strip(line) == "private:"
  }

  /** Some line before line `i` opens a public section, and no label stands between the two. */
  predicate InPublic(lines: seq<string>, i: nat)
    requires i <= |lines|
  {
    exists j | 0 <= j < i :: Strip(lines[j]) == "public:" && forall k | j < k < i :: !Labelled(lines[k])
  }

  /** Line `i` stands in a public section and starts with none of the texts that are passed over. */
  predicate Considered(lines: seq<string>, i: nat)
    requires i < |lines|
  {
    && InPublic(lines, i) && !Labelled(lines[i])
    && var s := Strip(lines[i]);
       && !StartsWith(s, "//") && !StartsWith(s, "friend") && !StartsWith(s, "typedef") && !StartsWith(s, "using")
       && !StartsWith(s, "enum") && !StartsWith(s, "static ") && !StartsWith(s, "struct ")
  }

  /** A label is the last one before the lines after it, and only it is. */
  lemma {:induction false} InPublicNext(lines: seq<string>, i: nat)
    requires i < |lines|
    ensures InPublic(lines, i + 1)
       <==> Strip(lines[i]) == "public:" || (!Labelled(lines[i]) && InPublic(lines, i))
  {
    hide Strip;
    if !Labelled(lines[i]) && InPublic(lines, i) {
      var j :| 0 <= j < i && Strip(lines[j]) == "public:" && forall k | j < k < i :: !Labelled(lines[k]);
      assert forall k | j < k < i + 1 :: !Labelled(lines[k]);
    }
  }

  lemma {:induction false} TurnIs<M>(access: Access, lines: seq<string>, i: nat, recognise: string -> Option<M>)
    requires i < |lines| && (access == Public <==> InPublic(lines, i))
    ensures var turn := Turn(access, lines[i], recognise); var found := recognise(Strip(lines[i]));
            && (turn.0 == Public <==> InPublic(lines, i + 1))
            && turn.1 == if Considered(lines, i) && found.Some? then [found.value] else []
  {
    InPublicNext(lines, i);
    SkipsIs(Strip(lines[i]));
    assert "static" + " " == "static " && "struct" + " " == "struct ";
    hide Strip, StartsWith, Skips, InPublic;
  }

  lemma {:induction false} IncreasingCons(i: nat, ix: seq<nat>)
    requires Increasing(ix) && forall a | 0 <= a < |ix| :: i < ix[a]
    ensures Increasing([i] + ix)
  {
  }

  lemma {:induction false} ParseFrom<M>(access: Access, lines: seq<string>, n: nat, recognise: string -> Option<M>)
    returns (ix: seq<nat>)
    requires n <= |lines| && (access == Public <==> InPublic(lines, n))
    ensures Increasing(ix) && forall a | 0 <= a < |ix| :: n <= ix[a] < |lines|
    ensures forall i: nat :: i in ix <==> n <= i < |lines| && Considered(lines, i) && recognise(Strip(lines[i])).Some?
    ensures var found := Parse(access, lines[n..], recognise);
            |found| == |ix| && forall a | 0 <= a < |ix| :: recognise(Strip(lines[ix[a]])) == Some(found[a])
    decreases |lines| - n
  {
    hide Turn, Strip, Considered, InPublic;
    if n == |lines| {
      ix := [];
    } else {
      var turn := Turn(access, lines[n], recognise);
      TurnIs(access, lines, n, recognise);
      var more := ParseFrom(turn.0, lines, n + 1, recognise);
      assert lines[n..][1..] == lines[n + 1..];
      var found, after := recognise(Strip(lines[n])), Parse(turn.0, lines[n + 1..], recognise);
      assert Parse(access, lines[n..], recognise) == turn.1 + after;
      ix := more;
      if Considered(lines, n) && found.Some? {
        assert forall a | 0 <= a < |more| :: more[a] in more;
        IncreasingCons(n, more);
        ix := [n] + more;
      } else {
        assert [] + after == after;
      }
    }
  }

  /** What is parsed of a class: in order, what is recognised in the lines of its public sections, a
      section reaching from its label to the next one of any kind, that do not start with a comment, a
      friend, a type or a static member. */
  lemma {:induction false} ParseExactly<M>(lines: seq<string>, recognise: string -> Option<M>) returns (ix: seq<nat>)
    ensures Increasing(ix) && forall a | 0 <= a < |ix| :: ix[a] < |lines|
    ensures forall i: nat :: i in ix <==> i < |lines| && Considered(lines, i) && recognise(Strip(lines[i])).Some?
    ensures var found := Parse(Private, lines, recognise);
            |found| == |ix| && forall a | 0 <= a < |ix| :: recognise(Strip(lines[ix[a]])) == Some(found[a])
  {
    hide Considered;
    assert lines[0..] == lines;
    ix := ParseFrom(Private, lines, 0, recognise);
  }

  // ---- items that are parsed alike ---------------------------------------------------------

  /** What an item says, wraps and indentation aside. */
  function Said(item: Item): string {
    match item
    case Plain(line) => Strip(line)
    case Decl(segs) => Join(StripEach(segs), " ")
  }

  /** Every turn of the loop goes the same way for the two lines. */
  ghost predicate TurnAlike<M(!new)>(x: string, y: string, recognise: string -> Option<M>) {
    forall access: Access :: Turn(access, x, recognise) == Turn(access, y, recognise)
  }

  lemma {:induction false} ParseSame<M(!new)>(access: Access, a: seq<string>, b: seq<string>,
                                       recognise: string -> Option<M>)
    requires |a| == |b| && forall i | 0 <= i < |a| :: TurnAlike(a[i], b[i], recognise)
    ensures Parse(access, a, recognise) == Parse(access, b, recognise)
    decreases |a|
  {
    hide Turn;
    if a != [] {
      assert TurnAlike(a[0], b[0], recognise);
      assert Turn(access, a[0], recognise) == Turn(access, b[0], recognise);
      ParseSame(Turn(access, a[0], recognise).0, a[1..], b[1..], recognise);
    }
  }

  lemma {:induction false} ItemsParseAlike<M(!new)>(a: seq<Item>, b: seq<Item>, recognise: string -> Option<M>)
    requires |a| == |b| && AllValid(a) && AllValid(b)
    requires forall i | 0 <= i < |a| :: TurnAlike(a[i].Line(), b[i].Line(), recognise)
    ensures Parse(Private, Logical(Render(a)), recognise) == Parse(Private, Logical(Render(b)), recognise)
  {
    hide TurnAlike;
    assert Render(a) + [] == Render(a) && Render(b) + [] == Render(b);
    WrapInvariance(a, []);
    WrapInvariance(b, []);
    OneLineEachLength(a);
    OneLineEachLength(b);
    var la, lb := OneLineEach(a), OneLineEach(b);
    forall i | 0 <= i < |a| ensures TurnAlike(la[i], lb[i], recognise) {
      OneLineEachAt(a, i);
      OneLineEachAt(b, i);
    }
    assert Logical([]) == [];
    assert la + [] == la && lb + [] == lb;
    ParseSame(Private, la, lb, recognise);
  }

  // ---- the same text: every recogniser -----------------------------------------------------

  /** The same line, or the same text in two wrappings. */
  predicate SameText(a: Item, b: Item)
    requires a.Valid() && b.Valid()
  {
    && (a.Decl? <==> b.Decl?) && Said(a) == Said(b)
    && (a.Decl? ==> Tidy(a.segs) && Tidy(b.segs))
  }

  lemma {:induction false} LineIsSaid(item: Item)
    requires item.Valid() && (item.Decl? ==> Tidy(item.segs))
    ensures Strip(item.Line()) == Said(item)
  {
    if item.Decl? {
      var segs := item.segs;
      assert Strip(segs[0]) != "" && Strip(segs[|segs| - 1]) != "";
      JoinedIsTheText(segs);
    }
  }

  /** Two bodies whose items pairwise carry the same text parse to the same methods, whatever is
      decided from a stripped line. */
  lemma {:induction false} WrapsParseAlike<M(!new)>(a: seq<Item>, b: seq<Item>, recognise: string -> Option<M>)
    requires |a| == |b| && AllValid(a) && AllValid(b)
    requires forall i | 0 <= i < |a| :: SameText(a[i], b[i])
    ensures Parse(Private, Logical(Render(a)), recognise) == Parse(Private, Logical(Render(b)), recognise)
  {
    forall i | 0 <= i < |a| ensures TurnAlike(a[i].Line(), b[i].Line(), recognise) {
      assert SameText(a[i], b[i]);
      LineIsSaid(a[i]);
      LineIsSaid(b[i]);
    }
    ItemsParseAlike(a, b, recognise);
  }

  // ---- the same words ----------------------------------------------------------------------

  /** After a leading `static` or `struct` the first white space, if any comes next, is a blank. */
  predicate BlankAfterKeyword(line: string) {
    var s := Strip(line);
    forall w | w in ["static", "struct"] :: StartsWith(s, w) && |s| > 6 && IsSpace(s[6]) ==> s[6] == ' '
  }

  lemma {:induction false} RunsStart(s: string)
    requires s != "" && IsSpace(s[0])
    ensures Runs(s) != "" && Runs(s)[0] == ' '
  {
    if |s| > 1 && IsSpace(s[1]) {
      RunsStart(s[1..]);
    }
  }

  predicate Solid(p: string) {
    forall i | 0 <= i < |p| :: !IsSpace(p[i])
  }

  lemma {:induction false} RunsPrefix(s: string, p: string)
    requires Solid(p)
    ensures StartsWith(s, p) <==> StartsWith(Runs(s), p)
    ensures StartsWith(s, p) ==> Runs(s) == p + Runs(s[|p|..])
    decreases |p|
  {
    if p == "" {
      assert s[0..] == s && p + Runs(s) == Runs(s);
    } else if s != "" {
      if IsSpace(s[0]) {
        RunsStart(s);
        StartsWithFirst(s, p);
        StartsWithFirst(Runs(s), p);
      } else {
        RunsPrefix(s[1..], p[1..]);
        StartsWithCons(s, p);
        RunsSolidStart(s);
        StartsWithCons(Runs(s), p);
        hide *;
        assert ([s[0]] + Runs(s[1..]))[1..] == Runs(s[1..]);
        if StartsWith(s, p) {
          StartsWithFits(s, p);
          assert s[1..][|p| - 1..] == s[|p|..];
          assert [s[0]] + (p[1..] + Runs(s[|p|..])) == p + Runs(s[|p|..]);
        }
      }
    }
  }

  lemma {:induction false} RunsSolidStart(s: string)
    requires s != "" && !IsSpace(s[0])
    ensures Runs(s) == [s[0]] + Runs(s[1..])
  {
  }

  lemma {:induction false} StartsWithFits(s: string, p: string)
    requires StartsWith(s, p)
    ensures |p| <= |s|
  {
  }

  lemma {:induction false} StartsWithFirst(s: string, p: string)
    requires p != "" && s != "" && s[0] != p[0]
    ensures !StartsWith(s, p)
  {
    assert |p| <= |s| ==> s[..|p|][0] == s[0];
  }

  lemma {:induction false} StartsWithCons(s: string, p: string)
    requires p != "" && s != ""
    ensures StartsWith(s, p) <==> s[0] == p[0] && StartsWith(s[1..], p[1..])
  {
    if |p| <= |s| {
      assert s[..|p|] == [s[0]] + s[1..][..|p| - 1];
      assert p == [p[0]] + p[1..];
    }
  }

  lemma {:induction false} StartsWithBlank(s: string, w: string)
    ensures StartsWith(s, w + " ") <==> StartsWith(s, w) && |s| > |w| && s[|w|] == ' '
  {
    if |s| > |w| {
      assert s[..|w| + 1] == s[..|w|] + [s[|w|]];
    }
  }

  /** A leading word is read the same before and after normalisation, the blank after it too, if what
      follows it is a blank when it is white space at all. */
  lemma {:induction false} WordBlank(s: string, w: string)
    requires Solid(w) && (StartsWith(s, w) && |s| > |w| && IsSpace(s[|w|]) ==> s[|w|] == ' ')
    ensures StartsWith(s, w + " ") <==> StartsWith(Runs(s), w + " ")
  {
    RunsPrefix(s, w);
    StartsWithBlank(s, w);
    StartsWithBlank(Runs(s), w);
    if StartsWith(s, w) && |s| > |w| {
      if IsSpace(s[|w|]) {
        RunsStart(s[|w|..]);
      } else {
        assert Runs(s[|w|..])[0] == s[|w|];
      }
      assert Runs(s)[|w|] == Runs(s[|w|..])[0];
    }
  }

  lemma {:induction false} SkipsIs(s: string)
    ensures Skips(s)
       <==> (StartsWith(s, "//") || StartsWith(s, "friend") || StartsWith(s, "typedef") || StartsWith(s, "using")
             || StartsWith(s, "enum") || StartsWith(s, "static" + " ") || StartsWith(s, "struct" + " "))
  {
    hide StartsWith;
    assert "static" + " " == "static " && "struct" + " " == "struct ";
    assert SKIPPED[0] == "//" && SKIPPED[1] == "friend" && SKIPPED[2] == "typedef" && SKIPPED[3] == "using";
    assert SKIPPED[4] == "enum" && SKIPPED[5] == "static " && SKIPPED[6] == "struct ";
  }

  lemma {:induction false} SolidWords()
    ensures Solid("//") && Solid("friend") && Solid("typedef") && Solid("using") && Solid("enum")
    ensures Solid("static") && Solid("struct") && |"static"| == |"struct"| == 6
  {
  }

  lemma {:induction false} SkipsCollapsed(line: string)
    requires BlankAfterKeyword(line)
    ensures Skips(Strip(line)) <==> Skips(Collapse(line))
  {
    var s := Strip(line);
    SolidWords();
    KeywordBlanks(line);
    CollapseIs(line);
    SkipsIs(s);
    SkipsIs(Collapse(line));
    hide *;
    RunsPrefix(s, "//");
    RunsPrefix(s, "friend");
    RunsPrefix(s, "typedef");
    RunsPrefix(s, "using");
    RunsPrefix(s, "enum");
    WordBlank(s, "static");
    WordBlank(s, "struct");
  }

  lemma {:induction false} KeywordBlanks(line: string)
    requires BlankAfterKeyword(line)
    ensures var s := Strip(line);
            && (StartsWith(s, "static") && |s| > 6 && IsSpace(s[6]) ==> s[6] == ' ')
            && (StartsWith(s, "struct") && |s| > 6 && IsSpace(s[6]) ==> s[6] == ' ')
  {
    hide StartsWith, Strip;
    assert "static" in ["static", "struct"] && "struct" in ["static", "struct"];
  }

  lemma {:induction false} RunsSolid(s: string, w: string)
    requires Solid(w)
    ensures Runs(s) == w <==> s == w
  {
    RunsPrefix(s, w);
    if StartsWith(s, w) {
      var rest := s[|w|..];
      assert s == w + rest;
      assert Runs(rest) == "" <==> rest == "" by {
        if rest != "" && IsSpace(rest[0]) {
          RunsStart(rest);
        }
      }
    } else {
      assert w[..|w|] == w;
    }
  }

  lemma {:induction false} LabelCollapsed(line: string)
    ensures Label(Strip(line)) == Label(Collapse(line))
  {
    var s := Strip(line);
    hide Strip, Runs;
    RunsSolid(s, "public:");
    RunsSolid(s, "protected:");
    RunsSolid(s, "private:");
  }

  predicate SameWords(a: Item, b: Item)
    requires a.Valid() && b.Valid()
  {
    Collapse(Said(a)) == Collapse(Said(b)) && BlankAfterKeyword(a.Line()) && BlankAfterKeyword(b.Line())
  }

  lemma {:induction false} SaidCollapsed(item: Item)
    requires item.Valid()
    ensures Collapse(item.Line()) == Collapse(Said(item))
  {
    match item
    case Plain(line) => CollapseStrip(line);
    case Decl(segs) => assert segs != []; JoinedNormalised(segs);
  }

  /** The keyword test needs its blank: after a tab a static member is not skipped. */
  lemma {:induction false} TabNotSkipped(rest: string)
    ensures Collapse("static" + "\t" + rest) == Collapse("static" + " " + rest)
    ensures Skips("static" + " " + rest) && !Skips("static" + "\t" + rest)
  {
    hide Collapse, Skips;
    GapsAlike("static", "\t", " ", rest);
    BlankSkipped(rest);
    TabbedKept("static" + "\t" + rest);
  }

  lemma {:induction false} GapsAlike(a: string, v: string, w: string, b: string)
    requires v != "" && AllSpace(v) && w != "" && AllSpace(w)
    ensures Collapse(a + v + b) == Collapse(a + w + b)
  {
    CollapseApart(a, v, b);
    CollapseApart(a, w, b);
  }

  lemma {:induction false} BlankSkipped(rest: string)
    ensures Skips("static" + " " + rest)
  {
    var x := "static" + " " + rest;
    assert x[..7] == "static" + " ";
    SkipsIs(x);
  }

  lemma {:induction false} TabbedKept(y: string)
    requires |y| > 6 && y[0] == 's' && y[2] == 'a' && y[6] == '\t'
    ensures !Skips(y)
  {
    SkipsIs(y);
    hide Skips;
    StartsWithBlank(y, "static");
    StartsWithBlank(y, "struct");
    assert y[..6][2] == 'a' && "struct"[2] == 'r';
    hide StartsWith;
    StartsWithFirst(y, "//");
    StartsWithFirst(y, "friend");
    StartsWithFirst(y, "typedef");
    StartsWithFirst(y, "using");
    StartsWithFirst(y, "enum");
  }
}
