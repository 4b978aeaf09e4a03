/** `gen_marker_cat`: a slash path resolved over the marker categories of a block and of its chip. */
module MarkerPath {
  import opened Options

  /** A category and the categories nested in it, in the order its container finds them. */
  datatype Category = Category(name: string, children: seq<Category>)

  type Forest = seq<Category>

  /** The categories filed on the chip, and on its block when it has one. */
  datatype Chip = Chip(categories: Forest, block: Option<Forest>)

  /** A category by where it is: its owner, and its position at every level. */
  datatype Ref = Ref(onBlock: bool, path: seq<nat>)

  /** `findMarkerCategory`: the first category of that name. */
  function FindChild(cats: Forest, name: string): (r: Option<nat>)
    ensures r.Some? ==> r.value < |cats| && cats[r.value].name == name
    ensures forall i | 0 <= i < (if r.Some? then r.value else |cats|) :: cats[i].name != name
  {
    if cats == [] then None
    else if cats[0].name == name then Some(0)
    else
      var r := FindChild(cats[1..], name);
      if r.None? then None else Some(r.value + 1)
  }

  function Index(s: string, c: char): (k: nat)
    ensures k <= |s| && c !in s[..k] && (k < |s| ==> s[k] == c)
  {
    if s == "" || s[0] == c then 0 else 1 + Index(s[1..], c)
  }

  /** `path.split("/")`: empty components are components. */
  function Split(s: string): (parts: seq<string>)
    ensures parts != []
    decreases |s|
  {
    var k := Index(s, '/');
    if k == |s| then [s] else [s[..k]] + Split(s[k + 1..])
  }

  /** Component by component from one forest; no component is looked up anywhere else. */
  function Descend(cats: Forest, parts: seq<string>): Option<seq<nat>>
    requires parts != []
    decreases |parts|
  {
    var i := FindChild(cats, parts[0]);
    if i.None? then None
    else if |parts| == 1 then Some([i.value])
    else
      var rest := Descend(cats[i.value].children, parts[1..]);
      if rest.None? then None else Some([i.value] + rest.value)
  }

  function Extend(ref: Ref, path: Option<seq<nat>>): Option<Ref> {
    if path.None? then None else Some(Ref(ref.onBlock, ref.path + path.value))
  }

  predicate BlockHas(chip: Chip, name: string) {
    chip.block.Some? && FindChild(chip.block.value, name).Some?
  }

  /** The reference meaning of a path: the first component decides between block and chip, block
      first, and from there on the path is walked down in that forest alone. */
  function Resolve(db: Option<Chip>, path: string): Option<Ref> {
    if path == "" || db.None? then None
    else
      var chip, parts := db.value, Split(path);
      if BlockHas(chip, parts[0]) then Extend(Ref(true, []), Descend(chip.block.value, parts))
      else Extend(Ref(false, []), Descend(chip.categories, parts))
  }

  // ---- the generated loop --------------------------------------------------------------------

  /** The category pointer of the loop. */
  datatype Cursor = Cursor(ref: Ref, node: Category)

  function RootOf(db: Option<Chip>, part: string): Option<Cursor> {
    if db.None? then None
    else if BlockHas(db.value, part) then
      var i := FindChild(db.value.block.value, part).value;
      Some(Cursor(Ref(true, [i]), db.value.block.value[i]))
    else
      var i := FindChild(db.value.categories, part);
      if i.None? then None else Some(Cursor(Ref(false, [i.value]), db.value.categories[i.value]))
  }

  function ChildOf(c: Cursor, part: string): Option<Cursor> {
    var i := FindChild(c.node.children, part);
    if i.None? then None
    else Some(Cursor(Ref(c.ref.onBlock, c.ref.path + [i.value]), c.node.children[i.value]))
  }

  /** What is left to do from a cursor. */
  function Onward(c: Option<Cursor>, parts: seq<string>): Option<Ref> {
    if c.None? then None
    else if parts == [] then Some(c.value.ref)
    else Extend(c.value.ref, Descend(c.value.node.children, parts))
  }

  lemma {:induction false} RootStep(db: Option<Chip>, path: string)
    requires path != ""
    ensures Resolve(db, path) == Onward(RootOf(db, Split(path)[0]), Split(path)[1..])
  {
    hide Split;
    assert forall p: seq<nat> :: [] + p == p;
  }

  lemma {:induction false} ChildStep(c: Cursor, parts: seq<string>)
    requires parts != []
    ensures Onward(Some(c), parts) == Onward(ChildOf(c, parts[0]), parts[1..])
  {
    var i := FindChild(c.node.children, parts[0]);
    if i.Some? && |parts| > 1 {
      var rest := Descend(c.node.children[i.value].children, parts[1..]);
      if rest.Some? {
        assert c.ref.path + ([i.value] + rest.value) == c.ref.path + [i.value] + rest.value;
      }
    }
  }

  lemma {:induction false} SplitAt(path: string, start: nat)
    requires start <= |path|
    ensures var k := Index(path[start..], '/'); var parts := Split(path[start..]);
            if start + k == |path| then parts == [path[start..]]
            else parts == [path[start..start + k]] + Split(path[start + k + 1..])
  {
    hide Index;
    var s := path[start..];
    var k := Index(s, '/');
    assert s[..k] == path[start..start + k];
    assert k < |s| ==> s[k + 1..] == path[start + k + 1..];
  }

  /** Once the block has the first component, a path it cannot finish is not tried on the chip. */
  predicate StaysOnBlock(db: Option<Chip>, path: string, r: Option<Ref>) {
    db.Some? && path != "" && BlockHas(db.value, Split(path)[0]) ==>
      if Descend(db.value.block.value, Split(path)).None? then r == None else r.Some? && r.value.onBlock
  }

  lemma {:induction false} StaysPut(db: Option<Chip>, path: string)
    ensures StaysOnBlock(db, path, Resolve(db, path))
  {
    hide Split, Descend;
  }

  /** The loop over `start`. It terminates for every path, and resolves what the path means. */
  method GenMarkerCat(db: Option<Chip>, path: string) returns (r: Option<Ref>)
    ensures r == Resolve(db, path) && StaysOnBlock(db, path, r)
  {
    hide StaysOnBlock;
    StaysPut(db, path);
    hide Split, Descend, BlockHas, RootOf, ChildOf, Resolve, Onward, Index;
    if path == "" {
      assert Resolve(db, path) == None by { EmptyPath(db); }
      return None;
    }
    var cat: Option<Cursor> := None;
    var start := 0;
    RootStep(db, path);
    assert path[0..] == path;
    while start <= |path|
      invariant start <= |path|
      invariant cat.None? <==> start == 0
      invariant cat.Some? ==> Resolve(db, path) == Onward(cat, Split(path[start..]))
      decreases |path| - start
    {
      SplitAt(path, start);
      var slash := start + Index(path[start..], '/');
      ghost var parts := Split(path[start..]);
      var part := path[start..slash];
      assert slash == |path| ==> part == path[start..];
      assert parts[0] == part;
      if cat.None? {
        cat := RootOf(db, part);
      } else {
        ChildStep(cat.value, parts);
        cat := ChildOf(cat.value, part);
      }
      assert Resolve(db, path) == Onward(cat, parts[1..]);
      Stops(cat);
      if cat.None? {
        return None;
      }
      if slash == |path| {
        assert parts[1..] == [];
        break;
      }
      assert parts[1..] == Split(path[slash + 1..]);
      start := slash + 1;
    }
    return Some(cat.value.ref);
  }

  lemma {:induction false} EmptyPath(db: Option<Chip>)
    ensures Resolve(db, "") == None
  {
  }

  lemma {:induction false} Stops(c: Option<Cursor>)
    ensures c.None? ==> forall parts: seq<string> :: Onward(c, parts) == None
    ensures c.Some? ==> Onward(c, []) == Some(c.value.ref)
  {
  }

  // ---- joining the names of a category and resolving them ---------------------------------------

  /** At every level siblings have different names, and no name holds a slash. */
  predicate WellNamed(cats: Forest)
    decreases cats
  {
    && (forall i, j | 0 <= i < j < |cats| :: cats[i].name != cats[j].name)
    && (forall i | 0 <= i < |cats| :: '/' !in cats[i].name)
    && (forall i | 0 <= i < |cats| :: WellNamed(cats[i].children))
  }

  predicate IsPath(cats: Forest, path: seq<nat>)
    decreases |path|
  {
    && path != [] && path[0] < |cats|
    && (|path| > 1 ==> IsPath(cats[path[0]].children, path[1..]))
  }

  function NamesOn(cats: Forest, path: seq<nat>): (names: seq<string>)
    requires IsPath(cats, path)
    ensures |names| == |path|
    decreases |path|
  {
    [cats[path[0]].name] + (if |path| == 1 then [] else NamesOn(cats[path[0]].children, path[1..]))
  }

  function JoinPath(parts: seq<string>): string
    requires parts != []
  {
    if |parts| == 1 then parts[0] else parts[0] + "/" + JoinPath(parts[1..])
  }

  lemma {:induction false} SplitJoin(parts: seq<string>)
    requires parts != [] && forall i | 0 <= i < |parts| :: '/' !in parts[i]
    ensures Split(JoinPath(parts)) == parts
  {
    var s := JoinPath(parts);
    var k := Index(s, '/');
    if |parts| == 1 {
    } else {
      SplitJoin(parts[1..]);
      var p, rest := parts[0], JoinPath(parts[1..]);
      assert s == p + "/" + rest;
      assert s[|p|] == '/' && s[|p| + 1..] == rest && s[..|p|] == p;
    }
  }

  lemma {:induction false} NamesSlashFree(cats: Forest, path: seq<nat>)
    requires WellNamed(cats) && IsPath(cats, path)
    ensures forall i | 0 <= i < |path| :: '/' !in NamesOn(cats, path)[i]
    decreases |path|
  {
    if |path| > 1 {
      NamesSlashFree(cats[path[0]].children, path[1..]);
    }
  }

  lemma {:induction false} WalkNames(cats: Forest, path: seq<nat>)
    requires WellNamed(cats) && IsPath(cats, path)
    ensures Descend(cats, NamesOn(cats, path)) == Some(path)
    decreases |path|
  {
    var names, i := NamesOn(cats, path), path[0];
    var found := FindChild(cats, names[0]);
    assert found == Some(i);
    if |path| > 1 {
      WalkNames(cats[i].children, path[1..]);
      assert names[1..] == NamesOn(cats[i].children, path[1..]);
      assert [i] + path[1..] == path;
    } else {
      assert path == [i];
    }
  }

  function ForestOf(chip: Chip, onBlock: bool): Forest
    requires onBlock ==> chip.block.Some?
  {
    if onBlock then chip.block.value else chip.categories
  }

  predicate IsRef(chip: Chip, ref: Ref) {
    (ref.onBlock ==> chip.block.Some?) && IsPath(ForestOf(chip, ref.onBlock), ref.path)
  }

  /** The slash path of a category. */
  function PathOf(chip: Chip, ref: Ref): string
    requires IsRef(chip, ref)
  {
    JoinPath(NamesOn(ForestOf(chip, ref.onBlock), ref.path))
  }

  /** In well-named forests, resolving the slash path of a category gives back that category if and
      only if the path is not empty and, for a category of the chip, the block has no category of the
      root's name. */
  lemma {:induction false} ResolveExactly(chip: Chip, ref: Ref)
    requires IsRef(chip, ref) && WellNamed(chip.categories)
    requires chip.block.Some? ==> WellNamed(chip.block.value)
    ensures Resolve(Some(chip), PathOf(chip, ref)) == Some(ref)
       <==> PathOf(chip, ref) != "" && (ref.onBlock || !BlockHas(chip, ForestOf(chip, false)[ref.path[0]].name))
  {
    var cats := ForestOf(chip, ref.onBlock);
    var names := NamesOn(cats, ref.path);
    NamesSlashFree(cats, ref.path);
    SplitJoin(names);
    WalkNames(cats, ref.path);
    hide Split, JoinPath, WellNamed, NamesOn;
    assert names[0] == cats[ref.path[0]].name by { FirstName(cats, ref.path); }
    assert [] + ref.path == ref.path;
    if ref.onBlock {
      assert FindChild(cats, names[0]).Some?;
    }
  }

  lemma {:induction false} FirstName(cats: Forest, path: seq<nat>)
    requires IsPath(cats, path)
    ensures NamesOn(cats, path)[0] == cats[path[0]].name
  {
  }
}
