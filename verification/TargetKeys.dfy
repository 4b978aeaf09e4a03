/** The keys of the table: what they look like, and that they are pairwise different. */
module TargetKeys {
  import opened Names
  import opened Targets
  import opened EmitLaws

  function KeysOf(rows: seq<Spec>): (keys: seq<string>)
    ensures |keys| == |rows| && forall i | 0 <= i < |rows| :: keys[i] == rows[i].key
  {
    seq(|rows|, i requires 0 <= i < |rows| => rows[i].key)
  }

  predicate AllOk(keys: seq<string>) {
    forall i | 0 <= i < |keys| :: KeyOk(keys[i])
  }

  const PLACED_KEYS := ["block", "inst", "net", "bterm", "master", "iterm", "mterm", "layer", "row", "via",
    "techvia", "ndr", "site", "obs", "swire", "guide", "gcell", "wire", "fill", "box"]

  const LOGICAL_KEYS := ["module", "group", "region", "blockage", "trackgrid", "marker_cat", "marker", "modinst",
    "modnet", "modbterm", "moditerm", "pwr_domain", "pwr_switch", "isolation", "level_shifter", "tech", "lib",
    "capnode", "rseg", "ccseg"]

  const SHAPES_AND_CUTS_KEYS := ["sbox", "bpin", "mpin", "techviarule", "techviagenrule", "techvialayerrule",
    "cutclassrule", "cutenclosurerule", "cutspacingrule", "cutspacingtablerule", "eolkeepoutrule", "spacingeolrule",
    "cornerspacingrule", "minsteprule"]

  const WIDTHS_AND_CHIPLETS_KEYS := ["mincutrule", "v54mincutrule", "maxspacingrule", "twowiresforbiddenrule",
    "widthtablerule", "wrongdirspacingrule", "layerantenna", "antennapinmodel", "via_params", "chip", "chipinst",
    "chipregion", "chipregioninst", "chipbump", "chipconn", "chipnet", "chippath", "unfoldedchip", "unfoldedregion",
    "unfoldedbump", "unfoldedconn", "unfoldednet"]

  lemma {:induction false} PlacedKeys()
    ensures KeysOf(PLACED) == PLACED_KEYS
  {
  }

  lemma {:induction false} PlacedOk()
    ensures AllOk(PLACED_KEYS)
  {
  }

  lemma {:induction false} PlacedDistinct()
    ensures forall i, j | 0 <= i < j < |PLACED_KEYS| :: PLACED_KEYS[i] != PLACED_KEYS[j]
  {
  }

  lemma {:induction false} LogicalKeys()
    ensures KeysOf(LOGICAL) == LOGICAL_KEYS
  {
  }

  lemma {:induction false} LogicalOk()
    ensures AllOk(LOGICAL_KEYS)
  {
  }

  lemma {:induction false} LogicalDistinct()
    ensures forall i, j | 0 <= i < j < |LOGICAL_KEYS| :: LOGICAL_KEYS[i] != LOGICAL_KEYS[j]
  {
  }

  lemma {:induction false} ShapesAndCutsKeys()
    ensures KeysOf(SHAPES_AND_CUTS) == SHAPES_AND_CUTS_KEYS
  {
  }

  lemma {:induction false} ShapesOk()
    ensures AllOk(["sbox", "bpin", "mpin", "techviarule", "techviagenrule", "techvialayerrule", "cutclassrule"])
  {
  }

  lemma {:induction false} CutsOk()
    ensures AllOk(["cutenclosurerule", "cutspacingrule", "cutspacingtablerule", "eolkeepoutrule", "spacingeolrule",
                   "cornerspacingrule", "minsteprule"])
  {
  }

  lemma {:induction false} ShapesAndCutsOk()
    ensures AllOk(SHAPES_AND_CUTS_KEYS)
  {
    ShapesOk();
    CutsOk();
    assert SHAPES_AND_CUTS_KEYS[..7]
        == ["sbox", "bpin", "mpin", "techviarule", "techviagenrule", "techvialayerrule", "cutclassrule"];
    assert SHAPES_AND_CUTS_KEYS[7..]
        == ["cutenclosurerule", "cutspacingrule", "cutspacingtablerule", "eolkeepoutrule", "spacingeolrule",
            "cornerspacingrule", "minsteprule"];
    hide KeyOk;
    BothOk(SHAPES_AND_CUTS_KEYS, 7);
  }

  lemma {:induction false} ShapesAndCutsDistinct()
    ensures forall i, j | 0 <= i < j < |SHAPES_AND_CUTS_KEYS| :: SHAPES_AND_CUTS_KEYS[i] != SHAPES_AND_CUTS_KEYS[j]
  {
  }

  lemma {:induction false} WidthsAndChipletsKeys()
    ensures KeysOf(WIDTHS_AND_CHIPLETS) == WIDTHS_AND_CHIPLETS_KEYS
  {
  }

  lemma {:induction false} WidthsOk()
    ensures AllOk(["mincutrule", "v54mincutrule", "maxspacingrule", "twowiresforbiddenrule", "widthtablerule"])
  {
  }

  lemma {:induction false} AntennasOk()
    ensures AllOk(["wrongdirspacingrule", "layerantenna", "antennapinmodel", "via_params"])
  {
  }

  lemma {:induction false} ChipletsOk()
    ensures AllOk(["chip", "chipinst", "chipregion", "chipregioninst", "chipbump", "chipconn", "chipnet", "chippath",
                   "unfoldedchip", "unfoldedregion", "unfoldedbump", "unfoldedconn", "unfoldednet"])
  {
  }

  lemma {:induction false} WidthsAndChipletsOk()
    ensures AllOk(WIDTHS_AND_CHIPLETS_KEYS)
  {
    WidthsOk();
    AntennasOk();
    ChipletsOk();
    assert WIDTHS_AND_CHIPLETS_KEYS[..9][..5]
        == ["mincutrule", "v54mincutrule", "maxspacingrule", "twowiresforbiddenrule", "widthtablerule"];
    assert WIDTHS_AND_CHIPLETS_KEYS[..9][5..]
        == ["wrongdirspacingrule", "layerantenna", "antennapinmodel", "via_params"];
    assert WIDTHS_AND_CHIPLETS_KEYS[9..]
        == ["chip", "chipinst", "chipregion", "chipregioninst", "chipbump", "chipconn", "chipnet", "chippath",
            "unfoldedchip", "unfoldedregion", "unfoldedbump", "unfoldedconn", "unfoldednet"];
    hide KeyOk;
    BothOk(WIDTHS_AND_CHIPLETS_KEYS[..9], 5);
    BothOk(WIDTHS_AND_CHIPLETS_KEYS, 9);
  }

  lemma {:induction false} BothOk(keys: seq<string>, n: nat)
    requires n <= |keys| && AllOk(keys[..n]) && AllOk(keys[n..])
    ensures AllOk(keys)
  {
    hide KeyOk;
    assert forall i | 0 <= i < n :: keys[i] == keys[..n][i];
    assert forall i | n <= i < |keys| :: keys[i] == keys[n..][i - n];
  }

  lemma {:induction false} WidthsAndChipletsDistinct()
    ensures forall i, j | 0 <= i < j < |WIDTHS_AND_CHIPLETS_KEYS| ::
              WIDTHS_AND_CHIPLETS_KEYS[i] != WIDTHS_AND_CHIPLETS_KEYS[j]
  {
  }

  lemma {:induction false} PlacedOffLogical()
    ensures forall i, j | 0 <= i < |PLACED_KEYS| && 0 <= j < |LOGICAL_KEYS| ::
              PLACED_KEYS[i] != LOGICAL_KEYS[j]
  {
  }

  lemma {:induction false} PlacedOffShapesAndCuts()
    ensures forall i, j | 0 <= i < |PLACED_KEYS| && 0 <= j < |SHAPES_AND_CUTS_KEYS| ::
              PLACED_KEYS[i] != SHAPES_AND_CUTS_KEYS[j]
  {
  }

  lemma {:induction false} PlacedOffWidthsAndChiplets()
    ensures forall i, j | 0 <= i < |PLACED_KEYS| && 0 <= j < |WIDTHS_AND_CHIPLETS_KEYS| ::
              PLACED_KEYS[i] != WIDTHS_AND_CHIPLETS_KEYS[j]
  {
  }

  lemma {:induction false} LogicalOffShapesAndCuts()
    ensures forall i, j | 0 <= i < |LOGICAL_KEYS| && 0 <= j < |SHAPES_AND_CUTS_KEYS| ::
              LOGICAL_KEYS[i] != SHAPES_AND_CUTS_KEYS[j]
  {
  }

  lemma {:induction false} LogicalOffWidthsAndChiplets()
    ensures forall i, j | 0 <= i < |LOGICAL_KEYS| && 0 <= j < |WIDTHS_AND_CHIPLETS_KEYS| ::
              LOGICAL_KEYS[i] != WIDTHS_AND_CHIPLETS_KEYS[j]
  {
  }

  lemma {:induction false} ShapesAndCutsOffWidthsAndChiplets()
    ensures forall i, j | 0 <= i < |SHAPES_AND_CUTS_KEYS| && 0 <= j < |WIDTHS_AND_CHIPLETS_KEYS| ::
              SHAPES_AND_CUTS_KEYS[i] != WIDTHS_AND_CHIPLETS_KEYS[j]
  {
  }

  lemma {:induction false} TargetKeysAre()
    ensures KeysOf(TARGETS) == PLACED_KEYS + LOGICAL_KEYS + SHAPES_AND_CUTS_KEYS + WIDTHS_AND_CHIPLETS_KEYS
  {
    PlacedKeys();
    LogicalKeys();
    ShapesAndCutsKeys();
    WidthsAndChipletsKeys();
    assert TARGETS == PLACED + LOGICAL + SHAPES_AND_CUTS + WIDTHS_AND_CHIPLETS;
    hide *;
    KeysAppend(PLACED + LOGICAL + SHAPES_AND_CUTS, WIDTHS_AND_CHIPLETS);
    KeysAppend(PLACED + LOGICAL, SHAPES_AND_CUTS);
    KeysAppend(PLACED, LOGICAL);
  }

  lemma {:induction false} KeysAppend(a: seq<Spec>, b: seq<Spec>)
    ensures KeysOf(a + b) == KeysOf(a) + KeysOf(b)
  {
  }

  predicate RowsOk(rows: seq<Spec>) {
    forall i | 0 <= i < |rows| :: KeyOk(rows[i].key)
  }

  /** Every key of the table is plain or one of the five compound ones, and none reads as a list
      prefix or as the start of a compound key that is not in the table. */
  lemma {:induction false} KeysOk()
    ensures RowsOk(TARGETS)
  {
    TargetKeysAre();
    PlacedOk();
    LogicalOk();
    ShapesAndCutsOk();
    WidthsAndChipletsOk();
    hide KeyOk, PLACED_KEYS, LOGICAL_KEYS, SHAPES_AND_CUTS_KEYS, WIDTHS_AND_CHIPLETS_KEYS, TARGETS;
    AllOkTogether(PLACED_KEYS, LOGICAL_KEYS, SHAPES_AND_CUTS_KEYS, WIDTHS_AND_CHIPLETS_KEYS);
    assert forall i | 0 <= i < |TARGETS| :: KeysOf(TARGETS)[i] == TARGETS[i].key;
  }

  lemma {:induction false} AllOkTogether(a: seq<string>, b: seq<string>, c: seq<string>, d: seq<string>)
    requires AllOk(a) && AllOk(b) && AllOk(c) && AllOk(d)
    ensures AllOk(a + b + c + d)
  {
    hide KeyOk;
  }

  /** No two classes of the table have the same key. */
  lemma {:induction false} KeysDistinct()
    ensures forall i, j | 0 <= i < j < |TARGETS| :: TARGETS[i].key != TARGETS[j].key
  {
    hide PLACED_KEYS, LOGICAL_KEYS, SHAPES_AND_CUTS_KEYS, WIDTHS_AND_CHIPLETS_KEYS, TARGETS;
    var a, b, c, d := PLACED_KEYS, LOGICAL_KEYS, SHAPES_AND_CUTS_KEYS, WIDTHS_AND_CHIPLETS_KEYS;
    PlacedDistinct();
    LogicalDistinct();
    ShapesAndCutsDistinct();
    WidthsAndChipletsDistinct();
    assert NoDup(a) && NoDup(b) && NoDup(c) && NoDup(d);
    OffEachOther();
    hide *;
    NoDupAppend(a, b);
    ApartAppend(a, b, c);
    NoDupAppend(a + b, c);
    ApartAppend(a, b, d);
    ApartAppend(a + b, c, d);
    NoDupAppend(a + b + c, d);
    TargetKeysAre();
    RowKeysDiffer(TARGETS);
  }

  lemma {:induction false} OffEachOther()
    ensures Apart(PLACED_KEYS, LOGICAL_KEYS) && Apart(PLACED_KEYS, SHAPES_AND_CUTS_KEYS)
    ensures Apart(LOGICAL_KEYS, SHAPES_AND_CUTS_KEYS) && Apart(PLACED_KEYS, WIDTHS_AND_CHIPLETS_KEYS)
    ensures Apart(LOGICAL_KEYS, WIDTHS_AND_CHIPLETS_KEYS) && Apart(SHAPES_AND_CUTS_KEYS, WIDTHS_AND_CHIPLETS_KEYS)
  {
    hide PLACED_KEYS, LOGICAL_KEYS, SHAPES_AND_CUTS_KEYS, WIDTHS_AND_CHIPLETS_KEYS;
    PlacedOffLogical();
    PlacedOffShapesAndCuts();
    LogicalOffShapesAndCuts();
    PlacedOffWidthsAndChiplets();
    LogicalOffWidthsAndChiplets();
    ShapesAndCutsOffWidthsAndChiplets();
  }

  lemma {:induction false} ApartAppend(a: seq<string>, b: seq<string>, c: seq<string>)
    requires Apart(a, c) && Apart(b, c)
    ensures Apart(a + b, c)
  {
  }

  lemma {:induction false} RowKeysDiffer(rows: seq<Spec>)
    requires NoDup(KeysOf(rows))
    ensures forall i, j | 0 <= i < j < |rows| :: rows[i].key != rows[j].key
  {
    assert forall i | 0 <= i < |rows| :: KeysOf(rows)[i] == rows[i].key;
  }
}
