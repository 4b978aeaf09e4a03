/** The table of bound classes. */
module Targets {

  /** A name that a key can have: never of the fallback form, nor a name that generated text uses. */
  predicate KeyNameOk(n: string) {
    |n| >= 3 && n[0] != 'a' && (n[0] == 'g' && n[1] == 'e' ==> |n| >= 6 && n[4] == 'i' && n[5] == 'd')
  }

  predicate ResolverOk(r: string) {
    |r| >= 6 && r[0] == 'g' && r[1] == 'e' && !(r[4] == 'i' && r[5] == 'd')
  }

  predicate Differ(args: seq<Key>) {
    && |args| <= 3
    && (|args| > 1 ==> args[0].name != args[1].name)
    && (|args| > 2 ==> args[0].name != args[2].name && args[1].name != args[2].name)
  }

  // What is true of every row is in these types: the constants below are well-formed because each row
  // they list meets it.

  type KeyName = n: string | KeyNameOk(n) witness "net"
  type Resolver = r: string | ResolverOk(r) witness "gen_net"
  type Keys = args: seq<Key> | Differ(args) witness []

  /** One addressing key of a class: a name, or a position in a collection. */
  datatype Key = Named(name: KeyName) | Index(name: KeyName)

  /** A bound class: the prefix of its generated names, its keys, and its resolver, which every
      row of the table calls with the handle and the keys in order. A read-only class gets no
      setters; `withheld` are the setters a class does not get. No row withholds any. */
  datatype Spec = Spec(cls: string, key: string, args: Keys, resolver: Resolver,
                       readOnly: bool, withheld: set<string>)

  // The rows of the table in order, cut into families of classes.

  const NETLIST: seq<Spec> := [
    Spec("dbBlock", "block", [], "gen_block", false, {}),
    Spec("dbInst", "inst", [Named("inst")], "gen_inst", false, {}),
    Spec("dbNet", "net", [Named("net")], "gen_net", false, {}),
    Spec("dbBTerm", "bterm", [Named("bterm")], "gen_bterm", false, {}),
    Spec("dbMaster", "master", [Named("master")], "gen_master", false, {}),
    Spec("dbITerm", "iterm", [Named("inst"), Named("pin")], "gen_iterm", false, {}),
    Spec("dbMTerm", "mterm", [Named("master"), Named("term")], "gen_mterm", false, {})
  ]

  const LAYERS_AND_VIAS: seq<Spec> := [
    Spec("dbTechLayer", "layer", [Named("layer")], "gen_techlayer", false, {}),
    Spec("dbRow", "row", [Named("row")], "gen_row", false, {}),
    Spec("dbVia", "via", [Named("via")], "gen_via", false, {}),
    Spec("dbTechVia", "techvia", [Named("via")], "gen_techvia", false, {}),
    Spec("dbTechNonDefaultRule", "ndr", [Named("rule")], "gen_ndr", false, {}),
    Spec("dbSite", "site", [Named("site")], "gen_site", false, {})
  ]

  const INDEXED: seq<Spec> := [
    Spec("dbObstruction", "obs", [Index("idx")], "gen_obstruction", false, {}),
    Spec("dbSWire", "swire", [Named("net"), Index("idx")], "gen_swire", false, {}),
    Spec("dbGuide", "guide", [Named("net"), Index("idx")], "gen_guide", false, {}),
    Spec("dbGCellGrid", "gcell", [], "gen_gcellgrid", false, {}),
    Spec("dbWire", "wire", [Named("net")], "gen_wire", false, {}),
    Spec("dbFill", "fill", [Index("idx")], "gen_fill", false, {}),
    Spec("dbBox", "box", [Index("idx")], "gen_box", false, {})
  ]

  const HIERARCHY: seq<Spec> := [
    Spec("dbModule", "module", [Named("module")], "gen_module", false, {}),
    Spec("dbGroup", "group", [Named("group")], "gen_group", false, {}),
    Spec("dbRegion", "region", [Named("region")], "gen_region", false, {}),
    Spec("dbBlockage", "blockage", [Index("idx")], "gen_blockage", false, {}),
    Spec("dbTrackGrid", "trackgrid", [Index("idx")], "gen_trackgrid", false, {}),
    Spec("dbMarkerCategory", "marker_cat", [Named("category")], "gen_marker_cat", false, {}),
    Spec("dbMarker", "marker", [Named("category"), Index("idx")], "gen_marker", false, {})
  ]

  const MODULES: seq<Spec> := [
    Spec("dbModInst", "modinst", [Named("path")], "gen_modinst", false, {}),
    Spec("dbModNet", "modnet", [Named("name")], "gen_modnet", false, {}),
    Spec("dbModBTerm", "modbterm", [Named("module"), Index("idx")], "gen_modbterm", false, {}),
    Spec("dbModITerm", "moditerm", [Named("modinst"), Index("idx")], "gen_moditerm", false, {})
  ]

  const POWER: seq<Spec> := [
    Spec("dbPowerDomain", "pwr_domain", [Named("name")], "gen_pwrdomain", false, {}),
    Spec("dbPowerSwitch", "pwr_switch", [Named("name")], "gen_pwrswitch", false, {})
  ]

  const ISOLATION: seq<Spec> := [
    Spec("dbIsolation", "isolation", [Named("name")], "gen_isolation", false, {}),
    Spec("dbLevelShifter", "level_shifter", [Named("name")], "gen_levelshifter", false, {})
  ]

  const TECH_AND_PARASITICS: seq<Spec> := [
    Spec("dbTech", "tech", [], "gen_tech", false, {}),
    Spec("dbLib", "lib", [Named("name")], "gen_lib", false, {}),
    Spec("dbCapNode", "capnode", [Index("idx")], "gen_capnode", false, {}),
    Spec("dbRSeg", "rseg", [Index("idx")], "gen_rseg", false, {}),
    Spec("dbCCSeg", "ccseg", [Index("idx")], "gen_ccseg", false, {})
  ]

  const SHAPES: seq<Spec> := [
    Spec("dbSBox", "sbox", [Named("net"), Index("swire_idx"), Index("sbox_idx")], "gen_sbox", false, {}),
    Spec("dbBPin", "bpin", [Named("bterm"), Index("idx")], "gen_bpin", false, {}),
    Spec("dbMPin", "mpin", [Named("master"), Named("term"), Index("idx")], "gen_mpin", false, {})
  ]

  const VIA_RULES: seq<Spec> := [
    Spec("dbTechViaRule", "techviarule", [Index("idx")], "gen_techviarule", false, {}),
    Spec("dbTechViaGenerateRule", "techviagenrule", [Index("idx")], "gen_techviagenrule", false, {}),
    Spec("dbTechViaLayerRule", "techvialayerrule", [Index("gen_idx"), Index("layer_idx")],
         "gen_techvialayerrule", false, {})
  ]

  const CUT_RULES: seq<Spec> := [
    Spec("dbTechLayerCutClassRule", "cutclassrule", [Named("layer"), Index("idx")], "gen_cutclassrule", false, {}),
    Spec("dbTechLayerCutEnclosureRule", "cutenclosurerule", [Named("layer"), Index("idx")],
         "gen_cutenclosurerule", false, {})
  ]

  const CUT_SPACING: seq<Spec> := [
    Spec("dbTechLayerCutSpacingRule", "cutspacingrule", [Named("layer"), Index("idx")],
         "gen_cutspacingrule", false, {}),
    Spec("dbTechLayerCutSpacingTableDefRule", "cutspacingtablerule", [Named("layer"), Index("idx")],
         "gen_cutspacingtablerule", false, {})
  ]

  const EOL_RULES: seq<Spec> := [
    Spec("dbTechLayerEolKeepOutRule", "eolkeepoutrule", [Named("layer"), Index("idx")],
         "gen_eolkeepoutrule", false, {}),
    Spec("dbTechLayerSpacingEolRule", "spacingeolrule", [Named("layer"), Index("idx")],
         "gen_spacingeolrule", false, {})
  ]

  const CORNER_AND_STEP: seq<Spec> := [
    Spec("dbTechLayerCornerSpacingRule", "cornerspacingrule", [Named("layer"), Index("idx")],
         "gen_cornerspacingrule", false, {}),
    Spec("dbTechLayerMinStepRule", "minsteprule", [Named("layer"), Index("idx")], "gen_minsteprule", false, {})
  ]

  const MIN_CUTS: seq<Spec> := [
    Spec("dbTechLayerMinCutRule", "mincutrule", [Named("layer"), Index("idx")], "gen_mincutrule", false, {}),
    Spec("dbTechMinCutRule", "v54mincutrule", [Named("layer"), Index("idx")], "gen_v54mincutrule", false, {})
  ]

  const SPACINGS: seq<Spec> := [
    Spec("dbTechLayerMaxSpacingRule", "maxspacingrule", [Named("layer"), Index("idx")],
         "gen_maxspacingrule", false, {}),
    Spec("dbTechLayerTwoWiresForbiddenSpcRule", "twowiresforbiddenrule", [Named("layer"), Index("idx")],
         "gen_twowiresforbiddenrule", false, {})
  ]

  const WIDTHS: seq<Spec> := [
    Spec("dbTechLayerWidthTableRule", "widthtablerule", [Named("layer"), Index("idx")],
         "gen_widthtablerule", false, {}),
    Spec("dbTechLayerWrongDirSpacingRule", "wrongdirspacingrule", [Named("layer"), Index("idx")],
         "gen_wrongdirspacingrule", false, {})
  ]

  const ANTENNA_AND_VIA: seq<Spec> := [
    Spec("dbTechLayerAntennaRule", "layerantenna", [Named("layer")], "gen_layerantenna", false, {}),
    Spec("dbTechAntennaPinModel", "antennapinmodel", [Named("master"), Named("term")],
         "gen_antennapinmodel", false, {}),
    Spec("dbViaParams", "via_params", [Named("via")], "gen_via_params", true, {})
  ]

  const CHIPLET: seq<Spec> := [
    Spec("dbChip", "chip", [Named("chip")], "gen_chip", false, {}),
    Spec("dbChipInst", "chipinst", [Named("chip"), Named("inst")], "gen_chipinst", false, {}),
    Spec("dbChipRegion", "chipregion", [Named("chip"), Named("region")], "gen_chipregion", false, {}),
    Spec("dbChipRegionInst", "chipregioninst", [Named("chip"), Named("inst"), Named("region")],
         "gen_chipregioninst", false, {})
  ]

  const CHIPLET_LINKS: seq<Spec> := [
    Spec("dbChipBump", "chipbump", [Named("chip"), Named("region"), Index("idx")], "gen_chipbump", false, {}),
    Spec("dbChipConn", "chipconn", [Named("chip"), Named("conn")], "gen_chipconn", false, {}),
    Spec("dbChipNet", "chipnet", [Named("chip"), Named("net")], "gen_chipnet", false, {}),
    Spec("dbChipPath", "chippath", [Named("chip"), Named("path")], "gen_chippath", false, {})
  ]

  const UNFOLDED: seq<Spec> := [
    Spec("dbUnfoldedChipInst", "unfoldedchip", [Named("path")], "gen_unfoldedchip", false, {}),
    Spec("dbUnfoldedChipRegionInst", "unfoldedregion", [Named("path"), Index("idx")],
         "gen_unfoldedregion", false, {}),
    Spec("dbUnfoldedChipBumpInst", "unfoldedbump", [Named("path"), Index("region_idx"), Index("idx")],
         "gen_unfoldedbump", false, {})
  ]

  const UNFOLDED_LINKS: seq<Spec> := [
    Spec("dbUnfoldedChipConn", "unfoldedconn", [Index("idx")], "gen_unfoldedconn", false, {}),
    Spec("dbUnfoldedChipNet", "unfoldednet", [Index("idx")], "gen_unfoldednet", false, {})
  ]

  const PLACED: seq<Spec> :=
    NETLIST + LAYERS_AND_VIAS + INDEXED

  const LOGICAL: seq<Spec> :=
    HIERARCHY + MODULES + POWER + ISOLATION + TECH_AND_PARASITICS

  const SHAPES_AND_CUTS: seq<Spec> :=
    SHAPES + VIA_RULES + CUT_RULES + CUT_SPACING + EOL_RULES + CORNER_AND_STEP

  const WIDTHS_AND_CHIPLETS: seq<Spec> :=
    MIN_CUTS + SPACINGS + WIDTHS + ANTENNA_AND_VIA + CHIPLET + CHIPLET_LINKS + UNFOLDED + UNFOLDED_LINKS

  const TARGETS: seq<Spec> := PLACED + LOGICAL + SHAPES_AND_CUTS + WIDTHS_AND_CHIPLETS
}
