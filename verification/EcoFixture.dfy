/** `make-eco-fixture`: one list of instances, written as a database and as a netlist. */
module EcoFixture {

  /** One instance: its name, its master, and (pin, net) pairs. */
  datatype InstDef = InstDef(name: string, master: string, conns: seq<(string, string)>)

  type Triple = (string, string, string)

  /** The masters of the library and the pins of each. */
  type Library = map<string, set<string>>

  // ---- what both forms should say ------------------------------------------------------------

  function TriplesOf(def: InstDef): (r: seq<Triple>)
    ensures |r| == |def.conns|
  {
    seq(|def.conns|, i requires 0 <= i < |def.conns| => (def.name, def.conns[i].0, def.conns[i].1))
  }

  function Triples(insts: seq<InstDef>): seq<Triple> {
    if insts == [] then [] else Triples(insts[..|insts| - 1]) + TriplesOf(insts[|insts| - 1])
  }

  lemma {:induction false} TriplesNext(insts: seq<InstDef>, i: nat)
    requires i < |insts|
    ensures Triples(insts[..i + 1]) == Triples(insts[..i]) + TriplesOf(insts[i])
  {
    assert insts[..i + 1][..i] == insts[..i];
  }

  // ---- form 1: the database --------------------------------------------------------------------

  datatype Instance = Instance(name: string, master: string, x: int)

  datatype Status = Done | NoMaster(master: string) | NoPin(pin: string, inst: string)

  predicate Known(lib: Library, def: InstDef) {
    def.master in lib && forall i | 0 <= i < |def.conns| :: def.conns[i].0 in lib[def.master]
  }

  /** Find or create. */
  function WithNet(nets: seq<string>, n: string): seq<string> {
    if n in nets then nets else nets + [n]
  }

  function NetsAfter(nets: seq<string>, ts: seq<Triple>): seq<string> {
    if ts == [] then nets else WithNet(NetsAfter(nets, ts[..|ts| - 1]), ts[|ts| - 1].2)
  }

  /** `connect`: a terminal is on one net, the last it was connected to. */
  function Connected(ts: seq<Triple>): map<(string, string), string> {
    if ts == [] then map[]
    else Connected(ts[..|ts| - 1])[(ts[|ts| - 1].0, ts[|ts| - 1].1) := ts[|ts| - 1].2]
  }

  function PlacedInsts(insts: seq<InstDef>): (r: seq<Instance>)
    ensures |r| == |insts|
  {
    seq(|insts|, i requires 0 <= i < |insts| => Instance(insts[i].name, insts[i].master, 5000 * i))
  }

  predicate Distinct<T(==)>(xs: seq<T>) {
    forall i, j | 0 <= i < j < |xs| :: xs[i] != xs[j]
  }

  class Database {
    var nets: seq<string>
    var ports: seq<string>
    var insts: seq<Instance>
    var conns: map<(string, string), string>

    constructor ()
      ensures nets == [] && ports == [] && insts == [] && conns == map[]
    {
      nets, ports, insts, conns := [], [], [], map[];
    }

    /** Both port loops: a net and a terminal for every port. Creating a net that exists is refused by
        the database and the port loops do not look, so the names must be new. */
    method AddPorts(names: seq<string>)
      requires Distinct(nets + names)
      modifies this`nets, this`ports
      ensures nets == old(nets) + names && ports == old(ports) + names
    {
      for i := 0 to |names|
        invariant nets == old(nets) + names[..i] && ports == old(ports) + names[..i]
      {
        nets := nets + [names[i]];
        ports := ports + [names[i]];
      }
    }

    /** The instance loop. It stops with an error at the first unknown master or pin. */
    method AddInstances(lib: Library, defs: seq<InstDef>) returns (s: Status)
      requires insts == [] && conns == map[]
      requires Distinct(seq(|defs|, i requires 0 <= i < |defs| => defs[i].name))
      modifies this`nets, this`insts, this`conns
      ensures s == Done <==> forall i | 0 <= i < |defs| :: Known(lib, defs[i])
      ensures s != Done ==> exists i :: FirstBad(lib, defs, i) && Blames(lib, defs[i], s)
      ensures s == Done ==> nets == NetsAfter(old(nets), Triples(defs))
      ensures s == Done ==> conns == Connected(Triples(defs)) && |insts| == |defs|
      ensures s == Done ==> forall i | 0 <= i < |defs| :: insts[i] == Instance(defs[i].name, defs[i].master, 5000 * i)
    {
      var x := 0;
      hide NetsAfter, Connected, PlacedInsts, Blames, Triples, Known;
      Nothing(nets, defs);
      for i := 0 to |defs|
        invariant x == 5000 * i
        invariant forall k | 0 <= k < i :: Known(lib, defs[k])
        invariant nets == NetsAfter(old(nets), Triples(defs[..i]))
        invariant conns == Connected(Triples(defs[..i]))
        invariant insts == PlacedInsts(defs[..i])
      {
        var def := defs[i];
        if def.master !in lib {
          Unknown(lib, def, NoMaster(def.master));
          assert FirstBad(lib, defs, i);
          return NoMaster(def.master);
        }
        insts := insts + [Instance(def.name, def.master, x)];
        x := x + 5000;
        PlacedNext(defs, i);
        TriplesNext(defs, i);
        s := ConnectPins(lib, def, old(nets), Triples(defs[..i]));
        if s != Done {
          Unknown(lib, def, s);
          assert FirstBad(lib, defs, i);
          return;
        }
      }
      s := Done;
      assert defs[..|defs|] == defs;
      PlacedAre(defs);
    }

    /** The pins of one instance: its nets are found or created, its terminals connected. */
    method ConnectPins(lib: Library, def: InstDef, ghost start: seq<string>, ghost before: seq<Triple>)
      returns (s: Status)
      requires def.master in lib
      requires nets == NetsAfter(start, before) && conns == Connected(before)
      modifies this`nets, this`conns
      ensures s == Done <==> Known(lib, def)
      ensures s != Done ==> Blames(lib, def, s)
      ensures s == Done ==>
                nets == NetsAfter(start, before + TriplesOf(def)) && conns == Connected(before + TriplesOf(def))
    {
      hide NetsAfter, Connected;
      ghost var here := TriplesOf(def);
      assert before + here[..0] == before && here[..|here|] == here;
      for j := 0 to |def.conns|
        invariant forall k | 0 <= k < j :: def.conns[k].0 in lib[def.master]
        invariant nets == NetsAfter(start, before + here[..j])
        invariant conns == Connected(before + here[..j])
      {
        var (pin, net) := def.conns[j];
        OneMore(start, before, here, j);
        if net !in nets {
          nets := nets + [net];
        }
        if pin !in lib[def.master] {
          return NoPin(pin, def.name);
        }
        conns := conns[(def.name, pin) := net];
      }
      return Done;
    }
  }

  /** Definition `i` is the first one that names something unknown. */
  predicate FirstBad(lib: Library, defs: seq<InstDef>, i: int) {
    0 <= i < |defs| && !Known(lib, defs[i]) && forall k | 0 <= k < i :: Known(lib, defs[k])
  }

  /** The error names what the definition got wrong. */
  predicate Blames(lib: Library, def: InstDef, s: Status) {
    match s
    case Done => false
    case NoMaster(master) => master == def.master && master !in lib
    case NoPin(pin, inst) =>
      def.master in lib && inst == def.name && pin !in lib[def.master]
      && exists j :: 0 <= j < |def.conns| && def.conns[j].0 == pin
  }

  lemma {:induction false} Unknown(lib: Library, def: InstDef, s: Status)
    requires Blames(lib, def, s) || (s == NoMaster(def.master) && def.master !in lib)
    ensures !Known(lib, def) && Blames(lib, def, s)
  {
  }

  lemma {:induction false} PlacedAre(defs: seq<InstDef>)
    ensures forall i | 0 <= i < |defs| :: PlacedInsts(defs)[i] == Instance(defs[i].name, defs[i].master, 5000 * i)
  {
  }

  lemma {:induction false} PlacedNext(defs: seq<InstDef>, i: nat)
    requires i < |defs|
    ensures PlacedInsts(defs[..i + 1]) == PlacedInsts(defs[..i]) + [Instance(defs[i].name, defs[i].master, 5000 * i)]
  {
  }

  lemma {:induction false} Nothing(nets: seq<string>, defs: seq<InstDef>)
    ensures NetsAfter(nets, Triples(defs[..0])) == nets && Connected(Triples(defs[..0])) == map[]
              && PlacedInsts(defs[..0]) == []
  {
  }

  lemma {:induction false} OneMore(nets: seq<string>, before: seq<Triple>, here: seq<Triple>, j: nat)
    requires j < |here|
    ensures NetsAfter(nets, before + here[..j + 1]) == WithNet(NetsAfter(nets, before + here[..j]), here[j].2)
    ensures Connected(before + here[..j + 1]) == Connected(before + here[..j])[(here[j].0, here[j].1) := here[j].2]
  {
    var ts := before + here[..j + 1];
    assert ts[..|ts| - 1] == before + here[..j] && ts[|ts| - 1] == here[j];
  }

  // ---- form 2: the netlist ---------------------------------------------------------------------

  /** One printed statement: `master name ( .pin(net), ... );`. */
  datatype Statement = Statement(master: string, name: string, ports: seq<(string, string)>)

  method WriteVerilog(defs: seq<InstDef>) returns (out: seq<Statement>)
    ensures |out| == |defs|
    ensures forall i | 0 <= i < |defs| :: out[i] == Statement(defs[i].master, defs[i].name, defs[i].conns)
  {
    out := [];
    for i := 0 to |defs|
      invariant |out| == i
      invariant forall k | 0 <= k < i :: out[k] == Statement(defs[k].master, defs[k].name, defs[k].conns)
    {
      var def, ports := defs[i], [];
      for j := 0 to |def.conns|
        invariant ports == def.conns[..j]
      {
        ports := ports + [(def.conns[j].0, def.conns[j].1)];
      }
      out := out + [Statement(def.master, def.name, ports)];
    }
  }

  /** The connections a netlist states. */
  function Stated(out: seq<Statement>): set<Triple> {
    set i, j | 0 <= i < |out| && 0 <= j < |out[i].ports| :: (out[i].name, out[i].ports[j].0, out[i].ports[j].1)
  }

  lemma {:induction false} TriplesAre(defs: seq<InstDef>)
    ensures forall t :: t in Triples(defs)
              <==> exists i, j ::
                     0 <= i < |defs| && 0 <= j < |defs[i].conns|
                     && t == (defs[i].name, defs[i].conns[j].0, defs[i].conns[j].1)
  {
    if defs != [] {
      var n := |defs| - 1;
      var front, last := defs[..n], defs[n];
      TriplesAre(front);
      hide Triples;
      assert Triples(defs) == Triples(front) + TriplesOf(last) by {
        TriplesNext(defs, n);
        assert defs[..n + 1] == defs;
      }
      forall t ensures t in Triples(defs)
          <==> exists i, j ::
                 0 <= i < |defs| && 0 <= j < |defs[i].conns|
                 && t == (defs[i].name, defs[i].conns[j].0, defs[i].conns[j].1)
      {
        if t in TriplesOf(last) {
          var j :| 0 <= j < |last.conns| && TriplesOf(last)[j] == t;
          assert defs[n] == last && t == (defs[n].name, defs[n].conns[j].0, defs[n].conns[j].1);
        }
        if i, j :|
             0 <= i < |defs| && 0 <= j < |defs[i].conns|
             && t == (defs[i].name, defs[i].conns[j].0, defs[i].conns[j].1) {
          if i < n {
            assert front[i] == defs[i];
          } else {
            assert TriplesOf(last)[j] == t;
          }
        }
      }
    }
  }

  // ---- the nets ------------------------------------------------------------------------------

  /** Every net name is created once: the ports, then each connection net where it first appears. */
  lemma {:induction false} NetsOnce(ports: seq<string>, ts: seq<Triple>)
    requires Distinct(ports)
    ensures Distinct(NetsAfter(ports, ts)) && ports <= NetsAfter(ports, ts)
    ensures forall n :: n in NetsAfter(ports, ts) <==> n in ports || exists i :: 0 <= i < |ts| && ts[i].2 == n
  {
    if ts != [] {
      var front, last := ts[..|ts| - 1], ts[|ts| - 1];
      NetsOnce(ports, front);
      var before := NetsAfter(ports, front);
      assert NetsAfter(ports, ts) == WithNet(before, last.2);
      hide NetsAfter;
      assert forall i | 0 <= i < |front| :: front[i] == ts[i];
      forall n ensures n in WithNet(before, last.2) <==> n in ports || exists i :: 0 <= i < |ts| && ts[i].2 == n {
        if n == last.2 {
          assert ts[|ts| - 1].2 == n;
        }
      }
    }
  }

  // ---- the connections -------------------------------------------------------------------------

  /** No terminal is given two nets. */
  predicate OneNetEach(ts: seq<Triple>) {
    forall i, j | 0 <= i < j < |ts| && ts[i].0 == ts[j].0 && ts[i].1 == ts[j].1 :: ts[i].2 == ts[j].2
  }

  ghost predicate SameRelation(m: map<(string, string), string>, ts: seq<Triple>) {
    && (forall k | k in m :: (k.0, k.1, m[k]) in ts)
    && (forall t | t in ts :: (t.0, t.1) in m && m[(t.0, t.1)] == t.2)
  }

  lemma {:induction false} ConnectedFrom(ts: seq<Triple>)
    ensures forall k | k in Connected(ts) :: (k.0, k.1, Connected(ts)[k]) in ts
    ensures forall t | t in ts :: (t.0, t.1) in Connected(ts)
  {
    if ts != [] {
      var front, last := ts[..|ts| - 1], ts[|ts| - 1];
      ConnectedFrom(front);
      assert ts == front + [last];
    }
  }

  lemma {:induction false} ConnectedAgrees(ts: seq<Triple>)
    requires OneNetEach(ts)
    ensures SameRelation(Connected(ts), ts)
  {
    ConnectedFrom(ts);
    forall t | t in ts ensures Connected(ts)[(t.0, t.1)] == t.2 {
      var k := (t.0, t.1);
      var u := (k.0, k.1, Connected(ts)[k]);
      assert u in ts;
      var i :| 0 <= i < |ts| && ts[i] == t;
      var j :| 0 <= j < |ts| && ts[j] == u;
      assert i < j || j < i || t == u;
    }
  }

  /** The database and the netlist connect the same (instance, pin, net) triples exactly when the list
      puts no terminal on two different nets. */
  lemma {:induction false} FormsAgreeExactly(defs: seq<InstDef>, out: seq<Statement>)
    requires |out| == |defs|
               && forall i | 0 <= i < |defs| :: out[i] == Statement(defs[i].master, defs[i].name, defs[i].conns)
    ensures (forall t ::
               t in Stated(out)
               <==> (t.0, t.1) in Connected(Triples(defs)) && Connected(Triples(defs))[(t.0, t.1)] == t.2)
       <==> OneNetEach(Triples(defs))
  {
    var ts := Triples(defs);
    var m := Connected(ts);
    TriplesAre(defs);
    ConnectedFrom(ts);
    hide Triples, Connected;
    assert forall t :: t in Stated(out) <==> t in ts by {
      forall t ensures t in Stated(out) <==> t in ts {
        if i, j :|
             0 <= i < |defs| && 0 <= j < |defs[i].conns|
             && t == (defs[i].name, defs[i].conns[j].0, defs[i].conns[j].1) {
          assert t == (out[i].name, out[i].ports[j].0, out[i].ports[j].1);
        }
      }
    }
    hide Stated;
    if OneNetEach(ts) {
      ConnectedAgrees(ts);
      forall t ensures t in Stated(out) <==> (t.0, t.1) in m && m[(t.0, t.1)] == t.2 {
        if (t.0, t.1) in m && m[(t.0, t.1)] == t.2 {
          var k := (t.0, t.1);
          assert (k.0, k.1, m[k]) == t;
        }
      }
    }
    if forall t :: t in Stated(out) <==> (t.0, t.1) in m && m[(t.0, t.1)] == t.2 {
      forall i, j | 0 <= i < j < |ts| && ts[i].0 == ts[j].0 && ts[i].1 == ts[j].1 ensures ts[i].2 == ts[j].2 {
        assert ts[i] in Stated(out) && ts[j] in Stated(out);
      }
    }
  }

  /** Distinct instances with distinct pins are such a list. */
  lemma {:induction false} DistinctPinsAgree(defs: seq<InstDef>)
    requires Distinct(seq(|defs|, i requires 0 <= i < |defs| => defs[i].name))
    requires forall i, j, k | 0 <= i < |defs| && 0 <= j < k < |defs[i].conns| ::
               defs[i].conns[j].0 != defs[i].conns[k].0
    ensures OneNetEach(Triples(defs))
  {
    var ts := Triples(defs);
    TriplesAre(defs);
    hide Triples;
    var names := seq(|defs|, i requires 0 <= i < |defs| => defs[i].name);
    forall a, b | 0 <= a < b < |ts| && ts[a].0 == ts[b].0 && ts[a].1 == ts[b].1 ensures ts[a].2 == ts[b].2 {
      assert ts[a] in ts && ts[b] in ts;
      var i, j :| 0 <= i < |defs| && 0 <= j < |defs[i].conns|
          && ts[a] == (defs[i].name, defs[i].conns[j].0, defs[i].conns[j].1);
      var k, l :| 0 <= k < |defs| && 0 <= l < |defs[k].conns|
          && ts[b] == (defs[k].name, defs[k].conns[l].0, defs[k].conns[l].1);
      assert names[i] == names[k];
      assert i == k;
    }
  }

  // ---- the design of the fixture -----------------------------------------------------------------

  const DESIGN := [
    InstDef("r1", "DFF", [("CK", "clk"), ("D", "y"), ("Q", "q1")]),
    InstDef("g1", "INV", [("A", "q1"), ("Y", "n1")]),
    InstDef("r2", "DFF", [("CK", "clk"), ("D", "n1"), ("Q", "y")])
  ]

  const DESIGN_TRIPLES: seq<Triple> := [
    ("r1", "CK", "clk"), ("r1", "D", "y"), ("r1", "Q", "q1"), ("g1", "A", "q1"), ("g1", "Y", "n1"),
    ("r2", "CK", "clk"), ("r2", "D", "n1"), ("r2", "Q", "y")
  ]

  lemma {:induction false} DesignTriples()
    ensures Triples(DESIGN) == DESIGN_TRIPLES
  {
    var d := DESIGN;
    assert d[..0] == [] && d[..3] == d && Triples([]) == [];
    TriplesNext(d, 0);
    TriplesNext(d, 1);
    TriplesNext(d, 2);
    hide Triples;
    assert TriplesOf(d[0]) == DESIGN_TRIPLES[..3];
    assert TriplesOf(d[1]) == DESIGN_TRIPLES[3..5];
    assert TriplesOf(d[2]) == DESIGN_TRIPLES[5..];
  }

  lemma {:induction false} NetsAt(ports: seq<string>, ts: seq<Triple>, j: nat)
    requires j < |ts|
    ensures NetsAfter(ports, ts[..j + 1]) == WithNet(NetsAfter(ports, ts[..j]), ts[j].2)
  {
    assert ts[..j + 1][..j] == ts[..j];
  }

  lemma {:induction false} RingNets(ts: seq<Triple>, clk: string, y: string, q1: string, n1: string)
    requires Distinct([clk, y, q1, n1]) && |ts| == 8
    requires ts[0].2 == clk && ts[1].2 == y && ts[2].2 == q1 && ts[3].2 == q1 && ts[4].2 == n1
    requires ts[5].2 == clk && ts[6].2 == n1 && ts[7].2 == y
    ensures NetsAfter([clk, y], ts) == [clk, y, q1, n1]
  {
    var p, all := [clk, y], [clk, y, q1, n1];
    assert all[0] != all[2] && all[1] != all[2] && all[0] != all[3] && all[1] != all[3] && all[2] != all[3];
    assert ts[..0] == [] && ts[..8] == ts && NetsAfter(p, []) == p;
    hide NetsAfter;
    NetsAt(p, ts, 0);
    assert NetsAfter(p, ts[..1]) == p;
    NetsAt(p, ts, 1);
    assert NetsAfter(p, ts[..2]) == p;
    NetsAt(p, ts, 2);
    assert NetsAfter(p, ts[..3]) == [clk, y, q1];
    NetsAt(p, ts, 3);
    assert NetsAfter(p, ts[..4]) == [clk, y, q1];
    NetsAt(p, ts, 4);
    assert NetsAfter(p, ts[..5]) == all;
    NetsAt(p, ts, 5);
    assert NetsAfter(p, ts[..6]) == all;
    NetsAt(p, ts, 6);
    assert NetsAfter(p, ts[..7]) == all;
    NetsAt(p, ts, 7);
  }

  /** The shipped list is one the two forms agree on, and the nets it adds to the ports are the two
      wires the netlist declares by hand. */
  lemma {:induction false} DesignWires()
    ensures OneNetEach(Triples(DESIGN))
    ensures NetsAfter(["clk", "y"], Triples(DESIGN)) == ["clk", "y", "q1", "n1"]
  {
    DesignTriples();
    hide NetsAfter, Triples;
    RingNets(DESIGN_TRIPLES, "clk", "y", "q1", "n1");
    DistinctPinsAgree(DESIGN);
  }
}
