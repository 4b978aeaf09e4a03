/** The three readers of a list: `num_*`, `nth_*` and the one-pass `all_*`. */
module Listing {
  import opened Options

  /** What the resolver found: no object, or an object with the container the readers walk. The
      elements are given by their names, which is all the readers return of them. */
  datatype Found = Missing | Object(elems: seq<string>)

  function Elems(f: Found): seq<string> {
    if f.Missing? then [] else f.elems
  }

  /** Element `i`, or the empty text from the length on. */
  function ElementAt(xs: seq<string>, i: nat): string {
    if i < |xs| then xs[i] else ""
  }

  // ---- the generated readers; `visits` counts the elements a call looks at ------------------

  method Num(f: Found) returns (n: nat)
    ensures n == |Elems(f)|
  {
    if f.Missing? {
      return 0;
    }
    n := |f.elems|;
  }

  /** `nth_*` over a `dbSet`: a walk from the front. */
  method NthOfSet(f: Found, i: nat) returns (name: string, visits: nat)
    ensures name == ElementAt(Elems(f), i)
    ensures visits == if i < |Elems(f)| then i + 1 else |Elems(f)|
  {
    name, visits := "", 0;
    if f.Missing? {
      return;
    }
    var k := 0;
    for pos := 0 to |f.elems|
      invariant k == pos == visits <= i
    {
      visits := visits + 1;
      var here := k;
      k := k + 1;
      if here == i {
        return f.elems[pos], visits;
      }
    }
  }

  /** `nth_*` over a `std::vector` getter: the whole vector is copied, then indexed. */
  method NthOfVector(f: Found, i: nat) returns (name: string, visits: nat)
    ensures name == ElementAt(Elems(f), i)
    ensures visits == |Elems(f)|
  {
    name, visits := "", 0;
    if f.Missing? {
      return;
    }
    var v := [];
    for pos := 0 to |f.elems|
      invariant v == f.elems[..pos] && visits == pos
    {
      v := v + [f.elems[pos]];
      visits := visits + 1;
    }
    if i >= |v| {
      return "", visits;
    }
    return v[i], visits;
  }

  /** `all_*`: the whole list in one pass, over either container. It has the counted length and the
      element readers' elements, and those have nothing beyond it. */
  method All(f: Found) returns (out: seq<string>, visits: nat)
    ensures out == Elems(f)
    ensures |out| == |Elems(f)| && forall i: nat :: ElementAt(Elems(f), i) == if i < |out| then out[i] else ""
    ensures visits == |Elems(f)|
  {
    out, visits := [], 0;
    if f.Missing? {
      return;
    }
    for pos := 0 to |f.elems|
      invariant out == f.elems[..pos] && visits == pos
    {
      out := out + [f.elems[pos]];
      visits := visits + 1;
    }
  }

  // ---- the per-element form --------------------------------------------------------------------

  function SetVisits(i: nat, n: nat): nat {
    if i < n then i + 1 else n
  }

  /** The elements looked at by `nth_*` of a set for each position below `m`. */
  function TotalSetVisits(m: nat, n: nat): nat {
    if m == 0 then 0 else TotalSetVisits(m - 1, n) + SetVisits(m - 1, n)
  }

  lemma {:induction false} TriangularVisits(m: nat, n: nat)
    requires m <= n
    ensures 2 * TotalSetVisits(m, n) == m * (m + 1)
  {
    if m > 0 {
      TriangularVisits(m - 1, n);
      assert (m - 1) * m + 2 * m == m * (m + 1);
    }
  }

  /** The list built element by element from a set: the same list, at quadratic cost. */
  method ByElementOfSet(f: Found) returns (out: seq<string>, visits: nat)
    ensures out == Elems(f)
    ensures 2 * visits == |Elems(f)| * (|Elems(f)| + 1)
  {
    var n := Num(f);
    out, visits := [], 0;
    for i := 0 to n
      invariant out == Elems(f)[..i] && visits == TotalSetVisits(i, n)
    {
      var name, v := NthOfSet(f, i);
      out := out + [name];
      visits := visits + v;
    }
    TriangularVisits(n, n);
  }

  /** The list built element by element from a vector: every call copies the whole of it. */
  method ByElementOfVector(f: Found) returns (out: seq<string>, visits: nat)
    ensures out == Elems(f)
    ensures visits == |Elems(f)| * |Elems(f)|
  {
    var n := Num(f);
    out, visits := [], 0;
    for i := 0 to n
      invariant out == Elems(f)[..i] && visits == i * n
    {
      var name, v := NthOfVector(f, i);
      out := out + [name];
      visits := visits + v;
      assert i * n + n == (i + 1) * n;
    }
  }

  // ---- the index resolvers -----------------------------------------------------------------------

  function Pick<T>(xs: seq<T>, i: nat): Option<T> {
    if i < |xs| then Some(xs[i]) else None
  }

  /** `for (x : xs) if (k++ == i) return x; return nullptr;` */
  method Walk<T>(xs: seq<T>, i: nat) returns (r: Option<T>)
    ensures r == Pick(xs, i)
  {
    var k := 0;
    for pos := 0 to |xs|
      invariant k == pos <= i
    {
      var here := k;
      k := k + 1;
      if here == i {
        return Some(xs[pos]);
      }
    }
    return None;
  }

  datatype SWire<T> = SWire(boxes: seq<T>)
  datatype WiredNet<T> = WiredNet(name: string, swires: seq<SWire<T>>)

  /** `gen_sbox`: the net by name, a special wire of it and a box of that by position. */
  method SBox<T>(nets: map<string, WiredNet<T>>, net: string, wire: nat, box: nat) returns (r: Option<T>)
    ensures r.Some? <==> net in nets && wire < |nets[net].swires| && box < |nets[net].swires[wire].boxes|
    ensures r.Some? ==> r.value == nets[net].swires[wire].boxes[box]
  {
    if net !in nets {
      return None;
    }
    var w := Walk(nets[net].swires, wire);
    if w.None? {
      return None;
    }
    r := Walk(w.value.boxes, box);
  }
}
