/** The cut spacing table readers: a ragged table of pairs as one flat list, and its two maps. */
module FlatTable {
  import opened Options

  type PairRow = seq<(int, int)>
  type Table = seq<PairRow>

  // ---- the encoding ------------------------------------------------------------------------

  const TWO31 := 0x8000_0000
  const TWO32 := 0x1_0000_0000

  /** `(int32_t) n`: the size wrapped to 32 bits. */
  function ToInt32(n: int): (r: int)
    ensures -TWO31 <= r < TWO31
  {
    (n + TWO31) % TWO32 - TWO31
  }

  function Pairs(row: PairRow): seq<int> {
    if row == [] then [] else [row[0].0, row[0].1] + Pairs(row[1..])
  }

  function FlatRows(t: Table): seq<int> {
    if t == [] then [] else [ToInt32(|t[0]|)] + Pairs(t[0]) + FlatRows(t[1..])
  }

  function Encode(t: Table): seq<int> {
    [ToInt32(|t|)] + FlatRows(t)
  }

  lemma {:induction false} PairsAppend(a: PairRow, b: PairRow)
    ensures Pairs(a + b) == Pairs(a) + Pairs(b)
  {
    if a == [] {
      assert a + b == b;
    } else {
      assert (a + b)[1..] == a[1..] + b;
      PairsAppend(a[1..], b);
    }
  }

  lemma {:induction false} RowsAppend(a: Table, b: Table)
    ensures FlatRows(a + b) == FlatRows(a) + FlatRows(b)
  {
    hide Pairs, ToInt32;
    if a == [] {
      assert a + b == b;
    } else {
      assert (a + b)[1..] == a[1..] + b;
      RowsAppend(a[1..], b);
      assert [ToInt32(|a[0]|)] + Pairs(a[0]) + (FlatRows(a[1..]) + FlatRows(b)) == FlatRows(a) + FlatRows(b);
    }
  }

  lemma {:induction false} OnePair(row: PairRow, j: nat)
    requires j < |row|
    ensures Pairs(row[..j + 1]) == Pairs(row[..j]) + [row[j].0] + [row[j].1]
  {
    PairsAppend(row[..j], [row[j]]);
    assert row[..j + 1] == row[..j] + [row[j]];
    assert Pairs([row[j]]) == [row[j].0, row[j].1] + Pairs([]);
  }

  lemma {:induction false} OneRow(t: Table, i: nat)
    requires i < |t|
    ensures FlatRows(t[..i + 1]) == FlatRows(t[..i]) + [ToInt32(|t[i]|)] + Pairs(t[i])
  {
    hide ToInt32, Pairs;
    RowsAppend(t[..i], [t[i]]);
    assert t[..i + 1] == t[..i] + [t[i]];
    assert [t[i]][1..] == [];
    assert FlatRows([t[i]]) == [ToInt32(|t[i]|)] + Pairs(t[i]) + [];
  }

  /** The generated loop over the rows and their pairs. */
  method SpacingTable(v0: Table) returns (out: seq<int>)
    ensures out == Encode(v0)
  {
    hide Pairs, FlatRows, ToInt32;
    out := [ToInt32(|v0|)];
    assert FlatRows(v0[..0]) == [] && v0[..|v0|] == v0 by { NoRows(v0); }
    for i := 0 to |v0|
      invariant out == [ToInt32(|v0|)] + FlatRows(v0[..i])
    {
      var row := v0[i];
      out := out + [ToInt32(|row|)];
      ghost var before := out;
      assert Pairs(row[..0]) == [] && row[..|row|] == row by { NoPairs(row); }
      for j := 0 to |row|
        invariant out == before + Pairs(row[..j])
      {
        OnePair(row, j);
        out := out + [row[j].0];
        out := out + [row[j].1];
      }
      OneRow(v0, i);
    }
  }

  lemma {:induction false} NoRows(t: Table)
    ensures FlatRows(t[..0]) == [] && t[..|t|] == t
  {
  }

  lemma {:induction false} NoPairs(row: PairRow)
    ensures Pairs(row[..0]) == [] && row[..|row|] == row
  {
  }

  // ---- decoding ----------------------------------------------------------------------------

  /** Read `n` pairs. */
  function TakePairs(n: nat, xs: seq<int>): Option<(PairRow, seq<int>)>
    decreases n
  {
    if n == 0 then Some(([], xs))
    else if |xs| < 2 then None
    else
      var more := TakePairs(n - 1, xs[2..]);
      if more.None? then None else Some(([(xs[0], xs[1])] + more.value.0, more.value.1))
  }

  /** Read `n` rows, each with its length before it. */
  function TakeRows(n: nat, xs: seq<int>): Option<(Table, seq<int>)>
    decreases n
  {
    if n == 0 then Some(([], xs))
    else if xs == [] || xs[0] < 0 then None
    else
      var row := TakePairs(xs[0], xs[1..]);
      if row.None? then None
      else
        var more := TakeRows(n - 1, row.value.1);
        if more.None? then None else Some(([row.value.0] + more.value.0, more.value.1))
  }

  /** Read a table from the front of a list: the table and what follows it. */
  function Decode(xs: seq<int>): Option<(Table, seq<int>)> {
    if xs == [] || xs[0] < 0 then None else TakeRows(xs[0], xs[1..])
  }

  /** Every size is a 32-bit integer. */
  predicate SizesFit(t: Table) {
    |t| < TWO31 && forall i | 0 <= i < |t| :: |t[i]| < TWO31
  }

  lemma {:induction false} CastExactly(n: nat)
    ensures ToInt32(n) == n <==> n < TWO31
  {
    var m := n + TWO31;
    if n < TWO31 {
      assert m % TWO32 == m;
    }
  }

  lemma {:induction false} PairsBack(row: PairRow, rest: seq<int>)
    ensures TakePairs(|row|, Pairs(row) + rest) == Some((row, rest))
  {
    if row == [] {
      assert Pairs(row) + rest == rest;
    } else {
      var xs := Pairs(row) + rest;
      assert xs[2..] == Pairs(row[1..]) + rest;
      PairsBack(row[1..], rest);
      assert [(xs[0], xs[1])] + row[1..] == row;
    }
  }

  lemma {:induction false} PairCount(n: nat, xs: seq<int>)
    ensures TakePairs(n, xs).Some? ==> |TakePairs(n, xs).value.0| == n
    decreases n
  {
    if n > 0 && |xs| >= 2 {
      PairCount(n - 1, xs[2..]);
    }
  }

  lemma {:induction false} RowCount(n: nat, xs: seq<int>)
    ensures TakeRows(n, xs).Some? ==> |TakeRows(n, xs).value.0| == n
    decreases n
  {
    hide TakePairs;
    if n > 0 && xs != [] && xs[0] >= 0 && TakePairs(xs[0], xs[1..]).Some? {
      RowCount(n - 1, TakePairs(xs[0], xs[1..]).value.1);
    }
  }

  predicate RowsFit(t: Table) {
    forall i | 0 <= i < |t| :: |t[i]| < TWO31
  }

  lemma {:induction false} FirstRow(t: Table, rest: seq<int>)
    requires t != []
    ensures var xs := FlatRows(t) + rest;
            xs[0] == ToInt32(|t[0]|) && xs[1..] == Pairs(t[0]) + (FlatRows(t[1..]) + rest)
  {
    hide Pairs, ToInt32;
    var head := [ToInt32(|t[0]|)];
    assert FlatRows(t) + rest == head + (Pairs(t[0]) + (FlatRows(t[1..]) + rest));
  }

  lemma {:induction false} RowsCons(n: nat, xs: seq<int>, row: PairRow, mid: seq<int>)
    requires n > 0 && xs != [] && xs[0] >= 0 && TakePairs(xs[0], xs[1..]) == Some((row, mid))
    ensures var more := TakeRows(n - 1, mid);
            TakeRows(n, xs) == if more.None? then None else Some(([row] + more.value.0, more.value.1))
  {
    hide TakePairs;
  }

  lemma {:induction false} RowsBackFit(t: Table, rest: seq<int>)
    requires RowsFit(t)
    ensures TakeRows(|t|, FlatRows(t) + rest) == Some((t, rest))
  {
    if t == [] {
      assert FlatRows(t) + rest == rest;
    } else {
      var xs := FlatRows(t) + rest;
      var first, more := t[0], FlatRows(t[1..]) + rest;
      FirstRow(t, rest);
      CastExactly(|first|);
      PairsBack(first, more);
      RowsBackFit(t[1..], rest);
      hide FlatRows, TakeRows, TakePairs, Pairs, ToInt32;
      RowsCons(|t|, xs, first, more);
      assert [first] + t[1..] == t;
    }
  }

  lemma {:induction false} RowsBackOnly(t: Table, rest: seq<int>)
    requires TakeRows(|t|, FlatRows(t) + rest) == Some((t, rest))
    ensures RowsFit(t)
  {
    if t != [] {
      var xs := FlatRows(t) + rest;
      var first, more := t[0], FlatRows(t[1..]) + rest;
      FirstRow(t, rest);
      CastExactly(|first|);
      var row := TakePairs(xs[0], xs[1..]);
      PairCount(xs[0], xs[1..]);
      RowsCons(|t|, xs, row.value.0, row.value.1);
      PairsBack(first, more);
      hide FlatRows, TakePairs, Pairs, ToInt32;
      var tail := TakeRows(|t| - 1, row.value.1);
      SeqConsEqual(first, t);
      assert row.value.0 == first && tail.value.0 == t[1..];
      hide TakeRows;
      assert row.value.1 == more;
      RowsBackOnly(t[1..], rest);
      RowsFitCons(t);
    }
  }

  lemma {:induction false} RowsBack(t: Table, rest: seq<int>)
    ensures TakeRows(|t|, FlatRows(t) + rest) == Some((t, rest)) <==> RowsFit(t)
  {
    if RowsFit(t) {
      RowsBackFit(t, rest);
    } else if TakeRows(|t|, FlatRows(t) + rest) == Some((t, rest)) {
      RowsBackOnly(t, rest);
    }
  }

  lemma {:induction false} RowsFitCons(t: Table)
    requires t != []
    ensures RowsFit(t) <==> |t[0]| < TWO31 && RowsFit(t[1..])
  {
    assert forall i | 1 <= i < |t| :: t[i] == t[1..][i - 1];
  }

  lemma {:induction false} SeqConsEqual(x: PairRow, t: Table)
    requires t != []
    ensures forall y: PairRow, u: Table :: [y] + u == t <==> y == t[0] && u == t[1..]
  {
    forall y: PairRow, u: Table ensures [y] + u == t <==> y == t[0] && u == t[1..] {
      assert ([y] + u)[1..] == u && ([y] + u)[0] == y;
      assert t == [t[0]] + t[1..];
    }
  }

  /** Decoding what was encoded, whatever follows it, gives back the table and what follows, exactly
      for the tables whose sizes are 32-bit integers. */
  lemma {:induction false} DecodeEncode(t: Table, rest: seq<int>)
    ensures Decode(Encode(t) + rest) == Some((t, rest)) <==> SizesFit(t)
  {
    var xs := Encode(t) + rest;
    assert xs[0] == ToInt32(|t|) && xs[1..] == FlatRows(t) + rest;
    CastExactly(|t|);
    RowsBack(t, rest);
    hide FlatRows, ToInt32, TakeRows;
    if xs[0] >= 0 {
      RowCount(xs[0], xs[1..]);
    }
  }

  /** No encoding is a proper start of another. */
  lemma {:induction false} PrefixFree(t: Table, u: Table)
    requires SizesFit(t) && SizesFit(u) && Encode(t) <= Encode(u)
    ensures t == u
  {
    var rest := Encode(u)[|Encode(t)|..];
    assert Encode(u) == Encode(t) + rest && Encode(u) == Encode(u) + [];
    DecodeEncode(t, rest);
    DecodeEncode(u, []);
  }

  // ---- the maps ----------------------------------------------------------------------------

  /** A `std::map` walked in key order: its entries, each key once. */
  predicate InKeyOrder(entries: seq<(string, int)>, m: map<string, int>) {
    && (forall i, j | 0 <= i < j < |entries| :: entries[i].0 != entries[j].0)
    && (forall i | 0 <= i < |entries| :: entries[i].0 in m && m[entries[i].0] == entries[i].1)
    && (forall k | k in m :: exists i :: 0 <= i < |entries| && entries[i].0 == k)
  }

  method MapNames(entries: seq<(string, int)>) returns (out: seq<string>)
    ensures |out| == |entries| && forall i | 0 <= i < |out| :: out[i] == entries[i].0
  {
    out := [];
    for i := 0 to |entries|
      invariant |out| == i && forall k | 0 <= k < i :: out[k] == entries[k].0
    {
      out := out + [entries[i].0];
    }
  }

  method MapIndexes(entries: seq<(string, int)>) returns (out: seq<int>)
    ensures |out| == |entries| && forall i | 0 <= i < |out| :: out[i] == entries[i].1
  {
    out := [];
    for i := 0 to |entries|
      invariant |out| == i && forall k | 0 <= k < i :: out[k] == entries[k].1
    {
      out := out + [entries[i].1];
    }
  }

  function Zip(names: seq<string>, indexes: seq<int>): map<string, int>
    requires |names| == |indexes|
  {
    if names == [] then map[] else Zip(names[1..], indexes[1..])[names[0] := indexes[0]]
  }

  lemma {:induction false} ZipIs(names: seq<string>, indexes: seq<int>)
    requires |names| == |indexes| && forall i, j | 0 <= i < j < |names| :: names[i] != names[j]
    ensures forall k :: k in Zip(names, indexes) <==> k in names
    ensures forall i | 0 <= i < |names| :: names[i] in Zip(names, indexes)
              && Zip(names, indexes)[names[i]] == indexes[i]
  {
    if names != [] {
      assert forall i, j | 0 <= i < j < |names[1..]| :: names[1..][i] == names[i + 1] && names[1..][j] == names[j + 1];
      ZipIs(names[1..], indexes[1..]);
      forall i | 1 <= i < |names|
        ensures names[i] in Zip(names, indexes) && Zip(names, indexes)[names[i]] == indexes[i]
      {
        assert names[1..][i - 1] == names[i] && indexes[1..][i - 1] == indexes[i];
      }
    }
  }

  /** The five readers together lose nothing: the flat list gives back the table, and each pair of
      name and index lists gives back its map. */
  lemma {:induction false} EverythingRecovered(t: Table, row: map<string, int>, col: map<string, int>,
                            rows: seq<(string, int)>, cols: seq<(string, int)>,
                            flat: seq<int>, rowNames: seq<string>, rowIndexes: seq<int>,
                            colNames: seq<string>, colIndexes: seq<int>)
    requires SizesFit(t) && InKeyOrder(rows, row) && InKeyOrder(cols, col)
    requires flat == Encode(t)
    requires |rowNames| == |rowIndexes| == |rows|
               && forall i | 0 <= i < |rows| :: (rowNames[i], rowIndexes[i]) == rows[i]
    requires |colNames| == |colIndexes| == |cols|
               && forall i | 0 <= i < |cols| :: (colNames[i], colIndexes[i]) == cols[i]
    ensures Decode(flat) == Some((t, []))
    ensures Zip(rowNames, rowIndexes) == row && Zip(colNames, colIndexes) == col
  {
    DecodeEncode(t, []);
    assert flat + [] == flat;
    MapRecovered(row, rows, rowNames, rowIndexes);
    MapRecovered(col, cols, colNames, colIndexes);
  }

  lemma {:induction false} MapRecovered(m: map<string, int>, entries: seq<(string, int)>, names: seq<string>,
                                        indexes: seq<int>)
    requires InKeyOrder(entries, m)
    requires |names| == |indexes| == |entries| && forall i | 0 <= i < |entries| :: (names[i], indexes[i]) == entries[i]
    ensures Zip(names, indexes) == m
  {
    forall i | 0 <= i < |entries| ensures names[i] == entries[i].0 && indexes[i] == entries[i].1 {
      assert (names[i], indexes[i]) == entries[i];
    }
    ZipIs(names, indexes);
    var z := Zip(names, indexes);
    forall k ensures k in z <==> k in m {
      if k in m {
        var i :| 0 <= i < |entries| && entries[i].0 == k;
        assert names[i] == k;
      }
    }
    forall k | k in z ensures z[k] == m[k] {
      var i :| 0 <= i < |names| && names[i] == k;
    }
  }

  /** A table of `2^32` rows is announced as having none. */
  lemma {:induction false} SizeWraps(t: Table)
    requires |t| == TWO32
    ensures Encode(t)[0] == 0 && Decode(Encode(t)).Some? && Decode(Encode(t)).value.0 == []
  {
    assert (TWO32 + TWO31) % TWO32 == TWO31;
    var xs := Encode(t);
    assert xs[0] == 0;
  }
}
