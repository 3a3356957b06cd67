/**
 Packing depth columns left to right into bands that fit the canvas, and why no packing in the
 same order needs fewer bands.  Widths are measured pixels; a node without a measure counts zero.
*/
module BandRows {
  import opened Wrappers
  import opened Graphs
  import opened ColumnGroups

  datatype Placed = Placed(col: Column, x: real)

  type Widths = Id -> Option<real>

  /** What the packing depends on. */
  datatype Canvas = Canvas(avail: real, gap: real, widthOf: Widths)

  /** The widest node of a column; the columns' own grouping leaves none empty. */
  function Widest(c: Canvas, defs: seq<Id>): (w: real)
    requires defs != []
    ensures exists i :: 0 <= i < |defs| && w == GetOr(c.widthOf(defs[i]), 0.0)
    ensures forall i :: 0 <= i < |defs| ==> GetOr(c.widthOf(defs[i]), 0.0) <= w
  {
    var first := GetOr(c.widthOf(defs[0]), 0.0);
    if |defs| == 1 then first
    else
      var rest := Widest(c, defs[1..]);
      assert forall i :: 1 <= i < |defs| ==> defs[i] == defs[1..][i - 1];
      if first < rest then rest else first
  }

  function WidthOf(c: Canvas, col: Column): real { if col.defs == [] then 0.0 else Widest(c, col.defs) }

  /** A column is as wide as its widest node; an unmeasured node is no width. */
  lemma WidestNodeDecides(c: Canvas, col: Column)
    ensures forall i :: 0 <= i < |col.defs| ==> GetOr(c.widthOf(col.defs[i]), 0.0) <= WidthOf(c, col)
    ensures if col.defs == [] then WidthOf(c, col) == 0.0
            else exists i :: 0 <= i < |col.defs| && WidthOf(c, col) == GetOr(c.widthOf(col.defs[i]), 0.0)
  {
    if col.defs != [] {
      var w := Widest(c, col.defs);
      var i :| 0 <= i < |col.defs| && w == GetOr(c.widthOf(col.defs[i]), 0.0);
      assert WidthOf(c, col) == w;
    }
  }

  /** From a band's left edge to its right edge. */
  function Extent(c: Canvas, band: seq<Column>): real {
    if band == [] then 0.0
    else if |band| == 1 then WidthOf(c, band[0])
    else Extent(c, band[..|band| - 1]) + c.gap + WidthOf(c, band[|band| - 1])
  }

  predicate Fits(c: Canvas, band: seq<Column>) { |band| == 1 || Extent(c, band) <= c.avail }

  function Flatten<T>(parts: seq<seq<T>>): seq<T> {
    if parts == [] then [] else parts[0] + Flatten(parts[1..])
  }

  /** A cut of the columns, in order, into bands that fit or hold one column. */
  predicate Packing(c: Canvas, cols: seq<Column>, parts: seq<seq<Column>>) {
    Flatten(parts) == cols && forall i :: 0 <= i < |parts| ==> parts[i] != [] && Fits(c, parts[i])
  }

  /** No band had room for the column after it. */
  predicate Greedy(c: Canvas, parts: seq<seq<Column>>) {
    forall i :: 0 < i < |parts| ==> parts[i] != [] && Extent(c, parts[i - 1] + [parts[i][0]]) > c.avail
  }

  function Cols(row: seq<Placed>): (cols: seq<Column>)
    ensures |cols| == |row|
  {
    seq(|row|, k requires 0 <= k < |row| => row[k].col)
  }

  function Parts(bands: seq<seq<Placed>>): (parts: seq<seq<Column>>)
    ensures |parts| == |bands|
  {
    seq(|bands|, k requires 0 <= k < |bands| => Cols(bands[k]))
  }

  /** Offsets are exact prefix sums: each column starts one gap after the extent before it. */
  predicate Anchored(c: Canvas, row: seq<Placed>) {
    forall k :: 0 <= k < |row| ==> row[k].x == if k == 0 then 0.0 else Extent(c, Cols(row)[..k]) + c.gap
  }

  // ---------------------------------------------------------------- the loop --

  lemma {:induction false} FlattenMore<T>(parts: seq<seq<T>>, band: seq<T>)
    ensures Flatten(parts + [band]) == Flatten(parts) + band
    decreases |parts|
  {
    if parts == [] {
      assert Flatten([band]) == band + Flatten<T>([]);
    } else {
      assert (parts + [band])[1..] == parts[1..] + [band];
      FlattenMore(parts[1..], band);
      assert Flatten(parts + [band]) == parts[0] + (Flatten(parts[1..]) + band);
    }
  }

  /** The packing so far: closed bands, and the open row with its right edge `x`. */
  ghost predicate Packed(c: Canvas, done: seq<Column>, parts: seq<seq<Column>>, row: seq<Column>, x: real) {
    && Flatten(parts) + row == done
    && x == Extent(c, row)
    && (row == [] ==> parts == [])
    && (forall i :: 0 <= i < |parts| ==> parts[i] != [] && Fits(c, parts[i]))
    && (row != [] ==> Fits(c, row) && Greedy(c, parts + [row]))
  }

  lemma OpensRow(c: Canvas, done: seq<Column>, parts: seq<seq<Column>>, row: seq<Column>, x: real, col: Column)
    requires Packed(c, done, parts, row, x) && row != [] && x + c.gap + WidthOf(c, col) > c.avail
    ensures Packed(c, done + [col], parts + [row], [col], WidthOf(c, col))
  {
    FlattenMore(parts, row);
    assert (row + [col])[..|row|] == row;
    var next := parts + [row] + [[col]];
    forall i | 0 < i < |next| ensures next[i] != [] && Extent(c, next[i - 1] + [next[i][0]]) > c.avail {
      if i < |parts| + 1 {
        assert next[i] == (parts + [row])[i] && next[i - 1] == (parts + [row])[i - 1];
      }
    }
  }

  lemma ExtendsRow(c: Canvas, done: seq<Column>, parts: seq<seq<Column>>, row: seq<Column>, x: real, col: Column)
    requires Packed(c, done, parts, row, x) && (row != [] ==> x + c.gap + WidthOf(c, col) <= c.avail)
    ensures Packed(c, done + [col], parts, row + [col],
                   if row == [] then WidthOf(c, col) else x + c.gap + WidthOf(c, col))
  {
    assert (row + [col])[..|row|] == row;
    var next := parts + [row + [col]];
    if row != [] {
      forall i | 0 < i < |next| ensures next[i] != [] && Extent(c, next[i - 1] + [next[i][0]]) > c.avail {
        assert next[i - 1] == (parts + [row])[i - 1];
        assert next[i][0] == (parts + [row])[i][0];
      }
    }
  }

  lemma AnchorsMore(c: Canvas, row: seq<Placed>, col: Column, x: real)
    requires Anchored(c, row) && x == if row == [] then 0.0 else Extent(c, Cols(row)) + c.gap
    ensures Anchored(c, row + [Placed(col, x)]) && Cols(row + [Placed(col, x)]) == Cols(row) + [col]
  {
    var more := row + [Placed(col, x)];
    assert Cols(more) == Cols(row) + [col];
    forall k | 0 <= k < |more| ensures more[k].x == if k == 0 then 0.0 else Extent(c, Cols(more)[..k]) + c.gap {
      assert Cols(more)[..k] == Cols(row)[..k];
      if k == |row| { assert Cols(row)[..k] == Cols(row); }
    }
  }

  /** The loop's state: closed bands, the open row and its right edge. */
  ghost predicate Going(c: Canvas, done: seq<Column>, bands: seq<seq<Placed>>, row: seq<Placed>, x: real) {
    && Packed(c, done, Parts(bands), Cols(row), x)
    && Anchored(c, row)
    && forall k :: 0 <= k < |bands| ==> Anchored(c, bands[k])
  }

  lemma GoesOnBelow(c: Canvas, done: seq<Column>, bands: seq<seq<Placed>>, row: seq<Placed>, x: real, col: Column)
    requires Going(c, done, bands, row, x) && row != [] && x + c.gap + WidthOf(c, col) > c.avail
    ensures Going(c, done + [col], bands + [row], [Placed(col, 0.0)], WidthOf(c, col))
  {
    OpensRow(c, done, Parts(bands), Cols(row), x, col);
    AnchorsMore(c, [], col, 0.0);
    assert [] + [Placed(col, 0.0)] == [Placed(col, 0.0)];
    assert Parts(bands + [row]) == Parts(bands) + [Cols(row)];
    assert Cols([Placed(col, 0.0)]) == [col];
  }

  lemma GoesOnRight(
    c: Canvas, done: seq<Column>, bands: seq<seq<Placed>>, row: seq<Placed>, x: real, col: Column, at: real)
    requires Going(c, done, bands, row, x) && (row != [] ==> x + c.gap + WidthOf(c, col) <= c.avail)
    requires at == if row == [] then x else x + c.gap
    ensures Going(c, done + [col], bands, row + [Placed(col, at)], at + WidthOf(c, col))
  {
    ExtendsRow(c, done, Parts(bands), Cols(row), x, col);
    AnchorsMore(c, row, col, at);
  }

  lemma PackedEnds(c: Canvas, done: seq<Column>, parts: seq<seq<Column>>, row: seq<Column>, x: real)
    requires Packed(c, done, parts, row, x) && row != []
    ensures Packing(c, done, parts + [row]) && Greedy(c, parts + [row])
  {
    FlattenMore(parts, row);
  }

  lemma Ends(c: Canvas, done: seq<Column>, bands: seq<seq<Placed>>, row: seq<Placed>, x: real)
    requires Going(c, done, bands, row, x)
    ensures Laid(c, done, if row == [] then bands else bands + [row])
  {
    if row != [] {
      PackedEnds(c, done, Parts(bands), Cols(row), x);
      assert Parts(bands + [row]) == Parts(bands) + [Cols(row)];
    }
  }

  /** Every column once and in order, in bands that fit, no band with room to spare, offsets exact. */
  ghost predicate Laid(c: Canvas, cols: seq<Column>, bands: seq<seq<Placed>>) {
    && Packing(c, cols, Parts(bands)) && Greedy(c, Parts(bands))
    && forall i :: 0 <= i < |bands| ==> Anchored(c, bands[i])
  }

  /** The loop's body: a column that does not fit opens a new row. */
  method Place(c: Canvas, ghost done: seq<Column>, bands: seq<seq<Placed>>, row: seq<Placed>, x: real, col: Column)
    returns (bands': seq<seq<Placed>>, row': seq<Placed>, x': real)
    requires Going(c, done, bands, row, x)
    ensures Going(c, done + [col], bands', row', x')
  {
    var w := WidthOf(c, col);
    if row != [] && x + c.gap + w > c.avail {
      GoesOnBelow(c, done, bands, row, x, col);
      return bands + [row], [Placed(col, 0.0)], w;
    }
    var at := if row == [] then x else x + c.gap;
    GoesOnRight(c, done, bands, row, x, col, at);
    return bands, row + [Placed(col, at)], at + w;
  }

  /** The loop over the columns, up to the last flush. */
  method PlaceAll(c: Canvas, cols: seq<Column>) returns (bands: seq<seq<Placed>>, row: seq<Placed>, ghost x: real)
    ensures Going(c, cols, bands, row, x)
  {
    bands, row := [], [];
    var at := 0.0;
    Starts(c);
    assert cols[..0] == [];
    for i := 0 to |cols|
      invariant Going(c, cols[..i], bands, row, at)
    {
      assert cols[..i + 1] == cols[..i] + [cols[i]];
      bands, row, at := Place(c, cols[..i], bands, row, at, cols[i]);
    }
    assert cols[..|cols|] == cols;
    x := at;
  }

  lemma Starts(c: Canvas)
    ensures Going(c, [], [], [], 0.0)
  {
    assert Cols([]) == [] && Parts([]) == [];
  }

  method Pack(c: Canvas, cols: seq<Column>) returns (bands: seq<seq<Placed>>)
    ensures Laid(c, cols, bands)
  {
    var row; ghost var x;
    bands, row, x := PlaceAll(c, cols);
    Ends(c, cols, bands, row, x);
    if row != [] { bands := bands + [row]; }
  }

  // ---------------------------------------------------------------- no packing needs fewer --

  ghost predicate Sensible(c: Canvas) { c.gap >= 0.0 && forall x :: GetOr(c.widthOf(x), 0.0) >= 0.0 }

  lemma WidthIsNonNegative(c: Canvas, col: Column)
    requires Sensible(c)
    ensures WidthOf(c, col) >= 0.0
  {
  }

  lemma {:induction false} ExtentGrows(c: Canvas, band: seq<Column>, n: nat)
    requires Sensible(c) && n <= |band|
    ensures 0.0 <= Extent(c, band[..n]) <= Extent(c, band)
    decreases |band|
  {
    if band == [] || n == |band| {
      assert band[..n] == band;
      if |band| > 1 { ExtentGrows(c, band[..|band| - 1], 0); }
      if band != [] { WidthIsNonNegative(c, band[|band| - 1]); }
    } else {
      var shorter := band[..|band| - 1];
      ExtentGrows(c, shorter, n);
      assert shorter[..n] == band[..n];
      WidthIsNonNegative(c, band[|band| - 1]);
    }
  }

  /** Dropping the first column never widens a band. */
  lemma {:induction false} ExtentShrinks(c: Canvas, band: seq<Column>)
    requires Sensible(c) && band != []
    ensures Extent(c, band[1..]) <= Extent(c, band)
    decreases |band|
  {
    WidthIsNonNegative(c, band[0]);
    if |band| > 1 {
      var last := |band| - 1;
      WidthIsNonNegative(c, band[last]);
      ExtentShrinks(c, band[..last]);
      assert band[..last][1..] == band[1..][..|band[1..]| - 1];
      if |band| == 2 { assert band[..last] == [band[0]]; }
    }
  }

  lemma {:induction false} ExtentOfPart(c: Canvas, band: seq<Column>, i: nat, j: nat)
    requires Sensible(c) && i <= j <= |band|
    ensures Extent(c, band[i..j]) <= Extent(c, band)
    decreases i
  {
    if i == 0 {
      ExtentGrows(c, band, j);
      assert band[0..j] == band[..j];
    } else {
      ExtentShrinks(c, band);
      ExtentOfPart(c, band[1..], i - 1, j - 1);
      assert band[1..][i - 1..j - 1] == band[i..j];
    }
  }

  lemma GreedyTail(c: Canvas, parts: seq<seq<Column>>)
    requires Greedy(c, parts) && parts != []
    ensures Greedy(c, parts[1..])
  {
    var rest := parts[1..];
    forall i | 0 < i < |rest| ensures rest[i] != [] && Extent(c, rest[i - 1] + [rest[i][0]]) > c.avail {
      assert rest[i] == parts[i + 1] && rest[i - 1] == parts[i];
    }
  }

  lemma PackingTail(c: Canvas, cols: seq<Column>, parts: seq<seq<Column>>)
    requires Packing(c, cols, parts) && parts != []
    ensures parts[0] <= cols && Packing(c, cols[|parts[0]|..], parts[1..])
  {
    assert cols == parts[0] + Flatten(parts[1..]);
  }

  /** A greedy packing of a tail of the columns needs no more bands than any packing of them all. */
  lemma {:induction false} StaysAhead(
    c: Canvas, cols: seq<Column>, k: nat, greedy: seq<seq<Column>>, other: seq<seq<Column>>)
    requires Sensible(c) && k <= |cols|
    requires Packing(c, cols[k..], greedy) && Greedy(c, greedy) && Packing(c, cols, other)
    ensures |greedy| <= |other|
    decreases |greedy|
  {
    if greedy != [] {
      PackingTail(c, cols[k..], greedy);
      assert other != [];
      PackingTail(c, cols, other);
      var n, m := |greedy[0]|, |other[0]|;
      if k + n >= m {
        GreedyTail(c, greedy);
        assert cols[k..][n..] == cols[m..][k + n - m..];
        StaysAhead(c, cols[m..], k + n - m, greedy[1..], other[1..]);
      } else {
        Overtaken(c, cols, k, greedy, other[0]);
      }
    }
  }

  /** After the first band come the columns of the second. */
  lemma NextColumn(cols: seq<Column>, k: nat, greedy: seq<seq<Column>>)
    requires k <= |cols| && Flatten(greedy) == cols[k..] && |greedy| > 1 && greedy[1] != []
    ensures var n := k + |greedy[0]|; n < |cols| && cols[k..n + 1] == greedy[0] + [greedy[1][0]]
  {
    var a, rest := greedy[0], Flatten(greedy[1..]);
    assert cols[k..] == a + rest;
    assert rest == greedy[1] + Flatten(greedy[1..][1..]);
    assert cols[k..][|a|] == rest[0] == greedy[1][0];
  }

  lemma GreedyStops(c: Canvas, greedy: seq<seq<Column>>)
    requires Greedy(c, greedy) && |greedy| > 1
    ensures greedy[1] != [] && Extent(c, greedy[0] + [greedy[1][0]]) > c.avail
  {
    assert greedy[1] != [];
  }

  /** No fitting band reaches past where a greedy one stopped. */
  lemma Overtaken(c: Canvas, cols: seq<Column>, k: nat, greedy: seq<seq<Column>>, b: seq<Column>)
    requires Sensible(c) && k <= |cols| && b <= cols && Fits(c, b)
    requires Packing(c, cols[k..], greedy) && Greedy(c, greedy) && greedy != []
    ensures k + |greedy[0]| >= |b|
  {
    if |greedy| == 1 {
      assert Flatten(greedy) == greedy[0] + Flatten(greedy[1..]);
    } else {
      NextColumn(cols, k, greedy);
      GreedyStops(c, greedy);
      FitsWithin(c, cols, b, k, k + |greedy[0]| + 1);
    }
  }

  /** What lies inside a fitting band of two columns or more fits too. */
  lemma FitsWithin(c: Canvas, cols: seq<Column>, b: seq<Column>, i: nat, j: nat)
    requires Sensible(c) && b <= cols && Fits(c, b) && i + 1 < j <= |cols|
    ensures j <= |b| ==> Extent(c, cols[i..j]) <= c.avail
  {
    if j <= |b| {
      assert b[i..j] == cols[i..j];
      ExtentOfPart(c, b, i, j);
    }
  }

  /** The packing uses the fewest bands of all packings that keep the order. */
  lemma FewestBands(c: Canvas, cols: seq<Column>, bands: seq<seq<Placed>>, other: seq<seq<Column>>)
    requires Sensible(c) && Laid(c, cols, bands) && Packing(c, cols, other)
    ensures |bands| <= |other|
  {
    assert cols[0..] == cols;
    StaysAhead(c, cols, 0, Parts(bands), other);
  }
}
