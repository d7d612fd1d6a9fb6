/**
 When the scan of a flat-table produces a tiling: every column of every row belongs to exactly one
 cell.  It does not always.  The reference is `Place`, which puts every cell into the first column
 that no earlier cell takes; the scan tiles if and only if that placement does and no placeholder is
 inserted while something to its left is still missing.
 */
module FlatTableTiling {
  import opened Prelude
  import opened FlatTable
  import opened FlatTableRows

  /** The cell at (`y`, `x`) owns column `j` of row `i`. */
  predicate Covers(grid: seq<Row>, y: nat, x: nat, i: nat, j: nat) {
    && y < |grid| && x < |grid[y]| && grid[y][x].Some?
    && (|| (i == y && x <= j <= x + OwnSpan(grid[y][x]))
        || (y < i && x <= j < x + SpanBelow(grid[y][x], i - y)))
  }

  ghost predicate EveryColumnOwned(grid: seq<Row>) {
    forall i: nat, j: nat | i < |grid| && j < |grid[i]| :: Owned(grid, i, j)
  }

  ghost predicate Owned(grid: seq<Row>, i: nat, j: nat) {
    exists y: nat, x: nat :: Covers(grid, y, x, i, j)
  }

  ghost predicate OwnedOnce(grid: seq<Row>) {
    forall y: nat, x: nat, y': nat, x': nat, i: nat, j: nat
      | i < |grid| && Covers(grid, y, x, i, j) && Covers(grid, y', x', i, j) :: y == y' && x == x'
  }

  /** A block lies inside the rows it spans and holds nothing but placeholders and its owner. */
  ghost predicate BlocksFilled(grid: seq<Row>) {
    forall y: nat, x: nat, i: nat, j: nat | i < |grid| && Covers(grid, y, x, i, j) ::
      j < |grid[i]| && (grid[i][j] == None || (i == y && j == x))
  }

  ghost predicate Tiled(grid: seq<Row>) {
    EveryColumnOwned(grid) && OwnedOnce(grid) && BlocksFilled(grid)
  }

  function Layout(source: seq<seq<Cell>>): (g: seq<Row>)
    ensures |g| == |source|
  {
    Grid(Table(source), |source|)
  }

  // ---------------------------------------------------------------- the rows of a tiled grid

  lemma {:induction false} PushesPrefix(grid: seq<Row>, more: seq<Row>, z: nat, y: nat)
    requires y <= z && y <= |grid|
    ensures Pushes(grid + more, z, y) == Pushes(grid, z, y)
  {
    if y > 0 {
      PushesPrefix(grid, more, z, y - 1);
    }
  }

  /** Row `z` is the expansion of the source row after the pushes of the rows above it. */
  lemma {:induction false} GridRow(source: seq<seq<Cell>>, n: nat, z: nat)
    requires z < n <= |source|
    ensures Grid(Table(source), n)[z]
         == Expanded(PushAll(Parsed(source[z]), Pushes(Grid(Table(source), n), z, z)))
  {
    var g := Grid(Table(source), n - 1);
    var last := Grid(Table(source), n)[n - 1];
    assert Grid(Table(source), n) == g + [last];
    PushesPrefix(g, [last], z, z);
    if z < n - 1 {
      GridRow(source, n - 1, z);
    } else {
      PushesAgree(g, Parsed(source[z]), z, z);
    }
  }

  /** The scan makes `p` before `q`. */
  predicate Earlier(p: Push, q: Push) {
    p.y < q.y || (p.y == q.y && p.at < q.at)
  }

  ghost predicate InScanOrder(ps: seq<Push>) {
    forall i, k | 0 <= i < k < |ps| :: Earlier(ps[i], ps[k])
  }

  lemma {:induction false} RowPushesInOrder(above: Row, y: nat, x: nat, d: nat)
    requires x <= |above|
    ensures InScanOrder(RowPushes(above, y, x, d))
  {
    if x > 0 {
      RowPushesInOrder(above, y, x - 1, d);
      var ps := RowPushes(above, y, x - 1, d);
      forall i | 0 <= i < |ps|
        ensures ps[i].y == y && ps[i].at < x - 1
      {
        RowPushesExact(above, y, x - 1, d, ps[i]);
      }
    }
  }

  lemma {:induction false} PushesInOrder(grid: seq<Row>, z: nat, y: nat)
    requires y <= z && y <= |grid|
    ensures InScanOrder(Pushes(grid, z, y))
  {
    if y > 0 {
      PushesInOrder(grid, z, y - 1);
      var above, d := grid[y - 1], z - (y - 1);
      RowPushesInOrder(above, y - 1, |above|, d);
      var ps, qs := Pushes(grid, z, y - 1), RowPushes(above, y - 1, |above|, d);
      forall p: Push, q: Push | p in ps && q in qs
        ensures Earlier(p, q)
      {
        PushesExact(grid, z, y - 1, p);
        RowPushesExact(above, y - 1, |above|, d, q);
      }
    }
  }

  lemma CoverOfPush(grid: seq<Row>, z: nat, p: Push, j: nat)
    requires z < |grid| && p in Pushes(grid, z, z)
    ensures Reaches(grid, p.y, p.at, z) && p.width == SpanBelow(grid[p.y][p.at], z - p.y) > 0
    ensures p.at <= j < p.at + p.width ==> Covers(grid, p.y, p.at, z, j)
  {
    PushesExact(grid, z, z, p);
  }

  lemma PushOfReach(grid: seq<Row>, y: nat, x: nat, z: nat)
    requires z < |grid| && Reaches(grid, y, x, z)
    ensures Push(y, x, SpanBelow(grid[y][x], z - y)) in Pushes(grid, z, z)
  {
    PushesExact(grid, z, z, Push(y, x, SpanBelow(grid[y][x], z - y)));
  }

  lemma TiledSpaced(grid: seq<Row>, z: nat)
    requires Tiled(grid) && z < |grid|
    ensures Spaced(grid[z])
  {
    var g := grid[z];
    forall p: nat, q: nat | p < q && p < |g| && q <= p + OwnSpan(g[p])
      ensures q < |g| && g[q] == None
    {
      assert Covers(grid, z, p, z, q);
    }
    forall p: nat | p < |g|
      ensures p + OwnSpan(g[p]) < |g|
    {
      if OwnSpan(g[p]) > 0 {
        assert Covers(grid, z, p, z, p + OwnSpan(g[p]));
      }
    }
  }

  lemma TiledFilledAt(grid: seq<Row>, z: nat, p: Push, j: nat)
    requires BlocksFilled(grid) && z < |grid| && p in Pushes(grid, z, z) && p.at <= j < p.at + p.width
    ensures j < |grid[z]| && grid[z][j] == None
  {
    CoverOfPush(grid, z, p, j);
  }

  lemma TiledFilled(grid: seq<Row>, z: nat, p: Push)
    requires BlocksFilled(grid) && z < |grid| && p in Pushes(grid, z, z)
    ensures Filled(grid[z], p)
  {
    CoverOfPush(grid, z, p, p.at);
    TiledFilledAt(grid, z, p, p.at + p.width - 1);
    forall j: nat | p.at <= j < p.at + p.width
      ensures grid[z][j] == None
    {
      TiledFilledAt(grid, z, p, j);
    }
  }

  lemma TiledApart(grid: seq<Row>, z: nat, p: Push, q: Push)
    requires Tiled(grid) && z < |grid| && p in Pushes(grid, z, z) && q in Pushes(grid, z, z) && Earlier(p, q)
    ensures Apart(p, q)
  {
    if !Apart(p, q) {
      var j := if p.at <= q.at then q.at else p.at;
      CoverOfPush(grid, z, p, j);
      CoverOfPush(grid, z, q, j);
    }
  }

  /** A placeholder of a tiled grid comes from above or from its own row, not both. */
  lemma TiledPlaceholder(grid: seq<Row>, z: nat, j: nat)
    requires Tiled(grid) && z < |grid| && j < |grid[z]| && grid[z][j] == None
    ensures InPush(Pushes(grid, z, z), j) != InSpan(grid[z], j)
  {
    assert Owned(grid, z, j);
    var y: nat, x: nat :| Covers(grid, y, x, z, j);
    if y == z {
      assert x < j;
      assert InSpan(grid[z], j);
    } else {
      PushOfReach(grid, y, x, z);
    }
    if InPush(Pushes(grid, z, z), j) && InSpan(grid[z], j) {
      var p: Push :| p in Pushes(grid, z, z) && p.at <= j < p.at + p.width;
      CoverOfPush(grid, z, p, j);
      var q: nat :| q < j && q < |grid[z]| && j <= q + OwnSpan(grid[z][q]);
      assert Covers(grid, z, q, z, j);
    }
  }

  /** Every row of a tiled grid is tiled by its cells and the spans that reach it. */
  lemma RowOfTiled(grid: seq<Row>, z: nat)
    requires Tiled(grid) && z < |grid|
    ensures RowTiled(grid[z], Pushes(grid, z, z))
  {
    var ps := Pushes(grid, z, z);
    TiledSpaced(grid, z);
    PushesInOrder(grid, z, z);
    forall i | 0 <= i < |ps|
      ensures Filled(grid[z], ps[i])
    {
      TiledFilled(grid, z, ps[i]);
    }
    forall i, k | 0 <= i < k < |ps|
      ensures Apart(ps[i], ps[k])
    {
      TiledApart(grid, z, ps[i], ps[k]);
    }
    forall j: nat | j < |grid[z]| && grid[z][j] == None
      ensures InPush(ps, j) != InSpan(grid[z], j)
    {
      TiledPlaceholder(grid, z, j);
    }
  }

  // ---------------------------------------------------------------- what may not be pending

  /** A cell of the row stands at or right of column `x`. */
  ghost predicate CellFrom(row: Row, x: nat) {
    exists q: nat :: x <= q < |row| && row[q] != None
  }

  /**
   Left of column `x` of row `z` nothing is inserted after the span of (`y`, `x`): no cell there has a
   column span, and no cell of a row below `y` reaches there.
   */
  ghost predicate NothingToCome(grid: seq<Row>, y: nat, x: nat, z: nat)
    requires z < |grid|
  {
    && (forall p: nat | p < x && p < |grid[z]| :: OwnSpan(grid[z][p]) == 0)
    && (forall y': nat, x': nat | Reaches(grid, y', x', z) && x' < x :: y' <= y)
  }

  /** Of the spans that reach a row, each with a cell to its right has nothing to come on its left. */
  ghost predicate NothingPending(grid: seq<Row>) {
    forall y: nat, x: nat, z: nat | z < |grid| && Reaches(grid, y, x, z) && CellFrom(grid[z], x) ::
      NothingToCome(grid, y, x, z)
  }

  /** With every column to the left there, no cell to the left has a column span. */
  lemma SettledPlain(grid: seq<Row>, z: nat, i: nat, q: nat)
    requires z < |grid| && i < |Pushes(grid, z, z)| && RowTiled(grid[z], Pushes(grid, z, z))
    requires var p := Pushes(grid, z, z)[i];
             p.at <= |grid[z]| && forall j: nat | j < p.at :: Has(grid[z], Pushes(grid, z, z)[..i], j)
    requires q < Pushes(grid, z, z)[i].at
    ensures OwnSpan(grid[z][q]) == 0
  {
    if OwnSpan(grid[z][q]) > 0 {
      OwnSpanMissing(grid, z, i, q);
    }
  }

  /** With every column to the left there, a push with a column to the left is made before. */
  lemma SettledAfter(g: Row, ps: seq<Push>, i: nat, k: nat)
    requires RowTiled(g, ps) && i < |ps| && k < |ps| && ps[i].at <= |g| && ps[k].at < ps[i].at
    requires forall j: nat | j < ps[i].at :: Has(g, ps[..i], j)
    ensures k < i
  {
    if k > i {
      FirstColumnMissing(g, ps, k, i);
    }
  }

  lemma SettledLast(grid: seq<Row>, z: nat, i: nat, y: nat, x: nat)
    requires z < |grid| && i < |Pushes(grid, z, z)| && RowTiled(grid[z], Pushes(grid, z, z))
    requires var p := Pushes(grid, z, z)[i];
             p.at <= |grid[z]| && forall j: nat | j < p.at :: Has(grid[z], Pushes(grid, z, z)[..i], j)
    requires Reaches(grid, y, x, z) && x < Pushes(grid, z, z)[i].at
    ensures y <= Pushes(grid, z, z)[i].y
  {
    var ps := Pushes(grid, z, z);
    PushOfReach(grid, y, x, z);
    var k :| 0 <= k < |ps| && ps[k] == Push(y, x, SpanBelow(grid[y][x], z - y));
    SettledAfter(grid[z], ps, i, k);
    PushesInOrder(grid, z, z);
    assert Earlier(ps[k], ps[i]);
  }

  lemma SettledToCome(grid: seq<Row>, z: nat, i: nat)
    requires z < |grid| && i < |Pushes(grid, z, z)| && RowTiled(grid[z], Pushes(grid, z, z))
    requires var p := Pushes(grid, z, z)[i];
             p.at <= |grid[z]| && forall j: nat | j < p.at :: Has(grid[z], Pushes(grid, z, z)[..i], j)
    ensures var p := Pushes(grid, z, z)[i]; NothingToCome(grid, p.y, p.at, z)
  {
    var p := Pushes(grid, z, z)[i];
    forall q: nat | q < p.at && q < |grid[z]|
      ensures OwnSpan(grid[z][q]) == 0
    {
      SettledPlain(grid, z, i, q);
    }
    forall y': nat, x': nat | Reaches(grid, y', x', z) && x' < p.at
      ensures y' <= p.y
    {
      SettledLast(grid, z, i, y', x');
    }
  }

  lemma OwnSpanMissing(grid: seq<Row>, z: nat, i: nat, q: nat)
    requires z < |grid| && i < |Pushes(grid, z, z)| && RowTiled(grid[z], Pushes(grid, z, z))
    requires q < |grid[z]| && q < Pushes(grid, z, z)[i].at && OwnSpan(grid[z][q]) > 0
    ensures q + 1 < Pushes(grid, z, z)[i].at && q + 1 < |grid[z]|
    ensures !Has(grid[z], Pushes(grid, z, z)[..i], q + 1)
  {
    var g, ps := grid[z], Pushes(grid, z, z);
    assert q + OwnSpan(g[q]) < |g|;
    assert InSpan(g, q + 1);
    assert Filled(g, ps[i]);
    assert !InPush(ps, q + 1);
    assert forall p: Push | p in ps[..i] :: p in ps;
    assert ps[i] in ps;
  }

  lemma ToComeSettled(grid: seq<Row>, z: nat, i: nat)
    requires Tiled(grid) && z < |grid| && i < |Pushes(grid, z, z)| && RowTiled(grid[z], Pushes(grid, z, z))
    requires var p := Pushes(grid, z, z)[i]; p.at <= |grid[z]| && NothingToCome(grid, p.y, p.at, z)
    ensures forall j: nat | j < Pushes(grid, z, z)[i].at :: Has(grid[z], Pushes(grid, z, z)[..i], j)
  {
    var g, ps := grid[z], Pushes(grid, z, z);
    var p := ps[i];
    PushesInOrder(grid, z, z);
    forall j: nat | j < p.at && g[j] == None
      ensures InPush(ps[..i], j)
    {
      assert !InSpan(g, j);
      var r: Push :| r in ps && r.at <= j < r.at + r.width;
      var k :| 0 <= k < |ps| && ps[k] == r;
      CoverOfPush(grid, z, r, j);
      assert r.y <= p.y && r.at < p.at;
      assert !Earlier(p, r) && r != p;
      assert ps[..i][k] == r;
    }
  }

  lemma PendingIsUnsettled(grid: seq<Row>, z: nat, i: nat)
    requires Tiled(grid) && z < |grid| && i < |Pushes(grid, z, z)|
    ensures var p := Pushes(grid, z, z)[i];
            p.at <= |grid[z]|
            && (Settled(grid[z], Pushes(grid, z, z)[..i], p)
                <==> (CellFrom(grid[z], p.at) ==> NothingToCome(grid, p.y, p.at, z)))
  {
    var g, ps := grid[z], Pushes(grid, z, z);
    RowOfTiled(grid, z);
    assert Filled(g, ps[i]);
    if forall j: nat | j < ps[i].at :: Has(g, ps[..i], j) {
      SettledToCome(grid, z, i);
    }
    if NothingToCome(grid, ps[i].y, ps[i].at, z) {
      ToComeSettled(grid, z, i);
    }
  }

  /** Of a tiled grid, the scan makes row `z` from its cells exactly if nothing is pending there. */
  lemma GridRowExact(grid: seq<Row>, z: nat)
    requires Tiled(grid) && z < |grid|
    ensures Expanded(PushAll(Parsed(Cells(grid[z])), Pushes(grid, z, z))) == grid[z]
       <==> (forall y: nat, x: nat | Reaches(grid, y, x, z) && CellFrom(grid[z], x) :: NothingToCome(grid, y, x, z))
  {
    var ps := Pushes(grid, z, z);
    RowOfTiled(grid, z);
    RowExact(grid[z], ps);
    forall i | 0 <= i < |ps|
      ensures ps[i].at <= |grid[z]| && Reaches(grid, ps[i].y, ps[i].at, z)
      ensures Settled(grid[z], ps[..i], ps[i])
         <==> (CellFrom(grid[z], ps[i].at) ==> NothingToCome(grid, ps[i].y, ps[i].at, z))
    {
      PendingIsUnsettled(grid, z, i);
      CoverOfPush(grid, z, ps[i], 0);
    }
    if forall i | 0 <= i < |ps| :: ps[i].at <= |grid[z]| && Settled(grid[z], ps[..i], ps[i]) {
      forall y: nat, x: nat | Reaches(grid, y, x, z) && CellFrom(grid[z], x)
        ensures NothingToCome(grid, y, x, z)
      {
        PushOfReach(grid, y, x, z);
        var i :| 0 <= i < |ps| && ps[i] == Push(y, x, SpanBelow(grid[y][x], z - y));
        assert Settled(grid[z], ps[..i], ps[i]);
      }
    }
  }

  // ---------------------------------------------------------------- the scan and any tiling of the source

  /** The grid holds the cells of the source, row by row, and is tiled. */
  ghost predicate Tiling(source: seq<seq<Cell>>, grid: seq<Row>) {
    |grid| == |source| && (forall y | 0 <= y < |source| :: Cells(grid[y]) == source[y]) && Tiled(grid)
  }

  /** The next row of the scan, when the rows above it are those of a tiling. */
  lemma ScanMakesRow(source: seq<seq<Cell>>, grid: seq<Row>, z: nat)
    requires z < |source| == |grid| && Grid(Table(source), z) == grid[..z]
    requires Expanded(PushAll(Parsed(source[z]), Pushes(grid, z, z))) == grid[z]
    ensures Grid(Table(source), z + 1) == grid[..z + 1]
  {
    var above := grid[..z];
    assert grid == above + grid[z..];
    PushesPrefix(above, grid[z..], z, z);
    PushesAgree(above, Parsed(source[z]), z, z);
    assert grid[..z + 1] == above + [grid[z]];
  }

  /** A tiling of the source in which nothing is pending is what the scan makes. */
  lemma {:induction false} ScanMakes(source: seq<seq<Cell>>, grid: seq<Row>, n: nat)
    requires Tiling(source, grid) && NothingPending(grid) && n <= |source|
    ensures Grid(Table(source), n) == grid[..n]
  {
    if n > 0 {
      ScanMakes(source, grid, n - 1);
      GridRowExact(grid, n - 1);
      ScanMakesRow(source, grid, n - 1);
    }
  }

  lemma LayoutCells(source: seq<seq<Cell>>)
    ensures forall y | 0 <= y < |source| :: Cells(Layout(source)[y]) == source[y]
  {
    GridCells(source);
  }

  /** What the scan makes, if it is tiled, has nothing pending. */
  lemma ScanSettles(source: seq<seq<Cell>>)
    requires Tiled(Layout(source))
    ensures NothingPending(Layout(source))
  {
    var grid := Layout(source);
    LayoutCells(source);
    forall y: nat, x: nat, z: nat | z < |grid| && Reaches(grid, y, x, z) && CellFrom(grid[z], x)
      ensures NothingToCome(grid, y, x, z)
    {
      GridRow(source, |source|, z);
      GridRowExact(grid, z);
    }
  }

  // ---------------------------------------------------------------- the placement

  /** A cell of a row, `d` rows above, takes column `j`. */
  predicate TakenBy(row: Row, d: nat, j: nat) {
    exists x | 0 <= x < |row| :: x <= j < x + SpanBelow(row[x], d)
  }

  /** Column `j` of the row below `above` is taken. */
  predicate Taken(above: seq<Row>, j: nat) {
    exists y | 0 <= y < |above| :: TakenBy(above[y], |above| - y, j)
  }

  /** A column behind every one that is taken. */
  function Extent(above: seq<Row>): nat {
    if above == [] then 0 else Extent(above[1..]) + |above[0]| + OwnColumns(Cells(above[0]))
  }

  lemma {:induction false} CellColumns(row: Row, x: nat)
    requires x < |row| && row[x] != None
    ensures 1 + OwnSpan(row[x]) <= OwnColumns(Cells(row))
  {
    if x > 0 {
      CellColumns(row[1..], x - 1);
    }
  }

  lemma {:induction false} ExtentBounds(above: seq<Row>, y: nat)
    requires y < |above|
    ensures |above[y]| + OwnColumns(Cells(above[y])) <= Extent(above)
  {
    if y > 0 {
      ExtentBounds(above[1..], y - 1);
    }
  }

  lemma TakenBounded(above: seq<Row>, j: nat)
    requires Taken(above, j)
    ensures j < Extent(above)
  {
    var y :| 0 <= y < |above| && TakenBy(above[y], |above| - y, j);
    var x :| 0 <= x < |above[y]| && x <= j < x + SpanBelow(above[y][x], |above| - y);
    CellColumns(above[y], x);
    ExtentBounds(above, y);
  }

  /** Each cell goes to the first column, from `j` on, that is not taken. */
  function FillRow(above: seq<Row>, cells: seq<Cell>, j: nat): Row
    decreases |cells|, Extent(above) - j
  {
    if Taken(above, j) then
      TakenBounded(above, j);
      [None] + FillRow(above, cells, j + 1)
    else if cells == [] then []
    else
      [Some(cells[0])] + Nones(Times(cells[0].cspan)) + FillRow(above, cells[1..], j + 1 + Times(cells[0].cspan))
  }

  /** The layout without insertions: every cell in the first column that no earlier cell takes. */
  function Place(source: seq<seq<Cell>>): (grid: seq<Row>)
    ensures |grid| == |source|
  {
    if source == [] then []
    else
      var above := Place(source[..|source| - 1]);
      above + [FillRow(above, source[|source| - 1], 0)]
  }

  lemma {:induction false} PlaceRow(source: seq<seq<Cell>>, z: nat)
    requires z < |source|
    ensures Place(source)[z] == FillRow(Place(source)[..z], source[z], 0)
  {
    var above := Place(source[..|source| - 1]);
    assert Place(source)[..z] == above[..z];
    if z < |source| - 1 {
      PlaceRow(source[..|source| - 1], z);
    } else {
      assert above[..z] == above;
    }
  }

  lemma {:induction false} FillRowCells(above: seq<Row>, cells: seq<Cell>, j: nat)
    ensures Cells(FillRow(above, cells, j)) == cells
    decreases |cells|, Extent(above) - j
  {
    if Taken(above, j) {
      TakenBounded(above, j);
      FillRowCells(above, cells, j + 1);
      assert ([None] + FillRow(above, cells, j + 1))[1..] == FillRow(above, cells, j + 1);
    } else if cells != [] {
      var n := Times(cells[0].cspan);
      FillRowCells(above, cells[1..], j + 1 + n);
      CellsNones(n, FillRow(above, cells[1..], j + 1 + n));
      CellsBlock(cells[0], n, FillRow(above, cells[1..], j + 1 + n));
    }
  }

  lemma CellsBlock(c: Cell, n: nat, rest: Row)
    ensures Cells([Some(c)] + Nones(n) + rest) == [c] + Cells(rest)
  {
    var tail := Nones(n) + rest;
    assert [Some(c)] + Nones(n) + rest == [Some(c)] + tail;
    assert ([Some(c)] + tail)[1..] == tail;
    CellsNones(n, rest);
  }

  lemma TakenCovers(grid: seq<Row>, z: nat, j: nat)
    requires z < |grid|
    ensures Taken(grid[..z], j) <==> exists y: nat, x: nat :: y < z && Covers(grid, y, x, z, j)
  {
    var above := grid[..z];
    if y: nat, x: nat :| y < z && Covers(grid, y, x, z, j) {
      assert above[y] == grid[y];
      assert TakenBy(above[y], z - y, j);
    }
    if Taken(above, j) {
      var y :| 0 <= y < |above| && TakenBy(above[y], |above| - y, j);
      var x :| 0 <= x < |above[y]| && x <= j < x + SpanBelow(above[y][x], |above| - y);
      assert Covers(grid, y, x, z, j);
    }
  }

  lemma FillsNone(grid: seq<Row>, z: nat, j: nat)
    requires Tiled(grid) && z < |grid| && j < |grid[z]| && !InSpan(grid[z], j) && grid[z][j] == None
    requires FillRow(grid[..z], Cells(grid[z][j + 1..]), j + 1) == grid[z][j + 1..]
    ensures FillRow(grid[..z], Cells(grid[z][j..]), j) == grid[z][j..]
  {
    PlaceholderTaken(grid, z, j);
    assert grid[z][j..][1..] == grid[z][j + 1..];
    assert grid[z][j..] == [None] + grid[z][j + 1..];
  }

  lemma FillsBlock(grid: seq<Row>, z: nat, j: nat, next: nat)
    requires Tiled(grid) && z < |grid| && j < |grid[z]| && grid[z][j] != None
    requires next == j + 1 + OwnSpan(grid[z][j]) <= |grid[z]|
    requires forall i: nat | j < i < next :: grid[z][i] == None
    requires FillRow(grid[..z], Cells(grid[z][next..]), next) == grid[z][next..]
    ensures FillRow(grid[..z], Cells(grid[z][j..]), j) == grid[z][j..]
  {
    var g, n := grid[z], OwnSpan(grid[z][j]);
    CellNotTaken(grid, z, j);
    assert g[j..] == [g[j]] + Nones(n) + g[next..];
    CellsBlock(g[j].value, n, g[next..]);
    assert Cells(g[j..]) == [g[j].value] + Cells(g[next..]);
    assert ([g[j].value] + Cells(g[next..]))[1..] == Cells(g[next..]);
  }

  /** From a column at which no block is open, a tiled row is filled as the placement fills it. */
  lemma {:induction false} RowFills(grid: seq<Row>, z: nat, j: nat)
    requires Tiled(grid) && z < |grid| && j <= |grid[z]| && !InSpan(grid[z], j) && Spaced(grid[z])
    ensures FillRow(grid[..z], Cells(grid[z][j..]), j) == grid[z][j..]
    decreases |grid[z]| - j
  {
    if j == |grid[z]| {
      TakenCovers(grid, z, j);
    } else if grid[z][j] == None {
      assert !InSpan(grid[z], j + 1);
      RowFills(grid, z, j + 1);
      FillsNone(grid, z, j);
    } else {
      SpanEnds(grid[z], j);
      RowFills(grid, z, j + 1 + OwnSpan(grid[z][j]));
      FillsBlock(grid, z, j, j + 1 + OwnSpan(grid[z][j]));
    }
  }

  lemma SpanEnds(g: Row, j: nat)
    requires Spaced(g) && j < |g| && !InSpan(g, j)
    ensures j + 1 + OwnSpan(g[j]) <= |g| && !InSpan(g, j + 1 + OwnSpan(g[j]))
    ensures forall i: nat | j < i <= j + OwnSpan(g[j]) :: g[i] == None
  {
    var next := j + 1 + OwnSpan(g[j]);
    forall p: nat | p < next && p < |g|
      ensures next > p + OwnSpan(g[p])
    {
      assert p < j ==> j > p + OwnSpan(g[p]);
    }
  }

  lemma PlaceholderTaken(grid: seq<Row>, z: nat, j: nat)
    requires Tiled(grid) && z < |grid| && j < |grid[z]| && grid[z][j] == None && !InSpan(grid[z], j)
    ensures Taken(grid[..z], j)
  {
    TakenCovers(grid, z, j);
    assert Owned(grid, z, j);
    var y: nat, x: nat :| Covers(grid, y, x, z, j);
    CoverFromAbove(grid, z, j, y, x);
  }

  lemma CoverFromAbove(grid: seq<Row>, z: nat, j: nat, y: nat, x: nat)
    requires z < |grid| && j < |grid[z]| && grid[z][j] == None && !InSpan(grid[z], j) && Covers(grid, y, x, z, j)
    ensures y < z
  {}

  lemma CellNotTaken(grid: seq<Row>, z: nat, j: nat)
    requires BlocksFilled(grid) && z < |grid| && j < |grid[z]| && grid[z][j] != None
    ensures !Taken(grid[..z], j)
  {
    TakenCovers(grid, z, j);
  }

  /** There is one tiling of a source at most: the placement. */
  lemma {:induction false} TilingIsPlace(source: seq<seq<Cell>>, grid: seq<Row>, n: nat)
    requires Tiling(source, grid) && n <= |source|
    ensures Place(source[..n]) == grid[..n]
  {
    if n > 0 {
      var z := n - 1;
      TilingIsPlace(source, grid, z);
      assert source[..n][..z] == source[..z];
      RowOfTiled(grid, z);
      assert grid[z][0..] == grid[z];
      RowFills(grid, z, 0);
      assert grid[..n] == grid[..z] + [grid[z]];
    }
  }

  lemma {:induction false} PlaceCells(source: seq<seq<Cell>>)
    ensures forall y | 0 <= y < |source| :: Cells(Place(source)[y]) == source[y]
  {
    forall y | 0 <= y < |source|
      ensures Cells(Place(source)[y]) == source[y]
    {
      PlaceRow(source, y);
      FillRowCells(Place(source)[..y], source[y], 0);
    }
  }

  /**
   When the scan tiles, for every table: the placement, which inserts nothing, must tile, and of the
   spans that reach a row, each with a cell to its right must have nothing to come on its left.  The
   scan then makes the placement.
   */
  lemma TiledExactly(source: seq<seq<Cell>>)
    ensures Tiled(Layout(source)) <==> Tiled(Place(source)) && NothingPending(Place(source))
    ensures Tiled(Layout(source)) ==> Layout(source) == Place(source)
  {
    var grid, place := Layout(source), Place(source);
    assert source[..|source|] == source;
    LayoutCells(source);
    PlaceCells(source);
    if Tiled(grid) {
      TilingIsPlace(source, grid, |source|);
      assert grid[..|source|] == grid;
      ScanSettles(source);
    }
    if Tiled(place) && NothingPending(place) {
      ScanMakes(source, place, |source|);
      assert place[..|source|] == place;
    }
  }

  // ---------------------------------------------------------------- when the placement tiles

  /** No span from above reaches a column at or beyond the end of a row. */
  ghost predicate LongEnough(grid: seq<Row>) {
    forall z: nat, j: nat | z < |grid| && Taken(grid[..z], j) :: j < |grid[z]|
  }

  /** No column span of a cell runs into a span from above. */
  ghost predicate NoOverlap(grid: seq<Row>) {
    forall z: nat, p: nat, j: nat | z < |grid| && p < |grid[z]| && p < j <= p + OwnSpan(grid[z][p]) ::
      !Taken(grid[..z], j)
  }

  /** The columns of a placed row: cells stand where nothing is taken, placeholders where something is. */
  ghost predicate Placed(above: seq<Row>, row: Row, j: nat) {
    forall i: nat | i < |row| :: if row[i] != None then !Taken(above, j + i) else Taken(above, j + i) || InSpan(row, i)
  }

  lemma ShiftSpans(left: Row, rest: Row, i: nat)
    requires i < |rest|
    ensures InSpan(rest, i) ==> InSpan(left + rest, |left| + i)
  {
    if p: nat :| p < i && p < |rest| && i <= p + OwnSpan(rest[p]) {
      assert (left + rest)[|left| + p] == rest[p];
    }
  }

  lemma PlacedAppend(above: seq<Row>, left: Row, rest: Row, j: nat)
    requires Placed(above, left, j) && Placed(above, rest, j + |left|)
    ensures Placed(above, left + rest, j)
  {
    var row := left + rest;
    forall i: nat | i < |row|
      ensures if row[i] != None then !Taken(above, j + i) else Taken(above, j + i) || InSpan(row, i)
    {
      if i < |left| {
        assert row[i] == left[i];
        if p: nat :| p < i && p < |left| && i <= p + OwnSpan(left[p]) {
          assert row[p] == left[p];
        }
      } else {
        ShiftSpans(left, rest, i - |left|);
      }
    }
  }

  lemma SpacedAppend(c: Cell, rest: Row)
    requires Spaced(rest)
    ensures Spaced([Some(c)] + Nones(Times(c.cspan)) + rest)
  {}

  lemma BlockPlaced(above: seq<Row>, c: Cell, j: nat)
    requires !Taken(above, j)
    ensures Placed(above, [Some(c)] + Nones(Times(c.cspan)), j)
  {
    var block := [Some(c)] + Nones(Times(c.cspan));
    forall i: nat | 0 < i < |block|
      ensures block[i] == None && InSpan(block, i)
    {
      assert i <= 0 + OwnSpan(block[0]);
    }
  }

  lemma NonePlaced(above: seq<Row>, j: nat)
    requires Taken(above, j)
    ensures Placed(above, [None], j)
  {}

  lemma SpacedNone(rest: Row)
    requires Spaced(rest)
    ensures Spaced([None] + rest)
  {}

  lemma {:induction false} FillRowPlaced(above: seq<Row>, cells: seq<Cell>, j: nat)
    ensures Placed(above, FillRow(above, cells, j), j) && Spaced(FillRow(above, cells, j))
    decreases |cells|, Extent(above) - j
  {
    if Taken(above, j) {
      TakenBounded(above, j);
      FillRowPlaced(above, cells, j + 1);
      NonePlaced(above, j);
      PlacedAppend(above, [None], FillRow(above, cells, j + 1), j);
      SpacedNone(FillRow(above, cells, j + 1));
    } else if cells != [] {
      var n := Times(cells[0].cspan);
      FillRowPlaced(above, cells[1..], j + 1 + n);
      BlockPlaced(above, cells[0], j);
      PlacedAppend(above, [Some(cells[0])] + Nones(n), FillRow(above, cells[1..], j + 1 + n), j);
      SpacedAppend(cells[0], FillRow(above, cells[1..], j + 1 + n));
    }
  }

  lemma PlacedRows(source: seq<seq<Cell>>, z: nat)
    requires z < |source|
    ensures Placed(Place(source)[..z], Place(source)[z], 0) && Spaced(Place(source)[z])
  {
    PlaceRow(source, z);
    FillRowPlaced(Place(source)[..z], source[z], 0);
  }

  lemma PlaceFilled(source: seq<seq<Cell>>, y: nat, x: nat, i: nat, j: nat)
    requires LongEnough(Place(source)) && i < |source| && Covers(Place(source), y, x, i, j)
    ensures j < |Place(source)[i]| && (Place(source)[i][j] == None || (i == y && j == x))
  {
    PlacedRows(source, i);
    TakenCovers(Place(source), i, j);
  }

  lemma PlaceOwned(source: seq<seq<Cell>>, i: nat, j: nat)
    requires i < |source| && j < |Place(source)[i]|
    ensures Owned(Place(source), i, j)
  {
    var grid := Place(source);
    PlacedRows(source, i);
    TakenCovers(grid, i, j);
    if grid[i][j] != None {
      assert Covers(grid, i, j, i, j);
    } else if !Taken(grid[..i], j) {
      var p: nat :| p < j && p < |grid[i]| && j <= p + OwnSpan(grid[i][p]);
      assert Covers(grid, i, p, i, j);
    }
  }

  lemma OwnBlocksApart(grid: seq<Row>, x: nat, x': nat, i: nat, j: nat)
    requires i < |grid| && Spaced(grid[i]) && x <= x'
    requires Covers(grid, i, x, i, j) && Covers(grid, i, x', i, j)
    ensures x == x'
  {}

  /** In one row, an own block and a span from above do not meet, nor do two own blocks. */
  lemma OwnOnce(grid: seq<Row>, y: nat, x: nat, x': nat, i: nat, j: nat)
    requires NoOverlap(grid) && y <= i < |grid| && Placed(grid[..i], grid[i], 0) && Spaced(grid[i])
    requires Covers(grid, y, x, i, j) && Covers(grid, i, x', i, j)
    ensures y == i && x == x'
  {
    if y < i {
      TakenCovers(grid, i, j);
    } else if x <= x' {
      OwnBlocksApart(grid, x, x', i, j);
    } else {
      OwnBlocksApart(grid, x', x, i, j);
    }
  }

  /** A block that reaches a row covers the same column in every row before. */
  lemma CoverBefore(grid: seq<Row>, y: nat, x: nat, y': nat, i: nat, j: nat)
    requires y <= y' <= i && Covers(grid, y, x, i, j)
    ensures Covers(grid, y, x, y', j)
  {}

  lemma BlocksOnce(grid: seq<Row>, y: nat, x: nat, y': nat, x': nat, i: nat, j: nat)
    requires NoOverlap(grid) && y <= y' <= i && y' < |grid|
    requires Placed(grid[..y'], grid[y'], 0) && Spaced(grid[y'])
    requires Covers(grid, y, x, i, j) && Covers(grid, y', x', i, j)
    ensures y == y' && x == x'
  {
    CoverBefore(grid, y, x, y', i, j);
    CoverBefore(grid, y', x', y', i, j);
    OwnOnce(grid, y, x, x', y', j);
  }

  lemma PlaceOnce(source: seq<seq<Cell>>, grid: seq<Row>, y: nat, x: nat, y': nat, x': nat, i: nat, j: nat)
    requires grid == Place(source) && NoOverlap(grid) && y <= y' <= i < |grid|
    requires Covers(grid, y, x, i, j) && Covers(grid, y', x', i, j)
    ensures y == y' && x == x'
  {
    PlacedRows(source, y');
    BlocksOnce(grid, y, x, y', x', i, j);
  }

  /** The placement tiles if and only if its rows are long enough and its column spans keep clear. */
  lemma PlaceTiled(source: seq<seq<Cell>>)
    ensures Tiled(Place(source)) <==> LongEnough(Place(source)) && NoOverlap(Place(source))
  {
    var grid := Place(source);
    if Tiled(grid) {
      TiledKeepsClear(grid);
    }
    if LongEnough(grid) && NoOverlap(grid) {
      forall i: nat, j: nat | i < |grid| && j < |grid[i]|
        ensures Owned(grid, i, j)
      {
        PlaceOwned(source, i, j);
      }
      forall y: nat, x: nat, i: nat, j: nat | i < |grid| && Covers(grid, y, x, i, j)
        ensures j < |grid[i]| && (grid[i][j] == None || (i == y && j == x))
      {
        PlaceFilled(source, y, x, i, j);
      }
      forall y: nat, x: nat, y': nat, x': nat, i: nat, j: nat
        | i < |grid| && Covers(grid, y, x, i, j) && Covers(grid, y', x', i, j)
        ensures y == y' && x == x'
      {
        if y <= y' {
          PlaceOnce(source, grid, y, x, y', x', i, j);
        } else {
          PlaceOnce(source, grid, y', x', y, x, i, j);
        }
      }
    }
  }

  lemma TiledKeepsClear(grid: seq<Row>)
    requires Tiled(grid)
    ensures LongEnough(grid) && NoOverlap(grid)
  {
    forall z: nat, j: nat | z < |grid| && Taken(grid[..z], j)
      ensures j < |grid[z]|
    {
      TakenCovers(grid, z, j);
    }
    forall z: nat, p: nat, j: nat | z < |grid| && p < |grid[z]| && p < j <= p + OwnSpan(grid[z][p])
      ensures !Taken(grid[..z], j)
    {
      TakenCovers(grid, z, j);
      assert Covers(grid, z, p, z, j);
    }
  }

  // ---------------------------------------------------------------- row spans of one row

  ghost predicate RowSpansAtMostOne(cells: seq<Cell>) {
    forall c: Cell :: c in cells ==> c.rspan <= 1
  }

  ghost predicate HasRowSpan(cells: seq<Cell>) {
    exists c: Cell :: c in cells && c.rspan == 1
  }

  ghost predicate NoColumnSpans(cells: seq<Cell>) {
    forall c: Cell :: c in cells ==> c.cspan <= 0
  }

  lemma {:induction false} CellInRow(row: Row, c: Cell)
    ensures c in Cells(row) <==> Some(c) in row
  {
    if row != [] {
      CellInRow(row[1..], c);
      assert row == [row[0]] + row[1..];
      if row[0].Some? {
        assert Cells(row) == [row[0].value] + Cells(row[1..]);
      }
    }
  }

  /** A span that reaches a row comes from the row above it, and the row has no column spans. */
  lemma OneRowSpan(source: seq<seq<Cell>>, grid: seq<Row>, y: nat, x: nat, z: nat)
    requires forall i: nat | i < |source| :: RowSpansAtMostOne(source[i])
    requires forall i: nat | i + 1 < |source| && HasRowSpan(source[i]) :: NoColumnSpans(source[i + 1])
    requires |grid| == |source| && forall i | 0 <= i < |source| :: Cells(grid[i]) == source[i]
    requires z < |grid| && Reaches(grid, y, x, z)
    ensures z == y + 1 && forall p: nat | p < |grid[z]| :: OwnSpan(grid[z][p]) == 0
  {
    CellInRow(grid[y], grid[y][x].value);
    assert grid[y][x].value in source[y];
    forall p: nat | p < |grid[z]|
      ensures OwnSpan(grid[z][p]) == 0
    {
      if grid[z][p] != None {
        CellInRow(grid[z], grid[z][p].value);
      }
    }
  }

  /** Every span that reaches a row comes from the row above it, and the row has no column spans. */
  ghost predicate SpansNextRow(grid: seq<Row>) {
    forall y: nat, x: nat, z: nat | z < |grid| && Reaches(grid, y, x, z) ::
      z == y + 1 && forall p: nat | p < |grid[z]| :: OwnSpan(grid[z][p]) == 0
  }

  lemma NextRowNoOverlap(grid: seq<Row>)
    requires SpansNextRow(grid)
    ensures NoOverlap(grid)
  {
    forall z: nat, p: nat, j: nat | z < |grid| && p < |grid[z]| && p < j <= p + OwnSpan(grid[z][p])
      ensures !Taken(grid[..z], j)
    {
      TakenCovers(grid, z, j);
      if y: nat, x: nat :| y < z && Covers(grid, y, x, z, j) {
        assert Reaches(grid, y, x, z);
      }
    }
  }

  lemma NextRowNothingPending(grid: seq<Row>)
    requires SpansNextRow(grid)
    ensures NothingPending(grid)
  {
    forall y: nat, x: nat, z: nat | z < |grid| && Reaches(grid, y, x, z) && CellFrom(grid[z], x)
      ensures NothingToCome(grid, y, x, z)
    {
      assert forall y': nat, x': nat | Reaches(grid, y', x', z) :: z == y' + 1;
    }
  }

  /** With row spans of at most one row, onto rows without column spans, only a short row spoils the tiling. */
  lemma TiledOneRowSpans(source: seq<seq<Cell>>)
    requires forall y: nat | y < |source| :: RowSpansAtMostOne(source[y])
    requires forall y: nat | y + 1 < |source| && HasRowSpan(source[y]) :: NoColumnSpans(source[y + 1])
    ensures Tiled(Layout(source)) <==> LongEnough(Place(source))
  {
    var grid := Place(source);
    PlaceCells(source);
    forall y: nat, x: nat, z: nat | z < |grid| && Reaches(grid, y, x, z)
      ensures z == y + 1 && forall p: nat | p < |grid[z]| :: OwnSpan(grid[z][p]) == 0
    {
      OneRowSpan(source, grid, y, x, z);
    }
    NextRowNoOverlap(grid);
    NextRowNothingPending(grid);
    PlaceTiled(source);
    TiledExactly(source);
  }

  // ---------------------------------------------------------------- two tables that are not tiled

  /** `b` spans two rows more, `d` below and to its left one more, and no other cell spans anything. */
  predicate CrossingSpans(a: Cell, b: Cell, c: Cell, d: Cell, e: Cell, f: Cell) {
    && b.rspan == 2 && d.rspan == 1
    && a.rspan == c.rspan == e.rspan == f.rspan == 0
    && a.cspan == b.cspan == c.cspan == d.cspan == e.cspan == f.cspan == 0
  }

  /** The row of `d e` receives the placeholder of `b`. */
  lemma CrossingSecondRow(row0: Row, row: Row, d: Cell, e: Cell)
    requires |row0| == 3 && SpanBelow(row0[1], 1) == 1 && SpanBelow(row0[0], 1) == SpanBelow(row0[2], 1) == 0
    requires row == [Some(d), Some(e)]
    ensures Received([row0], row, 1, 1) == [Some(d), None, Some(e)]
  {
    SecondPushes(row0, row, 1, 1);
    ReceivedOne([row0], row);
  }

  /** The row of `f` receives the placeholders of `b` and, to the left of it, of `d`. */
  lemma CrossingThirdRow(row0: Row, row1: Row, row: Row, f: Cell)
    requires |row0| == 3 && SpanBelow(row0[1], 2) == 1 && SpanBelow(row0[0], 2) == SpanBelow(row0[2], 2) == 0
    requires |row1| == 3 && SpanBelow(row1[0], 1) == 1 && SpanBelow(row1[1], 1) == SpanBelow(row1[2], 1) == 0
    requires row == [Some(f)]
    ensures Received([row0, row1], row, 2, 2) == [None, Some(f), None]
  {
    SecondPushes(row0, row, 2, 1);
    assert Widen(row, 1, 1) == [Some(f), None];
    FirstPushes(row1, [Some(f), None], 1);
    ReceivedTwo([row0, row1], row);
  }

  /**
   A push to come.  In a table whose rows are `a b c`, `d e` and `f`, the span of `d` starts later than
   that of `b` but to its left, and its placeholder moves the other one out of its column.
   */
  lemma CrossingNotTiled(a: Cell, b: Cell, c: Cell, d: Cell, e: Cell, f: Cell)
    requires CrossingSpans(a, b, c, d, e, f)
    ensures Layout([[a, b, c], [d, e], [f]])[2] == [None, Some(f), None]
    ensures !Tiled(Layout([[a, b, c], [d, e], [f]]))
  {
    var row0: Row := [Some(a), Some(b), Some(c)];
    var row1: Row := [Some(d), None, Some(e)];
    var row2: Row := [None, Some(f), None];
    var t := Table([[a, b, c], [d, e], [f]]);
    assert t[0] == row0 && t[1] == [Some(d), Some(e)] && t[2] == [Some(f)];
    PlainExpanded(row0);
    PlainExpanded(row1);
    PlainExpanded(row2);
    CrossingSecondRow(row0, t[1], d, e);
    CrossingThirdRow(row0, row1, t[2], f);
    GridNext(t, [], row0, row0);
    GridNext(t, [row0], row1, row1);
    GridNext(t, [row0, row1], row2, row2);
    SpanUncovered(Layout([[a, b, c], [d, e], [f]]), 0, 1, 2, 1);
  }

  /** `c` spans one row more, `d` below it one column more. */
  predicate SpanAhead(a: Cell, b: Cell, c: Cell, d: Cell, e: Cell) {
    && c.rspan == 1 && a.rspan == b.rspan == d.rspan == e.rspan == 0
    && d.cspan == 1 && a.cspan == b.cspan == c.cspan == e.cspan == 0
  }

  /**
   A column span to come.  In a table whose rows are `a b c` and `d e`, the column span of `d` is
   inserted after the placeholder of `c` and moves it out of its column.
   */
  lemma SpanAheadNotTiled(a: Cell, b: Cell, c: Cell, d: Cell, e: Cell)
    requires SpanAhead(a, b, c, d, e)
    ensures Layout([[a, b, c], [d, e]])[1] == [Some(d), None, Some(e), None]
    ensures !Tiled(Layout([[a, b, c], [d, e]]))
  {
    var row0: Row := [Some(a), Some(b), Some(c)];
    var row1: Row := [Some(d), None, Some(e), None];
    var t := Table([[a, b, c], [d, e]]);
    assert t[0] == row0 && t[1] == [Some(d), Some(e)];
    PlainExpanded(row0);
    GridNext(t, [], row0, row0);
    ThirdPushes(row0, t[1], 1, 1);
    ReceivedOne([row0], t[1]);
    var received: Row := [Some(d), Some(e), None];
    assert Widen(t[1], 2, 1) == received;
    PlainExpanded(received[1..]);
    assert received == [received[0]] + received[1..];
    ExpandedHead(received[0], received[1..]);
    GridNext(t, [row0], received, row1);
    SpanUncovered(Layout([[a, b, c], [d, e]]), 0, 2, 1, 2);
  }

  lemma SpanUncovered(grid: seq<Row>, y: nat, x: nat, z: nat, j: nat)
    requires z < |grid| && y < z && Covers(grid, y, x, z, j) && j < |grid[z]| && grid[z][j] != None
    ensures !Tiled(grid)
  {}

  lemma PlainExpanded(row: Row)
    requires forall p: nat | p < |row| :: OwnSpan(row[p]) == 0
    ensures Expanded(row) == row
  {
    forall c <- Cells(row)
      ensures c.cspan <= 0
    {
      CellInRow(row, c);
      var p :| 0 <= p < |row| && row[p] == Some(c);
      assert OwnSpan(row[p]) == 0;
    }
    ExpandedPlain(row);
  }

  lemma GridNext(rows: seq<Row>, g: seq<Row>, received: Row, row: Row)
    requires |g| < |rows| && Grid(rows, |g|) == g
    requires Received(g, rows[|g|], |g|, |g|) == received && Expanded(received) == row
    ensures Grid(rows, |g| + 1) == g + [row]
  {}

  lemma ReceivedOne(g: seq<Row>, row: Row)
    requires |g| == 1
    ensures Received(g, row, 1, 1) == PushUpTo(g[0], |g[0]|, row, 1)
  {}

  lemma ReceivedTwo(g: seq<Row>, row: Row)
    requires |g| == 2
    ensures Received(g, row, 2, 2) == PushUpTo(g[1], |g[1]|, PushUpTo(g[0], |g[0]|, row, 2), 1)
  {
    assert Received(g, row, 2, 1) == PushUpTo(g[0], |g[0]|, row, 2);
  }

  lemma SecondPushes(above: Row, row: Row, d: nat, n: nat)
    requires |above| == 3 && SpanBelow(above[1], d) == n > 0
    requires SpanBelow(above[0], d) == SpanBelow(above[2], d) == 0
    ensures PushUpTo(above, 3, row, d) == Widen(row, 1, n)
  {
    assert PushUpTo(above, 1, row, d) == row;
    assert PushUpTo(above, 2, row, d) == Widen(row, 1, n);
  }

  lemma FirstPushes(above: Row, row: Row, n: nat)
    requires |above| == 3 && SpanBelow(above[0], 1) == n > 0
    requires SpanBelow(above[1], 1) == SpanBelow(above[2], 1) == 0
    ensures PushUpTo(above, 3, row, 1) == Widen(row, 0, n)
  {
    assert PushUpTo(above, 1, row, 1) == Widen(row, 0, n);
    assert PushUpTo(above, 2, row, 1) == Widen(row, 0, n);
  }

  lemma ThirdPushes(above: Row, row: Row, d: nat, n: nat)
    requires |above| == 3 && SpanBelow(above[2], d) == n > 0
    requires SpanBelow(above[0], d) == SpanBelow(above[1], d) == 0
    ensures PushUpTo(above, 3, row, d) == Widen(row, 2, n)
  {
    assert PushUpTo(above, 1, row, d) == row;
    assert PushUpTo(above, 2, row, d) == row;
  }
}
