/**
 The layout of a flat-table: rows of cells that may span columns and rows.  The builder scans the
 table in place and inserts a placeholder (`None`) for every column a span occupies, while the rows
 it inserts into are still to be scanned; then it rounds all rows off to the same width.

 `Grid` is the simple form: row by row, push the placeholders of the rows above, then expand the
 row's own column spans.  The in-place scan is proved to compute it.
 */
module FlatTable {
  import opened Prelude

  datatype Element = Target(id: nat) | Node(id: nat)

  datatype Cell = Cell(cspan: int, rspan: int, content: seq<Element>)

  type Row = seq<Option<Cell>>

  /** The number of iterations of a Python range(n). */
  function Times(n: int): nat {
    if n > 0 then n else 0
  }

  function Nones(n: nat): (r: Row)
    ensures |r| == n && forall e <- r :: e == None
  {
    seq(n, i => None)
  }

  /** Python's insert(at, None), which appends when `at` is beyond the end. */
  function Insert(row: Row, at: nat): Row {
    if at <= |row| then row[..at] + [None] + row[at..] else row + [None]
  }

  /** `n` placeholders in a row, inserted at `at`, `at + 1`, and so on. */
  function Widen(row: Row, at: nat, n: nat): (r: Row)
    ensures |r| == |row| + n
  {
    var k := if at <= |row| then at else |row|;
    row[..k] + Nones(n) + row[k..]
  }

  lemma WidenZero(row: Row, at: nat)
    ensures Widen(row, at, 0) == row
  {}

  lemma WidenNext(row: Row, at: nat, n: nat)
    ensures Insert(Widen(row, at, n), at + n) == Widen(row, at, n + 1)
  {
    var k := if at <= |row| then at else |row|;
    assert Nones(n) + [None] == Nones(n + 1);
    var w := Widen(row, at, n);
    if at <= |row| {
      assert w[..at + n] == row[..k] + Nones(n);
      assert w[at + n..] == row[k..];
    }
  }

  /** The columns a cell adds to its own row, besides its own. */
  function OwnSpan(e: Option<Cell>): nat {
    if e.Some? then Times(e.value.cspan) else 0
  }

  /** The placeholders a cell leaves in the row `d` below its own. */
  function SpanBelow(e: Option<Cell>, d: nat): nat {
    if e.Some? && e.value.rspan >= d then Times(e.value.cspan + 1) else 0
  }

  /** The row with every cell followed by the placeholders of its column span. */
  function Expanded(row: Row): Row {
    if row == [] then [] else [row[0]] + Nones(OwnSpan(row[0])) + Expanded(row[1..])
  }

  /** `row` after receiving the placeholders of the first `x` columns of the row `d` above it. */
  function PushUpTo(above: Row, x: nat, row: Row, d: nat): Row
    requires x <= |above|
  {
    if x == 0 then row
    else
      var r := PushUpTo(above, x - 1, row, d);
      if SpanBelow(above[x - 1], d) == 0 then r else Widen(r, x - 1, SpanBelow(above[x - 1], d))
  }

  /** Row `z` after receiving the placeholders of the first `y` rows of the grid. */
  function Received(grid: seq<Row>, row: Row, z: nat, y: nat): Row
    requires y <= z && y <= |grid|
  {
    if y == 0 then row
    else PushUpTo(grid[y - 1], |grid[y - 1]|, Received(grid, row, z, y - 1), z - (y - 1))
  }

  /** The layout of the first `n` rows. */
  function Grid(rows: seq<Row>, n: nat): (g: seq<Row>)
    requires n <= |rows|
    ensures |g| == n
  {
    if n == 0 then []
    else
      var g := Grid(rows, n - 1);
      g + [Expanded(Received(g, rows[n - 1], n - 1, n - 1))]
  }

  lemma {:induction false} ReceivedPrefix(grid: seq<Row>, more: seq<Row>, row: Row, z: nat, y: nat)
    requires y <= z && y <= |grid|
    ensures Received(grid + more, row, z, y) == Received(grid, row, z, y)
  {
    if y > 0 {
      ReceivedPrefix(grid, more, row, z, y - 1);
    }
  }

  lemma {:induction false} ExpandedNones(n: nat, rest: Row)
    ensures Expanded(Nones(n) + rest) == Nones(n) + Expanded(rest)
  {
    if n == 0 {
      assert Nones(0) + rest == rest;
    } else {
      var row := Nones(n) + rest;
      assert row[0] == None && row[1..] == Nones(n - 1) + rest;
      calc {
        Expanded(row);
        [None] + Nones(0) + Expanded(row[1..]);
        { assert [None] + Nones(0) == [None]; ExpandedNones(n - 1, rest); }
        [None] + (Nones(n - 1) + Expanded(rest));
        { assert [None] + Nones(n - 1) == Nones(n); }
        Nones(n) + Expanded(rest);
      }
    }
  }

  function Cells(row: Row): seq<Cell> {
    if row == [] then []
    else if row[0].Some? then [row[0].value] + Cells(row[1..])
    else Cells(row[1..])
  }

  // ------------------------------------------------------- the state of the scan

  /** Row `y` has been scanned: it is expanded, and its spans are in the rows below. */
  ghost predicate RowScanned(before: seq<Row>, after: seq<Row>, y: nat) {
    && y < |after| == |before|
    && (forall z | 0 <= z < y :: after[z] == before[z])
    && after[y] == Expanded(before[y])
    && forall z | y < z < |after| :: after[z] == PushUpTo(after[y], |after[y]|, before[z], z - y)
  }

  /** The scan of row `y` has come to column `x`; `full` is what the row will be. */
  ghost predicate UnderScan(start: seq<Row>, rows: seq<Row>, y: nat, x: nat, full: Row) {
    && y < |rows| == |start| && x <= |rows[y]| && x <= |full|
    && (forall z | 0 <= z < y :: rows[z] == start[z])
    && rows[y][..x] + Expanded(rows[y][x..]) == full
    && forall z | y < z < |rows| :: rows[z] == PushUpTo(full, x, start[z], z - y)
  }

  /** The spans of the cell at (`y`, `x`) have been inserted. */
  ghost predicate SpansInserted(before: seq<Row>, after: seq<Row>, y: nat, x: nat) {
    && y < |after| == |before| && x < |before[y]|
    && (forall z | 0 <= z < y :: after[z] == before[z])
    && after[y] == Widen(before[y], x + 1, OwnSpan(before[y][x]))
    && forall z | y < z < |after| ::
         after[z] == var n := SpanBelow(before[y][x], z - y); if n == 0 then before[z] else Widen(before[z], x, n)
  }

  /** The cells still to be scanned in row `y`. */
  function CellsLeft(rows: seq<Row>, y: nat, x: nat): nat {
    if y < |rows| && x <= |rows[y]| then |Cells(rows[y][x..])| else 0
  }

  lemma ScanSkips(start: seq<Row>, rows: seq<Row>, y: nat, x: nat, full: Row)
    requires UnderScan(start, rows, y, x, full) && x < |rows[y]| && rows[y][x] == None
    ensures UnderScan(start, rows, y, x + 1, full) && CellsLeft(rows, y, x + 1) == CellsLeft(rows, y, x)
  {
    ScanStep(rows[y], x, full);
  }

  lemma ScanInserts(start: seq<Row>, before: seq<Row>, rows: seq<Row>, y: nat, x: nat, full: Row)
    requires UnderScan(start, before, y, x, full) && SpansInserted(before, rows, y, x) && before[y][x].Some?
    ensures UnderScan(start, rows, y, x + 1, full) && CellsLeft(rows, y, x + 1) < CellsLeft(before, y, x)
  {
    ScanStep(before[y], x, full);
  }

  lemma ScanEnds(start: seq<Row>, rows: seq<Row>, y: nat, x: nat, full: Row)
    requires UnderScan(start, rows, y, x, full) && x == |rows[y]| && full == Expanded(start[y])
    ensures RowScanned(start, rows, y)
  {
    assert rows[y][x..] == [] && rows[y][..x] + [] == rows[y];
    assert rows[y] == full;
  }

  /** The first `y` rows are laid out and have been pushed into the others. */
  ghost predicate Scanned(src: seq<Row>, rows: seq<Row>, y: nat) {
    && y <= |rows| == |src| && rows[..y] == Grid(src, y)
    && forall z | y <= z < |rows| :: rows[z] == Received(Grid(src, y), src[z], z, y)
  }

  lemma ScanGoesOn(src: seq<Row>, before: seq<Row>, rows: seq<Row>, y: nat)
    requires Scanned(src, before, y) && y < |before| && RowScanned(before, rows, y)
    ensures Scanned(src, rows, y + 1)
  {
    var grid := Grid(src, y);
    assert Grid(src, y + 1) == grid + [rows[y]];
    assert rows[..y + 1] == before[..y] + [rows[y]];
    forall z | y < z < |rows|
      ensures rows[z] == Received(Grid(src, y + 1), src[z], z, y + 1)
    {
      ReceivedPrefix(grid, [rows[y]], src[z], z, y);
    }
  }

  // ------------------------------------------------------- rounding off

  /** The length of the longest row, if that is more than `width`. */
  function Widest(grid: seq<Row>, width: nat): nat {
    if grid == [] then width
    else Widest(grid[1..], if width < |grid[0]| then |grid[0]| else width)
  }

  lemma {:induction false} WidestBounds(grid: seq<Row>, width: nat)
    ensures width <= Widest(grid, width)
    ensures forall y | 0 <= y < |grid| :: |grid[y]| <= Widest(grid, width)
    ensures Widest(grid, width) == width || exists y :: 0 <= y < |grid| && |grid[y]| == Widest(grid, width)
  {
    if grid != [] {
      var width' := if width < |grid[0]| then |grid[0]| else width;
      WidestBounds(grid[1..], width');
      assert forall y | 1 <= y < |grid| :: grid[y] == grid[1..][y - 1];
      if y :| 0 <= y < |grid[1..]| && |grid[1..][y]| == Widest(grid[1..], width') {
        assert |grid[y + 1]| == Widest(grid, width);
      }
    }
  }

  predicate RaisesAt(row: Row, width: nat, fill: bool) {
    !fill && row == [] && width > 0
  }

  ghost predicate Raises(grid: seq<Row>, width: nat, fill: bool) {
    exists y :: 0 <= y < |grid| && RaisesAt(grid[y], width, fill)
  }

  /** Whether rounding off raises, told from the source: an empty row in a table that has a column. */
  predicate SourceRaises(source: seq<seq<Cell>>, fill: bool) {
    && !fill
    && (exists y | 0 <= y < |source| :: ColumnsOf(source, y) == 0)
    && (exists y | 0 <= y < |source| :: ColumnsOf(source, y) > 0)
  }

  ghost predicate AllWithin(grid: seq<Row>, width: nat) {
    forall y | 0 <= y < |grid| :: |grid[y]| <= width
  }

  function Fillers(n: nat): Row {
    seq(n, k => Some(Cell(0, 0, [])))
  }

  function Grown(cell: Cell, x: int): Cell {
    Cell(cell.cspan + x, cell.rspan, cell.content)
  }

  /** A row made as wide as the table. */
  function Rounded(row: Row, width: nat, fill: bool): Row
    requires |row| <= width && !RaisesAt(row, width, fill)
  {
    var x := width - |row|;
    if x == 0 then row
    else if fill then row + Fillers(x)
    else if row[|row| - 1] == None then row + [Some(Cell(x - 1, 0, []))]
    else
      var last := row[|row| - 1].value;
      row[|row| - 1 := Some(Grown(last, x))]
  }

  ghost function RoundedAll(grid: seq<Row>, width: nat, fill: bool): (r: seq<Row>)
    requires AllWithin(grid, width) && !Raises(grid, width, fill)
  {
    seq(|grid|, y requires 0 <= y < |grid| => Rounded(grid[y], width, fill))
  }

  /** The first row that raises is row `y`: the rows before it are rounded, the others as they were. */
  ghost predicate RoundedBefore(grid: seq<Row>, rows: seq<Row>, width: nat, fill: bool, y: int)
    requires AllWithin(grid, width)
  {
    && 0 <= y < |grid| == |rows| && RaisesAt(grid[y], width, fill)
    && (forall i | 0 <= i < y :: !RaisesAt(grid[i], width, fill))
    && forall i | 0 <= i < |grid| :: rows[i] == if i < y then Rounded(grid[i], width, fill) else grid[i]
  }

  // ------------------------------------------------------- the nodes

  datatype Entry = Entry(morecols: int, morerows: int, content: seq<Element>)

  datatype TableNode = TableNode(head: Option<seq<seq<Entry>>>, body: seq<seq<Entry>>)

  /** All rows of a table node, the head first. */
  function Emitted(table: TableNode): seq<seq<Entry>> {
    (if table.head.Some? then table.head.value else []) + table.body
  }

  function Entries(cells: seq<Cell>): seq<Entry> {
    if cells == [] then []
    else [Entry(cells[0].cspan, cells[0].rspan, cells[0].content)] + Entries(cells[1..])
  }

  function AllEntries(rows: seq<Row>): seq<seq<Entry>> {
    if rows == [] then [] else [Entries(Cells(rows[0]))] + AllEntries(rows[1..])
  }

  lemma {:induction false} AllEntriesAppend(a: seq<Row>, b: seq<Row>)
    ensures AllEntries(a + b) == AllEntries(a) + AllEntries(b)
  {
    if a == [] {
      assert a + b == b;
    } else {
      assert (a + b)[1..] == a[1..] + b;
      AllEntriesAppend(a[1..], b);
    }
  }

  // ------------------------------------------------------- parsed list items

  datatype RowChild = Comment | SystemMessage | TargetNode(id: nat) | BulletList(cells: seq<Cell>) | Other

  function Lists(item: seq<RowChild>): nat {
    if item == [] then 0
    else Lists(item[..|item| - 1]) + if item[|item| - 1].BulletList? then 1 else 0
  }

  function LastTarget(item: seq<RowChild>): Option<nat> {
    if item == [] then None
    else if item[|item| - 1].TargetNode? then Some(item[|item| - 1].id)
    else LastTarget(item[..|item| - 1])
  }

  function TheList(item: seq<RowChild>): seq<Cell> {
    if item == [] then []
    else if item[|item| - 1].BulletList? then item[|item| - 1].cells
    else TheList(item[..|item| - 1])
  }

  predicate WellFormed(item: seq<RowChild>) {
    Lists(item) == 1 && Other !in item
  }

  /** The cells of a row, each with the row's target in front of its content. */
  function Labelled(cells: seq<Cell>, target: Option<nat>): seq<Cell> {
    if cells == [] then []
    else
      var last := cells[|cells| - 1];
      Labelled(cells[..|cells| - 1], target)
      + [if target.Some? then last.(content := [Target(target.value)] + last.content) else last]
  }

  function Sources(items: seq<seq<RowChild>>): seq<seq<Cell>> {
    seq(|items|, y requires 0 <= y < |items| => Labelled(TheList(items[y]), LastTarget(items[y])))
  }

  /** Child `k` is the one nested list of a row item, with nothing but comments, messages and targets beside it. */
  ghost predicate OnlyList(item: seq<RowChild>, k: int) {
    && 0 <= k < |item| && item[k].BulletList?
    && forall j | 0 <= j < |item| && j != k :: item[j].Comment? || item[j].SystemMessage? || item[j].TargetNode?
  }

  /** `content` is that of a list cell behind the last target of the row item, if it has one. */
  ghost predicate Fronted(item: seq<RowChild>, content: seq<Element>, own: seq<Element>) {
    if exists j :: 0 <= j < |item| && item[j].TargetNode? then
      exists j | 0 <= j < |item| && item[j].TargetNode? ::
        && (forall i | j < i < |item| :: !item[i].TargetNode?)
        && content == [Target(item[j].id)] + own
    else content == own
  }

  /** The cells of a row, by position: those of the nested list, in its order. */
  ghost predicate ParsesTo(item: seq<RowChild>, row: seq<Cell>) {
    exists k | OnlyList(item, k) ::
      && |row| == |item[k].cells|
      && forall i | 0 <= i < |row| ::
           && row[i].cspan == item[k].cells[i].cspan && row[i].rspan == item[k].cells[i].rspan
           && Fronted(item, row[i].content, item[k].cells[i].content)
  }

  /**
   The entries of a row, by position: the cells of the nested list in its order, with their content behind
   the target of the row and with their spans; the last one may have grown, or entries without content
   follow, as in `Preserves`.
   */
  ghost predicate Emits(item: seq<RowChild>, entries: seq<Entry>, fill: bool) {
    exists k | OnlyList(item, k) ::
      var cells := item[k].cells;
      && |cells| <= |entries|
      && (forall i | 0 <= i < |cells| ::
            && Fronted(item, entries[i].content, cells[i].content)
            && entries[i].morerows == cells[i].rspan
            && MayGrow(cells[i].cspan, entries[i].morecols, i == |cells| - 1 && |entries| == |cells|, fill))
      && Extra(entries[|cells|..], fill)
  }

  /** At most one child of the item is a list, and it is child `k`. */
  lemma {:induction false} ListFound(item: seq<RowChild>, k: int)
    requires OnlyList(item, k)
    ensures Lists(item) == 1 && TheList(item) == item[k].cells && Other !in item
  {
    var n := |item| - 1;
    if k == n {
      NoLists(item[..n]);
    } else {
      ListFound(item[..n], k);
    }
    forall j | 0 <= j < |item|
      ensures item[j] != Other
    {
      assert j != k ==> item[j].Comment? || item[j].SystemMessage? || item[j].TargetNode?;
    }
  }

  lemma {:induction false} NoLists(item: seq<RowChild>)
    requires forall child <- item :: !child.BulletList?
    ensures Lists(item) == 0
  {
    if item != [] {
      NoLists(item[..|item| - 1]);
    }
  }

  lemma {:induction false} ListAt(item: seq<RowChild>) returns (k: nat)
    requires Lists(item) >= 1
    ensures k < |item| && item[k].BulletList?
    ensures forall j | 0 <= j < |item| && j != k && item[j].BulletList? :: Lists(item) > 1
  {
    var n := |item| - 1;
    if item[n].BulletList? {
      k := n;
      if j :| 0 <= j < n && item[j].BulletList? {
        SomeLists(item[..n], j);
      }
    } else {
      k := ListAt(item[..n]);
      forall j | 0 <= j < |item| && j != k && item[j].BulletList?
        ensures Lists(item) > 1
      {
        assert item[..n][j].BulletList?;
      }
    }
  }

  lemma {:induction false} SomeLists(item: seq<RowChild>, j: nat)
    requires j < |item| && item[j].BulletList?
    ensures Lists(item) >= 1
  {
    if j < |item| - 1 {
      SomeLists(item[..|item| - 1], j);
    }
  }

  /** An item parses exactly if it has one list and nothing that is neither comment, message nor target. */
  lemma WellFormedExactly(item: seq<RowChild>)
    ensures WellFormed(item) <==> exists k :: OnlyList(item, k)
  {
    if k :| OnlyList(item, k) {
      ListFound(item, k);
    }
    if WellFormed(item) {
      var k := ListAt(item);
      forall j | 0 <= j < |item| && j != k
        ensures item[j].Comment? || item[j].SystemMessage? || item[j].TargetNode?
      {
        assert item[j] in item;
      }
      assert OnlyList(item, k);
    }
  }

  lemma {:induction false} TargetFound(item: seq<RowChild>)
    ensures LastTarget(item).Some? <==> exists j :: 0 <= j < |item| && item[j].TargetNode?
    ensures LastTarget(item).Some? ==>
              exists j | 0 <= j < |item| && item[j].TargetNode? ::
                (forall i | j < i < |item| :: !item[i].TargetNode?) && item[j].id == LastTarget(item).value
  {
    if item != [] {
      var n := |item| - 1;
      if item[n].TargetNode? {
        assert item[n].id == LastTarget(item).value;
      } else {
        TargetFound(item[..n]);
        if LastTarget(item).Some? {
          var j :| 0 <= j < n && item[..n][j].TargetNode?
                   && (forall i | j < i < n :: !item[..n][i].TargetNode?) && item[..n][j].id == LastTarget(item).value;
          assert item[j].TargetNode?;
          forall i | j < i < |item|
            ensures !item[i].TargetNode?
          {
            assert i < n ==> item[..n][i] == item[i];
          }
        }
        if j :| 0 <= j < |item| && item[j].TargetNode? {
          assert item[..n][j].TargetNode?;
        }
      }
    }
  }

  lemma {:induction false} LabelledAt(cells: seq<Cell>, target: Option<nat>, i: nat)
    requires i < |cells|
    ensures |Labelled(cells, target)| == |cells|
    ensures Labelled(cells, target)[i]
         == cells[i].(content := (if target.Some? then [Target(target.value)] else []) + cells[i].content)
  {
    var n := |cells| - 1;
    assert [] + cells[n].content == cells[n].content;
    if n > 0 {
      LabelledAt(cells[..n], target, if i < n then i else 0);
    }
  }

  lemma LabelledFronts(item: seq<RowChild>, own: seq<Element>)
    ensures var target := LastTarget(item);
            Fronted(item, (if target.Some? then [Target(target.value)] else []) + own, own)
  {
    TargetFound(item);
    assert [] + own == own;
  }

  /** The source row of an item, by position. */
  lemma SourceParses(item: seq<RowChild>)
    requires WellFormed(item)
    ensures ParsesTo(item, Labelled(TheList(item), LastTarget(item)))
  {
    WellFormedExactly(item);
    var k :| OnlyList(item, k);
    ListFound(item, k);
    var cells, row := item[k].cells, Labelled(TheList(item), LastTarget(item));
    LabelledLength(cells, LastTarget(item));
    forall i | 0 <= i < |row|
      ensures row[i].cspan == cells[i].cspan && row[i].rspan == cells[i].rspan
      ensures Fronted(item, row[i].content, cells[i].content)
    {
      LabelledAt(cells, LastTarget(item), i);
      LabelledFronts(item, cells[i].content);
    }
  }

  lemma LabelledLength(cells: seq<Cell>, target: Option<nat>)
    ensures |Labelled(cells, target)| == |cells|
  {
    if cells != [] {
      LabelledAt(cells, target, 0);
    }
  }

  lemma PreservedEmits(item: seq<RowChild>, row: seq<Cell>, entries: seq<Entry>, fill: bool)
    requires ParsesTo(item, row) && Preserves(row, entries, fill)
    ensures Emits(item, entries, fill)
  {}

  /**
   The entries of a row are its source cells in order, with their content and spans; without filling, the
   last one may have grown instead, or one entry without content follows, and with filling any number of
   entries without content or spans.
   */
  predicate Preserves(cells: seq<Cell>, entries: seq<Entry>, fill: bool) {
    && |cells| <= |entries|
    && (forall i | 0 <= i < |cells| ::
          && entries[i].content == cells[i].content
          && entries[i].morerows == cells[i].rspan
          && MayGrow(cells[i].cspan, entries[i].morecols, i == |cells| - 1 && |entries| == |cells|, fill))
    && Extra(entries[|cells|..], fill)
  }

  /** The column span of an entry is that of its cell, or more for the last of a row that is not filled. */
  predicate MayGrow(cspan: int, morecols: int, last: bool, fill: bool) {
    morecols == cspan || (morecols > cspan && last && !fill)
  }

  /** Entries behind those of the cells. */
  predicate Extra(entries: seq<Entry>, fill: bool) {
    && (forall i | 0 <= i < |entries| ::
          entries[i].content == [] && entries[i].morerows == 0 && (fill ==> entries[i].morecols == 0))
    && (!fill ==> |entries| <= 1)
  }

  // ------------------------------------------------------- the builder

  class ListTableBuilder {
    var rows: seq<Row>
    var maxCols: nat

    constructor ()
      ensures rows == [] && maxCols == 0
    {
      rows, maxCols := [], 0;
    }

    /** The placeholders of one cell in its own row. */
    method InsertOwn(y: nat, x: nat, n: nat)
      requires y < |rows| && x < |rows[y]|
      modifies this`rows
      ensures rows == old(rows)[y := Widen(old(rows[y]), x + 1, n)]
    {
      ghost var before := rows;
      WidenZero(before[y], x + 1);
      for c := 0 to n
        invariant rows == before[y := Widen(before[y], x + 1, c)]
      {
        WidenNext(before[y], x + 1, c);
        rows := rows[y := Insert(rows[y], x + c + 1)];
      }
    }

    /** The placeholders of one cell in the rows it spans; rows beyond the last are skipped. */
    method InsertBelow(y: nat, x: nat, rspan: nat, n: nat)
      requires y < |rows|
      modifies this`rows
      ensures |rows| == |old(rows)|
      ensures forall z | 0 <= z < |rows| ::
                rows[z] == if y < z <= y + rspan then Widen(old(rows)[z], x, n) else old(rows)[z]
    {
      ghost var before := rows;
      for r := 0 to rspan
        invariant |rows| == |before|
        invariant forall z | 0 <= z < |rows| ::
                    rows[z] == if y < z <= y + r then Widen(before[z], x, n) else before[z]
      {
        ghost var start := rows;
        if y + r + 1 < |rows| {
          WidenZero(start[y + r + 1], x);
        }
        for c := 0 to n
          invariant y + r + 1 < |start| ==> rows == start[y + r + 1 := Widen(start[y + r + 1], x, c)]
          invariant y + r + 1 >= |start| ==> rows == start
        {
          if y + r + 1 < |rows| {
            WidenNext(start[y + r + 1], x, c);
            rows := rows[y + r + 1 := Insert(rows[y + r + 1], x + c)];
          }
        }
      }
    }

    /** One step of the scan, at a cell: its own row, then the rows it spans. */
    method InsertSpans(y: nat, x: nat)
      requires y < |rows| && x < |rows[y]| && rows[y][x].Some?
      modifies this`rows
      ensures SpansInserted(old(rows), rows, y, x)
    {
      var cell := rows[y][x].value;
      ghost var before := rows;
      InsertOwn(y, x, Times(cell.cspan));
      InsertBelow(y, x, Times(cell.rspan), Times(cell.cspan + 1));
      forall z | y < z < |rows|
        ensures rows[z] == var n := SpanBelow(before[y][x], z - y);
                           if n == 0 then before[z] else Widen(before[z], x, n)
      {
        WidenZero(before[z], x);
      }
    }

    /** The scan of one row, into which it inserts as it goes. */
    method ScanRow(y: nat)
      requires y < |rows|
      modifies this`rows
      ensures RowScanned(old(rows), rows, y)
    {
      ghost var start, full := rows, Expanded(rows[y]);
      ghost var now := rows;
      var x := 0;
      while x < |rows[y]|
        invariant rows == now && UnderScan(start, now, y, x, full)
        decreases CellsLeft(now, y, x), |now[y]| - x
      {
        if rows[y][x] == None {
          ScanSkips(start, now, y, x, full);
          x := x + 1;
          continue;
        }
        InsertSpans(y, x);
        ScanInserts(start, now, rows, y, x, full);
        now := rows;
        x := x + 1;
      }
      ScanEnds(start, now, y, x, full);
    }

    /** The first part of roundOffTableDefinition(): the scan that inserts the placeholders. */
    method Scan()
      modifies this`rows
      ensures rows == Grid(old(rows), |old(rows)|)
    {
      ghost var src := rows;
      var y := 0;
      while y < |rows|
        invariant Scanned(src, rows, y)
      {
        ghost var before := rows;
        ScanRow(y);
        ScanGoesOn(src, before, rows, y);
        y := y + 1;
      }
      assert rows[..y] == rows;
    }

    /** The widest row, by which `maxCols` grows. */
    method FindWidth()
      modifies this`maxCols
      ensures maxCols == Widest(rows, old(maxCols))
      ensures AllWithin(rows, maxCols)
    {
      var y := 0;
      while y < |rows|
        invariant 0 <= y <= |rows|
        invariant Widest(rows[y..], maxCols) == Widest(rows, old(maxCols))
      {
        assert rows[y..][0] == rows[y] && rows[y..][1..] == rows[y + 1..];
        if maxCols < |rows[y]| {
          maxCols := |rows[y]|;
        }
        y := y + 1;
      }
      WidestBounds(rows, old(maxCols));
    }

    /** Fills one row with `x` empty cells. */
    method FillRow(y: nat, x: nat)
      requires y < |rows|
      modifies this`rows
      ensures rows == old(rows)[y := old(rows)[y] + Fillers(x)]
    {
      ghost var before := rows;
      assert before[y] + Fillers(0) == before[y];
      for i := 0 to x
        invariant rows == before[y := before[y] + Fillers(i)]
      {
        rows := rows[y := rows[y] + [Some(Cell(0, 0, []))]];
        assert Fillers(i) + [Some(Cell(0, 0, []))] == Fillers(i + 1);
        assert before[y] + Fillers(i) + [Some(Cell(0, 0, []))] == before[y] + Fillers(i + 1);
      }
    }

    /** The missing cells on the right; an empty row cannot be widened: row[-1] raises an IndexError. */
    method WidenRows(fillCells: bool) returns (raised: bool)
      requires AllWithin(rows, maxCols)
      modifies this`rows
      ensures raised <==> Raises(old(rows), maxCols, fillCells)
      ensures |rows| == |old(rows)|
      ensures !raised ==> rows == RoundedAll(old(rows), maxCols, fillCells)
      ensures raised ==> exists y :: RoundedBefore(old(rows), rows, maxCols, fillCells, y)
    {
      ghost var grid := rows;
      var y := 0;
      while y < |rows|
        invariant 0 <= y <= |rows| == |grid|
        invariant forall i | 0 <= i < y :: !RaisesAt(grid[i], maxCols, fillCells)
        invariant forall i | 0 <= i < |rows| ::
                    rows[i] == if i < y then Rounded(grid[i], maxCols, fillCells) else grid[i]
      {
        var row := rows[y];
        var x := maxCols - |row|;
        if x != 0 && !fillCells {
          if row == [] {
            assert RoundedBefore(grid, rows, maxCols, fillCells, y);
            return true;
          }
          if row[|row| - 1] == None {
            rows := rows[y := row + [Some(Cell(x - 1, 0, []))]];
          } else {
            var last := row[|row| - 1].value;
            rows := rows[y := row[|row| - 1 := Some(Grown(last, x))]];
          }
        } else if x != 0 && fillCells {
          FillRow(y, x);
        }
        y := y + 1;
      }
      raised := false;
    }

    /** roundOffTableDefinition(): the scan, the widest row, and the missing cells on the right. */
    method RoundOff(fillCells: bool) returns (raised: bool)
      modifies this
      ensures AllWithin(Grid(old(rows), |old(rows)|), maxCols)
      ensures maxCols == Widest(Grid(old(rows), |old(rows)|), old(maxCols))
      ensures raised <==> Raises(Grid(old(rows), |old(rows)|), maxCols, fillCells)
      ensures !raised ==> rows == RoundedAll(Grid(old(rows), |old(rows)|), maxCols, fillCells)
    {
      Scan();
      FindWidth();
      raised := WidenRows(fillCells);
    }

    /** buildTableRowNode(): placeholders are skipped. */
    method BuildRow(row: Row) returns (node: seq<Entry>)
      ensures node == Entries(Cells(row))
    {
      node := [];
      var i := 0;
      while i < |row|
        invariant 0 <= i <= |row|
        invariant node + Entries(Cells(row[i..])) == Entries(Cells(row))
      {
        assert row[i..][0] == row[i] && row[i..][1..] == row[i + 1..];
        if row[i] != None {
          var cell := row[i].value;
          assert Cells(row[i..])[1..] == Cells(row[i + 1..]);
          node := node + [Entry(cell.cspan, cell.rspan, cell.content)];
        }
        i := i + 1;
      }
    }

    /** buildTableNode(): the first rows go to the head, if one is asked for, the others to the body. */
    method BuildTable(headerRows: nat) returns (table: TableNode)
      ensures table.head == None <==> headerRows == 0
      ensures table.head != None ==> |table.head.value| == if headerRows < |rows| then headerRows else |rows|
      ensures Emitted(table) == AllEntries(rows)
    {
      var split := if headerRows < |rows| then headerRows else |rows|;
      var head := BuildRows(rows[..split]);
      var body := BuildRows(rows[split..]);
      AllEntriesAppend(rows[..split], rows[split..]);
      AllEntriesLookup(rows[..split]);
      assert rows[..split] + rows[split..] == rows;
      table := TableNode(if headerRows != 0 then Some(head) else None, body);
    }

    method BuildRows(part: seq<Row>) returns (nodes: seq<seq<Entry>>)
      ensures nodes == AllEntries(part)
    {
      nodes := [];
      var i := 0;
      while i < |part|
        invariant 0 <= i <= |part|
        invariant nodes + AllEntries(part[i..]) == AllEntries(part)
      {
        assert part[i..][0] == part[i] && part[i..][1..] == part[i + 1..];
        var node := BuildRow(part[i]);
        nodes := nodes + [node];
        i := i + 1;
      }
    }

    /** parseRowItem(): one nested list and nothing but comments, messages and targets beside it. */
    method ParseRowItem(item: seq<RowChild>) returns (row: Option<seq<Cell>>)
      ensures row.Some? <==> WellFormed(item)
      ensures row.Some? <==> exists k :: OnlyList(item, k)
      ensures row.Some? ==> row.value == Labelled(TheList(item), LastTarget(item))
      ensures row.Some? ==> ParsesTo(item, row.value)
    {
      WellFormedExactly(item);
      var childNo, error, cells, target := 0, false, [], None;
      var i := 0;
      while i < |item| && !error
        invariant 0 <= i <= |item|
        invariant error <==> exists k :: 0 <= k < i && item[k] == Other
        invariant !error ==> childNo == Lists(item[..i])
        invariant !error ==> target == LastTarget(item[..i])
        invariant !error && childNo > 0 ==> cells == TheList(item[..i])
      {
        assert item[..i + 1][..i] == item[..i];
        match item[i] {
          case Comment => {}
          case SystemMessage => {}
          case TargetNode(id) => target := Some(id);
          case BulletList(list) => childNo := childNo + 1; cells := list;
          case Other => error := true;
        }
        i := i + 1;
      }
      assert item[..|item|] == item;
      if childNo != 1 || error {
        return None;
      }
      var out: seq<Cell> := [];
      for k := 0 to |cells|
        invariant out == Labelled(cells[..k], target)
      {
        assert cells[..k + 1][..k] == cells[..k];
        var content := if target.Some? then [Target(target.value)] + cells[k].content else cells[k].content;
        out := out + [cells[k].(content := content)];
      }
      assert cells[..|cells|] == cells;
      SourceParses(item);
      row := Some(out);
    }

    /**
     The directive from the parsed list to the table node: parse every row, round off, build.  It fails
     exactly on a row item that does not parse and on an empty row that is to be widened without filling
     cells.  When it succeeds, as many rows as asked for are in the head, head and body together hold
     every row once and in order, every row holds the cells of its nested list in order with their content
     and row spans, and its width is that of the table and what grown cells above push into it.
     */
    method Process(items: seq<seq<RowChild>>, fillCells: bool, headerRows: nat) returns (table: Option<TableNode>)
      requires rows == [] && maxCols == 0
      modifies this
      ensures table.Some? <==> (forall y | 0 <= y < |items| :: WellFormed(items[y]))
                               && !SourceRaises(Sources(items), fillCells)
      ensures (forall y | 0 <= y < |items| :: WellFormed(items[y])) ==>
                maxCols == Widest(Grid(Table(Sources(items)), |items|), 0)
      ensures table.Some? ==> |rows| == |items| && Emitted(table.value) == AllEntries(rows)
      ensures table.Some? ==> |Emitted(table.value)| == |items|
      ensures table.Some? ==> (table.value.head == None <==> headerRows == 0)
      ensures table.Some? && headerRows > 0 ==>
                |table.value.head.value| == if headerRows < |items| then headerRows else |items|
      ensures table.Some? ==> forall y | 0 <= y < |items| :: Emits(items[y], Emitted(table.value)[y], fillCells)
      ensures table.Some? && LastSpansCounted(Grid(Table(Sources(items)), |items|), maxCols, fillCells) ==>
                forall y | 0 <= y < |items| ::
                  ColumnsOf(CellRows(rows), y)
                  == maxCols + Spill(Grid(Table(Sources(items)), |items|), maxCols, fillCells, y, y)
    {
      var source: seq<seq<Cell>> := [];
      for y := 0 to |items|
        invariant forall i | 0 <= i < y :: WellFormed(items[i])
        invariant source == Sources(items)[..y]
        invariant rows == Table(source) && maxCols == 0
      {
        var row := ParseRowItem(items[y]);
        if row == None {
          return None;
        }
        source := source + [row.value];
        rows := rows + [Parsed(row.value)];
      }
      assert source == Sources(items);
      RaisesExactly(source, fillCells);
      var raised := RoundOff(fillCells);
      if raised {
        return None;
      }
      var built := BuildTable(headerRows);
      table := Some(built);
      GridCells(source);
      AllPreserved(source, Grid(Table(source), |source|), maxCols, fillCells);
      AllEmitted(items, Emitted(built), fillCells);
      RoundedWidths(source, maxCols, fillCells);
    }
  }

  lemma AllEmitted(items: seq<seq<RowChild>>, emitted: seq<seq<Entry>>, fill: bool)
    requires |emitted| == |items| && forall y | 0 <= y < |items| :: WellFormed(items[y])
    requires forall y | 0 <= y < |items| :: Preserves(Sources(items)[y], emitted[y], fill)
    ensures forall y | 0 <= y < |items| :: Emits(items[y], emitted[y], fill)
  {
    forall y | 0 <= y < |items|
      ensures Emits(items[y], emitted[y], fill)
    {
      SourceParses(items[y]);
      PreservedEmits(items[y], Sources(items)[y], emitted[y], fill);
    }
  }

  /** What one step of the scan does to the row being scanned. */
  lemma ScanStep(row: Row, x: nat, full: Row)
    requires x < |row| && row[..x] + Expanded(row[x..]) == full
    ensures x < |full| && full[x] == row[x]
    ensures row[x] == None ==>
              row[..x + 1] + Expanded(row[x + 1..]) == full && Cells(row[x + 1..]) == Cells(row[x..])
    ensures row[x].Some? ==>
              var row' := Widen(row, x + 1, Times(row[x].value.cspan));
              row'[..x + 1] + Expanded(row'[x + 1..]) == full && |Cells(row'[x + 1..])| < |Cells(row[x..])|
  {
    var rest := row[x..];
    assert rest[1..] == row[x + 1..];
    assert row[..x + 1] == row[..x] + [row[x]];
    if row[x].Some? {
      var n := Times(row[x].value.cspan);
      var row' := Widen(row, x + 1, n);
      assert row'[x + 1..] == Nones(n) + row[x + 1..];
      assert row'[..x + 1] == row[..x + 1];
      ExpandedNones(n, row[x + 1..]);
      CellsNones(n, row[x + 1..]);
    }
  }

  lemma {:induction false} CellsNones(n: nat, rest: Row)
    ensures Cells(Nones(n) + rest) == Cells(rest)
  {
    if n == 0 {
      assert Nones(0) + rest == rest;
    } else {
      assert (Nones(n) + rest)[1..] == Nones(n - 1) + rest;
      CellsNones(n - 1, rest);
    }
  }

  // ------------------------------------------------------- cells survive the scan

  lemma {:induction false} CellsAppend(a: Row, b: Row)
    ensures Cells(a + b) == Cells(a) + Cells(b)
  {
    if a == [] {
      assert a + b == b;
    } else {
      assert (a + b)[1..] == a[1..] + b;
      CellsAppend(a[1..], b);
    }
  }

  lemma {:induction false} CellsExpanded(row: Row)
    ensures Cells(Expanded(row)) == Cells(row)
    ensures |Expanded(row)| + |Cells(row)| == |row| + OwnColumns(Cells(row))
  {
    if row != [] {
      var tail := Nones(OwnSpan(row[0])) + Expanded(row[1..]);
      assert Expanded(row) == [row[0]] + tail;
      assert ([row[0]] + tail)[1..] == tail;
      CellsNones(OwnSpan(row[0]), Expanded(row[1..]));
      CellsExpanded(row[1..]);
    }
  }

  lemma CellsWiden(row: Row, at: nat, n: nat)
    ensures Cells(Widen(row, at, n)) == Cells(row)
  {
    var k := if at <= |row| then at else |row|;
    CellsAppend(row[..k], Nones(n) + row[k..]);
    assert row[..k] + (Nones(n) + row[k..]) == Widen(row, at, n);
    CellsNones(n, row[k..]);
    CellsAppend(row[..k], row[k..]);
    assert row[..k] + row[k..] == row;
  }

  /** The columns a row of cells takes up by itself. */
  function OwnColumns(cells: seq<Cell>): nat {
    if cells == [] then 0 else 1 + Times(cells[0].cspan) + OwnColumns(cells[1..])
  }

  /** The columns a row of cells takes up in the row `d` below it. */
  function ColumnsBelow(cells: seq<Cell>, d: nat): nat {
    if cells == [] then 0
    else (if cells[0].rspan >= d then Times(cells[0].cspan + 1) else 0) + ColumnsBelow(cells[1..], d)
  }

  lemma {:induction false} ColumnsBelowAppend(a: seq<Cell>, b: seq<Cell>, d: nat)
    ensures ColumnsBelow(a + b, d) == ColumnsBelow(a, d) + ColumnsBelow(b, d)
  {
    if a == [] {
      assert a + b == b;
    } else {
      assert (a + b)[1..] == a[1..] + b;
      ColumnsBelowAppend(a[1..], b, d);
    }
  }

  lemma {:induction false} PushKeepsCells(above: Row, x: nat, row: Row, d: nat)
    requires x <= |above|
    ensures Cells(PushUpTo(above, x, row, d)) == Cells(row)
    ensures |PushUpTo(above, x, row, d)| == |row| + ColumnsBelow(Cells(above[..x]), d)
  {
    if x > 0 {
      PushKeepsCells(above, x - 1, row, d);
      CellsWiden(PushUpTo(above, x - 1, row, d), x - 1, SpanBelow(above[x - 1], d));
      assert above[..x] == above[..x - 1] + [above[x - 1]];
      CellsAppend(above[..x - 1], [above[x - 1]]);
      ColumnsBelowAppend(Cells(above[..x - 1]), Cells([above[x - 1]]), d);
      ColumnsOfOne(above[x - 1], d);
    }
  }

  lemma ColumnsOfOne(e: Option<Cell>, d: nat)
    ensures ColumnsBelow(Cells([e]), d) == SpanBelow(e, d)
  {
    assert [e][1..] == [];
    if e.Some? {
      assert Cells([e]) == [e.value];
    }
  }

  /** A parsed table: every entry is a cell. */
  function Parsed(cells: seq<Cell>): Row {
    seq(|cells|, i requires 0 <= i < |cells| => Some(cells[i]))
  }

  function Table(source: seq<seq<Cell>>): seq<Row> {
    seq(|source|, y requires 0 <= y < |source| => Parsed(source[y]))
  }

  lemma {:induction false} CellsParsed(cells: seq<Cell>)
    ensures Cells(Parsed(cells)) == cells
  {
    if cells != [] {
      assert Parsed(cells)[1..] == Parsed(cells[1..]);
      CellsParsed(cells[1..]);
    }
  }

  /** The columns that the first `y` source rows occupy in row `z`. */
  function Inherited(source: seq<seq<Cell>>, z: nat, y: nat): nat
    requires y <= z && y <= |source|
  {
    if y == 0 then 0 else Inherited(source, z, y - 1) + ColumnsBelow(source[y - 1], z - (y - 1))
  }

  lemma {:induction false} ReceivedKeepsCells(source: seq<seq<Cell>>, grid: seq<Row>, row: Row, z: nat, y: nat)
    requires y <= z && y <= |grid| <= |source|
    requires forall i | 0 <= i < y :: Cells(grid[i]) == source[i]
    ensures Cells(Received(grid, row, z, y)) == Cells(row)
    ensures |Received(grid, row, z, y)| == |row| + Inherited(source, z, y)
  {
    if y > 0 {
      ReceivedKeepsCells(source, grid, row, z, y - 1);
      var above := grid[y - 1];
      PushKeepsCells(above, |above|, Received(grid, row, z, y - 1), z - (y - 1));
      assert above[..|above|] == above;
    }
  }

  lemma LastRowLength(source: seq<seq<Cell>>, z: nat)
    requires z < |source| && forall i | 0 <= i < z :: Cells(Grid(Table(source), z)[i]) == source[i]
    ensures Cells(Grid(Table(source), z + 1)[z]) == source[z]
    ensures |Grid(Table(source), z + 1)[z]| == OwnColumns(source[z]) + Inherited(source, z, z)
  {
    var g, row := Grid(Table(source), z), Parsed(source[z]);
    CellsParsed(source[z]);
    ReceivedKeepsCells(source, g, row, z, z);
    CellsExpanded(Received(g, row, z, z));
  }

  /**
   The scan keeps every cell of every row, in order, and the length of each row is exact: the columns
   of its own cells plus those of every cell above that reaches it, whatever the spans are and
   wherever the placeholders land.
   */
  lemma {:induction false} ExactRowLength(source: seq<seq<Cell>>, n: nat, z: nat)
    requires z < n <= |source|
    ensures Cells(Grid(Table(source), n)[z]) == source[z]
    ensures |Grid(Table(source), n)[z]| == OwnColumns(source[z]) + Inherited(source, z, z)
  {
    if z < n - 1 {
      ExactRowLength(source, n - 1, z);
    } else {
      forall i | 0 <= i < z
        ensures Cells(Grid(Table(source), z)[i]) == source[i]
      {
        ExactRowLength(source, z, i);
      }
      LastRowLength(source, z);
    }
  }

  // ------------------------------------------------------- own blocks

  /** Every cell of an expanded row is followed at once by the placeholders of its column span. */
  lemma {:induction false} OwnBlock(row: Row, p: nat)
    requires p < |Expanded(row)|
    ensures p + OwnSpan(Expanded(row)[p]) < |Expanded(row)|
    ensures forall q | p < q <= p + OwnSpan(Expanded(row)[p]) :: Expanded(row)[q] == None
  {
    var head := [row[0]] + Nones(OwnSpan(row[0]));
    var tail := Expanded(row[1..]);
    assert Expanded(row) == head + tail;
    if p >= |head| {
      OwnBlock(row[1..], p - |head|);
      forall q | p < q <= p + OwnSpan(Expanded(row)[p])
        ensures Expanded(row)[q] == None
      {
        assert Expanded(row)[q] == tail[q - |head|];
      }
    }
  }

  lemma {:induction false} ExpandedPlain(row: Row)
    requires forall e <- Cells(row) :: e.cspan <= 0
    ensures Expanded(row) == row
  {
    if row != [] {
      if row[0].Some? {
        assert row[0].value == Cells(row)[0];
      }
      ExpandedPlain(row[1..]);
    }
  }

  // ------------------------------------------------------- pushes as a list

  /** The placeholders that the cell at (`y`, `at`) leaves in some row below it. */
  datatype Push = Push(y: nat, at: nat, width: nat)

  function PushAll(row: Row, ps: seq<Push>): Row {
    if ps == [] then row
    else Widen(PushAll(row, ps[..|ps| - 1]), ps[|ps| - 1].at, ps[|ps| - 1].width)
  }

  lemma {:induction false} PushAllAppend(row: Row, a: seq<Push>, b: seq<Push>)
    ensures PushAll(row, a + b) == PushAll(PushAll(row, a), b)
  {
    if b == [] {
      assert a + b == a;
    } else {
      assert (a + b)[..|a + b| - 1] == a + b[..|b| - 1];
      PushAllAppend(row, a, b[..|b| - 1]);
    }
  }

  function RowPushes(above: Row, y: nat, x: nat, d: nat): seq<Push>
    requires x <= |above|
  {
    if x == 0 then []
    else
      var ps := RowPushes(above, y, x - 1, d);
      if SpanBelow(above[x - 1], d) == 0 then ps else ps + [Push(y, x - 1, SpanBelow(above[x - 1], d))]
  }

  /** Everything the first `y` rows push into row `z`, in the order of the scan. */
  function Pushes(grid: seq<Row>, z: nat, y: nat): seq<Push>
    requires y <= z && y <= |grid|
  {
    if y == 0 then []
    else Pushes(grid, z, y - 1) + RowPushes(grid[y - 1], y - 1, |grid[y - 1]|, z - (y - 1))
  }

  lemma {:induction false} RowPushesAgree(above: Row, y: nat, x: nat, row: Row, d: nat)
    requires x <= |above|
    ensures PushUpTo(above, x, row, d) == PushAll(row, RowPushes(above, y, x, d))
  {
    if x > 0 {
      RowPushesAgree(above, y, x - 1, row, d);
      var ps := RowPushes(above, y, x - 1, d);
      if SpanBelow(above[x - 1], d) != 0 {
        var p := Push(y, x - 1, SpanBelow(above[x - 1], d));
        assert (ps + [p])[..|ps + [p]| - 1] == ps;
      }
    }
  }

  lemma {:induction false} PushesAgree(grid: seq<Row>, row: Row, z: nat, y: nat)
    requires y <= z && y <= |grid|
    ensures Received(grid, row, z, y) == PushAll(row, Pushes(grid, z, y))
  {
    if y > 0 {
      PushesAgree(grid, row, z, y - 1);
      var d, above := z - (y - 1), grid[y - 1];
      RowPushesAgree(above, y - 1, |above|, Received(grid, row, z, y - 1), d);
      PushAllAppend(row, Pushes(grid, z, y - 1), RowPushes(above, y - 1, |above|, d));
    }
  }

  /** The cell at (`y`, `x`) leaves placeholders in row `z`. */
  predicate Reaches(grid: seq<Row>, y: nat, x: nat, z: nat) {
    y < |grid| && y < z && x < |grid[y]| && SpanBelow(grid[y][x], z - y) > 0
  }

  lemma {:induction false} RowPushesExact(above: Row, y: nat, x: nat, d: nat, p: Push)
    requires x <= |above|
    ensures p in RowPushes(above, y, x, d)
       <==> p.y == y && p.at < x && p.width == SpanBelow(above[p.at], d) > 0
  {
    if x > 0 {
      RowPushesExact(above, y, x - 1, d, p);
    }
  }

  lemma {:induction false} PushesExact(grid: seq<Row>, z: nat, y: nat, p: Push)
    requires y <= z && y <= |grid|
    ensures p in Pushes(grid, z, y)
       <==> p.y < y && Reaches(grid, p.y, p.at, z) && p.width == SpanBelow(grid[p.y][p.at], z - p.y)
  {
    if y > 0 {
      PushesExact(grid, z, y - 1, p);
      RowPushesExact(grid[y - 1], y - 1, |grid[y - 1]|, z - (y - 1), p);
    }
  }

  /** Column `j` is in the range of some push. */
  ghost predicate InPush(ps: seq<Push>, j: nat) {
    exists p <- ps :: p.at <= j < p.at + p.width
  }

  // ------------------------------------------------------- rounding off is complete and harmless

  /** A scanned row that ends in a cell ends in one without column span. */
  lemma LastCellPlain(row: Row)
    requires Expanded(row) != []
    ensures OwnSpan(Expanded(row)[|Expanded(row)| - 1]) == 0
  {
    OwnBlock(row, |Expanded(row)| - 1);
  }

  /** The columns a rounded row spans: its entries, and what its last cell spans beyond them. */
  function Columns(row: Row): int {
    |row| + if row != [] && row[|row| - 1] != None then row[|row| - 1].value.cspan else 0
  }

  /**
   After rounding off, a row spans exactly the width of the table, unless it ends in a cell that came
   with a negative column span and was not followed by filling cells; and filling makes rows of equal
   length.
   */
  lemma FullCoverage(row: Row, width: nat, fill: bool)
    requires |Expanded(row)| <= width && !RaisesAt(Expanded(row), width, fill)
    ensures var e := Expanded(row);
            Columns(Rounded(e, width, fill)) == width
            <==> e == [] || e[|e| - 1] == None || e[|e| - 1].value.cspan >= 0 || (fill && |e| < width)
    ensures fill ==> |Rounded(Expanded(row), width, fill)| == width
  {
    if Expanded(row) != [] {
      LastCellPlain(row);
    }
  }

  // ------------------------------------------------------- the width of the rounded table

  lemma RaisesOnEmpty(source: seq<seq<Cell>>, grid: seq<Row>, fill: bool)
    requires |grid| == |source| && forall y | 0 <= y < |source| :: |grid[y]| == ColumnsOf(source, y)
    ensures Raises(grid, Widest(grid, 0), fill) <==> SourceRaises(source, fill)
  {
    WidestBounds(grid, 0);
    if Raises(grid, Widest(grid, 0), fill) {
      var y :| 0 <= y < |grid| && RaisesAt(grid[y], Widest(grid, 0), fill);
      assert ColumnsOf(source, y) == 0;
      var w :| 0 <= w < |grid| && |grid[w]| == Widest(grid, 0);
      assert ColumnsOf(source, w) > 0;
    }
    if SourceRaises(source, fill) {
      var y :| 0 <= y < |source| && ColumnsOf(source, y) == 0;
      assert RaisesAt(grid[y], Widest(grid, 0), fill);
    }
  }

  lemma RaisesExactly(source: seq<seq<Cell>>, fill: bool)
    ensures var grid := Grid(Table(source), |source|);
            Raises(grid, Widest(grid, 0), fill) <==> SourceRaises(source, fill)
  {
    var grid := Grid(Table(source), |source|);
    forall y | 0 <= y < |source|
      ensures |grid[y]| == ColumnsOf(source, y)
    {
      ExactRowLength(source, |source|, y);
    }
    RaisesOnEmpty(source, grid, fill);
  }

  /** A row item whose list is empty raises, if another row has a cell and nothing is filled. */
  lemma EmptyRowRaises(c: Cell)
    ensures var items := [[BulletList([])], [BulletList([c])]];
            && WellFormed(items[0]) && WellFormed(items[1])
            && Sources(items) == [[], [c]] && SourceRaises(Sources(items), false) && !SourceRaises(Sources(items), true)
  {
    var items := [[BulletList([])], [BulletList([c])]];
    SingleList(BulletList([]));
    SingleList(BulletList([c]));
    assert [c][..0] == [] && Labelled([c], None) == [c];
    assert Sources(items) == [[], [c]];
    assert ColumnsOf([[], [c]], 0) == 0 && ColumnsOf([[], [c]], 1) > 0;
  }

  lemma SingleList(child: RowChild)
    requires child.BulletList?
    ensures WellFormed([child]) && TheList([child]) == child.cells && LastTarget([child]) == None
  {
    assert [child][..0] == [];
  }

  function CellRows(rows: seq<Row>): seq<seq<Cell>> {
    seq(|rows|, y requires 0 <= y < |rows| => Cells(rows[y]))
  }

  /** The columns of row `z`: those of its cells and those that the cells above span into it. */
  function ColumnsOf(source: seq<seq<Cell>>, z: nat): nat
    requires z < |source|
  {
    OwnColumns(source[z]) + Inherited(source, z, z)
  }

  /** A short row that ends in a cell and is not filled. */
  predicate Autospans(row: Row, width: nat, fill: bool) {
    |row| < width && !fill && row != [] && row[|row| - 1] != None
  }

  /** What the growth of a row's last cell adds to the row `d` below it. */
  function Growth(row: Row, width: nat, fill: bool, d: nat): nat {
    if Autospans(row, width, fill) && row[|row| - 1].value.rspan >= d then width - |row| else 0
  }

  /** What the grown cells of the first `y` rows add to row `z`. */
  function Spill(grid: seq<Row>, width: nat, fill: bool, z: nat, y: nat): nat
    requires y <= z && y <= |grid|
  {
    if y == 0 then 0 else Spill(grid, width, fill, z, y - 1) + Growth(grid[y - 1], width, fill, z - (y - 1))
  }

  /** No last cell that is to grow came with a negative column span. */
  ghost predicate LastSpansCounted(grid: seq<Row>, width: nat, fill: bool) {
    forall y | 0 <= y < |grid| && Autospans(grid[y], width, fill) :: grid[y][|grid[y]| - 1].value.cspan >= 0
  }

  lemma {:induction false} OwnColumnsAppend(a: seq<Cell>, b: seq<Cell>)
    ensures OwnColumns(a + b) == OwnColumns(a) + OwnColumns(b)
  {
    if a == [] {
      assert a + b == b;
    } else {
      assert (a + b)[1..] == a[1..] + b;
      OwnColumnsAppend(a[1..], b);
    }
  }

  lemma {:induction false} FillerColumns(n: nat, d: nat)
    requires d >= 1
    ensures OwnColumns(Cells(Fillers(n))) == n && ColumnsBelow(Cells(Fillers(n)), d) == 0
  {
    if n > 0 {
      assert Fillers(n)[1..] == Fillers(n - 1);
      FillerColumns(n - 1, d);
    }
  }

  lemma CellColumnsOne(c: Cell, d: nat)
    ensures OwnColumns([c]) == 1 + Times(c.cspan)
    ensures ColumnsBelow([c], d) == if c.rspan >= d then Times(c.cspan + 1) else 0
  {
    assert [c][1..] == [];
  }

  lemma ExtendedColumns(row: Row, extra: Row, d: nat)
    ensures OwnColumns(Cells(row + extra)) == OwnColumns(Cells(row)) + OwnColumns(Cells(extra))
    ensures ColumnsBelow(Cells(row + extra), d) == ColumnsBelow(Cells(row), d) + ColumnsBelow(Cells(extra), d)
  {
    CellsAppend(row, extra);
    OwnColumnsAppend(Cells(row), Cells(extra));
    ColumnsBelowAppend(Cells(row), Cells(extra), d);
  }

  lemma GrownColumns(init: Row, last: Cell, x: nat, d: nat)
    requires last.cspan >= 0
    ensures OwnColumns(Cells(init + [Some(Grown(last, x))])) == OwnColumns(Cells(init + [Some(last)])) + x
    ensures ColumnsBelow(Cells(init + [Some(Grown(last, x))]), d)
         == ColumnsBelow(Cells(init + [Some(last)]), d) + if last.rspan >= d then x else 0
  {
    ExtendedColumns(init, [Some(last)], d);
    ExtendedColumns(init, [Some(Grown(last, x))], d);
    CellsOfOne(last);
    CellsOfOne(Grown(last, x));
    CellColumnsOne(last, d);
    CellColumnsOne(Grown(last, x), d);
  }

  /** Rounding off adds to a row what it is short of, and to the rows below what its last cell grows by. */
  lemma RoundedColumns(row: Row, width: nat, fill: bool, d: nat)
    requires |row| <= width && !RaisesAt(row, width, fill) && d >= 1
    requires Autospans(row, width, fill) ==> row[|row| - 1].value.cspan >= 0
    ensures OwnColumns(Cells(Rounded(row, width, fill))) == OwnColumns(Cells(row)) + width - |row|
    ensures ColumnsBelow(Cells(Rounded(row, width, fill)), d)
         == ColumnsBelow(Cells(row), d) + Growth(row, width, fill, d)
  {
    var x := width - |row|;
    if Autospans(row, width, fill) {
      var init, last := row[..|row| - 1], row[|row| - 1].value;
      assert row == init + [Some(last)] && Rounded(row, width, fill) == init + [Some(Grown(last, x))];
      GrownColumns(init, last, x, d);
    } else if x > 0 {
      var extra := if fill then Fillers(x) else [Some(Cell(x - 1, 0, []))];
      ExtendedColumns(row, extra, d);
      FillerColumns(x, d);
      CellsOfOne(Cell(x - 1, 0, []));
      CellColumnsOne(Cell(x - 1, 0, []), d);
    }
  }

  lemma RowGrows(source: seq<seq<Cell>>, grid: seq<Row>, width: nat, fill: bool, i: nat, d: nat)
    requires i < |grid| == |source| && Cells(grid[i]) == source[i] && d >= 1
    requires AllWithin(grid, width) && !Raises(grid, width, fill) && LastSpansCounted(grid, width, fill)
    ensures ColumnsBelow(CellRows(RoundedAll(grid, width, fill))[i], d)
         == ColumnsBelow(source[i], d) + Growth(grid[i], width, fill, d)
  {
    RoundedColumns(grid[i], width, fill, d);
  }

  lemma {:induction false} InheritedMore(
    a: seq<seq<Cell>>, b: seq<seq<Cell>>, grid: seq<Row>, width: nat, fill: bool, z: nat, y: nat)
    requires y <= z && y <= |a| == |b| == |grid|
    requires forall i: nat | i < y ::
               ColumnsBelow(b[i], z - i) == ColumnsBelow(a[i], z - i) + Growth(grid[i], width, fill, z - i)
    ensures Inherited(b, z, y) == Inherited(a, z, y) + Spill(grid, width, fill, z, y)
  {
    if y > 0 {
      InheritedMore(a, b, grid, width, fill, z, y - 1);
    }
  }

  lemma InheritedGrows(source: seq<seq<Cell>>, grid: seq<Row>, width: nat, fill: bool, z: nat)
    requires z < |grid| == |source| && forall i | 0 <= i < |source| :: Cells(grid[i]) == source[i]
    requires AllWithin(grid, width) && !Raises(grid, width, fill) && LastSpansCounted(grid, width, fill)
    ensures Inherited(CellRows(RoundedAll(grid, width, fill)), z, z)
         == Inherited(source, z, z) + Spill(grid, width, fill, z, z)
  {
    forall i: nat | i < z
      ensures ColumnsBelow(CellRows(RoundedAll(grid, width, fill))[i], z - i)
           == ColumnsBelow(source[i], z - i) + Growth(grid[i], width, fill, z - i)
    {
      RowGrows(source, grid, width, fill, i, z - i);
    }
    InheritedMore(source, CellRows(RoundedAll(grid, width, fill)), grid, width, fill, z, z);
  }

  /**
   The width of every row of the rounded table, as its cells tell it: the width of the table, and what
   grown cells with row spans push into it from above.
   */
  lemma RoundedWidth(source: seq<seq<Cell>>, width: nat, fill: bool, z: nat)
    requires z < |source|
    requires var grid := Grid(Table(source), |source|);
             AllWithin(grid, width) && !Raises(grid, width, fill) && LastSpansCounted(grid, width, fill)
    ensures var grid := Grid(Table(source), |source|);
            ColumnsOf(CellRows(RoundedAll(grid, width, fill)), z) == width + Spill(grid, width, fill, z, z)
  {
    var grid := Grid(Table(source), |source|);
    GridCells(source);
    ExactRowLength(source, |source|, z);
    RoundedColumns(grid[z], width, fill, 1);
    InheritedGrows(source, grid, width, fill, z);
  }

  lemma RoundedWidths(source: seq<seq<Cell>>, width: nat, fill: bool)
    requires AllWithin(Grid(Table(source), |source|), width) && !Raises(Grid(Table(source), |source|), width, fill)
    ensures LastSpansCounted(Grid(Table(source), |source|), width, fill) ==>
              var grid := Grid(Table(source), |source|);
              forall z | 0 <= z < |source| ::
                ColumnsOf(CellRows(RoundedAll(grid, width, fill)), z) == width + Spill(grid, width, fill, z, z)
  {
    if LastSpansCounted(Grid(Table(source), |source|), width, fill) {
      forall z | 0 <= z < |source|
        ensures var grid := Grid(Table(source), |source|);
                ColumnsOf(CellRows(RoundedAll(grid, width, fill)), z) == width + Spill(grid, width, fill, z, z)
      {
        RoundedWidth(source, width, fill, z);
      }
    }
  }

  lemma {:induction false} SpillNone(grid: seq<Row>, width: nat, fill: bool, z: nat, y: nat)
    requires y <= z && y <= |grid|
    ensures Spill(grid, width, fill, z, y) == 0
       <==> (forall i: nat | i < y :: !(Autospans(grid[i], width, fill) && grid[i][|grid[i]| - 1].value.rspan >= z - i))
  {
    if y > 0 {
      SpillNone(grid, width, fill, z, y - 1);
    }
  }

  /**
   A row of the rounded table has the width of the table if and only if no row above it was made wide
   enough by growing a last cell that spans down to it.
   */
  lemma TableWidthExact(source: seq<seq<Cell>>, width: nat, fill: bool, z: nat)
    requires z < |source|
    requires var grid := Grid(Table(source), |source|);
             AllWithin(grid, width) && !Raises(grid, width, fill) && LastSpansCounted(grid, width, fill)
    ensures var grid := Grid(Table(source), |source|);
            ColumnsOf(CellRows(RoundedAll(grid, width, fill)), z) == width
            <==> (forall y: nat | y < z ::
                    !(Autospans(grid[y], width, fill) && grid[y][|grid[y]| - 1].value.rspan >= z - y))
  {
    RoundedWidth(source, width, fill, z);
    SpillNone(Grid(Table(source), |source|), width, fill, z, z);
  }

  lemma PlainFirstRow(source: seq<seq<Cell>>)
    requires source != [] && forall c | c in source[0] :: c.cspan <= 0
    ensures Grid(Table(source), |source|)[0] == Parsed(source[0])
  {
    GridStart(source, |source|);
    CellsParsed(source[0]);
    ExpandedPlain(Parsed(source[0]));
  }

  lemma {:induction false} GridStart(source: seq<seq<Cell>>, n: nat)
    requires 0 < n <= |source|
    ensures Grid(Table(source), n)[0] == Expanded(Parsed(source[0]))
  {
    if n > 1 {
      GridStart(source, n - 1);
    }
  }

  /**
   It can happen.  In a table whose rows are `a b`, `c` and `d e f`, where `b` alone spans anything, one
   row more, `b` is grown to the width of three, and the row of `c` becomes one column wider than that.
   */
  lemma {:induction false} GrownSpanSpills(a: Cell, b: Cell, c: Cell, d: Cell, e: Cell, f: Cell)
    requires b.rspan == 1 && a.rspan == c.rspan == d.rspan == e.rspan == f.rspan == 0
    requires a.cspan == b.cspan == c.cspan == d.cspan == e.cspan == f.cspan == 0
    ensures var source := [[a, b], [c], [d, e, f]];
            var grid := Grid(Table(source), 3);
            && |grid[0]| == 2 && |grid[1]| == 2 && |grid[2]| == 3 && AllWithin(grid, 3) && !Raises(grid, 3, false)
            && ColumnsOf(CellRows(RoundedAll(grid, 3, false)), 1) == 4
  {
    var source := [[a, b], [c], [d, e, f]];
    var grid := Grid(Table(source), 3);
    assert source[0] == [a, b] && source[1] == [c] && source[2] == [d, e, f];
    SpillLengths(source, a, b, c, d, e, f);
    PlainFirstRow(source);
    GridCells(source);
    SpillCounted(source, grid);
    RoundedWidth(source, 3, false, 1);
    assert Spill(grid, 3, false, 1, 1) == Spill(grid, 3, false, 1, 0) + Growth(grid[0], 3, false, 1);
  }

  lemma {:induction false} SpillLengths(source: seq<seq<Cell>>, a: Cell, b: Cell, c: Cell, d: Cell, e: Cell, f: Cell)
    requires source == [[a, b], [c], [d, e, f]]
    requires b.rspan == 1 && a.rspan == c.rspan == d.rspan == e.rspan == f.rspan == 0
    requires a.cspan == b.cspan == c.cspan == d.cspan == e.cspan == f.cspan == 0
    ensures var grid := Grid(Table(source), 3); |grid[0]| == 2 && |grid[1]| == 2 && |grid[2]| == 3
  {
    ExactRowLength(source, 3, 0);
    ExactRowLength(source, 3, 1);
    ExactRowLength(source, 3, 2);
    CellColumnsOne(c, 1);
    PairColumns(a, b, 1);
    PairColumns(a, b, 2);
    PairColumns(d, e, 1);
    CellColumnsOne(f, 1);
    OwnColumnsAppend([d, e], [f]);
    assert source[0] == [a, b] && source[1] == [c] && source[2] == [d, e] + [f];
    InheritedThree(source);
  }

  lemma InheritedThree(source: seq<seq<Cell>>)
    requires |source| == 3
    ensures Inherited(source, 0, 0) == 0 && Inherited(source, 1, 1) == ColumnsBelow(source[0], 1)
    ensures Inherited(source, 2, 2) == ColumnsBelow(source[0], 2) + ColumnsBelow(source[1], 1)
  {
    assert Inherited(source, 2, 1) == Inherited(source, 2, 0) + ColumnsBelow(source[0], 2);
  }

  lemma PairColumns(a: Cell, b: Cell, d: nat)
    ensures OwnColumns([a, b]) == OwnColumns([a]) + OwnColumns([b])
    ensures ColumnsBelow([a, b], d) == ColumnsBelow([a], d) + ColumnsBelow([b], d)
    ensures OwnColumns([a]) == 1 + Times(a.cspan) && OwnColumns([b]) == 1 + Times(b.cspan)
    ensures ColumnsBelow([a], d) == if a.rspan >= d then Times(a.cspan + 1) else 0
    ensures ColumnsBelow([b], d) == if b.rspan >= d then Times(b.cspan + 1) else 0
  {
    assert [a, b] == [a] + [b];
    OwnColumnsAppend([a], [b]);
    ColumnsBelowAppend([a], [b], d);
    CellColumnsOne(a, d);
    CellColumnsOne(b, d);
  }

  lemma SpillCounted(source: seq<seq<Cell>>, grid: seq<Row>)
    requires |grid| == |source| && forall y | 0 <= y < |source| :: Cells(grid[y]) == source[y] && NoSpans(source[y])
    ensures LastSpansCounted(grid, 3, false)
  {
    forall y | 0 <= y < |grid| && Autospans(grid[y], 3, false)
      ensures grid[y][|grid[y]| - 1].value.cspan >= 0
    {
      CellFound(grid[y], |grid[y]| - 1);
    }
  }

  ghost predicate NoSpans(cells: seq<Cell>) {
    forall c: Cell :: c in cells ==> c.cspan == 0
  }

  lemma {:induction false} CellFound(row: Row, p: nat)
    requires p < |row| && row[p] != None
    ensures row[p].value in Cells(row)
  {
    if p > 0 {
      CellFound(row[1..], p - 1);
    }
  }

  lemma {:induction false} EntriesLookup(cells: seq<Cell>)
    ensures |Entries(cells)| == |cells|
    ensures forall i | 0 <= i < |cells| ::
              Entries(cells)[i] == Entry(cells[i].cspan, cells[i].rspan, cells[i].content)
  {
    if cells != [] {
      EntriesLookup(cells[1..]);
    }
  }

  lemma {:induction false} AllEntriesLookup(rows: seq<Row>)
    ensures |AllEntries(rows)| == |rows|
    ensures forall y | 0 <= y < |rows| :: AllEntries(rows)[y] == Entries(Cells(rows[y]))
  {
    if rows != [] {
      AllEntriesLookup(rows[1..]);
    }
  }

  lemma {:induction false} CellsFiller(n: nat)
    ensures Cells(Fillers(n)) == seq(n, k => Cell(0, 0, []))
  {
    if n > 0 {
      assert Fillers(n)[1..] == Fillers(n - 1);
      CellsFiller(n - 1);
    }
  }

  /** Cells put behind those of a row to round it off. */
  ghost predicate ExtraCells(extra: seq<Cell>, fill: bool) {
    && (forall c <- extra :: c.content == [] && c.rspan == 0 && (fill ==> c.cspan == 0))
    && (!fill ==> |extra| <= 1)
  }

  lemma PreservesExtra(cells: seq<Cell>, extra: seq<Cell>, fill: bool)
    requires ExtraCells(extra, fill)
    ensures Preserves(cells, Entries(cells + extra), fill)
  {
    EntriesLookup(cells + extra);
  }

  lemma PreservesGrown(init: seq<Cell>, last: Cell, x: nat)
    ensures Preserves(init + [last], Entries(init + [Grown(last, x)]), false)
  {
    EntriesLookup(init + [Grown(last, x)]);
  }

  lemma CellsAppendOne(init: Row, c: Cell)
    ensures Cells(init + [Some(c)]) == Cells(init) + [c]
  {
    CellsAppend(init, [Some(c)]);
    CellsOfOne(c);
  }

  lemma GrownPreserves(row: Row, rounded: Row, x: nat)
    requires row != [] && row[|row| - 1] != None
    requires rounded == row[|row| - 1 := Some(Grown(row[|row| - 1].value, x))]
    ensures Preserves(Cells(row), Entries(Cells(rounded)), false)
  {
    var init, last := row[..|row| - 1], row[|row| - 1].value;
    assert row == init + [Some(last)] && rounded == init + [Some(Grown(last, x))];
    CellsAppendOne(init, last);
    CellsAppendOne(init, Grown(last, x));
    PreservesGrown(Cells(init), last, x);
  }

  lemma ExtendedPreserves(row: Row, rounded: Row, extra: Row, fill: bool)
    requires rounded == row + extra && ExtraCells(Cells(extra), fill)
    ensures Preserves(Cells(row), Entries(Cells(rounded)), fill)
  {
    CellsAppend(row, extra);
    PreservesExtra(Cells(row), Cells(extra), fill);
  }

  lemma NotAutospanned(row: Row, width: nat, fill: bool)
    requires |row| <= width && !RaisesAt(row, width, fill) && !Autospans(row, width, fill)
    ensures Preserves(Cells(row), Entries(Cells(Rounded(row, width, fill))), fill)
  {
    var x := width - |row|;
    var extra := if x == 0 then [] else if fill then Fillers(x) else [Some(Cell(x - 1, 0, []))];
    CellsOfExtra(x);
    ExtendedPreserves(row, Rounded(row, width, fill), extra, fill);
  }

  /** Rounding off keeps the cells of a row. */
  lemma RoundedPreserves(row: Row, width: nat, fill: bool)
    requires |row| <= width && !RaisesAt(row, width, fill)
    ensures Preserves(Cells(row), Entries(Cells(Rounded(row, width, fill))), fill)
  {
    if Autospans(row, width, fill) {
      GrownPreserves(row, Rounded(row, width, fill), width - |row|);
    } else {
      NotAutospanned(row, width, fill);
    }
  }

  lemma CellsOfExtra(x: nat)
    ensures ExtraCells(Cells(Fillers(x)), true)
    ensures Cells([Some(Cell(x - 1, 0, []))]) == [Cell(x - 1, 0, [])]
  {
    CellsFiller(x);
    CellsOfOne(Cell(x - 1, 0, []));
  }

  lemma CellsOfOne(c: Cell)
    ensures Cells([Some(c)]) == [c]
  {
    var row: Row := [Some(c)];
    assert row[1..] == [];
  }

  lemma GridCells(source: seq<seq<Cell>>)
    ensures forall y | 0 <= y < |source| :: Cells(Grid(Table(source), |source|)[y]) == source[y]
  {
    forall y | 0 <= y < |source|
      ensures Cells(Grid(Table(source), |source|)[y]) == source[y]
    {
      ExactRowLength(source, |source|, y);
    }
  }

  lemma AllPreserved(source: seq<seq<Cell>>, grid: seq<Row>, width: nat, fill: bool)
    requires |grid| == |source| && forall y | 0 <= y < |source| :: Cells(grid[y]) == source[y]
    requires AllWithin(grid, width) && !Raises(grid, width, fill)
    ensures |AllEntries(RoundedAll(grid, width, fill))| == |source|
    ensures forall y | 0 <= y < |source| ::
              Preserves(source[y], AllEntries(RoundedAll(grid, width, fill))[y], fill)
  {
    var rows := RoundedAll(grid, width, fill);
    AllEntriesLookup(rows);
    forall y | 0 <= y < |source|
      ensures Preserves(source[y], Entries(Cells(rows[y])), fill)
    {
      RoundedPreserves(grid[y], width, fill);
    }
  }
}
