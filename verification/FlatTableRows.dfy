/**
 One row of a tiled flat-table.  The scan makes the row by inserting placeholders into its cells, push
 by push; the theorem says exactly when the result is the row that was due.
 */
module FlatTableRows {
  import opened Prelude
  import opened FlatTable

  // ---------------------------------------------------------------- rows without some of their placeholders

  /** Column `j` holds a cell or a placeholder of one of the pushes. */
  ghost predicate Has(g: Row, qs: seq<Push>, j: nat)
    requires j < |g|
  {
    g[j] != None || InPush(qs, j)
  }

  /** What is there of a row from column `j` on when only the pushes `qs` have been made. */
  ghost function Kept(g: Row, qs: seq<Push>, j: nat): Row
    requires j <= |g|
    decreases |g| - j
  {
    if j == |g| then [] else (if Has(g, qs, j) then [g[j]] else []) + Kept(g, qs, j + 1)
  }

  /** How much of that lies before column `to`. */
  ghost function Count(g: Row, qs: seq<Push>, j: nat, to: nat): (n: nat)
    requires j <= to <= |g|
    ensures n <= to - j
    decreases |g| - j
  {
    if j == to then 0 else (if Has(g, qs, j) then 1 else 0) + Count(g, qs, j + 1, to)
  }

  lemma {:induction false} KeptFrom(g: Row, qs: seq<Push>, j: nat, to: nat)
    requires j <= to <= |g|
    ensures Count(g, qs, j, to) <= |Kept(g, qs, j)|
    ensures Kept(g, qs, j)[Count(g, qs, j, to)..] == Kept(g, qs, to)
    decreases |g| - j
  {
    if j < to {
      KeptFrom(g, qs, j + 1, to);
    }
  }

  lemma {:induction false} CountWhole(g: Row, qs: seq<Push>, j: nat, to: nat)
    requires j <= to <= |g|
    ensures Count(g, qs, j, to) == to - j <==> (forall i: nat | j <= i < to :: Has(g, qs, i))
    decreases |g| - j
  {
    if j < to {
      CountWhole(g, qs, j + 1, to);
    }
  }

  lemma {:induction false} CountSplit(g: Row, qs: seq<Push>, j: nat, mid: nat, to: nat)
    requires j <= mid <= to <= |g|
    ensures Count(g, qs, j, to) == Count(g, qs, j, mid) + Count(g, qs, mid, to)
    decreases |g| - j
  {
    if j < mid {
      CountSplit(g, qs, j + 1, mid, to);
    }
  }

  /** Without any push the row is its cells. */
  lemma {:induction false} KeptCells(g: Row, j: nat)
    requires j <= |g|
    ensures Kept(g, [], j) == Parsed(Cells(g[j..]))
    decreases |g| - j
  {
    if j < |g| {
      KeptCells(g, j + 1);
      assert g[j..][1..] == g[j + 1..];
    }
  }

  /** The placeholders of `p` are columns of the row that are still missing. */
  ghost predicate Missing(g: Row, qs: seq<Push>, p: Push) {
    && p.at + p.width <= |g|
    && forall j: nat | p.at <= j < p.at + p.width :: g[j] == None && !InPush(qs, j)
  }

  lemma WidenCons(e: Option<Cell>, row: Row, at: nat, n: nat)
    ensures Widen([e] + row, at + 1, n) == [e] + Widen(row, at, n)
  {}

  lemma WidenFront(row: Row, n: nat)
    ensures Widen(row, 0, n) == Nones(n) + row
  {}

  lemma NonesCons(n: nat)
    ensures [None] + Nones(n) == Nones(n + 1)
  {}

  lemma InPushSnoc(qs: seq<Push>, p: Push, j: nat)
    ensures InPush(qs + [p], j) <==> InPush(qs, j) || p.at <= j < p.at + p.width
  {}

  lemma {:induction false} KeptAfter(g: Row, qs: seq<Push>, p: Push, j: nat)
    requires p.at + p.width <= j <= |g|
    ensures Kept(g, qs + [p], j) == Kept(g, qs, j)
    decreases |g| - j
  {
    if j < |g| {
      InPushSnoc(qs, p, j);
      KeptAfter(g, qs, p, j + 1);
    }
  }

  lemma {:induction false} KeptInside(g: Row, qs: seq<Push>, p: Push, j: nat)
    requires Missing(g, qs, p) && p.at <= j <= p.at + p.width
    ensures Kept(g, qs + [p], j) == Nones(p.at + p.width - j) + Kept(g, qs, j)
    decreases |g| - j
  {
    var n := p.at + p.width - j;
    if n == 0 {
      KeptAfter(g, qs, p, j);
      assert Nones(0) + Kept(g, qs, j) == Kept(g, qs, j);
    } else {
      InPushSnoc(qs, p, j);
      KeptInside(g, qs, p, j + 1);
      NonesCons(n - 1);
      Regroup([None], Nones(n - 1), Kept(g, qs, j));
    }
  }

  lemma Regroup(a: Row, b: Row, c: Row)
    ensures a + (b + c) == (a + b) + c
  {}

  lemma KeptStep(g: Row, qs: seq<Push>, j: nat, to: nat)
    requires j < to <= |g|
    ensures Kept(g, qs, j) == (if Has(g, qs, j) then [g[j]] else []) + Kept(g, qs, j + 1)
    ensures Count(g, qs, j, to) == (if Has(g, qs, j) then 1 else 0) + Count(g, qs, j + 1, to)
  {}

  /** A column more on the left. */
  lemma WidenLeft(left: Row, row: Row, after: Row, c: nat, n: nat)
    requires after == Widen(row, c, n) && |left| <= 1
    ensures left + after == Widen(left + row, |left| + c, n)
  {
    if left == [] {
      assert left + row == row && left + after == after;
    } else {
      assert left == [left[0]];
      WidenCons(left[0], row, c, n);
    }
  }

  /** One push more, put where it belongs. */
  lemma {:induction false} KeptInsert(g: Row, qs: seq<Push>, p: Push, j: nat)
    requires Missing(g, qs, p) && j <= p.at
    ensures Kept(g, qs + [p], j) == Widen(Kept(g, qs, j), Count(g, qs, j, p.at), p.width)
    decreases |g| - j
  {
    if j == p.at {
      KeptInside(g, qs, p, j);
      WidenFront(Kept(g, qs, j), p.width);
    } else {
      KeptInsert(g, qs, p, j + 1);
      InsertStep(g, qs, p, j, Kept(g, qs, j + 1), Kept(g, qs + [p], j + 1), Count(g, qs, j + 1, p.at));
    }
  }

  lemma InsertStep(g: Row, qs: seq<Push>, p: Push, j: nat, row: Row, after: Row, c: nat)
    requires j < p.at <= |g| && row == Kept(g, qs, j + 1) && after == Kept(g, qs + [p], j + 1)
    requires c == Count(g, qs, j + 1, p.at) && after == Widen(row, c, p.width)
    ensures Kept(g, qs + [p], j) == Widen(Kept(g, qs, j), Count(g, qs, j, p.at), p.width)
  {
    InPushSnoc(qs, p, j);
    KeptStep(g, qs, j, p.at);
    KeptStep(g, qs + [p], j, p.at);
    WidenLeft(if Has(g, qs, j) then [g[j]] else [], row, after, c, p.width);
  }

  // ---------------------------------------------------------------- one row

  /** Cells of a row do not stand in each other's blocks, which end inside the row. */
  ghost predicate Spaced(row: Row) {
    && (forall p: nat, q: nat | p < q < |row| && q <= p + OwnSpan(row[p]) :: row[q] == None)
    && (forall p: nat | p < |row| :: p + OwnSpan(row[p]) < |row|)
  }

  /** Column `j` belongs to the column span of a cell before it. */
  ghost predicate InSpan(g: Row, j: nat) {
    exists p: nat :: p < j && p < |g| && j <= p + OwnSpan(g[p])
  }

  ghost predicate Filled(g: Row, p: Push) {
    p.width > 0 && p.at + p.width <= |g| && forall j: nat | p.at <= j < p.at + p.width :: g[j] == None
  }

  predicate Apart(p: Push, q: Push) {
    p.at + p.width <= q.at || q.at + q.width <= p.at
  }

  /** The row is tiled by its own cells and the pushes `ps`. */
  ghost predicate RowTiled(g: Row, ps: seq<Push>) {
    && Spaced(g)
    && (forall i | 0 <= i < |ps| :: Filled(g, ps[i]))
    && (forall i, k | 0 <= i < k < |ps| :: Apart(ps[i], ps[k]))
    && (forall j: nat | j < |g| && g[j] == None :: InPush(ps, j) != InSpan(g, j))
  }

  lemma {:induction false} KeptSkips(g: Row, ps: seq<Push>, j: nat, to: nat)
    requires j <= to <= |g|
    requires forall i: nat | j <= i < to :: !Has(g, ps, i)
    ensures Kept(g, ps, j) == Kept(g, ps, to)
    decreases |g| - j
  {
    if j < to {
      KeptSkips(g, ps, j + 1, to);
    }
  }

  /** The pushes and the cells are all there is to the row but for the column spans of its cells. */
  lemma {:induction false} KeptExpands(g: Row, ps: seq<Push>, j: nat)
    requires RowTiled(g, ps) && j <= |g| && !InSpan(g, j)
    ensures Expanded(Kept(g, ps, j)) == g[j..]
    decreases |g| - j
  {
    if j < |g| {
      var s := OwnSpan(g[j]);
      var next := j + 1 + s;
      forall i: nat | j < i < next
        ensures g[i] == None && !Has(g, ps, i)
      {
        assert InSpan(g, i);
      }
      assert !InSpan(g, next);
      KeptExpands(g, ps, next);
      KeptSkips(g, ps, j + 1, next);
      ExpandedHead(g[j], Kept(g, ps, next));
      assert g[j..] == [g[j]] + Nones(s) + g[next..];
    }
  }

  lemma ExpandedHead(e: Option<Cell>, rest: Row)
    ensures Expanded([e] + rest) == [e] + Nones(OwnSpan(e)) + Expanded(rest)
  {
    assert ([e] + rest)[1..] == rest;
  }

  lemma {:induction false} ExpandedInjective(a: Row, b: Row)
    requires Expanded(a) == Expanded(b)
    ensures a == b
  {
    if a != [] && b != [] {
      var head := [a[0]] + Nones(OwnSpan(a[0]));
      assert Expanded(a)[0] == a[0] && Expanded(b)[0] == b[0];
      assert Expanded(a)[|head|..] == Expanded(a[1..]) && Expanded(b)[|head|..] == Expanded(b[1..]);
      ExpandedInjective(a[1..], b[1..]);
      assert a == [a[0]] + a[1..] && b == [b[0]] + b[1..];
    }
  }

  // ---------------------------------------------------------------- nothing pending is enough

  /** When `p` is made, nothing to its left is still missing, or no cell stands to its right. */
  ghost predicate Settled(g: Row, qs: seq<Push>, p: Push)
    requires p.at <= |g|
  {
    || (forall j: nat | j < p.at :: Has(g, qs, j))
    || (forall j: nat | p.at <= j < |g| :: g[j] == None)
  }

  lemma WidenNones(row: Row, from: nat, at: nat, n: nat)
    requires from <= at && from <= |row| && forall j | from <= j < |row| :: row[j] == None
    ensures Widen(row, at, n) == Widen(row, from, n)
  {}

  lemma {:induction false} KeptNones(g: Row, qs: seq<Push>, j: nat)
    requires j <= |g| && forall i: nat | j <= i < |g| :: g[i] == None
    ensures forall i | 0 <= i < |Kept(g, qs, j)| :: Kept(g, qs, j)[i] == None
    decreases |g| - j
  {
    if j < |g| {
      KeptNones(g, qs, j + 1);
    }
  }

  lemma InsertSettled(g: Row, qs: seq<Push>, p: Push)
    requires Missing(g, qs, p) && Settled(g, qs, p)
    ensures Widen(Kept(g, qs, 0), p.at, p.width) == Kept(g, qs + [p], 0)
  {
    KeptInsert(g, qs, p, 0);
    var row, from := Kept(g, qs, 0), Count(g, qs, 0, p.at);
    if forall j: nat | j < p.at :: Has(g, qs, j) {
      CountWhole(g, qs, 0, p.at);
    } else {
      KeptFrom(g, qs, 0, p.at);
      KeptNones(g, qs, p.at);
      forall j | from <= j < |row|
        ensures row[j] == None
      {
        assert row[j] == row[from..][j - from];
      }
      WidenNones(row, from, p.at, p.width);
    }
  }

  lemma PushMissing(g: Row, ps: seq<Push>, i: nat)
    requires RowTiled(g, ps) && i < |ps|
    ensures Missing(g, ps[..i], ps[i])
  {
    forall j: nat | ps[i].at <= j < ps[i].at + ps[i].width
      ensures g[j] == None && !InPush(ps[..i], j)
    {
      assert Filled(g, ps[i]);
      forall q: Push <- ps[..i]
        ensures !(q.at <= j < q.at + q.width)
      {
        var k :| 0 <= k < i && ps[k] == q;
        assert Apart(ps[k], ps[i]);
      }
    }
  }

  lemma PushAllNext(row: Row, ps: seq<Push>, i: nat)
    requires i < |ps|
    ensures PushAll(row, ps[..i + 1]) == Widen(PushAll(row, ps[..i]), ps[i].at, ps[i].width)
    ensures ps[..i + 1] == ps[..i] + [ps[i]]
  {
    assert ps[..i + 1][..i] == ps[..i];
  }

  lemma {:induction false} PushesSettle(g: Row, ps: seq<Push>, i: nat)
    requires RowTiled(g, ps) && i <= |ps|
    requires forall k | 0 <= k < i :: ps[k].at <= |g| && Settled(g, ps[..k], ps[k])
    ensures PushAll(Parsed(Cells(g)), ps[..i]) == Kept(g, ps[..i], 0)
  {
    if i == 0 {
      KeptCells(g, 0);
      assert g[0..] == g;
    } else {
      PushesSettle(g, ps, i - 1);
      PushAllNext(Parsed(Cells(g)), ps, i - 1);
      PushMissing(g, ps, i - 1);
      InsertSettled(g, ps[..i - 1], ps[i - 1]);
    }
  }

  // ---------------------------------------------------------------- and only that

  /** The column of cell number `c` of a row. */
  function CellAt(row: Row, c: nat): (j: nat)
    requires c < |Cells(row)|
    ensures j < |row| && row[j].Some?
  {
    if row[0] == None then 1 + CellAt(row[1..], c)
    else if c == 0 then 0
    else 1 + CellAt(row[1..], c - 1)
  }

  lemma {:induction false} CellAtNones(n: nat, row: Row, c: nat)
    requires c < |Cells(row)|
    ensures Cells(Nones(n) + row) == Cells(row) && CellAt(Nones(n) + row, c) == n + CellAt(row, c)
  {
    CellsNones(n, row);
    if n == 0 {
      assert Nones(0) + row == row;
    } else {
      var all := Nones(n) + row;
      assert all[0] == None && all[1..] == Nones(n - 1) + row;
      CellAtNones(n - 1, row, c);
    }
  }

  lemma CellAtCons(e: Option<Cell>, row: Row, c: nat)
    requires e == None || c > 0
    requires (if e == None then c else c - 1) < |Cells(row)|
    ensures c < |Cells([e] + row)|
    ensures CellAt([e] + row, c) == 1 + CellAt(row, if e == None then c else c - 1)
  {
    assert ([e] + row)[1..] == row;
  }

  lemma CellAtFirst(e: Option<Cell>, row: Row)
    requires e != None
    ensures Cells([e] + row) != [] && CellAt([e] + row, 0) == 0
  {}

  /** Where cell number `c` stands after `n` placeholders are pushed in at `at`. */
  ghost predicate MovedBy(row: Row, after: Row, at: nat, n: nat, c: nat) {
    && c < |Cells(row)| && Cells(after) == Cells(row)
    && CellAt(after, c) == CellAt(row, c) + if at <= CellAt(row, c) then n else 0
  }

  /** The same cells, moved in the tail of a row, move with it. */
  lemma CellAtMoved(e: Option<Cell>, row: Row, after: Row, at: nat, n: nat, c: nat)
    requires Cells(after) == Cells(row) && c < |Cells([e] + row)|
    requires e == None || c > 0 ==> MovedBy(row, after, at, n, if e == None then c else c - 1)
    ensures MovedBy([e] + row, [e] + after, at + 1, n, c)
  {
    assert ([e] + row)[1..] == row && ([e] + after)[1..] == after;
    if e == None || c > 0 {
      CellAtCons(e, row, c);
      CellAtCons(e, after, c);
    } else {
      CellAtFirst(e, row);
      CellAtFirst(e, after);
    }
  }

  lemma MovedFront(row: Row, n: nat, c: nat)
    requires c < |Cells(row)|
    ensures MovedBy(row, Widen(row, 0, n), 0, n, c)
  {
    WidenFront(row, n);
    CellAtNones(n, row, c);
  }

  lemma MovedTail(row: Row, after: Row, at: nat, n: nat, c: nat)
    requires row != [] && Cells(after) == Cells(row[1..]) && c < |Cells(row)|
    requires row[0] == None || c > 0 ==> MovedBy(row[1..], after, at, n, if row[0] == None then c else c - 1)
    ensures MovedBy(row, [row[0]] + after, at + 1, n, c)
  {
    assert row == [row[0]] + row[1..];
    CellAtMoved(row[0], row[1..], after, at, n, c);
  }

  /** A push moves the cells that it finds at or right of its column. */
  lemma {:induction false} CellAtWiden(row: Row, at: nat, n: nat, c: nat)
    requires c < |Cells(row)|
    ensures MovedBy(row, Widen(row, at, n), at, n, c)
  {
    if at == 0 {
      MovedFront(row, n, c);
    } else {
      WidenCons(row[0], row[1..], at - 1, n);
      assert [row[0]] + row[1..] == row;
      CellsWiden(row[1..], at - 1, n);
      if row[0] == None || c > 0 {
        CellAtWiden(row[1..], at - 1, n, if row[0] == None then c else c - 1);
      }
      MovedTail(row, Widen(row[1..], at - 1, n), at - 1, n, c);
    }
  }

  /** A cell of the row, as far as it is there, stands behind what is kept to its left. */
  lemma {:induction false} CellAtKept(g: Row, qs: seq<Push>, j: nat, q: nat)
    requires j <= q < |g| && g[q] != None
    ensures |Cells(g[j..q])| < |Cells(Kept(g, qs, j))|
    ensures CellAt(Kept(g, qs, j), |Cells(g[j..q])|) == Count(g, qs, j, q)
    decreases |g| - j
  {
    var rest := Kept(g, qs, j + 1);
    KeptHead(g, qs, j);
    if j == q {
      assert g[j..q] == [];
    } else {
      CellAtKept(g, qs, j + 1, q);
      assert g[j..q][1..] == g[j + 1..q] && g[j..q][0] == g[j];
      assert ([g[j]] + rest)[1..] == rest;
    }
  }

  lemma KeptHead(g: Row, qs: seq<Push>, j: nat)
    requires j < |g|
    ensures Kept(g, qs, j) == if Has(g, qs, j) then [g[j]] + Kept(g, qs, j + 1) else Kept(g, qs, j + 1)
  {
    assert [] + Kept(g, qs, j + 1) == Kept(g, qs, j + 1);
  }

  lemma {:induction false} CellsKept(g: Row, qs: seq<Push>, j: nat)
    requires j <= |g|
    ensures Cells(Kept(g, qs, j)) == Cells(g[j..])
    decreases |g| - j
  {
    if j < |g| {
      CellsKept(g, qs, j + 1);
      KeptHead(g, qs, j);
      assert g[j..][1..] == g[j + 1..];
      assert ([g[j]] + Kept(g, qs, j + 1))[1..] == Kept(g, qs, j + 1);
    }
  }

  /** The row after the first `i` pushes, as the scan makes it. */
  function Pushed(g: Row, ps: seq<Push>, i: nat): Row
    requires i <= |ps|
  {
    PushAll(Parsed(Cells(g)), ps[..i])
  }

  /** The row after the first `i` pushes, as it should be. */
  ghost function Due(g: Row, ps: seq<Push>, i: nat): Row
    requires i <= |ps|
  {
    Kept(g, ps[..i], 0)
  }

  lemma {:induction false} SameCells(g: Row, ps: seq<Push>, i: nat)
    requires i <= |ps|
    ensures Cells(Pushed(g, ps, i)) == Cells(g) && Cells(Due(g, ps, i)) == Cells(g)
  {
    CellsKept(g, ps[..i], 0);
    assert g[0..] == g;
    if i == 0 {
      CellsParsed(Cells(g));
    } else {
      SameCells(g, ps, i - 1);
      PushAllNext(Parsed(Cells(g)), ps, i - 1);
      CellsWiden(Pushed(g, ps, i - 1), ps[i - 1].at, ps[i - 1].width);
    }
  }

  /** How far cell number `c` is behind its due column after `i` pushes. */
  ghost function Lag(g: Row, ps: seq<Push>, i: nat, c: nat): int
    requires i <= |ps| && c < |Cells(g)|
  {
    SameCells(g, ps, i);
    CellAt(Due(g, ps, i), c) - CellAt(Pushed(g, ps, i), c)
  }

  /** Push `i` finds a cell at or right of its column if the cell is due there. */
  ghost predicate FoundRight(g: Row, ps: seq<Push>, i: nat, c: nat)
    requires i < |ps| && ps[i].at <= |g| && c < |Cells(g)|
  {
    SameCells(g, ps, i);
    var at := CellAt(Due(g, ps, i), c);
    Count(g, ps[..i], 0, ps[i].at) <= at ==> ps[i].at <= at
  }

  /** A push does not make a cell catch up. */
  lemma LagNext(g: Row, ps: seq<Push>, i: nat, c: nat)
    requires RowTiled(g, ps) && i < |ps| && c < |Cells(g)| && Lag(g, ps, i, c) >= 0
    ensures ps[i].at <= |g| && Lag(g, ps, i + 1, c) >= Lag(g, ps, i, c)
    ensures Lag(g, ps, i, c) == 0 && Lag(g, ps, i + 1, c) == 0 ==> FoundRight(g, ps, i, c)
  {
    var p, due, pushed := ps[i], Due(g, ps, i), Pushed(g, ps, i);
    SameCells(g, ps, i);
    SameCells(g, ps, i + 1);
    assert Filled(g, p);
    PushAllNext(Parsed(Cells(g)), ps, i);
    PushMissing(g, ps, i);
    KeptInsert(g, ps[..i], p, 0);
    CellAtWiden(due, Count(g, ps[..i], 0, p.at), p.width, c);
    CellAtWiden(pushed, p.at, p.width, c);
  }

  lemma {:induction false} LagStays(g: Row, ps: seq<Push>, i: nat, c: nat)
    requires RowTiled(g, ps) && i <= |ps| && c < |Cells(g)|
    ensures Lag(g, ps, i, c) >= 0
  {
    if i == 0 {
      KeptCells(g, 0);
      assert g[0..] == g;
    } else {
      LagStays(g, ps, i - 1, c);
      LagNext(g, ps, i - 1, c);
    }
  }

  /** A cell that ends up where it is due was never behind. */
  lemma {:induction false} NeverBehind(g: Row, ps: seq<Push>, i: nat, c: nat)
    requires RowTiled(g, ps) && i <= |ps| && c < |Cells(g)| && Pushed(g, ps, |ps|) == Due(g, ps, |ps|)
    ensures Lag(g, ps, i, c) == 0
    decreases |ps| - i
  {
    if i < |ps| {
      NeverBehind(g, ps, i + 1, c);
      LagStays(g, ps, i, c);
      LagNext(g, ps, i, c);
    }
  }

  /** The first cell at or right of a column. */
  lemma {:induction false} FirstCell(g: Row, j: nat) returns (q: nat)
    requires j <= |g| && exists k: nat :: j <= k < |g| && g[k] != None
    ensures j <= q < |g| && g[q] != None && forall i: nat | j <= i < q :: g[i] == None
    decreases |g| - j
  {
    if g[j] != None {
      q := j;
    } else {
      q := FirstCell(g, j + 1);
    }
  }

  /** If a push is not settled, a push made before it stands between it and the next cell. */
  lemma UnsettledFollows(g: Row, ps: seq<Push>, i: nat) returns (k: nat)
    requires RowTiled(g, ps) && i < |ps| && Pushed(g, ps, |ps|) == Due(g, ps, |ps|)
    requires Filled(g, ps[i]) && !Settled(g, ps[..i], ps[i])
    ensures k < i && ps[i].at < ps[k].at
    ensures exists q: nat :: ps[k].at <= q < |g| && g[q] != None
  {
    var p, qs := ps[i], ps[..i];
    var q := FirstCell(g, p.at);
    var c := |Cells(g[0..q])|;
    CellAtKept(g, qs, 0, q);
    SameCells(g, ps, i);
    CountSplit(g, qs, 0, p.at, q);
    CountWhole(g, qs, 0, p.at);
    NeverBehind(g, ps, i, c);
    NeverBehind(g, ps, i + 1, c);
    LagNext(g, ps, i, c);
    assert p.at <= Count(g, qs, 0, q);
    assert Count(g, qs, p.at, q) > 0;
    var j := SomeHas(g, qs, p.at, q);
    var r: Push :| r in qs && r.at <= j < r.at + r.width;
    k :| 0 <= k < i && ps[k] == r;
    assert Apart(ps[k], ps[i]) && Filled(g, ps[k]);
    assert ps[k].at <= q;
  }

  lemma {:induction false} SomeHas(g: Row, qs: seq<Push>, j: nat, to: nat) returns (i: nat)
    requires j <= to <= |g| && Count(g, qs, j, to) > 0
    ensures j <= i < to && Has(g, qs, i)
    decreases |g| - j
  {
    if Has(g, qs, j) {
      i := j;
    } else {
      i := SomeHas(g, qs, j + 1, to);
    }
  }

  lemma {:induction false} SettledEach(g: Row, ps: seq<Push>, i: nat)
    requires RowTiled(g, ps) && i < |ps| && Pushed(g, ps, |ps|) == Due(g, ps, |ps|)
    ensures Filled(g, ps[i]) && Settled(g, ps[..i], ps[i])
  {
    assert Filled(g, ps[i]);
    if !Settled(g, ps[..i], ps[i]) {
      var k := UnsettledFollows(g, ps, i);
      SettledEach(g, ps, k);
      PushMissing(g, ps, i);
      FirstColumnMissing(g, ps, i, k);
    }
  }

  lemma FirstColumnMissing(g: Row, ps: seq<Push>, i: nat, k: nat)
    requires RowTiled(g, ps) && k < i < |ps|
    ensures ps[i].at < |g| && !Has(g, ps[..k], ps[i].at)
  {
    assert Filled(g, ps[i]);
    PushMissing(g, ps, i);
    assert forall q: Push | q in ps[..k] :: q in ps[..i];
  }

  /** The scan makes the row if and only if every push is settled when it is made. */
  lemma RowExact(g: Row, ps: seq<Push>)
    requires RowTiled(g, ps)
    ensures Expanded(PushAll(Parsed(Cells(g)), ps)) == g
       <==> (forall i | 0 <= i < |ps| :: ps[i].at <= |g| && Settled(g, ps[..i], ps[i]))
  {
    assert ps[..|ps|] == ps && g[0..] == g;
    KeptExpands(g, ps, 0);
    if Expanded(PushAll(Parsed(Cells(g)), ps)) == g {
      ExpandedInjective(Pushed(g, ps, |ps|), Due(g, ps, |ps|));
      forall i | 0 <= i < |ps|
        ensures ps[i].at <= |g| && Settled(g, ps[..i], ps[i])
      {
        SettledEach(g, ps, i);
      }
    }
    if forall i | 0 <= i < |ps| :: ps[i].at <= |g| && Settled(g, ps[..i], ps[i]) {
      PushesSettle(g, ps, |ps|);
    }
  }
}
