/** Pane layout and click hit-testing: `compute_grid_dims`, `compute_pane_layout` and the mouse-press handler of
    src/app.rs. */
module PaneGrid {
  import opened Naturals
  import opened Wrappers

  const MAX_U16: nat := 0xFFFF

  /** A run of cells along one axis. */
  datatype Span = Span(start: nat, size: nat)

  datatype Rect = Rect(x: nat, y: nat, width: nat, height: nat)

  datatype PaneLayout = PaneLayout(sidebar: Rect, hint: Rect, gridArea: Rect, paneRects: seq<Rect>)

  /** The layout library: how it splits a run into a flexible and a fixed part, and into `k` equal ratios. */
  datatype Solver = Solver(minThenLength: (nat, nat, nat) -> (Span, Span), ratios: (nat, nat, nat) -> seq<Span>)

  /** The spans follow one another without gap or overlap from `lo` to `hi`. */
  predicate Tiles(spans: seq<Span>, lo: nat, hi: nat) {
    if spans == [] then lo == hi
    else spans[0].start == lo && Tiles(spans[1..], lo + spans[0].size, hi)
  }

  /** The library's contract: every split tiles the run it is given. */
  ghost predicate SplitsTile(s: Solver) {
    && (forall lo: nat, size: nat, fixed: nat ::
          var (a, b) := s.minThenLength(lo, size, fixed); Tiles([a, b], lo, lo + size))
    && (forall lo: nat, size: nat, k: nat ::
          k > 0 ==> |s.ratios(lo, size, k)| == k && Tiles(s.ratios(lo, size, k), lo, lo + size))
  }

  // ----- grid dimensions

  function CeilDiv(n: nat, d: nat): nat
    requires d > 0
  {
    (n + d - 1) / d
  }

  /** The floating-point comparison of two candidates `(rows, cols)` is any relation. */
  type Better = ((nat, nat), (nat, nat)) -> bool

  /** No candidate is better than `best`. */
  ghost predicate Unbeaten(n: nat, better: Better, best: (nat, nat)) {
    forall c: nat | 1 <= c <= n :: !better((CeilDiv(n, c), c), best)
  }

  /** A comparison that never prefers a candidate to itself, and that chains. */
  ghost predicate Chains(better: Better) {
    && (forall x :: !better(x, x))
    && forall x, y, z | better(x, y) && better(y, z) :: better(x, z)
  }

  /** Whichever candidate the scoring prefers, no column is useless, the rows are just enough for the panes, and no
      other candidate beats it if the comparison chains. */
  method ComputeGridDims(n: nat, better: Better) returns (rows: nat, cols: nat)
    ensures 1 <= cols && 1 <= rows
    ensures n <= rows * cols
    ensures n > 0 ==> cols <= n && (rows - 1) * cols < n
    ensures n > 1 && Chains(better) ==> Unbeaten(n, better, (rows, cols))
  {
    if n <= 1 {
      return 1, 1;
    }
    rows, cols := CeilDiv(n, 1), 1;
    for c := 2 to n + 1
      invariant 1 <= cols <= n && rows == CeilDiv(n, cols)
      invariant Chains(better) ==> forall d: nat | 1 <= d < c :: !better((CeilDiv(n, d), d), (rows, cols))
    {
      var candidate := (CeilDiv(n, c), c);
      if better(candidate, (rows, cols)) {
        rows, cols := candidate.0, candidate.1;
      }
    }
    CeilDivFits(n, cols);
  }

  lemma CeilDivFits(n: nat, d: nat)
    requires n > 0 && d > 0
    ensures var r := CeilDiv(n, d); 1 <= r && n <= r * d && (r - 1) * d < n
  {
    var m := n + d - 1;
    var r := m / d;
    assert m == r * d + m % d;
    assert (r - 1) * d == r * d - d;
    assert r == 0 ==> r * d == 0;
  }

  // ----- the grid

  /** The rectangles of one row of panes. */
  function RowRects(columns: seq<Span>, band: Span): seq<Rect> {
    seq(|columns|, i requires 0 <= i < |columns| => Rect(columns[i].start, band.start, columns[i].size, band.size))
  }

  /** The rectangles of the rows from `bands` on, with `n` panes left to place. */
  function GridRects(s: Solver, area: Rect, bands: seq<Span>, cols: nat, n: nat): seq<Rect>
    requires cols > 0
  {
    if bands == [] || n == 0 then []
    else
      var k := Min(n, cols);
      RowRects(s.ratios(area.x, area.width, k), bands[0]) + GridRects(s, area, bands[1..], cols, n - k)
  }

  method PlaceRow(columns: seq<Span>, band: Span) returns (rects: seq<Rect>)
    ensures rects == RowRects(columns, band)
  {
    rects := [];
    for c := 0 to |columns|
      invariant rects == RowRects(columns, band)[..c]
    {
      rects := rects + [Rect(columns[c].start, band.start, columns[c].size, band.size)];
    }
  }

  lemma GridStep(s: Solver, grid: Rect, bands: seq<Span>, r: nat, cols: nat, nPanes: nat, before: seq<Rect>)
    requires cols > 0 && r < |bands|
    ensures var left := SaturatingSub(nPanes, r * cols);
            var left' := SaturatingSub(nPanes, (r + 1) * cols);
            before + GridRects(s, grid, bands[r..], cols, left)
            == if left == 0 then before
               else before + RowRects(s.ratios(grid.x, grid.width, Min(left, cols)), bands[r])
                    + GridRects(s, grid, bands[r + 1..], cols, left')
  {
    assert (r + 1) * cols == r * cols + cols;
    assert bands[r..][0] == bands[r] && bands[r..][1..] == bands[r + 1..];
  }

  /** The nested loops: rows of at most `cols` panes until all are placed. */
  method PlaceGrid(s: Solver, grid: Rect, rows: nat, cols: nat, nPanes: nat) returns (rects: seq<Rect>)
    requires cols > 0 && |s.ratios(grid.y, grid.height, rows)| == rows
    ensures rects == GridRects(s, grid, s.ratios(grid.y, grid.height, rows), cols, nPanes)
  {
    var bands := s.ratios(grid.y, grid.height, rows);
    ghost var all := GridRects(s, grid, bands, cols, nPanes);
    rects := [];
    for r := 0 to rows
      invariant rects + GridRects(s, grid, bands[r..], cols, SaturatingSub(nPanes, r * cols)) == all
    {
      GridStep(s, grid, bands, r, cols, nPanes, rects);
      var remaining := SaturatingSub(nPanes, r * cols);
      if remaining == 0 {
        return;
      }
      var cellsInRow := Min(remaining, cols);
      var row := PlaceRow(s.ratios(grid.x, grid.width, cellsInRow), bands[r]);
      rects := rects + row;
    }
  }

  method ComputePaneLayout(s: Solver, better: Better, screenCols: nat, screenRows: nat, sidebarWidth: nat, nPanes: nat)
    returns (layout: PaneLayout)
    requires SplitsTile(s)
    ensures var (paneCols, sideCols) := s.minThenLength(0, screenCols, sidebarWidth);
            var (gridRows, hintRows) := s.minThenLength(0, screenRows, 1);
            && layout.gridArea == Rect(paneCols.start, gridRows.start, paneCols.size, gridRows.size)
            && layout.hint == Rect(paneCols.start, hintRows.start, paneCols.size, hintRows.size)
            && layout.sidebar == Rect(sideCols.start, 0, sideCols.size, screenRows)
    ensures |layout.paneRects| == nPanes
    ensures nPanes > 0 ==> forall x: nat, y: nat ::
              Hits(layout.paneRects, x, y) == if Contains(layout.gridArea, x, y) then 1 else 0
    ensures InReadingOrder(layout.paneRects)
  {
    var (paneCols, sideCols) := s.minThenLength(0, screenCols, sidebarWidth);
    var (gridRows, hintRows) := s.minThenLength(0, screenRows, 1);
    var grid := Rect(paneCols.start, gridRows.start, paneCols.size, gridRows.size);
    var rects: seq<Rect> := [];
    if nPanes == 1 {
      rects := [grid];
      SinglePane(grid);
    } else if nPanes > 1 {
      var rows, cols := ComputeGridDims(nPanes, better);
      rects := PlaceGrid(s, grid, rows, cols, nPanes);
      GridIsExact(s, grid, s.ratios(grid.y, grid.height, rows), grid.y, cols, nPanes);
      GridIsInReadingOrder(s, grid, s.ratios(grid.y, grid.height, rows), grid.y, cols, nPanes);
    }
    layout := PaneLayout(Rect(sideCols.start, 0, sideCols.size, screenRows),
                         Rect(paneCols.start, hintRows.start, paneCols.size, hintRows.size),
                         grid, rects);
  }

  // ----- hit-testing

  predicate Contains(r: Rect, x: nat, y: nat) {
    r.x <= x < r.x + r.width && r.y <= y < r.y + r.height
  }

  /** How many rectangles contain the cell. */
  function Hits(rects: seq<Rect>, x: nat, y: nat): nat {
    if rects == [] then 0 else (if Contains(rects[0], x, y) then 1 else 0) + Hits(rects[1..], x, y)
  }

  lemma SinglePane(area: Rect)
    ensures forall x: nat, y: nat :: Hits([area], x, y) == if Contains(area, x, y) then 1 else 0
  {
    assert [area][1..] == [];
  }

  function SpanHits(spans: seq<Span>, v: nat): nat {
    if spans == [] then 0
    else (if spans[0].start <= v < spans[0].start + spans[0].size then 1 else 0) + SpanHits(spans[1..], v)
  }

  lemma {:induction false} TilesBounds(spans: seq<Span>, lo: nat, hi: nat)
    requires Tiles(spans, lo, hi)
    ensures lo <= hi
  {
    if spans != [] {
      TilesBounds(spans[1..], lo + spans[0].size, hi);
    }
  }

  lemma {:induction false} TilesHitOnce(spans: seq<Span>, lo: nat, hi: nat, v: nat)
    requires Tiles(spans, lo, hi)
    ensures SpanHits(spans, v) == if lo <= v < hi then 1 else 0
  {
    if spans != [] {
      TilesBounds(spans[1..], lo + spans[0].size, hi);
      TilesHitOnce(spans[1..], lo + spans[0].size, hi, v);
    }
  }

  lemma {:induction false} HitsConcat(a: seq<Rect>, b: seq<Rect>, x: nat, y: nat)
    ensures Hits(a + b, x, y) == Hits(a, x, y) + Hits(b, x, y)
  {
    if a == [] {
      assert a + b == b;
    } else {
      assert (a + b)[1..] == a[1..] + b;
      HitsConcat(a[1..], b, x, y);
    }
  }

  lemma {:induction false} RowHits(columns: seq<Span>, band: Span, x: nat, y: nat)
    ensures Hits(RowRects(columns, band), x, y)
            == if band.start <= y < band.start + band.size then SpanHits(columns, x) else 0
  {
    if columns != [] {
      RowHits(columns[1..], band, x, y);
      assert RowRects(columns, band)[1..] == RowRects(columns[1..], band);
    }
  }

  /** The rows and panes left after one row are again just enough for each other. */
  lemma JustEnoughLeft(rows: nat, cols: nat, n: nat)
    requires cols > 0 && rows > 0 && n <= rows * cols && (rows - 1) * cols < n
    ensures n - Min(n, cols) <= (rows - 1) * cols
    ensures n - Min(n, cols) == 0 ==> rows - 1 == 0
    ensures rows - 1 > 0 ==> (rows - 2) * cols < n - Min(n, cols)
  {
    assert rows * cols == (rows - 1) * cols + cols;
    if rows > 1 {
      assert (rows - 1) * cols == (rows - 2) * cols + cols;
      assert (rows - 2) * cols >= 0;
    }
  }

  /** With just enough rows, the grid places every pane and covers every cell of its area once. */
  lemma {:induction false} GridIsExact(s: Solver, area: Rect, bands: seq<Span>, lo: nat, cols: nat, n: nat)
    requires SplitsTile(s) && cols > 0 && area.y <= lo
    requires Tiles(bands, lo, area.y + area.height)
    requires n <= |bands| * cols && (n == 0 ==> bands == []) && (bands != [] ==> (|bands| - 1) * cols < n)
    ensures var rects := GridRects(s, area, bands, cols, n);
            && |rects| == n
            && forall x: nat, y: nat ::
                 Hits(rects, x, y)
                 == if area.x <= x < area.x + area.width && lo <= y < area.y + area.height then 1 else 0
  {
    if bands != [] {
      var k := Min(n, cols);
      var columns, rest := s.ratios(area.x, area.width, k), bands[1..];
      JustEnoughLeft(|bands|, cols, n);
      GridIsExact(s, area, rest, lo + bands[0].size, cols, n - k);
      var tail := GridRects(s, area, rest, cols, n - k);
      forall x: nat, y: nat
        ensures Hits(GridRects(s, area, bands, cols, n), x, y)
                == if area.x <= x < area.x + area.width && lo <= y < area.y + area.height then 1 else 0
      {
        RowAndTailHit(columns, bands, tail, area, lo, x, y);
      }
    }
  }

  /** One row of panes above an area that is covered once. */
  lemma RowAndTailHit(columns: seq<Span>, bands: seq<Span>, tail: seq<Rect>, area: Rect, lo: nat, x: nat, y: nat)
    requires bands != [] && Tiles(bands, lo, area.y + area.height)
    requires Tiles(columns, area.x, area.x + area.width)
    requires Hits(tail, x, y) == if area.x <= x < area.x + area.width && lo + bands[0].size <= y < area.y + area.height
                                 then 1 else 0
    ensures Hits(RowRects(columns, bands[0]) + tail, x, y)
            == if area.x <= x < area.x + area.width && lo <= y < area.y + area.height then 1 else 0
  {
    TilesBounds(bands[1..], lo + bands[0].size, area.y + area.height);
    HitsConcat(RowRects(columns, bands[0]), tail, x, y);
    RowHits(columns, bands[0], x, y);
    TilesHitOnce(columns, area.x, area.x + area.width, x);
  }

  /** `a` is above `b`, or in the same band to its left. */
  predicate Precedes(a: Rect, b: Rect) {
    a.y + a.height <= b.y || (a.y == b.y && a.height == b.height && a.x + a.width <= b.x)
  }

  predicate InReadingOrder(rects: seq<Rect>) {
    forall i, j | 0 <= i < j < |rects| :: Precedes(rects[i], rects[j])
  }

  lemma {:induction false} TilesInOrder(spans: seq<Span>, lo: nat, hi: nat)
    requires Tiles(spans, lo, hi)
    ensures forall i | 0 <= i < |spans| :: lo <= spans[i].start && spans[i].start + spans[i].size <= hi
    ensures forall i, j | 0 <= i < j < |spans| :: spans[i].start + spans[i].size <= spans[j].start
  {
    if spans != [] {
      TilesInOrder(spans[1..], lo + spans[0].size, hi);
      TilesBounds(spans[1..], lo + spans[0].size, hi);
      assert forall i | 0 < i < |spans| :: spans[i] == spans[1..][i - 1];
    }
  }

  lemma RowThenRest(row: seq<Rect>, rest: seq<Rect>, bottom: nat)
    requires InReadingOrder(row) && InReadingOrder(rest)
    requires forall i | 0 <= i < |row| :: row[i].y + row[i].height == bottom
    requires forall i | 0 <= i < |rest| :: rest[i].y >= bottom
    ensures InReadingOrder(row + rest)
  {
    forall i, j | 0 <= i < j < |row + rest|
      ensures Precedes((row + rest)[i], (row + rest)[j])
    {
      assert j >= |row| ==> (row + rest)[j] == rest[j - |row|];
    }
  }

  /** Panes come row by row from the top, each row from the left. */
  lemma {:induction false} GridIsInReadingOrder(s: Solver, area: Rect, bands: seq<Span>, lo: nat, cols: nat, n: nat)
    requires SplitsTile(s) && cols > 0 && Tiles(bands, lo, area.y + area.height)
    ensures var rects := GridRects(s, area, bands, cols, n);
            InReadingOrder(rects) && forall i | 0 <= i < |rects| :: rects[i].y >= lo
  {
    if bands != [] && n > 0 {
      var k := Min(n, cols);
      var columns := s.ratios(area.x, area.width, k);
      TilesInOrder(columns, area.x, area.x + area.width);
      GridIsInReadingOrder(s, area, bands[1..], lo + bands[0].size, cols, n - k);
      RowThenRest(RowRects(columns, bands[0]), GridRects(s, area, bands[1..], cols, n - k), lo + bands[0].size);
    }
  }

  lemma FewerRowsLeft(rows: nat, cols: nat, n: nat, r: nat, c: nat, p: nat)
    requires cols > 0 && c < cols && p == r * cols + c && p < n <= rows * cols
    ensures rows > 0 && (r == 0 ==> p == c)
    ensures r > 0 ==> p >= cols && p - cols == (r - 1) * cols + c && n - cols <= (rows - 1) * cols
  {
    assert rows == 0 ==> rows * cols == 0;
    if r > 0 {
      assert r * cols == (r - 1) * cols + cols;
      assert rows * cols == (rows - 1) * cols + cols;
      assert (r - 1) * cols >= 0;
    }
  }

  /** Every row but the last is full: pane `p`, that is `r * cols + c`, is the `c`-th of row `r`. */
  lemma {:induction false} PaneIsAt(s: Solver, area: Rect, bands: seq<Span>, cols: nat, n: nat, r: nat, c: nat, p: nat)
    requires SplitsTile(s) && cols > 0 && c < cols && p == r * cols + c && p < n <= |bands| * cols
    ensures r < |bands| && p < |GridRects(s, area, bands, cols, n)|
    ensures var columns := s.ratios(area.x, area.width, Min(cols, n - (p - c)));
            c < |columns|
            && GridRects(s, area, bands, cols, n)[p]
               == Rect(columns[c].start, bands[r].start, columns[c].size, bands[r].size)
    decreases r
  {
    FewerRowsLeft(|bands|, cols, n, r, c, p);
    if r == 0 {
      FirstRowIs(s, area, bands, cols, n, c);
    } else {
      PaneIsAt(s, area, bands[1..], cols, n - cols, r - 1, c, p - cols);
      LaterRowIs(s, area, bands, cols, n, p - cols);
      assert bands[1..][r - 1] == bands[r];
    }
  }

  lemma FirstRowIs(s: Solver, area: Rect, bands: seq<Span>, cols: nat, n: nat, c: nat)
    requires SplitsTile(s) && c < cols && c < n && bands != []
    ensures var columns := s.ratios(area.x, area.width, Min(cols, n));
            && c < |columns| && c < |GridRects(s, area, bands, cols, n)|
            && GridRects(s, area, bands, cols, n)[c]
               == Rect(columns[c].start, bands[0].start, columns[c].size, bands[0].size)
  {
  }

  lemma LaterRowIs(s: Solver, area: Rect, bands: seq<Span>, cols: nat, n: nat, p: nat)
    requires SplitsTile(s) && 0 < cols < n && bands != [] && p < |GridRects(s, area, bands[1..], cols, n - cols)|
    ensures p + cols < |GridRects(s, area, bands, cols, n)|
    ensures GridRects(s, area, bands, cols, n)[p + cols] == GridRects(s, area, bands[1..], cols, n - cols)[p]
  {
    assert |RowRects(s.ratios(area.x, area.width, cols), bands[0])| == cols;
  }

  function SaturatingAdd(a: nat, b: nat): nat {
    Min(a + b, MAX_U16)
  }

  /** The test the mouse handler applies to one pane. */
  predicate ClickIn(r: Rect, col: nat, row: nat) {
    col >= r.x && col < SaturatingAdd(r.x, r.width) && row >= r.y && row < SaturatingAdd(r.y, r.height)
  }

  /** A pane with any cells ends within the 65535 columns and rows a screen can have. */
  predicate OnScreen(r: Rect) {
    r.width > 0 && r.height > 0 ==> r.x + r.width <= MAX_U16 && r.y + r.height <= MAX_U16
  }

  /** `Iterator::position` over the panes. */
  method HitTest(rects: seq<Rect>, col: nat, row: nat) returns (hit: Option<nat>)
    requires forall i | 0 <= i < |rects| :: OnScreen(rects[i])
    ensures Hits(rects, col, row) == 0 <==> hit.None?
    ensures hit.Some? ==> hit.value < |rects| && Contains(rects[hit.value], col, row)
    ensures Hits(rects, col, row) == 1 ==>
              forall i | 0 <= i < |rects| :: Contains(rects[i], col, row) <==> hit == Some(i)
  {
    for i := 0 to |rects|
      invariant forall j | 0 <= j < i :: !Contains(rects[j], col, row)
    {
      assert OnScreen(rects[i]);
      if ClickIn(rects[i], col, row) {
        NoHitSkips(rects, i, col, row);
        NoHitUnless(rects[i + 1..], col, row);
        assert rects[i..][0] == rects[i] && rects[i..][1..] == rects[i + 1..];
        forall j | 0 <= j < |rects| && Hits(rects, col, row) == 1
          ensures Contains(rects[j], col, row) <==> j == i
        {
          if j > i {
            assert rects[j] == rects[i + 1..][j - i - 1];
          }
        }
        return Some(i);
      }
    }
    NoHitUnless(rects, col, row);
    return None;
  }

  lemma {:induction false} NoHitUnless(rects: seq<Rect>, x: nat, y: nat)
    ensures Hits(rects, x, y) == 0 <==> forall i | 0 <= i < |rects| :: !Contains(rects[i], x, y)
  {
    if rects != [] {
      NoHitUnless(rects[1..], x, y);
      if Hits(rects, x, y) == 0 {
        forall i | 0 <= i < |rects|
          ensures !Contains(rects[i], x, y)
        {
          if i > 0 {
            assert rects[i] == rects[1..][i - 1];
          }
        }
      } else if !Contains(rects[0], x, y) {
        var i :| 0 <= i < |rects[1..]| && Contains(rects[1..][i], x, y);
        assert Contains(rects[i + 1], x, y);
      }
    }
  }

  lemma {:induction false} NoHitSkips(rects: seq<Rect>, i: nat, x: nat, y: nat)
    requires i <= |rects| && forall j | 0 <= j < i :: !Contains(rects[j], x, y)
    ensures Hits(rects, x, y) == Hits(rects[i..], x, y)
  {
    HitsConcat(rects[..i], rects[i..], x, y);
    assert rects == rects[..i] + rects[i..];
    NoHitUnless(rects[..i], x, y);
  }

  /** What a left press does: the sidebar's business, focus for pane `i`, or a selection in the panes. */
  datatype Press = InSidebar | Focus(i: nat) | Select

  /** A press left of the sidebar, in split view, goes to the one pane under the pointer unless that is active already;
      `active` is the active pane's place among those shown. */
  method MousePress(s: Solver, better: Better, screenCols: nat, screenRows: nat, sidebarWidth: nat, nPanes: nat,
                    active: Option<nat>, col: nat, row: nat)
    returns (layout: PaneLayout, press: Press)
    requires SplitsTile(s)
    requires screenCols <= MAX_U16 && screenRows <= MAX_U16
    ensures |layout.paneRects| == nPanes
    ensures press.InSidebar? <==> col + sidebarWidth >= screenCols
    ensures forall i: nat :: press == Focus(i)
              <==> && col + sidebarWidth < screenCols && nPanes > 1 && i < nPanes && active != Some(i)
                   && Contains(layout.paneRects[i], col, row)
    ensures nPanes > 0 ==>
              (Contains(layout.gridArea, col, row)
               <==> exists i: nat :: i < nPanes && Contains(layout.paneRects[i], col, row))
    ensures forall i, j | 0 <= i < j < nPanes ::
              !(Contains(layout.paneRects[i], col, row) && Contains(layout.paneRects[j], col, row))
    ensures forall x: nat, y: nat | x < screenCols && y < screenRows ::
              Hits([layout.gridArea, layout.hint, layout.sidebar], x, y) == 1
  {
    var hit;
    layout, hit := PaneUnderPointer(s, better, screenCols, screenRows, sidebarWidth, nPanes, col, row);
    var paneWidth := SaturatingSub(screenCols, sidebarWidth);
    if col >= paneWidth {
      return layout, InSidebar;
    }
    if nPanes > 1 && hit.Some? && hit != active {
      return layout, Focus(hit.value);
    }
    return layout, Select;
  }

  /** The layout's hit-test: the pane found is the only one under the pointer, and one is found exactly on the grid. */
  method PaneUnderPointer(s: Solver, better: Better, screenCols: nat, screenRows: nat, sidebarWidth: nat, nPanes: nat,
                          col: nat, row: nat)
    returns (layout: PaneLayout, hit: Option<nat>)
    requires SplitsTile(s)
    requires screenCols <= MAX_U16 && screenRows <= MAX_U16
    ensures |layout.paneRects| == nPanes
    ensures hit.Some? <==> nPanes > 0 && Contains(layout.gridArea, col, row)
    ensures forall i | 0 <= i < nPanes :: Contains(layout.paneRects[i], col, row) <==> hit == Some(i)
    ensures hit.Some? ==> hit.value < nPanes
    ensures forall x: nat, y: nat | x < screenCols && y < screenRows ::
              Hits([layout.gridArea, layout.hint, layout.sidebar], x, y) == 1
  {
    layout := ComputePaneLayout(s, better, screenCols, screenRows, sidebarWidth, nPanes);
    var (paneCols, sideCols) := s.minThenLength(0, screenCols, sidebarWidth);
    var (gridRows, hintRows) := s.minThenLength(0, screenRows, 1);
    TwoSpans(paneCols, sideCols, screenCols);
    TwoSpans(gridRows, hintRows, screenRows);
    if nPanes > 0 {
      PanesAreOnScreen(layout.paneRects, layout.gridArea);
    }
    hit := HitTest(layout.paneRects, col, row);
    NoHitUnless(layout.paneRects, col, row);
    forall x: nat, y: nat | x < screenCols && y < screenRows
      ensures Hits([layout.gridArea, layout.hint, layout.sidebar], x, y) == 1
    {
      ThreeAreas(layout, paneCols, sideCols, gridRows, hintRows, screenCols, screenRows, x, y);
    }
  }

  lemma PanesAreOnScreen(rects: seq<Rect>, area: Rect)
    requires area.x + area.width <= MAX_U16 && area.y + area.height <= MAX_U16
    requires forall x: nat, y: nat :: Hits(rects, x, y) == if Contains(area, x, y) then 1 else 0
    ensures forall i | 0 <= i < |rects| :: OnScreen(rects[i])
  {
    forall i | 0 <= i < |rects|
      ensures OnScreen(rects[i])
    {
      var r := rects[i];
      if r.width > 0 && r.height > 0 {
        NoHitUnless(rects, r.x + r.width - 1, r.y + r.height - 1);
        assert Contains(r, r.x + r.width - 1, r.y + r.height - 1);
      }
    }
  }

  /** The grid, the hint line and the sidebar together cover the screen once. */
  lemma ThreeAreas(layout: PaneLayout, paneCols: Span, sideCols: Span, gridRows: Span, hintRows: Span,
                   screenCols: nat, screenRows: nat, x: nat, y: nat)
    requires Tiles([paneCols, sideCols], 0, screenCols) && Tiles([gridRows, hintRows], 0, screenRows)
    requires layout.gridArea == Rect(paneCols.start, gridRows.start, paneCols.size, gridRows.size)
    requires layout.hint == Rect(paneCols.start, hintRows.start, paneCols.size, hintRows.size)
    requires layout.sidebar == Rect(sideCols.start, 0, sideCols.size, screenRows)
    requires x < screenCols && y < screenRows
    ensures Hits([layout.gridArea, layout.hint, layout.sidebar], x, y) == 1
  {
    TwoSpans(paneCols, sideCols, screenCols);
    TwoSpans(gridRows, hintRows, screenRows);
    SinglePane(layout.gridArea);
    SinglePane(layout.hint);
    SinglePane(layout.sidebar);
    HitsConcat([layout.hint], [layout.sidebar], x, y);
    HitsConcat([layout.gridArea], [layout.hint, layout.sidebar], x, y);
    assert [layout.hint] + [layout.sidebar] == [layout.hint, layout.sidebar];
    assert [layout.gridArea] + [layout.hint, layout.sidebar] == [layout.gridArea, layout.hint, layout.sidebar];
  }

  lemma TwoSpans(a: Span, b: Span, size: nat)
    requires Tiles([a, b], 0, size)
    ensures a.start == 0 && b.start == a.size && a.size + b.size == size
  {
    assert [a, b][1..] == [b] && [b][1..] == [];
    assert Tiles([b][1..], a.size + b.size, size);
  }
}
