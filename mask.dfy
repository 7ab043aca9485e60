/**
 * Preview glyphs for the eight QR mask patterns (src/generator/mask.ts).
 *
 * A mask formula is sampled on a PREVIEW_SIZE x PREVIEW_SIZE grid; a cell is
 * filled when the formula yields 0 there. The glyph is an SVG path made of
 * `M x y` (move to) and `H x` (horizontal line to) commands: for every row,
 * one `M` at the first column of each maximal run of filled cells, closed by
 * an `H` at the first column after the run.
 */
module Mask {

  /** Side of the sample grid. */
  const PREVIEW_SIZE: nat := 6

  /** A QR mask pattern index. */
  type MaskPattern = m: int | 0 <= m <= 7

  /** The two SVG path commands a glyph uses. */
  datatype Command = MoveTo(x: int, y: int) | HorizTo(x: int)

  /** What `mask` returns: the pattern index and its glyph. */
  datatype MaskOption = MaskOption(value: MaskPattern, path: seq<Command>)

  /** The filled cells start..stop-1 of one row. */
  datatype Run = Run(row: nat, start: nat, stop: nat)

  // ---------------------------------------------------------------------------
  // The sample grid and its runs

  /** The sampled grid: `Grid(e)[i][j]` is cell (i, j), row i and column j. */
  function Grid(expression: (int, int) -> int): (grid: seq<seq<bool>>)
    ensures |grid| == PREVIEW_SIZE
    ensures forall i :: 0 <= i < PREVIEW_SIZE ==> |grid[i]| == PREVIEW_SIZE
    ensures forall i, j :: 0 <= i < PREVIEW_SIZE && 0 <= j < PREVIEW_SIZE ==>
      grid[i][j] == (expression(i, j) == 0)
  {
    seq(PREVIEW_SIZE, i => seq(PREVIEW_SIZE, j => expression(i, j) == 0))
  }

  /** Columns start..stop-1 are a run of filled cells that cannot be extended either way. */
  predicate MaximalRun(row: seq<bool>, start: int, stop: int) {
    && 0 <= start < stop <= |row|
    && (forall c :: start <= c < stop ==> row[c])
    && (start == 0 || !row[start - 1])
    && (stop == |row| || !row[stop])
  }

  /** The first column at or after `j` that is not filled, or the row length. */
  function RunEnd(row: seq<bool>, j: nat): (e: nat)
    requires j <= |row|
    ensures j <= e <= |row|
    ensures forall c :: j <= c < e ==> row[c]
    ensures e == |row| || !row[e]
    decreases |row| - j
  {
    if j == |row| || !row[j] then j else RunEnd(row, j + 1)
  }

  /** The runs of row `row` (row number `i`) that start at column `j` or later, left to right. */
  function RowRuns(row: seq<bool>, i: nat, j: nat): seq<Run>
    requires j <= |row|
    decreases |row| - j
  {
    if j == |row| then []
    else if row[j] then [Run(i, j, RunEnd(row, j))] + RowRuns(row, i, RunEnd(row, j))
    else RowRuns(row, i, j + 1)
  }

  /** Run `a` comes before run `b` in reading order, without touching it. */
  predicate Before(a: Run, b: Run) {
    a.row < b.row || (a.row == b.row && a.stop < b.start)
  }

  /** The runs of rows 0..n-1, in reading order. */
  function GridRuns(grid: seq<seq<bool>>, n: nat): seq<Run>
    requires n <= |grid|
  {
    if n == 0 then [] else GridRuns(grid, n - 1) + RowRuns(grid[n - 1], n - 1, 0)
  }

  /** The path that draws `runs`: `M start row` then `H stop` for each run. */
  function Commands(runs: seq<Run>): (path: seq<Command>)
    ensures |path| == 2 * |runs|
  {
    if runs == [] then []
    else [MoveTo(runs[0].start, runs[0].row), HorizTo(runs[0].stop)] + Commands(runs[1..])
  }

  /** The glyph of a grid: the path of all its runs. */
  function GlyphPath(grid: seq<seq<bool>>): seq<Command> {
    Commands(GridRuns(grid, |grid|))
  }

  // ---------------------------------------------------------------------------
  // The path builder

  /** What is still to be emitted for row `row` from column `j` on, given the pen state. */
  function Pending(row: seq<bool>, i: nat, j: nat, penDown: bool): seq<Command>
    requires j <= |row|
  {
    if penDown then [HorizTo(RunEnd(row, j))] + Commands(RowRuns(row, i, RunEnd(row, j)))
    else Commands(RowRuns(row, i, j))
  }

  /**
   * Builds the glyph of `expression` by scanning each row left to right with a
   * pen that goes down on the first filled cell of a run and up after it.
   */
  method Mask(value: MaskPattern, expression: (int, int) -> int) returns (option: MaskOption)
    ensures option.value == value
    ensures option.path == GlyphPath(Grid(expression))
  {
    ghost var grid := Grid(expression);
    var path: seq<Command> := [];
    for i := 0 to PREVIEW_SIZE
      invariant path == Commands(GridRuns(grid, i))
    {
      ghost var row := grid[i];
      assert |row| == PREVIEW_SIZE;
      ghost var target := Commands(GridRuns(grid, i)) + Commands(RowRuns(row, i, 0));
      var penDown := false;
      for j := 0 to PREVIEW_SIZE
        invariant path + Pending(row, i, j, penDown) == target
      {
        var isFilled := expression(i, j) == 0;
        assert isFilled == row[j];
        ScanStep(path, row, i, j, penDown, target);
        if isFilled {
          if !penDown {
            path := path + [MoveTo(j, i)];
            penDown := true;
          }
        } else if penDown {
          path := path + [HorizTo(j)];
          penDown := false;
        }
      }
      PendingEnd(row, i, penDown);
      if penDown {
        path := path + [HorizTo(PREVIEW_SIZE)];
      }
      CommandsAppend(GridRuns(grid, i), RowRuns(row, i, 0));
    }
    option := MaskOption(value, path);
  }

  /** One column of the scan: what it emits, and what is then still pending. */
  lemma PendingStep(row: seq<bool>, i: nat, j: nat, penDown: bool)
    requires j < |row|
    ensures row[j] && !penDown ==> Pending(row, i, j, penDown) == [MoveTo(j, i)] + Pending(row, i, j + 1, true)
    ensures row[j] && penDown ==> Pending(row, i, j, penDown) == Pending(row, i, j + 1, true)
    ensures !row[j] && penDown ==> Pending(row, i, j, penDown) == [HorizTo(j)] + Pending(row, i, j + 1, false)
    ensures !row[j] && !penDown ==> Pending(row, i, j, penDown) == Pending(row, i, j + 1, false)
  {
    if row[j] {
      var e := RunEnd(row, j);
      assert e == RunEnd(row, j + 1);
      assert RowRuns(row, i, j) == [Run(i, j, e)] + RowRuns(row, i, e);
      assert Commands([Run(i, j, e)] + RowRuns(row, i, e)) == [MoveTo(j, i), HorizTo(e)] + Commands(RowRuns(row, i, e)) by {
        assert ([Run(i, j, e)] + RowRuns(row, i, e))[1..] == RowRuns(row, i, e);
      }
    }
  }

  /** The inner loop's invariant survives one column, whatever the column and the pen. */
  lemma ScanStep(path: seq<Command>, row: seq<bool>, i: nat, j: nat, penDown: bool, target: seq<Command>)
    requires j < |row| && path + Pending(row, i, j, penDown) == target
    ensures row[j] && !penDown ==> (path + [MoveTo(j, i)]) + Pending(row, i, j + 1, true) == target
    ensures row[j] && penDown ==> path + Pending(row, i, j + 1, true) == target
    ensures !row[j] && penDown ==> (path + [HorizTo(j)]) + Pending(row, i, j + 1, false) == target
    ensures !row[j] && !penDown ==> path + Pending(row, i, j + 1, false) == target
  {
    PendingStep(row, i, j, penDown);
    var next := Pending(row, i, j + 1, row[j]);
    if row[j] && !penDown {
      Associative(path, [MoveTo(j, i)], next);
    } else if !row[j] && penDown {
      Associative(path, [HorizTo(j)], next);
    }
  }

  lemma Associative(a: seq<Command>, b: seq<Command>, c: seq<Command>)
    ensures (a + b) + c == a + (b + c)
  {
  }

  /** At the end of a row, a pen that is still down closes its run at the row end. */
  lemma PendingEnd(row: seq<bool>, i: nat, penDown: bool)
    ensures Pending(row, i, |row|, penDown) == if penDown then [HorizTo(|row|)] else []
  {
  }

  // ---------------------------------------------------------------------------
  // What the runs are

  /**
   * `r` is a run of row `row` (row number `i`) found by a scan from column
   * `j`: it lies at or after `j`, is filled, ends at an unfilled column or the
   * row end, and, unless it starts at `j`, starts right after an unfilled column.
   */
  predicate RunFrom(row: seq<bool>, i: nat, j: nat, r: Run) {
    && r.row == i
    && j <= r.start < r.stop <= |row|
    && (forall c :: r.start <= c < r.stop ==> row[c])
    && (r.stop == |row| || !row[r.stop])
    && (r.start == j || !row[r.start - 1])
  }

  /** All of `runs` are scanned runs of the row, listed left to right with a gap between neighbours. */
  predicate RowRunsFrom(row: seq<bool>, i: nat, j: nat, runs: seq<Run>) {
    && (forall k :: 0 <= k < |runs| ==> RunFrom(row, i, j, runs[k]))
    && (forall k, k' :: 0 <= k < k' < |runs| ==> runs[k].stop < runs[k'].start)
  }

  lemma {:induction false} RowRunsShape(row: seq<bool>, i: nat, j: nat)
    requires j <= |row|
    ensures RowRunsFrom(row, i, j, RowRuns(row, i, j))
    decreases |row| - j
  {
    if j == |row| {
    } else if row[j] {
      RowRunsShape(row, i, RunEnd(row, j));
      RowRunsPrepend(row, i, j, RowRuns(row, i, RunEnd(row, j)));
    } else {
      RowRunsShape(row, i, j + 1);
      RowRunsSkip(row, i, j, RowRuns(row, i, j + 1));
    }
  }

  /** A run starting at a filled column `j`, followed by the runs scanned after it. */
  lemma RowRunsPrepend(row: seq<bool>, i: nat, j: nat, rest: seq<Run>)
    requires j < |row| && row[j]
    requires RowRunsFrom(row, i, RunEnd(row, j), rest)
    ensures RowRunsFrom(row, i, j, [Run(i, j, RunEnd(row, j))] + rest)
  {
    var e := RunEnd(row, j);
    var runs := [Run(i, j, e)] + rest;
    forall k | 0 <= k < |rest| ensures e < rest[k].start {
      assert RunFrom(row, i, e, rest[k]);
      assert row[rest[k].start];
    }
    forall k | 0 <= k < |runs| ensures RunFrom(row, i, j, runs[k]) {
      if k > 0 {
        assert runs[k] == rest[k - 1];
        assert RunFrom(row, i, e, rest[k - 1]);
      }
    }
    forall k, k' | 0 <= k < k' < |runs| ensures runs[k].stop < runs[k'].start {
      assert runs[k'] == rest[k' - 1];
      if k > 0 {
        assert runs[k] == rest[k - 1];
      }
    }
  }

  /** Skipping an unfilled column `j` keeps the runs scanned from `j + 1`. */
  lemma RowRunsSkip(row: seq<bool>, i: nat, j: nat, runs: seq<Run>)
    requires j < |row| && !row[j]
    requires RowRunsFrom(row, i, j + 1, runs)
    ensures RowRunsFrom(row, i, j, runs)
  {
    forall k | 0 <= k < |runs| ensures RunFrom(row, i, j, runs[k]) {
      assert RunFrom(row, i, j + 1, runs[k]);
    }
  }

  /** The runs of the first `n` rows are maximal runs of their rows, listed in reading order. */
  predicate GridRunsOk(grid: seq<seq<bool>>, n: nat, runs: seq<Run>)
    requires n <= |grid|
  {
    && (forall k :: 0 <= k < |runs| ==>
      runs[k].row < n && MaximalRun(grid[runs[k].row], runs[k].start, runs[k].stop))
    && (forall k, k' :: 0 <= k < k' < |runs| ==> Before(runs[k], runs[k']))
  }

  lemma {:induction false} GridRunsShape(grid: seq<seq<bool>>, n: nat)
    requires n <= |grid|
    ensures GridRunsOk(grid, n, GridRuns(grid, n))
  {
    if n > 0 {
      GridRunsShape(grid, n - 1);
      RowRunsShape(grid[n - 1], n - 1, 0);
      var prefix, last := GridRuns(grid, n - 1), RowRuns(grid[n - 1], n - 1, 0);
      var runs := prefix + last;
      assert GridRuns(grid, n) == runs;
      forall k | 0 <= k < |runs|
        ensures runs[k].row < n && MaximalRun(grid[runs[k].row], runs[k].start, runs[k].stop)
      {
        if k >= |prefix| {
          assert runs[k] == last[k - |prefix|];
          assert RunFrom(grid[n - 1], n - 1, 0, last[k - |prefix|]);
        }
      }
      forall k, k' | 0 <= k < k' < |runs| ensures Before(runs[k], runs[k']) {
        if k' >= |prefix| {
          assert runs[k'] == last[k' - |prefix|];
          assert RunFrom(grid[n - 1], n - 1, 0, last[k' - |prefix|]);
          if k >= |prefix| {
            assert runs[k] == last[k - |prefix|];
          }
        }
      }
    }
  }

  lemma {:induction false} CommandsAppend(a: seq<Run>, b: seq<Run>)
    ensures Commands(a + b) == Commands(a) + Commands(b)
  {
    if a == [] {
      assert a + b == b;
    } else {
      assert (a + b)[1..] == a[1..] + b;
      CommandsAppend(a[1..], b);
    }
  }

  // ---------------------------------------------------------------------------
  // What the path draws

  /** Run `r` contains cell (i, j). */
  predicate Covers(r: Run, i: int, j: int) {
    r.row == i && r.start <= j < r.stop
  }

  /**
   * Whether drawing `path` with the pen starting at (x, y) paints cell (i, j):
   * `M x' y'` moves the pen; `H x'` paints, in the pen's row, every cell the
   * line passes over between the pen's column and x', and leaves the pen at x'.
   */
  predicate Paints(path: seq<Command>, x: int, y: int, i: int, j: int)
    decreases |path|
  {
    if path == [] then false
    else match path[0]
      case MoveTo(x', y') => Paints(path[1..], x', y', i, j)
      case HorizTo(x') => (i == y && (x <= j < x' || x' <= j < x)) || Paints(path[1..], x', y, i, j)
  }

  /** Some run of `runs` contains cell (i, j). */
  predicate CoveredBy(runs: seq<Run>, i: int, j: int) {
    exists k :: 0 <= k < |runs| && Covers(runs[k], i, j)
  }

  /** The path of a list of runs paints exactly the cells of those runs, wherever the pen starts. */
  lemma {:induction false} PaintsCommands(runs: seq<Run>, x: int, y: int, i: int, j: int)
    requires forall k :: 0 <= k < |runs| ==> runs[k].start <= runs[k].stop
    ensures Paints(Commands(runs), x, y, i, j) <==> CoveredBy(runs, i, j)
  {
    if runs != [] {
      var r, rest := runs[0], runs[1..];
      var path := Commands(runs);
      assert path[1..] == [HorizTo(r.stop)] + Commands(rest);
      assert path[1..][1..] == Commands(rest);
      PaintsCommands(rest, r.stop, r.row, i, j);
      assert Paints(path, x, y, i, j) == (Covers(r, i, j) || Paints(Commands(rest), r.stop, r.row, i, j));
      if CoveredBy(runs, i, j) {
        var k :| 0 <= k < |runs| && Covers(runs[k], i, j);
        if k > 0 {
          assert Covers(rest[k - 1], i, j);
        }
      }
      if CoveredBy(rest, i, j) {
        var k :| 0 <= k < |rest| && Covers(rest[k], i, j);
        assert Covers(runs[k + 1], i, j);
      }
      if Covers(r, i, j) {
        assert Covers(runs[0], i, j);
      }
    }
  }

  /** The runs of a row scanned from column `j` cover exactly its filled cells at or after `j`. */
  lemma {:induction false} RowRunsCover(row: seq<bool>, i: nat, j: nat, c: int)
    requires j <= |row|
    ensures CoveredBy(RowRuns(row, i, j), i, c) <==> j <= c < |row| && row[c]
    decreases |row| - j
  {
    var runs := RowRuns(row, i, j);
    RowRunsShape(row, i, j);
    if CoveredBy(runs, i, c) {
      var k :| 0 <= k < |runs| && Covers(runs[k], i, c);
      assert RunFrom(row, i, j, runs[k]);
    }
    if j < |row| && j <= c < |row| && row[c] {
      if row[j] {
        var e := RunEnd(row, j);
        assert runs == [Run(i, j, e)] + RowRuns(row, i, e);
        if c < e {
          assert Covers(runs[0], i, c);
        } else {
          RowRunsCover(row, i, e, c);
          var k :| 0 <= k < |RowRuns(row, i, e)| && Covers(RowRuns(row, i, e)[k], i, c);
          assert Covers(runs[k + 1], i, c);
        }
        assert CoveredBy(runs, i, c);
      } else {
        assert runs == RowRuns(row, i, j + 1);
        RowRunsCover(row, i, j + 1, c);
      }
    }
  }

  /** The runs listed for row number `i` all lie in row `i`. */
  lemma {:induction false} RowRunsInRow(row: seq<bool>, i: nat, j: nat, k: nat)
    requires j <= |row| && k < |RowRuns(row, i, j)|
    ensures RowRuns(row, i, j)[k].row == i
    decreases |row| - j
  {
    if row[j] {
      var e := RunEnd(row, j);
      assert RowRuns(row, i, j) == [Run(i, j, e)] + RowRuns(row, i, e);
      if k > 0 {
        RowRunsInRow(row, i, e, k - 1);
      }
    } else {
      RowRunsInRow(row, i, j + 1, k);
    }
  }

  /** A cell is covered by two run lists one after the other iff one of them covers it. */
  lemma CoveredByAppend(a: seq<Run>, b: seq<Run>, i: int, c: int)
    ensures CoveredBy(a + b, i, c) <==> CoveredBy(a, i, c) || CoveredBy(b, i, c)
  {
    var runs := a + b;
    if CoveredBy(runs, i, c) {
      var k :| 0 <= k < |runs| && Covers(runs[k], i, c);
      if k < |a| {
        assert Covers(a[k], i, c);
      } else {
        assert Covers(b[k - |a|], i, c);
      }
    }
    if CoveredBy(a, i, c) {
      var k :| 0 <= k < |a| && Covers(a[k], i, c);
      assert Covers(runs[k], i, c);
    }
    if CoveredBy(b, i, c) {
      var k :| 0 <= k < |b| && Covers(b[k], i, c);
      assert Covers(runs[|a| + k], i, c);
    }
  }

  /** The runs of rows 0..n-1 cover exactly the filled cells of those rows. */
  lemma {:induction false} GridRunsCover(grid: seq<seq<bool>>, n: nat, i: int, c: int)
    requires n <= |grid|
    ensures CoveredBy(GridRuns(grid, n), i, c) <==> 0 <= i < n && 0 <= c < |grid[i]| && grid[i][c]
  {
    if n > 0 {
      var prefix, last := GridRuns(grid, n - 1), RowRuns(grid[n - 1], n - 1, 0);
      assert GridRuns(grid, n) == prefix + last;
      CoveredByAppend(prefix, last, i, c);
      GridRunsCover(grid, n - 1, i, c);
      if i == n - 1 {
        RowRunsCover(grid[n - 1], n - 1, 0, c);
      } else {
        assert !CoveredBy(last, i, c) by {
          forall k | 0 <= k < |last| ensures !Covers(last[k], i, c) {
            RowRunsInRow(grid[n - 1], n - 1, 0, k);
          }
        }
      }
    }
  }

  /** Drawing a glyph paints exactly the filled cells of its grid. */
  lemma GlyphPaintsFilledCells(grid: seq<seq<bool>>, i: int, j: int)
    ensures Paints(GlyphPath(grid), 0, 0, i, j) <==> 0 <= i < |grid| && 0 <= j < |grid[i]| && grid[i][j]
  {
    var runs := GridRuns(grid, |grid|);
    GridRunsShape(grid, |grid|);
    PaintsCommands(runs, 0, 0, i, j);
    GridRunsCover(grid, |grid|, i, j);
  }

  /** The glyph of a mask paints cell (i, j) of the preview grid iff the mask formula is 0 there. */
  lemma MaskPaintsFilledCells(expression: (int, int) -> int, i: int, j: int)
    ensures Paints(GlyphPath(Grid(expression)), 0, 0, i, j)
        <==> 0 <= i < PREVIEW_SIZE && 0 <= j < PREVIEW_SIZE && expression(i, j) == 0
  {
    GlyphPaintsFilledCells(Grid(expression), i, j);
  }

  // ---------------------------------------------------------------------------
  // The shape of the path

  /** Command k of the path of `runs`: an `M` for even k, an `H` for odd k, of run k / 2. */
  lemma {:induction false} CommandsAt(runs: seq<Run>, k: nat)
    requires k < 2 * |runs|
    ensures Commands(runs)[k] == if k % 2 == 0 then MoveTo(runs[k / 2].start, runs[k / 2].row)
                                 else HorizTo(runs[k / 2].stop)
  {
    if k >= 2 {
      assert Commands(runs)[k] == Commands(runs[1..])[k - 2];
      CommandsAt(runs[1..], k - 2);
    }
  }

  /**
   * `M` and `H` strictly alternate, starting with `M`; each `M x y` with its
   * following `H x'` is a maximal run x..x'-1 of filled cells of row y; and the
   * `M`s come in reading order (rows top to bottom, columns left to right).
   */
  lemma GlyphShape(grid: seq<seq<bool>>)
    ensures var path := GlyphPath(grid);
      && |path| % 2 == 0
      && (forall k :: 0 <= k < |path| ==> (path[k].MoveTo? <==> k % 2 == 0))
      && (forall k :: 0 <= k < |path| && path[k].MoveTo? ==>
            && k + 1 < |path| && path[k + 1].HorizTo?
            && 0 <= path[k].y < |grid|
            && MaximalRun(grid[path[k].y], path[k].x, path[k + 1].x))
      && (forall k, k' :: 0 <= k < k' < |path| && path[k].MoveTo? && path[k'].MoveTo? ==>
            path[k].y < path[k'].y || (path[k].y == path[k'].y && path[k].x < path[k'].x))
  {
    var runs := GridRuns(grid, |grid|);
    var path := GlyphPath(grid);
    GridRunsShape(grid, |grid|);
    forall k | 0 <= k < |path|
      ensures path[k] == if k % 2 == 0 then MoveTo(runs[k / 2].start, runs[k / 2].row)
                         else HorizTo(runs[k / 2].stop)
    {
      CommandsAt(runs, k);
    }
    forall k | 0 <= k < |path| && path[k].MoveTo?
      ensures k + 1 < |path| && path[k + 1].HorizTo?
      ensures 0 <= path[k].y < |grid| && MaximalRun(grid[path[k].y], path[k].x, path[k + 1].x)
    {
      assert (k + 1) / 2 == k / 2;
    }
    forall k, k' | 0 <= k < k' < |path| && path[k].MoveTo? && path[k'].MoveTo?
      ensures path[k].y < path[k'].y || (path[k].y == path[k'].y && path[k].x < path[k'].x)
    {
      assert k / 2 < k' / 2;
      assert Before(runs[k / 2], runs[k' / 2]);
    }
  }

  /** Two maximal runs of a row that share a cell are the same run. */
  lemma MaximalRunsMeet(row: seq<bool>, s: int, e: int, s': int, e': int, c: int)
    requires MaximalRun(row, s, e) && MaximalRun(row, s', e')
    requires s <= c < e && s' <= c < e'
    ensures s == s' && e == e'
  {
  }

  /** Every maximal run of filled cells is drawn by exactly one `M` and the `H` after it. */
  lemma MaximalRunDrawnOnce(grid: seq<seq<bool>>, i: int, s: int, e: int)
    requires 0 <= i < |grid| && MaximalRun(grid[i], s, e)
    ensures var path := GlyphPath(grid);
      && (exists k :: 0 <= k < |path| - 1 && path[k] == MoveTo(s, i) && path[k + 1] == HorizTo(e))
      && (forall k, k' :: 0 <= k < |path| && 0 <= k' < |path| && path[k] == MoveTo(s, i) && path[k'] == MoveTo(s, i) ==> k == k')
  {
    var runs := GridRuns(grid, |grid|);
    var path := GlyphPath(grid);
    var m := RunIndex(grid, i, s, e);
    CommandsAt(runs, 2 * m);
    CommandsAt(runs, 2 * m + 1);
    assert path[2 * m] == MoveTo(s, i) && path[2 * m + 1] == HorizTo(e);
    GlyphMovesDistinct(grid);
  }

  /** A maximal run of the grid is one of its scanned runs. */
  lemma RunIndex(grid: seq<seq<bool>>, i: int, s: int, e: int) returns (m: nat)
    requires 0 <= i < |grid| && MaximalRun(grid[i], s, e)
    ensures m < |GridRuns(grid, |grid|)| && GridRuns(grid, |grid|)[m] == Run(i, s, e)
  {
    var runs := GridRuns(grid, |grid|);
    GridRunsShape(grid, |grid|);
    GridRunsCover(grid, |grid|, i, s);
    assert grid[i][s];
    m :| 0 <= m < |runs| && Covers(runs[m], i, s);
    MaximalRunsMeet(grid[i], s, e, runs[m].start, runs[m].stop, s);
  }

  /** No two `M` commands of a glyph are equal. */
  lemma GlyphMovesDistinct(grid: seq<seq<bool>>)
    ensures var path := GlyphPath(grid);
      forall k, k' :: 0 <= k < k' < |path| && path[k].MoveTo? && path[k'].MoveTo? ==> path[k] != path[k']
  {
    GlyphShape(grid);
  }

  /** A formula that is nowhere 0 on the preview grid gives the empty path. */
  lemma BlankGlyph(expression: (int, int) -> int)
    requires forall i, j :: 0 <= i < PREVIEW_SIZE && 0 <= j < PREVIEW_SIZE ==> expression(i, j) != 0
    ensures GlyphPath(Grid(expression)) == []
  {
    BlankGridRuns(Grid(expression), PREVIEW_SIZE);
  }

  lemma {:induction false} BlankGridRuns(grid: seq<seq<bool>>, n: nat)
    requires n <= |grid| && forall i, c :: 0 <= i < n && 0 <= c < |grid[i]| ==> !grid[i][c]
    ensures GridRuns(grid, n) == []
  {
    if n > 0 {
      BlankGridRuns(grid, n - 1);
      BlankRowRuns(grid[n - 1], n - 1, 0);
    }
  }

  /** A row with no filled cell at or after `j` has no runs there. */
  lemma {:induction false} BlankRowRuns(row: seq<bool>, i: nat, j: nat)
    requires j <= |row| && forall c :: j <= c < |row| ==> !row[c]
    ensures RowRuns(row, i, j) == []
    decreases |row| - j
  {
    if j < |row| {
      BlankRowRuns(row, i, j + 1);
    }
  }

  /** A formula that is 0 everywhere on the preview grid gives `M0 i H6` for every row i. */
  lemma FullGlyph(expression: (int, int) -> int)
    requires forall i, j :: 0 <= i < PREVIEW_SIZE && 0 <= j < PREVIEW_SIZE ==> expression(i, j) == 0
    ensures GlyphPath(Grid(expression)) ==
      [ MoveTo(0, 0), HorizTo(6), MoveTo(0, 1), HorizTo(6), MoveTo(0, 2), HorizTo(6),
        MoveTo(0, 3), HorizTo(6), MoveTo(0, 4), HorizTo(6), MoveTo(0, 5), HorizTo(6) ]
  {
    var grid := Grid(expression);
    FullGridRuns(grid, PREVIEW_SIZE);
    assert GridRuns(grid, 6) == FULL_RUNS;
    FullCommands();
  }

  /** The runs of a fully filled preview grid: each row from column 0 to 6. */
  const FULL_RUNS: seq<Run> := [Run(0, 0, 6), Run(1, 0, 6), Run(2, 0, 6), Run(3, 0, 6), Run(4, 0, 6), Run(5, 0, 6)]

  /** The path of FULL_RUNS. */
  lemma FullCommands()
    ensures Commands(FULL_RUNS) ==
      [ MoveTo(0, 0), HorizTo(6), MoveTo(0, 1), HorizTo(6), MoveTo(0, 2), HorizTo(6),
        MoveTo(0, 3), HorizTo(6), MoveTo(0, 4), HorizTo(6), MoveTo(0, 5), HorizTo(6) ]
  {
    var runs := FULL_RUNS;
    assert Commands(runs[5..]) == [MoveTo(0, 5), HorizTo(6)];
    assert Commands(runs[4..]) == [MoveTo(0, 4), HorizTo(6)] + Commands(runs[5..]);
    assert Commands(runs[3..]) == [MoveTo(0, 3), HorizTo(6)] + Commands(runs[4..]);
    assert Commands(runs[2..]) == [MoveTo(0, 2), HorizTo(6)] + Commands(runs[3..]);
    assert Commands(runs[1..]) == [MoveTo(0, 1), HorizTo(6)] + Commands(runs[2..]);
  }

  /** When every cell of the first `n` rows is filled, each row is one run spanning it. */
  lemma {:induction false} FullGridRuns(grid: seq<seq<bool>>, n: nat)
    requires n <= |grid| && forall i, c :: 0 <= i < n && 0 <= c < |grid[i]| ==> grid[i][c]
    requires forall i :: 0 <= i < n ==> |grid[i]| > 0
    ensures GridRuns(grid, n) == seq(n, i requires 0 <= i < n => Run(i, 0, |grid[i]|))
  {
    if n > 0 {
      FullGridRuns(grid, n - 1);
      var row := grid[n - 1];
      FullRowEnd(row, 0);
      assert RowRuns(row, n - 1, 0) == [Run(n - 1, 0, |row|)] + RowRuns(row, n - 1, |row|);
    }
  }

  /** In a row with every cell filled, a run from `j` reaches the row end. */
  lemma {:induction false} FullRowEnd(row: seq<bool>, j: nat)
    requires j <= |row| && forall c :: 0 <= c < |row| ==> row[c]
    ensures RunEnd(row, j) == |row|
    decreases |row| - j
  {
    if j < |row| {
      FullRowEnd(row, j + 1);
    }
  }

  /** The glyph depends only on the formula's values on the preview grid. */
  lemma GlyphDependsOnGridOnly(e1: (int, int) -> int, e2: (int, int) -> int)
    requires forall i, j :: 0 <= i < PREVIEW_SIZE && 0 <= j < PREVIEW_SIZE ==> e1(i, j) == e2(i, j)
    ensures GlyphPath(Grid(e1)) == GlyphPath(Grid(e2))
  {
    var g1, g2 := Grid(e1), Grid(e2);
    forall i | 0 <= i < PREVIEW_SIZE ensures g1[i] == g2[i] {
      assert forall j :: 0 <= j < PREVIEW_SIZE ==> g1[i][j] == g2[i][j];
    }
    assert g1 == g2;
  }
}
