/**
 * The per-core chart grid of the CPU tab (`CPUTabBuilder._build_per_core_charts`):
 * how many cores, how many grid columns, where each core's chart goes and
 * which palette colour it uses.
 */
module CpuTab {
  import opened Wrappers
  import opened Text

  /** Number of colours in the per-core palette (`CORE_COLORS`). */
  const PaletteSize: nat := 12

  /** `psutil.cpu_count(logical=True) or 1`: an unknown or zero count becomes 1. */
  function CoreCount(cpuCount: Option<nat>): (n: nat)
    ensures n >= 1
    ensures cpuCount.Some? && cpuCount.value > 0 ==> n == cpuCount.value
  {
    if cpuCount.Some? && cpuCount.value > 0 then cpuCount.value else 1
  }

  /** `int(math.sqrt(n))` for naturals: the largest `r` with `r * r <= n`. */
  function ISqrt(n: nat): (r: nat)
    ensures r * r <= n < (r + 1) * (r + 1)
    decreases n
  {
    if n == 0 then 0
    else
      var r0 := ISqrt(n - 1);
      if (r0 + 1) * (r0 + 1) <= n then r0 + 1 else r0
  }

  /** `min(4, max(1, int(math.sqrt(n)) + 1))` */
  function Columns(n: nat): (cols: nat)
    ensures 1 <= cols <= 4
    ensures cols == 4 || cols * cols > n
    ensures cols < 4 ==> (cols - 1) * (cols - 1) <= n
    ensures cols == 4 <==> n >= 9
  {
    var r := ISqrt(n) + 1;
    if r < 4 then
      assert r == 1 || r == 2 || r == 3;
      r
    else
      MulStep(2, r - 1, r - 1);
      MulStep(2, 3, r - 1);
      4
  }

  /**
   * The column count is determined by its contract: a width `c` of at most 4
   * that is 4 exactly from 9 cores on, and otherwise has `(c-1)² <= n < c²`,
   * is `Columns(n)`.
   */
  lemma ColumnsUnique(n: nat, c: nat)
    requires 1 <= c <= 4 && (c == 4 <==> n >= 9)
    requires c < 4 ==> (c - 1) * (c - 1) <= n < c * c
    ensures c == Columns(n)
  {
    var r := ISqrt(n);
    if c < 4 {
      assert r * r <= n < (r + 1) * (r + 1);
      if r < c - 1 {
        MulStep(r, c - 1, r + 1);
        MulStep(r, c - 1, c - 1);
      } else if r > c - 1 {
        MulStep(c - 1, r, r);
        MulStep(c - 1, r, c);
      }
    }
  }

  /** The title of core `i`'s chart, `f"CPU{i}"`. */
  function CoreTitle(i: nat): string {
    "CPU" + NatToString(i)
  }

  /** One cell of the grid: the chart title, its palette index and its grid position. */
  datatype CoreCell = CoreCell(title: string, colorIndex: nat, row: nat, col: nat, freqText: string)

  /** `r, c = divmod(i, cols)` and colour `i % 12`, for core `i`. */
  function Cell(i: nat, cols: nat, title: string): (c: CoreCell)
    requires cols >= 1
    ensures c.col < cols && c.colorIndex < PaletteSize
    ensures c.row * cols + c.col == i
    ensures c.colorIndex == i % PaletteSize
  {
    CoreCell(title, i % PaletteSize, i / cols, i % cols, "-- MHz")
  }

  /**
   * The grid built for `n` cores: one cell (chart plus frequency label) per
   * core, in index order, titled with its index.
   */
  function Grid(n: nat): (cells: seq<CoreCell>)
    ensures |cells| == n
    ensures forall i :: 0 <= i < n ==> cells[i].title == CoreTitle(i) && cells[i].freqText == "-- MHz"
    ensures forall i :: 0 <= i < n ==> cells[i].colorIndex == i % PaletteSize
    ensures forall i :: 0 <= i < n ==> cells[i].col < Columns(n)
    ensures forall i :: 0 <= i < n ==> cells[i].row * Columns(n) + cells[i].col == i
  {
    var cols := Columns(n);
    seq(n, i requires 0 <= i < n => Cell(i, cols, CoreTitle(i)))
  }

  /** Different cores occupy different grid cells. */
  lemma {:induction false} GridCellsDistinct(n: nat, i: nat, j: nat)
    requires i < n && j < n && i != j
    ensures var g := Grid(n); (g[i].row, g[i].col) != (g[j].row, g[j].col)
    ensures var g := Grid(n); g[i].title != g[j].title
  {
    var g := Grid(n);
    assert "CPU" + NatToString(i) != "CPU" + NatToString(j) by {
      if "CPU" + NatToString(i) == "CPU" + NatToString(j) {
        assert ("CPU" + NatToString(i))[3..] == NatToString(i);
        assert ("CPU" + NatToString(j))[3..] == NatToString(j);
        NatToStringInjective(i, j);
      }
    }
    var cols := Columns(n);
    assert g[i].row * cols + g[i].col == i;
    assert g[j].row * cols + g[j].col == j;
  }

  /** A larger multiplier is at least one whole factor more. */
  lemma {:induction false} MulStep(a: nat, b: nat, c: nat)
    requires a < b
    ensures a * c + c <= b * c
    decreases b - a
  {
    assert (a + 1) * c == a * c + c;
    if a + 1 < b {
      MulStep(a + 1, b, c);
    }
  }

  /** A position `row * cols + col` with `col < cols` determines its row and column. */
  lemma DivUnique(r1: nat, k1: nat, r2: nat, k2: nat, c: nat)
    requires c >= 1 && k1 < c && k2 < c && r1 * c + k1 == r2 * c + k2
    ensures r1 == r2 && k1 == k2
  {
    if r1 < r2 {
      MulStep(r1, r2, c);
    } else if r2 < r1 {
      MulStep(r2, r1, c);
    }
  }

  /** The position after `(r1, k1)` in a row-major grid of width `c`. */
  lemma NextPosition(r1: nat, k1: nat, r2: nat, k2: nat, c: nat)
    requires c >= 1 && k1 < c && k2 < c && r1 * c + k1 + 1 == r2 * c + k2
    ensures (r2 == r1 && k2 == k1 + 1) || (r2 == r1 + 1 && k2 == 0 && k1 == c - 1)
  {
    if k1 + 1 < c {
      DivUnique(r2, k2, r1, k1 + 1, c);
    } else {
      assert (r1 + 1) * c == r1 * c + c;
      DivUnique(r2, k2, r1 + 1, 0, c);
    }
  }

  /** Cells fill the grid row by row: core `i + 1` follows core `i` in the same row or starts the next. */
  lemma RowMajorOrder(n: nat, i: nat)
    requires i + 1 < n
    ensures var g := Grid(n);
      (g[i + 1].row == g[i].row && g[i + 1].col == g[i].col + 1)
      || (g[i + 1].row == g[i].row + 1 && g[i + 1].col == 0 && g[i].col == Columns(n) - 1)
  {
    var g := Grid(n);
    NextPosition(g[i].row, g[i].col, g[i + 1].row, g[i + 1].col, Columns(n));
  }
}
