/** The point field behind the animated dot-grid background: the dot records,
    the component's props and the grid the dots are laid out on. Everything
    here is a value; how a dot moves is in DotMotion, and the object that
    owns the dots is in DotField.

    Floating point is idealised as `real`. `Math.sqrt` is a parameter `sqrt`
    that the lemmas assume to be the true square root (IsRoot), and the unit
    vector `(cos(atan2(dy, dx)), sin(atan2(dy, dx)))` is `(dx / d, dy / d)`,
    or `(1, 0)` where `d = 0` because `atan2(0, 0) = 0`. */
module DotGrid {
  import opened RealMath

  // ---------------------------------------------------------------- data

  /** One dot: where it is drawn, its home position on the grid, how far it is
      displaced from home, and its current opacity and scale. */
  datatype Dot = Dot(x: real, y: real,
                     originalX: real, originalY: real,
                     offsetX: real, offsetY: real,
                     opacity: real, scale: real)

  /** The component's props. The colours only matter to the drawing. */
  datatype Config = Config(dotSize: real, gap: real,
                           baseColor: string, activeColor: string,
                           proximity: real,
                           shockRadius: real, shockStrength: real,
                           resistance: real, returnDuration: real)

  /** The props' default values. */
  const Defaults: Config := Config(10.0, 15.0, "#5227FF", "#5227FF", 120.0, 250.0, 5.0, 750.0, 1.5)

  /** The pointer as the mouse handlers leave it: surface-local position and
      whether it is over the surface. */
  datatype Pointer = Pointer(x: real, y: real, isActive: bool)

  /** What is drawn for one dot: a circle of `radius` at (x, y) with alpha
      `alpha`, filled with `color`, with a shadow blur of `glow`. */
  datatype Mark = Mark(x: real, y: real, radius: real, alpha: real, color: string, glow: real)

  /** The divisors the source uses without a guard are non-zero (and the grid
      spacing positive, otherwise the layout loop would not end). */
  predicate WellFormed(cfg: Config) {
    cfg.gap > 0.0 && cfg.proximity > 0.0 && cfg.shockRadius > 0.0 && cfg.resistance > 0.0
  }

  /** `sqrt` is the square root on the non-negative reals. */
  ghost predicate IsRoot(sqrt: real -> real) {
    forall x: real :: 0.0 <= x ==> 0.0 <= sqrt(x) && sqrt(x) * sqrt(x) == x
  }

  const RestOpacity: real := 0.3
  const RestScale: real := 1.0
  /** Fraction of the way to its target that opacity and scale move per frame. */
  const Smoothing: real := 0.1


  /** The default props are well formed, and their return step
      (`returnDuration / resistance = 0.002`) is in the range where a
      displacement only shrinks (see DotMotion.ReturnNeverGrows). */
  lemma DefaultsWellFormed()
    ensures WellFormed(Defaults) && Defaults.shockStrength >= 0.0
    ensures 0.0 < Defaults.returnDuration <= 2.0 * Defaults.resistance
    ensures Defaults.returnDuration / Defaults.resistance == 0.002
  {
  }

  /** Opacity and scale within the bounds their targets keep to. */
  predicate InRange(dot: Dot) {
    RestOpacity <= dot.opacity <= 1.0 && RestScale <= dot.scale <= 1.8
  }

  // -------------------------------------------------------------- layout

  /** Number of grid lines along an extent: `Math.floor(extent / gap)`. */
  function Count(extent: nat, gap: real): (n: nat)
    requires gap > 0.0
    ensures n as real * gap <= extent as real < (n + 1) as real * gap
  {
    var q := extent as real / gap;
    assert q * gap == extent as real;
    MulLe(0.0, extent as real, 1.0 / gap);
    var n := q.Floor;
    MulLe(n as real, q, gap);
    MulLt(q, (n + 1) as real, gap);
    n
  }

  /** Distance from the edge to the first grid line: `(extent - (n - 1) * gap) / 2`.
      The grid is centred: the margin after the last line is the same, and each
      margin is at least half a gap and less than a whole one. */
  function Margin(extent: nat, gap: real): (m: real)
    requires gap > 0.0
    ensures gap / 2.0 <= m < gap
    ensures m + (Count(extent, gap) - 1) as real * gap == extent as real - m
  {
    (extent as real - (Count(extent, gap) - 1) as real * gap) / 2.0
  }

  /** A dot as it is built: at home, undisplaced, at rest opacity and scale. */
  function Home(x: real, y: real): Dot {
    Dot(x, y, x, y, 0.0, 0.0, RestOpacity, RestScale)
  }

  /** The `rows` dots of the column at `x`, top to bottom from `top`. */
  function Column(x: real, top: real, gap: real, rows: nat): seq<Dot> {
    seq(rows, j => Home(x, top + j as real * gap))
  }

  /** The first `n` columns of a grid whose top-left dot is at (left, top),
      left to right. */
  function Columns(left: real, top: real, gap: real, rows: nat, n: nat): seq<Dot> {
    if n == 0 then []
    else Columns(left, top, gap, rows, n - 1) + Column(left + (n - 1) as real * gap, top, gap, rows)
  }

  /** The whole grid for a surface of `width` by `height`, in the order it is built. */
  function Layout(width: nat, height: nat, gap: real): seq<Dot>
    requires gap > 0.0
  {
    Columns(Margin(width, gap), Margin(height, gap), gap, Count(height, gap), Count(width, gap))
  }

  lemma ScaleMono(a: int, b: int, gap: real)
    requires a <= b && gap > 0.0
    ensures a as real * gap <= b as real * gap
  {
    assert b as real * gap - a as real * gap == (b - a) as real * gap;
  }

  lemma {:induction false} ColumnsLength(left: real, top: real, gap: real, rows: nat, n: nat)
    ensures |Columns(left, top, gap, rows, n)| == n * rows
  {
    if n > 0 {
      ColumnsLength(left, top, gap, rows, n - 1);
      assert (n - 1) * rows + rows == n * rows;
    }
  }

  lemma ColumnAt(x: real, top: real, gap: real, rows: nat, j: nat)
    requires j < rows
    ensures Column(x, top, gap, rows)[j] == Home(x, top + j as real * gap)
  {
    assert Column(x, top, gap, rows)[j].y == top + j as real * gap;
  }

  /** Building more columns only appends: the first m columns are a prefix
      of the first n. */
  lemma {:induction false} ColumnsPrefix(left: real, top: real, gap: real, rows: nat, m: nat, n: nat)
    requires m <= n
    ensures Columns(left, top, gap, rows, m) <= Columns(left, top, gap, rows, n)
  {
    if m < n {
      ColumnsPrefix(left, top, gap, rows, m, n - 1);
    }
  }

  /** Column-major order: the dot at index `i * rows + j` of the first `n`
      columns is the fresh dot at `(left + i * gap, top + j * gap)`. */
  lemma ColumnsAt(left: real, top: real, gap: real, rows: nat, n: nat, i: nat, j: nat)
    requires i < n && j < rows
    ensures i * rows + j < |Columns(left, top, gap, rows, n)|
    ensures Columns(left, top, gap, rows, n)[i * rows + j] == Home(left + i as real * gap, top + j as real * gap)
  {
    var upto := Columns(left, top, gap, rows, i + 1);
    ColumnsPrefix(left, top, gap, rows, i + 1, n);
    ColumnsLength(left, top, gap, rows, i);
    ColumnsLength(left, top, gap, rows, i + 1);
    ColumnsLength(left, top, gap, rows, n);
    var k := i * rows + j;
    assert k < |upto|;
    var column := Column(left + i as real * gap, top, gap, rows);
    assert upto == Columns(left, top, gap, rows, i) + column;
    assert upto[k] == column[j];
    ColumnAt(left + i as real * gap, top, gap, rows, j);
    assert Columns(left, top, gap, rows, n)[k] == upto[k];
  }

  /** The full grid: exactly `floor(W / gap) * floor(H / gap)` dots, and the
      dot at index `i * rows + j` is the fresh dot of column i, row j, at
      `(marginX + i * gap, marginY + j * gap)`. */
  lemma LayoutAt(width: nat, height: nat, gap: real, i: nat, j: nat)
    requires gap > 0.0
    ensures |Layout(width, height, gap)| == Count(width, gap) * Count(height, gap)
    ensures i < Count(width, gap) && j < Count(height, gap) ==>
      Layout(width, height, gap)[i * Count(height, gap) + j]
        == Home(Margin(width, gap) + i as real * gap, Margin(height, gap) + j as real * gap)
  {
    var left, top, rows, cols := Margin(width, gap), Margin(height, gap), Count(height, gap), Count(width, gap);
    ColumnsLength(left, top, gap, rows, cols);
    if i < cols && j < rows {
      ColumnsAt(left, top, gap, rows, cols, i, j);
    }
  }

  /** A dot as it is built: at its home, undisplaced, at rest. */
  predicate Fresh(d: Dot) {
    d == Home(d.originalX, d.originalY)
  }

  /** The dot's home lies in the box `[x0, x1] x [y0, y1]`. */
  predicate HomeWithin(d: Dot, x0: real, x1: real, y0: real, y1: real) {
    x0 <= d.originalX <= x1 && y0 <= d.originalY <= y1
  }

  /** Every dot of a column is fresh, on the column's line, and between its
      first and last row. */
  lemma ColumnInside(x: real, top: real, gap: real, rows: nat)
    requires gap > 0.0
    ensures forall j :: 0 <= j < rows ==>
      Fresh(Column(x, top, gap, rows)[j]) &&
      HomeWithin(Column(x, top, gap, rows)[j], x, x, top, top + (rows - 1) as real * gap)
  {
    forall j | 0 <= j < rows
      ensures Fresh(Column(x, top, gap, rows)[j])
      ensures HomeWithin(Column(x, top, gap, rows)[j], x, x, top, top + (rows - 1) as real * gap)
    {
      ColumnAt(x, top, gap, rows, j);
      ScaleMono(0, j, gap);
      ScaleMono(j, rows - 1, gap);
    }
  }

  /** Every dot of the first `n` columns is fresh, and lies inside the box
      `[left, left + (n - 1) * gap] x [top, top + (rows - 1) * gap]`. */
  lemma {:induction false} ColumnsInside(left: real, top: real, gap: real, rows: nat, n: nat)
    requires gap > 0.0
    ensures forall k :: 0 <= k < |Columns(left, top, gap, rows, n)| ==>
      Fresh(Columns(left, top, gap, rows, n)[k]) &&
      HomeWithin(Columns(left, top, gap, rows, n)[k],
                 left, left + (n - 1) as real * gap, top, top + (rows - 1) as real * gap)
  {
    if n > 0 {
      var x := left + (n - 1) as real * gap;
      var bottom := top + (rows - 1) as real * gap;
      ColumnsInside(left, top, gap, rows, n - 1);
      ColumnInside(x, top, gap, rows);
      assert left + (n - 2) as real * gap <= x by { ScaleMono(n - 2, n - 1, gap); }
      assert left <= x by { ScaleMono(0, n - 1, gap); }
      var before, column := Columns(left, top, gap, rows, n - 1), Column(x, top, gap, rows);
      var all := Columns(left, top, gap, rows, n);
      assert all == before + column;
      forall k | 0 <= k < |all|
        ensures Fresh(all[k]) && HomeWithin(all[k], left, x, top, bottom)
      {
        if k < |before| {
          assert all[k] == before[k];
        } else {
          assert all[k] == column[k - |before|];
        }
      }
    }
  }

  /** A grid whose first and last lines are strictly inside `(0, W) x (0, H)`
      has all its dots strictly inside. */
  lemma GridInside(left: real, top: real, gap: real, rows: nat, cols: nat, width: real, height: real)
    requires gap > 0.0 && 0.0 < left && 0.0 < top
    requires left + (cols as int - 1) as real * gap < width
    requires top + (rows as int - 1) as real * gap < height
    ensures forall k :: 0 <= k < |Columns(left, top, gap, rows, cols)| ==>
      Fresh(Columns(left, top, gap, rows, cols)[k]) &&
      0.0 < Columns(left, top, gap, rows, cols)[k].originalX < width &&
      0.0 < Columns(left, top, gap, rows, cols)[k].originalY < height
  {
    ColumnsInside(left, top, gap, rows, cols);
  }

  /** Every built dot is fresh (at home, no offset, opacity 0.3, scale 1) and
      sits strictly inside `(0, W) x (0, H)`; nothing is built on an empty surface. */
  lemma LayoutInside(width: nat, height: nat, gap: real)
    requires gap > 0.0
    ensures forall k :: 0 <= k < |Layout(width, height, gap)| ==>
      Fresh(Layout(width, height, gap)[k]) && InRange(Layout(width, height, gap)[k]) &&
      0.0 < Layout(width, height, gap)[k].originalX < width as real &&
      0.0 < Layout(width, height, gap)[k].originalY < height as real
    ensures width == 0 || height == 0 ==> Layout(width, height, gap) == []
  {
    var left, top, rows, cols := Margin(width, gap), Margin(height, gap), Count(height, gap), Count(width, gap);
    GridInside(left, top, gap, rows, cols, width as real, height as real);
    ColumnsLength(left, top, gap, rows, cols);
    if width == 0 || height == 0 {
      assert cols == 0 || rows == 0;
      assert cols * rows == 0;
    }
  }

  /** A 400 by 400 surface with gap 20 gets a 20 by 20 grid starting 10
      from each edge; resized to 800 by 400 it gets 40 columns of 20. */
  lemma ExampleGrids()
    ensures Count(400, 20.0) == 20 && Margin(400, 20.0) == 10.0 && |Layout(400, 400, 20.0)| == 400
    ensures Count(800, 20.0) == 40 && |Layout(800, 400, 20.0)| == 800
  {
    LayoutAt(400, 400, 20.0, 0, 0);
    LayoutAt(800, 400, 20.0, 0, 0);
  }

  /** Grid construction: `cols = floor(W / gap)` columns of `rows = floor(H / gap)`
      dots each, centred on the surface. */
  method BuildGrid(width: nat, height: nat, gap: real) returns (dots: seq<Dot>)
    requires gap > 0.0
    ensures dots == Layout(width, height, gap)
  {
    var cols := Count(width, gap);
    var rows := Count(height, gap);
    var offsetX := (width as real - (cols as int - 1) as real * gap) / 2.0;
    var offsetY := (height as real - (rows as int - 1) as real * gap) / 2.0;
    assert offsetX == Margin(width, gap) && offsetY == Margin(height, gap);
    dots := PushColumns(offsetX, offsetY, gap, cols, rows);
  }

  /** The construction loop: for each column i, for each row j, push a fresh
      dot at `(offsetX + i * gap, offsetY + j * gap)`. */
  method PushColumns(offsetX: real, offsetY: real, gap: real, cols: nat, rows: nat) returns (dots: seq<Dot>)
    ensures dots == Columns(offsetX, offsetY, gap, rows, cols)
  {
    dots := [];
    for i := 0 to cols
      invariant dots == Columns(offsetX, offsetY, gap, rows, i)
    {
      ghost var column := Column(offsetX + i as real * gap, offsetY, gap, rows);
      for j := 0 to rows
        invariant dots == Columns(offsetX, offsetY, gap, rows, i) + column[..j]
      {
        var x := offsetX + i as real * gap;
        var y := offsetY + j as real * gap;
        ColumnAt(x, offsetY, gap, rows, j);
        assert column[..j + 1] == column[..j] + [Dot(x, y, x, y, 0.0, 0.0, 0.3, 1.0)];
        dots := dots + [Dot(x, y, x, y, 0.0, 0.0, 0.3, 1.0)];
      }
      assert column[..rows] == column;
      assert Columns(offsetX, offsetY, gap, rows, i + 1) == Columns(offsetX, offsetY, gap, rows, i) + column;
    }
  }
}
