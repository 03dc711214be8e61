/**
 * `add_grid` and `_grid_space`: a row-major grid of axes between two
 * corners.  Each axis direction is given either a spacing between cells or
 * a cell size; a size becomes a spacing (or, for a single row or column, a
 * centred cell), the interval between the corners is tiled, and the names
 * are laid out left to right and top to bottom.
 */
module Grid {
  import opened Results
  import opened Metrics
  import opened MetricLaws
  import opened Coordinates
  import opened Registration

  // ---------------------------------------------------------------------
  // Tiling an interval
  // ---------------------------------------------------------------------

  /** The length of each of `count` intervals that tile [frm, to] with `spacing` between neighbours. */
  function CellSize(frm: real, to: real, spacing: real, count: nat): real
    requires count > 0
  {
    ((to - frm) - (count as real - 1.0) * spacing) / count as real
  }

  /** The i-th interval of the tiling. */
  function Cell(frm: real, to: real, spacing: real, count: nat, i: nat): (real, real)
    requires count > 0
  {
    var base := frm + i as real * (CellSize(frm, to, spacing, count) + spacing);
    (base, base + CellSize(frm, to, spacing, count))
  }

  /** `_grid_space(frm, to, spacing, count)`; with no intervals the size computation divides by zero. */
  method GridSpace(frm: real, to: real, spacing: real, count: nat) returns (pos: Result<seq<(real, real)>>)
    ensures count == 0 ==> pos == Err(ZeroDivision)
    ensures count > 0 ==> pos.Ok? && |pos.value| == count
    ensures count > 0 ==> forall i :: 0 <= i < count ==> pos.value[i] == Cell(frm, to, spacing, count, i)
  {
    if count == 0 {
      return Err(ZeroDivision);
    }
    var dist := to - frm;
    var size := (dist - (count as real - 1.0) * spacing) / count as real;
    assert size == CellSize(frm, to, spacing, count);
    var cells: seq<(real, real)> := [];
    for i := 0 to count
      invariant |cells| == i
      invariant forall j :: 0 <= j < i ==> cells[j] == Cell(frm, to, spacing, count, j)
    {
      var base := frm + i as real * (size + spacing);
      SameProduct(i as real, size + spacing, CellSize(frm, to, spacing, count) + spacing);
      cells := cells + [(base, base + size)];
    }
    return Ok(cells);
  }

  lemma SameProduct(a: real, b: real, c: real)
    requires b == c
    ensures a * b == a * c
  {
  }

  lemma TileEnd(d: real, g: real, n: real)
    requires n >= 1.0
    ensures (n - 1.0) * ((d - (n - 1.0) * g) / n + g) + (d - (n - 1.0) * g) / n == d
  {
    var s := (d - (n - 1.0) * g) / n;
    assert s * n == d - (n - 1.0) * g;
    assert (n - 1.0) * (s + g) == (n - 1.0) * s + (n - 1.0) * g;
    assert (n - 1.0) * s + s == n * s;
  }

  lemma NextBase(a: real, k: real)
    ensures (a + 1.0) * k == a * k + k
  {
  }

  /**
   * The tiling starts at frm, ends at to, all its intervals have the same
   * length, and neighbouring intervals are exactly `spacing` apart.
   */
  lemma Tiling(frm: real, to: real, spacing: real, count: nat)
    requires count > 0
    ensures Cell(frm, to, spacing, count, 0).0 == frm
    ensures Cell(frm, to, spacing, count, count - 1).1 == to
    ensures forall i: nat :: i < count ==>
      Cell(frm, to, spacing, count, i).1 - Cell(frm, to, spacing, count, i).0 == CellSize(frm, to, spacing, count)
    ensures forall i: nat :: i + 1 < count ==>
      Cell(frm, to, spacing, count, i + 1).0 - Cell(frm, to, spacing, count, i).1 == spacing
  {
    TilingEnds(frm, to, spacing, count);
    forall i: nat | i + 1 < count
      ensures Cell(frm, to, spacing, count, i + 1).0 - Cell(frm, to, spacing, count, i).1 == spacing
    {
      TilingGap(frm, to, spacing, count, i);
    }
  }

  lemma TilingEnds(frm: real, to: real, spacing: real, count: nat)
    requires count > 0
    ensures Cell(frm, to, spacing, count, 0).0 == frm
    ensures Cell(frm, to, spacing, count, count - 1).1 == to
  {
    TileEnd(to - frm, spacing, count as real);
    assert (count - 1) as real == count as real - 1.0;
  }

  lemma TilingGap(frm: real, to: real, spacing: real, count: nat, i: nat)
    requires i + 1 < count
    ensures Cell(frm, to, spacing, count, i + 1).0 - Cell(frm, to, spacing, count, i).1 == spacing
  {
    NextBase(i as real, CellSize(frm, to, spacing, count) + spacing);
    assert (i + 1) as real == i as real + 1.0;
  }

  /** The spacing `(extent - size * count) / (count - 1)` that leaves `count` intervals of the given size. */
  function Spread(extent: real, size: real, count: nat): real
    requires count > 1
  {
    (extent - size * count as real) / (count as real - 1.0)
  }

  /** A size turned into a spacing gives intervals of exactly that size. */
  lemma SpacingForSize(frm: real, to: real, size: real, count: nat)
    requires count > 1
    ensures CellSize(frm, to, Spread(to - frm, size, count), count) == size
  {
    var n := count as real;
    var g := ((to - frm) - size * n) / (n - 1.0);
    assert (n - 1.0) * g == (to - frm) - size * n;
    assert ((to - frm) - (n - 1.0) * g) == size * n;
  }

  // ---------------------------------------------------------------------
  // Rows and columns
  // ---------------------------------------------------------------------

  /** `len(names)//nrows + int(len(names) % nrows != 0)`. */
  function Columns(n: nat, nrows: nat): nat
    requires nrows > 0
  {
    n / nrows + (if n % nrows != 0 then 1 else 0)
  }

  /** The number of columns is the least that holds every name in nrows rows. */
  lemma ColumnsIsCeiling(n: nat, nrows: nat)
    requires nrows > 0
    ensures Columns(n, nrows) * nrows >= n
    ensures Columns(n, nrows) > 0 ==> (Columns(n, nrows) - 1) * nrows < n
    ensures Columns(n, nrows) == 0 <==> n == 0
  {
    var q, m := n / nrows, n % nrows;
    assert n == q * nrows + m;
    if m != 0 {
      assert (q + 1) * nrows == q * nrows + nrows;
    }
  }

  lemma RowInRange(i: nat, ncols: nat, nrows: nat)
    requires ncols > 0 && i < ncols * nrows
    ensures i / ncols < nrows && i % ncols < ncols
  {
    var q := i / ncols;
    assert q * ncols <= i;
  }

  // ---------------------------------------------------------------------
  // The arrangement
  // ---------------------------------------------------------------------

  /** How one direction of the grid is given: `spacing_x`/`spacing_y` or `size_x`/`size_y`. */
  datatype Spec = SpacingOf(v: Metric) | SizeOf(v: Metric)

  /**
   * `spacing=` and `size=` stand for their width() as the horizontal and
   * their height() as the vertical specification.
   */
  function SpacingBoth(v: Metric, anchor: string): (s: (Spec, Spec))
    requires IsVectorKind(v)
    ensures s.0.SpacingOf? && s.1.SpacingOf? && IsVectorKind(s.0.v) && IsVectorKind(s.1.v)
  {
    (SpacingOf(WidthOf(v, anchor)), SpacingOf(HeightOf(v, anchor)))
  }

  function SizeBoth(v: Metric, anchor: string): (s: (Spec, Spec))
    requires IsVectorKind(v)
    ensures s.0.SizeOf? && s.1.SizeOf? && IsVectorKind(s.0.v) && IsVectorKind(s.1.v)
  {
    (SizeOf(WidthOf(v, anchor)), SizeOf(HeightOf(v, anchor)))
  }

  /** The resolved corners `pt_ll` and `pt_ur`. */
  datatype Box = Box(llx: real, lly: real, urx: real, ury: real)

  /** Where the cells go: the corners after centring, the spacing between cells in each direction, and the grid's shape. */
  datatype Plan = Plan(box: Box, gapX: real, gapY: real, ncols: nat, nrows: nat)

  /**
   * One direction of `add_grid` before the spacing is resolved: a spacing
   * is kept as it is; a size with several cells becomes the spacing
   * `(extent - size * count) / (count - 1)`, computed on Vectors whose other
   * component is 0; a size with one cell gives spacing 0 and moves both
   * corners by half the slack, `(extent - size) / 2`; a size with no cells
   * leaves no spacing at all.
   */
  function Settle(r: Registry, spec: Spec, count: nat, b: Box, horizontal: bool): (res: Result<(Box, Option<Metric>)>)
    requires Resolvable(r)
  {
    if spec.SpacingOf? then Ok((b, Some(spec.v)))
    else
      var s :- Length(r, spec.v);
      var U := Universe(r.rev);
      var ex := if horizontal then b.urx - b.llx else 0.0;
      var ey := if horizontal then 0.0 else b.ury - b.lly;
      if count > 1 then
        Ok((b, Some(Vec(Spread(ex, s.x, count), Spread(ey, s.y, count), U))))
      else if count == 1 then
        var dx := (ex - s.x) / 2.0;
        var dy := (ey - s.y) / 2.0;
        Ok((Box(b.llx + dx, b.lly + dy, b.urx - dx, b.ury - dy), Some(Vec(s.x * 0.0, s.y * 0.0, U))))
      else Ok((b, None))
  }

  /**
   * The arithmetic of `add_grid`, in the order the source performs it:
   * the argument checks, the column count, the corners, the horizontal
   * then the vertical size, the two spacings, and the tiling of the
   * columns (which fails for an empty grid).
   */
  function Arrange(r: Registry, n: nat, nrows: nat, posLL: Metric, posUR: Metric, specX: Spec, specY: Spec): (res: Result<Plan>)
    requires Resolvable(r)
    ensures res.Ok? ==> res.value.nrows == nrows > 0 && res.value.ncols == Columns(n, nrows) > 0
    ensures res.Ok? ==> Fits(res.value, n)
  {
    if nrows == 0 || !IsPointKind(posLL) || !IsPointKind(posUR) || !IsVectorKind(specX.v) || !IsVectorKind(specY.v) then
      Err(TypeMismatch)
    else
      var ncols := Columns(n, nrows);
      var ll :- Coord(r, posLL);
      var ur :- Coord(r, posUR);
      var xs :- Settle(r, specX, ncols, Box(ll.x, ll.y, ur.x, ur.y), true);
      var ys :- Settle(r, specY, nrows, xs.0, false);
      if xs.1.None? then Err(TypeMismatch)
      else
        var gx :- Length(r, xs.1.value);
        if ys.1.None? then Err(TypeMismatch)
        else
          var gy :- Length(r, ys.1.value);
          ColumnsIsCeiling(n, nrows);
          if ncols == 0 then Err(ZeroDivision)
          else Ok(Plan(ys.0, gx.x, gy.y, ncols, nrows))
  }

  // ---------------------------------------------------------------------
  // What the arrangement promises
  // ---------------------------------------------------------------------

  lemma ResolvedSpacing(r: Registry, x: real, y: real)
    requires Resolvable(r)
    ensures Length(r, Vec(x, y, Universe(r.rev))) == Ok(Vec(x, y, Universe(r.rev)))
  {
  }

  /** The steps of a successful arrangement. */
  lemma ArrangeSteps(r: Registry, n: nat, nrows: nat, posLL: Metric, posUR: Metric, specX: Spec, specY: Spec)
    requires Resolvable(r) && Arrange(r, n, nrows, posLL, posUR, specX, specY).Ok?
    ensures Coord(r, posLL).Ok? && Coord(r, posUR).Ok?
    ensures
      var xs := Settle(r, specX, Columns(n, nrows),
        Box(Coord(r, posLL).value.x, Coord(r, posLL).value.y, Coord(r, posUR).value.x, Coord(r, posUR).value.y), true);
      xs.Ok? && xs.value.1.Some? && Length(r, xs.value.1.value).Ok?
      && var ys := Settle(r, specY, nrows, xs.value.0, false);
      ys.Ok? && ys.value.1.Some? && Length(r, ys.value.1.value).Ok?
      && Arrange(r, n, nrows, posLL, posUR, specX, specY).value
        == Plan(ys.value.0, Length(r, xs.value.1.value).value.x, Length(r, ys.value.1.value).value.y, Columns(n, nrows), nrows)
  {
  }

  lemma CellSizeOfSame(a: real, b: real, a': real, b': real, g: real, count: nat)
    requires count > 0 && a == a' && b == b'
    ensures CellSize(a, b, g, count) == CellSize(a', b', g, count)
  {
  }

  /**
   * A size in one direction gives cells of that size once its spacing is
   * resolved: for several cells the derived spacing leaves exactly that
   * size, and a single cell is centred between the corners.
   */
  lemma SettleGivesSize(r: Registry, spec: Spec, count: nat, b: Box, horizontal: bool)
    requires Resolvable(r) && spec.SizeOf? && count > 0 && Settle(r, spec, count, b, horizontal).Ok?
    ensures Settle(r, spec, count, b, horizontal).value.1.Some?
    ensures Length(r, Settle(r, spec, count, b, horizontal).value.1.value).Ok?
    ensures horizontal ==>
      CellSize(Settle(r, spec, count, b, horizontal).value.0.llx, Settle(r, spec, count, b, horizontal).value.0.urx,
               Length(r, Settle(r, spec, count, b, horizontal).value.1.value).value.x, count)
      == Length(r, spec.v).value.x
    ensures !horizontal ==>
      CellSize(Settle(r, spec, count, b, horizontal).value.0.lly, Settle(r, spec, count, b, horizontal).value.0.ury,
               Length(r, Settle(r, spec, count, b, horizontal).value.1.value).value.y, count)
      == Length(r, spec.v).value.y
    ensures count == 1 ==>
      Settle(r, spec, count, b, horizontal).value.0.llx + Settle(r, spec, count, b, horizontal).value.0.urx == b.llx + b.urx
      && Settle(r, spec, count, b, horizontal).value.0.lly + Settle(r, spec, count, b, horizontal).value.0.ury == b.lly + b.ury
  {
    if count > 1 {
      SettleSeveral(r, spec, count, b, horizontal);
    } else {
      SettleSingle(r, spec, b, horizontal);
    }
  }

  lemma SettleSeveral(r: Registry, spec: Spec, count: nat, b: Box, horizontal: bool)
    requires Resolvable(r) && spec.SizeOf? && count > 1 && Settle(r, spec, count, b, horizontal).Ok?
    ensures
      var st := Settle(r, spec, count, b, horizontal).value;
      var s := Length(r, spec.v).value;
      st.0 == b && st.1.Some? && Length(r, st.1.value).Ok?
      && (horizontal ==> CellSize(b.llx, b.urx, Length(r, st.1.value).value.x, count) == s.x)
      && (!horizontal ==> CellSize(b.lly, b.ury, Length(r, st.1.value).value.y, count) == s.y)
  {
    var s := Length(r, spec.v).value;
    var ex := if horizontal then b.urx - b.llx else 0.0;
    var ey := if horizontal then 0.0 else b.ury - b.lly;
    ResolvedSpacing(r, Spread(ex, s.x, count), Spread(ey, s.y, count));
    if horizontal {
      SpacingForSize(b.llx, b.urx, s.x, count);
    } else {
      SpacingForSize(b.lly, b.ury, s.y, count);
    }
  }

  lemma SettleSingle(r: Registry, spec: Spec, b: Box, horizontal: bool)
    requires Resolvable(r) && spec.SizeOf? && Settle(r, spec, 1, b, horizontal).Ok?
    ensures
      var st := Settle(r, spec, 1, b, horizontal).value;
      var s := Length(r, spec.v).value;
      st.1.Some? && Length(r, st.1.value).Ok?
      && (horizontal ==> CellSize(st.0.llx, st.0.urx, Length(r, st.1.value).value.x, 1) == s.x)
      && (!horizontal ==> CellSize(st.0.lly, st.0.ury, Length(r, st.1.value).value.y, 1) == s.y)
      && st.0.llx + st.0.urx == b.llx + b.urx && st.0.lly + st.0.ury == b.lly + b.ury
  {
    var s := Length(r, spec.v).value;
    ResolvedSpacing(r, s.x * 0.0, s.y * 0.0);
  }

  /** The vertical step leaves the columns where they were unless a single row's size has an x component. */
  lemma SettleKeepsColumns(r: Registry, spec: Spec, count: nat, b: Box)
    requires Resolvable(r) && Settle(r, spec, count, b, false).Ok?
    requires spec.SizeOf? && count == 1 ==> Length(r, spec.v).value.x == 0.0
    ensures Settle(r, spec, count, b, false).value.0.llx == b.llx
    ensures Settle(r, spec, count, b, false).value.0.urx == b.urx
  {
  }

  /** With the row height given, every row is that high. */
  lemma RowHeightIsSize(r: Registry, n: nat, nrows: nat, posLL: Metric, posUR: Metric, specX: Spec, specY: Spec)
    requires Resolvable(r) && specY.SizeOf?
    requires Arrange(r, n, nrows, posLL, posUR, specX, specY).Ok?
    ensures CellSize(Arrange(r, n, nrows, posLL, posUR, specX, specY).value.box.lly,
                     Arrange(r, n, nrows, posLL, posUR, specX, specY).value.box.ury,
                     Arrange(r, n, nrows, posLL, posUR, specX, specY).value.gapY, nrows)
      == Length(r, specY.v).value.y
  {
    ArrangeSteps(r, n, nrows, posLL, posUR, specX, specY);
    var ll := Coord(r, posLL).value;
    var ur := Coord(r, posUR).value;
    var xs := Settle(r, specX, Columns(n, nrows), Box(ll.x, ll.y, ur.x, ur.y), true).value;
    SettleGivesSize(r, specY, nrows, xs.0, false);
  }

  /**
   * With the column width given, every column is that wide, provided the
   * vertical size does not move the corners sideways (a `size_y` whose x
   * component is 0, as every Height is).
   */
  lemma ColumnWidthIsSize(r: Registry, n: nat, nrows: nat, posLL: Metric, posUR: Metric, specX: Spec, specY: Spec)
    requires Resolvable(r) && specX.SizeOf?
    requires Arrange(r, n, nrows, posLL, posUR, specX, specY).Ok?
    requires specY.SizeOf? && nrows == 1 ==> Length(r, specY.v).value.x == 0.0
    ensures CellSize(Arrange(r, n, nrows, posLL, posUR, specX, specY).value.box.llx,
                     Arrange(r, n, nrows, posLL, posUR, specX, specY).value.box.urx,
                     Arrange(r, n, nrows, posLL, posUR, specX, specY).value.gapX,
                     Arrange(r, n, nrows, posLL, posUR, specX, specY).value.ncols)
      == Length(r, specX.v).value.x
  {
    ArrangeSteps(r, n, nrows, posLL, posUR, specX, specY);
    var ll := Coord(r, posLL).value;
    var ur := Coord(r, posUR).value;
    var b0 := Box(ll.x, ll.y, ur.x, ur.y);
    var ncols := Columns(n, nrows);
    var xs := Settle(r, specX, ncols, b0, true).value;
    var ys := Settle(r, specY, nrows, xs.0, false).value;
    SettleGivesSize(r, specX, ncols, b0, true);
    SettleKeepsColumns(r, specY, nrows, xs.0);
    CellSizeOfSame(xs.0.llx, xs.0.urx, ys.0.llx, ys.0.urx, Length(r, xs.1.value).value.x, ncols);
  }

  /** A single row of given height is centred on the band between the corners. */
  lemma SingleRowCentred(r: Registry, n: nat, posLL: Metric, posUR: Metric, specX: Spec, specY: Spec)
    requires Resolvable(r) && specY.SizeOf?
    requires Arrange(r, n, 1, posLL, posUR, specX, specY).Ok?
    ensures Arrange(r, n, 1, posLL, posUR, specX, specY).value.box.lly
          + Arrange(r, n, 1, posLL, posUR, specX, specY).value.box.ury
        == Settle(r, specX, Columns(n, 1), Box(Coord(r, posLL).value.x, Coord(r, posLL).value.y,
                  Coord(r, posUR).value.x, Coord(r, posUR).value.y), true).value.0.lly
         + Settle(r, specX, Columns(n, 1), Box(Coord(r, posLL).value.x, Coord(r, posLL).value.y,
                  Coord(r, posUR).value.x, Coord(r, posUR).value.y), true).value.0.ury
  {
    ArrangeSteps(r, n, 1, posLL, posUR, specX, specY);
    var ll := Coord(r, posLL).value;
    var ur := Coord(r, posUR).value;
    var xs := Settle(r, specX, Columns(n, 1), Box(ll.x, ll.y, ur.x, ur.y), true).value;
    SettleGivesSize(r, specY, 1, xs.0, false);
  }

  /** With a spacing given, neighbouring columns are that spacing apart once it is resolved. */
  lemma SpacingIsKept(r: Registry, n: nat, nrows: nat, posLL: Metric, posUR: Metric, specX: Spec, specY: Spec)
    requires Resolvable(r)
    requires Arrange(r, n, nrows, posLL, posUR, specX, specY).Ok?
    ensures specX.SpacingOf? ==> Arrange(r, n, nrows, posLL, posUR, specX, specY).value.gapX == Length(r, specX.v).value.x
    ensures specY.SpacingOf? ==> Arrange(r, n, nrows, posLL, posUR, specX, specY).value.gapY == Length(r, specY.v).value.y
  {
  }

  /** An empty grid fails: with sizes there is no horizontal spacing to resolve, with spacings no column to tile. */
  lemma EmptyGridFails(r: Registry, nrows: nat, posLL: Metric, posUR: Metric, specX: Spec, specY: Spec)
    requires Resolvable(r)
    ensures Arrange(r, 0, nrows, posLL, posUR, specX, specY).Err?
  {
    if nrows > 0 {
      ColumnsIsCeiling(0, nrows);
    }
  }

  // ---------------------------------------------------------------------
  // Where each name goes
  // ---------------------------------------------------------------------

  /** The plan has room for n names. */
  predicate Fits(p: Plan, n: nat) {
    p.ncols > 0 && p.nrows > 0 && n <= p.ncols * p.nrows
  }

  /**
   * The corners of the i-th cell: column `i % ncols` of the horizontal
   * tiling and row `i // ncols` counted from the top, that is interval
   * `nrows - 1 - i // ncols` of the vertical tiling counted from the bottom.
   */
  function Corners(p: Plan, i: nat, U: string): (c: (Metric, Metric))
    requires Fits(p, i + 1)
    ensures c.0.Pt? && c.1.Pt? && c.0.tag == U && c.1.tag == U
  {
    RowInRange(i, p.ncols, p.nrows);
    var cx := Cell(p.box.llx, p.box.urx, p.gapX, p.ncols, i % p.ncols);
    var cy := Cell(p.box.lly, p.box.ury, p.gapY, p.nrows, p.nrows - 1 - i / p.ncols);
    (Pt(cx.0, cy.0, U), Pt(cx.1, cy.1, U))
  }

  /** `xs` is the horizontal tiling of the plan and `rows` its vertical tiling, top row first. */
  predicate Tiles(p: Plan, xs: seq<(real, real)>, rows: seq<(real, real)>) {
    p.ncols > 0 && p.nrows > 0 && |xs| == p.ncols && |rows| == p.nrows
    && (forall j :: 0 <= j < p.ncols ==> xs[j] == Cell(p.box.llx, p.box.urx, p.gapX, p.ncols, j))
    && (forall j :: 0 <= j < p.nrows ==> rows[j] == Cell(p.box.lly, p.box.ury, p.gapY, p.nrows, p.nrows - 1 - j))
  }

  /**
   * The corners of the i-th cell are what indexing the horizontal tiling
   * `xs` and the reversed vertical tiling `rows` gives.
   */
  lemma GridCorners(p: Plan, i: nat, U: string, xs: seq<(real, real)>, rows: seq<(real, real)>)
    requires Fits(p, i + 1) && Tiles(p, xs, rows)
    ensures i % p.ncols < |xs| && i / p.ncols < |rows|
    ensures Corners(p, i, U) == (Pt(xs[i % p.ncols].0, rows[i / p.ncols].0, U), Pt(xs[i % p.ncols].1, rows[i / p.ncols].1, U))
  {
    RowInRange(i, p.ncols, p.nrows);
  }

  /** Division by a positive number has one quotient and one remainder. */
  lemma DivUnique(x: int, c: int, q: int, m: int)
    requires c > 0 && 0 <= m < c && x == q * c + m
    ensures x / c == q && x % c == m
  {
    var q', m' := x / c, x % c;
    assert x == q' * c + m';
    Distinct(q, q', c);
    assert (q - q') * c == m' - m;
  }

  lemma Distinct(q: int, q': int, c: int)
    requires c > 0
    ensures q == q' || (q - q') * c >= c || (q - q') * c <= -c
  {
    if q > q' {
      Grow(q - q' - 1, c);
    } else if q < q' {
      Grow(q' - q - 1, c);
      assert (q - q') * c == -((q' - q) * c);
    }
  }

  lemma Grow(d: nat, c: int)
    requires c > 0
    ensures (d + 1) * c >= c
  {
    assert (d + 1) * c == d * c + c;
  }

  /** The first row touches the top of the grid and the first column its left side. */
  lemma FirstRowAtTop(p: Plan, i: nat, U: string)
    requires Fits(p, i + 1)
    ensures i < p.ncols ==> Corners(p, i, U).1.y == p.box.ury
    ensures i % p.ncols == 0 ==> Corners(p, i, U).0.x == p.box.llx
  {
    TilingEnds(p.box.llx, p.box.urx, p.gapX, p.ncols);
    TilingEnds(p.box.lly, p.box.ury, p.gapY, p.nrows);
    if i < p.ncols {
      DivUnique(i, p.ncols, 0, i);
    }
  }

  /** Each row sits one vertical spacing below the one before it. */
  lemma NextRowBelow(p: Plan, i: nat, U: string)
    requires Fits(p, i + 1) && i >= p.ncols
    ensures Corners(p, i - p.ncols, U).0.y - Corners(p, i, U).1.y == p.gapY
  {
    var q, m := i / p.ncols, i % p.ncols;
    DivUnique(i, p.ncols, q, m);
    DivUnique(i - p.ncols, p.ncols, q - 1, m);
    RowInRange(i, p.ncols, p.nrows);
    TilingGap(p.box.lly, p.box.ury, p.gapY, p.nrows, p.nrows - 1 - q);
  }

  /** Within a row, each cell sits one horizontal spacing right of the one before it. */
  lemma NextColumnRight(p: Plan, i: nat, U: string)
    requires Fits(p, i + 2) && i % p.ncols + 1 < p.ncols
    ensures Corners(p, i + 1, U).0.x - Corners(p, i, U).1.x == p.gapX
  {
    var q, m := i / p.ncols, i % p.ncols;
    DivUnique(i, p.ncols, q, m);
    DivUnique(i + 1, p.ncols, q, m + 1);
    TilingGap(p.box.llx, p.box.urx, p.gapX, p.ncols, m);
  }

  /** The corners of the cells of the first n names. */
  function Layout(p: Plan, n: nat, U: string): (cs: seq<(Metric, Metric)>)
    requires Fits(p, n)
    ensures |cs| == n && forall i :: 0 <= i < n ==> cs[i] == Corners(p, i, U)
  {
    seq(n, i requires 0 <= i < n => Corners(p, i, U))
  }

  /** Two Points already in the universal system U. */
  predicate Resolved2(c: (Metric, Metric), U: string) {
    c.0.Pt? && c.1.Pt? && c.0.tag == U && c.1.tag == U
  }

  /**
   * The first n turns of the loop over the names: an `add_axis` call for
   * each name that is not None, with the corners of its cell, stopping at
   * the first one that fails (the failing call changes nothing, the
   * earlier ones stay).
   */
  function PlaceAxes(r: Registry, names: seq<Option<string>>, cs: seq<(Metric, Metric)>, n: nat): (out: (Registry, Outcome))
    requires Resolvable(r) && |cs| == |names| && n <= |names|
    ensures Resolvable(out.0) && out.0.rev == r.rev && out.0.size == r.size && out.0.units == r.units
  {
    if n == 0 then (r, Pass)
    else Place(PlaceAxes(r, names, cs, n - 1), names[n - 1], cs[n - 1])
  }

  /** One turn of the loop: nothing after a failure, nothing for None, otherwise `add_axis`. */
  function Place(prev: (Registry, Outcome), name: Option<string>, c: (Metric, Metric)): (out: (Registry, Outcome))
    requires Resolvable(prev.0)
    ensures Resolvable(out.0) && out.0.rev == prev.0.rev && out.0.size == prev.0.size && out.0.units == prev.0.units
    ensures prev.1.Fail? || name.None? ==> out == prev
    ensures out.1.Pass? && name.Some? ==> NewAxis(prev.0, name.value, c.0, c.1) == Ok(out.0)
    ensures prev.1.Pass? && out.1.Fail? ==> out.0 == prev.0
  {
    if prev.1.Fail? || name.None? then prev
    else
      match NewAxis(prev.0, name.value, c.0, c.1)
      case Ok(s) => (s, Pass)
      case Err(e) => (prev.0, Fail(e))
  }

  /** After i names that all went through, the next turn starts from their registry. */
  lemma PlaceNext(r: Registry, names: seq<Option<string>>, cs: seq<(Metric, Metric)>, i: nat, s: Registry, c: (Metric, Metric))
    requires Resolvable(r) && |cs| == |names| && i < |names|
    requires PlaceAxes(r, names, cs, i) == (s, Pass) && cs[i] == c
    ensures Resolvable(s)
    ensures PlaceAxes(r, names, cs, i + 1) == Place((s, Pass), names[i], c)
  {
  }

  /** Once a name fails, the rest of the loop is never run. */
  lemma {:induction false} FailureSticks(r: Registry, names: seq<Option<string>>, cs: seq<(Metric, Metric)>, k: nat, m: nat)
    requires Resolvable(r) && |cs| == |names| && k <= m <= |names|
    requires PlaceAxes(r, names, cs, k).1.Fail?
    ensures PlaceAxes(r, names, cs, m) == PlaceAxes(r, names, cs, k)
    decreases m
  {
    if k < m {
      FailureSticks(r, names, cs, k, m - 1);
    }
  }

  /**
   * When the loop gets through, every name has its axis, whose unit square
   * is its cell's.
   */
  lemma {:induction false} AxesPlaced(r: Registry, names: seq<Option<string>>, cs: seq<(Metric, Metric)>, n: nat, i: nat)
    requires Resolvable(r) && |cs| == |names| && n <= |names|
    requires PlaceAxes(r, names, cs, n).1.Pass? && i < n && names[i].Some?
    requires Resolved2(cs[i], Universe(r.rev))
    decreases n
    ensures names[i].value in PlaceAxes(r, names, cs, n).0.axes
    ensures PlaceAxes(r, names, cs, n).0.axes[names[i].value].box == AxisBox(r, cs[i].0, cs[i].1)
  {
    var prev := PlaceAxes(r, names, cs, n - 1);
    assert prev.1.Pass?;
    if i < n - 1 {
      AxesPlaced(r, names, cs, n - 1, i);
      EarlierAxis(prev, names[n - 1], cs[n - 1], names[i].value);
    } else {
      LastAxis(prev, names[i].value, cs[i]);
      SameAxisBox(prev.0, r, cs[i].0, cs[i].1);
    }
  }

  /** The turn for a name gives it the box of its cell. */
  lemma LastAxis(prev: (Registry, Outcome), name: string, c: (Metric, Metric))
    requires Resolvable(prev.0) && Place(prev, Some(name), c).1.Pass? && Resolved2(c, Universe(prev.0.rev))
    ensures name in Place(prev, Some(name), c).0.axes
    ensures Place(prev, Some(name), c).0.axes[name].box == AxisBox(prev.0, c.0, c.1)
  {
    AxisAdded(prev.0, name, c.0, c.1);
  }

  /** A turn of the loop leaves the axes already placed as they were. */
  lemma EarlierAxis(prev: (Registry, Outcome), name: Option<string>, c: (Metric, Metric), other: string)
    requires Resolvable(prev.0) && Place(prev, name, c).1.Pass? && other in prev.0.axes
    ensures other in Place(prev, name, c).0.axes
    ensures Place(prev, name, c).0.axes[other] == prev.0.axes[other]
  {
    if prev.1.Pass? && name.Some? {
      AxisKept(prev.0, name.value, c.0, c.1, other);
    }
  }

  /** The loop keeps every coordinate system the canvas had. */
  lemma {:induction false} PlacingKeepsFrames(r: Registry, names: seq<Option<string>>, cs: seq<(Metric, Metric)>, n: nat)
    requires Resolvable(r) && |cs| == |names| && n <= |names|
    decreases n
    ensures KeepsFrames(r, PlaceAxes(r, names, cs, n).0)
  {
    if n > 0 {
      var prev := PlaceAxes(r, names, cs, n - 1);
      PlacingKeepsFrames(r, names, cs, n - 1);
      PlaceKeepsFrames(r, prev, names[n - 1], cs[n - 1]);
    }
  }

  /** One turn of the loop keeps every coordinate system the canvas had before the loop. */
  lemma PlaceKeepsFrames(r: Registry, prev: (Registry, Outcome), name: Option<string>, c: (Metric, Metric))
    requires Resolvable(r) && Resolvable(prev.0) && KeepsFrames(r, prev.0)
    ensures KeepsFrames(r, Place(prev, name, c).0)
  {
    if prev.1.Pass? && name.Some? && NewAxis(prev.0, name.value, c.0, c.1).Ok? {
      NewAxisKeepsFrames(prev.0, name.value, c.0, c.1);
      KeepsFramesChains(r, prev.0, NewAxis(prev.0, name.value, c.0, c.1).value);
    }
  }

  lemma KeepsFramesChains(r1: Registry, r2: Registry, r3: Registry)
    requires Valid(r1) && Valid(r2) && Valid(r3) && KeepsFrames(r1, r2) && KeepsFrames(r2, r3)
    ensures KeepsFrames(r1, r3)
  {
    forall t | Frame(r1, t).Some?
      ensures Frame(r3, t) == Frame(r1, t)
    {
      assert Frame(r2, t) == Frame(r1, t);
    }
  }

  /**
   * The whole of `add_grid` once the arrangement is known: the axes, then,
   * if a unit name is given and every axis was added, a unit whose (0, 0)
   * is the lower left and (1, 1) the upper right corner of the grid.
   */
  function GridEffect(r: Registry, names: seq<Option<string>>, p: Plan, unitName: Option<string>): (out: (Registry, Outcome))
    requires Resolvable(r) && Fits(p, |names|)
    ensures Resolvable(out.0) && out.0.rev == r.rev
  {
    GridUnit(PlaceAxes(r, names, Layout(p, |names|, Universe(r.rev)), |names|), p, unitName)
  }

  /** The tail of `add_grid`: after the axes, the unit spanning the grid, if one is named and nothing failed. */
  function GridUnit(placed: (Registry, Outcome), p: Plan, unitName: Option<string>): (out: (Registry, Outcome))
    requires Resolvable(placed.0)
    ensures Resolvable(out.0) && out.0.rev == placed.0.rev
  {
    if placed.1.Fail? || unitName.None? then placed
    else
      var U := Universe(placed.0.rev);
      var b := p.box;
      match NewUnit(placed.0, unitName.value, Vec(b.urx - b.llx, b.ury - b.lly, U), Pt(b.llx, b.lly, U))
      case Ok(s) => (s, Pass)
      case Err(e) => (placed.0, Fail(e))
  }

  /**
   * The grid's own unit, once added, puts (0, 0) at the lower left and
   * (1, 1) at the upper right corner of the grid.
   */
  lemma GridUnitSpans(placed: (Registry, Outcome), p: Plan, name: string)
    requires Resolvable(placed.0) && GridUnit(placed, p, Some(name)).1.Pass?
    ensures placed.1.Pass?
    ensures Coord(GridUnit(placed, p, Some(name)).0, Pt(0.0, 0.0, name)) == Ok(Pt(p.box.llx, p.box.lly, Universe(placed.0.rev)))
    ensures Coord(GridUnit(placed, p, Some(name)).0, Pt(1.0, 1.0, name)) == Ok(Pt(p.box.urx, p.box.ury, Universe(placed.0.rev)))
  {
    var r := placed.0;
    var U := Universe(r.rev);
    var b := p.box;
    var scale := Vec(b.urx - b.llx, b.ury - b.lly, U);
    var origin := Pt(b.llx, b.lly, U);
    ResolvedSpacing(r, b.urx - b.llx, b.ury - b.lly);
    assert Coord(r, origin) == Ok(origin);
    UnitMeaning(r, name, scale, origin, 0.0, 0.0);
    UnitMeaning(r, name, scale, origin, 1.0, 1.0);
    assert GridUnit(placed, p, Some(name)).0 == NewUnit(r, name, scale, origin).value;
    var f := Affine(b.urx - b.llx, b.ury - b.lly, b.llx, b.lly);
    assert Coordinates.Place(f, 1.0, 1.0, U) == Pt(b.urx, b.ury, U);
  }
}
