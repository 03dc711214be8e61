/**
 * The registry side of a canvas: `add_unit`, `set_default_unit` and the
 * bookkeeping part of `add_axis`, as functions from one registry to the
 * next.  Each check the source makes (an `assert` in cand/canvas.py, a
 * paranoid-scientist `requires` or `accepts` in canvas.py) raises when it
 * fails and leaves the canvas as it was; here it is an `Err`.
 */
module Registration {
  import opened Results
  import opened Metrics
  import opened MetricLaws
  import opened Coordinates

  // ---------------------------------------------------------------------
  // The operations
  // ---------------------------------------------------------------------

  /**
   * `add_unit(name, scale, origin)`: the scale Vector and the origin Point
   * are resolved once, and the unit stores the resolved x scale, y scale
   * and origin.
   */
  function NewUnit(r: Registry, name: string, scale: Metric, origin: Metric): (res: Result<Registry>)
    requires Resolvable(r) && WellKinded(origin)
    ensures res.Ok? <==>
      IsVectorKind(scale) && IsPointKind(origin) && IsValidIdentifier(r, name)
      && Length(r, scale).Ok? && Coord(r, origin).Ok?
    ensures res.Ok? ==> Resolvable(res.value) && res.value.rev == r.rev && !IsValidIdentifier(res.value, name)
  {
    if !IsVectorKind(scale) || !IsPointKind(origin) then Err(TypeMismatch)
    else if !IsValidIdentifier(r, name) then Err(InvalidIdentifier)
    else
      var s :- Length(r, scale);
      var o :- Coord(r, origin);
      var r' := r.(units := r.units[name := Unit(s.x, s.y, o)]);
      ResolutionKeepsKind(r, origin);
      ReservedUnprefixed();
      IsUnitGrows(r, r', r.defaultUnit);
      Ok(r')
  }

  /** `set_default_unit(name)`: any name `is_unit` accepts, "default" included. */
  function WithDefault(r: Registry, name: string): (res: Result<Registry>)
    requires Valid(r)
    ensures res.Ok? <==> IsUnit(r, name)
    ensures res.Ok? ==> Valid(res.value) && res.value.defaultUnit == name
    ensures res.Ok? ==> res.value.units == r.units && res.value.axes == r.axes && res.value.size == r.size
  {
    if IsUnit(r, name) then
      var r' := r.(defaultUnit := name);
      IsUnitGrows(r, r', name);
      Ok(r')
    else Err(InvalidIdentifier)
  }

  /**
   * The unit square of a new axis, in the universal system, from its corners
   * resolved there.  cand/canvas.py places the matplotlib axes in figure
   * fractions (corner divided by the size) and reads its unit square back
   * through transAxes and the inverse of the inch transform (times the
   * size); canvas.py works in figure fractions throughout.
   */
  function AxisBox(r: Registry, ll: Metric, ur: Metric): (f: Affine)
    requires IsConcrete(ll) && IsConcrete(ur) && r.size.0 > 0.0 && r.size.1 > 0.0
  {
    if r.rev == Current then
      var fll := Pt(ll.x / r.size.0, ll.y / r.size.1, Figure);
      var fur := Pt(ur.x / r.size.0, ur.y / r.size.1, Figure);
      Affine((fur.x - fll.x) * r.size.0, (fur.y - fll.y) * r.size.1, fll.x * r.size.0, fll.y * r.size.1)
    else
      Affine(ur.x - ll.x, ur.y - ll.y, ll.x, ll.y)
  }

  /**
   * `add_axis(name, pos_ll, pos_ur)`, registry part: a new axis whose data
   * limits are matplotlib's initial (0, 1) on both axes, so that its data
   * transform is its unit square.
   */
  function NewAxis(r: Registry, name: string, ll: Metric, ur: Metric): (res: Result<Registry>)
    requires Resolvable(r)
    ensures res.Ok? <==>
      IsPointKind(ll) && IsPointKind(ur) && IsValidIdentifier(r, name)
      && Coord(r, ll).Ok? && Coord(r, ur).Ok?
    ensures res.Ok? ==> Resolvable(res.value) && res.value.rev == r.rev && !IsValidIdentifier(res.value, name)
    ensures res.Ok? ==> name in res.value.axes && res.value.units == r.units && res.value.axes.Keys == r.axes.Keys + {name}
  {
    if !IsPointKind(ll) || !IsPointKind(ur) then Err(TypeMismatch)
    else if !IsValidIdentifier(r, name) then Err(InvalidIdentifier)
    else
      var a :- Coord(r, ll);
      var b :- Coord(r, ur);
      var box := AxisBox(r, a, b);
      var r' := r.(axes := r.axes[name := Axis(box, box)]);
      IsUnitGrows(r, r', r.defaultUnit);
      IsUnitGrows(r', r', name);
      Ok(r')
  }

  // ---------------------------------------------------------------------
  // Nothing that resolved before changes meaning
  // ---------------------------------------------------------------------

  /** Every coordinate system of r1 means the same in r2. */
  ghost predicate KeepsFrames(r1: Registry, r2: Registry)
    requires Valid(r1) && Valid(r2)
  {
    r1.rev == r2.rev && forall t :: Frame(r1, t).Some? ==> Frame(r2, t) == Frame(r1, t)
  }

  /** A valid identifier names no coordinate system, with or without the "axis_" prefix. */
  lemma FreshNameHasNoFrame(r: Registry, name: string)
    requires Valid(r) && IsValidIdentifier(r, name)
    ensures Frame(r, name).None? && Frame(r, AxisPrefix + name).None?
  {
    ReservedUnprefixed();
    ValidIdentifierExactly(r, name);
    PrefixOf(name);
    assert name != Default && name != Universe(r.rev);
    assert AxisPrefix + name !in r.units && AxisPrefix + name !in r.axes;
  }

  lemma NewUnitKeepsFrames(r: Registry, name: string, scale: Metric, origin: Metric)
    requires Resolvable(r) && WellKinded(origin) && NewUnit(r, name, scale, origin).Ok?
    ensures KeepsFrames(r, NewUnit(r, name, scale, origin).value)
    ensures Frame(NewUnit(r, name, scale, origin).value, name)
      == Some(Affine(Length(r, scale).value.x, Length(r, scale).value.y,
                     Coord(r, origin).value.x, Coord(r, origin).value.y))
  {
    var r' := NewUnit(r, name, scale, origin).value;
    FreshNameHasNoFrame(r, name);
    ReservedUnprefixed();
    forall t | Frame(r, t).Some?
      ensures Frame(r', t) == Frame(r, t)
    {
      if t == Default {
        assert Frame(r, r.defaultUnit).Some?;
        assert r.defaultUnit != name;
      }
    }
  }

  lemma NewAxisKeepsFrames(r: Registry, name: string, ll: Metric, ur: Metric)
    requires Resolvable(r) && NewAxis(r, name, ll, ur).Ok?
    ensures KeepsFrames(r, NewAxis(r, name, ll, ur).value)
  {
    var r' := NewAxis(r, name, ll, ur).value;
    FreshNameHasNoFrame(r, name);
    forall t | Frame(r, t).Some?
      ensures Frame(r', t) == Frame(r, t)
    {
      if t == Default {
        assert Frame(r, r.defaultUnit).Some?;
        assert r.defaultUnit != name && r.defaultUnit != AxisPrefix + name;
        NotPrefixedName(r.defaultUnit, name);
      } else {
        NotPrefixedName(t, name);
      }
    }
  }

  /** A name with the prefix whose rest is n is "axis_" + n. */
  lemma NotPrefixedName(t: string, n: string)
    requires t != AxisPrefix + n
    ensures HasAxisPrefix(t) ==> t[5..] != n
  {
  }

  /**
   * Whatever resolves in r1 resolves to the same value in a registry that
   * keeps r1's coordinate systems: registering a unit or an axis never
   * changes the meaning of a Point, a Vector or an expression.
   */
  lemma {:induction false} ResolutionsSurvive(r1: Registry, r2: Registry, m: Metric)
    requires Resolvable(r1) && Resolvable(r2) && KeepsFrames(r1, r2)
    requires Coord(r1, m).Ok?
    decreases Rank(m), 1
    ensures Coord(r2, m) == Coord(r1, m)
  {
    match m
    case Pt(x, y, t) =>
      PointResolution(r1, x, y, t);
      PointResolution(r2, x, y, t);
    case Vec(x, y, t) =>
      VectorResolution(r1, x, y, t);
      VectorResolution(r2, x, y, t);
    case BinPt(a, _, b) =>
      OperandSurvives(r1, r2, a);
      OperandSurvives(r1, r2, b);
    case BinVec(a, _, b) =>
      OperandSurvives(r1, r2, a);
      OperandSurvives(r1, r2, b);
  }

  lemma {:induction false} OperandSurvives(r1: Registry, r2: Registry, o: Operand)
    requires Resolvable(r1) && Resolvable(r2) && KeepsFrames(r1, r2)
    decreases OperandRank(o), 2
    ensures ResolveOperand(r1, o).Ok? ==> ResolveOperand(r2, o) == ResolveOperand(r1, o)
  {
    if o.M? && ResolveOperand(r1, o).Ok? {
      ResolutionsSurvive(r1, r2, o.m);
    }
  }

  // ---------------------------------------------------------------------
  // What the new coordinate systems mean
  // ---------------------------------------------------------------------

  /**
   * A Point (x, y) in a new unit sits at `origin + (x*sx, y*sy)` and a
   * Vector (x, y) in it measures `(x*sx, y*sy)`, whatever the origin.
   */
  lemma UnitMeaning(r: Registry, name: string, scale: Metric, origin: Metric, x: real, y: real)
    requires Resolvable(r) && WellKinded(origin) && NewUnit(r, name, scale, origin).Ok?
    ensures Coord(NewUnit(r, name, scale, origin).value, Pt(x, y, name)) ==
      Ok(Place(Affine(Length(r, scale).value.x, Length(r, scale).value.y,
                      Coord(r, origin).value.x, Coord(r, origin).value.y), x, y, Universe(r.rev)))
    ensures Coord(NewUnit(r, name, scale, origin).value, Vec(x, y, name)) ==
      Ok(Stretch(Affine(Length(r, scale).value.x, Length(r, scale).value.y,
                        Coord(r, origin).value.x, Coord(r, origin).value.y), x, y, Universe(r.rev)))
  {
    var r' := NewUnit(r, name, scale, origin).value;
    NewUnitKeepsFrames(r, name, scale, origin);
    PointResolution(r', x, y, name);
    VectorResolution(r', x, y, name);
  }

  lemma ScaleBack(a: real, s: real)
    requires s != 0.0
    ensures (a / s) * s == a
  {
  }

  lemma SpanBack(a: real, b: real, s: real)
    requires s != 0.0
    ensures (b / s - a / s) * s + (a / s) * s == b
  {
    ScaleBack(a, s);
    ScaleBack(b, s);
    assert (b / s - a / s) * s == (b / s) * s - (a / s) * s;
  }

  /** The unit square of a box runs from its first to its second corner. */
  lemma AxisBoxCorners(r: Registry, ll: Metric, ur: Metric)
    requires IsConcrete(ll) && IsConcrete(ur) && r.size.0 > 0.0 && r.size.1 > 0.0
    ensures AxisBox(r, ll, ur).ox == ll.x && AxisBox(r, ll, ur).oy == ll.y
    ensures AxisBox(r, ll, ur).sx + AxisBox(r, ll, ur).ox == ur.x
    ensures AxisBox(r, ll, ur).sy + AxisBox(r, ll, ur).oy == ur.y
  {
    if r.rev == Current {
      ScaleBack(ll.x, r.size.0);
      ScaleBack(ll.y, r.size.1);
      SpanBack(ll.x, ur.x, r.size.0);
      SpanBack(ll.y, ur.y, r.size.1);
    }
  }

  /**
   * After `add_axis(name, pos_ll, pos_ur)`, "axis_" + name puts (0, 0) at
   * pos_ll and (1, 1) at pos_ur, and the new axis' data coordinates start
   * out the same as its unit square.
   */
  lemma AxisSpansCorners(r: Registry, name: string, ll: Metric, ur: Metric, x: real, y: real)
    requires Resolvable(r) && NewAxis(r, name, ll, ur).Ok?
    ensures Coord(NewAxis(r, name, ll, ur).value, Pt(0.0, 0.0, AxisPrefix + name)).Ok?
    ensures Coord(NewAxis(r, name, ll, ur).value, Pt(0.0, 0.0, AxisPrefix + name)).value.x == Coord(r, ll).value.x
    ensures Coord(NewAxis(r, name, ll, ur).value, Pt(0.0, 0.0, AxisPrefix + name)).value.y == Coord(r, ll).value.y
    ensures Coord(NewAxis(r, name, ll, ur).value, Pt(1.0, 1.0, AxisPrefix + name)).Ok?
    ensures Coord(NewAxis(r, name, ll, ur).value, Pt(1.0, 1.0, AxisPrefix + name)).value.x == Coord(r, ur).value.x
    ensures Coord(NewAxis(r, name, ll, ur).value, Pt(1.0, 1.0, AxisPrefix + name)).value.y == Coord(r, ur).value.y
    ensures Coord(NewAxis(r, name, ll, ur).value, Pt(x, y, name))
      == Coord(NewAxis(r, name, ll, ur).value, Pt(x, y, AxisPrefix + name))
  {
    var r' := NewAxis(r, name, ll, ur).value;
    var a := Coord(r, ll).value;
    var b := Coord(r, ur).value;
    var box := AxisBox(r, a, b);
    assert r'.axes[name] == Axis(box, box);
    ReservedUnprefixed();
    PrefixOf(name);
    assert Frame(r', AxisPrefix + name) == Some(box);
    assert Frame(r', name) == Some(box);
    AxisBoxCorners(r, a, b);
    PointResolution(r', 0.0, 0.0, AxisPrefix + name);
    PointResolution(r', 1.0, 1.0, AxisPrefix + name);
    PointResolution(r', x, y, AxisPrefix + name);
    PointResolution(r', x, y, name);
  }

  /** A new axis with corners already in the universal system gets the box of those corners. */
  lemma AxisAdded(r: Registry, name: string, ll: Metric, ur: Metric)
    requires Resolvable(r) && NewAxis(r, name, ll, ur).Ok?
    requires ll.Pt? && ur.Pt? && ll.tag == Universe(r.rev) && ur.tag == Universe(r.rev)
    ensures NewAxis(r, name, ll, ur).value.axes == r.axes[name := Axis(AxisBox(r, ll, ur), AxisBox(r, ll, ur))]
  {
    assert Coord(r, ll) == Ok(ll) && Coord(r, ur) == Ok(ur);
  }

  /** Adding an axis leaves every other axis as it was. */
  lemma AxisKept(r: Registry, name: string, ll: Metric, ur: Metric, other: string)
    requires Resolvable(r) && NewAxis(r, name, ll, ur).Ok? && other in r.axes
    ensures other in NewAxis(r, name, ll, ur).value.axes
    ensures NewAxis(r, name, ll, ur).value.axes[other] == r.axes[other]
  {
    assert other != name;
  }

  /** The box of an axis depends only on the revision and the size of the canvas. */
  lemma SameAxisBox(r1: Registry, r2: Registry, ll: Metric, ur: Metric)
    requires IsConcrete(ll) && IsConcrete(ur) && r1.size.0 > 0.0 && r1.size.1 > 0.0
    requires r1.rev == r2.rev && r1.size == r2.size
    ensures AxisBox(r1, ll, ur) == AxisBox(r2, ll, ur)
  {
  }
}
