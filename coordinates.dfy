/**
 * The coordinate registry and resolver of a CanD canvas.
 *
 * A canvas knows its size in inches, a default unit, its registered units and
 * its axes.  The resolver turns any Point, Vector or deferred node into a
 * concrete value in one universal coordinate system: "absolute" (inches from
 * the lower left corner) in cand/canvas.py, "figure" (fractions of the
 * canvas) in the older canvas.py.  Both revisions dispatch on the tag in the
 * same order, so one resolver serves both, told apart by `Revision`.
 *
 * The matplotlib transforms of an axis (transData, transAxes, followed by the
 * inverse figure transform) become affine maps with a diagonal linear part,
 * straight into the universal system.
 */
module Coordinates {
  import opened Results
  import opened Metrics
  import opened MetricLaws

  datatype Revision = Current | Legacy

  /** The tag every resolved value carries. */
  function Universe(rev: Revision): string {
    if rev == Current then Absolute else Figure
  }

  const Figure := "figure"
  const NegAbsolute := "-absolute"
  const AxisPrefix := "axis_"

  /** The tags `is_unit` accepts without looking anything up. */
  const Reserved: set<string> := {Default, Figure, Absolute, NegAbsolute, Various}

  predicate HasAxisPrefix(name: string) {
    |name| >= 5 && name[..5] == AxisPrefix
  }

  /** `(x, y) |-> (sx*x + ox, sy*y + oy)`. */
  datatype Affine = Affine(sx: real, sy: real, ox: real, oy: real)

  const Identity := Affine(1.0, 1.0, 0.0, 0.0)

  function Place(f: Affine, x: real, y: real, tag: string): (p: Metric)
    ensures p.Pt? && p.tag == tag
  {
    Pt(f.sx * x + f.ox, f.sy * y + f.oy, tag)
  }

  /** The Vector that a frame makes of the displacement (x, y): its linear part only, the offset drops out. */
  function Stretch(f: Affine, x: real, y: real, tag: string): (v: Metric)
    ensures v.Vec? && v.tag == tag
  {
    Vec(f.sx * x, f.sy * y, tag)
  }

  /** A registered unit: x and y scale and an origin, both already resolved. */
  datatype Unit = Unit(sx: real, sy: real, origin: Metric)

  /** An axis: its data transform and its unit-square ("axis_" name) transform. */
  datatype Axis = Axis(data: Affine, box: Affine)

  datatype Registry = Registry(
    rev: Revision,
    size: (real, real),
    defaultUnit: string,
    units: map<string, Unit>,
    axes: map<string, Axis>)

  // ---------------------------------------------------------------------
  // Names
  // ---------------------------------------------------------------------

  /**
   * `is_unit`: a reserved word, an axis, a unit, or a name the revision's
   * prefix rule accepts.  In cand/canvas.py "axis_" + n is a unit when n is;
   * in canvas.py a name n without the prefix is a unit when "axis_" + n is.
   */
  function IsUnit(r: Registry, name: string): bool
    decreases if r.rev == Current then |name| else if HasAxisPrefix(name) then 0 else 1, 1
  {
    name in Reserved
    || name in r.axes
    || (r.rev == Current && HasAxisPrefix(name) && IsUnit(r, name[5..]))
    || (r.rev == Legacy && !HasAxisPrefix(name) && PrefixedIsUnit(r, name))
    || name in r.units
  }

  function PrefixedIsUnit(r: Registry, name: string): bool
    requires r.rev == Legacy && !HasAxisPrefix(name)
    decreases 1, 0
  {
    assert HasAxisPrefix(AxisPrefix + name) by {
      assert (AxisPrefix + name)[..5] == AxisPrefix;
    }
    IsUnit(r, AxisPrefix + name)
  }

  /** `is_valid_identifier`: no "axis_" prefix and not already a unit. */
  function IsValidIdentifier(r: Registry, name: string): bool {
    !HasAxisPrefix(name) && !IsUnit(r, name)
  }

  /**
   * What every operation on the canvas keeps: a positive size, unit and axis
   * names that passed `is_valid_identifier` when they were registered, unit
   * origins resolved to Points, and a default unit that `is_unit` accepts.
   */
  predicate Valid(r: Registry) {
    r.size.0 > 0.0 && r.size.1 > 0.0
    && (forall n :: n in r.units ==> !HasAxisPrefix(n) && n !in Reserved)
    && (forall n :: n in r.axes ==> !HasAxisPrefix(n) && n !in Reserved)
    && (forall n :: n in r.units ==> r.units[n].origin.Pt? && r.units[n].origin.tag == Universe(r.rev))
    && IsUnit(r, r.defaultUnit)
  }

  /**
   * A registry whose values can be resolved.  With default unit "default",
   * which `set_default_unit` lets through, every "default" tag recurses
   * forever.
   */
  predicate Resolvable(r: Registry) {
    Valid(r) && r.defaultUnit != Default
  }

  // ---------------------------------------------------------------------
  // The resolver
  // ---------------------------------------------------------------------

  /** Termination measure: a "default" Point resolves through another Point, a Vector through two Points. */
  function Rank(m: Metric): nat {
    match m
    case Pt(_, _, t) => if t == Default then 2 else 1
    case Vec(_, _, _) => 3
    case BinPt(l, _, r) => 1 + OperandRank(l) + OperandRank(r)
    case BinVec(l, _, r) => 1 + OperandRank(l) + OperandRank(r)
  }

  function OperandRank(o: Operand): nat {
    if o.Scalar? then 0 else Rank(o.m)
  }

  /** The op_table application; canvas.py has no rotation, so a rotation node is a type error there. */
  function ApplyIn(rev: Revision, a: Operand, op: Op, b: Operand): Result<Metric> {
    if rev == Legacy && op == OpRot then Err(TypeMismatch) else Apply(a, op, b)
  }

  /** A resolved operand: numbers pass through, values are resolved. */
  predicate Resolved(rev: Revision, o: Operand) {
    o.Scalar? || (IsConcrete(o.m) && o.m.tag == Universe(rev))
  }

  /** Applying an operator to resolved operands stays resolved. */
  lemma ApplyResolved(rev: Revision, a: Operand, op: Op, b: Operand)
    requires Resolved(rev, a) && Resolved(rev, b)
    requires ApplyIn(rev, a, op, b).Ok?
    ensures IsConcrete(ApplyIn(rev, a, op, b).value)
    ensures ApplyIn(rev, a, op, b).value.tag == Universe(rev)
  {
    OperatorFacts(a, op, b);
  }

  /**
   * `convert_to_absolute_coord` (cand/canvas.py) and `convert_to_figure_coord`
   * (canvas.py): a Vector goes to the length resolver; a Point is looked up
   * by its tag in the order the source tests them; a BinopPoint resolves its
   * operands left to right and applies its operator.  A node's tag is
   * "various", which none of the tag tests before the node test accepts.
   */
  function Coord(r: Registry, m: Metric): (res: Result<Metric>)
    requires Resolvable(r)
    decreases Rank(m), 1
    ensures res.Ok? ==> IsConcrete(res.value) && res.value.tag == Universe(r.rev)
    ensures res.Ok? && m.Pt? ==> res.value.Pt?
    ensures IsVectorKind(m) ==> res == Length(r, m)
    ensures m.Pt? && m.tag == Universe(r.rev) ==> res == Ok(m)
  {
    var U := Universe(r.rev);
    if IsVectorKind(m) then Length(r, m)
    else if m.Pt? && m.tag == Default then Coord(r, Pt(m.x, m.y, r.defaultUnit))
    else if m.Pt? && m.tag == U then Ok(m)
    else if m.Pt? && r.rev == Current && m.tag == Figure then
      Ok(Pt(m.x * r.size.0, m.y * r.size.1, U))
    else if m.Pt? && r.rev == Legacy && m.tag == Absolute then
      Ok(Pt(m.x / r.size.0, m.y / r.size.1, U))
    else if m.Pt? && r.rev == Current && m.tag == NegAbsolute then
      Ok(Pt(r.size.0 - m.x, r.size.1 - m.y, U))
    else if m.Pt? && r.rev == Legacy && m.tag == NegAbsolute then
      Ok(Pt(1.0 - m.x / r.size.0, 1.0 - m.y / r.size.1, U))
    else if m.Pt? && m.tag in r.axes then
      Ok(Place(r.axes[m.tag].data, m.x, m.y, U))
    else if m.Pt? && HasAxisPrefix(m.tag) && m.tag[5..] in r.axes then
      Ok(Place(r.axes[m.tag[5..]].box, m.x, m.y, U))
    else if m.Pt? && m.tag in r.units then
      UnitPoint(r.units[m.tag], m.x, m.y, U)
    else if m.BinPt? then
      var lhs :- ResolveOperand(r, m.lhs);
      var rhs :- ResolveOperand(r, m.rhs);
      var v :- ApplyIn(r.rev, lhs, m.op, rhs);
      ApplyResolved(r.rev, lhs, m.op, rhs);
      Ok(v)
    else
      Err(UnknownCoordinate)
  }

  /** A Point (x, y) in unit u: `Vector(x*sx, y*sy, U) + origin`. */
  function UnitPoint(u: Unit, x: real, y: real, U: string): (res: Result<Metric>)
    requires u.origin.Pt? && u.origin.tag == U && U != Various
    ensures res == Ok(Place(Affine(u.sx, u.sy, u.origin.x, u.origin.y), x, y, U))
  {
    var p := Pt(u.origin.x + x * u.sx, u.origin.y + y * u.sy, U);
    assert Add(M(u.origin), M(Vec(x * u.sx, y * u.sy, U))) == Ok(p);
    assert Add(M(Vec(x * u.sx, y * u.sy, U)), M(u.origin)) == Ok(p);
    assert Place(Affine(u.sx, u.sy, u.origin.x, u.origin.y), x, y, U) == p;
    Add(M(Vec(x * u.sx, y * u.sy, U)), M(u.origin))
  }

  /**
   * `convert_to_absolute_length` / `convert_to_figure_length`: a universal
   * Vector is returned as it is; a BinopVector resolves its operands and
   * applies its operator, and the result must be a Vector (the method is
   * declared to return one); any other Vector v tagged t resolves as
   * `R(Point(0, 0, t) + v) - R(Point(0, 0, t))`.  For t = "various" that
   * sum is a node whose first operand, a plain Point tagged "various", has
   * no coordinate system, so the resolution fails at once.
   */
  function Length(r: Registry, m: Metric): (res: Result<Metric>)
    requires Resolvable(r)
    decreases Rank(m), 0
    ensures res.Ok? ==> res.value.Vec? && res.value.tag == Universe(r.rev)
    ensures m.Vec? && m.tag == Universe(r.rev) ==> res == Ok(m)
  {
    var U := Universe(r.rev);
    if !IsVectorKind(m) then Err(TypeMismatch)
    else if m.Vec? && m.tag == U then Ok(m)
    else if m.BinVec? then
      var lhs :- ResolveOperand(r, m.lhs);
      var rhs :- ResolveOperand(r, m.rhs);
      var v :- ApplyIn(r.rev, lhs, m.op, rhs);
      ApplyResolved(r.rev, lhs, m.op, rhs);
      if v.Vec? then Ok(v) else Err(TypeMismatch)
    else if m.tag == Various then Err(UnknownCoordinate)
    else
      var origin := Pt(0.0, 0.0, m.tag);
      var moved := Pt(0.0 + m.x, 0.0 + m.y, m.tag);
      assert Add(M(origin), M(m)) == Ok(moved);
      var a :- Coord(r, moved);
      var b :- Coord(r, origin);
      assert Sub(M(a), M(b)) == Ok(Vec(a.x - b.x, a.y - b.y, U));
      Sub(M(a), M(b))
  }

  function ResolveOperand(r: Registry, o: Operand): (res: Result<Operand>)
    requires Resolvable(r)
    decreases OperandRank(o), 2
    ensures res.Ok? ==> Resolved(r.rev, res.value)
    ensures res.Ok? ==> res.value.Scalar? == o.Scalar?
    ensures o.Scalar? ==> res == Ok(o)
  {
    if o.Scalar? then Ok(o)
    else
      var v :- Coord(r, o.m);
      Ok(M(v))
  }

  /**
   * `convert_to_figure_coord` of cand/canvas.py: the absolute value divided
   * by the canvas size.
   */
  function FigureCoord(r: Registry, m: Metric): (res: Result<Metric>)
    requires Resolvable(r) && r.rev == Current
    ensures res.Ok? ==> IsConcrete(res.value) && res.value.tag == Figure
    ensures res.Ok? ==> res.value.Vec? == IsVectorKind(m)
  {
    if IsVectorKind(m) then FigureLength(r, m)
    else
      var p :- Coord(r, m);
      Ok(Pt(p.x / r.size.0, p.y / r.size.1, Figure))
  }

  /** `convert_to_figure_length` of cand/canvas.py. */
  function FigureLength(r: Registry, m: Metric): (res: Result<Metric>)
    requires Resolvable(r) && r.rev == Current
    ensures res.Ok? ==> res.value.Vec? && res.value.tag == Figure
  {
    var v :- Length(r, m);
    Ok(Vec(v.x / r.size.0, v.y / r.size.1, Figure))
  }

  // ---------------------------------------------------------------------
  // Frames: what each tag means
  // ---------------------------------------------------------------------

  /** The affine map the resolver applies to a Point with tag t, if t is known. */
  function Frame(r: Registry, t: string): Option<Affine>
    requires Valid(r)
    decreases if t == Default then 1 else 0
  {
    if t == Default then (if r.defaultUnit == Default then None else Frame(r, r.defaultUnit))
    else if t == Universe(r.rev) then Some(Identity)
    else if r.rev == Current && t == Figure then Some(Affine(r.size.0, r.size.1, 0.0, 0.0))
    else if r.rev == Legacy && t == Absolute then Some(Affine(1.0 / r.size.0, 1.0 / r.size.1, 0.0, 0.0))
    else if r.rev == Current && t == NegAbsolute then Some(Affine(-1.0, -1.0, r.size.0, r.size.1))
    else if r.rev == Legacy && t == NegAbsolute then Some(Affine(-1.0 / r.size.0, -1.0 / r.size.1, 1.0, 1.0))
    else if t in r.axes then Some(r.axes[t].data)
    else if HasAxisPrefix(t) && t[5..] in r.axes then Some(r.axes[t[5..]].box)
    else if t in r.units then
      var u := r.units[t];
      Some(Affine(u.sx, u.sy, u.origin.x, u.origin.y))
    else None
  }

  // ---------------------------------------------------------------------
  // What the resolver computes, tag by tag
  // ---------------------------------------------------------------------

  /** No reserved word carries the axis prefix. */
  lemma ReservedUnprefixed()
    ensures forall n :: n in Reserved ==> !HasAxisPrefix(n)
  {
    assert !HasAxisPrefix(Default) by { assert Default[0] != AxisPrefix[0]; }
    assert !HasAxisPrefix(Figure) by { assert Figure[0] != AxisPrefix[0]; }
    assert !HasAxisPrefix(Absolute) by { assert Absolute[1] != AxisPrefix[1]; }
    assert !HasAxisPrefix(NegAbsolute) by { assert NegAbsolute[0] != AxisPrefix[0]; }
    assert !HasAxisPrefix(Various) by { assert Various[0] != AxisPrefix[0]; }
  }

  lemma DivAsMul(x: real, s: real)
    requires s != 0.0
    ensures x / s == (1.0 / s) * x
    ensures -x / s == (-1.0 / s) * x
  {
  }

  /**
   * A Point tagged t resolves through the frame of t, and fails exactly when
   * t names no frame.  A "default" tag is the default unit's frame.
   */
  lemma {:induction false} PointResolution(r: Registry, x: real, y: real, t: string)
    requires Resolvable(r)
    decreases if t == Default then 1 else 0
    ensures Frame(r, t).None? ==> Coord(r, Pt(x, y, t)) == Err(UnknownCoordinate)
    ensures Frame(r, t).Some? ==> Coord(r, Pt(x, y, t)) == Ok(Place(Frame(r, t).value, x, y, Universe(r.rev)))
  {
    if t == Default {
      PointResolution(r, x, y, r.defaultUnit);
    } else if r.rev == Legacy && (t == Absolute || t == NegAbsolute) {
      LegacyFixedFrames(r, x, y, t);
    } else if t == Various {
      ReservedUnprefixed();
    } else if t in r.units && t !in r.axes {
      UnitFrame(r, x, y, t);
    } else if r.rev == Current && t == Figure {
      CurrentFigureFrame(r, x, y);
    }
  }

  lemma CurrentFigureFrame(r: Registry, x: real, y: real)
    requires Resolvable(r) && r.rev == Current
    ensures Frame(r, Figure).Some? && Coord(r, Pt(x, y, Figure)) == Ok(Place(Frame(r, Figure).value, x, y, Absolute))
  {
    var c := Coord(r, Pt(x, y, Figure));
    assert c.Ok? && c.value.Pt? && c.value.tag == Absolute;
    assert c.value.x == x * r.size.0 && c.value.y == y * r.size.1;
    var p := Place(Frame(r, Figure).value, x, y, Absolute);
    assert p.x == c.value.x && p.y == c.value.y && p.tag == c.value.tag;
    assert c.value == p;
  }

  lemma LegacyFixedFrames(r: Registry, x: real, y: real, t: string)
    requires Resolvable(r) && r.rev == Legacy && (t == Absolute || t == NegAbsolute)
    ensures Frame(r, t).Some? && Coord(r, Pt(x, y, t)) == Ok(Place(Frame(r, t).value, x, y, Figure))
  {
    DivAsMul(x, r.size.0);
    DivAsMul(y, r.size.1);
    var f := Frame(r, t).value;
    if t == Absolute {
      assert Place(f, x, y, Figure) == Pt(x / r.size.0, y / r.size.1, Figure);
    } else {
      assert -x / r.size.0 == -(x / r.size.0);
      assert -y / r.size.1 == -(y / r.size.1);
      assert Place(f, x, y, Figure) == Pt(1.0 - x / r.size.0, 1.0 - y / r.size.1, Figure);
    }
  }

  lemma UnitFrame(r: Registry, x: real, y: real, t: string)
    requires Resolvable(r) && t in r.units && t !in r.axes
    ensures Frame(r, t).Some? && Coord(r, Pt(x, y, t)) == Ok(Place(Frame(r, t).value, x, y, Universe(r.rev)))
  {
    ReservedUnprefixed();
    var u := r.units[t];
    assert Frame(r, t) == Some(Affine(u.sx, u.sy, u.origin.x, u.origin.y));
    assert Coord(r, Pt(x, y, t)) == UnitPoint(u, x, y, Universe(r.rev));
  }

  /**
   * A Vector tagged t resolves to the linear part of the frame of t: unit
   * origins and axis offsets cancel, so a length does not depend on where
   * its coordinate system starts.
   */
  lemma VectorResolution(r: Registry, x: real, y: real, t: string)
    requires Resolvable(r)
    ensures Coord(r, Vec(x, y, t)) == Length(r, Vec(x, y, t))
    ensures Frame(r, t).None? ==> Length(r, Vec(x, y, t)) == Err(UnknownCoordinate)
    ensures Frame(r, t).Some? ==>
      Length(r, Vec(x, y, t)) == Ok(Stretch(Frame(r, t).value, x, y, Universe(r.rev)))
  {
    var U := Universe(r.rev);
    if t != U && t != Various {
      PointResolution(r, 0.0 + x, 0.0 + y, t);
      PointResolution(r, 0.0, 0.0, t);
      if Frame(r, t).Some? {
        var f := Frame(r, t).value;
        var p := Place(f, 0.0 + x, 0.0 + y, U);
        var o := Place(f, 0.0, 0.0, U);
        assert Coord(r, Pt(0.0 + x, 0.0 + y, t)) == Ok(p);
        assert Coord(r, Pt(0.0, 0.0, t)) == Ok(o);
        assert Length(r, Vec(x, y, t)) == Sub(M(p), M(o));
        OffsetCancels(f, x, y, U);
      }
    }
  }

  /** The offset of a frame drops out of the difference of two placed Points. */
  lemma OffsetCancels(f: Affine, x: real, y: real, U: string)
    ensures Sub(M(Place(f, 0.0 + x, 0.0 + y, U)), M(Place(f, 0.0, 0.0, U))) == Ok(Stretch(f, x, y, U))
  {
    assert (f.sx * (0.0 + x) + f.ox) - (f.sx * 0.0 + f.ox) == f.sx * x;
    assert (f.sy * (0.0 + y) + f.oy) - (f.sy * 0.0 + f.oy) == f.sy * y;
  }

  /** A Vector tagged t, when t has a frame f, measures f's linear part times its components. */
  lemma FrameLength(r: Registry, t: string, f: Affine, x: real, y: real)
    requires Resolvable(r) && Frame(r, t) == Some(f)
    ensures Length(r, Vec(x, y, t)) == Ok(Stretch(f, x, y, Universe(r.rev)))
  {
    VectorResolution(r, x, y, t);
  }

  /** Resolution keeps the kind: a point-kind expression resolves to a Point, a vector-kind one to a Vector. */
  lemma {:induction false} ResolutionKeepsKind(r: Registry, m: Metric)
    requires Resolvable(r) && WellKinded(m) && Coord(r, m).Ok?
    decreases Rank(m), 1
    ensures MetricSort(Coord(r, m).value) == MetricSort(m)
  {
    if m.BinPt? {
      var lhs := ResolveOperand(r, m.lhs).value;
      var rhs := ResolveOperand(r, m.rhs).value;
      OperandKeepsKind(r, m.lhs);
      OperandKeepsKind(r, m.rhs);
      ApplyRespectsSignature(lhs, m.op, rhs);
    }
  }

  lemma {:induction false} OperandKeepsKind(r: Registry, o: Operand)
    requires Resolvable(r) && WellKindedOperand(o) && ResolveOperand(r, o).Ok?
    decreases OperandRank(o), 2
    ensures SortOf(ResolveOperand(r, o).value) == SortOf(o)
  {
    if o.M? {
      ResolutionKeepsKind(r, o.m);
    }
  }

  /** A "default" value resolves as the same value in the default unit, for Points and Vectors alike. */
  lemma DefaultIsDefaultUnit(r: Registry, x: real, y: real)
    requires Resolvable(r)
    ensures Coord(r, Pt(x, y, Default)) == Coord(r, Pt(x, y, r.defaultUnit))
    ensures Length(r, Vec(x, y, Default)) == Length(r, Vec(x, y, r.defaultUnit))
  {
    VectorResolution(r, x, y, Default);
    VectorResolution(r, x, y, r.defaultUnit);
  }

  lemma SubtractRatio(s: real, x: real)
    requires s != 0.0
    ensures (s - x) / s == 1.0 - x / s
  {
    assert (s - x) / s == s / s - x / s;
  }

  /**
   * The two revisions agree on the fixed frames: the figure value of a
   * Point tagged "figure", "absolute" or "-absolute" is the same whether it
   * is computed in inches and divided by the size (cand/canvas.py) or
   * computed in figure fractions directly (canvas.py).  In particular a
   * figure Point makes the round trip through inches unchanged.
   */
  lemma RevisionsAgreeOnFixedFrames(cur: Registry, leg: Registry, x: real, y: real, t: string)
    requires Resolvable(cur) && cur.rev == Current
    requires Resolvable(leg) && leg.rev == Legacy
    requires cur.size == leg.size
    requires t == Figure || t == Absolute || t == NegAbsolute
    ensures FigureCoord(cur, Pt(x, y, t)) == Coord(leg, Pt(x, y, t))
    ensures t == Figure ==> FigureCoord(cur, Pt(x, y, t)) == Ok(Pt(x, y, Figure))
  {
    if t == Figure {
      FigureAgrees(cur, leg, x, y);
    } else if t == Absolute {
      AbsoluteAgrees(cur, leg, x, y);
    } else {
      NegAbsoluteAgrees(cur, leg, x, y);
    }
  }

  lemma FigureAgrees(cur: Registry, leg: Registry, x: real, y: real)
    requires Resolvable(cur) && cur.rev == Current
    requires Resolvable(leg) && leg.rev == Legacy
    ensures FigureCoord(cur, Pt(x, y, Figure)) == Ok(Pt(x, y, Figure)) == Coord(leg, Pt(x, y, Figure))
  {
    var S := cur.size;
    var p := Coord(cur, Pt(x, y, Figure)).value;
    assert p.x == x * S.0 && p.y == y * S.1;
    MulDivCancel(x, S.0);
    MulDivCancel(y, S.1);
    var c := FigureCoord(cur, Pt(x, y, Figure)).value;
    assert c.x == x && c.y == y && c.tag == Figure && c.Pt?;
  }

  lemma AbsoluteAgrees(cur: Registry, leg: Registry, x: real, y: real)
    requires Resolvable(cur) && cur.rev == Current
    requires Resolvable(leg) && leg.rev == Legacy
    requires cur.size == leg.size
    ensures FigureCoord(cur, Pt(x, y, Absolute)) == Coord(leg, Pt(x, y, Absolute))
  {
    var c := FigureCoord(cur, Pt(x, y, Absolute)).value;
    var l := Coord(leg, Pt(x, y, Absolute)).value;
    assert c.x == l.x && c.y == l.y && c.tag == l.tag && c.Pt? && l.Pt?;
  }

  lemma NegAbsoluteAgrees(cur: Registry, leg: Registry, x: real, y: real)
    requires Resolvable(cur) && cur.rev == Current
    requires Resolvable(leg) && leg.rev == Legacy
    requires cur.size == leg.size
    ensures FigureCoord(cur, Pt(x, y, NegAbsolute)) == Coord(leg, Pt(x, y, NegAbsolute))
  {
    var S := cur.size;
    SubtractRatio(S.0, x);
    SubtractRatio(S.1, y);
    var c := FigureCoord(cur, Pt(x, y, NegAbsolute)).value;
    var l := Coord(leg, Pt(x, y, NegAbsolute)).value;
    assert c.x == (S.0 - x) / S.0 && l.x == 1.0 - x / S.0;
    assert c.y == (S.1 - y) / S.1 && l.y == 1.0 - y / S.1;
    assert c.x == l.x && c.y == l.y && c.tag == l.tag && c.Pt? && l.Pt?;
  }

  // ---------------------------------------------------------------------
  // Names
  // ---------------------------------------------------------------------

  lemma PrefixOf(n: string)
    ensures HasAxisPrefix(AxisPrefix + n) && (AxisPrefix + n)[5..] == n
  {
    assert (AxisPrefix + n)[..5] == AxisPrefix;
  }

  /**
   * `is_valid_identifier` holds exactly for the names without the "axis_"
   * prefix that are neither reserved nor registered as an axis or a unit,
   * in both revisions.
   */
  lemma ValidIdentifierExactly(r: Registry, name: string)
    requires Valid(r)
    ensures IsValidIdentifier(r, name) <==>
      !HasAxisPrefix(name) && name !in Reserved && name !in r.axes && name !in r.units
  {
    if !HasAxisPrefix(name) && r.rev == Legacy {
      LegacyPrefixRuleAddsNothing(r, name);
    }
  }

  /** Registering more units or axes never takes a name out of `is_unit`. */
  lemma {:induction false} IsUnitGrows(r: Registry, s: Registry, name: string)
    requires s.rev == r.rev && r.units.Keys <= s.units.Keys && r.axes.Keys <= s.axes.Keys
    requires IsUnit(r, name)
    decreases |name|
    ensures IsUnit(s, name)
  {
    if r.rev == Current && HasAxisPrefix(name) && IsUnit(r, name[5..]) {
      IsUnitGrows(r, s, name[5..]);
    } else if r.rev == Legacy && !HasAxisPrefix(name) && PrefixedIsUnit(r, name) {
      var p := AxisPrefix + name;
      PrefixOf(name);
      assert IsUnit(r, p);
      assert p in Reserved || p in r.axes || p in r.units;
      assert IsUnit(s, p);
      assert PrefixedIsUnit(s, name);
    }
  }

  /**
   * In cand/canvas.py "axis_" + a names the unit square of axis a, and
   * `is_unit` accepts it.
   */
  lemma AxisNamesAreUnits(r: Registry, a: string)
    requires Valid(r) && r.rev == Current && a in r.axes
    ensures IsUnit(r, AxisPrefix + a)
    ensures Frame(r, AxisPrefix + a) == Some(r.axes[a].box)
  {
    PrefixOf(a);
    ReservedUnprefixed();
  }

  /**
   * The same prefix rule makes `is_unit` accept "axis_" + n for every unit
   * n, although the resolver only knows "axis_" + n for an axis n: such a
   * name can become the default unit and then fails to resolve.
   */
  lemma PrefixedUnitNamesUnresolvable(r: Registry, n: string, x: real, y: real)
    requires Resolvable(r) && r.rev == Current && n in r.units && n !in r.axes
    ensures IsUnit(r, AxisPrefix + n)
    ensures Frame(r, AxisPrefix + n).None?
    ensures Coord(r, Pt(x, y, AxisPrefix + n)) == Err(UnknownCoordinate)
  {
    PrefixOf(n);
    ReservedUnprefixed();
    PointResolution(r, x, y, AxisPrefix + n);
  }

  /**
   * In canvas.py the prefix rule runs the other way round and adds nothing:
   * `is_unit` holds exactly for reserved and registered names.
   */
  lemma LegacyPrefixRuleAddsNothing(r: Registry, name: string)
    requires Valid(r) && r.rev == Legacy
    ensures IsUnit(r, name) <==> name in Reserved || name in r.axes || name in r.units
  {
    if !HasAxisPrefix(name) {
      var p := AxisPrefix + name;
      PrefixOf(name);
      ReservedUnprefixed();
      assert p !in Reserved && p !in r.axes && p !in r.units;
      assert !IsUnit(r, p);
      assert !PrefixedIsUnit(r, name);
    }
  }

  /**
   * So canvas.py refuses "axis_" + a as a unit name for an axis a, although
   * its resolver maps that tag onto the axis' unit square.
   */
  lemma LegacyAxisNamesRefused(r: Registry, a: string)
    requires Valid(r) && r.rev == Legacy && a in r.axes
    ensures !IsUnit(r, AxisPrefix + a)
    ensures Frame(r, AxisPrefix + a) == Some(r.axes[a].box)
  {
    PrefixOf(a);
    ReservedUnprefixed();
    LegacyPrefixRuleAddsNothing(r, AxisPrefix + a);
  }
}
