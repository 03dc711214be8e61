/**
 * The laws test_canvas.py checks numerically on sample expressions, stated
 * for every registry and every kind-correct expression whose resolution
 * succeeds.  Each follows from ResolutionCommutes; they hold for both
 * revisions (R is `convert_to_absolute_coord` in cand/canvas.py and
 * `convert_to_figure_coord` in canvas.py).
 */
module CanvasLaws {
  import opened Results
  import opened Metrics
  import opened MetricLaws
  import opened Coordinates
  import opened ResolutionLaws

  // ---------------------------------------------------------------------
  // What a successful resolution looks like
  // ---------------------------------------------------------------------

  /** A resolved expression is a Point or a Vector as the expression is, in the universal tag. */
  lemma ResolvedShape(r: Registry, m: Metric)
    requires Resolvable(r) && WellKinded(m) && Coord(r, m).Ok?
    ensures Coord(r, m).value.Pt? == IsPointKind(m)
    ensures Coord(r, m).value.Vec? == IsVectorKind(m)
    ensures Coord(r, m).value.tag == Universe(r.rev)
  {
    ResolutionKeepsKind(r, m);
  }

  /** A resolved Vector, written out. */
  lemma ResolvedVector(r: Registry, m: Metric)
    requires Resolvable(r) && IsVectorKind(m) && Coord(r, m).Ok?
    ensures Coord(r, m) == Ok(Vec(Coord(r, m).value.x, Coord(r, m).value.y, Universe(r.rev)))
  {
  }

  /** A resolved Point, written out. */
  lemma ResolvedPoint(r: Registry, m: Metric)
    requires Resolvable(r) && WellKinded(m) && IsPointKind(m) && Coord(r, m).Ok?
    ensures Coord(r, m) == Ok(Pt(Coord(r, m).value.x, Coord(r, m).value.y, Universe(r.rev)))
  {
    ResolvedShape(r, m);
  }

  /** No value tagged "various" resolves: that tag has no frame. */
  lemma VariousUnresolvable(r: Registry, m: Metric)
    requires Resolvable(r) && IsConcrete(m) && Coord(r, m).Ok?
    ensures m.tag != Various
  {
    ResolveConcrete(r, m);
    ReservedUnprefixed();
    assert Various in Reserved;
  }

  /** The resolved operand of a value is the value's resolution. */
  lemma OperandOfValue(r: Registry, m: Metric)
    requires Resolvable(r) && Coord(r, m).Ok?
    ensures ResolveOperand(r, M(m)) == Ok(M(Coord(r, m).value))
  {
  }

  /** A kind-correct operation that is not Blocked succeeds, with a kind-correct result of the tabled kind. */
  lemma Defined(a: Operand, op: Op, b: Operand)
    requires WellKindedOperand(a) && WellKindedOperand(b)
    requires Signature(op, SortOf(a), SortOf(b)).Some? && !Blocked(a, op, b)
    ensures Apply(a, op, b).Ok? && WellKinded(Apply(a, op, b).value)
    ensures Signature(op, SortOf(a), SortOf(b)) == Some(MetricSort(Apply(a, op, b).value))
  {
    ApplyFailsExactly(a, op, b);
    ApplyRespectsSignature(a, op, b);
    OperatorsBuildWellKinded(a, op, b);
  }

  /** ResolutionCommutes, with the resolved operands named. */
  lemma Resolves(r: Registry, a: Operand, op: Op, b: Operand, A: Operand, B: Operand)
    requires Resolvable(r) && WellKindedOperand(a) && WellKindedOperand(b)
    requires Apply(a, op, b).Ok? && op != OpRot
    requires ResolveOperand(r, a) == Ok(A) && ResolveOperand(r, b) == Ok(B)
    ensures Coord(r, Apply(a, op, b).value) == Apply(A, op, B)
  {
    ResolutionCommutes(r, a, op, b);
  }

  /** The sum of two Vectors in one tag. */
  lemma AddValues(A: Metric, B: Metric, U: string)
    requires A.Vec? && B.Vec? && A.tag == U && B.tag == U
    ensures Add(M(A), M(B)) == Ok(Vec(A.x + B.x, A.y + B.y, U))
  {
    var s := Add(M(A), M(B));
    assert s.Ok? && s.value.Vec?;
    assert s.value.x == A.x + B.x && s.value.y == A.y + B.y && s.value.tag == U;
  }

  /** A Point moved by a Vector in one tag, in either order. */
  lemma AddToPointValues(A: Metric, B: Metric, U: string)
    requires A.Pt? && B.Vec? && A.tag == U && B.tag == U && U != Various
    ensures Add(M(A), M(B)) == Ok(Pt(A.x + B.x, A.y + B.y, U))
    ensures Add(M(B), M(A)) == Add(M(A), M(B))
  {
    var s := Add(M(A), M(B));
    assert s.Ok? && s.value.Pt?;
    assert s.value.x == A.x + B.x && s.value.y == A.y + B.y && s.value.tag == U;
  }

  // ---------------------------------------------------------------------
  // Linearity (test_canvas.py:112-130, 146-155)
  // ---------------------------------------------------------------------

  /** Two resolvable Vectors can be added: neither is a plain Vector tagged "various". */
  lemma VectorSumDefined(r: Registry, v1: Metric, v2: Metric)
    requires Resolvable(r) && WellKinded(v1) && WellKinded(v2)
    requires IsVectorKind(v1) && IsVectorKind(v2)
    requires Coord(r, v1).Ok? && Coord(r, v2).Ok?
    ensures Add(M(v1), M(v2)).Ok?
    ensures WellKinded(Add(M(v1), M(v2)).value) && IsVectorKind(Add(M(v1), M(v2)).value)
  {
    if v1.Vec? {
      VariousUnresolvable(r, v1);
    }
    Defined(M(v1), OpAdd, M(v2));
  }

  /** `R(v1 + v2) == R(v1) + R(v2)`, the componentwise sum. */
  lemma VectorSumResolves(r: Registry, v1: Metric, v2: Metric)
    requires Resolvable(r) && WellKinded(v1) && WellKinded(v2)
    requires IsVectorKind(v1) && IsVectorKind(v2)
    requires Coord(r, v1).Ok? && Coord(r, v2).Ok?
    ensures Add(M(v1), M(v2)).Ok?
    ensures WellKinded(Add(M(v1), M(v2)).value) && IsVectorKind(Add(M(v1), M(v2)).value)
    ensures Coord(r, Add(M(v1), M(v2)).value) == Add(M(Coord(r, v1).value), M(Coord(r, v2).value))
    ensures Add(M(Coord(r, v1).value), M(Coord(r, v2).value))
      == Ok(Vec(Coord(r, v1).value.x + Coord(r, v2).value.x, Coord(r, v1).value.y + Coord(r, v2).value.y, Universe(r.rev)))
    ensures Coord(r, Add(M(v1), M(v2)).value).value.x == Coord(r, v1).value.x + Coord(r, v2).value.x
    ensures Coord(r, Add(M(v1), M(v2)).value).value.y == Coord(r, v1).value.y + Coord(r, v2).value.y
  {
    VectorSumDefined(r, v1, v2);
    OperandOfValue(r, v1);
    OperandOfValue(r, v2);
    Resolves(r, M(v1), OpAdd, M(v2), M(Coord(r, v1).value), M(Coord(r, v2).value));
    VectorSumValue(r, v1, v2);
  }

  lemma VectorSumValue(r: Registry, v1: Metric, v2: Metric)
    requires Resolvable(r) && WellKinded(v1) && WellKinded(v2)
    requires IsVectorKind(v1) && IsVectorKind(v2)
    requires Coord(r, v1).Ok? && Coord(r, v2).Ok?
    ensures Add(M(Coord(r, v1).value), M(Coord(r, v2).value))
      == Ok(Vec(Coord(r, v1).value.x + Coord(r, v2).value.x, Coord(r, v1).value.y + Coord(r, v2).value.y, Universe(r.rev)))
  {
    ResolvedShape(r, v1);
    ResolvedShape(r, v2);
    AddValues(Coord(r, v1).value, Coord(r, v2).value, Universe(r.rev));
  }

  /** A resolvable Point and Vector can be added, in either order. */
  lemma PointSumDefined(r: Registry, p: Metric, v: Metric)
    requires Resolvable(r) && WellKinded(p) && WellKinded(v)
    requires IsPointKind(p) && IsVectorKind(v)
    ensures Add(M(p), M(v)).Ok? && Add(M(v), M(p)) == Add(M(p), M(v))
    ensures WellKinded(Add(M(p), M(v)).value) && IsPointKind(Add(M(p), M(v)).value)
  {
    Defined(M(p), OpAdd, M(v));
  }

  /** `R(p + v) == R(p) + R(v)`: a Point moved by a Vector (test_canvas.py:81-86). */
  lemma PointSumResolves(r: Registry, p: Metric, v: Metric)
    requires Resolvable(r) && WellKinded(p) && WellKinded(v)
    requires IsPointKind(p) && IsVectorKind(v)
    requires Coord(r, p).Ok? && Coord(r, v).Ok?
    ensures Add(M(p), M(v)).Ok? && Add(M(v), M(p)) == Add(M(p), M(v))
    ensures WellKinded(Add(M(p), M(v)).value) && IsPointKind(Add(M(p), M(v)).value)
    ensures Coord(r, Add(M(p), M(v)).value) == Add(M(Coord(r, p).value), M(Coord(r, v).value))
    ensures Add(M(Coord(r, p).value), M(Coord(r, v).value))
      == Ok(Pt(Coord(r, p).value.x + Coord(r, v).value.x, Coord(r, p).value.y + Coord(r, v).value.y, Universe(r.rev)))
    ensures Coord(r, Add(M(p), M(v)).value).value.x == Coord(r, p).value.x + Coord(r, v).value.x
    ensures Coord(r, Add(M(p), M(v)).value).value.y == Coord(r, p).value.y + Coord(r, v).value.y
  {
    PointSumDefined(r, p, v);
    OperandOfValue(r, p);
    OperandOfValue(r, v);
    Resolves(r, M(p), OpAdd, M(v), M(Coord(r, p).value), M(Coord(r, v).value));
    PointSumValue(r, p, v);
  }

  lemma PointSumValue(r: Registry, p: Metric, v: Metric)
    requires Resolvable(r) && WellKinded(p) && WellKinded(v)
    requires IsPointKind(p) && IsVectorKind(v)
    requires Coord(r, p).Ok? && Coord(r, v).Ok?
    ensures Add(M(Coord(r, p).value), M(Coord(r, v).value))
      == Ok(Pt(Coord(r, p).value.x + Coord(r, v).value.x, Coord(r, p).value.y + Coord(r, v).value.y, Universe(r.rev)))
  {
    ResolvedShape(r, p);
    ResolvedShape(r, v);
    AddToPointValues(Coord(r, p).value, Coord(r, v).value, Universe(r.rev));
  }

  /** A resolvable Vector can be scaled, and `k * v` is `v * k`. */
  lemma ScaleDefined(v: Metric, k: real)
    requires WellKinded(v) && IsVectorKind(v)
    ensures Mul(M(v), Scalar(k)).Ok? && Mul(Scalar(k), M(v)) == Mul(M(v), Scalar(k))
    ensures WellKinded(Mul(M(v), Scalar(k)).value) && IsVectorKind(Mul(M(v), Scalar(k)).value)
  {
    Defined(M(v), OpMul, Scalar(k));
  }

  /** `R(v * k) == R(v) * k`, the componentwise product. */
  lemma ScaledVectorResolves(r: Registry, v: Metric, k: real)
    requires Resolvable(r) && WellKinded(v) && IsVectorKind(v) && Coord(r, v).Ok?
    ensures Mul(M(v), Scalar(k)).Ok? && Mul(Scalar(k), M(v)) == Mul(M(v), Scalar(k))
    ensures WellKinded(Mul(M(v), Scalar(k)).value) && IsVectorKind(Mul(M(v), Scalar(k)).value)
    ensures Coord(r, Mul(M(v), Scalar(k)).value) == Mul(M(Coord(r, v).value), Scalar(k))
  {
    ScaleDefined(v, k);
    OperandOfValue(r, v);
    Resolves(r, M(v), OpMul, Scalar(k), M(Coord(r, v).value), Scalar(k));
  }

  lemma DivideDefined(v: Metric, k: real)
    requires WellKinded(v) && IsVectorKind(v) && k != 0.0
    ensures Div(M(v), Scalar(k)).Ok?
    ensures WellKinded(Div(M(v), Scalar(k)).value) && IsVectorKind(Div(M(v), Scalar(k)).value)
  {
    Defined(M(v), OpDiv, Scalar(k));
  }

  /** `R(v / k) == R(v) / k` for a nonzero k. */
  lemma DividedVectorResolves(r: Registry, v: Metric, k: real)
    requires Resolvable(r) && WellKinded(v) && IsVectorKind(v) && Coord(r, v).Ok? && k != 0.0
    ensures Div(M(v), Scalar(k)).Ok?
    ensures WellKinded(Div(M(v), Scalar(k)).value) && IsVectorKind(Div(M(v), Scalar(k)).value)
    ensures Coord(r, Div(M(v), Scalar(k)).value) == Div(M(Coord(r, v).value), Scalar(k))
    ensures Div(M(Coord(r, v).value), Scalar(k)) == Ok(Vec(Coord(r, v).value.x / k, Coord(r, v).value.y / k, Universe(r.rev)))
  {
    DivideDefined(v, k);
    OperandOfValue(r, v);
    Resolves(r, M(v), OpDiv, Scalar(k), M(Coord(r, v).value), Scalar(k));
    ResolvedVector(r, v);
    DivVector(Coord(r, v).value.x, Coord(r, v).value.y, k, Universe(r.rev));
  }

  lemma DivVector(vx: real, vy: real, k: real, U: string)
    requires k != 0.0
    ensures Div(M(Vec(vx, vy, U)), Scalar(k)) == Ok(Vec(vx / k, vy / k, U))
  {
    var s := Div(M(Vec(vx, vy, U)), Scalar(k));
    assert s.Ok? && s.value.Vec? && s.value.x == vx / k && s.value.y == vy / k && s.value.tag == U;
  }

  /**
   * Dividing by 0: a Vector fails at once; a node defers the division and
   * its resolution fails.
   */
  lemma DivisionByZero(r: Registry, v: Metric)
    requires Resolvable(r) && WellKinded(v) && IsVectorKind(v) && Coord(r, v).Ok?
    ensures v.Vec? ==> Div(M(v), Scalar(0.0)) == Err(ZeroDivision)
    ensures v.BinVec? ==> Div(M(v), Scalar(0.0)).Ok? && Coord(r, Div(M(v), Scalar(0.0)).value) == Err(ZeroDivision)
  {
    if v.BinVec? {
      OperandOfValue(r, v);
      Resolves(r, M(v), OpDiv, Scalar(0.0), M(Coord(r, v).value), Scalar(0.0));
    }
  }

  // ---------------------------------------------------------------------
  // Meets and means (test_canvas.py:88-110)
  // ---------------------------------------------------------------------

  /** `R(p1 >> p2) == R(p1) >> R(p2)`: the x of the first, the y of the second. */
  lemma MeetResolves(r: Registry, p1: Metric, p2: Metric)
    requires Resolvable(r) && WellKinded(p1) && WellKinded(p2)
    requires IsPointKind(p1) && IsPointKind(p2)
    requires Coord(r, p1).Ok? && Coord(r, p2).Ok?
    ensures MeetX(M(p1), M(p2)).Ok?
    ensures Coord(r, MeetX(M(p1), M(p2)).value) == MeetX(M(Coord(r, p1).value), M(Coord(r, p2).value))
    ensures Coord(r, MeetX(M(p1), M(p2)).value) == Ok(Pt(Coord(r, p1).value.x, Coord(r, p2).value.y, Universe(r.rev)))
  {
    if p1.Pt? {
      VariousUnresolvable(r, p1);
    }
    Defined(M(p1), OpMeet, M(p2));
    ResolvedPoint(r, p1);
    ResolvedPoint(r, p2);
    MeetValue(r, p1, p2, Coord(r, p1).value.x, Coord(r, p1).value.y, Coord(r, p2).value.x, Coord(r, p2).value.y);
  }

  lemma MeetValue(r: Registry, p1: Metric, p2: Metric, ax: real, ay: real, bx: real, bY: real)
    requires Resolvable(r) && WellKinded(p1) && WellKinded(p2) && MeetX(M(p1), M(p2)).Ok?
    requires Coord(r, p1) == Ok(Pt(ax, ay, Universe(r.rev))) && Coord(r, p2) == Ok(Pt(bx, bY, Universe(r.rev)))
    ensures Coord(r, MeetX(M(p1), M(p2)).value) == MeetX(M(Pt(ax, ay, Universe(r.rev))), M(Pt(bx, bY, Universe(r.rev))))
    ensures Coord(r, MeetX(M(p1), M(p2)).value) == Ok(Pt(ax, bY, Universe(r.rev)))
  {
    Resolves(r, M(p1), OpMeet, M(p2), M(Pt(ax, ay, Universe(r.rev))), M(Pt(bx, bY, Universe(r.rev))));
  }

  /** `R(p1 << p2) == R(p1) << R(p2)`: `<<` is `>>` with the operands swapped. */
  lemma MeetLeftResolves(r: Registry, p1: Metric, p2: Metric)
    requires Resolvable(r) && WellKinded(p1) && WellKinded(p2)
    requires IsPointKind(p1) && IsPointKind(p2)
    requires Coord(r, p1).Ok? && Coord(r, p2).Ok?
    ensures MeetY(M(p1), M(p2)).Ok?
    ensures Coord(r, MeetY(M(p1), M(p2)).value) == MeetY(M(Coord(r, p1).value), M(Coord(r, p2).value))
    ensures Coord(r, MeetY(M(p1), M(p2)).value) == Ok(Pt(Coord(r, p2).value.x, Coord(r, p1).value.y, Universe(r.rev)))
  {
    MeetResolves(r, p2, p1);
  }

  /** `R(p1 | p2) == R(p1) | R(p2)`: the midpoint of the resolved Points. */
  lemma MeanResolves(r: Registry, p1: Metric, p2: Metric)
    requires Resolvable(r) && WellKinded(p1) && WellKinded(p2)
    requires IsPointKind(p1) && IsPointKind(p2)
    requires Coord(r, p1).Ok? && Coord(r, p2).Ok?
    ensures Mean(M(p1), M(p2)).Ok?
    ensures Coord(r, Mean(M(p1), M(p2)).value) == Mean(M(Coord(r, p1).value), M(Coord(r, p2).value))
    ensures Coord(r, Mean(M(p1), M(p2)).value)
      == Ok(Pt((Coord(r, p1).value.x + Coord(r, p2).value.x) / 2.0, (Coord(r, p1).value.y + Coord(r, p2).value.y) / 2.0, Universe(r.rev)))
  {
    if p1.Pt? {
      VariousUnresolvable(r, p1);
    }
    Defined(M(p1), OpMean, M(p2));
    OperandOfValue(r, p1);
    OperandOfValue(r, p2);
    Resolves(r, M(p1), OpMean, M(p2), M(Coord(r, p1).value), M(Coord(r, p2).value));
    MeanValue(r, p1, p2);
  }

  lemma MeanValue(r: Registry, p1: Metric, p2: Metric)
    requires Resolvable(r) && WellKinded(p1) && WellKinded(p2)
    requires IsPointKind(p1) && IsPointKind(p2)
    requires Coord(r, p1).Ok? && Coord(r, p2).Ok?
    ensures Mean(M(Coord(r, p1).value), M(Coord(r, p2).value))
      == Ok(Pt((Coord(r, p1).value.x + Coord(r, p2).value.x) / 2.0, (Coord(r, p1).value.y + Coord(r, p2).value.y) / 2.0, Universe(r.rev)))
  {
    ResolvedShape(r, p1);
    ResolvedShape(r, p2);
    MeanValues(Coord(r, p1).value, Coord(r, p2).value, Universe(r.rev));
  }

  /** The midpoint of two Points in one tag. */
  lemma MeanValues(A: Metric, B: Metric, U: string)
    requires A.Pt? && B.Pt? && A.tag == U && B.tag == U
    ensures Mean(M(A), M(B)) == Ok(Pt((A.x + B.x) / 2.0, (A.y + B.y) / 2.0, U))
  {
    var s := Mean(M(A), M(B));
    assert s.Ok? && s.value.Pt? && s.value.x == (A.x + B.x) / 2.0 && s.value.y == (A.y + B.y) / 2.0 && s.value.tag == U;
  }

  // ---------------------------------------------------------------------
  // Differences
  // ---------------------------------------------------------------------

  lemma DifferenceDefined(r: Registry, a: Metric, b: Metric)
    requires Resolvable(r) && WellKinded(a) && WellKinded(b) && Coord(r, a).Ok?
    requires (IsPointKind(a) && IsPointKind(b)) || (IsVectorKind(a) && IsVectorKind(b))
    ensures Sub(M(a), M(b)).Ok? && WellKinded(Sub(M(a), M(b)).value) && IsVectorKind(Sub(M(a), M(b)).value)
  {
    if IsConcrete(a) {
      VariousUnresolvable(r, a);
    }
    Defined(M(a), OpSub, M(b));
  }

  /** `R(a - b) == R(a) - R(b)` for two Points or two Vectors: the componentwise difference. */
  lemma DifferenceResolves(r: Registry, a: Metric, b: Metric)
    requires Resolvable(r) && WellKinded(a) && WellKinded(b)
    requires (IsPointKind(a) && IsPointKind(b)) || (IsVectorKind(a) && IsVectorKind(b))
    requires Coord(r, a).Ok? && Coord(r, b).Ok?
    ensures Sub(M(a), M(b)).Ok? && WellKinded(Sub(M(a), M(b)).value) && IsVectorKind(Sub(M(a), M(b)).value)
    ensures Coord(r, Sub(M(a), M(b)).value) == Sub(M(Coord(r, a).value), M(Coord(r, b).value))
    ensures Sub(M(Coord(r, a).value), M(Coord(r, b).value))
      == Ok(Vec(Coord(r, a).value.x - Coord(r, b).value.x, Coord(r, a).value.y - Coord(r, b).value.y, Universe(r.rev)))
  {
    DifferenceDefined(r, a, b);
    OperandOfValue(r, a);
    OperandOfValue(r, b);
    Resolves(r, M(a), OpSub, M(b), M(Coord(r, a).value), M(Coord(r, b).value));
    DifferenceValue(r, a, b);
  }

  lemma DifferenceValue(r: Registry, a: Metric, b: Metric)
    requires Resolvable(r) && WellKinded(a) && WellKinded(b)
    requires (IsPointKind(a) && IsPointKind(b)) || (IsVectorKind(a) && IsVectorKind(b))
    requires Coord(r, a).Ok? && Coord(r, b).Ok?
    ensures Sub(M(Coord(r, a).value), M(Coord(r, b).value))
      == Ok(Vec(Coord(r, a).value.x - Coord(r, b).value.x, Coord(r, a).value.y - Coord(r, b).value.y, Universe(r.rev)))
  {
    ResolvedShape(r, a);
    ResolvedShape(r, b);
    SubValues(Coord(r, a).value, Coord(r, b).value, Universe(r.rev));
  }

  /** The difference of two Points or of two Vectors in one tag. */
  lemma SubValues(A: Metric, B: Metric, U: string)
    requires (A.Pt? && B.Pt?) || (A.Vec? && B.Vec?)
    requires A.tag == U && B.tag == U
    ensures Sub(M(A), M(B)) == Ok(Vec(A.x - B.x, A.y - B.y, U))
  {
    var s := Sub(M(A), M(B));
    assert s.Ok? && s.value.Vec? && s.value.x == A.x - B.x && s.value.y == A.y - B.y && s.value.tag == U;
  }

  // ---------------------------------------------------------------------
  // Identities and commutativity (test_canvas.py:71-79, 158-177)
  // ---------------------------------------------------------------------

  /** `R(v + 0) == R(v)`, `R(v - v) == 0` and `R(v * 1) == R(v)`, for a zero Vector in any resolvable tag. */
  lemma VectorIdentities(r: Registry, v: Metric, t: string)
    requires Resolvable(r) && WellKinded(v) && IsVectorKind(v) && Coord(r, v).Ok?
    requires Coord(r, Vec(0.0, 0.0, t)).Ok?
    ensures Add(M(v), M(Vec(0.0, 0.0, t))).Ok? && Coord(r, Add(M(v), M(Vec(0.0, 0.0, t))).value) == Coord(r, v)
    ensures Sub(M(v), M(v)).Ok? && Coord(r, Sub(M(v), M(v)).value) == Ok(Vec(0.0, 0.0, Universe(r.rev)))
    ensures Mul(M(v), Scalar(1.0)).Ok? && Coord(r, Mul(M(v), Scalar(1.0)).value) == Coord(r, v)
  {
    ResolveVector(r, 0.0, 0.0, t);
    var z := Coord(r, Vec(0.0, 0.0, t)).value;
    assert z.x == 0.0 && z.y == 0.0;
    VectorSumResolves(r, v, Vec(0.0, 0.0, t));
    ResolvedVector(r, v);
    DifferenceResolves(r, v, v);
    ScaledVectorResolves(r, v, 1.0);
    MulByOne(Coord(r, v).value.x, Coord(r, v).value.y, Universe(r.rev));
  }

  lemma MulByOne(x: real, y: real, U: string)
    ensures Mul(M(Vec(x, y, U)), Scalar(1.0)) == Ok(Vec(x, y, U))
  {
    var s := Mul(M(Vec(x, y, U)), Scalar(1.0));
    assert s.Ok? && s.value.Vec? && s.value.x == x && s.value.y == y && s.value.tag == U;
  }

  /** `R(v1 + v2) == R(v2 + v1)` and `R(v * k) == R(k * v)`. */
  lemma ResolutionCommutative(r: Registry, v1: Metric, v2: Metric, k: real)
    requires Resolvable(r) && WellKinded(v1) && WellKinded(v2)
    requires IsVectorKind(v1) && IsVectorKind(v2)
    requires Coord(r, v1).Ok? && Coord(r, v2).Ok?
    ensures Add(M(v1), M(v2)).Ok? && Add(M(v2), M(v1)).Ok?
    ensures Coord(r, Add(M(v1), M(v2)).value) == Coord(r, Add(M(v2), M(v1)).value)
    ensures Mul(M(v1), Scalar(k)).Ok? && Mul(Scalar(k), M(v1)).Ok?
    ensures Coord(r, Mul(M(v1), Scalar(k)).value) == Coord(r, Mul(Scalar(k), M(v1)).value)
  {
    VectorSumResolves(r, v1, v2);
    VectorSumResolves(r, v2, v1);
    ScaleDefined(v1, k);
  }

  // ---------------------------------------------------------------------
  // Associativity (test_canvas.py:51-69, 132-144)
  // ---------------------------------------------------------------------

  /** `R(p + (v1 + v2)) == R((p + v1) + v2)`. */
  lemma SumsAssociate(r: Registry, p: Metric, v1: Metric, v2: Metric)
    requires Resolvable(r) && WellKinded(p) && WellKinded(v1) && WellKinded(v2)
    requires IsPointKind(p) && IsVectorKind(v1) && IsVectorKind(v2)
    requires Coord(r, p).Ok? && Coord(r, v1).Ok? && Coord(r, v2).Ok?
    ensures Add(M(v1), M(v2)).Ok? && Add(M(p), M(Add(M(v1), M(v2)).value)).Ok?
    ensures Add(M(p), M(v1)).Ok? && Add(M(Add(M(p), M(v1)).value), M(v2)).Ok?
    ensures Coord(r, Add(M(p), M(Add(M(v1), M(v2)).value)).value) == Coord(r, Add(M(Add(M(p), M(v1)).value), M(v2)).value)
    ensures PointAt(Coord(r, Add(M(p), M(Add(M(v1), M(v2)).value)).value),
      Coord(r, p).value.x + Coord(r, v1).value.x + Coord(r, v2).value.x,
      Coord(r, p).value.y + Coord(r, v1).value.y + Coord(r, v2).value.y, Universe(r.rev))
  {
    InnerSum(r, p, v1, v2);
    OuterSum(r, p, v1, v2);
    SamePoint(Coord(r, Add(M(p), M(Add(M(v1), M(v2)).value)).value), Coord(r, Add(M(Add(M(p), M(v1)).value), M(v2)).value),
      Coord(r, p).value.x + Coord(r, v1).value.x + Coord(r, v2).value.x,
      Coord(r, p).value.y + Coord(r, v1).value.y + Coord(r, v2).value.y, Universe(r.rev));
  }

  /** A successful resolution to the Point (x, y) in tag U. */
  predicate PointAt(res: Result<Metric>, x: real, y: real, U: string) {
    res.Ok? && res.value.Pt? && res.value.x == x && res.value.y == y && res.value.tag == U
  }

  lemma SamePoint(a: Result<Metric>, b: Result<Metric>, x: real, y: real, U: string)
    requires PointAt(a, x, y, U) && PointAt(b, x, y, U)
    ensures a == b
  {
  }

  lemma InnerSum(r: Registry, p: Metric, v1: Metric, v2: Metric)
    requires Resolvable(r) && WellKinded(p) && WellKinded(v1) && WellKinded(v2)
    requires IsPointKind(p) && IsVectorKind(v1) && IsVectorKind(v2)
    requires Coord(r, p).Ok? && Coord(r, v1).Ok? && Coord(r, v2).Ok?
    ensures Add(M(v1), M(v2)).Ok? && Add(M(p), M(Add(M(v1), M(v2)).value)).Ok?
    ensures PointAt(Coord(r, Add(M(p), M(Add(M(v1), M(v2)).value)).value),
      Coord(r, p).value.x + Coord(r, v1).value.x + Coord(r, v2).value.x,
      Coord(r, p).value.y + Coord(r, v1).value.y + Coord(r, v2).value.y, Universe(r.rev))
  {
    VectorSumResolves(r, v1, v2);
    var s := Add(M(v1), M(v2)).value;
    PointSumResolves(r, p, s);
    var e := Coord(r, Add(M(p), M(s)).value);
    assert e.Ok? && e.value.Pt? && e.value.tag == Universe(r.rev);
    assert e.value.x == Coord(r, p).value.x + (Coord(r, v1).value.x + Coord(r, v2).value.x);
    assert e.value.y == Coord(r, p).value.y + (Coord(r, v1).value.y + Coord(r, v2).value.y);
  }

  lemma OuterSum(r: Registry, p: Metric, v1: Metric, v2: Metric)
    requires Resolvable(r) && WellKinded(p) && WellKinded(v1) && WellKinded(v2)
    requires IsPointKind(p) && IsVectorKind(v1) && IsVectorKind(v2)
    requires Coord(r, p).Ok? && Coord(r, v1).Ok? && Coord(r, v2).Ok?
    ensures Add(M(p), M(v1)).Ok? && Add(M(Add(M(p), M(v1)).value), M(v2)).Ok?
    ensures PointAt(Coord(r, Add(M(Add(M(p), M(v1)).value), M(v2)).value),
      Coord(r, p).value.x + Coord(r, v1).value.x + Coord(r, v2).value.x,
      Coord(r, p).value.y + Coord(r, v1).value.y + Coord(r, v2).value.y, Universe(r.rev))
  {
    PointSumResolves(r, p, v1);
    var q := Add(M(p), M(v1)).value;
    PointSumResolves(r, q, v2);
    var e := Coord(r, Add(M(q), M(v2)).value);
    assert e.Ok? && e.value.Pt? && e.value.tag == Universe(r.rev);
    assert e.value.x == Coord(r, p).value.x + Coord(r, v1).value.x + Coord(r, v2).value.x;
    assert e.value.y == Coord(r, p).value.y + Coord(r, v1).value.y + Coord(r, v2).value.y;
  }

  /** `R(v1 + (p + v2)) == R((v1 + p) + v2)`: Python hands `v + p` to `p + v`. */
  lemma MixedSumsAssociate(r: Registry, p: Metric, v1: Metric, v2: Metric)
    requires Resolvable(r) && WellKinded(p) && WellKinded(v1) && WellKinded(v2)
    requires IsPointKind(p) && IsVectorKind(v1) && IsVectorKind(v2)
    requires Coord(r, p).Ok? && Coord(r, v1).Ok? && Coord(r, v2).Ok?
    ensures Add(M(p), M(v2)).Ok? && Add(M(v1), M(Add(M(p), M(v2)).value)).Ok?
    ensures Add(M(v1), M(p)).Ok? && Add(M(Add(M(v1), M(p)).value), M(v2)).Ok?
    ensures Coord(r, Add(M(v1), M(Add(M(p), M(v2)).value)).value) == Coord(r, Add(M(Add(M(v1), M(p)).value), M(v2)).value)
  {
    PointSumDefined(r, p, v1);
    PointSumDefined(r, p, v2);
    var q := Add(M(p), M(v2)).value;
    PointSumDefined(r, q, v1);
    OuterSum(r, p, v2, v1);
    OuterSum(r, p, v1, v2);
    SamePoint(Coord(r, Add(M(q), M(v1)).value), Coord(r, Add(M(Add(M(p), M(v1)).value), M(v2)).value),
      Coord(r, p).value.x + Coord(r, v1).value.x + Coord(r, v2).value.x,
      Coord(r, p).value.y + Coord(r, v1).value.y + Coord(r, v2).value.y, Universe(r.rev));
  }

  /** `R(k1 * (k2 * v)) == R((k1 * k2) * v)`. */
  lemma ScalingAssociates(r: Registry, v: Metric, k1: real, k2: real)
    requires Resolvable(r) && WellKinded(v) && IsVectorKind(v) && Coord(r, v).Ok?
    ensures Mul(Scalar(k2), M(v)).Ok? && Mul(Scalar(k1), M(Mul(Scalar(k2), M(v)).value)).Ok?
    ensures Mul(Scalar(k1 * k2), M(v)).Ok?
    ensures Coord(r, Mul(Scalar(k1), M(Mul(Scalar(k2), M(v)).value)).value) == Coord(r, Mul(Scalar(k1 * k2), M(v)).value)
  {
    ScaledVectorResolves(r, v, k2);
    var w := Mul(M(v), Scalar(k2)).value;
    ScaledVectorResolves(r, w, k1);
    ScaledVectorResolves(r, v, k1 * k2);
    ResolvedVector(r, v);
    ScaleTwice(Coord(r, v).value.x, Coord(r, v).value.y, Universe(r.rev), k1, k2);
  }

  lemma ScaleTwice(x: real, y: real, U: string, k1: real, k2: real)
    ensures Mul(M(Vec(x, y, U)), Scalar(k2)).Ok?
    ensures Mul(M(Mul(M(Vec(x, y, U)), Scalar(k2)).value), Scalar(k1)) == Mul(M(Vec(x, y, U)), Scalar(k1 * k2))
  {
    var a := Mul(M(Mul(M(Vec(x, y, U)), Scalar(k2)).value), Scalar(k1));
    var b := Mul(M(Vec(x, y, U)), Scalar(k1 * k2));
    assert (x * k2) * k1 == x * (k1 * k2) && (y * k2) * k1 == y * (k1 * k2);
    assert a.Ok? && b.Ok? && a.value.Vec? && b.value.Vec? && a.value.tag == b.value.tag;
    assert a.value.x == b.value.x && a.value.y == b.value.y;
  }

  /** `R(v / k1 / k2) == R(v / (k1 * k2))` for nonzero k1 and k2. */
  lemma DivisionAssociates(r: Registry, v: Metric, k1: real, k2: real)
    requires Resolvable(r) && WellKinded(v) && IsVectorKind(v) && Coord(r, v).Ok?
    requires k1 != 0.0 && k2 != 0.0
    ensures Div(M(v), Scalar(k1)).Ok? && Div(M(Div(M(v), Scalar(k1)).value), Scalar(k2)).Ok?
    ensures Div(M(v), Scalar(k1 * k2)).Ok?
    ensures Coord(r, Div(M(Div(M(v), Scalar(k1)).value), Scalar(k2)).value) == Coord(r, Div(M(v), Scalar(k1 * k2)).value)
  {
    DividedVectorResolves(r, v, k1);
    var w := Div(M(v), Scalar(k1)).value;
    DividedVectorResolves(r, w, k2);
    DividedVectorResolves(r, v, k1 * k2);
    ResolvedVector(r, v);
    DivideTwice(Coord(r, v).value.x, Coord(r, v).value.y, Universe(r.rev), k1, k2);
  }

  lemma DivideTwice(x: real, y: real, U: string, k1: real, k2: real)
    requires k1 != 0.0 && k2 != 0.0
    ensures Div(M(Vec(x, y, U)), Scalar(k1)).Ok?
    ensures Div(M(Div(M(Vec(x, y, U)), Scalar(k1)).value), Scalar(k2)) == Div(M(Vec(x, y, U)), Scalar(k1 * k2))
  {
    DivTwice(x, k1, k2);
    DivTwice(y, k1, k2);
    var a := Div(M(Div(M(Vec(x, y, U)), Scalar(k1)).value), Scalar(k2));
    var b := Div(M(Vec(x, y, U)), Scalar(k1 * k2));
    assert a.Ok? && b.Ok? && a.value.Vec? && b.value.Vec? && a.value.tag == b.value.tag;
    assert a.value.x == b.value.x && a.value.y == b.value.y;
  }

  lemma DivTwice(x: real, k1: real, k2: real)
    requires k1 != 0.0 && k2 != 0.0
    ensures x / k1 / k2 == x / (k1 * k2)
  {
    assert (x / k1 / k2) * (k1 * k2) == ((x / k1) * k1) * ((1.0 / k2) * k2);
  }

  // ---------------------------------------------------------------------
  // Width and height (test_canvas.py:39-49)
  // ---------------------------------------------------------------------

  /** The width and height of a stretched Vector are the stretched width and height. */
  lemma StretchParts(f: Affine, x: real, y: real, U: string)
    ensures Stretch(f, 0.0, y, U) == HeightOf(Stretch(f, x, y, U), U)
    ensures Stretch(f, x, 0.0, U) == WidthOf(Stretch(f, x, y, U), U)
  {
  }

  /** On a node, `v.height()` and `v.width()` are built by the operators from the anchor origin O. */
  lemma NodePartsAreOperations(v: Metric, A: string)
    requires v.BinVec? && A != Various
    ensures Add(M(Anchor(A)), M(v)).Ok?
    ensures MeetX(M(Anchor(A)), M(Add(M(Anchor(A)), M(v)).value)).Ok?
    ensures MeetX(M(Add(M(Anchor(A)), M(v)).value), M(Anchor(A))).Ok?
    ensures Sub(M(MeetX(M(Anchor(A)), M(Add(M(Anchor(A)), M(v)).value)).value), M(Anchor(A)))
      == Ok(HeightOf(v, A))
    ensures Sub(M(MeetX(M(Add(M(Anchor(A)), M(v)).value), M(Anchor(A))).value), M(Anchor(A)))
      == Ok(WidthOf(v, A))
  {
  }

  /**
   * `R(v.height()) == R(v).height()`, `R(v.width()) == R(v).width()` and
   * `R(v) == R(v.height()) + R(v.width())`, with the anchor origin of the
   * revision ("absolute" in cand/metrics.py, "figure" in canvas.py).
   */
  lemma WidthAndHeightResolve(r: Registry, v: Metric)
    requires Resolvable(r) && WellKinded(v) && IsVectorKind(v) && Coord(r, v).Ok?
    ensures Coord(r, HeightOf(v, Universe(r.rev))) == Ok(HeightOf(Coord(r, v).value, Universe(r.rev)))
    ensures Coord(r, WidthOf(v, Universe(r.rev))) == Ok(WidthOf(Coord(r, v).value, Universe(r.rev)))
    ensures Add(M(Coord(r, HeightOf(v, Universe(r.rev))).value), M(Coord(r, WidthOf(v, Universe(r.rev))).value)) == Coord(r, v)
  {
    var U := Universe(r.rev);
    ResolvedVector(r, v);
    if v.Vec? {
      ResolveConcrete(r, v);
      ResolveConcrete(r, HeightOf(v, U));
      ResolveConcrete(r, WidthOf(v, U));
      StretchParts(Frame(r, v.tag).value, v.x, v.y, U);
    } else {
      NodePartsResolve(r, v);
    }
    WidthPlusHeight(Coord(r, v).value, U);
  }

  lemma NodePartsResolve(r: Registry, v: Metric)
    requires Resolvable(r) && WellKinded(v) && v.BinVec? && Coord(r, v).Ok?
    ensures Coord(r, HeightOf(v, Universe(r.rev))) == Ok(HeightOf(Coord(r, v).value, Universe(r.rev)))
    ensures Coord(r, WidthOf(v, Universe(r.rev))) == Ok(WidthOf(Coord(r, v).value, Universe(r.rev)))
  {
    NodeHeightResolves(r, v);
    NodeWidthResolves(r, v);
  }

  lemma NodeHeightResolves(r: Registry, v: Metric)
    requires Resolvable(r) && WellKinded(v) && v.BinVec? && Coord(r, v).Ok?
    ensures Coord(r, HeightOf(v, Universe(r.rev))) == Ok(HeightOf(Coord(r, v).value, Universe(r.rev)))
  {
    var U := Universe(r.rev);
    var o := Anchor(U);
    assert Coord(r, o) == Ok(o);
    NodePartsAreOperations(v, U);
    PointSumResolves(r, o, v);
    var moved := Add(M(o), M(v)).value;
    MeetResolves(r, o, moved);
    DifferenceResolves(r, MeetX(M(o), M(moved)).value, o);
    ResolvedVector(r, v);
  }

  lemma NodeWidthResolves(r: Registry, v: Metric)
    requires Resolvable(r) && WellKinded(v) && v.BinVec? && Coord(r, v).Ok?
    ensures Coord(r, WidthOf(v, Universe(r.rev))) == Ok(WidthOf(Coord(r, v).value, Universe(r.rev)))
  {
    var U := Universe(r.rev);
    var o := Anchor(U);
    assert Coord(r, o) == Ok(o);
    NodePartsAreOperations(v, U);
    PointSumResolves(r, o, v);
    var moved := Add(M(o), M(v)).value;
    MeetResolves(r, moved, o);
    DifferenceResolves(r, MeetX(M(moved), M(o)).value, o);
    ResolvedVector(r, v);
  }

  // ---------------------------------------------------------------------
  // Mirror images (metrics.py:273-280, 430-433)
  // ---------------------------------------------------------------------

  /** Mirroring a stretched Vector is stretching the mirrored one. */
  lemma StretchFlips(f: Affine, x: real, y: real, U: string)
    ensures Stretch(f, -x, y, U) == FlipX(Stretch(f, x, y, U))
    ensures Stretch(f, x, -y, U) == FlipY(Stretch(f, x, y, U))
  {
    assert f.sx * -x == -(f.sx * x);
    assert f.sy * -y == -(f.sy * y);
  }

  /** A concrete Vector times -1 points the other way. */
  lemma Negated(x: real, y: real, U: string)
    ensures Mul(M(Vec(x, y, U)), Scalar(-1.0)) == Ok(Vec(-x, -y, U))
  {
    assert x * -1.0 == -x && y * -1.0 == -y;
  }

  /** A concrete Vector mirrored across the y-axis, in any tag, resolves to the mirror of its resolution. */
  lemma ConcreteFlipXResolves(r: Registry, x: real, y: real, t: string)
    requires Resolvable(r) && Coord(r, Vec(x, y, t)).Ok?
    ensures Coord(r, FlipX(Vec(x, y, t))) == Ok(FlipX(Coord(r, Vec(x, y, t)).value))
  {
    if t != Universe(r.rev) {
      VectorResolution(r, x, y, t);
      VectorResolution(r, -x, y, t);
      StretchFlips(Frame(r, t).value, x, y, Universe(r.rev));
    }
  }

  /** A concrete Vector mirrored across the x-axis, in any tag, resolves to the mirror of its resolution. */
  lemma ConcreteFlipYResolves(r: Registry, x: real, y: real, t: string)
    requires Resolvable(r) && Coord(r, Vec(x, y, t)).Ok?
    ensures Coord(r, FlipY(Vec(x, y, t))) == Ok(FlipY(Coord(r, Vec(x, y, t)).value))
  {
    if t != Universe(r.rev) {
      VectorResolution(r, x, y, t);
      VectorResolution(r, x, -y, t);
      StretchFlips(Frame(r, t).value, x, y, Universe(r.rev));
    }
  }

  /** `R(v.flipx()) == R(v).flipx()`: on a node, the meet of `v * -1` with `v` resolves to the mirrored width. */
  lemma FlipXResolves(r: Registry, v: Metric)
    requires Resolvable(r) && WellKinded(v) && IsVectorKind(v) && Coord(r, v).Ok?
    ensures Coord(r, FlipX(v)).Ok? && IsVectorKind(FlipX(v))
    ensures Coord(r, FlipX(v)) == Ok(FlipX(Coord(r, v).value))
  {
    if v.Vec? {
      ConcreteFlipXResolves(r, v.x, v.y, v.tag);
    } else {
      var U := Universe(r.rev);
      ResolvedVector(r, v);
      var c := Coord(r, v).value;
      ScaledVectorResolves(r, v, -1.0);
      var n := Mul(M(v), Scalar(-1.0)).value;
      var cn := Vec(-c.x, -c.y, U);
      Negated(c.x, c.y, U);
      assert Coord(r, n) == Ok(cn);
      OperandOfValue(r, n);
      OperandOfValue(r, v);
      assert MeetX(M(n), M(v)) == Ok(FlipX(v));
      Resolves(r, M(n), OpMeet, M(v), M(cn), M(c));
      assert MeetX(M(cn), M(c)) == Ok(FlipX(c));
    }
  }

  /** `R(v.flipy()) == R(v).flipy()`: on a node, the meet of `v` with `v * -1` resolves to the mirrored height. */
  lemma FlipYResolves(r: Registry, v: Metric)
    requires Resolvable(r) && WellKinded(v) && IsVectorKind(v) && Coord(r, v).Ok?
    ensures Coord(r, FlipY(v)).Ok? && IsVectorKind(FlipY(v))
    ensures Coord(r, FlipY(v)) == Ok(FlipY(Coord(r, v).value))
  {
    if v.Vec? {
      ConcreteFlipYResolves(r, v.x, v.y, v.tag);
    } else {
      var U := Universe(r.rev);
      ResolvedVector(r, v);
      var c := Coord(r, v).value;
      ScaledVectorResolves(r, v, -1.0);
      var n := Mul(M(v), Scalar(-1.0)).value;
      var cn := Vec(-c.x, -c.y, U);
      Negated(c.x, c.y, U);
      assert Coord(r, n) == Ok(cn);
      OperandOfValue(r, n);
      OperandOfValue(r, v);
      assert MeetX(M(v), M(n)) == Ok(FlipY(v));
      Resolves(r, M(v), OpMeet, M(n), M(c), M(cn));
      assert MeetX(M(c), M(cn)) == Ok(FlipY(c));
    }
  }
}
