/**
 * What the operators of cand/metrics.py promise: which operand kinds each
 * accepts and what kind it returns, when it computes at once and when it
 * defers to a node, exactly when it fails, and the algebra of the concrete
 * results.
 */
module MetricLaws {
  import opened Results
  import opened Metrics

  // ---------------------------------------------------------------------
  // Kinds
  // ---------------------------------------------------------------------

  datatype Sort = PointSort | VectorSort | ScalarSort

  function MetricSort(m: Metric): Sort {
    if IsPointKind(m) then PointSort else VectorSort
  }

  function SortOf(o: Operand): Sort {
    if o.Scalar? then ScalarSort else MetricSort(o.m)
  }

  /**
   * The kind table the docstrings of Point and Vector describe: Point ± Vector
   * is a Point, Point - Point a Vector, Vectors form a vector space over the
   * numbers, meets take two values of one kind, the mean two Points, and a
   * rotation a Vector and a number of degrees.
   */
  function Signature(op: Op, s1: Sort, s2: Sort): Option<Sort> {
    match (op, s1, s2)
    case (OpAdd, PointSort, VectorSort) => Some(PointSort)
    case (OpAdd, VectorSort, PointSort) => Some(PointSort)
    case (OpAdd, VectorSort, VectorSort) => Some(VectorSort)
    case (OpSub, PointSort, VectorSort) => Some(PointSort)
    case (OpSub, PointSort, PointSort) => Some(VectorSort)
    case (OpSub, VectorSort, VectorSort) => Some(VectorSort)
    case (OpMul, VectorSort, ScalarSort) => Some(VectorSort)
    case (OpMul, ScalarSort, VectorSort) => Some(VectorSort)
    case (OpDiv, VectorSort, ScalarSort) => Some(VectorSort)
    case (OpMeet, PointSort, PointSort) => Some(PointSort)
    case (OpMeet, VectorSort, VectorSort) => Some(VectorSort)
    case (OpMean, PointSort, PointSort) => Some(PointSort)
    case (OpRot, VectorSort, ScalarSort) => Some(VectorSort)
    case (OpRot, ScalarSort, VectorSort) => Some(VectorSort)
    case _ => None
  }

  /**
   * An expression whose every node has the kind its operator yields.  The
   * MetaBinop constructor itself accepts any operands; the operators only
   * ever build kind-correct nodes (OperatorsBuildWellKinded).
   */
  predicate WellKinded(m: Metric) {
    match m
    case Pt(_, _, _) => true
    case Vec(_, _, _) => true
    case BinPt(l, op, r) =>
      WellKindedOperand(l) && WellKindedOperand(r) && Signature(op, SortOf(l), SortOf(r)) == Some(PointSort)
    case BinVec(l, op, r) =>
      WellKindedOperand(l) && WellKindedOperand(r) && Signature(op, SortOf(l), SortOf(r)) == Some(VectorSort)
  }

  predicate WellKindedOperand(o: Operand) {
    o.Scalar? || WellKinded(o.m)
  }

  /** Every successful operation returns the kind the table gives. */
  lemma ApplyRespectsSignature(a: Operand, op: Op, b: Operand)
    requires Apply(a, op, b).Ok?
    ensures Signature(op, SortOf(a), SortOf(b)) == Some(MetricSort(Apply(a, op, b).value))
  {
    OperatorFacts(a, op, b);
  }

  /**
   * The kind-correct operations that still fail: a plain value tagged
   * "various" whose partner is a node (the tags compare equal, so Python
   * reads components the node does not have), a concrete Vector divided by
   * 0, and rotations this model does not evaluate.
   */
  predicate Blocked(a: Operand, op: Op, b: Operand) {
    match op
    case OpAdd => a.M? && a.m.Vec? && a.m.tag == Various && b.M? && b.m.BinVec?
    case OpSub => a.M? && IsConcrete(a.m) && a.m.tag == Various && b.M? && IsNode(b.m)
    case OpMul => false
    case OpDiv => a.M? && a.m.Vec? && b.Scalar? && b.k == 0.0
    case OpMeet => a.M? && IsConcrete(a.m) && a.m.tag == Various && b.M? && IsNode(b.m)
    case OpMean => a.M? && IsConcrete(a.m) && a.m.tag == Various && b.M? && IsNode(b.m)
    case OpRot =>
      (a.M? && a.m.Vec? && a.m.tag == Absolute)
      || (a.Scalar? && b.M? && b.m.Vec? && b.m.tag == Absolute)
      || (a.Scalar? && b.M? && b.m.BinVec?)
  }

  /** An operation outside the kind table fails with a type error; inside it, it fails exactly when Blocked. */
  lemma ApplyFailsExactly(a: Operand, op: Op, b: Operand)
    ensures Signature(op, SortOf(a), SortOf(b)).None? ==> Apply(a, op, b) == Err(TypeMismatch)
    ensures Signature(op, SortOf(a), SortOf(b)).Some? ==> (Apply(a, op, b).Err? <==> Blocked(a, op, b))
    ensures Apply(a, op, b) == Err(ZeroDivision) <==> op == OpDiv && Blocked(a, op, b)
  {
    OperatorFacts(a, op, b);
  }

  // ---------------------------------------------------------------------
  // Deferral
  // ---------------------------------------------------------------------

  /**
   * When an operation computes at once: every metric operand is concrete,
   * the two tags agree, the operation is not a rotation, and a Point sum is
   * not tagged "various".
   */
  predicate Eager(a: Operand, op: Op, b: Operand) {
    op != OpRot
    && (a.M? ==> IsConcrete(a.m))
    && (b.M? ==> IsConcrete(b.m))
    && (a.M? && b.M? ==> a.m.tag == b.m.tag)
    && !(op == OpAdd && a.M? && b.M? && (a.m.Pt? || b.m.Pt?) && a.m.tag == Various)
  }

  /** The operations Python hands to the right operand's reflected method. */
  predicate Reflected(a: Operand, op: Op, b: Operand) {
    (op == OpAdd && VectorOperand(a) && PointOperand(b))
    || ((op == OpMul || op == OpRot) && a.Scalar?)
  }

  /**
   * A successful operation is concrete exactly when it is Eager; otherwise it
   * is a node recording the operator and the two operands, in the order the
   * method that built it saw them.  A concrete result keeps its operands' tag.
   */
  lemma Deferral(a: Operand, op: Op, b: Operand)
    requires Apply(a, op, b).Ok?
    ensures IsConcrete(Apply(a, op, b).value) <==> Eager(a, op, b)
    ensures IsNode(Apply(a, op, b).value) ==> Apply(a, op, b).value.op == op
    ensures IsNode(Apply(a, op, b).value) && !Reflected(a, op, b) ==>
      Apply(a, op, b).value.lhs == a && Apply(a, op, b).value.rhs == b
    ensures IsNode(Apply(a, op, b).value) && Reflected(a, op, b) ==>
      Apply(a, op, b).value.lhs == b && Apply(a, op, b).value.rhs == a
    ensures IsConcrete(Apply(a, op, b).value) && a.M? ==> Apply(a, op, b).value.tag == a.m.tag
    ensures IsConcrete(Apply(a, op, b).value) && b.M? ==> Apply(a, op, b).value.tag == b.m.tag
  {
    OperatorFacts(a, op, b);
  }

  /** Once a node is involved, every operation builds a new node and evaluates nothing. */
  lemma NodesStayDeferred(a: Operand, op: Op, b: Operand)
    requires (a.M? && IsNode(a.m)) || (b.M? && IsNode(b.m))
    requires Apply(a, op, b).Ok?
    ensures IsNode(Apply(a, op, b).value)
    ensures Coordinate(Apply(a, op, b).value) == Various
  {
    Deferral(a, op, b);
  }

  /** Kind-correct operands give a kind-correct result. */
  lemma OperatorsBuildWellKinded(a: Operand, op: Op, b: Operand)
    requires WellKindedOperand(a) && WellKindedOperand(b)
    requires Apply(a, op, b).Ok?
    ensures WellKinded(Apply(a, op, b).value)
  {
    ApplyRespectsSignature(a, op, b);
    Deferral(a, op, b);
  }

  // ---------------------------------------------------------------------
  // Equality
  // ---------------------------------------------------------------------

  /** Forgets the Point/Vector distinction, which Point.__eq__ and MetaBinop.__eq__ do not look at. */
  function Shape(m: Metric): Metric {
    match m
    case Pt(x, y, t) => Pt(x, y, t)
    case Vec(x, y, t) => Pt(x, y, t)
    case BinPt(l, op, r) => BinPt(ShapeOperand(l), op, ShapeOperand(r))
    case BinVec(l, op, r) => BinPt(ShapeOperand(l), op, ShapeOperand(r))
  }

  function ShapeOperand(o: Operand): Operand {
    if o.Scalar? then o else M(Shape(o.m))
  }

  lemma {:induction false} EqualsReflexive(a: Operand)
    ensures Equals(a, a) == Ok(true)
  {
    if a.M? && IsNode(a.m) {
      EqualsReflexive(a.m.lhs);
      EqualsReflexive(a.m.rhs);
    }
  }

  /** `a == b` answers True only for values with the same components, tags and tree, up to kind. */
  lemma {:induction false} EqualsSound(a: Operand, b: Operand)
    requires Equals(a, b) == Ok(true)
    ensures ShapeOperand(a) == ShapeOperand(b)
  {
    if a.M? && b.M? && IsNode(a.m) && IsNode(b.m) {
      EqualsSound(a.m.lhs, b.m.lhs);
      EqualsSound(a.m.rhs, b.m.rhs);
    }
  }

  /** Point.__eq__ does not check its operand's kind: a Point equals the Vector with its fields, but not conversely. */
  lemma PointEqualsVector(x: real, y: real, t: string)
    ensures Equals(M(Pt(x, y, t)), M(Vec(x, y, t))) == Ok(true)
    ensures Equals(M(Vec(x, y, t)), M(Pt(x, y, t))) == Err(TypeMismatch)
  {
  }

  // ---------------------------------------------------------------------
  // Algebra of concrete values
  // ---------------------------------------------------------------------

  /** Moving a Point by a Vector and back returns the Point. */
  lemma AddThenSub(p: Metric, v: Metric)
    requires p.Pt? && v.Vec? && p.tag == v.tag && p.tag != Various
    ensures Add(M(p), M(v)).Ok?
    ensures Sub(M(Add(M(p), M(v)).value), M(v)) == Ok(p)
  {
  }

  /** `p + (q - p) == q`: the difference of two Points moves one onto the other. */
  lemma DifferenceMovesPoint(p: Metric, q: Metric)
    requires p.Pt? && q.Pt? && p.tag == q.tag && p.tag != Various
    ensures Sub(M(q), M(p)).Ok?
    ensures Add(M(p), M(Sub(M(q), M(p)).value)) == Ok(q)
  {
  }

  /** Division undoes multiplication by the same nonzero number. */
  lemma {:induction false} MulThenDiv(v: Metric, k: real)
    requires v.Vec? && k != 0.0
    ensures Mul(M(v), Scalar(k)).Ok?
    ensures Div(M(Mul(M(v), Scalar(k)).value), Scalar(k)) == Ok(v)
  {
    MulDivCancel(v.x, k);
    MulDivCancel(v.y, k);
    var w := Mul(M(v), Scalar(k)).value;
    assert w.Vec? && w.x == v.x * k && w.y == v.y * k && w.tag == v.tag;
    var d := Div(M(w), Scalar(k)).value;
    assert d.Vec? && d.x == v.x && d.y == v.y && d.tag == v.tag;
  }

  lemma MulDivCancel(x: real, k: real)
    requires k != 0.0
    ensures x * k / k == x
  {
    var q := x * k / k;
    assert q * k == x * k;
    assert (q - x) * k == 0.0;
  }

  /** `-v` negates both components, and negating twice gives `v` back. */
  lemma NegInvolution(v: Metric)
    requires v.Vec?
    ensures Neg(v) == Ok(Vec(-v.x, -v.y, v.tag))
    ensures Neg(Neg(v).value) == Ok(v)
  {
  }

  /** A Vector is the sum of its height and its width, and each keeps the tag. */
  lemma WidthPlusHeight(v: Metric, anchor: string)
    requires v.Vec?
    ensures Add(M(HeightOf(v, anchor)), M(WidthOf(v, anchor))) == Ok(v)
  {
  }

  /** The flips negate one component each, and each undoes itself. */
  lemma FlipsInvolutive(v: Metric)
    requires v.Vec?
    ensures FlipX(v) == Vec(-v.x, v.y, v.tag) && FlipY(v) == Vec(v.x, -v.y, v.tag)
    ensures FlipX(FlipX(v)) == v && FlipY(FlipY(v)) == v
  {
  }

  /** The mean of two Points is as far from the first as the second is from it. */
  lemma MeanIsMidpoint(p: Metric, q: Metric)
    requires p.Pt? && q.Pt? && p.tag == q.tag
    ensures Mean(M(p), M(q)).Ok?
    ensures Sub(M(Mean(M(p), M(q)).value), M(p)) == Sub(M(q), M(Mean(M(p), M(q)).value))
  {
  }

  /** A meet of a value with itself is the value; `<<` is `>>` with the operands swapped. */
  lemma MeetLaws(p: Metric, q: Metric)
    requires IsConcrete(p) && IsConcrete(q) && p.Pt? == q.Pt? && p.tag == q.tag
    ensures MeetX(M(p), M(p)) == Ok(p)
    ensures MeetX(M(p), M(q)).Ok? && MeetX(M(p), M(q)).value.x == p.x && MeetX(M(p), M(q)).value.y == q.y
    ensures MeetY(M(p), M(q)) == MeetX(M(q), M(p))
  {
  }

  /** Vector addition of same-tag Vectors commutes; Point + (u + v) is (Point + u) + v. */
  lemma AdditionLaws(p: Metric, u: Metric, v: Metric)
    requires p.Pt? && u.Vec? && v.Vec? && p.tag == u.tag == v.tag && p.tag != Various
    ensures Add(M(u), M(v)) == Add(M(v), M(u))
    ensures Add(M(p), M(Add(M(u), M(v)).value)) == Add(M(Add(M(p), M(u)).value), M(v))
  {
    var t := p.tag;
    assert p == Pt(p.x, p.y, t) && u == Vec(u.x, u.y, t) && v == Vec(v.x, v.y, t);
    VectorSum(u.x, u.y, v.x, v.y, t);
    VectorSum(v.x, v.y, u.x, u.y, t);
    PointSum(p.x, p.y, u.x + v.x, u.y + v.y, t);
    PointSum(p.x, p.y, u.x, u.y, t);
    PointSum(p.x + u.x, p.y + u.y, v.x, v.y, t);
  }

  /** Two concrete Vectors in one tag add componentwise. */
  lemma VectorSum(ux: real, uy: real, vx: real, vy: real, t: string)
    ensures Add(M(Vec(ux, uy, t)), M(Vec(vx, vy, t))) == Ok(Vec(ux + vx, uy + vy, t))
  {
  }

  /** A concrete Point and Vector in one named tag add componentwise. */
  lemma PointSum(px: real, py: real, vx: real, vy: real, t: string)
    requires t != Various
    ensures Add(M(Pt(px, py, t)), M(Vec(vx, vy, t))) == Ok(Pt(px + vx, py + vy, t))
  {
  }

  // ---------------------------------------------------------------------
  // The case analysis behind the lemmas above
  // ---------------------------------------------------------------------

  /** Everything the kind table, Blocked, Eager and Reflected say about one operation. */
  predicate Facts(a: Operand, op: Op, b: Operand) {
    var r := Apply(a, op, b);
    (r.Ok? ==> Signature(op, SortOf(a), SortOf(b)) == Some(MetricSort(r.value)))
    && (Signature(op, SortOf(a), SortOf(b)).None? ==> r == Err(TypeMismatch))
    && (Signature(op, SortOf(a), SortOf(b)).Some? ==> (r.Err? <==> Blocked(a, op, b)))
    && (r == Err(ZeroDivision) <==> op == OpDiv && Blocked(a, op, b))
    && (r.Ok? ==> (IsConcrete(r.value) <==> Eager(a, op, b)))
    && (r.Ok? && IsNode(r.value) ==> r.value.op == op)
    && (r.Ok? && IsNode(r.value) && !Reflected(a, op, b) ==> r.value.lhs == a && r.value.rhs == b)
    && (r.Ok? && IsNode(r.value) && Reflected(a, op, b) ==> r.value.lhs == b && r.value.rhs == a)
    && (r.Ok? && IsConcrete(r.value) && a.M? ==> r.value.tag == a.m.tag)
    && (r.Ok? && IsConcrete(r.value) && b.M? ==> r.value.tag == b.m.tag)
  }

  lemma OperatorFacts(a: Operand, op: Op, b: Operand)
    ensures Facts(a, op, b)
  {
    match op
    case OpAdd => AddFacts(a, b);
    case OpSub => SubFacts(a, b);
    case OpMul => MulFacts(a, b);
    case OpDiv => DivFacts(a, b);
    case OpMeet => MeetFacts(a, b);
    case OpMean => MeanFacts(a, b);
    case OpRot => RotFacts(a, b);
  }

  lemma AddFacts(a: Operand, b: Operand)
    ensures Facts(a, OpAdd, b)
  {
    if VectorOperand(a) && PointOperand(b) {
      assert Add(a, b) == Add(b, a);
    }
    match a
    case Scalar(_) =>
      match b {
        case Scalar(_) =>
        case M(Pt(_, _, _)) =>
        case M(Vec(_, _, _)) =>
        case M(BinPt(_, _, _)) =>
        case M(BinVec(_, _, _)) =>
      }
    case M(Pt(_, _, _)) =>
      match b {
        case Scalar(_) =>
        case M(Pt(_, _, _)) =>
        case M(Vec(_, _, _)) =>
        case M(BinPt(_, _, _)) =>
        case M(BinVec(_, _, _)) =>
      }
    case M(Vec(_, _, _)) =>
      match b {
        case Scalar(_) =>
        case M(Pt(_, _, _)) =>
        case M(Vec(_, _, _)) =>
        case M(BinPt(_, _, _)) =>
        case M(BinVec(_, _, _)) =>
      }
    case M(BinPt(_, _, _)) =>
      match b {
        case Scalar(_) =>
        case M(Pt(_, _, _)) =>
        case M(Vec(_, _, _)) =>
        case M(BinPt(_, _, _)) =>
        case M(BinVec(_, _, _)) =>
      }
    case M(BinVec(_, _, _)) =>
      match b {
        case Scalar(_) =>
        case M(Pt(_, _, _)) =>
        case M(Vec(_, _, _)) =>
        case M(BinPt(_, _, _)) =>
        case M(BinVec(_, _, _)) =>
      }
  }

  lemma SubFacts(a: Operand, b: Operand)
    ensures Facts(a, OpSub, b)
  {
    match a
    case Scalar(_) =>
      match b {
        case Scalar(_) =>
        case M(Pt(_, _, _)) =>
        case M(Vec(_, _, _)) =>
        case M(BinPt(_, _, _)) =>
        case M(BinVec(_, _, _)) =>
      }
    case M(Pt(_, _, _)) =>
      match b {
        case Scalar(_) =>
        case M(Pt(_, _, _)) =>
        case M(Vec(_, _, _)) =>
        case M(BinPt(_, _, _)) =>
        case M(BinVec(_, _, _)) =>
      }
    case M(Vec(_, _, _)) =>
      match b {
        case Scalar(_) =>
        case M(Pt(_, _, _)) =>
        case M(Vec(_, _, _)) =>
        case M(BinPt(_, _, _)) =>
        case M(BinVec(_, _, _)) =>
      }
    case M(BinPt(_, _, _)) =>
      match b {
        case Scalar(_) =>
        case M(Pt(_, _, _)) =>
        case M(Vec(_, _, _)) =>
        case M(BinPt(_, _, _)) =>
        case M(BinVec(_, _, _)) =>
      }
    case M(BinVec(_, _, _)) =>
      match b {
        case Scalar(_) =>
        case M(Pt(_, _, _)) =>
        case M(Vec(_, _, _)) =>
        case M(BinPt(_, _, _)) =>
        case M(BinVec(_, _, _)) =>
      }
  }

  lemma MulFacts(a: Operand, b: Operand)
    ensures Facts(a, OpMul, b)
  {
    if a.Scalar? && VectorOperand(b) {
      assert Mul(a, b) == Mul(b, a);
    }
    match a
    case Scalar(_) =>
      match b {
        case Scalar(_) =>
        case M(Pt(_, _, _)) =>
        case M(Vec(_, _, _)) =>
        case M(BinPt(_, _, _)) =>
        case M(BinVec(_, _, _)) =>
      }
    case M(Pt(_, _, _)) =>
      match b {
        case Scalar(_) =>
        case M(Pt(_, _, _)) =>
        case M(Vec(_, _, _)) =>
        case M(BinPt(_, _, _)) =>
        case M(BinVec(_, _, _)) =>
      }
    case M(Vec(_, _, _)) =>
      match b {
        case Scalar(_) =>
        case M(Pt(_, _, _)) =>
        case M(Vec(_, _, _)) =>
        case M(BinPt(_, _, _)) =>
        case M(BinVec(_, _, _)) =>
      }
    case M(BinPt(_, _, _)) =>
      match b {
        case Scalar(_) =>
        case M(Pt(_, _, _)) =>
        case M(Vec(_, _, _)) =>
        case M(BinPt(_, _, _)) =>
        case M(BinVec(_, _, _)) =>
      }
    case M(BinVec(_, _, _)) =>
      match b {
        case Scalar(_) =>
        case M(Pt(_, _, _)) =>
        case M(Vec(_, _, _)) =>
        case M(BinPt(_, _, _)) =>
        case M(BinVec(_, _, _)) =>
      }
  }

  lemma DivFacts(a: Operand, b: Operand)
    ensures Facts(a, OpDiv, b)
  {
    match a
    case Scalar(_) =>
      match b {
        case Scalar(_) =>
        case M(Pt(_, _, _)) =>
        case M(Vec(_, _, _)) =>
        case M(BinPt(_, _, _)) =>
        case M(BinVec(_, _, _)) =>
      }
    case M(Pt(_, _, _)) =>
      match b {
        case Scalar(_) =>
        case M(Pt(_, _, _)) =>
        case M(Vec(_, _, _)) =>
        case M(BinPt(_, _, _)) =>
        case M(BinVec(_, _, _)) =>
      }
    case M(Vec(_, _, _)) =>
      match b {
        case Scalar(_) =>
        case M(Pt(_, _, _)) =>
        case M(Vec(_, _, _)) =>
        case M(BinPt(_, _, _)) =>
        case M(BinVec(_, _, _)) =>
      }
    case M(BinPt(_, _, _)) =>
      match b {
        case Scalar(_) =>
        case M(Pt(_, _, _)) =>
        case M(Vec(_, _, _)) =>
        case M(BinPt(_, _, _)) =>
        case M(BinVec(_, _, _)) =>
      }
    case M(BinVec(_, _, _)) =>
      match b {
        case Scalar(_) =>
        case M(Pt(_, _, _)) =>
        case M(Vec(_, _, _)) =>
        case M(BinPt(_, _, _)) =>
        case M(BinVec(_, _, _)) =>
      }
  }

  lemma MeetFacts(a: Operand, b: Operand)
    ensures Facts(a, OpMeet, b)
  {
    match a
    case Scalar(_) =>
      match b {
        case Scalar(_) =>
        case M(Pt(_, _, _)) =>
        case M(Vec(_, _, _)) =>
        case M(BinPt(_, _, _)) =>
        case M(BinVec(_, _, _)) =>
      }
    case M(Pt(_, _, _)) =>
      match b {
        case Scalar(_) =>
        case M(Pt(_, _, _)) =>
        case M(Vec(_, _, _)) =>
        case M(BinPt(_, _, _)) =>
        case M(BinVec(_, _, _)) =>
      }
    case M(Vec(_, _, _)) =>
      match b {
        case Scalar(_) =>
        case M(Pt(_, _, _)) =>
        case M(Vec(_, _, _)) =>
        case M(BinPt(_, _, _)) =>
        case M(BinVec(_, _, _)) =>
      }
    case M(BinPt(_, _, _)) =>
      match b {
        case Scalar(_) =>
        case M(Pt(_, _, _)) =>
        case M(Vec(_, _, _)) =>
        case M(BinPt(_, _, _)) =>
        case M(BinVec(_, _, _)) =>
      }
    case M(BinVec(_, _, _)) =>
      match b {
        case Scalar(_) =>
        case M(Pt(_, _, _)) =>
        case M(Vec(_, _, _)) =>
        case M(BinPt(_, _, _)) =>
        case M(BinVec(_, _, _)) =>
      }
  }

  lemma MeanFacts(a: Operand, b: Operand)
    ensures Facts(a, OpMean, b)
  {
    match a
    case Scalar(_) =>
      match b {
        case Scalar(_) =>
        case M(Pt(_, _, _)) =>
        case M(Vec(_, _, _)) =>
        case M(BinPt(_, _, _)) =>
        case M(BinVec(_, _, _)) =>
      }
    case M(Pt(_, _, _)) =>
      match b {
        case Scalar(_) =>
        case M(Pt(_, _, _)) =>
        case M(Vec(_, _, _)) =>
        case M(BinPt(_, _, _)) =>
        case M(BinVec(_, _, _)) =>
      }
    case M(Vec(_, _, _)) =>
      match b {
        case Scalar(_) =>
        case M(Pt(_, _, _)) =>
        case M(Vec(_, _, _)) =>
        case M(BinPt(_, _, _)) =>
        case M(BinVec(_, _, _)) =>
      }
    case M(BinPt(_, _, _)) =>
      match b {
        case Scalar(_) =>
        case M(Pt(_, _, _)) =>
        case M(Vec(_, _, _)) =>
        case M(BinPt(_, _, _)) =>
        case M(BinVec(_, _, _)) =>
      }
    case M(BinVec(_, _, _)) =>
      match b {
        case Scalar(_) =>
        case M(Pt(_, _, _)) =>
        case M(Vec(_, _, _)) =>
        case M(BinPt(_, _, _)) =>
        case M(BinVec(_, _, _)) =>
      }
  }

  lemma RotFacts(a: Operand, b: Operand)
    ensures Facts(a, OpRot, b)
  {
    if a.Scalar? && b.M? && b.m.Vec? {
      assert Rotate(a, b) == Rotate(b, a);
    }
    match a
    case Scalar(_) =>
      match b {
        case Scalar(_) =>
        case M(Pt(_, _, _)) =>
        case M(Vec(_, _, _)) =>
        case M(BinPt(_, _, _)) =>
        case M(BinVec(_, _, _)) =>
      }
    case M(Pt(_, _, _)) =>
      match b {
        case Scalar(_) =>
        case M(Pt(_, _, _)) =>
        case M(Vec(_, _, _)) =>
        case M(BinPt(_, _, _)) =>
        case M(BinVec(_, _, _)) =>
      }
    case M(Vec(_, _, _)) =>
      match b {
        case Scalar(_) =>
        case M(Pt(_, _, _)) =>
        case M(Vec(_, _, _)) =>
        case M(BinPt(_, _, _)) =>
        case M(BinVec(_, _, _)) =>
      }
    case M(BinPt(_, _, _)) =>
      match b {
        case Scalar(_) =>
        case M(Pt(_, _, _)) =>
        case M(Vec(_, _, _)) =>
        case M(BinPt(_, _, _)) =>
        case M(BinVec(_, _, _)) =>
      }
    case M(BinVec(_, _, _)) =>
      match b {
        case Scalar(_) =>
        case M(Pt(_, _, _)) =>
        case M(Vec(_, _, _)) =>
        case M(BinPt(_, _, _)) =>
        case M(BinVec(_, _, _)) =>
      }
  }
}
