/**
 * The metric value algebra of cand/metrics.py: Points and Vectors tagged with
 * a coordinate system, and the deferred-operation nodes (BinopPoint,
 * BinopVector) built when two operands are in different coordinate systems.
 *
 * Every Python operator becomes one total function over two operands.  An
 * operand is a metric value or a plain number; the function returns the value
 * Python returns, or the failure Python raises.  Python's reflected operators
 * are followed exactly: `k * v` is `v * k`, `v + p` is `p + v`, `a << b` is
 * `b >> a`.
 */
module Metrics {
  import opened Results

  /** The operator table of MetaBinop ('+', '-', '*', '/', '>>', '|', '@'). */
  datatype Op = OpAdd | OpSub | OpMul | OpDiv | OpMeet | OpMean | OpRot

  datatype Metric =
    | Pt(x: real, y: real, tag: string)
    | Vec(x: real, y: real, tag: string)
    | BinPt(lhs: Operand, op: Op, rhs: Operand)
    | BinVec(lhs: Operand, op: Op, rhs: Operand)

  datatype Operand = M(m: Metric) | Scalar(k: real)

  /** The tag every deferred node carries, and the universal tag of the canvas. */
  const Various := "various"
  const Absolute := "absolute"
  const Default := "default"

  /** isinstance(v, Point): BinopPoint is a subclass of Point. */
  predicate IsPointKind(m: Metric) { m.Pt? || m.BinPt? }

  /** isinstance(v, Vector): BinopVector is a subclass of Vector. */
  predicate IsVectorKind(m: Metric) { m.Vec? || m.BinVec? }

  predicate IsConcrete(m: Metric) { m.Pt? || m.Vec? }

  predicate IsNode(m: Metric) { m.BinPt? || m.BinVec? }

  /** The `coordinate` attribute; MetaBinop fixes it to "various". */
  function Coordinate(m: Metric): (t: string)
    ensures IsNode(m) ==> t == Various
  {
    if IsConcrete(m) then m.tag else Various
  }

  predicate PointOperand(o: Operand) { o.M? && IsPointKind(o.m) }

  predicate VectorOperand(o: Operand) { o.M? && IsVectorKind(o.m) }

  // ---------------------------------------------------------------------
  // Operators
  // ---------------------------------------------------------------------

  /** `a + b` (Point.__add__, Vector.__add__ and the Binop overrides). */
  function Add(a: Operand, b: Operand): Result<Metric>
    decreases if VectorOperand(a) then 1 else 0
  {
    match a
    case Scalar(_) => Err(TypeMismatch)
    case M(Pt(x, y, t)) =>
      if !VectorOperand(b) then Err(TypeMismatch)
      else if Coordinate(b.m) == t && t != Various then Ok(Pt(x + b.m.x, y + b.m.y, t))
      else Ok(BinPt(a, OpAdd, b))
    case M(BinPt(_, _, _)) =>
      if VectorOperand(b) then Ok(BinPt(a, OpAdd, b)) else Err(TypeMismatch)
    case M(Vec(x, y, t)) =>
      if PointOperand(b) then Add(b, a)
      else if !VectorOperand(b) then Err(TypeMismatch)
      else if Coordinate(b.m) == t then
        // a node has no components: Python fails reading `other.x`
        if b.m.Vec? then Ok(Vec(x + b.m.x, y + b.m.y, t)) else Err(TypeMismatch)
      else Ok(BinVec(a, OpAdd, b))
    case M(BinVec(_, _, _)) =>
      if VectorOperand(b) then Ok(BinVec(a, OpAdd, b))
      else if PointOperand(b) then Add(b, a)
      else Err(TypeMismatch)
  }

  /** `a - b`. */
  function Sub(a: Operand, b: Operand): Result<Metric> {
    match a
    case Scalar(_) => Err(TypeMismatch)
    case M(Pt(x, y, t)) =>
      if VectorOperand(b) then
        if Coordinate(b.m) != t then Ok(BinPt(a, OpSub, b))
        else if b.m.Vec? then Ok(Pt(x - b.m.x, y - b.m.y, t))
        else Err(TypeMismatch)
      else if PointOperand(b) then
        if Coordinate(b.m) != t then Ok(BinVec(a, OpSub, b))
        else if b.m.Pt? then Ok(Vec(x - b.m.x, y - b.m.y, t))
        else Err(TypeMismatch)
      else Err(TypeMismatch)
    case M(BinPt(_, _, _)) =>
      if VectorOperand(b) then Ok(BinPt(a, OpSub, b))
      else if PointOperand(b) then Ok(BinVec(a, OpSub, b))
      else Err(TypeMismatch)
    case M(Vec(x, y, t)) =>
      if !VectorOperand(b) then Err(TypeMismatch)
      else if Coordinate(b.m) != t then Ok(BinVec(a, OpSub, b))
      else if b.m.Vec? then Ok(Vec(x - b.m.x, y - b.m.y, t))
      else Err(TypeMismatch)
    case M(BinVec(_, _, _)) =>
      if VectorOperand(b) then Ok(BinVec(a, OpSub, b)) else Err(TypeMismatch)
  }

  /** `a * b`: only a Vector and a number, in either order. */
  function Mul(a: Operand, b: Operand): Result<Metric>
    decreases if a.Scalar? then 1 else 0
  {
    match a
    case Scalar(_) => if VectorOperand(b) then Mul(b, a) else Err(TypeMismatch)
    case M(Vec(x, y, t)) => if b.Scalar? then Ok(Vec(x * b.k, y * b.k, t)) else Err(TypeMismatch)
    case M(BinVec(_, _, _)) => if b.Scalar? then Ok(BinVec(a, OpMul, b)) else Err(TypeMismatch)
    case M(_) => Err(TypeMismatch)
  }

  /** `a / b`: a Vector by a number; a concrete Vector requires `b != 0`. */
  function Div(a: Operand, b: Operand): Result<Metric> {
    match a
    case M(Vec(x, y, t)) =>
      if !b.Scalar? then Err(TypeMismatch)
      else if b.k == 0.0 then Err(ZeroDivision)
      else Ok(Vec(x / b.k, y / b.k, t))
    case M(BinVec(_, _, _)) => if b.Scalar? then Ok(BinVec(a, OpDiv, b)) else Err(TypeMismatch)
    case _ => Err(TypeMismatch)
  }

  /** The meet `a >> b`: x from `a`, y from `b`; both Points or both Vectors. */
  function MeetX(a: Operand, b: Operand): Result<Metric> {
    match a
    case M(Pt(x, _, t)) =>
      if !PointOperand(b) then Err(TypeMismatch)
      else if Coordinate(b.m) != t then Ok(BinPt(a, OpMeet, b))
      else if b.m.Pt? then Ok(Pt(x, b.m.y, t))
      else Err(TypeMismatch)
    case M(BinPt(_, _, _)) => if PointOperand(b) then Ok(BinPt(a, OpMeet, b)) else Err(TypeMismatch)
    case M(Vec(x, _, t)) =>
      if !VectorOperand(b) then Err(TypeMismatch)
      else if Coordinate(b.m) != t then Ok(BinVec(a, OpMeet, b))
      else if b.m.Vec? then Ok(Vec(x, b.m.y, t))
      else Err(TypeMismatch)
    case M(BinVec(_, _, _)) => if VectorOperand(b) then Ok(BinVec(a, OpMeet, b)) else Err(TypeMismatch)
    case Scalar(_) => Err(TypeMismatch)
  }

  /** The meet `a << b`, which every class defines as `b >> a`. */
  function MeetY(a: Operand, b: Operand): Result<Metric> {
    MeetX(b, a)
  }

  /** The mean `a | b`: the midpoint of two Points. */
  function Mean(a: Operand, b: Operand): Result<Metric> {
    match a
    case M(Pt(x, y, t)) =>
      if !PointOperand(b) then Err(TypeMismatch)
      else if Coordinate(b.m) != t then Ok(BinPt(a, OpMean, b))
      else if b.m.Pt? then Ok(Pt((x + b.m.x) / 2.0, (y + b.m.y) / 2.0, t))
      else Err(TypeMismatch)
    case M(BinPt(_, _, _)) => if PointOperand(b) then Ok(BinPt(a, OpMean, b)) else Err(TypeMismatch)
    case _ => Err(TypeMismatch)
  }

  /**
   * The rotation `a @ b` by `b` degrees.  An "absolute" Vector would be
   * rotated at once with cos and sin, which this model leaves out; every
   * other Vector defers.  `k @ v` on a BinopVector never yields a value.
   */
  function Rotate(a: Operand, b: Operand): Result<Metric>
    decreases if a.Scalar? then 1 else 0
  {
    match a
    case M(Vec(_, _, t)) =>
      if !b.Scalar? then Err(TypeMismatch)
      else if t == Absolute then Err(RotationNotModelled)
      else Ok(BinVec(a, OpRot, b))
    case M(BinVec(_, _, _)) => if b.Scalar? then Ok(BinVec(a, OpRot, b)) else Err(TypeMismatch)
    case Scalar(_) => if b.M? && b.m.Vec? then Rotate(b, a) else Err(TypeMismatch)
    case M(_) => Err(TypeMismatch)
  }

  /** `-v`, which Vector.__neg__ computes as `-1 * v`. */
  function Neg(v: Metric): Result<Metric> {
    Mul(Scalar(-1.0), M(v))
  }

  /** MetaBinop.op_table: the plain operator a deferred node stands for. */
  function Apply(a: Operand, op: Op, b: Operand): Result<Metric> {
    match op
    case OpAdd => Add(a, b)
    case OpSub => Sub(a, b)
    case OpMul => Mul(a, b)
    case OpDiv => Div(a, b)
    case OpMeet => MeetX(a, b)
    case OpMean => Mean(a, b)
    case OpRot => Rotate(a, b)
  }

  // ---------------------------------------------------------------------
  // Constructors and Vector methods
  // ---------------------------------------------------------------------

  /** `Width(x, coordinate)`: a Vector with no y component. */
  function Width(x: real, c: string): (v: Metric)
    ensures v.Vec? && v.y == 0.0 && v.x == x && v.tag == c
  {
    Vec(x, 0.0, c)
  }

  /** `Height(y, coordinate)`: a Vector with no x component. */
  function Height(y: real, c: string): (v: Metric)
    ensures v.Vec? && v.x == 0.0 && v.y == y && v.tag == c
  {
    Vec(0.0, y, c)
  }

  /** `Point(x, y, (c0, c1))`: a tuple tag means `Point(x, 0, c0) >> Point(0, y, c1)`. */
  function TuplePoint(x: real, y: real, c0: string, c1: string): (r: Result<Metric>)
    ensures r.Ok?
    ensures c0 == c1 ==> r.value == Pt(x, y, c0)
    ensures c0 != c1 ==> r.value.BinPt? && r.value.op == OpMeet
  {
    MeetX(M(Pt(x, 0.0, c0)), M(Pt(0.0, y, c1)))
  }

  /** `Vector(x, y, (c0, c1))`: a tuple tag means `Vector(x, 0, c0) >> Vector(0, y, c1)`. */
  function TupleVector(x: real, y: real, c0: string, c1: string): (r: Result<Metric>)
    ensures r.Ok?
    ensures c0 == c1 ==> r.value == Vec(x, y, c0)
    ensures c0 != c1 ==> r.value.BinVec? && r.value.op == OpMeet
  {
    MeetX(M(Vec(x, 0.0, c0)), M(Vec(0.0, y, c1)))
  }

  /**
   * The origin the BinopVector methods go through: `Point(0, 0, anchor)`,
   * where the anchor is "absolute" in cand/metrics.py and "figure" in the
   * older canvas.py.
   */
  function Anchor(anchor: string): Metric {
    Pt(0.0, 0.0, anchor)
  }

  /** `v.width()`; on a node, `((O + v) >> O) - O` with O the anchor origin. */
  function WidthOf(v: Metric, anchor: string): (w: Metric)
    requires IsVectorKind(v)
    ensures IsVectorKind(w)
    ensures v.Vec? ==> w == Vec(v.x, 0.0, v.tag)
  {
    match v
    case Vec(x, _, t) => Width(x, t)
    case BinVec(_, _, _) =>
      var o := M(Anchor(anchor));
      BinVec(M(BinPt(M(BinPt(o, OpAdd, M(v))), OpMeet, o)), OpSub, o)
  }

  /** `v.height()`; on a node, `((O + v) << O) - O`, that is `(O >> (O + v)) - O`. */
  function HeightOf(v: Metric, anchor: string): (h: Metric)
    requires IsVectorKind(v)
    ensures IsVectorKind(h)
    ensures v.Vec? ==> h == Vec(0.0, v.y, v.tag)
  {
    match v
    case Vec(_, y, t) => Height(y, t)
    case BinVec(_, _, _) =>
      var o := M(Anchor(anchor));
      BinVec(M(BinPt(o, OpMeet, M(BinPt(o, OpAdd, M(v))))), OpSub, o)
  }

  /** `v.flipx()`; on a node, `(-v) >> v`. */
  function FlipX(v: Metric): (f: Metric)
    requires IsVectorKind(v)
    ensures IsVectorKind(f)
  {
    match v
    case Vec(x, y, t) => Vec(-x, y, t)
    case BinVec(_, _, _) => BinVec(M(BinVec(M(v), OpMul, Scalar(-1.0))), OpMeet, M(v))
  }

  /** `v.flipy()`; on a node, `v >> (-v)`. */
  function FlipY(v: Metric): (f: Metric)
    requires IsVectorKind(v)
    ensures IsVectorKind(f)
  {
    match v
    case Vec(x, y, t) => Vec(x, -y, t)
    case BinVec(_, _, _) => BinVec(M(v), OpMeet, M(BinVec(M(v), OpMul, Scalar(-1.0))))
  }

  // ---------------------------------------------------------------------
  // Equality
  // ---------------------------------------------------------------------

  /**
   * `a == b` as Python evaluates it.  Point.__eq__ compares x, y and the tag
   * of anything that has them (so a Point equals a Vector with the same
   * fields); Vector.__eq__ accepts only Vectors; MetaBinop.__eq__ compares
   * (lhs, op, rhs) with short-circuit `and`.  A node compared with a
   * subclass-free value, or a number compared with a metric value, fails on a
   * missing attribute.
   */
  function Equals(a: Operand, b: Operand): Result<bool> {
    match (a, b)
    case (Scalar(k1), Scalar(k2)) => Ok(k1 == k2)
    case (M(m1), M(m2)) =>
      if IsNode(m1) && IsNode(m2) then
        var sameLhs :- Equals(m1.lhs, m2.lhs);
        if !sameLhs || m1.op != m2.op then Ok(false) else Equals(m1.rhs, m2.rhs)
      else if (m1.Pt? && IsConcrete(m2)) || (m1.Vec? && m2.Vec?) then
        Ok(m1.x == m2.x && m1.y == m2.y && m1.tag == m2.tag)
      else Err(TypeMismatch)
    case _ => Err(TypeMismatch)
  }
}
