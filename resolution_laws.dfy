/**
 * Resolution is a homomorphism of the metric algebra: resolving the result
 * of an operator gives the same value as applying the operator to the
 * resolved operands.  The laws that test_canvas.py checks numerically on
 * sample values (linearity, meets and means, identities, associativity,
 * the width/height decomposition) are consequences of it.
 */
module ResolutionLaws {
  import opened Results
  import opened Metrics
  import opened MetricLaws
  import opened Coordinates

  // ---------------------------------------------------------------------
  // Concrete values under a frame
  // ---------------------------------------------------------------------

  /** Where the frame f puts a concrete value: Points through the whole map, Vectors through its linear part. */
  function Image(f: Affine, m: Metric, U: string): (i: Metric)
    ensures IsConcrete(m) ==> IsConcrete(i) && i.Pt? == m.Pt? && i.tag == U
  {
    match m
    case Pt(x, y, _) => Place(f, x, y, U)
    case Vec(x, y, _) => Stretch(f, x, y, U)
    case _ => m
  }

  function ImageOperand(f: Affine, o: Operand, U: string): Operand {
    if o.Scalar? then o else M(Image(f, o.m, U))
  }

  /** A concrete value resolves through the frame of its tag, and fails exactly when the tag has none. */
  lemma ResolveConcrete(r: Registry, m: Metric)
    requires Resolvable(r) && IsConcrete(m)
    ensures Coord(r, m).Ok? <==> Frame(r, m.tag).Some?
    ensures Frame(r, m.tag).Some? ==> Coord(r, m) == Ok(Image(Frame(r, m.tag).value, m, Universe(r.rev)))
  {
    if m.Pt? {
      PointResolution(r, m.x, m.y, m.tag);
    } else {
      ResolveVector(r, m.x, m.y, m.tag);
    }
  }

  lemma ResolveVector(r: Registry, x: real, y: real, t: string)
    requires Resolvable(r)
    ensures Coord(r, Vec(x, y, t)).Ok? <==> Frame(r, t).Some?
    ensures Frame(r, t).Some? ==> Coord(r, Vec(x, y, t)) == Ok(Image(Frame(r, t).value, Vec(x, y, t), Universe(r.rev)))
  {
    VectorResolution(r, x, y, t);
  }

  // ---------------------------------------------------------------------
  // Every eager operation commutes with every frame
  // ---------------------------------------------------------------------

  lemma MulAssoc(s: real, x: real, k: real)
    ensures s * (x * k) == (s * x) * k
  {
  }

  lemma DivAssoc(s: real, x: real, k: real)
    requires k != 0.0
    ensures s * (x / k) == (s * x) / k
  {
    assert x / k * k == x;
    assert (s * (x / k)) * k == s * x;
  }

  lemma AddCommutes(f: Affine, a: Metric, b: Metric, U: string)
    requires IsConcrete(a) && IsConcrete(b) && U != Various
    requires Eager(M(a), OpAdd, M(b)) && Add(M(a), M(b)).Ok?
    ensures Add(ImageOperand(f, M(a), U), ImageOperand(f, M(b), U)) == Ok(Image(f, Add(M(a), M(b)).value, U))
  {
    if a.Pt? {
      assert b.Vec?;
      PointPlusVector(f, a.x, a.y, b.x, b.y, a.tag, U);
    } else if b.Pt? {
      assert Add(M(a), M(b)) == Add(M(b), M(a));
      assert Add(ImageOperand(f, M(a), U), ImageOperand(f, M(b), U)) == Add(ImageOperand(f, M(b), U), ImageOperand(f, M(a), U));
      PointPlusVector(f, b.x, b.y, a.x, a.y, a.tag, U);
    } else {
      VectorPlusVector(f, a.x, a.y, b.x, b.y, a.tag, U);
    }
  }

  lemma PointPlusVector(f: Affine, px: real, py: real, vx: real, vy: real, t: string, U: string)
    requires t != Various && U != Various
    ensures Add(M(Pt(px, py, t)), M(Vec(vx, vy, t))) == Ok(Pt(px + vx, py + vy, t))
    ensures Add(M(Image(f, Pt(px, py, t), U)), M(Image(f, Vec(vx, vy, t), U))) == Ok(Image(f, Pt(px + vx, py + vy, t), U))
  {
    var i := Add(M(Image(f, Pt(px, py, t), U)), M(Image(f, Vec(vx, vy, t), U))).value;
    assert i.x == f.sx * px + f.ox + f.sx * vx && i.y == f.sy * py + f.oy + f.sy * vy;
    assert i.Pt? && i.tag == U;
    assert Image(f, Pt(px + vx, py + vy, t), U) == i;
  }

  lemma VectorPlusVector(f: Affine, ux: real, uy: real, vx: real, vy: real, t: string, U: string)
    requires U != Various
    ensures Add(M(Vec(ux, uy, t)), M(Vec(vx, vy, t))) == Ok(Vec(ux + vx, uy + vy, t))
    ensures Add(M(Image(f, Vec(ux, uy, t), U)), M(Image(f, Vec(vx, vy, t), U))) == Ok(Image(f, Vec(ux + vx, uy + vy, t), U))
  {
    var i := Add(M(Image(f, Vec(ux, uy, t), U)), M(Image(f, Vec(vx, vy, t), U))).value;
    assert i.x == f.sx * ux + f.sx * vx && i.y == f.sy * uy + f.sy * vy;
    assert i.Vec? && i.tag == U;
    assert Image(f, Vec(ux + vx, uy + vy, t), U) == i;
  }

  lemma SubCommutes(f: Affine, a: Metric, b: Metric, U: string)
    requires IsConcrete(a) && IsConcrete(b) && U != Various
    requires Eager(M(a), OpSub, M(b)) && Sub(M(a), M(b)).Ok?
    ensures Sub(ImageOperand(f, M(a), U), ImageOperand(f, M(b), U)) == Ok(Image(f, Sub(M(a), M(b)).value, U))
  {
    var e := Sub(M(a), M(b)).value;
    var A := Image(f, a, U);
    var B := Image(f, b, U);
    var i := Sub(M(A), M(B)).value;
    if a.Pt? && b.Vec? {
      assert e == Pt(a.x - b.x, a.y - b.y, a.tag);
      assert i.x == f.sx * a.x + f.ox - f.sx * b.x && i.y == f.sy * a.y + f.oy - f.sy * b.y;
      assert i.Pt? && i.tag == U;
    } else if a.Pt? {
      assert e == Vec(a.x - b.x, a.y - b.y, a.tag);
      assert i.x == (f.sx * a.x + f.ox) - (f.sx * b.x + f.ox) && i.y == (f.sy * a.y + f.oy) - (f.sy * b.y + f.oy);
      assert i.Vec? && i.tag == U;
    } else {
      assert e == Vec(a.x - b.x, a.y - b.y, a.tag);
      assert i.x == f.sx * a.x - f.sx * b.x && i.y == f.sy * a.y - f.sy * b.y;
      assert i.Vec? && i.tag == U;
    }
    assert Image(f, e, U) == i;
  }

  lemma ScaleCommutes(f: Affine, x: real, y: real, t: string, k: real, U: string)
    ensures Mul(M(Vec(x, y, t)), Scalar(k)) == Ok(Vec(x * k, y * k, t))
    ensures Mul(M(Image(f, Vec(x, y, t), U)), Scalar(k)) == Ok(Image(f, Vec(x * k, y * k, t), U))
  {
    MulAssoc(f.sx, x, k);
    MulAssoc(f.sy, y, k);
    var e := Mul(M(Vec(x, y, t)), Scalar(k)).value;
    assert e.x == x * k && e.y == y * k && e.tag == t && e.Vec?;
    var m := Mul(M(Image(f, Vec(x, y, t), U)), Scalar(k)).value;
    var i := Image(f, Vec(x * k, y * k, t), U);
    assert m.x == (f.sx * x) * k && i.x == f.sx * (x * k);
    assert m.y == (f.sy * y) * k && i.y == f.sy * (y * k);
    assert m.Vec? && i.Vec? && m.tag == i.tag;
  }

  lemma DivideCommutes(f: Affine, v: Metric, k: real, U: string)
    requires v.Vec? && U != Various && k != 0.0
    ensures Div(ImageOperand(f, M(v), U), Scalar(k)) == Ok(Image(f, Div(M(v), Scalar(k)).value, U))
  {
    DivAssoc(f.sx, v.x, k);
    DivAssoc(f.sy, v.y, k);
    assert Div(M(v), Scalar(k)) == Ok(Vec(v.x / k, v.y / k, v.tag));
    var d := Div(ImageOperand(f, M(v), U), Scalar(k)).value;
    assert d.Vec? && d.tag == U && d.x == (f.sx * v.x) / k && d.y == (f.sy * v.y) / k;
    assert Image(f, Div(M(v), Scalar(k)).value, U) == d;
  }

  lemma MeetCommutes(f: Affine, a: Metric, b: Metric, U: string)
    requires IsConcrete(a) && IsConcrete(b) && U != Various
    requires Eager(M(a), OpMeet, M(b)) && MeetX(M(a), M(b)).Ok?
    ensures MeetX(ImageOperand(f, M(a), U), ImageOperand(f, M(b), U)) == Ok(Image(f, MeetX(M(a), M(b)).value, U))
  {
    var e := MeetX(M(a), M(b)).value;
    var i := MeetX(M(Image(f, a, U)), M(Image(f, b, U))).value;
    assert e.x == a.x && e.y == b.y && e.Pt? == a.Pt?;
    assert i.x == Image(f, a, U).x && i.y == Image(f, b, U).y && i.Pt? == a.Pt? && i.tag == U;
    assert Image(f, e, U) == i;
  }

  lemma MeanCommutes(f: Affine, a: Metric, b: Metric, U: string)
    requires IsConcrete(a) && IsConcrete(b) && U != Various
    requires Eager(M(a), OpMean, M(b)) && Mean(M(a), M(b)).Ok?
    ensures Mean(ImageOperand(f, M(a), U), ImageOperand(f, M(b), U)) == Ok(Image(f, Mean(M(a), M(b)).value, U))
  {
    var e := Mean(M(a), M(b)).value;
    var i := Mean(M(Image(f, a, U)), M(Image(f, b, U))).value;
    assert e == Pt((a.x + b.x) / 2.0, (a.y + b.y) / 2.0, a.tag);
    assert i.x == ((f.sx * a.x + f.ox) + (f.sx * b.x + f.ox)) / 2.0;
    assert i.y == ((f.sy * a.y + f.oy) + (f.sy * b.y + f.oy)) / 2.0;
    assert i.Pt? && i.tag == U;
    assert Image(f, e, U) == i;
  }

  /**
   * An operation that computes at once gives the same value whether it is
   * applied before or after the frame of its operands' tag.
   */
  lemma OperatorsCommuteWithFrames(f: Affine, a: Operand, op: Op, b: Operand, U: string)
    requires U != Various && Eager(a, op, b) && Apply(a, op, b).Ok?
    ensures Apply(ImageOperand(f, a, U), op, ImageOperand(f, b, U)) == Ok(Image(f, Apply(a, op, b).value, U))
  {
    OperatorFacts(a, op, b);
    match op
    case OpAdd => AddCommutes(f, a.m, b.m, U);
    case OpSub => SubCommutes(f, a.m, b.m, U);
    case OpMul =>
      if a.Scalar? {
        assert Mul(a, b) == Mul(b, a);
        assert Mul(ImageOperand(f, a, U), ImageOperand(f, b, U)) == Mul(ImageOperand(f, b, U), ImageOperand(f, a, U));
        ScaleCommutes(f, b.m.x, b.m.y, b.m.tag, a.k, U);
      } else {
        ScaleCommutes(f, a.m.x, a.m.y, a.m.tag, b.k, U);
      }
    case OpDiv => DivideCommutes(f, a.m, b.k, U);
    case OpMeet => MeetCommutes(f, a.m, b.m, U);
    case OpMean => MeanCommutes(f, a.m, b.m, U);
  }

  // ---------------------------------------------------------------------
  // Resolution commutes with every operator
  // ---------------------------------------------------------------------

  /** An operand that is a number or a concrete value tagged t resolves through the frame of t. */
  lemma ResolveThroughFrame(r: Registry, o: Operand, t: string)
    requires Resolvable(r) && Frame(r, t).Some?
    requires o.M? ==> IsConcrete(o.m) && o.m.tag == t
    ensures ResolveOperand(r, o) == Ok(ImageOperand(Frame(r, t).value, o, Universe(r.rev)))
  {
    if o.M? {
      ResolveConcrete(r, o.m);
    }
  }

  /**
   * Resolving a value the operators computed at once gives what the
   * operator gives on the resolved operands.
   */
  lemma EagerResolution(r: Registry, a: Operand, op: Op, b: Operand)
    requires Resolvable(r) && Eager(a, op, b) && Apply(a, op, b).Ok?
    requires ResolveOperand(r, a).Ok? && ResolveOperand(r, b).Ok?
    ensures Coord(r, Apply(a, op, b).value) == ApplyIn(r.rev, ResolveOperand(r, a).value, op, ResolveOperand(r, b).value)
  {
    OperatorFacts(a, op, b);
    var e := Apply(a, op, b).value;
    var t := e.tag;
    var U := Universe(r.rev);
    if a.M? {
      ResolveConcrete(r, a.m);
    } else {
      ResolveConcrete(r, b.m);
    }
    var f := Frame(r, t).value;
    ResolveThroughFrame(r, a, t);
    ResolveThroughFrame(r, b, t);
    ResolveConcrete(r, e);
    OperatorsCommuteWithFrames(f, a, op, b, U);
  }

  /** Operands in Python's reflected order give the same result once resolved. */
  lemma ReflectedResolved(rev: Revision, a: Operand, op: Op, b: Operand, A: Operand, B: Operand)
    requires Reflected(a, op, b) && Resolved(rev, A) && Resolved(rev, B)
    requires SortOf(A) == SortOf(a) && SortOf(B) == SortOf(b)
    ensures ApplyIn(rev, B, op, A) == ApplyIn(rev, A, op, B)
  {
  }

  /**
   * Resolving a deferred node gives what the operator gives on the resolved
   * operands: the node resolves its operands in the order it stores them and
   * applies its operator.
   */
  lemma NodeResolution(r: Registry, a: Operand, op: Op, b: Operand)
    requires Resolvable(r) && WellKindedOperand(a) && WellKindedOperand(b)
    requires Apply(a, op, b).Ok? && !Eager(a, op, b)
    requires ResolveOperand(r, a).Ok? && ResolveOperand(r, b).Ok?
    ensures Coord(r, Apply(a, op, b).value) == ApplyIn(r.rev, ResolveOperand(r, a).value, op, ResolveOperand(r, b).value)
  {
    OperatorFacts(a, op, b);
    OperatorsBuildWellKinded(a, op, b);
    var e := Apply(a, op, b).value;
    var A := ResolveOperand(r, a).value;
    var B := ResolveOperand(r, b).value;
    OperandKeepsKind(r, a);
    OperandKeepsKind(r, b);
    var v := ApplyIn(r.rev, A, op, B);
    if Reflected(a, op, b) {
      ReflectedResolved(r.rev, a, op, b, A, B);
      assert Coord(r, e) == (if e.BinVec? && v.Ok? && !v.value.Vec? then Err(TypeMismatch) else v);
    } else {
      assert Coord(r, e) == (if e.BinVec? && v.Ok? && !v.value.Vec? then Err(TypeMismatch) else v);
    }
    if e.BinVec? && v.Ok? {
      ApplyRespectsSignature(A, op, B);
      ApplyResolved(r.rev, A, op, B);
    }
  }

  /**
   * Resolution is a homomorphism: for kind-correct operands whose
   * resolutions succeed, resolving `a op b` (a value or a deferred node)
   * gives `R(a) op R(b)`, failures included.
   */
  lemma ResolutionCommutes(r: Registry, a: Operand, op: Op, b: Operand)
    requires Resolvable(r) && WellKindedOperand(a) && WellKindedOperand(b)
    requires Apply(a, op, b).Ok?
    requires ResolveOperand(r, a).Ok? && ResolveOperand(r, b).Ok?
    ensures Coord(r, Apply(a, op, b).value) == ApplyIn(r.rev, ResolveOperand(r, a).value, op, ResolveOperand(r, b).value)
  {
    if Eager(a, op, b) {
      EagerResolution(r, a, op, b);
    } else {
      NodeResolution(r, a, op, b);
    }
  }
}
