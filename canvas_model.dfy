/**
 * The Canvas object itself: its size in inches, its default unit, and the
 * two dictionaries that `add_unit`, `set_default_unit`, `add_axis` and
 * `add_grid` update in place.  Each method is proved against the
 * registry function of module Registration or Grid that states its effect;
 * the resolver reads the fields through `State()`.
 */
module Canvases {
  import opened Results
  import opened Metrics
  import opened MetricLaws
  import opened Coordinates
  import opened Registration
  import opened Grid

  // ---------------------------------------------------------------------
  // The size argument of the constructor
  // ---------------------------------------------------------------------

  // Each family in the order `__init__` registers it: the name given to
  // `add_unit` first, then its other names.
  const InchNames: seq<string> := ["in", "inch", "inches"]
  const CentimetreNames: seq<string> := ["cm", "centimeters", "centimeter", "centimetres", "centimetre"]
  const MillimetreNames: seq<string> := ["mm", "millimeter", "millimeters", "millimetre", "millimetres"]
  const PointNames: seq<string> := ["pt", "point", "points"]
  const PixelNames: seq<string> := ["px", "pixel", "pixels"]

  /** The size of the canvas in inches, from a size in one of the three accepted units. */
  function SizeInInches(sizeX: real, sizeY: real, unit: string): (res: Result<(real, real)>)
    ensures res.Ok? <==> unit in InchNames || unit in CentimetreNames || unit in MillimetreNames
    ensures res.Err? ==> res.error == InvalidUnit
    ensures unit in InchNames ==> res == Ok((sizeX, sizeY))
    ensures res.Ok? && unit !in InchNames ==>
      var c := if unit in CentimetreNames then 2.54 else 25.4;
      res.value.0 * c == sizeX && res.value.1 * c == sizeY
  {
    if unit in InchNames then Ok((sizeX, sizeY))
    else if unit in CentimetreNames then Ok((sizeX / 2.54, sizeY / 2.54))
    else if unit in MillimetreNames then Ok((sizeX / 25.4, sizeY / 25.4))
    else Err(InvalidUnit)
  }

  /**
   * The failure the construction of a canvas of that size runs into.  A
   * negative size is refused by the matplotlib Figure; a zero size divides
   * by zero in the scale of "in".  cand/canvas.py creates the Figure before
   * the units, canvas.py after them, so with one of each the two revisions
   * report different errors.
   */
  function SizeCheck(rev: Revision, inches: (real, real)): (res: Outcome)
    ensures res.Pass? <==> inches.0 > 0.0 && inches.1 > 0.0
    ensures res.Fail? ==> res.error == InvalidSize || res.error == ZeroDivision
  {
    var negative := inches.0 < 0.0 || inches.1 < 0.0;
    var zero := inches.0 == 0.0 || inches.1 == 0.0;
    if rev == Current && negative then Fail(InvalidSize)
    else if zero then Fail(ZeroDivision)
    else if negative then Fail(InvalidSize)
    else Pass
  }

  // ---------------------------------------------------------------------
  // The built-in units
  // ---------------------------------------------------------------------

  /** The scale of the inch: 1 in cand/canvas.py, one over the size in canvas.py. */
  function InchScale(rev: Revision, size: (real, real)): (real, real)
    requires size.0 > 0.0 && size.1 > 0.0
  {
    if rev == Current then (1.0, 1.0) else (1.0 / size.0, 1.0 / size.1)
  }

  /** Unit u scales by (sx, sy) and starts at the universal origin. */
  predicate Scaled(u: Unit, sx: real, sy: real, U: string) {
    u.sx == sx && u.sy == sy && u.origin == Pt(0.0, 0.0, U)
  }

  /** Every name of `family` is a unit, not an axis, scaled by (sx, sy) from the universal origin. */
  predicate HasFamily(r: Registry, family: seq<string>, sx: real, sy: real) {
    forall n :: n in family ==> n in r.units && n !in r.axes && Scaled(r.units[n], sx, sy, Universe(r.rev))
  }

  /**
   * The units every canvas starts with, under every accepted name, for an
   * inch scaled by (ix, iy): the inch, the centimetre (1/2.54 inch), the
   * millimetre (1/10 centimetre), the point (1/72 inch) and, in
   * cand/canvas.py only, the pixel (1/dpi inch).
   */
  predicate BuiltinsFrom(r: Registry, ix: real, iy: real, dpi: real)
    requires dpi > 0.0
  {
    HasFamily(r, InchNames, ix, iy)
    && HasFamily(r, CentimetreNames, Times(ix, 1.0 / 2.54), Times(iy, 1.0 / 2.54))
    && HasFamily(r, MillimetreNames, Times(Times(ix, 1.0 / 2.54), 0.1), Times(Times(iy, 1.0 / 2.54), 0.1))
    && HasFamily(r, PointNames, Times(ix, 1.0 / 72.0), Times(iy, 1.0 / 72.0))
    && (r.rev == Current ==> HasFamily(r, PixelNames, Times(ix, 1.0 / dpi), Times(iy, 1.0 / dpi)))
  }

  /** The built-in units of a canvas of r's size. */
  predicate Builtins(r: Registry, dpi: real)
    requires r.size.0 > 0.0 && r.size.1 > 0.0 && dpi > 0.0
  {
    BuiltinsFrom(r, InchScale(r.rev, r.size).0, InchScale(r.rev, r.size).1, dpi)
  }

  /** The k-th family `__init__` registers. */
  function FamilyNames(k: nat): (names: seq<string>)
    requires k < 5
    ensures |names| > 0
  {
    match k
    case 0 => InchNames
    case 1 => CentimetreNames
    case 2 => MillimetreNames
    case 3 => PointNames
    case _ => PixelNames
  }

  /** The scale of the k-th family, for an inch scaled by (ix, iy). */
  function FamilyScale(k: nat, ix: real, iy: real, dpi: real): (real, real)
    requires k < 5 && dpi > 0.0
  {
    match k
    case 0 => (ix, iy)
    case 1 => (Times(ix, 1.0 / 2.54), Times(iy, 1.0 / 2.54))
    case 2 => (Times(Times(ix, 1.0 / 2.54), 0.1), Times(Times(iy, 1.0 / 2.54), 0.1))
    case 3 => (Times(ix, 1.0 / 72.0), Times(iy, 1.0 / 72.0))
    case _ => (Times(ix, 1.0 / dpi), Times(iy, 1.0 / dpi))
  }

  /** The names of the first k families, in order. */
  function NamesBefore(k: nat): seq<string>
    requires k <= 5
  {
    if k == 0 then [] else NamesBefore(k - 1) + FamilyNames(k - 1)
  }

  /** The registry once the first k families are in: they and nothing else, and no axis. */
  predicate Upto(r: Registry, ix: real, iy: real, dpi: real, k: nat)
    requires k <= 5 && dpi > 0.0
  {
    r.axes == map[]
    && (forall n :: n in r.units ==> n in NamesBefore(k))
    && (forall j :: 0 <= j < k ==> HasFamily(r, FamilyNames(j), FamilyScale(j, ix, iy, dpi).0, FamilyScale(j, ix, iy, dpi).1))
  }

  /** A name of a family already in has the scale of that family. */
  lemma InFamily(r: Registry, ix: real, iy: real, dpi: real, k: nat, j: nat, t: string)
    requires k <= 5 && dpi > 0.0 && Upto(r, ix, iy, dpi, k) && j < k && t in FamilyNames(j)
    ensures t in r.units && t !in r.axes
    ensures Scaled(r.units[t], FamilyScale(j, ix, iy, dpi).0, FamilyScale(j, ix, iy, dpi).1, Universe(r.rev))
  {
  }

  /** The frame of a name of family j, once the first k families are in. */
  lemma StepFrame(r: Registry, ix: real, iy: real, dpi: real, k: nat, t: string, j: nat)
    requires j < k <= 5 && dpi > 0.0 && Resolvable(r) && Upto(r, ix, iy, dpi, k) && t in FamilyNames(j)
    ensures Frame(r, t) == Some(Affine(FamilyScale(j, ix, iy, dpi).0, FamilyScale(j, ix, iy, dpi).1, 0.0, 0.0))
  {
    InFamily(r, ix, iy, dpi, k, j, t);
    BuiltinFrame(r, t, FamilyScale(j, ix, iy, dpi).0, FamilyScale(j, ix, iy, dpi).1);
  }

  lemma PointScale(ix: real, iy: real, dpi: real)
    requires dpi > 0.0
    ensures FamilyScale(3, ix, iy, dpi) == (Times(ix, 1.0 / 72.0), Times(iy, 1.0 / 72.0))
  {
  }

  lemma PixelScale(ix: real, iy: real, dpi: real)
    requires dpi > 0.0
    ensures FamilyScale(4, ix, iy, dpi) == (Times(ix, 1.0 / dpi), Times(iy, 1.0 / dpi))
  {
  }

  /** With all families in, the registry holds the built-in units. */
  lemma UptoBuiltins(r: Registry, ix: real, iy: real, dpi: real)
    requires dpi > 0.0 && Upto(r, ix, iy, dpi, if r.rev == Current then 5 else 4)
    ensures BuiltinsFrom(r, ix, iy, dpi)
  {
    var k := if r.rev == Current then 5 else 4;
    assert HasFamily(r, FamilyNames(0), FamilyScale(0, ix, iy, dpi).0, FamilyScale(0, ix, iy, dpi).1);
    assert HasFamily(r, FamilyNames(1), FamilyScale(1, ix, iy, dpi).0, FamilyScale(1, ix, iy, dpi).1);
    assert HasFamily(r, FamilyNames(2), FamilyScale(2, ix, iy, dpi).0, FamilyScale(2, ix, iy, dpi).1);
    assert HasFamily(r, FamilyNames(3), FamilyScale(3, ix, iy, dpi).0, FamilyScale(3, ix, iy, dpi).1);
    if r.rev == Current {
      assert HasFamily(r, FamilyNames(4), FamilyScale(4, ix, iy, dpi).0, FamilyScale(4, ix, iy, dpi).1);
    }
  }

  /** Each family's names are free, and none was registered by an earlier family. */
  lemma FamilyFresh(k: nat)
    requires k < 5
    ensures forall n :: n in FamilyNames(k) ==> n !in NamesBefore(k) && !HasAxisPrefix(n) && n !in Reserved
  {
    BuiltinNamesFree();
    BuiltinNamesApart();
    assert NamesBefore(1) == InchNames;
    assert NamesBefore(2) == InchNames + CentimetreNames;
    assert NamesBefore(3) == InchNames + CentimetreNames + MillimetreNames;
    assert NamesBefore(4) == InchNames + CentimetreNames + MillimetreNames + PointNames;
  }

  // ---------------------------------------------------------------------
  // One step of the construction
  // ---------------------------------------------------------------------

  /**
   * A fresh name registered with `add_unit(name, Vector(kx, ky, t))` and the
   * default origin, where t's frame scales by (fx, fy) without offset,
   * scales by (fx times kx, fy times ky).
   */
  lemma AddScaled(r: Registry, name: string, kx: real, ky: real, t: string, fx: real, fy: real)
    requires Resolvable(r) && Frame(r, t) == Some(Affine(fx, fy, 0.0, 0.0))
    requires !HasAxisPrefix(name) && name !in Reserved && name !in r.axes && name !in r.units
    ensures NewUnit(r, name, Vec(kx, ky, t), Pt(0.0, 0.0, Universe(r.rev))).Ok?
    ensures NewUnit(r, name, Vec(kx, ky, t), Pt(0.0, 0.0, Universe(r.rev))).value
      == r.(units := r.units[name := Unit(Times(fx, kx), Times(fy, ky), Pt(0.0, 0.0, Universe(r.rev)))])
  {
    ValidIdentifierExactly(r, name);
    StretchBy(r, kx, ky, t, fx, fy);
    assert Coord(r, Pt(0.0, 0.0, Universe(r.rev))) == Ok(Pt(0.0, 0.0, Universe(r.rev)));
  }

  /** A vector in a tag whose frame scales by (fx, fy) measures (fx times kx, fy times ky). */
  lemma StretchBy(r: Registry, kx: real, ky: real, t: string, fx: real, fy: real)
    requires Resolvable(r) && Frame(r, t) == Some(Affine(fx, fy, 0.0, 0.0))
    ensures Length(r, Vec(kx, ky, t)) == Ok(Vec(Times(fx, kx), Times(fy, ky), Universe(r.rev)))
  {
    FrameLength(r, t, Affine(fx, fy, 0.0, 0.0), kx, ky);
    StretchTimes(fx, fy, kx, ky, Universe(r.rev));
  }

  lemma StretchTimes(fx: real, fy: real, kx: real, ky: real, U: string)
    ensures Stretch(Affine(fx, fy, 0.0, 0.0), kx, ky, U) == Vec(Times(fx, kx), Times(fy, ky), U)
  {
  }

  /** Copying a unit under further unprefixed, unreserved names keeps the registry resolvable. */
  lemma AliasesKeepResolvable(r: Registry, names: seq<string>, name: string)
    requires Resolvable(r) && name in r.units
    requires forall n :: n in names ==> !HasAxisPrefix(n) && n !in Reserved
    ensures Resolvable(r.(units := WithNames(r.units, names, r.units[name])))
  {
    IsUnitGrows(r, r.(units := WithNames(r.units, names, r.units[name])), r.defaultUnit);
  }

  /** The frame of a built-in unit scaled by (sx, sy): no offset from the universal origin. */
  lemma BuiltinFrame(r: Registry, t: string, sx: real, sy: real)
    requires Resolvable(r) && t in r.units && t !in r.axes && !HasAxisPrefix(t) && t !in Reserved
    requires Scaled(r.units[t], sx, sy, Universe(r.rev))
    ensures Frame(r, t) == Some(Affine(sx, sy, 0.0, 0.0))
  {
    ReservedUnprefixed();
    assert Frame(r, t) == Some(Affine(r.units[t].sx, r.units[t].sy, 0.0, 0.0));
  }

  /**
   * `m[n] = u` for each n of `names` in turn, as `__init__` gives a unit
   * its other names.
   */
  function WithNames(m: map<string, Unit>, names: seq<string>, u: Unit): (r: map<string, Unit>)
    ensures forall n :: n in r <==> n in m || n in names
    ensures forall n :: n in names ==> r[n] == u
    ensures forall n :: n in m && n !in names ==> r[n] == m[n]
  {
    if |names| == 0 then m
    else WithNames(m, names[..|names| - 1], u)[names[|names| - 1] := u]
  }

  /** Every name of `family` is a unit of `now` scaled by (sx, sy); the units of `before` are kept. */
  predicate Added(before: map<string, Unit>, now: map<string, Unit>, family: seq<string>, sx: real, sy: real, U: string) {
    (forall n :: n in before ==> n in now && now[n] == before[n])
    && (forall n :: n in now ==> n in before || n in family)
    && (forall n :: n in family ==> n in now && Scaled(now[n], sx, sy, U))
  }

  /** Adding a family of new names keeps the units already there. */
  lemma FamilyKept(r: Registry, s: Registry, family: seq<string>, sx: real, sy: real)
    requires HasFamily(r, family, sx, sy) && s.rev == r.rev && s.axes == r.axes
    requires forall n :: n in r.units ==> n in s.units && s.units[n] == r.units[n]
    ensures HasFamily(s, family, sx, sy)
  {
  }

  /** Adding the k-th family to a registry holding the first k gives one holding the first k + 1. */
  lemma FamilyStep(r: Registry, s: Registry, ix: real, iy: real, dpi: real, k: nat)
    requires k < 5 && dpi > 0.0 && Upto(r, ix, iy, dpi, k)
    requires s.rev == r.rev && s.axes == r.axes
    requires Added(r.units, s.units, FamilyNames(k), FamilyScale(k, ix, iy, dpi).0, FamilyScale(k, ix, iy, dpi).1, Universe(r.rev))
    ensures Upto(s, ix, iy, dpi, k + 1)
  {
    FamilyAdded(r, s, FamilyNames(k), FamilyScale(k, ix, iy, dpi).0, FamilyScale(k, ix, iy, dpi).1);
    forall j | 0 <= j < k
      ensures HasFamily(s, FamilyNames(j), FamilyScale(j, ix, iy, dpi).0, FamilyScale(j, ix, iy, dpi).1)
    {
      FamilyKept(r, s, FamilyNames(j), FamilyScale(j, ix, iy, dpi).0, FamilyScale(j, ix, iy, dpi).1);
    }
  }

  /** A family added to r, with no axis among its names. */
  lemma FamilyAdded(r: Registry, s: Registry, family: seq<string>, sx: real, sy: real)
    requires s.rev == r.rev && s.axes == r.axes && r.axes == map[]
    requires Added(r.units, s.units, family, sx, sy, Universe(r.rev))
    ensures HasFamily(s, family, sx, sy)
    ensures forall n :: n in r.units ==> n in s.units && s.units[n] == r.units[n]
    ensures forall n :: n in s.units ==> n in r.units || n in family
  {
  }

  /** `add_unit` of the first name of a family, then the other names copied from it. */
  lemma AddedFamily(before: map<string, Unit>, family: seq<string>, u: Unit, sx: real, sy: real, U: string)
    requires |family| > 0 && Scaled(u, sx, sy, U)
    requires forall n :: n in family ==> n !in before
    ensures Added(before, WithNames(before[family[0] := u], family[1..], u), family, sx, sy, U)
  {
    assert family == [family[0]] + family[1..];
  }

  /** No name of a built-in unit is reserved or carries the axis prefix. */
  lemma BuiltinNamesFree()
    ensures forall n :: (n in InchNames || n in CentimetreNames || n in MillimetreNames || n in PointNames || n in PixelNames)
                        ==> !HasAxisPrefix(n) && n !in Reserved
  {
    forall n | n in InchNames || n in CentimetreNames || n in MillimetreNames || n in PointNames || n in PixelNames
      ensures !HasAxisPrefix(n) && n !in Reserved
    {
      assert |n| > 0 && n[0] in "icmp";
      if |n| >= 5 {
        assert n[..5][0] == n[0];
      }
    }
  }

  /** The five families of built-in names share no name. */
  lemma BuiltinNamesApart()
    ensures forall n :: n in CentimetreNames ==> n !in InchNames
    ensures forall n :: n in MillimetreNames ==> n !in InchNames && n !in CentimetreNames
    ensures forall n :: n in PointNames ==> n !in InchNames && n !in CentimetreNames && n !in MillimetreNames
    ensures forall n :: n in PixelNames ==> n !in InchNames && n !in CentimetreNames && n !in MillimetreNames && n !in PointNames
  {
    forall n | n in PointNames || n in PixelNames
      ensures n !in InchNames && n !in CentimetreNames && n !in MillimetreNames
      ensures n in PixelNames ==> n !in PointNames
    {
      assert n[0] == 'p';
      assert n in PointNames ==> n[1] in "to";
      assert n in PixelNames ==> n[1] in "xi";
    }
  }

  /**
   * A product.  The scales of the built-in units are written with it, so
   * that equal factors give equal scales without arithmetic.
   */
  function Times(a: real, b: real): real {
    a * b
  }

  lemma Reciprocal(a: real, s: real)
    requires a == s && s != 0.0
    ensures Times(a, 1.0 / s) == 1.0
  {
  }

  lemma TimesOne(a: real, b: real)
    requires a == 1.0
    ensures Times(a, b) == b
  {
  }

  /** A Vector in a built-in unit measures its components times the unit's scale. */
  lemma FamilyLength(r: Registry, family: seq<string>, sx: real, sy: real, t: string, x: real, y: real)
    requires Resolvable(r) && HasFamily(r, family, sx, sy) && t in family
    ensures Length(r, Vec(x, y, t)) == Ok(Vec(Times(sx, x), Times(sy, y), Universe(r.rev)))
  {
    BuiltinFrame(r, t, sx, sy);
    StretchBy(r, x, y, t, sx, sy);
  }

  lemma Cancel(a: real, k: real, x: real)
    requires k != 0.0
    ensures Times(Times(a, 1.0 / k), k * x) == Times(a, x)
  {
    calc {
      Times(Times(a, 1.0 / k), k * x);
      (a * (1.0 / k)) * (k * x);
      a * ((1.0 / k) * k) * x;
    }
  }

  lemma CancelTenth(a: real, x: real)
    ensures Times(Times(Times(a, 1.0 / 2.54), 0.1), 25.4 * x) == Times(a, x)
  {
    assert Times(Times(Times(a, 1.0 / 2.54), 0.1), 25.4 * x) == Times(Times(a, 1.0 / 2.54), 2.54 * x);
    Cancel(a, 2.54, x);
  }

  /** A Vector in inches measures its components times the inch scale. */
  lemma InchLength(r: Registry, dpi: real, x: real, y: real)
    requires Resolvable(r) && dpi > 0.0 && Builtins(r, dpi)
    ensures Length(r, Vec(x, y, "in")) ==
      Ok(Vec(Times(InchScale(r.rev, r.size).0, x), Times(InchScale(r.rev, r.size).1, y), Universe(r.rev)))
  {
    var (ix, iy) := InchScale(r.rev, r.size);
    FamilyLength(r, InchNames, ix, iy, "in", x, y);
  }

  /** 2.54 centimetres make an inch. */
  lemma CentimetresPerInch(r: Registry, dpi: real, x: real, y: real)
    requires Resolvable(r) && dpi > 0.0 && Builtins(r, dpi)
    ensures Length(r, Vec(2.54 * x, 2.54 * y, "cm")) == Length(r, Vec(x, y, "in"))
  {
    InchLength(r, dpi, x, y);
    CentimetresFrom(r, InchScale(r.rev, r.size).0, InchScale(r.rev, r.size).1, dpi, x, y);
  }

  lemma CentimetresFrom(r: Registry, ix: real, iy: real, dpi: real, x: real, y: real)
    requires Resolvable(r) && dpi > 0.0 && BuiltinsFrom(r, ix, iy, dpi)
    ensures Length(r, Vec(2.54 * x, 2.54 * y, "cm")) == Ok(Vec(Times(ix, x), Times(iy, y), Universe(r.rev)))
  {
    FamilyLength(r, CentimetreNames, Times(ix, 1.0 / 2.54), Times(iy, 1.0 / 2.54), "cm", 2.54 * x, 2.54 * y);
    Cancel(ix, 2.54, x);
    Cancel(iy, 2.54, y);
  }

  /** 25.4 millimetres make an inch. */
  lemma MillimetresPerInch(r: Registry, dpi: real, x: real, y: real)
    requires Resolvable(r) && dpi > 0.0 && Builtins(r, dpi)
    ensures Length(r, Vec(25.4 * x, 25.4 * y, "mm")) == Length(r, Vec(x, y, "in"))
  {
    InchLength(r, dpi, x, y);
    MillimetresFrom(r, InchScale(r.rev, r.size).0, InchScale(r.rev, r.size).1, dpi, x, y);
  }

  lemma MillimetresFrom(r: Registry, ix: real, iy: real, dpi: real, x: real, y: real)
    requires Resolvable(r) && dpi > 0.0 && BuiltinsFrom(r, ix, iy, dpi)
    ensures Length(r, Vec(25.4 * x, 25.4 * y, "mm")) == Ok(Vec(Times(ix, x), Times(iy, y), Universe(r.rev)))
  {
    var (cx, cy) := (Times(ix, 1.0 / 2.54), Times(iy, 1.0 / 2.54));
    FamilyLength(r, MillimetreNames, Times(cx, 0.1), Times(cy, 0.1), "mm", 25.4 * x, 25.4 * y);
    CancelTenth(ix, x);
    CancelTenth(iy, y);
  }

  /** 72 points make an inch. */
  lemma PointsPerInch(r: Registry, dpi: real, x: real, y: real)
    requires Resolvable(r) && dpi > 0.0 && Builtins(r, dpi)
    ensures Length(r, Vec(72.0 * x, 72.0 * y, "pt")) == Length(r, Vec(x, y, "in"))
  {
    InchLength(r, dpi, x, y);
    PointsFrom(r, InchScale(r.rev, r.size).0, InchScale(r.rev, r.size).1, dpi, x, y);
  }

  lemma PointsFrom(r: Registry, ix: real, iy: real, dpi: real, x: real, y: real)
    requires Resolvable(r) && dpi > 0.0 && BuiltinsFrom(r, ix, iy, dpi)
    ensures Length(r, Vec(72.0 * x, 72.0 * y, "pt")) == Ok(Vec(Times(ix, x), Times(iy, y), Universe(r.rev)))
  {
    FamilyLength(r, PointNames, Times(ix, 1.0 / 72.0), Times(iy, 1.0 / 72.0), "pt", 72.0 * x, 72.0 * y);
    Cancel(ix, 72.0, x);
    Cancel(iy, 72.0, y);
  }

  /** In cand/canvas.py, dpi pixels make an inch. */
  lemma PixelsPerInch(r: Registry, dpi: real, x: real, y: real)
    requires Resolvable(r) && dpi > 0.0 && Builtins(r, dpi) && r.rev == Current
    ensures Length(r, Vec(dpi * x, dpi * y, "px")) == Length(r, Vec(x, y, "in"))
  {
    InchLength(r, dpi, x, y);
    PixelsFrom(r, InchScale(r.rev, r.size).0, InchScale(r.rev, r.size).1, dpi, x, y);
  }

  lemma PixelsFrom(r: Registry, ix: real, iy: real, dpi: real, x: real, y: real)
    requires Resolvable(r) && dpi > 0.0 && BuiltinsFrom(r, ix, iy, dpi) && r.rev == Current
    ensures Length(r, Vec(dpi * x, dpi * y, "px")) == Ok(Vec(Times(ix, x), Times(iy, y), Universe(r.rev)))
  {
    FamilyLength(r, PixelNames, Times(ix, 1.0 / dpi), Times(iy, 1.0 / dpi), "px", dpi * x, dpi * y);
    Cancel(ix, dpi, x);
    Cancel(iy, dpi, y);
  }

  /**
   * The upper right corner of the figure is the canvas size in inches, in
   * either revision: absolute units are inches in cand/canvas.py and
   * fractions of the figure in canvas.py.
   */
  lemma FigureSpansInches(r: Registry, dpi: real)
    requires Resolvable(r) && dpi > 0.0 && Builtins(r, dpi)
    ensures Coord(r, Pt(1.0, 1.0, Figure)).Ok?
    ensures Coord(r, Pt(r.size.0, r.size.1, "inches")) == Coord(r, Pt(1.0, 1.0, Figure))
  {
    var (ix, iy) := InchScale(r.rev, r.size);
    var U := Universe(r.rev);
    BuiltinFrame(r, "inches", ix, iy);
    PointResolution(r, r.size.0, r.size.1, "inches");
    PointResolution(r, 1.0, 1.0, Figure);
    if r.rev == Current {
      assert Frame(r, Figure) == Some(Affine(r.size.0, r.size.1, 0.0, 0.0));
      PlaceSwap(r.size.0, r.size.1, U);
    } else {
      assert Frame(r, Figure) == Some(Identity);
      PlaceInverse(r.size.0, r.size.1, U);
    }
  }

  lemma PlaceSwap(a: real, b: real, U: string)
    ensures Coordinates.Place(Affine(1.0, 1.0, 0.0, 0.0), a, b, U) == Coordinates.Place(Affine(a, b, 0.0, 0.0), 1.0, 1.0, U)
  {
  }

  lemma PlaceInverse(a: real, b: real, U: string)
    requires a != 0.0 && b != 0.0
    ensures Coordinates.Place(Affine(1.0 / a, 1.0 / b, 0.0, 0.0), a, b, U) == Coordinates.Place(Identity, 1.0, 1.0, U)
  {
  }

  class Canvas {
    const rev: Revision
    var size: (real, real)
    var defaultUnit: string
    var units: map<string, Unit>
    var axes: map<string, Axis>

    /** The fields, as the resolver reads them. */
    function State(): (r: Registry)
      reads this
      ensures r.rev == rev && r.size == size && r.defaultUnit == defaultUnit && r.units == units && r.axes == axes
    {
      Registry(rev, size, defaultUnit, units, axes)
    }

    /**
     * `__init__` for a size already in inches: no axes, default unit
     * "figure", and the built-in units, each added with `add_unit` and
     * then copied under its other names.  `dpi` is the resolution of the
     * matplotlib Figure, which only the pixel depends on.
     */
    constructor (rev: Revision, inches: (real, real), dpi: real)
      requires inches.0 > 0.0 && inches.1 > 0.0 && dpi > 0.0
      ensures this.rev == rev && size == inches && defaultUnit == Figure && axes == map[]
      ensures Resolvable(State()) && Builtins(State(), dpi)
    {
      this.rev := rev;
      size := inches;
      defaultUnit := Figure;
      axes := map[];
      units := map[];
      new;
      ghost var I := InchScale(rev, size);
      ghost var fig := Frame(State(), Figure).value;
      if rev == Current {
        Reciprocal(fig.sx, inches.0);
        Reciprocal(fig.sy, inches.1);
      } else {
        TimesOne(fig.sx, 1.0 / inches.0);
        TimesOne(fig.sy, 1.0 / inches.1);
      }
      AddNext(0, 1.0 / inches.0, 1.0 / inches.1, Figure, I.0, I.1, dpi, fig.sx, fig.sy, I.0, I.1);
      AddDerived(I.0, I.1, dpi);
    }

    /**
     * The rest of `__init__` once the inch is there, scaled by (ix, iy):
     * the centimetre from "inches", the millimetre from "cm", the point
     * from "inches" and, in cand/canvas.py, the pixel from "in".
     */
    method AddDerived(ghost ix: real, ghost iy: real, dpi: real)
      requires dpi > 0.0 && Resolvable(State()) && Upto(State(), ix, iy, dpi, 1)
      modifies this
      ensures Resolvable(State()) && size == old(size) && defaultUnit == old(defaultUnit) && axes == map[]
      ensures BuiltinsFrom(State(), ix, iy, dpi)
    {
      AddCentimetres(ix, iy, dpi);
      AddMillimetres(ix, iy, dpi);
      AddPoints(ix, iy, dpi);
      if rev == Current {
        AddPixels(ix, iy, dpi);
      }
      UptoBuiltins(State(), ix, iy, dpi);
    }

    /** `add_unit("cm", Vector(1/2.54, 1/2.54, "inches"))` and the other names of the centimetre. */
    method AddCentimetres(ghost ix: real, ghost iy: real, dpi: real)
      requires dpi > 0.0 && Resolvable(State()) && Upto(State(), ix, iy, dpi, 1)
      modifies this
      ensures Resolvable(State()) && size == old(size) && defaultUnit == old(defaultUnit)
      ensures Upto(State(), ix, iy, dpi, 2)
    {
      StepFrame(State(), ix, iy, dpi, 1, "inches", 0);
      AddNext(1, 1.0 / 2.54, 1.0 / 2.54, "inches", ix, iy, dpi, ix, iy,
              FamilyScale(1, ix, iy, dpi).0, FamilyScale(1, ix, iy, dpi).1);
    }

    /** `add_unit("mm", Vector(0.1, 0.1, "cm"))` and the other names of the millimetre. */
    method AddMillimetres(ghost ix: real, ghost iy: real, dpi: real)
      requires dpi > 0.0 && Resolvable(State()) && Upto(State(), ix, iy, dpi, 2)
      modifies this
      ensures Resolvable(State()) && size == old(size) && defaultUnit == old(defaultUnit)
      ensures Upto(State(), ix, iy, dpi, 3)
    {
      StepFrame(State(), ix, iy, dpi, 2, "cm", 1);
      AddNext(2, 0.1, 0.1, "cm", ix, iy, dpi, FamilyScale(1, ix, iy, dpi).0, FamilyScale(1, ix, iy, dpi).1,
              FamilyScale(2, ix, iy, dpi).0, FamilyScale(2, ix, iy, dpi).1);
    }

    /** `add_unit("pt", Vector(1/72, 1/72, "inches"))` and the other names of the point. */
    method AddPoints(ghost ix: real, ghost iy: real, dpi: real)
      requires dpi > 0.0 && Resolvable(State()) && Upto(State(), ix, iy, dpi, 3)
      modifies this
      ensures Resolvable(State()) && size == old(size) && defaultUnit == old(defaultUnit)
      ensures Upto(State(), ix, iy, dpi, 4)
    {
      StepFrame(State(), ix, iy, dpi, 3, "inches", 0);
      PointScale(ix, iy, dpi);
      AddNext(3, 1.0 / 72.0, 1.0 / 72.0, "inches", ix, iy, dpi, ix, iy, Times(ix, 1.0 / 72.0), Times(iy, 1.0 / 72.0));
    }

    /** `add_unit("px", Vector(1/dpi, 1/dpi, "in"))` and the other names of the pixel (cand/canvas.py only). */
    method AddPixels(ghost ix: real, ghost iy: real, dpi: real)
      requires dpi > 0.0 && Resolvable(State()) && Upto(State(), ix, iy, dpi, 4)
      modifies this
      ensures Resolvable(State()) && size == old(size) && defaultUnit == old(defaultUnit)
      ensures Upto(State(), ix, iy, dpi, 5)
    {
      StepFrame(State(), ix, iy, dpi, 4, "in", 0);
      PixelScale(ix, iy, dpi);
      AddNext(4, 1.0 / dpi, 1.0 / dpi, "in", ix, iy, dpi, ix, iy, Times(ix, 1.0 / dpi), Times(iy, 1.0 / dpi));
    }

    /**
     * Registers the k-th family with `add_unit(FamilyNames(k)[0],
     * Vector(kx, ky, t))` and its other names, where t scales by (fx, fy)
     * and the product is the family's scale.
     */
    method AddNext(k: nat, kx: real, ky: real, t: string, ghost ix: real, ghost iy: real, dpi: real,
                   ghost fx: real, ghost fy: real, ghost tx: real, ghost ty: real)
      requires k < 5 && dpi > 0.0 && Resolvable(State()) && Upto(State(), ix, iy, dpi, k)
      requires Frame(State(), t) == Some(Affine(fx, fy, 0.0, 0.0)) && Times(fx, kx) == tx && Times(fy, ky) == ty
      requires tx == FamilyScale(k, ix, iy, dpi).0 && ty == FamilyScale(k, ix, iy, dpi).1
      modifies this
      ensures Resolvable(State()) && size == old(size) && defaultUnit == old(defaultUnit)
      ensures Upto(State(), ix, iy, dpi, k + 1)
    {
      ghost var r := State();
      FamilyFresh(k);
      AddFamily(FamilyNames(k), kx, ky, t, fx, fy, tx, ty);
      FamilyStep(r, State(), ix, iy, dpi, k);
    }

    /**
     * `add_unit(family[0], Vector(kx, ky, t))` with the universal origin,
     * then `self.units[n] = self.units[family[0]]` for the other names n.
     * Tag t must have a frame without offset, as "figure" and the built-in
     * units have; (tx, ty) is the scale the family ends up with.
     */
    method AddFamily(family: seq<string>, kx: real, ky: real, t: string, ghost fx: real, ghost fy: real, ghost tx: real, ghost ty: real)
      requires Resolvable(State()) && |family| > 0
      requires Frame(State(), t) == Some(Affine(fx, fy, 0.0, 0.0)) && Times(fx, kx) == tx && Times(fy, ky) == ty
      requires forall n :: n in family ==> n !in units && n !in axes && !HasAxisPrefix(n) && n !in Reserved
      modifies this
      ensures Resolvable(State()) && size == old(size) && defaultUnit == old(defaultUnit) && axes == old(axes)
      ensures Added(old(units), units, family, tx, ty, Universe(rev))
    {
      var r := State();
      AddScaled(r, family[0], kx, ky, t, fx, fy);
      var o := AddUnit(family[0], Vec(kx, ky, t), Pt(0.0, 0.0, Universe(rev)));
      var u := units[family[0]];
      assert units == old(units)[family[0] := u];
      assert Scaled(u, tx, ty, Universe(rev));
      assert forall n :: n in family[1..] ==> n in family;
      AliasesKeepResolvable(State(), family[1..], family[0]);
      units := WithNames(units, family[1..], u);
      AddedFamily(old(units), family, u, tx, ty, Universe(rev));
    }

    /**
     * `Canvas(size_x, size_y, unit)`: the size converted to inches, then
     * refused if it is not positive, then the canvas.
     */
    static method Create(rev: Revision, sizeX: real, sizeY: real, unit: string, dpi: real) returns (res: Result<Canvas>)
      requires dpi > 0.0
      ensures SizeInInches(sizeX, sizeY, unit).Err? ==> res == Err(InvalidUnit)
      ensures SizeInInches(sizeX, sizeY, unit).Ok? && SizeCheck(rev, SizeInInches(sizeX, sizeY, unit).value).Fail? ==>
        res == Err(SizeCheck(rev, SizeInInches(sizeX, sizeY, unit).value).error)
      ensures SizeInInches(sizeX, sizeY, unit).Ok? && SizeCheck(rev, SizeInInches(sizeX, sizeY, unit).value).Pass? ==>
        res.Ok? && fresh(res.value) && res.value.rev == rev && res.value.size == SizeInInches(sizeX, sizeY, unit).value
        && res.value.defaultUnit == Figure && res.value.axes == map[]
        && Resolvable(res.value.State()) && Builtins(res.value.State(), dpi)
    {
      var inches := SizeInInches(sizeX, sizeY, unit);
      if inches.Err? {
        return Err(inches.error);
      }
      var check := SizeCheck(rev, inches.value);
      if check.Fail? {
        return Err(check.error);
      }
      var c := new Canvas(rev, inches.value, dpi);
      return Ok(c);
    }

    /** `set_default_unit(name)`: proved against `WithDefault`. */
    method SetDefaultUnit(name: string) returns (res: Outcome)
      requires Valid(State())
      modifies this
      ensures WithDefault(old(State()), name).Ok? ==> res == Pass && State() == WithDefault(old(State()), name).value
      ensures WithDefault(old(State()), name).Err? ==>
        res == Fail(WithDefault(old(State()), name).error) && State() == old(State())
    {
      if !IsUnit(State(), name) {
        return Fail(InvalidIdentifier);
      }
      defaultUnit := name;
      return Pass;
    }

    /** `add_axis(name, pos_ll, pos_ur)`: proved against `NewAxis`. */
    method AddAxis(name: string, ll: Metric, ur: Metric) returns (res: Outcome)
      requires Resolvable(State())
      modifies this
      ensures NewAxis(old(State()), name, ll, ur).Ok? ==> res == Pass && State() == NewAxis(old(State()), name, ll, ur).value
      ensures NewAxis(old(State()), name, ll, ur).Err? ==>
        res == Fail(NewAxis(old(State()), name, ll, ur).error) && State() == old(State())
    {
      if !IsPointKind(ll) || !IsPointKind(ur) {
        return Fail(TypeMismatch);
      }
      if !IsValidIdentifier(State(), name) {
        return Fail(InvalidIdentifier);
      }
      var a := Coord(State(), ll);
      if a.Err? {
        return Fail(a.error);
      }
      var b := Coord(State(), ur);
      if b.Err? {
        return Fail(b.error);
      }
      var box := AxisBox(State(), a.value, b.value);
      axes := axes[name := Axis(box, box)];
      return Pass;
    }

    /**
     * `add_grid(names, nrows, pos_ll, pos_ur, ...)`: the arrangement, the
     * two tilings (the vertical one reversed, so that the first row is at
     * the top), one `add_axis` per name that is not None, stopping at the
     * first that fails, and the optional unit of the whole grid.
     */
    method AddGrid(names: seq<Option<string>>, nrows: nat, posLL: Metric, posUR: Metric, specX: Spec, specY: Spec,
                   unitName: Option<string>) returns (res: Outcome)
      requires Resolvable(State())
      modifies this
      ensures Arrange(old(State()), |names|, nrows, posLL, posUR, specX, specY).Err? ==>
        res == Fail(Arrange(old(State()), |names|, nrows, posLL, posUR, specX, specY).error) && State() == old(State())
      ensures Arrange(old(State()), |names|, nrows, posLL, posUR, specX, specY).Ok? ==>
        (State(), res) == GridEffect(old(State()), names, Arrange(old(State()), |names|, nrows, posLL, posUR, specX, specY).value, unitName)
    {
      var plan := Arrange(State(), |names|, nrows, posLL, posUR, specX, specY);
      if plan.Err? {
        return Fail(plan.error);
      }
      res := PlaceGrid(names, plan.value, unitName);
    }

    /** `add_grid` once the arrangement is known: the axes, then the grid's own unit. */
    method PlaceGrid(names: seq<Option<string>>, p: Plan, unitName: Option<string>) returns (res: Outcome)
      requires Resolvable(State()) && Fits(p, |names|)
      modifies this
      ensures (State(), res) == GridEffect(old(State()), names, p, unitName)
    {
      res := PlaceNames(names, p);
      res := AddGridUnit(res, p, unitName);
    }

    /** The tail of `add_grid`: the unit spanning the grid, unless an axis failed. */
    method AddGridUnit(placed: Outcome, p: Plan, unitName: Option<string>) returns (res: Outcome)
      requires Resolvable(State())
      modifies this
      ensures (State(), res) == GridUnit((old(State()), placed), p, unitName)
    {
      res := placed;
      if placed.Pass? && unitName.Some? {
        var U := Universe(rev);
        var b := p.box;
        res := AddUnit(unitName.value, Vec(b.urx - b.llx, b.ury - b.lly, U), Pt(b.llx, b.lly, U));
      }
    }

    /**
     * The loop of `add_grid` over the names: the cell of the i-th name is
     * column `i % ncols` of the horizontal tiling and row `i // ncols` of
     * the vertical tiling reversed, so that the first row is at the top.
     */
    method PlaceNames(names: seq<Option<string>>, p: Plan) returns (res: Outcome)
      requires Resolvable(State()) && Fits(p, |names|)
      modifies this
      ensures (State(), res) == PlaceAxes(old(State()), names, Layout(p, |names|, Universe(rev)), |names|)
    {
      ghost var r0 := State();
      var U := Universe(rev);
      ghost var cs := Layout(p, |names|, U);
      var xs, rows := Tilings(p);
      res := Pass;
      for i := 0 to |names|
        invariant res == Pass && (State(), res) == PlaceAxes(r0, names, cs, i)
      {
        var c := CellAt(p, i, U, xs, rows);
        PlaceNext(r0, names, cs, i, State(), c);
        res := PlaceAt(names[i], c.0, c.1);
        if res.Fail? {
          FailureSticks(r0, names, cs, i + 1, |names|);
          return;
        }
      }
    }

    /**
     * The two tilings of `add_grid`: the columns left to right, and the
     * rows reversed, so that the first row is the top one.
     */
    static method Tilings(p: Plan) returns (xs: seq<(real, real)>, rows: seq<(real, real)>)
      requires p.ncols > 0 && p.nrows > 0
      ensures Tiles(p, xs, rows)
    {
      var posx := GridSpace(p.box.llx, p.box.urx, p.gapX, p.ncols);
      var posy := GridSpace(p.box.lly, p.box.ury, p.gapY, p.nrows);
      xs := posx.value;
      rows := seq(p.nrows, j requires 0 <= j < p.nrows => posy.value[p.nrows - 1 - j]);
    }

    /** The corners of the i-th name: column `i % ncols` of `xs`, row `i // ncols` of `rows`. */
    static method CellAt(p: Plan, i: nat, U: string, xs: seq<(real, real)>, rows: seq<(real, real)>) returns (c: (Metric, Metric))
      requires Fits(p, i + 1) && Tiles(p, xs, rows)
      ensures c == Corners(p, i, U)
    {
      GridCorners(p, i, U, xs, rows);
      var x := i % p.ncols;
      var y := i / p.ncols;
      c := (Pt(xs[x].0, rows[y].0, U), Pt(xs[x].1, rows[y].1, U));
    }

    /** One turn of the loop of `add_grid`: an axis for a name, nothing for None. */
    method PlaceAt(name: Option<string>, ll: Metric, ur: Metric) returns (res: Outcome)
      requires Resolvable(State())
      modifies this
      ensures (State(), res) == Grid.Place((old(State()), Pass), name, (ll, ur))
    {
      res := Pass;
      if name.Some? {
        res := AddAxis(name.value, ll, ur);
      }
    }

    /** `add_unit(name, scale, origin)`: proved against `NewUnit`. */
    method AddUnit(name: string, scale: Metric, origin: Metric) returns (res: Outcome)
      requires Resolvable(State()) && WellKinded(origin)
      modifies this
      ensures NewUnit(old(State()), name, scale, origin).Ok? ==>
        res == Pass && State() == NewUnit(old(State()), name, scale, origin).value
      ensures NewUnit(old(State()), name, scale, origin).Err? ==>
        res == Fail(NewUnit(old(State()), name, scale, origin).error) && State() == old(State())
    {
      if !IsVectorKind(scale) || !IsPointKind(origin) {
        return Fail(TypeMismatch);
      }
      if !IsValidIdentifier(State(), name) {
        return Fail(InvalidIdentifier);
      }
      var s := Length(State(), scale);
      if s.Err? {
        return Fail(s.error);
      }
      var o := Coord(State(), origin);
      if o.Err? {
        return Fail(o.error);
      }
      units := units[name := Unit(s.value.x, s.value.y, o.value)];
      return Pass;
    }
  }
}
