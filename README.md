# CanD canvas and metric algebra, modelled in Dafny

CanD lays out matplotlib figures on a canvas of a fixed physical size. Every
position is a `Point` and every displacement is a `Vector`. Each one carries
the name of the coordinate system it is written in: a unit such as
"cm", an axis name, "axis_" + an axis name, "figure", "absolute",
"-absolute", or "default".

Points and Vectors combine through operators:

- `+` and `-`;
- `*` and `/` by a number;
- the meets `>>` and `<<`, which take x from one operand and y from the other;
- the mean `|`;
- rotation `@`.

Two operands in the same coordinate system are combined at once.
Otherwise the operator builds a deferred node (`BinopPoint` or
`BinopVector`, tagged "various"). The canvas resolves that node later,
once it knows every coordinate system.

The model covers two revisions of the canvas:

- **Current** (cand/canvas.py, with cand/metrics.py): resolves everything
  to "absolute", inches from the lower left corner.
- **Legacy** (the older canvas.py): resolves everything to "figure",
  fractions of the canvas.

Both revisions dispatch on the tag in the same order, so one resolver
(`Coordinates.Coord` / `Coordinates.Length`) serves both.

## Modules

- `Results`: the failure kinds. Each Python raise (an assert, a
  paranoid-scientist check, a ValueError, a ZeroDivisionError) becomes an
  `Err`.
- `Metrics` (metrics.dfy): Points, Vectors and deferred nodes as one
  datatype, and every operator of cand/metrics.py as a function returning
  `Result<Metric>`. That includes Python's reflected operators, which hand
  `v + p` to `p + v`.
- `MetricLaws` (metric_laws.dfy): the kind table of the operators, when they
  compute and when they defer, equality, and the algebraic laws of concrete
  values.
- `Coordinates` (coordinates.dfy): the registry a canvas keeps (size,
  default unit, units, axes), `is_unit`, `is_valid_identifier`, and the
  resolver of both revisions. It also defines the affine frame each tag
  stands for.
- `ResolutionLaws` (resolution_laws.dfy): resolution is a homomorphism. An
  operation gives the same value whether it is applied before or after
  resolution.
- `Registration` (registration.dfy): `add_unit`, `set_default_unit` and the
  registry part of `add_axis`, as functions from registry to registry, with
  what each new coordinate system means.
- `Grid` (grid.dfy): `_grid_space` (a method with a loop) and the arithmetic
  and axis loop of `add_grid`.
- `Canvases` (canvas_model.dfy): the `Canvas` class. Its fields (size,
  default unit, units, axes) are updated in place by `__init__`, `add_unit`,
  `set_default_unit`, `add_axis` and `add_grid`. Each method is proved
  against the registry function that states its effect. This module also
  holds the built-in units and their conversion factors.
- `CanvasLaws` (canvas_laws.dfy): the laws test_canvas.py checks on sample
  expressions, stated for every kind-correct expression that resolves.

## Model

| member | source | states |
|---|---|---|
| Metrics.Coordinate | cand/metrics.py:319-334 | a deferred node's coordinate attribute is always "various" |
| Metrics.Width | cand/metrics.py:298-306 | `Width(x, c)` is a Vector (x, 0) in c |
| Metrics.Height | cand/metrics.py:308-316 | `Height(y, c)` is a Vector (0, y) in c |
| Metrics.TuplePoint | cand/metrics.py:37-45 | a Point with a tuple tag (c0, c1) is the plain Point when c0 == c1, otherwise a `>>` node |
| Metrics.TupleVector | cand/metrics.py:150-158 | the same for a Vector with a tuple tag |
| Metrics.WidthOf | cand/metrics.py:265-272 | `v.width()` is vector-kind, and on a concrete Vector keeps x and zeroes y |
| Metrics.HeightOf | cand/metrics.py:427-429 | `v.height()` is vector-kind, and on a concrete Vector keeps y and zeroes x |
| Metrics.FlipX | cand/metrics.py:274-276 | `v.flipx()` is again vector-kind, for concrete and deferred Vectors |
| Metrics.FlipY | cand/metrics.py:278-280 | `v.flipy()` is again vector-kind, for concrete and deferred Vectors |
| MetricLaws.ApplyRespectsSignature | cand/metrics.py:48-125 | every successful operation returns the kind the Point/Vector kind table gives (Point ± Vector is a Point, Point − Point a Vector, ...) |
| MetricLaws.ApplyFailsExactly | cand/metrics.py:161-264 | operand kinds outside the table raise a type error; inside it an operation fails exactly when blocked (division of a concrete Vector by 0, a "various" plain value) |
| MetricLaws.Deferral | cand/metrics.py:352-383 | a result is concrete exactly when both operands share a coordinate system; otherwise it is a node holding the operator and the operands in source order, swapped for reflected operators |
| MetricLaws.NodesStayDeferred | cand/metrics.py:386-433 | once a node is an operand, every operator builds a new "various" node |
| MetricLaws.OperatorsBuildWellKinded | cand/metrics.py:319-334 | kind-correct operands give a kind-correct result, so every node the operators build matches the op_table signature |
| MetricLaws.EqualsReflexive | cand/metrics.py:348-349 | `a == a` is True for every value and node |
| MetricLaws.EqualsSound | cand/metrics.py:81-88 | `a == b` answers True only for values with equal components, tags and tree shape |
| MetricLaws.PointEqualsVector | cand/metrics.py:81-88 | Point.__eq__ does not check its operand's kind, so a Point equals a Vector with its fields; Vector.__eq__ checks it, so the converse is a type error |
| MetricLaws.AddThenSub | cand/metrics.py:62-80 | `(p + v) - v == p` for a Point and Vector in one coordinate system |
| MetricLaws.DifferenceMovesPoint | cand/metrics.py:48-80 | `p + (q - p) == q` |
| MetricLaws.MulThenDiv | cand/metrics.py:189-221 | `(v * k) / k == v` for nonzero k |
| MetricLaws.NegInvolution | cand/metrics.py:202-211 | `-v` negates both components and `-(-v) == v` |
| MetricLaws.WidthPlusHeight | cand/metrics.py:265-272 | `v.height() + v.width() == v` |
| MetricLaws.FlipsInvolutive | cand/metrics.py:273-280 | each flip negates one component and undoes itself |
| MetricLaws.MeanIsMidpoint | cand/metrics.py:113-125 | `(p \| q) - p == q - (p \| q)` |
| MetricLaws.MeetLaws | cand/metrics.py:92-112 | `p >> p == p`; `p >> q` takes x from p and y from q; `p << q == q >> p` |
| MetricLaws.AdditionLaws | cand/metrics.py:161-174 | Vector addition commutes, and `p + (u + v) == (p + u) + v` |
| Coordinates.Place | cand/canvas.py:276-285 | a frame maps a Point to a Point in the given tag |
| Coordinates.Stretch | cand/canvas.py:327-329 | a frame maps a Vector to a Vector in the given tag |
| Coordinates.ApplyResolved | cand/canvas.py:289-299 | an operator applied to resolved operands gives a concrete value in the universal tag |
| Coordinates.Coord | cand/canvas.py:256-300 | `convert_to_absolute_coord` / `convert_to_figure_coord`: every success is concrete and universal, a Point stays a Point, a Vector goes to the length resolver, and a universal Point is returned unchanged |
| Coordinates.UnitPoint | cand/canvas.py:286-288 | a Point in a unit is `Vector(x*sx, y*sy) + origin`, the unit's frame applied to (x, y) |
| Coordinates.Length | cand/canvas.py:304-329 | `convert_to_absolute_length` / `convert_to_figure_length`: every success is a universal Vector, and a universal Vector is returned unchanged |
| Coordinates.ResolveOperand | cand/canvas.py:289-299 | numbers pass through and values are resolved, keeping the operand's sort |
| Coordinates.FigureCoord | cand/canvas.py:333-337 | the figure coordinate of a value is a concrete "figure" value of the same kind |
| Coordinates.FigureLength | cand/canvas.py:341-343 | the figure length of a Vector is a "figure" Vector |
| Coordinates.ReservedUnprefixed | cand/canvas.py:232-233 | no reserved tag starts with "axis_" |
| Coordinates.PointResolution | cand/canvas.py:256-300 | a Point tagged t resolves through the frame of t, and fails with an unknown coordinate system exactly when t has no frame |
| Coordinates.CurrentFigureFrame | cand/canvas.py:272-273 | in cand/canvas.py a "figure" Point is scaled by the canvas size |
| Coordinates.LegacyFixedFrames | canvas.py:546-549 | in canvas.py "absolute" and "-absolute" Points are divided by the size (and mirrored) |
| Coordinates.UnitFrame | cand/canvas.py:286-288 | a Point in a registered unit resolves through that unit's scale and origin |
| Coordinates.VectorResolution | cand/canvas.py:304-329 | a Vector tagged t measures the linear part of t's frame (origins cancel), and fails exactly when t has no frame |
| Coordinates.OffsetCancels | cand/canvas.py:304-329 | the offset of a frame drops out of the difference of two placed Points, leaving the stretched Vector |
| Coordinates.FrameLength | cand/canvas.py:327-329 | a Vector in a tag with frame f resolves to f's linear part times its components |
| Coordinates.ResolutionKeepsKind | cand/canvas.py:256-329 | a point-kind expression resolves to a Point and a vector-kind one to a Vector |
| Coordinates.OperandKeepsKind | cand/canvas.py:289-299 | resolving an operand keeps its sort |
| Coordinates.DefaultIsDefaultUnit | cand/canvas.py:268-269 | a "default" Point or Vector resolves as the same value in the default unit |
| Coordinates.RevisionsAgreeOnFixedFrames | canvas.py:530-574 | on "figure", "absolute" and "-absolute", cand/canvas.py's figure coordinate equals canvas.py's resolution |
| Coordinates.FigureAgrees | cand/canvas.py:333-337 | both revisions return a "figure" Point unchanged as a figure coordinate |
| Coordinates.AbsoluteAgrees | cand/canvas.py:333-337 | the revisions agree on "absolute" Points for equal canvas sizes |
| Coordinates.NegAbsoluteAgrees | cand/canvas.py:333-337 | the revisions agree on "-absolute" Points for equal canvas sizes |
| Coordinates.PrefixOf | cand/canvas.py:236-237 | "axis_" + n has the prefix, and its rest is n |
| Coordinates.ValidIdentifierExactly | cand/canvas.py:243-252 | `is_valid_identifier` holds exactly for unprefixed names that are neither reserved nor an axis nor a unit |
| Coordinates.IsUnitGrows | cand/canvas.py:225-240 | registering more units or axes never takes a name out of `is_unit` |
| Coordinates.AxisNamesAreUnits | cand/canvas.py:236-237 | in cand/canvas.py "axis_" + a is a unit for every axis a, resolved through its unit square |
| Coordinates.PrefixedUnitNamesUnresolvable | cand/canvas.py:236-237 | the same rule makes `is_unit` accept "axis_" + n for a unit n, which then fails to resolve |
| Coordinates.LegacyPrefixRuleAddsNothing | canvas.py:499-514 | in canvas.py `is_unit` holds exactly for reserved names, axes and units |
| Coordinates.LegacyAxisNamesRefused | canvas.py:510 | canvas.py's `is_unit` refuses "axis_" + a for an axis a, although its resolver maps that tag to the unit square |
| ResolutionLaws.Image | cand/canvas.py:256-329 | a frame maps a concrete value to a concrete value of the same kind in the target tag |
| ResolutionLaws.ResolveConcrete | cand/canvas.py:256-300 | a concrete value resolves exactly when its tag has a frame, to the frame's image |
| ResolutionLaws.ResolveVector | cand/canvas.py:304-329 | a Vector resolves exactly when its tag has a frame, to the frame's image |
| ResolutionLaws.AddCommutes | cand/metrics.py:48-61 | an eager sum taken before or after a frame is the same |
| ResolutionLaws.PointPlusVector | cand/metrics.py:48-61 | Point + Vector is componentwise, before and after a frame |
| ResolutionLaws.VectorPlusVector | cand/metrics.py:161-174 | Vector + Vector is componentwise, before and after a frame |
| ResolutionLaws.SubCommutes | cand/metrics.py:62-80 | an eager difference commutes with a frame |
| ResolutionLaws.ScaleCommutes | cand/metrics.py:189-197 | scaling by k commutes with a frame |
| ResolutionLaws.DivideCommutes | cand/metrics.py:212-221 | division by nonzero k commutes with a frame |
| ResolutionLaws.MeetCommutes | cand/metrics.py:92-104 | an eager meet commutes with a frame |
| ResolutionLaws.MeanCommutes | cand/metrics.py:113-125 | an eager mean commutes with a frame |
| ResolutionLaws.OperatorsCommuteWithFrames | cand/metrics.py:319-334 | every eager operation gives the same value applied before or after a frame |
| ResolutionLaws.ResolveThroughFrame | cand/canvas.py:289-299 | a number, or a concrete operand tagged t, resolves through t's frame |
| ResolutionLaws.EagerResolution | cand/canvas.py:256-300 | resolving an eagerly computed value equals applying the operator to the resolved operands |
| ResolutionLaws.ReflectedResolved | cand/metrics.py:198-201 | operands in Python's reflected order give the same result once resolved |
| ResolutionLaws.NodeResolution | cand/canvas.py:289-299 | resolving a node equals applying its operator to the resolved operands |
| ResolutionLaws.ResolutionCommutes | cand/canvas.py:256-329 | resolution is a homomorphism: `R(a op b) == R(a) op R(b)` for kind-correct operands that resolve |
| Registration.NewUnit | cand/canvas.py:137-150 | `add_unit` succeeds exactly when the scale is a Vector, the origin a Point, the name a valid identifier and both resolve; afterwards the registry is still resolvable and the name is taken |
| Registration.WithDefault | cand/canvas.py:151-161 | `set_default_unit` succeeds exactly for names `is_unit` accepts, and changes only the default unit |
| Registration.NewAxis | cand/canvas.py:162-193 | `add_axis` succeeds exactly when both corners are Points that resolve and the name is a valid identifier; it adds one axis and leaves the units alone |
| Registration.FreshNameHasNoFrame | cand/canvas.py:243-252 | a valid identifier names no coordinate system, with or without the "axis_" prefix |
| Registration.NewUnitKeepsFrames | cand/canvas.py:137-150 | `add_unit` keeps the meaning of every existing tag, and the new name's frame is the resolved scale and origin |
| Registration.NewAxisKeepsFrames | cand/canvas.py:162-193 | `add_axis` keeps the meaning of every existing tag |
| Registration.ResolutionsSurvive | cand/canvas.py:256-300 | whatever resolved before a registration resolves to the same value after it |
| Registration.OperandSurvives | cand/canvas.py:289-299 | the same for operands |
| Registration.UnitMeaning | cand/canvas.py:147-150 | in a new unit, a Point (x, y) sits at origin + (x*sx, y*sy), and a Vector measures (x*sx, y*sy) whatever the origin |
| Registration.AxisBoxCorners | cand/canvas.py:189-191 | the unit square of a new axis runs from its lower left to its upper right corner |
| Registration.AxisSpansCorners | cand/canvas.py:162-193 | after `add_axis`, "axis_" + name puts (0, 0) at pos_ll and (1, 1) at pos_ur, and the axis' data coordinates agree with it |
| Registration.AxisAdded | cand/canvas.py:189-192 | a new axis with universal corners gets exactly the box of those corners |
| Registration.AxisKept | cand/canvas.py:162-193 | adding an axis leaves every other axis unchanged |
| Registration.SameAxisBox | cand/canvas.py:189-191 | an axis box depends only on the revision and the canvas size |
| Grid.GridSpace | cand/canvas.py:612-619 | `_grid_space` divides by zero for no intervals; otherwise it returns count intervals, the i-th being `Cell(i)` |
| Grid.Tiling | cand/canvas.py:612-619 | the intervals start at frm and end at to, all have the same length, and neighbours are exactly `spacing` apart |
| Grid.TilingEnds | cand/canvas.py:612-619 | the first interval starts at frm and the last ends at to |
| Grid.TilingGap | cand/canvas.py:616-618 | neighbouring intervals are `spacing` apart |
| Grid.SpacingForSize | cand/canvas.py:661-662 | the spacing derived from a size gives intervals of exactly that size |
| Grid.ColumnsIsCeiling | cand/canvas.py:657 | the column count is the least that holds every name in nrows rows |
| Grid.RowInRange | cand/canvas.py:688-690 | the row and column of a name's index are in range |
| Grid.SpacingBoth | cand/canvas.py:651-653 | `spacing=` stands for a horizontal and a vertical spacing, both vector-kind |
| Grid.SizeBoth | cand/canvas.py:654-656 | `size=` stands for a horizontal and a vertical size, both vector-kind |
| Grid.Arrange | cand/canvas.py:651-687 | a successful arrangement has nrows > 0 rows and the ceiling number of columns, and the cells fit every name |
| Grid.ResolvedSpacing | cand/canvas.py:684-685 | a universal spacing resolves to itself |
| Grid.ArrangeSteps | cand/canvas.py:651-687 | a successful arrangement is the corners, then the horizontal and vertical settling, in source order |
| Grid.SettleGivesSize | cand/canvas.py:660-683 | a size gives cells of exactly that size once the derived spacing is resolved, and a single cell is centred |
| Grid.SettleSeveral | cand/canvas.py:661-662 | with several cells, the corners stay and the derived spacing gives the size |
| Grid.SettleSingle | cand/canvas.py:663-667 | a single cell gets the size, centred between the corners |
| Grid.SettleKeepsColumns | cand/canvas.py:671-683 | the vertical step leaves the columns unless a single row's size has an x component |
| Grid.RowHeightIsSize | cand/canvas.py:671-683 | with `size_y` given, every row is that high |
| Grid.ColumnWidthIsSize | cand/canvas.py:660-670 | with `size_x` given, every column is that wide |
| Grid.SingleRowCentred | cand/canvas.py:679-683 | a single row of given height is centred on the band between the corners |
| Grid.SpacingIsKept | cand/canvas.py:684-687 | with a spacing given, neighbouring cells are that far apart |
| Grid.EmptyGridFails | cand/canvas.py:657-687 | an empty list of names fails |
| Grid.Corners | cand/canvas.py:688-692 | each cell's corners are universal Points |
| Grid.GridCorners | cand/canvas.py:686-692 | a cell's corners index the horizontal tiling by `i % ncols` and the reversed vertical tiling by `i // ncols` |
| Grid.FirstRowAtTop | cand/canvas.py:686-692 | the first row touches the top of the grid, and the first column its left side |
| Grid.NextRowBelow | cand/canvas.py:686-692 | each row sits one vertical spacing below the one before it |
| Grid.NextColumnRight | cand/canvas.py:686-692 | within a row, each cell sits one horizontal spacing right of the one before |
| Grid.Layout | cand/canvas.py:688-692 | the corners of the first n names, in order |
| Grid.PlaceAxes | cand/canvas.py:688-692 | the loop of `add_axis` calls keeps the registry resolvable and the units, size and revision unchanged |
| Grid.Place | cand/canvas.py:690-692 | one turn does nothing after a failure or for None; otherwise it is `add_axis`, which changes nothing when it fails |
| Grid.PlaceNext | cand/canvas.py:688-692 | after i names that all went through, the next turn starts from their registry |
| Grid.FailureSticks | cand/canvas.py:688-692 | once a name fails, the rest of the loop is never run |
| Grid.AxesPlaced | cand/canvas.py:688-692 | when the loop gets through, every name has its axis, whose unit square is its cell |
| Grid.LastAxis | cand/canvas.py:690-692 | the turn for a name gives it the box of its cell |
| Grid.EarlierAxis | cand/canvas.py:690-692 | a turn leaves the axes already placed as they were |
| Grid.PlacingKeepsFrames | cand/canvas.py:688-692 | the loop keeps every coordinate system the canvas had |
| Grid.PlaceKeepsFrames | cand/canvas.py:690-692 | one turn keeps every coordinate system the canvas had before the loop |
| Grid.KeepsFramesChains | cand/canvas.py:688-692 | keeping coordinate systems is transitive |
| Grid.GridEffect | cand/canvas.py:686-696 | the axes, then the grid unit, keep the registry resolvable |
| Grid.GridUnit | cand/canvas.py:693-696 | adding the grid unit keeps the registry resolvable |
| Grid.GridUnitSpans | cand/canvas.py:693-696 | the grid's own unit is added only if every axis was, and puts (0, 0) at the lower left and (1, 1) at the upper right corner of the grid |
| Canvases.SizeInInches | cand/canvas.py:65-75 | the size is accepted exactly in inches, cm or mm; cm and mm sizes times 2.54 or 25.4 give back the argument |
| Canvases.SizeCheck | cand/canvas.py:78-81 | construction fails exactly when a dimension is not positive, with an invalid size or a division by zero |
| Canvases.InFamily | cand/canvas.py:83-102 | a name of an added family is a unit with that family's scale |
| Canvases.StepFrame | cand/canvas.py:83-102 | the frame of an added family's name scales by the family's factor, with no offset |
| Canvases.UptoBuiltins | cand/canvas.py:83-102 | with all families in, the registry holds every built-in unit |
| Canvases.FamilyFresh | cand/canvas.py:83-102 | each family's names are free, and none was registered by an earlier family |
| Canvases.AddScaled | cand/canvas.py:137-150 | `add_unit(name, Vector(kx, ky, t))` with the default origin, where t scales by (fx, fy), scales by (fx*kx, fy*ky) |
| Canvases.StretchBy | cand/canvas.py:304-329 | a Vector in a tag that scales by (fx, fy) measures (fx*kx, fy*ky) |
| Canvases.AliasesKeepResolvable | cand/canvas.py:85-86 | copying a unit under further names keeps the registry resolvable |
| Canvases.BuiltinFrame | cand/canvas.py:83-102 | a built-in unit's frame has no offset from the universal origin |
| Canvases.WithNames | cand/canvas.py:85-86 | `units[n] = u` for each further name: every name maps to u, and nothing else changes |
| Canvases.FamilyKept | cand/canvas.py:83-102 | adding a family keeps the units already there |
| Canvases.FamilyStep | cand/canvas.py:83-102 | adding the k-th family to a registry with the first k gives one with the first k + 1 |
| Canvases.FamilyAdded | cand/canvas.py:83-102 | a family added to a registry, with no axis among its names |
| Canvases.AddedFamily | cand/canvas.py:84-86 | `add_unit` of a family's first name, then the other names copied from it |
| Canvases.BuiltinNamesFree | cand/canvas.py:243-252 | no built-in unit name is reserved or carries the axis prefix |
| Canvases.BuiltinNamesApart | cand/canvas.py:83-102 | the five families share no name |
| Canvases.FamilyLength | cand/canvas.py:83-102 | a Vector in a built-in unit measures its components times the unit's scale |
| Canvases.InchLength | cand/canvas.py:84 | a Vector in inches measures its components times the inch scale |
| Canvases.CentimetresPerInch | cand/canvas.py:87-91 | 2.54 cm measure one inch |
| Canvases.CentimetresFrom | cand/canvas.py:87-91 | 2.54 cm measure one inch of any inch scale |
| Canvases.MillimetresPerInch | cand/canvas.py:92-96 | 25.4 mm measure one inch |
| Canvases.MillimetresFrom | cand/canvas.py:92-96 | 25.4 mm measure one inch of any inch scale |
| Canvases.PointsPerInch | cand/canvas.py:97-99 | 72 pt measure one inch |
| Canvases.PointsFrom | cand/canvas.py:97-99 | 72 pt measure one inch of any inch scale |
| Canvases.PixelsPerInch | cand/canvas.py:100-102 | dpi px measure one inch |
| Canvases.PixelsFrom | cand/canvas.py:100-102 | dpi px measure one inch of any inch scale |
| Canvases.FigureSpansInches | canvas.py:372-391 | in either revision, the canvas size in inches is the upper right corner of the figure |
| Canvases.Canvas.State | cand/canvas.py:42-102 | the registry the resolver reads is the object's fields |
| Canvases.Canvas.constructor | cand/canvas.py:42-102 | a new canvas has no axes, default unit "figure", and every built-in unit under every name |
| Canvases.Canvas.AddDerived | cand/canvas.py:87-102 | registers cm, mm, pt and (in cand/canvas.py) px after the inch |
| Canvases.Canvas.AddCentimetres | cand/canvas.py:87-91 | registers the centimetre family at 1/2.54 inch |
| Canvases.Canvas.AddMillimetres | cand/canvas.py:92-96 | registers the millimetre family at 0.1 cm |
| Canvases.Canvas.AddPoints | cand/canvas.py:97-99 | registers the point family at 1/72 inch |
| Canvases.Canvas.AddPixels | cand/canvas.py:100-102 | registers the pixel family at 1/dpi inch |
| Canvases.Canvas.AddNext | cand/canvas.py:83-102 | registers the k-th family with its scale, keeping the first k |
| Canvases.Canvas.AddFamily | cand/canvas.py:84-86 | `add_unit` of the first name, then copies under the other names |
| Canvases.Canvas.Create | cand/canvas.py:42-102 | `Canvas(size_x, size_y, unit)` rejects other size units, then non-positive sizes, and otherwise builds the canvas |
| Canvases.Canvas.SetDefaultUnit | cand/canvas.py:151-161 | `set_default_unit` has the effect `WithDefault` states, or fails and changes nothing |
| Canvases.Canvas.AddAxis | cand/canvas.py:162-193 | `add_axis` has the effect `NewAxis` states, or fails and changes nothing |
| Canvases.Canvas.AddGrid | cand/canvas.py:620-696 | `add_grid` fails without change when the arrangement fails, and otherwise has the effect `GridEffect` states |
| Canvases.Canvas.PlaceGrid | cand/canvas.py:686-696 | the axes and the grid unit, as `GridEffect` states |
| Canvases.Canvas.AddGridUnit | cand/canvas.py:693-696 | the grid unit, as `GridUnit` states |
| Canvases.Canvas.PlaceNames | cand/canvas.py:688-692 | the loop over the names, as `PlaceAxes` over `Layout` states |
| Canvases.Canvas.Tilings | cand/canvas.py:686-687 | the column tiling and the reversed row tiling |
| Canvases.Canvas.CellAt | cand/canvas.py:689-692 | the corners of the i-th name are `Corners(i)` |
| Canvases.Canvas.PlaceAt | cand/canvas.py:690-692 | one turn of the loop, as `Grid.Place` states |
| Canvases.Canvas.AddUnit | cand/canvas.py:137-150 | `add_unit` has the effect `NewUnit` states, or fails and changes nothing |
| CanvasLaws.ResolvedShape | cand/canvas.py:256-329 | a resolved expression is a universal Point or Vector, matching the expression's kind |
| CanvasLaws.VariousUnresolvable | cand/canvas.py:256-300 | no concrete value tagged "various" resolves |
| CanvasLaws.Defined | cand/metrics.py:319-334 | a kind-correct operation that is not blocked succeeds, with the tabled kind |
| CanvasLaws.VectorSumResolves | test_canvas.py:146-155 | `R(v1 + v2) == R(v1) + R(v2)`, componentwise |
| CanvasLaws.PointSumResolves | test_canvas.py:81-86 | `R(p + v) == R(p) + R(v)`, and `v + p == p + v` |
| CanvasLaws.ScaledVectorResolves | test_canvas.py:112-121 | `R(v * k) == R(v) * k`, and `k * v == v * k` |
| CanvasLaws.DividedVectorResolves | test_canvas.py:122-130 | `R(v / k) == R(v) / k` for nonzero k |
| CanvasLaws.DivisionByZero | cand/metrics.py:212-221 | dividing a concrete Vector by 0 fails at once; a node defers it, and its resolution fails |
| CanvasLaws.MeetResolves | test_canvas.py:88-95 | `R(p1 >> p2)` is the x of R(p1) with the y of R(p2) |
| CanvasLaws.MeetLeftResolves | test_canvas.py:96-103 | `R(p1 << p2)` is the x of R(p2) with the y of R(p1) |
| CanvasLaws.MeanResolves | test_canvas.py:104-110 | `R(p1 \| p2)` is the midpoint of R(p1) and R(p2) |
| CanvasLaws.DifferenceResolves | cand/metrics.py:62-80 | `R(a - b) == R(a) - R(b)` for two Points or two Vectors |
| CanvasLaws.VectorIdentities | test_canvas.py:71-79 | `R(v + 0) == R(v)`, `R(v - v) == 0`, `R(v * 1) == R(v)` |
| CanvasLaws.ResolutionCommutative | test_canvas.py:158-177 | `R(v1 + v2) == R(v2 + v1)` and `R(v * k) == R(k * v)` |
| CanvasLaws.SumsAssociate | test_canvas.py:132-144 | `R(p + (v1 + v2)) == R((p + v1) + v2)` |
| CanvasLaws.MixedSumsAssociate | test_canvas.py:132-144 | `R(v1 + (p + v2)) == R((v1 + p) + v2)` |
| CanvasLaws.ScalingAssociates | test_canvas.py:51-60 | `R(k1 * (k2 * v)) == R((k1 * k2) * v)` |
| CanvasLaws.DivisionAssociates | test_canvas.py:61-69 | `R(v / k1 / k2) == R(v / (k1 * k2))` |
| CanvasLaws.StretchParts | cand/metrics.py:265-272 | the width and height of a stretched Vector are the stretched width and height |
| CanvasLaws.NodePartsAreOperations | cand/metrics.py:423-429 | on a node, `v.height()` and `v.width()` are built by the operators from the anchor origin |
| CanvasLaws.WidthAndHeightResolve | test_canvas.py:39-49 | `R(v.height()) == R(v).height()`, `R(v.width()) == R(v).width()` and `R(v) == R(v.height()) + R(v.width())` |
| CanvasLaws.NodeHeightResolves | cand/metrics.py:427-429 | a node's height resolves to the height of its resolution |
| CanvasLaws.NodeWidthResolves | cand/metrics.py:423-426 | a node's width resolves to the width of its resolution |
| CanvasLaws.StretchFlips | cand/metrics.py:274-280 | mirroring a stretched Vector is stretching the mirrored Vector |
| CanvasLaws.ConcreteFlipXResolves | cand/metrics.py:274-276 | `R(v.flipx()) == R(v).flipx()` for a concrete Vector in any tag |
| CanvasLaws.ConcreteFlipYResolves | cand/metrics.py:278-280 | `R(v.flipy()) == R(v).flipy()` for a concrete Vector in any tag |
| CanvasLaws.FlipXResolves | cand/metrics.py:430-431 | `R(v.flipx()) == R(v).flipx()`: for a node, `(-v) >> v` resolves to R(v) with its x negated and its y kept |
| CanvasLaws.FlipYResolves | cand/metrics.py:432-433 | `R(v.flipy()) == R(v).flipy()`: for a node, `v >> (-v)` resolves to R(v) with its y negated and its x kept |

## Left out

- Rotation (`@`) of concrete Vectors needs cos and sin. The operator is
  kept with its kind, and a rotated node resolves to the error
  `RotationNotModelled`.
- Metrics.Rotate: the operator set is cand/metrics.py's in both revisions.
  canvas.py defines no `__matmul__` and leaves `@` out of its operator set
  (canvas.py:210), so there `v @ k` fails at once, where the model builds
  the node and refuses it only when it is resolved.
- Metrics.Equals: follows cand/metrics.py, where `Vector == Point` is a type
  error. canvas.py's Vector.__eq__ (canvas.py:185-186) does not check the
  other operand's kind, so there a Vector equals a Point with the same
  fields; the Legacy revision's answer to that comparison is not modelled.
- Canvases.SizeCheck: a negative size fails with `InvalidSize`. In the
  source that failure is matplotlib's own check when the Figure is created
  (cand/canvas.py:78), which the model takes as given rather than models.
- Everything matplotlib draws: the Figure, the axes artists, fonts, LaTeX,
  `save`, `show`, `ax`, `add_colorbar`, `add_poly`, `add_rect`, `add_box`,
  `add_ellipse`, `add_arrow`, `add_text`, `add_line`, `add_marker`,
  `add_legend`, `add_figure_labels`, `fix_fonts`, `add_image` and
  cand/fontant.py. These draw and resolve through the operations modelled
  here.
- The screen resolution (dpi) of the matplotlib Figure is a parameter, and
  floating point is modelled by exact reals.
- An axis' data limits are matplotlib's initial (0, 1) on both axes. Later
  `set_xlim` / `set_ylim` calls are not modelled, so an axis' data
  transform is its unit square.
- `print` statements in canvas.py's `add_grid` have no effect on state and
  are left out.
- Failures are coarse error kinds. A paranoid-scientist argument check, an
  assert and a Python exception of the same cause map to one `Err`.
- The model builds canvas.py's units after storing the size, where the
  source stores the size last. The "in" unit is given in "figure" units,
  which do not read the size, so the result is the same.
- Coordinates.Coord: requires `Resolvable`, a default unit other than
  "default". `set_default_unit("default")` is allowed by both revisions,
  after which resolving any default value recurses without end.
- Registration.NewUnit: requires the origin to be kind-correct. The
  operators only ever build kind-correct values, but a hand-built node is
  not covered.
- Grid.ColumnWidthIsSize: is proved only when a single row's vertical size
  has no x component. Such a size moves the corners sideways, which the
  source does by adding the whole Vector.
- ResolutionLaws.ResolutionCommutes: requires both operands to resolve. The
  deferred node fails when one of them does not, which the lemma does not
  state.

## Findings

| source | as written | input that shows it | evidently intended | confidence | as-written member | corrected member |
|---|---|---|---|---|---|---|
| canvas.py:510 | `is_unit` accepts a name n without the "axis_" prefix when "axis_" + n is a unit, a rule that never adds a name; the tag "axis_" + a of an axis a is refused | an axis "a"; `is_unit("axis_a")` is False although `convert_to_figure_coord` resolves "axis_a" through a's unit square, so `set_default_unit("axis_a")` is refused | accept "axis_" + n when n is a unit or axis, as cand/canvas.py:236-237 does | high, not executed | Coordinates.LegacyAxisNamesRefused | Coordinates.AxisNamesAreUnits |
