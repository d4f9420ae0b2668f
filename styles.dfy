/**
 * The style translator: from the element's layout-relevant style record to
 * the solver's native style record, one category at a time (position,
 * margin, padding, flex, dimensions, display, border, gap, overflow, grid).
 *
 * Each category is a partial update: only keys present in the input record
 * touch the output. Every category has a declarative specification `XOf`
 * and an imperative `ApplyXStyles` method that updates its locals step by
 * step as the source does and is proved to compute `XOf`.
 */
module StyleTranslator {
  import opened Wrappers
  import opened Taffy
  import opened TaffyNodes

  // ---------------------------------------------------------------------
  // The input record

  /**
   * One key of the input record: `Absent` when the key is not in the record
   * (`'k' in style` is false), `Present(None)` when it is there with the
   * value `undefined`, `Present(Some(v))` otherwise.
   */
  datatype Prop<+T> = Absent | Present(value: Option<T>)

  /** A size given as a number of cells or as a string such as `"50%"`. */
  datatype NumberOrString = Number(n: real) | Str(s: string)

  /** A border style: a named box style (possibly the empty string) or a custom box object. */
  datatype BorderStyle = BoxName(name: string) | CustomBox

  /** An entry of a grid track list: a bare number or a solver-native descriptor. */
  datatype TrackOrNumber<T> = TrackNumber(n: real) | Track(track: T)

  /** The layout-relevant keys of an element's style record. */
  datatype Styles = Styles(
    position: Prop<string>,
    columnGap: Prop<real>,
    rowGap: Prop<real>,
    gap: Prop<real>,
    margin: Prop<real>,
    marginX: Prop<real>,
    marginY: Prop<real>,
    marginTop: Prop<real>,
    marginBottom: Prop<real>,
    marginLeft: Prop<real>,
    marginRight: Prop<real>,
    padding: Prop<real>,
    paddingX: Prop<real>,
    paddingY: Prop<real>,
    paddingTop: Prop<real>,
    paddingBottom: Prop<real>,
    paddingLeft: Prop<real>,
    paddingRight: Prop<real>,
    flexGrow: Prop<real>,
    flexShrink: Prop<real>,
    flexDirection: Prop<string>,
    flexBasis: Prop<NumberOrString>,
    flexWrap: Prop<string>,
    alignItems: Prop<string>,
    alignSelf: Prop<string>,
    justifyContent: Prop<string>,
    alignContent: Prop<string>,
    width: Prop<NumberOrString>,
    height: Prop<NumberOrString>,
    minWidth: Prop<NumberOrString>,
    minHeight: Prop<NumberOrString>,
    display: Prop<string>,
    borderStyle: Prop<BorderStyle>,
    borderTop: Prop<bool>,
    borderBottom: Prop<bool>,
    borderLeft: Prop<bool>,
    borderRight: Prop<bool>,
    overflow: Prop<string>,
    overflowX: Prop<string>,
    overflowY: Prop<string>,
    gridTemplateColumns: Prop<seq<TrackOrNumber<GridTemplateComponent>>>,
    gridTemplateRows: Prop<seq<TrackOrNumber<GridTemplateComponent>>>,
    gridAutoColumns: Prop<seq<TrackOrNumber<TrackSizingFunction>>>,
    gridAutoRows: Prop<seq<TrackOrNumber<TrackSizingFunction>>>,
    gridAutoFlow: Prop<string>,
    gridRow: Prop<Line>,
    gridColumn: Prop<Line>,
    gridTemplateAreas: Prop<seq<GridTemplateArea>>,
    justifyItems: Prop<string>,
    justifySelf: Prop<string>,
    textWrap: Prop<string>)

  /** The record with no keys at all (`{}`). */
  const EmptyStyles: Styles := Styles(
    Absent, Absent, Absent, Absent,
    Absent, Absent, Absent, Absent, Absent, Absent, Absent,
    Absent, Absent, Absent, Absent, Absent, Absent, Absent,
    Absent, Absent, Absent, Absent, Absent,
    Absent, Absent, Absent, Absent,
    Absent, Absent, Absent, Absent,
    Absent,
    Absent, Absent, Absent, Absent, Absent,
    Absent, Absent, Absent,
    Absent, Absent, Absent, Absent, Absent, Absent, Absent, Absent,
    Absent, Absent,
    Absent)

  /** `v ?? 0` on a number. (`v || 0` is the same on reals; it differs only on NaN.) */
  function OrZero(v: Option<real>): real {
    if v.Some? then v.value else 0.0
  }

  /** The value a present numeric key contributes, else `otherwise`. */
  function Pick(p: Prop<real>, otherwise: real): real {
    if p.Present? then OrZero(p.value) else otherwise
  }

  /** A key that is present with a truthy value (an array or an object). */
  predicate Truthy<T>(p: Prop<T>) {
    p.Present? && p.value.Some?
  }

  // ---------------------------------------------------------------------
  // Keywords: the CSS-like spelling of each solver value

  function PositionKeyword(p: Position): string {
    match p
    case Relative => "relative"
    case Absolute => "absolute"
  }

  function FlexWrapKeyword(w: FlexWrap): string {
    match w
    case NoWrap => "nowrap"
    case Wrap => "wrap"
    case WrapReverse => "wrap-reverse"
  }

  function FlexDirectionKeyword(d: FlexDirection): string {
    match d
    case Row => "row"
    case Column => "column"
    case RowReverse => "row-reverse"
    case ColumnReverse => "column-reverse"
  }

  function DisplayKeyword(d: Display): string {
    match d
    case Flex => "flex"
    case Grid => "grid"
    case DisplayNone => "none"
  }

  function OverflowKeyword(o: Overflow): string {
    match o
    case Visible => "visible"
    case Hidden => "hidden"
  }

  function GridAutoFlowKeyword(f: GridAutoFlow): string {
    match f
    case Row => "row"
    case Column => "column"
    case RowDense => "row-dense"
    case ColumnDense => "column-dense"
  }

  function AlignItemsKeyword(a: AlignItems): string {
    match a
    case Start => "start"
    case End => "end"
    case FlexStart => "flex-start"
    case FlexEnd => "flex-end"
    case Center => "center"
    case Stretch => "stretch"
  }

  function AlignSelfKeyword(a: AlignSelf): string {
    match a
    case Auto => "auto"
    case Start => "start"
    case End => "end"
    case FlexStart => "flex-start"
    case FlexEnd => "flex-end"
    case Center => "center"
    case Stretch => "stretch"
  }

  function JustifyContentKeyword(j: JustifyContent): string {
    match j
    case Start => "start"
    case End => "end"
    case FlexStart => "flex-start"
    case FlexEnd => "flex-end"
    case Center => "center"
    case SpaceBetween => "space-between"
    case SpaceAround => "space-around"
    case SpaceEvenly => "space-evenly"
  }

  function AlignContentKeyword(a: AlignContent): string {
    match a
    case Start => "start"
    case End => "end"
    case FlexStart => "flex-start"
    case FlexEnd => "flex-end"
    case Center => "center"
    case Stretch => "stretch"
    case SpaceBetween => "space-between"
    case SpaceAround => "space-around"
    case SpaceEvenly => "space-evenly"
  }

  // ---------------------------------------------------------------------
  // Parsing one value. A value with a fallback maps every keyword to its own
  // value and everything else to the fallback; an optional one maps the
  // keywords it recognises and everything else to undefined.

  /** Absolute only for exactly `'absolute'`. */
  function ParsePosition(v: Option<string>): (r: Position)
    ensures r == Absolute <==> v == Some(PositionKeyword(Absolute))
  {
    if v == Some("absolute") then Absolute else Relative
  }

  function ParseFlexWrap(v: Option<string>): (r: FlexWrap)
    ensures forall w :: v == Some(FlexWrapKeyword(w)) ==> r == w
    ensures r != NoWrap ==> v == Some(FlexWrapKeyword(r))
  {
    if v == Some("nowrap") then NoWrap
    else if v == Some("wrap") then Wrap
    else if v == Some("wrap-reverse") then WrapReverse
    else NoWrap
  }

  function ParseFlexDirection(v: Option<string>): (r: FlexDirection)
    ensures forall d :: v == Some(FlexDirectionKeyword(d)) ==> r == d
    ensures r != FlexDirection.Row ==> v == Some(FlexDirectionKeyword(r))
  {
    if v == Some("row") then FlexDirection.Row
    else if v == Some("row-reverse") then RowReverse
    else if v == Some("column") then FlexDirection.Column
    else if v == Some("column-reverse") then ColumnReverse
    else FlexDirection.Row
  }

  function ParseDisplay(v: Option<string>): (r: Display)
    ensures forall d :: v == Some(DisplayKeyword(d)) ==> r == d
    ensures r != Flex ==> v == Some(DisplayKeyword(r))
  {
    if v == Some("flex") then Flex
    else if v == Some("grid") then Grid
    else if v == Some("none") then DisplayNone
    else Flex
  }

  function ParseOverflow(v: Option<string>): (r: Overflow)
    ensures forall o :: v == Some(OverflowKeyword(o)) ==> r == o
    ensures r != Visible ==> v == Some(OverflowKeyword(r))
  {
    if v == Some("hidden") then Hidden
    else if v == Some("visible") then Visible
    else Visible
  }

  function ParseGridAutoFlow(v: Option<string>): (r: GridAutoFlow)
    ensures forall f :: v == Some(GridAutoFlowKeyword(f)) ==> r == f
    ensures r != GridAutoFlow.Row ==> v == Some(GridAutoFlowKeyword(r))
  {
    if v == Some("row") then GridAutoFlow.Row
    else if v == Some("column") then GridAutoFlow.Column
    else if v == Some("row-dense") then RowDense
    else if v == Some("column-dense") then ColumnDense
    else GridAutoFlow.Row
  }

  function ParseAlignItems(v: Option<string>): (r: Option<AlignItems>)
    ensures forall a :: v == Some(AlignItemsKeyword(a)) ==> r == Some(a)
    ensures r.Some? ==> v == Some(AlignItemsKeyword(r.value))
  {
    if v == Some("stretch") then Some(AlignItems.Stretch)
    else if v == Some("flex-start") then Some(AlignItems.FlexStart)
    else if v == Some("center") then Some(AlignItems.Center)
    else if v == Some("flex-end") then Some(AlignItems.FlexEnd)
    else if v == Some("start") then Some(AlignItems.Start)
    else if v == Some("end") then Some(AlignItems.End)
    else None
  }

  /** `'stretch'` is not among the recognised values of `alignSelf`. */
  function ParseAlignSelf(v: Option<string>): (r: Option<AlignSelf>)
    ensures forall a | a != AlignSelf.Stretch :: v == Some(AlignSelfKeyword(a)) ==> r == Some(a)
    ensures r.Some? ==> v == Some(AlignSelfKeyword(r.value))
    ensures r != Some(AlignSelf.Stretch)
  {
    if v == Some("flex-start") then Some(AlignSelf.FlexStart)
    else if v == Some("center") then Some(AlignSelf.Center)
    else if v == Some("flex-end") then Some(AlignSelf.FlexEnd)
    else if v == Some("auto") then Some(AlignSelf.Auto)
    else if v == Some("start") then Some(AlignSelf.Start)
    else if v == Some("end") then Some(AlignSelf.End)
    else None
  }

  function ParseJustifyContent(v: Option<string>): (r: Option<JustifyContent>)
    ensures forall j :: v == Some(JustifyContentKeyword(j)) ==> r == Some(j)
    ensures r.Some? ==> v == Some(JustifyContentKeyword(r.value))
  {
    if v == Some("flex-start") then Some(JustifyContent.FlexStart)
    else if v == Some("center") then Some(JustifyContent.Center)
    else if v == Some("flex-end") then Some(JustifyContent.FlexEnd)
    else if v == Some("space-between") then Some(JustifyContent.SpaceBetween)
    else if v == Some("space-around") then Some(JustifyContent.SpaceAround)
    else if v == Some("space-evenly") then Some(JustifyContent.SpaceEvenly)
    else if v == Some("start") then Some(JustifyContent.Start)
    else if v == Some("end") then Some(JustifyContent.End)
    else None
  }

  function ParseAlignContent(v: Option<string>): (r: Option<AlignContent>)
    ensures forall a :: v == Some(AlignContentKeyword(a)) ==> r == Some(a)
    ensures r.Some? ==> v == Some(AlignContentKeyword(r.value))
  {
    if v == Some("flex-start") then Some(AlignContent.FlexStart)
    else if v == Some("flex-end") then Some(AlignContent.FlexEnd)
    else if v == Some("space-between") then Some(AlignContent.SpaceBetween)
    else if v == Some("space-around") then Some(AlignContent.SpaceAround)
    else if v == Some("stretch") then Some(AlignContent.Stretch)
    else if v == Some("center") then Some(AlignContent.Center)
    else if v == Some("space-evenly") then Some(AlignContent.SpaceEvenly)
    else if v == Some("start") then Some(AlignContent.Start)
    else if v == Some("end") then Some(AlignContent.End)
    else None
  }

  /** `justifyItems` recognises the `alignItems` keywords except `'start'`. */
  function ParseJustifyItems(v: Option<string>): (r: Option<AlignItems>)
    ensures forall a | a != AlignItems.Start :: v == Some(AlignItemsKeyword(a)) ==> r == Some(a)
    ensures r.Some? ==> v == Some(AlignItemsKeyword(r.value))
    ensures r != Some(AlignItems.Start)
  {
    if v == Some("flex-start") then Some(AlignItems.FlexStart)
    else if v == Some("flex-end") then Some(AlignItems.FlexEnd)
    else if v == Some("center") then Some(AlignItems.Center)
    else if v == Some("stretch") then Some(AlignItems.Stretch)
    else if v == Some("end") then Some(AlignItems.End)
    else None
  }

  /** `justifySelf` recognises the `alignSelf` keywords except `'start'`, and with `'stretch'`. */
  function ParseJustifySelf(v: Option<string>): (r: Option<AlignSelf>)
    ensures forall a | a != AlignSelf.Start :: v == Some(AlignSelfKeyword(a)) ==> r == Some(a)
    ensures r.Some? ==> v == Some(AlignSelfKeyword(r.value))
    ensures r != Some(AlignSelf.Start)
  {
    if v == Some("flex-start") then Some(AlignSelf.FlexStart)
    else if v == Some("flex-end") then Some(AlignSelf.FlexEnd)
    else if v == Some("center") then Some(AlignSelf.Center)
    else if v == Some("stretch") then Some(AlignSelf.Stretch)
    else if v == Some("end") then Some(AlignSelf.End)
    else if v == Some("auto") then Some(AlignSelf.Auto)
    else None
  }

  predicate EndsWithPercent(s: string) {
    |s| > 0 && s[|s| - 1] == '%'
  }

  /** A size value: a number is kept, a string ending in `%` is kept, anything else is `'auto'`. */
  function ParseDimension(v: Option<NumberOrString>): (r: Dimension)
    ensures r.Length? <==> v.Some? && v.value.Number?
    ensures r.Length? ==> v == Some(Number(r.cells))
    ensures r.Percent? <==> v.Some? && v.value.Str? && EndsWithPercent(v.value.s)
    ensures r.Percent? ==> v == Some(Str(r.text))
  {
    match v
    case Some(Number(n)) => Length(n)
    case Some(Str(s)) => if EndsWithPercent(s) then Percent(s) else Dimension.Auto
    case None => Dimension.Auto
  }

  /** `mapGridTrack`: a number n becomes the track `{min: n, max: n}`. */
  function MapGridTrack(t: TrackOrNumber<GridTemplateComponent>): GridTemplateComponent {
    match t
    case TrackNumber(n) => Single(MinMax(Fixed(n), Fixed(n)))
    case Track(c) => c
  }

  /** `mapTrackSizing`: a number n becomes `{min: n, max: n}`. */
  function MapTrackSizing(t: TrackOrNumber<TrackSizingFunction>): TrackSizingFunction {
    match t
    case TrackNumber(n) => MinMax(Fixed(n), Fixed(n))
    case Track(f) => f
  }

  /** `tracks.map(mapGridTrack)`. */
  function MapGridTracks(ts: seq<TrackOrNumber<GridTemplateComponent>>): (r: seq<GridTemplateComponent>)
    ensures |r| == |ts|
    ensures forall i | 0 <= i < |ts| && ts[i].Track? :: r[i] == ts[i].track
    ensures forall i | 0 <= i < |ts| && ts[i].TrackNumber? ::
              r[i].Single? && r[i].track.min == r[i].track.max == Fixed(ts[i].n)
  {
    seq(|ts|, i requires 0 <= i < |ts| => MapGridTrack(ts[i]))
  }

  /** `tracks.map(mapTrackSizing)`. */
  function MapTrackSizings(ts: seq<TrackOrNumber<TrackSizingFunction>>): (r: seq<TrackSizingFunction>)
    ensures |r| == |ts|
    ensures forall i | 0 <= i < |ts| && ts[i].Track? :: r[i] == ts[i].track
    ensures forall i | 0 <= i < |ts| && ts[i].TrackNumber? :: r[i].min == r[i].max == Fixed(ts[i].n)
  {
    seq(|ts|, i requires 0 <= i < |ts| => MapTrackSizing(ts[i]))
  }

  // ---------------------------------------------------------------------
  // The categories, declaratively

  function PositionOf(t: Style, s: Styles): (r: Style)
    ensures r == t.(position := r.position)
    ensures s.position.Absent? ==> r == t
    ensures s.position.Present? ==> (r.position == Absolute <==> s.position.value == Some("absolute"))
  {
    if s.position.Present? then t.(position := ParsePosition(s.position.value)) else t
  }

  /** The seven keys of one edge category, from the least to the most specific. */
  datatype EdgeKeys = EdgeKeys(all: Prop<real>, x: Prop<real>, y: Prop<real>,
                               left: Prop<real>, right: Prop<real>, top: Prop<real>, bottom: Prop<real>)

  predicate NoEdgeKeys(k: EdgeKeys) {
    k.all.Absent? && k.x.Absent? && k.y.Absent? &&
    k.left.Absent? && k.right.Absent? && k.top.Absent? && k.bottom.Absent?
  }

  /** Each side takes its own key, else its axis key, else the all-sides key, else keeps its value. */
  function EdgesOf(k: EdgeKeys, prev: Rect): Rect {
    Rect(Pick(k.left, Pick(k.x, Pick(k.all, prev.left))),
         Pick(k.right, Pick(k.x, Pick(k.all, prev.right))),
         Pick(k.top, Pick(k.y, Pick(k.all, prev.top))),
         Pick(k.bottom, Pick(k.y, Pick(k.all, prev.bottom))))
  }

  function MarginKeys(s: Styles): EdgeKeys {
    EdgeKeys(s.margin, s.marginX, s.marginY, s.marginLeft, s.marginRight, s.marginTop, s.marginBottom)
  }

  function PaddingKeys(s: Styles): EdgeKeys {
    EdgeKeys(s.padding, s.paddingX, s.paddingY, s.paddingLeft, s.paddingRight, s.paddingTop, s.paddingBottom)
  }

  function MarginOf(t: Style, s: Styles): (r: Style)
    ensures r == t.(margin := r.margin)
    ensures NoEdgeKeys(MarginKeys(s)) ==> r == t
  {
    t.(margin := EdgesOf(MarginKeys(s), t.margin))
  }

  function PaddingOf(t: Style, s: Styles): (r: Style)
    ensures r == t.(padding := r.padding)
    ensures NoEdgeKeys(PaddingKeys(s)) ==> r == t
  {
    t.(padding := EdgesOf(PaddingKeys(s), t.padding))
  }

  /** The alignment content after the flex category: never undefined. */
  function AlignContentOf(prev: Option<AlignContent>, p: Prop<string>): (r: Option<AlignContent>)
    ensures r.Some?
    ensures forall a :: p == Present(Some(AlignContentKeyword(a))) ==> r == Some(a)
    ensures p.Present? && ParseAlignContent(p.value).None? ==> r == Some(AlignContent.FlexStart)
    ensures p.Absent? && prev.Some? ==> r == prev
    ensures p.Absent? && prev.None? ==> r == Some(AlignContent.FlexStart)
  {
    var given := if p.Present? then ParseAlignContent(p.value) else prev;
    if given.None? then Some(AlignContent.FlexStart) else given
  }

  predicate NoFlexKeys(s: Styles) {
    s.flexGrow.Absent? && s.flexShrink.Absent? && s.flexWrap.Absent? && s.flexDirection.Absent? &&
    s.flexBasis.Absent? && s.alignItems.Absent? && s.alignSelf.Absent? &&
    s.justifyContent.Absent? && s.alignContent.Absent?
  }

  function FlexOf(t: Style, s: Styles): (r: Style)
    ensures r == t.(flexGrow := r.flexGrow, flexShrink := r.flexShrink, flexWrap := r.flexWrap,
                    flexDirection := r.flexDirection, flexBasis := r.flexBasis, alignItems := r.alignItems,
                    alignSelf := r.alignSelf, justifyContent := r.justifyContent, alignContent := r.alignContent)
    ensures NoFlexKeys(s) ==> r == t.(alignContent := Some(t.alignContent.GetOr(AlignContent.FlexStart)))
    ensures s.flexGrow == Present(None) ==> r.flexGrow == 0.0
    ensures s.flexShrink == Present(None) ==> r.flexShrink == 1.0
    // each key: present, its value (parsed); absent, the field is kept
    ensures r.flexGrow == if s.flexGrow.Present? then OrZero(s.flexGrow.value) else t.flexGrow
    ensures r.flexShrink == if s.flexShrink.Present? then s.flexShrink.value.GetOr(1.0) else t.flexShrink
    ensures r.flexWrap == if s.flexWrap.Present? then ParseFlexWrap(s.flexWrap.value) else t.flexWrap
    ensures r.flexDirection == if s.flexDirection.Present? then ParseFlexDirection(s.flexDirection.value) else t.flexDirection
    ensures r.flexBasis == if s.flexBasis.Present? then ParseDimension(s.flexBasis.value) else t.flexBasis
    ensures r.alignItems == if s.alignItems.Present? then ParseAlignItems(s.alignItems.value) else t.alignItems
    ensures r.alignSelf == if s.alignSelf.Present? then ParseAlignSelf(s.alignSelf.value) else t.alignSelf
    ensures r.justifyContent == if s.justifyContent.Present? then ParseJustifyContent(s.justifyContent.value) else t.justifyContent
    ensures r.alignContent == AlignContentOf(t.alignContent, s.alignContent)
  {
    t.(flexGrow := Pick(s.flexGrow, t.flexGrow),
       flexShrink := if s.flexShrink.Present? then s.flexShrink.value.GetOr(1.0) else t.flexShrink,
       flexWrap := if s.flexWrap.Present? then ParseFlexWrap(s.flexWrap.value) else t.flexWrap,
       flexDirection := if s.flexDirection.Present? then ParseFlexDirection(s.flexDirection.value) else t.flexDirection,
       flexBasis := if s.flexBasis.Present? then ParseDimension(s.flexBasis.value) else t.flexBasis,
       alignItems := if s.alignItems.Present? then ParseAlignItems(s.alignItems.value) else t.alignItems,
       alignSelf := if s.alignSelf.Present? then ParseAlignSelf(s.alignSelf.value) else t.alignSelf,
       justifyContent := if s.justifyContent.Present? then ParseJustifyContent(s.justifyContent.value) else t.justifyContent,
       alignContent := AlignContentOf(t.alignContent, s.alignContent))
  }

  /** A size component: the given key parsed, else the previous value. */
  function DimensionOf(p: Prop<NumberOrString>, prev: Dimension): Dimension {
    if p.Present? then ParseDimension(p.value) else prev
  }

  function DimensionsOf(t: Style, s: Styles): (r: Style)
    ensures r == t.(size := r.size, minSize := r.minSize)
    ensures s.width.Absent? ==> r.size.width == t.size.width
    ensures s.height.Absent? ==> r.size.height == t.size.height
    ensures s.minWidth.Absent? ==> r.minSize.width == t.minSize.width
    ensures s.minHeight.Absent? ==> r.minSize.height == t.minSize.height
    ensures s.width.Present? ==> r.size.width == ParseDimension(s.width.value)
    ensures s.height.Present? ==> r.size.height == ParseDimension(s.height.value)
    ensures s.minWidth.Present? ==> r.minSize.width == ParseDimension(s.minWidth.value)
    ensures s.minHeight.Present? ==> r.minSize.height == ParseDimension(s.minHeight.value)
  {
    t.(size := Size(DimensionOf(s.width, t.size.width), DimensionOf(s.height, t.size.height)),
       minSize := Size(DimensionOf(s.minWidth, t.minSize.width), DimensionOf(s.minHeight, t.minSize.height)))
  }

  function DisplayOf(t: Style, s: Styles): (r: Style)
    ensures r == t.(display := r.display)
    ensures s.display.Absent? ==> r == t
    ensures s.display.Present? ==> r.display == ParseDisplay(s.display.value)
  {
    if s.display.Present? then t.(display := ParseDisplay(s.display.value)) else t
  }

  /** JavaScript truthiness of a `borderStyle` value. */
  predicate BorderTruthy(v: Option<BorderStyle>) {
    v.Some? && (v.value.CustomBox? || v.value.name != "")
  }

  /** One border side: the border width unless its flag is exactly `false`. */
  function BorderSide(flag: Prop<bool>, width: real): real {
    if flag == Present(Some(false)) then 0.0 else width
  }

  function BorderOf(t: Style, s: Styles): (r: Style)
    ensures r == t.(border := r.border)
    ensures s.borderStyle.Absent? ==> r == t
    ensures s.borderStyle.Present? ==>
              (r.border.left == if BorderTruthy(s.borderStyle.value) && s.borderLeft != Present(Some(false)) then 1.0 else 0.0) &&
              (r.border.right == if BorderTruthy(s.borderStyle.value) && s.borderRight != Present(Some(false)) then 1.0 else 0.0) &&
              (r.border.top == if BorderTruthy(s.borderStyle.value) && s.borderTop != Present(Some(false)) then 1.0 else 0.0) &&
              (r.border.bottom == if BorderTruthy(s.borderStyle.value) && s.borderBottom != Present(Some(false)) then 1.0 else 0.0)
  {
    if s.borderStyle.Present? then
      var width := if BorderTruthy(s.borderStyle.value) then 1.0 else 0.0;
      t.(border := Rect(BorderSide(s.borderLeft, width), BorderSide(s.borderRight, width),
                        BorderSide(s.borderTop, width), BorderSide(s.borderBottom, width)))
    else t
  }

  function GapOf(t: Style, s: Styles): (r: Style)
    ensures r == t.(gap := r.gap)
    ensures s.gap.Absent? && s.columnGap.Absent? && s.rowGap.Absent? ==> r == t
  {
    t.(gap := Size(Pick(s.columnGap, Pick(s.gap, t.gap.width)), Pick(s.rowGap, Pick(s.gap, t.gap.height))))
  }

  /** One overflow axis: its own key, else the shorthand, else the previous value. */
  function AxisOverflow(axis: Prop<string>, both: Prop<string>, prev: Overflow): Overflow {
    if axis.Present? then ParseOverflow(axis.value)
    else if both.Present? then ParseOverflow(both.value)
    else prev
  }

  function OverflowOf(t: Style, s: Styles): (r: Style)
    ensures r == t.(overflow := r.overflow)
    ensures s.overflow.Absent? && s.overflowX.Absent? && s.overflowY.Absent? ==> r == t
  {
    t.(overflow := Point(AxisOverflow(s.overflowX, s.overflow, t.overflow.x),
                         AxisOverflow(s.overflowY, s.overflow, t.overflow.y)))
  }

  predicate NoGridKeys(s: Styles) {
    !Truthy(s.gridTemplateColumns) && !Truthy(s.gridTemplateRows) &&
    !Truthy(s.gridAutoColumns) && !Truthy(s.gridAutoRows) && s.gridAutoFlow.Absent? &&
    !Truthy(s.gridRow) && !Truthy(s.gridColumn) && !Truthy(s.gridTemplateAreas) &&
    s.justifyItems.Absent? && s.justifySelf.Absent?
  }

  /** A truthy key's value, else the previous value. */
  function TruthyOr<T>(p: Prop<T>, prev: T): T {
    if Truthy(p) then p.value.value else prev
  }

  /** A grid template track list: a truthy key's tracks, mapped, else the previous list. */
  function GridTracksOf(p: Prop<seq<TrackOrNumber<GridTemplateComponent>>>, prev: seq<GridTemplateComponent>): seq<GridTemplateComponent> {
    if Truthy(p) then MapGridTracks(p.value.value) else prev
  }

  /** An implicit track list: a truthy key's tracks, mapped, else the previous list. */
  function TrackSizingsOf(p: Prop<seq<TrackOrNumber<TrackSizingFunction>>>, prev: seq<TrackSizingFunction>): seq<TrackSizingFunction> {
    if Truthy(p) then MapTrackSizings(p.value.value) else prev
  }

  function GridOf(t: Style, s: Styles): (r: Style)
    ensures r == t.(gridTemplateColumns := r.gridTemplateColumns, gridTemplateRows := r.gridTemplateRows,
                    gridAutoColumns := r.gridAutoColumns, gridAutoRows := r.gridAutoRows,
                    gridAutoFlow := r.gridAutoFlow, gridRow := r.gridRow, gridColumn := r.gridColumn,
                    gridTemplateAreas := r.gridTemplateAreas, justifyItems := r.justifyItems,
                    justifySelf := r.justifySelf)
    ensures NoGridKeys(s) ==> r == t
    // each key: truthy (or, for the keyword keys, present), its value mapped or parsed; otherwise the field is kept
    ensures r.gridTemplateColumns == if Truthy(s.gridTemplateColumns) then MapGridTracks(s.gridTemplateColumns.value.value) else t.gridTemplateColumns
    ensures r.gridTemplateRows == if Truthy(s.gridTemplateRows) then MapGridTracks(s.gridTemplateRows.value.value) else t.gridTemplateRows
    ensures r.gridAutoColumns == if Truthy(s.gridAutoColumns) then MapTrackSizings(s.gridAutoColumns.value.value) else t.gridAutoColumns
    ensures r.gridAutoRows == if Truthy(s.gridAutoRows) then MapTrackSizings(s.gridAutoRows.value.value) else t.gridAutoRows
    ensures r.gridAutoFlow == if s.gridAutoFlow.Present? then ParseGridAutoFlow(s.gridAutoFlow.value) else t.gridAutoFlow
    ensures r.gridRow == if Truthy(s.gridRow) then s.gridRow.value.value else t.gridRow
    ensures r.gridColumn == if Truthy(s.gridColumn) then s.gridColumn.value.value else t.gridColumn
    ensures r.gridTemplateAreas == if Truthy(s.gridTemplateAreas) then s.gridTemplateAreas.value.value else t.gridTemplateAreas
    ensures r.justifyItems == if s.justifyItems.Present? then ParseJustifyItems(s.justifyItems.value) else t.justifyItems
    ensures r.justifySelf == if s.justifySelf.Present? then ParseJustifySelf(s.justifySelf.value) else t.justifySelf
  {
    t.(gridTemplateColumns := GridTracksOf(s.gridTemplateColumns, t.gridTemplateColumns),
       gridTemplateRows := GridTracksOf(s.gridTemplateRows, t.gridTemplateRows),
       gridAutoColumns := TrackSizingsOf(s.gridAutoColumns, t.gridAutoColumns),
       gridAutoRows := TrackSizingsOf(s.gridAutoRows, t.gridAutoRows),
       gridAutoFlow := if s.gridAutoFlow.Present? then ParseGridAutoFlow(s.gridAutoFlow.value) else t.gridAutoFlow,
       gridRow := TruthyOr(s.gridRow, t.gridRow),
       gridColumn := TruthyOr(s.gridColumn, t.gridColumn),
       gridTemplateAreas := TruthyOr(s.gridTemplateAreas, t.gridTemplateAreas),
       justifyItems := if s.justifyItems.Present? then ParseJustifyItems(s.justifyItems.value) else t.justifyItems,
       justifySelf := if s.justifySelf.Present? then ParseJustifySelf(s.justifySelf.value) else t.justifySelf)
  }

  /** The whole translation: the ten categories in the driver's order. */
  function Translate(t: Style, s: Styles): Style {
    GridOf(OverflowOf(GapOf(BorderOf(DisplayOf(DimensionsOf(FlexOf(PaddingOf(MarginOf(PositionOf(t, s), s), s), s), s), s), s), s), s), s)
  }

  // ---------------------------------------------------------------------
  // The categories, step by step

  method ApplyPositionStyles(taffyStyle: Style, style: Styles) returns (updated: Style)
    ensures updated == PositionOf(taffyStyle, style)
  {
    updated := taffyStyle;
    if style.position.Present? {
      updated := updated.(position := if style.position.value == Some("absolute") then Absolute else Relative);
    }
  }

  /** The shared body of the margin and padding categories. */
  method MergeEdges(keys: EdgeKeys, prev: Rect) returns (edges: Rect)
    ensures edges == EdgesOf(keys, prev)
  {
    var left: Option<real> := None;
    var right: Option<real> := None;
    var top: Option<real> := None;
    var bottom: Option<real> := None;
    if keys.all.Present? {
      left := Some(OrZero(keys.all.value));
      right := left;
      top := left;
      bottom := left;
    }
    if keys.x.Present? {
      left := Some(OrZero(keys.x.value));
      right := left;
    }
    if keys.y.Present? {
      top := Some(OrZero(keys.y.value));
      bottom := top;
    }
    if keys.left.Present? {
      left := Some(OrZero(keys.left.value));
    }
    if keys.right.Present? {
      right := Some(OrZero(keys.right.value));
    }
    if keys.top.Present? {
      top := Some(OrZero(keys.top.value));
    }
    if keys.bottom.Present? {
      bottom := Some(OrZero(keys.bottom.value));
    }
    edges := prev;
    if left.Some? || right.Some? || top.Some? || bottom.Some? {
      edges := Rect(left.GetOr(prev.left), right.GetOr(prev.right), top.GetOr(prev.top), bottom.GetOr(prev.bottom));
    }
  }

  method ApplyMarginStyles(taffyStyle: Style, style: Styles) returns (updated: Style)
    ensures updated == MarginOf(taffyStyle, style)
  {
    var margin := MergeEdges(MarginKeys(style), taffyStyle.margin);
    updated := taffyStyle.(margin := margin);
  }

  method ApplyPaddingStyles(taffyStyle: Style, style: Styles) returns (updated: Style)
    ensures updated == PaddingOf(taffyStyle, style)
  {
    var padding := MergeEdges(PaddingKeys(style), taffyStyle.padding);
    updated := taffyStyle.(padding := padding);
  }

  method ApplyFlexStyles(taffyStyle: Style, style: Styles) returns (updated: Style)
    ensures updated == FlexOf(taffyStyle, style)
  {
    var flexGrow, flexShrink, flexWrap := taffyStyle.flexGrow, taffyStyle.flexShrink, taffyStyle.flexWrap;
    var flexDirection, flexBasis := taffyStyle.flexDirection, taffyStyle.flexBasis;
    var alignItems, alignSelf := taffyStyle.alignItems, taffyStyle.alignSelf;
    var justifyContent, alignContent := taffyStyle.justifyContent, taffyStyle.alignContent;
    if style.flexGrow.Present? {
      flexGrow := OrZero(style.flexGrow.value);
    }
    assert flexGrow == FlexOf(taffyStyle, style).flexGrow;
    if style.flexShrink.Present? {
      flexShrink := if style.flexShrink.value.Some? then style.flexShrink.value.value else 1.0;
    }
    assert flexShrink == FlexOf(taffyStyle, style).flexShrink;
    if style.flexWrap.Present? {
      flexWrap := ParseFlexWrap(style.flexWrap.value);
    }
    assert flexWrap == FlexOf(taffyStyle, style).flexWrap;
    if style.flexDirection.Present? {
      flexDirection := ParseFlexDirection(style.flexDirection.value);
    }
    assert flexDirection == FlexOf(taffyStyle, style).flexDirection;
    if style.flexBasis.Present? {
      flexBasis := ParseDimension(style.flexBasis.value);
    }
    assert flexBasis == FlexOf(taffyStyle, style).flexBasis;
    if style.alignItems.Present? {
      alignItems := ParseAlignItems(style.alignItems.value);
    }
    assert alignItems == FlexOf(taffyStyle, style).alignItems;
    if style.alignSelf.Present? {
      alignSelf := ParseAlignSelf(style.alignSelf.value);
    }
    assert alignSelf == FlexOf(taffyStyle, style).alignSelf;
    if style.justifyContent.Present? {
      justifyContent := ParseJustifyContent(style.justifyContent.value);
    }
    assert justifyContent == FlexOf(taffyStyle, style).justifyContent;
    if style.alignContent.Present? {
      alignContent := ParseAlignContent(style.alignContent.value);
    }
    if alignContent.None? {
      alignContent := Some(AlignContent.FlexStart);
    }
    updated := taffyStyle.(flexGrow := flexGrow, flexShrink := flexShrink, flexWrap := flexWrap,
                           flexDirection := flexDirection, flexBasis := flexBasis, alignItems := alignItems,
                           alignSelf := alignSelf, justifyContent := justifyContent, alignContent := alignContent);
  }

  method ApplyDimensionStyles(taffyStyle: Style, style: Styles) returns (updated: Style)
    ensures updated == DimensionsOf(taffyStyle, style)
  {
    updated := taffyStyle;
    var newWidth: Option<Dimension> := None;
    if style.width.Present? {
      newWidth := Some(ParseDimension(style.width.value));
    }
    var newHeight: Option<Dimension> := None;
    if style.height.Present? {
      newHeight := Some(ParseDimension(style.height.value));
    }
    if newWidth.Some? || newHeight.Some? {
      updated := updated.(size := Size(newWidth.GetOr(updated.size.width), newHeight.GetOr(updated.size.height)));
    }
    var newMinWidth: Option<Dimension> := None;
    if style.minWidth.Present? {
      newMinWidth := Some(ParseDimension(style.minWidth.value));
    }
    var newMinHeight: Option<Dimension> := None;
    if style.minHeight.Present? {
      newMinHeight := Some(ParseDimension(style.minHeight.value));
    }
    if newMinWidth.Some? || newMinHeight.Some? {
      updated := updated.(minSize := Size(newMinWidth.GetOr(updated.minSize.width), newMinHeight.GetOr(updated.minSize.height)));
    }
  }

  method ApplyDisplayStyles(taffyStyle: Style, style: Styles) returns (updated: Style)
    ensures updated == DisplayOf(taffyStyle, style)
  {
    updated := taffyStyle;
    if style.display.Present? {
      updated := updated.(display := ParseDisplay(style.display.value));
    }
  }

  method ApplyBorderStyles(taffyStyle: Style, style: Styles) returns (updated: Style)
    ensures updated == BorderOf(taffyStyle, style)
  {
    updated := taffyStyle;
    if style.borderStyle.Present? {
      var borderWidth := if BorderTruthy(style.borderStyle.value) then 1.0 else 0.0;
      var border := Rect(0.0, 0.0, 0.0, 0.0);
      if style.borderTop != Present(Some(false)) {
        border := border.(top := borderWidth);
      }
      if style.borderBottom != Present(Some(false)) {
        border := border.(bottom := borderWidth);
      }
      if style.borderLeft != Present(Some(false)) {
        border := border.(left := borderWidth);
      }
      if style.borderRight != Present(Some(false)) {
        border := border.(right := borderWidth);
      }
      updated := updated.(border := border);
    }
  }

  method ApplyGapStyles(taffyStyle: Style, style: Styles) returns (updated: Style)
    ensures updated == GapOf(taffyStyle, style)
  {
    updated := taffyStyle;
    var gapWidth: Option<real> := None;
    var gapHeight: Option<real> := None;
    if style.gap.Present? {
      var val := OrZero(style.gap.value);
      gapWidth := Some(val);
      gapHeight := Some(val);
    }
    if style.columnGap.Present? {
      gapWidth := Some(OrZero(style.columnGap.value));
    }
    if style.rowGap.Present? {
      gapHeight := Some(OrZero(style.rowGap.value));
    }
    if gapWidth.Some? || gapHeight.Some? {
      updated := updated.(gap := Size(gapWidth.GetOr(updated.gap.width), gapHeight.GetOr(updated.gap.height)));
    }
  }

  method ApplyOverflowStyles(taffyStyle: Style, style: Styles) returns (updated: Style)
    ensures updated == OverflowOf(taffyStyle, style)
  {
    updated := taffyStyle;
    var overflowX: Option<Overflow> := None;
    var overflowY: Option<Overflow> := None;
    if style.overflow.Present? {
      overflowX := Some(ParseOverflow(style.overflow.value));
      overflowY := overflowX;
    }
    if style.overflowX.Present? {
      overflowX := Some(ParseOverflow(style.overflowX.value));
    }
    if style.overflowY.Present? {
      overflowY := Some(ParseOverflow(style.overflowY.value));
    }
    if overflowX.Some? || overflowY.Some? {
      updated := updated.(overflow := Point(overflowX.GetOr(updated.overflow.x), overflowY.GetOr(updated.overflow.y)));
    }
  }

  method ApplyGridStyles(taffyStyle: Style, style: Styles) returns (updated: Style)
    ensures updated == GridOf(taffyStyle, style)
  {
    var templateColumns, templateRows := taffyStyle.gridTemplateColumns, taffyStyle.gridTemplateRows;
    var autoColumns, autoRows, autoFlow := taffyStyle.gridAutoColumns, taffyStyle.gridAutoRows, taffyStyle.gridAutoFlow;
    var gridRow, gridColumn, templateAreas := taffyStyle.gridRow, taffyStyle.gridColumn, taffyStyle.gridTemplateAreas;
    var justifyItems, justifySelf := taffyStyle.justifyItems, taffyStyle.justifySelf;
    if Truthy(style.gridTemplateColumns) {
      templateColumns := MapGridTracks(style.gridTemplateColumns.value.value);
    }
    assert templateColumns == GridOf(taffyStyle, style).gridTemplateColumns;
    if Truthy(style.gridTemplateRows) {
      templateRows := MapGridTracks(style.gridTemplateRows.value.value);
    }
    assert templateRows == GridOf(taffyStyle, style).gridTemplateRows;
    if Truthy(style.gridAutoColumns) {
      autoColumns := MapTrackSizings(style.gridAutoColumns.value.value);
    }
    assert autoColumns == GridOf(taffyStyle, style).gridAutoColumns;
    if Truthy(style.gridAutoRows) {
      autoRows := MapTrackSizings(style.gridAutoRows.value.value);
    }
    assert autoRows == GridOf(taffyStyle, style).gridAutoRows;
    if style.gridAutoFlow.Present? {
      autoFlow := ParseGridAutoFlow(style.gridAutoFlow.value);
    }
    assert autoFlow == GridOf(taffyStyle, style).gridAutoFlow;
    if Truthy(style.gridRow) {
      gridRow := style.gridRow.value.value;
    }
    assert gridRow == GridOf(taffyStyle, style).gridRow;
    if Truthy(style.gridColumn) {
      gridColumn := style.gridColumn.value.value;
    }
    assert gridColumn == GridOf(taffyStyle, style).gridColumn;
    if Truthy(style.gridTemplateAreas) {
      templateAreas := style.gridTemplateAreas.value.value;
    }
    assert templateAreas == GridOf(taffyStyle, style).gridTemplateAreas;
    if style.justifyItems.Present? {
      justifyItems := ParseJustifyItems(style.justifyItems.value);
    }
    assert justifyItems == GridOf(taffyStyle, style).justifyItems;
    if style.justifySelf.Present? {
      justifySelf := ParseJustifySelf(style.justifySelf.value);
    }
    assert justifySelf == GridOf(taffyStyle, style).justifySelf;
    updated := taffyStyle.(gridTemplateColumns := templateColumns, gridTemplateRows := templateRows,
                           gridAutoColumns := autoColumns, gridAutoRows := autoRows, gridAutoFlow := autoFlow,
                           gridRow := gridRow, gridColumn := gridColumn, gridTemplateAreas := templateAreas,
                           justifyItems := justifyItems, justifySelf := justifySelf);
  }

  /**
   * `styles(node, style)`: read the node's solver style, run the ten
   * categories over it and write it back (which marks the node dirty).
   */
  method ApplyStyles(node: TaffyNode, style: Styles)
    requires node.tree.Valid() && node.id in node.tree.children
    modifies node.tree`styles, node.tree`dirty
    ensures node.tree.Valid()
    ensures node.tree.styles == old(node.tree.styles)[node.id := Translate(old(node.tree.styles[node.id]), style)]
    ensures node.tree.dirty == old(node.tree.dirty) + {node.id}
  {
    var taffyStyle := node.tree.GetStyle(node.id);
    taffyStyle := ApplyPositionStyles(taffyStyle, style);
    taffyStyle := ApplyMarginStyles(taffyStyle, style);
    taffyStyle := ApplyPaddingStyles(taffyStyle, style);
    taffyStyle := ApplyFlexStyles(taffyStyle, style);
    taffyStyle := ApplyDimensionStyles(taffyStyle, style);
    taffyStyle := ApplyDisplayStyles(taffyStyle, style);
    taffyStyle := ApplyBorderStyles(taffyStyle, style);
    taffyStyle := ApplyGapStyles(taffyStyle, style);
    taffyStyle := ApplyOverflowStyles(taffyStyle, style);
    taffyStyle := ApplyGridStyles(taffyStyle, style);
    node.tree.SetStyle(node.id, taffyStyle);
  }

  // ---------------------------------------------------------------------
  // Properties of the translation

  /**
   * Margin and padding precedence, side by side: a side's own key beats its
   * axis key, which beats the all-sides key; a present key with no value
   * counts as 0; a side no key names keeps its value.
   */
  lemma EdgesPrecedence(k: EdgeKeys, prev: Rect)
    ensures k.left.Present? ==> EdgesOf(k, prev).left == OrZero(k.left.value)
    ensures k.left.Absent? && k.x.Present? ==> EdgesOf(k, prev).left == OrZero(k.x.value)
    ensures k.left.Absent? && k.x.Absent? && k.all.Present? ==> EdgesOf(k, prev).left == OrZero(k.all.value)
    ensures k.left.Absent? && k.x.Absent? && k.all.Absent? ==> EdgesOf(k, prev).left == prev.left
    ensures k.right.Present? ==> EdgesOf(k, prev).right == OrZero(k.right.value)
    ensures k.right.Absent? && k.x.Present? ==> EdgesOf(k, prev).right == OrZero(k.x.value)
    ensures k.right.Absent? && k.x.Absent? && k.all.Present? ==> EdgesOf(k, prev).right == OrZero(k.all.value)
    ensures k.right.Absent? && k.x.Absent? && k.all.Absent? ==> EdgesOf(k, prev).right == prev.right
    ensures k.top.Present? ==> EdgesOf(k, prev).top == OrZero(k.top.value)
    ensures k.top.Absent? && k.y.Present? ==> EdgesOf(k, prev).top == OrZero(k.y.value)
    ensures k.top.Absent? && k.y.Absent? && k.all.Present? ==> EdgesOf(k, prev).top == OrZero(k.all.value)
    ensures k.top.Absent? && k.y.Absent? && k.all.Absent? ==> EdgesOf(k, prev).top == prev.top
    ensures k.bottom.Present? ==> EdgesOf(k, prev).bottom == OrZero(k.bottom.value)
    ensures k.bottom.Absent? && k.y.Present? ==> EdgesOf(k, prev).bottom == OrZero(k.y.value)
    ensures k.bottom.Absent? && k.y.Absent? && k.all.Present? ==> EdgesOf(k, prev).bottom == OrZero(k.all.value)
    ensures k.bottom.Absent? && k.y.Absent? && k.all.Absent? ==> EdgesOf(k, prev).bottom == prev.bottom
  {
  }

  /** `{margin: 2, marginLeft: 5}` gives left 5 and 2 on the other three sides, whatever the old margin. */
  lemma MarginExample(t: Style)
    ensures MarginOf(t, EmptyStyles.(margin := Present(Some(2.0)), marginLeft := Present(Some(5.0)))).margin
            == Rect(5.0, 2.0, 2.0, 2.0)
  {
  }

  /** Gap: the axis key beats the shorthand, and an axis no key names keeps its value. */
  lemma GapPrecedence(t: Style, s: Styles)
    ensures s.columnGap.Present? ==> GapOf(t, s).gap.width == OrZero(s.columnGap.value)
    ensures s.columnGap.Absent? && s.gap.Present? ==> GapOf(t, s).gap.width == OrZero(s.gap.value)
    ensures s.columnGap.Absent? && s.gap.Absent? ==> GapOf(t, s).gap.width == t.gap.width
    ensures s.rowGap.Present? ==> GapOf(t, s).gap.height == OrZero(s.rowGap.value)
    ensures s.rowGap.Absent? && s.gap.Present? ==> GapOf(t, s).gap.height == OrZero(s.gap.value)
    ensures s.rowGap.Absent? && s.gap.Absent? ==> GapOf(t, s).gap.height == t.gap.height
  {
  }

  /** Overflow: the axis key beats the shorthand; only `'hidden'` hides. */
  lemma OverflowPrecedence(t: Style, s: Styles)
    ensures s.overflowX.Present? ==>
              (OverflowOf(t, s).overflow.x == Hidden <==> s.overflowX.value == Some("hidden"))
    ensures s.overflowX.Absent? && s.overflow.Present? ==>
              (OverflowOf(t, s).overflow.x == Hidden <==> s.overflow.value == Some("hidden"))
    ensures s.overflowX.Absent? && s.overflow.Absent? ==> OverflowOf(t, s).overflow.x == t.overflow.x
    ensures s.overflowY.Present? ==>
              (OverflowOf(t, s).overflow.y == Hidden <==> s.overflowY.value == Some("hidden"))
    ensures s.overflowY.Absent? && s.overflow.Present? ==>
              (OverflowOf(t, s).overflow.y == Hidden <==> s.overflow.value == Some("hidden"))
    ensures s.overflowY.Absent? && s.overflow.Absent? ==> OverflowOf(t, s).overflow.y == t.overflow.y
  {
  }

  /** Translating the empty record only fills in an undefined `alignContent`. */
  lemma TranslateEmpty(t: Style)
    ensures Translate(t, EmptyStyles) == t.(alignContent := Some(t.alignContent.GetOr(AlignContent.FlexStart)))
  {
  }

  /**
   * After translation `alignContent` is defined: the recognised value given,
   * FlexStart for an unrecognised one, and the old value (FlexStart if it
   * was undefined) when the key is absent.
   */
  lemma TranslateAlignContent(t: Style, s: Styles)
    ensures Translate(t, s).alignContent.Some?
    ensures forall a :: s.alignContent == Present(Some(AlignContentKeyword(a))) ==> Translate(t, s).alignContent == Some(a)
    ensures s.alignContent.Present? && ParseAlignContent(s.alignContent.value).None? ==>
              Translate(t, s).alignContent == Some(AlignContent.FlexStart)
    ensures s.alignContent.Absent? ==> Translate(t, s).alignContent == Some(t.alignContent.GetOr(AlignContent.FlexStart))
  {
  }

  /** Setting only `width` keeps the height; setting only `minWidth` keeps the minimum height. */
  lemma WidthAloneKeepsHeight(t: Style, w: NumberOrString)
    ensures Translate(t, EmptyStyles.(width := Present(Some(w)))).size == Size(ParseDimension(Some(w)), t.size.height)
    ensures Translate(t, EmptyStyles.(minWidth := Present(Some(w)))).minSize == Size(ParseDimension(Some(w)), t.minSize.height)
  {
  }
}
