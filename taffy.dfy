/**
 * The external layout solver, seen only through the interface this core uses:
 * the solver-native style record, solved geometry, and a tree store of node
 * ids with ordered children, per-node styles and a dirty set. Solving itself
 * is not modelled.
 */
module Taffy {
  import opened Wrappers
  import opened Seqs

  /** A node id inside the solver's tree. */
  type Id = nat

  // ---------------------------------------------------------------------
  // Solver-native style values

  datatype Display = Flex | Grid | DisplayNone
  datatype Position = Relative | Absolute
  datatype FlexDirection = Row | Column | RowReverse | ColumnReverse
  datatype FlexWrap = NoWrap | Wrap | WrapReverse
  datatype AlignItems = Start | End | FlexStart | FlexEnd | Center | Stretch
  datatype AlignSelf = Auto | Start | End | FlexStart | FlexEnd | Center | Stretch
  datatype JustifyContent = Start | End | FlexStart | FlexEnd | Center | SpaceBetween | SpaceAround | SpaceEvenly
  datatype AlignContent = Start | End | FlexStart | FlexEnd | Center | Stretch | SpaceBetween | SpaceAround | SpaceEvenly
  datatype Overflow = Visible | Hidden
  datatype GridAutoFlow = Row | Column | RowDense | ColumnDense

  /** A size: a number of cells, a percentage kept as its text (`"50%"`), or `'auto'`. */
  datatype Dimension = Length(cells: real) | Percent(text: string) | Auto

  datatype Rect = Rect(left: real, right: real, top: real, bottom: real)
  datatype Size<T> = Size(width: T, height: T)
  datatype Point<T> = Point(x: T, y: T)

  /** One bound of a grid track: a fixed number of cells or a keyword such as `"auto"` or `"1fr"`. */
  datatype TrackBound = Fixed(cells: real) | Keyword(name: string)
  /** A track sizing function `{min, max}`. */
  datatype TrackSizingFunction = MinMax(min: TrackBound, max: TrackBound)
  datatype Repetition = Count(n: nat) | AutoFill | AutoFit
  /** One entry of a grid template: a single track or a `repeat(...)`. */
  datatype GridTemplateComponent = Single(track: TrackSizingFunction) | Repeat(repetition: Repetition, tracks: seq<TrackSizingFunction>)
  datatype GridPlacement = PlacementAuto | PlacementLine(index: int) | PlacementSpan(span: nat)
  datatype Line = Line(start: GridPlacement, end: GridPlacement)
  datatype GridTemplateArea = GridTemplateArea(name: string, rowStart: int, rowEnd: int, columnStart: int, columnEnd: int)

  /** The solver-native style record of one node (the fields this core reads or writes). */
  datatype Style = Style(
    display: Display,
    position: Position,
    margin: Rect,
    padding: Rect,
    border: Rect,
    flexGrow: real,
    flexShrink: real,
    flexWrap: FlexWrap,
    flexDirection: FlexDirection,
    flexBasis: Dimension,
    alignItems: Option<AlignItems>,
    alignSelf: Option<AlignSelf>,
    justifyContent: Option<JustifyContent>,
    alignContent: Option<AlignContent>,
    size: Size<Dimension>,
    minSize: Size<Dimension>,
    gap: Size<real>,
    overflow: Point<Overflow>,
    gridTemplateColumns: seq<GridTemplateComponent>,
    gridTemplateRows: seq<GridTemplateComponent>,
    gridAutoColumns: seq<TrackSizingFunction>,
    gridAutoRows: seq<TrackSizingFunction>,
    gridAutoFlow: GridAutoFlow,
    gridRow: Line,
    gridColumn: Line,
    gridTemplateAreas: seq<GridTemplateArea>,
    justifyItems: Option<AlignItems>,
    justifySelf: Option<AlignSelf>)

  /** The solver's default style record (`new Style()`). */
  const DefaultStyle: Style := Style(
    Flex, Relative, Rect(0.0, 0.0, 0.0, 0.0), Rect(0.0, 0.0, 0.0, 0.0), Rect(0.0, 0.0, 0.0, 0.0),
    0.0, 1.0, NoWrap, FlexDirection.Row, Dimension.Auto,
    Option.None, Option.None, Option.None, Option.None,
    Size(Dimension.Auto, Dimension.Auto), Size(Dimension.Auto, Dimension.Auto), Size(0.0, 0.0), Point(Visible, Visible),
    [], [], [], [], GridAutoFlow.Row,
    Line(PlacementAuto, PlacementAuto), Line(PlacementAuto, PlacementAuto), [],
    Option.None, Option.None)

  /** Solved geometry of one node. */
  datatype Layout = Layout(
    width: real, height: real,
    paddingLeft: real, paddingRight: real, paddingTop: real, paddingBottom: real,
    borderLeft: real, borderRight: real, borderTop: real, borderBottom: real)

  /** The geometry of a node that has not been solved yet. */
  const ZeroLayout: Layout := Layout(0.0, 0.0, 0.0, 0.0, 0.0, 0.0, 0.0, 0.0, 0.0, 0.0)

  // ---------------------------------------------------------------------
  // The child lists of the tree, as a value

  /** Every id listed as a child is a node of the tree. */
  ghost predicate Closed(m: map<Id, seq<Id>>) {
    forall p, c :: p in m && c in m[p] ==> c in m
  }

  /** `s` without the ids in `gone`, in the same order. */
  function Without(s: seq<Id>, gone: set<Id>): (r: seq<Id>)
    ensures forall x :: x in r <==> x in s && x !in gone
    ensures multiset(r) <= multiset(s)
  {
    if s == [] then []
    else
      assert s == [s[0]] + s[1..];
      (if s[0] in gone then [] else [s[0]]) + Without(s[1..], gone)
  }

  /** The tree after deleting the nodes `gone`: their entries go, and so do their places in the other child lists. */
  function Prune(m: map<Id, seq<Id>>, gone: set<Id>): (r: map<Id, seq<Id>>)
    ensures r.Keys == m.Keys - gone
    ensures forall k :: k in r ==> r[k] == Without(m[k], gone)
  {
    map k | k in m && k !in gone :: Without(m[k], gone)
  }

  /** Filtering twice is filtering once by both sets. */
  lemma {:induction false} WithoutTwice(s: seq<Id>, a: set<Id>, b: set<Id>)
    ensures Without(Without(s, a), b) == Without(s, a + b)
  {
    if s != [] {
      WithoutTwice(s[1..], a, b);
      if s[0] in a {
        assert Without(s, a) == Without(s[1..], a);
      } else {
        assert Without(s, a) == [s[0]] + Without(s[1..], a);
        assert Without(s, a)[1..] == Without(s[1..], a);
      }
    }
  }

  /** Deleting `a` and then `b` is deleting `a + b`. */
  lemma PruneTwice(m: map<Id, seq<Id>>, a: set<Id>, b: set<Id>)
    ensures Prune(Prune(m, a), b) == Prune(m, a + b)
  {
    forall k | k in m && k !in a + b {
      WithoutTwice(m[k], a, b);
    }
  }

  /** Deleting nodes keeps every child list pointing at nodes of the tree. */
  lemma PruneClosed(m: map<Id, seq<Id>>, gone: set<Id>)
    requires Closed(m)
    ensures Closed(Prune(m, gone))
  {
  }

  /** A list none of whose ids are deleted is left as it is. */
  lemma {:induction false} WithoutNothing(s: seq<Id>, gone: set<Id>)
    requires forall x :: x in s ==> x !in gone
    ensures Without(s, gone) == s
  {
    if s != [] {
      WithoutNothing(s[1..], gone);
      assert Without(s, gone) == [s[0]] + Without(s[1..], gone);
      assert s == [s[0]] + s[1..];
    }
  }

  /** Deleting no ids changes nothing. */
  lemma PruneNothing(m: map<Id, seq<Id>>)
    ensures Prune(m, {}) == m
  {
    forall k | k in m {
      WithoutNothing(m[k], {});
    }
  }

  /** A list all of whose ids are deleted becomes empty. */
  lemma WithoutAll(s: seq<Id>, gone: set<Id>)
    requires forall x :: x in s ==> x in gone
    ensures Without(s, gone) == []
  {
  }

  /** The per-node data of the tree store, as one value. */
  datatype TreeContents = TreeContents(
    children: map<Id, seq<Id>>, styles: map<Id, Style>, layouts: map<Id, Layout>, dirty: set<Id>)

  /** The store after deleting the nodes `gone`: their entries go, and so do their places in child lists. */
  function Release(c: TreeContents, gone: set<Id>): TreeContents {
    TreeContents(Prune(c.children, gone), c.styles - gone, c.layouts - gone, c.dirty - gone)
  }

  /** Releasing `a` and then `b` is releasing `a + b`. */
  lemma ReleaseTwice(c: TreeContents, a: set<Id>, b: set<Id>)
    ensures Release(Release(c, a), b) == Release(c, a + b)
  {
    PruneTwice(c.children, a, b);
    assert c.styles - a - b == c.styles - (a + b);
    assert c.layouts - a - b == c.layouts - (a + b);
    assert c.dirty - a - b == c.dirty - (a + b);
  }

  /** Releasing nothing changes nothing. */
  lemma ReleaseNothing(c: TreeContents)
    ensures Release(c, {}) == c
  {
    PruneNothing(c.children);
    assert c.styles - {} == c.styles;
    assert c.layouts - {} == c.layouts;
  }

  /** A record of one `remove` call: the id and the child list it still had at that moment. */
  datatype Removal = Removal(id: Id, childrenAtRemoval: seq<Id>)

  /**
   * The solver's tree store. One instance is shared by every layout handle.
   * `layouts` is written by the solver when it solves; this core only reads it.
   */
  class TaffyTree {
    var children: map<Id, seq<Id>>
    var styles: map<Id, Style>
    var layouts: map<Id, Layout>
    var dirty: set<Id>
    var next: Id
    /** Every `remove` call, in order. */
    ghost var removals: seq<Removal>

    /** The per-node data, as one value. */
    ghost function Contents(): TreeContents
      reads this
    {
      TreeContents(children, styles, layouts, dirty)
    }

    ghost predicate Valid()
      reads this
    {
      && styles.Keys == children.Keys
      && layouts.Keys <= children.Keys
      && dirty <= children.Keys
      && (forall id :: id in children ==> id < next)
    }

    constructor ()
      ensures Valid()
      ensures children == map[] && styles == map[] && layouts == map[] && dirty == {} && removals == []
    {
      children, styles, layouts, dirty, next := map[], map[], map[], {}, 0;
      removals := [];
    }

    /** `newLeafWithContext(style, context)`: a new node with no children. */
    method NewLeafWithContext(style: Style) returns (id: Id)
      requires Valid()
      modifies this`children, this`styles, this`next
      ensures Valid()
      ensures id !in old(children)
      ensures children == old(children)[id := []]
      ensures styles == old(styles)[id := style]
    {
      id := next;
      children := children[id := []];
      styles := styles[id := style];
      next := next + 1;
    }

    /** `addChild(parent, child)`: `child` becomes the last child of `parent`. */
    method AddChild(parent: Id, child: Id)
      requires Valid() && parent in children && child in children
      modifies this`children
      ensures Valid()
      ensures children == old(children)[parent := old(children[parent]) + [child]]
    {
      children := children[parent := children[parent] + [child]];
    }

    /**
     * `insertChildAtIndex(parent, index, child)`. The solver refuses an index
     * beyond the end of the child list; the tree is then left unchanged.
     */
    method InsertChildAtIndex(parent: Id, index: nat, child: Id)
      requires Valid() && parent in children && child in children
      modifies this`children
      ensures Valid()
      ensures index <= |old(children[parent])| ==>
                children == old(children)[parent := InsertAt(old(children[parent]), index, child)]
      ensures index > |old(children[parent])| ==> children == old(children)
    {
      if index <= |children[parent]| {
        children := children[parent := InsertAt(children[parent], index, child)];
      }
    }

    /** `removeChild(parent, child)`: the first occurrence of `child` leaves the child list of `parent`. */
    method RemoveChild(parent: Id, child: Id)
      requires Valid() && parent in children
      modifies this`children
      ensures Valid()
      ensures children == old(children)[parent := RemoveFirst(old(children[parent]), child)]
    {
      children := children[parent := RemoveFirst(children[parent], child)];
    }

    /** `markDirty(id)`. */
    method MarkDirty(id: Id)
      requires Valid() && id in children
      modifies this`dirty
      ensures Valid()
      ensures dirty == old(dirty) + {id}
    {
      dirty := dirty + {id};
    }

    /** `getStyle(id)`: a copy of the node's style record. */
    function GetStyle(id: Id): Style
      reads this
      requires id in styles
    {
      styles[id]
    }

    /** `setStyle(id, style)`: stores the record and marks the node dirty. */
    method SetStyle(id: Id, style: Style)
      requires Valid() && id in children
      modifies this`styles, this`dirty
      ensures Valid()
      ensures styles == old(styles)[id := style]
      ensures dirty == old(dirty) + {id}
    {
      styles := styles[id := style];
      dirty := dirty + {id};
    }

    /** `children(id)`: a copy of the node's child list. */
    function Children(id: Id): seq<Id>
      reads this
      requires id in children
    {
      children[id]
    }

    /** `getLayout(id)`: the solved geometry, all zero before the node was solved. */
    function GetLayout(id: Id): Layout
      reads this
    {
      if id in layouts then layouts[id] else ZeroLayout
    }

    /**
     * `remove(id)`: the node goes, with its place in its parent's child list;
     * its own children stay in the tree, detached.
     */
    method Remove(id: Id)
      requires Valid() && id in children
      modifies this`children, this`styles, this`layouts, this`dirty, this`removals
      ensures Valid()
      ensures Contents() == Release(old(Contents()), {id})
      ensures removals == old(removals) + [Removal(id, old(children[id]))]
    {
      removals := removals + [Removal(id, children[id])];
      var after := Release(TreeContents(children, styles, layouts, dirty), {id});
      children, styles, layouts, dirty := after.children, after.styles, after.layouts, after.dirty;
    }
  }
}
