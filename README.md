# ink-taffy core, modelled in Dafny

ink-taffy is a terminal UI renderer. It keeps an element tree of `ink-root`,
`ink-box`, `ink-text` and `ink-virtual-text` elements and `#text` leaves, and
it lays that tree out with the Taffy flexbox/grid solver. This project models
the core that sits between the two:

- **The style translator** (`styles.dfy`, module `StyleTranslator`). It maps
  an element's style record onto the solver's native style record in ten
  categories: position, margin, padding, flex, dimensions, display, border,
  gap, overflow and grid.
  - A key absent from the record is `Absent`. A key present with the value
    `undefined` is `Present(None)`.
  - Each category has a declarative specification (`PositionOf`, `MarginOf`
    and so on).
  - Each category also has a method (`ApplyPositionStyles` and so on) that
    updates its locals step by step, as the source does. Each method is
    proved to compute its specification.
  - The precedence rules, the fallbacks and the alignContent default are
    proved about the specifications.
- **The solver tree** (`taffy.dfy`, module `Taffy`), modelled abstractly.
  - Child lists are a `map<Id, seq<Id>>`, with style and layout maps and a
    dirty set.
  - A ghost log of `remove` calls records which nodes were removed and what
    children each still had at that moment.
- **Layout handles** (`taffy_node.dfy`, module `TaffyNodes`). The constructor
  allocates one leaf with a kind-dependent default style. `free` and
  `freeRecursive` release the handle's whole subtree.
  - Subtrees are defined over a ranked forest.
  - The release is proved to remove exactly the subtree.
  - It is also proved to remove each node only after its children.
- **The element tree** (`dom_nodes.dfy` and `dom.dfy`, modules `DomNodes` and
  `Dom`).
  - The node objects are records in a map keyed by object identity, held by
    the class `DomTree`.
  - Each structural edit of the source is a method. Its contract gives the
    new node map as a value function (`Detach`, `Moved`, `Appended`,
    `Inserted`), the new solver child lists (`SolverDetached`, `Attach`,
    `AttachAt`) and the new dirty set.
  - Lemmas prove that these functions keep parent pointers and child lists
    in agreement.
  - `findClosestTaffyNode` is proved to return exactly the nearest
    handle-owning ancestor.
  - `measureTextNode` chooses between the natural size and a wrapped size.
    Its contract states that choice case by case.
- **The readers** (`measure_element.dfy` and `get_max_width.dfy`):
  `measureElement` and `getMaxWidth`.

`wrappers.dfy` (Option), `seqs.dfy` (`indexOf`, `splice`, duplicate-free
lists) and `node_names.dfy` (node kinds) are shared helpers.

## Model

| member | source | states |
|---|---|---|
| StyleTranslator.ParsePosition | src/styles.ts:439-444 | the position is Absolute exactly when the value is the string `absolute`; anything else, undefined included, is Relative |
| StyleTranslator.ParseFlexWrap | src/styles.ts:564-587 | each flex-wrap keyword maps to its value; any other value maps to NoWrap, and only the keyword gives a value other than NoWrap |
| StyleTranslator.ParseFlexDirection | src/styles.ts:588-616 | each flex-direction keyword maps to its value; anything else maps to Row |
| StyleTranslator.ParseDimension | src/styles.ts:617-629 | a number is kept as a length, a string ending in `%` is kept as a percentage, and anything else (undefined included) becomes auto, in both directions |
| StyleTranslator.ParseAlignItems | src/styles.ts:630-668 | each of the six align-items keywords maps to its value; anything else gives undefined |
| StyleTranslator.ParseAlignSelf | src/styles.ts:669-707 | the align-self keywords map to their values; `stretch` is not recognised, and anything unrecognised gives undefined |
| StyleTranslator.ParseJustifyContent | src/styles.ts:708-756 | each justify-content keyword maps to its value; anything else gives undefined |
| StyleTranslator.ParseAlignContent | src/styles.ts:757-810 | each align-content keyword maps to its value; anything else gives undefined |
| StyleTranslator.AlignContentOf | src/styles.ts:757-814 | after the flex category, alignContent is never undefined: a recognised value is used, an unrecognised one gives FlexStart, and an absent key keeps the old value or gives FlexStart when it was undefined |
| StyleTranslator.ParseDisplay | src/styles.ts:883-907 | each display keyword maps to its value; anything else maps to Flex |
| StyleTranslator.ParseOverflow | src/styles.ts:968-989 | only `hidden` hides; anything else is Visible |
| StyleTranslator.ParseGridAutoFlow | src/styles.ts:1081-1109 | each grid-auto-flow keyword maps to its value; anything else maps to Row |
| StyleTranslator.ParseJustifyItems | src/styles.ts:1122-1155 | the recognised justify-items keywords (not `start`) map to their values; anything else gives undefined |
| StyleTranslator.ParseJustifySelf | src/styles.ts:1156-1194 | the recognised justify-self keywords (not `start`, with `stretch`) map to their values; anything else gives undefined |
| StyleTranslator.MapGridTracks | src/styles.ts:1036-1044 | mapping a track list keeps its length and order; a number n becomes the track min n, max n, and a descriptor passes through unchanged |
| StyleTranslator.MapTrackSizings | src/styles.ts:1046-1054 | the same for implicit track sizes |
| StyleTranslator.PositionOf | src/styles.ts:439-444 | only the position field can change, and it changes only when the key is present |
| StyleTranslator.MarginOf | src/styles.ts:446-498 | only the margin changes, and it is unchanged when no margin key is present |
| StyleTranslator.PaddingOf | src/styles.ts:500-552 | only the padding changes, and it is unchanged when no padding key is present |
| StyleTranslator.FlexOf | src/styles.ts:554-814 | only the nine flex fields change; with no flex key only an undefined alignContent is filled in; a present undefined flexGrow becomes 0 and a present undefined flexShrink becomes 1; key by key, a present key sets its field to its parsed value (flexShrink defaulting to 1, flexBasis as a dimension) and an absent key leaves the field as it was; alignContent is AlignContentOf |
| StyleTranslator.DimensionsOf | src/styles.ts:816-881 | only size and minimum size change; each component whose key is present becomes its parsed dimension (ParseDimension), and each whose key is absent keeps its old value |
| StyleTranslator.DisplayOf | src/styles.ts:883-907 | only display changes; a present key becomes its parsed value (ParseDisplay), and an absent key changes nothing |
| StyleTranslator.BorderOf | src/styles.ts:909-937 | without the borderStyle key the border is untouched; with it, each side is 1 when borderStyle is truthy and that side's flag is not exactly false, and 0 otherwise |
| StyleTranslator.GapOf | src/styles.ts:939-962 | only the gap changes, and it is unchanged when none of the three gap keys is present |
| StyleTranslator.OverflowOf | src/styles.ts:964-1034 | only the overflow changes, and it is unchanged when none of the three overflow keys is present |
| StyleTranslator.GridOf | src/styles.ts:1056-1194 | only the ten grid fields change; with no grid key present (falsy track lists, lines and areas count as absent) nothing changes; key by key, a truthy track list becomes its mapped tracks, a truthy line or area list is taken as given, a present keyword key is parsed, and any other key leaves its field as it was |
| StyleTranslator.ApplyPositionStyles | src/styles.ts:439-444 | the step-by-step update computes PositionOf |
| StyleTranslator.MergeEdges | src/styles.ts:446-498 | the local-by-local merge of all-sides, axis and side keys computes EdgesOf, for margin and padding alike |
| StyleTranslator.ApplyMarginStyles | src/styles.ts:446-498 | the step-by-step update computes MarginOf |
| StyleTranslator.ApplyPaddingStyles | src/styles.ts:500-552 | the step-by-step update computes PaddingOf |
| StyleTranslator.ApplyFlexStyles | src/styles.ts:554-814 | the step-by-step update computes FlexOf |
| StyleTranslator.ApplyDimensionStyles | src/styles.ts:816-881 | the step-by-step update computes DimensionsOf |
| StyleTranslator.ApplyDisplayStyles | src/styles.ts:883-907 | the step-by-step update computes DisplayOf |
| StyleTranslator.ApplyBorderStyles | src/styles.ts:909-937 | the step-by-step update computes BorderOf |
| StyleTranslator.ApplyGapStyles | src/styles.ts:939-962 | the step-by-step update computes GapOf |
| StyleTranslator.ApplyOverflowStyles | src/styles.ts:964-1034 | the step-by-step update computes OverflowOf |
| StyleTranslator.ApplyGridStyles | src/styles.ts:1056-1194 | the step-by-step update computes GridOf |
| StyleTranslator.ApplyStyles | src/styles.ts:1196-1209 | `styles(node, style)` stores the translation of the node's old solver style, in category order, and marks the node dirty; nothing else changes |
| StyleTranslator.EdgesPrecedence | src/styles.ts:446-552 | for every side, a side key beats the axis key, which beats the all-sides key; a present undefined key counts as 0; a side no key names keeps its value |
| StyleTranslator.MarginExample | src/styles.ts:446-498 | `{margin: 2, marginLeft: 5}` gives left 5 and 2 on the other sides, whatever the old margin |
| StyleTranslator.GapPrecedence | src/styles.ts:939-962 | columnGap and rowGap override gap per axis, and an axis no key names keeps its old value |
| StyleTranslator.OverflowPrecedence | src/styles.ts:964-1034 | overflowX and overflowY override overflow per axis, and an axis no key names keeps its old value |
| StyleTranslator.TranslateEmpty | src/styles.ts:1196-1209 | translating `{}` changes nothing except that an undefined alignContent becomes FlexStart |
| StyleTranslator.TranslateAlignContent | src/styles.ts:757-814 | after the whole translation alignContent is defined: it is the recognised value, FlexStart for an unrecognised one, or the old value (FlexStart if it was undefined) when the key is absent |
| StyleTranslator.WidthAloneKeepsHeight | src/styles.ts:816-881 | setting only width keeps the old height, and setting only minWidth keeps the old minimum height |
| Taffy.TaffyTree.constructor | src/taffy-node.ts:19 | the shared solver tree starts empty |
| Taffy.TaffyTree.NewLeafWithContext | src/taffy-node.ts:49 | a new id, not used before, with an empty child list and the given style |
| Taffy.TaffyTree.AddChild | src/dom.ts:123 | the child id becomes the last entry of the parent's child list |
| Taffy.TaffyTree.InsertChildAtIndex | src/dom.ts:146-150 | the child id is spliced in at the index; an index beyond the end leaves the tree unchanged (the solver refuses it) |
| Taffy.TaffyTree.RemoveChild | src/dom.ts:172-175 | the first occurrence of the child id leaves the parent's list, and nothing else changes |
| Taffy.TaffyTree.MarkDirty | src/dom.ts:274 | the id joins the dirty set |
| Taffy.TaffyTree.SetStyle | src/styles.ts:1208 | the id's style is replaced and the id is marked dirty |
| Taffy.TaffyTree.Remove | src/taffy-node.ts:61 | the id's entries go, and so does its place in any child list; the call is logged with the children the id still had |
| TaffyNodes.DefaultNodeStyle | src/taffy-node.ts:44-48 | the default style is display Flex and alignItems Stretch; flexDirection is Column exactly for `ink-root`, otherwise Row; every other field is the solver default |
| TaffyNodes.TaffyNode.constructor | src/taffy-node.ts:42-50 | exactly one new childless leaf with the default style for the kind is added to the shared tree; the handle stores the tree and the new id |
| TaffyNodes.TaffyNode.Free | src/taffy-node.ts:56-62 | on a ranked forest, exactly the subtree of the handle's id is released from the tree; nothing else changes; each node was childless when it was removed; the root was removed last |
| TaffyNodes.TaffyNode.FreeRecursive | src/taffy-node.ts:64-70 | the same for a descendant id |
| TaffyNodes.TaffyNode.FreeChildren | src/taffy-node.ts:57-59 | the loop over the children releases exactly the union of the children's subtrees, each node childless at its removal |
| TaffyNodes.FreeLeaf | src/taffy-node.ts:56-62 | the subtree of a node without children is the node alone, so freeing it removes just that node |
| TaffyNodes.SiblingsDisjoint | src/taffy-node.ts:64-70 | in a forest the subtrees of two different children are disjoint, so freeing one child's subtree leaves its siblings' subtrees intact |
| TaffyNodes.ReleaseRoot | src/taffy-node.ts:56-62 | releasing the children's subtrees and then the node is releasing the node's subtree, and the node has no children left when it is removed |
| TaffyNodes.ChildStep | src/taffy-node.ts:57-59 | after the subtrees of the first i children are released, child i is still there with its subtree intact, and the forest shape is kept |
| DomNodes.Detach | src/dom.ts:178-183 | the removed node's parent pointer is cleared and its first occurrence leaves the parent's list; no node is added or lost |
| DomNodes.MovedKeepsNames | src/dom.ts:115-117 | leaving the old parent changes no node's kind and no node's handle |
| DomNodes.SolverDetached | src/dom.ts:171-176 | the solver edge removed is the one from the handle of the removed node's own old parent; there is none when either has no handle |
| DomNodes.InsertIndex | src/dom.ts:142 | the index at which the new child goes is the position of the reference child in the list as it stands after the move, or -1 |
| DomNodes.AppendedIsAttached | src/dom.ts:119-120 | an append is an insertion at the end of the list |
| DomNodes.DetachWellFormed | src/dom.ts:167-188 | a removal keeps every node's handle matching its kind, and keeps every parent an element of the tree |
| DomNodes.AttachedWellFormed | src/dom.ts:140-144 | an insertion under an element keeps the node map well-formed |
| DomNodes.AppendedWellFormed | src/dom.ts:119-120 | an append under an element keeps the node map well-formed |
| DomNodes.LinkedDetach | src/dom.ts:178-183 | removing a node from its own parent (or from nowhere) keeps every listed child pointing back at its list's owner, every parent pointer matched by a list entry, and no list with a repeat |
| DomNodes.LinkedAttach | src/dom.ts:140-144 | placing a parentless node anywhere in a list keeps the same three agreements |
| DomNodes.LinkedMove | src/dom.ts:115-117 | a node leaves its old parent with the agreements kept and with no parent left |
| DomNodes.LinkedAppend | src/dom.ts:111-129 | after an append the agreements hold; the child points at the new parent and is the last entry of its list, which holds it once; the other entries are the parent's list after the move |
| DomNodes.LinkedInsert | src/dom.ts:131-165 | after insert-before the agreements hold and the child points at the new parent; it sits immediately before the reference child when that child was in the list, and at the end otherwise |
| DomNodes.FindClosestTaffyNode | src/dom.ts:263-269 | no node, or a node without a parent, gives undefined; any result is the handle of some node |
| DomNodes.ClosestIsNearestOwner | src/dom.ts:263-269 | the result is exactly the handle of the nearest ancestor-or-self that owns a handle, among those that have a parent; when there is a result, such an ancestor exists |
| Dom.WidestCharWidth | src/dom.ts:231-232 | the min-content wrap width is at least 1 and at least every character's width, and it is either 1 or some character's width |
| Dom.DomTree.MarkNodeAsDirty | src/dom.ts:271-275 | the dirty set gains exactly the closest handle's id; it is unchanged when there is no such handle |
| Dom.DomTree.NewHandle | src/dom.ts:98-106 | a handle exists exactly when the kind is not virtual text; a measure function is bound exactly for `ink-text`, and no other kind has one; a handle adds one new childless leaf with the kind's default style |
| Dom.DomTree.CreateNode | src/dom.ts:91-109 | a fresh, detached, childless element with an empty style and no attributes; it has a handle exactly when it is not virtual text, with a measure function exactly for `ink-text` and none for any other kind |
| Dom.DomTree.CreateTextNode | src/dom.ts:207-219 | a fresh detached text leaf with the given value and no handle; no node is marked dirty, since a parentless node has no closest handle |
| Dom.DomTree.SetTextNodeValue | src/dom.ts:277-284 | only the leaf's value changes, and the closest handle is marked dirty |
| Dom.DomTree.SetAttribute | src/dom.ts:190-201 | the key `internal_accessibility` replaces the accessibility descriptor and leaves the attributes alone; any other key is set in the attributes |
| Dom.DomTree.SetStyle | src/dom.ts:203-205 | only the node's style record is replaced |
| Dom.DomTree.DetachHandle | src/dom.ts:171-176 | the solver loses the edge from the old parent's handle to the removed node's handle, when both have one |
| Dom.DomTree.Unlink | src/dom.ts:171-183 | the solver edge goes first, then the parent pointer and the list entry |
| Dom.DomTree.DetachElement | src/dom.ts:178-183 | the node map becomes Detach of the old one, and well-formedness is kept |
| Dom.DomTree.RemoveChildNode | src/dom.ts:167-188 | the node map becomes Detach; the solver lists become SolverDetached (the edge from the removed node's old parent); the closest handle of a text-bearing parent is marked dirty, and nothing is marked otherwise |
| Dom.DomTree.MoveOut | src/dom.ts:115-117 | a node with a parent is removed from it as by removeChildNode; a node without one is left as it is; the dirty set gains exactly MovedMarks |
| DomNodes.MovedMarks | src/dom.ts:185-187 | the mark made by detaching a node from its old parent: at most one id, and none when there is no old parent or it is not text-bearing; the closest handle is looked up after the splice |
| Dom.DomTree.LinkLast | src/dom.ts:119-124 | the child points at the node and ends its list; its handle ends the list of the node's handle |
| Dom.DomTree.LinkAt | src/dom.ts:140-151 | the child points at the node and sits at the index; the solver is asked to insert at the same index |
| Dom.DomTree.PlaceLast | src/dom.ts:119-128 | the append step: the link, then a dirty mark exactly when the node is text-bearing |
| Dom.DomTree.PlaceBefore | src/dom.ts:140-164 | at the reference child's index with no dirty mark when it is found, and as by PlaceLast otherwise |
| Dom.DomTree.AttachHandle | src/dom.ts:122-124 | addChild is called exactly when both nodes have handles |
| Dom.DomTree.AttachHandleAt | src/dom.ts:145-151 | insertChildAtIndex is called exactly when both nodes have handles, with the element-list index |
| Dom.DomTree.AppendChildNode | src/dom.ts:111-129 | the node map is the old one with the child moved, then appended; the solver lists get the child's handle last under the node's handle after the old edge is removed; the dirty set gains exactly the old parent's mark (MovedMarks, on the state after the detach) and, when the node is text-bearing, its closest handle |
| Dom.DomTree.InsertBeforeNode | src/dom.ts:131-165 | the node map is Inserted; the solver is asked to insert at the element-list index when the reference child is found, and to append otherwise; the dirty set gains exactly the old parent's mark (MovedMarks) and, only when the reference child is not found and the node is text-bearing, the node's closest handle |
| Dom.DomTree.MeasureTextNode | src/dom.ts:221-261 | min-content wraps at the widest character width; max-content, a definite width the text fits, and a width strictly between 0 and 1 for text at least one cell wide return the natural size; any other definite width wraps at that width; the wrap mode defaults to `wrap` |
| MeasureElement.MeasureElement | src/measure-element.ts:18-24 | a node without a handle measures zero; with a handle, width and height are the solved layout's, zero when the handle has not been solved |
| GetMaxWidth.GetMaxWidth | src/get-max-width.ts:3-11 | the result plus the four horizontal insets is the width; it equals the width exactly when the insets sum to zero; it is at most the width when the insets are non-negative, and negative when they exceed the width |
| GetMaxWidth.MaxWidthInset | src/get-max-width.ts:4-10 | widening any one horizontal padding or border by k narrows the result by exactly k |
| GetMaxWidth.MaxWidthIgnoresVertical | src/get-max-width.ts:4-10 | height, vertical padding and vertical border do not enter the result |
| GetMaxWidth.MaxWidthShift | src/get-max-width.ts:4-10 | widening the box by d widens the result by d |
| GetMaxWidth.MaxWidthUnsolved | src/get-max-width.ts:3-11 | an unsolved, all-zero layout leaves no width |

## Left out

- The Taffy solver itself is not modelled. Flex and grid solving, the overflow-driven automatic minimum size (section 4.5 of CSS Flexible Box Layout Module Level 1) and the computing of layouts are outside the model. `layouts` is a map that the solver would fill; this model only reads it.
- The global solver tree: `await loadTaffy()` and the module-level `taffyTree` are I/O. The tree is a parameter of the handle constructor and a field of `DomTree`, and `DomTree.Valid` requires every handle to belong to it.
- Solver errors are not modelled. Taffy raises an error for `insertChildAtIndex` past the end of the list; `TaffyTree.InsertChildAtIndex` leaves the tree unchanged instead. `removeChild` of an id that is not a child does nothing.
- TaffyNodes.TaffyNode.Free: requires the child lists to form a ranked forest: no cycles, and no id listed twice. The source demands nothing, but on a cyclic graph its recursion does not end, and `children()` of a removed id raises an error.
- DomNodes.FindClosestTaffyNode: the walk up the parent pointers is bounded by fuel, the number of nodes ever created. The bound is reached only on a cycle of parent pointers, where the source would recurse forever.
- Numbers are reals. NaN, infinities and IEEE rounding are not modelled; `|| 0` and `?? 0` are modelled as the same thing.
- Layout-inert style keys are not modelled: colours, `dim`, backgrounds, the `cli-boxes` box shapes (only whether `borderStyle` is truthy matters), `internal_transform`, static-node fields and render callbacks.
- `measureText`, `wrapText`, `stringWidth` and `squashTextNodes` are function parameters (`TextHelpers`) whose bodies are not part of this model. `squashTextNodes` is a function of the node's identity, not of the subtree below it.
- Dom.DomTree.SetTextNodeValue: takes a string. The `String(text)` coercion of a non-string argument is not modelled.
- Dom.DomTree.RemoveChildNode: does not state that parent pointers and child lists stay in agreement. DomNodes.LinkedDetach proves it for the removal the method is equal to. It holds only when the removed node's parent is the node it is removed from (or none); otherwise the source clears the pointer and leaves the node in its real parent's list.
- Dom.DomTree.AppendChildNode, Dom.DomTree.InsertBeforeNode: likewise, the agreement of links is proved by DomNodes.LinkedAppend and DomNodes.LinkedInsert about the node map the methods are proved to produce, not stated in the methods' own contracts.
- The node objects are records in a map keyed by identity, not JavaScript objects. The map makes aliasing explicit. An element's empty accessibility descriptor `{}` is `None`.
- In `insertBeforeNode`, `newChildNode.parentNode = node` comes before the lookup of the reference child. The assignment does not change `node`'s list, so the model folds it into `Attached` and `Appended`, after the lookup.
- Text leaves carry the element fields unused: an empty child list, no attributes.
- The dirty set is the set of ids the core marks explicitly (`markDirty` and `setStyle`). Taffy's own marking of a parent and its ancestors when a child is added, inserted or removed happens inside the solver and is not modelled.
- The default argument `style: Styles = {}` of `styles` is not modelled: StyleTranslator.ApplyStyles always takes a style record, and StyleTranslator.TranslateEmpty states what passing `{}` does.
