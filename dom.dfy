/**
 * The element tree: elements and text leaves with parent back-pointers and
 * ordered child lists. Every structural edit is mirrored onto the solver
 * tree through the nodes' layout handles, and an edit under a text-bearing
 * element marks the nearest handle-owning ancestor dirty so that its text
 * is measured again.
 */
module Dom {
  import opened Wrappers
  import opened Seqs
  import opened NodeNames
  import opened Taffy
  import opened TaffyNodes
  import opened StyleTranslator
  import opened DomNodes

  /** The width the solver offers a measured leaf. */
  datatype AvailableSpace = MinContent | MaxContent | Definite(width: real)

  datatype Dimensions = Dimensions(width: real, height: real)

  /**
   * The text helpers, which are outside this model: `measureText`,
   * `wrapText(text, width, mode)`, `stringWidth` and `squashTextNodes`
   * (the concatenated text below an element).
   */
  datatype TextHelpers = TextHelpers(
    measureText: string -> Dimensions,
    wrapText: (string, real, string) -> string,
    stringWidth: string -> real,
    squashTextNodes: NodeRef -> string)

  /** `Math.max(...[...text].map(stringWidth), 1)`: the widest character, and at least 1. */
  function WidestCharWidth(stringWidth: string -> real, text: string): (w: real)
    ensures w >= 1.0
    ensures forall i | 0 <= i < |text| :: stringWidth([text[i]]) <= w
    ensures w == 1.0 || exists i | 0 <= i < |text| :: w == stringWidth([text[i]])
  {
    if text == [] then 1.0
    else
      var rest := WidestCharWidth(stringWidth, text[..|text| - 1]);
      var last := stringWidth([text[|text| - 1]]);
      assert forall i | 0 <= i < |text| - 1 :: text[..|text| - 1][i] == text[i];
      if last > rest then last else rest
  }

  /** `node.style?.textWrap ?? 'wrap'`. */
  function TextWrapOf(p: Prop<string>): string {
    if p.Present? && p.value.Some? then p.value.value else "wrap"
  }

  // ---------------------------------------------------------------------
  // The element tree

  class DomTree {
    /** The solver tree every layout handle of this tree belongs to. */
    const tree: TaffyTree
    /** The node objects created so far. */
    var nodes: Nodes
    /** The next unused node identity. */
    var next: NodeRef

    ghost predicate Valid()
      reads this, tree
    {
      tree.Valid() && WellFormed(nodes, next, tree, tree.children.Keys)
    }

    /** An empty element tree over the solver tree `tree`. */
    constructor (tree: TaffyTree)
      requires tree.Valid()
      ensures Valid() && this.tree == tree
      ensures nodes == map[]
    {
      this.tree := tree;
      nodes := map[];
      next := 0;
    }

    /** The handle ids `markNodeAsDirty(node)` marks: its closest handle's, if any. */
    function MarkedBy(node: Option<NodeRef>): set<Id>
      reads this
    {
      IdsOf(FindClosestTaffyNode(nodes, node, next))
    }

    /**
     * `markNodeAsDirty(node)`: the closest handle's node is marked dirty in
     * the solver; nothing happens when there is none. The walk is bounded
     * by the number of nodes ever created.
     */
    method MarkNodeAsDirty(node: Option<NodeRef>)
      requires Valid()
      modifies tree`dirty
      ensures Valid()
      ensures tree.dirty == old(tree.dirty) + MarkedBy(node)
    {
      var handle := FindClosestTaffyNode(nodes, node, next);
      if handle.Some? {
        handle.value.tree.MarkDirty(handle.value.id);
      }
    }

    /** The handle `createNode` gives the element `node` named `name`: none for virtual text. */
    method NewHandle(name: ElementName, node: NodeRef) returns (handle: Option<TaffyNode>)
      requires tree.Valid()
      modifies tree`children, tree`styles, tree`next
      ensures tree.Valid()
      ensures handle.Some? <==> name != InkVirtualText
      ensures handle.None? ==> tree.children == old(tree.children) && tree.styles == old(tree.styles)
      ensures handle.Some? ==>
                var h := handle.value;
                && fresh(h) && h.tree == tree
                && h.id !in old(tree.children)
                && tree.children == old(tree.children)[h.id := []]
                && tree.styles == old(tree.styles)[h.id := DefaultNodeStyle(Some(name))]
                && (h.measureFunc == Some(MeasureTextNodeOf(node)) <==> name == InkText)
                && (name != InkText ==> h.measureFunc.None?)
    {
      handle := None;
      if name != InkVirtualText {
        var h := new TaffyNode(tree, Some(name));
        if name == InkText {
          h.measureFunc := Some(MeasureTextNodeOf(node));
        }
        handle := Some(h);
      }
    }

    /**
     * `createNode(nodeName)`: a new detached element with no children; it
     * owns a new solver leaf unless it is virtual text, and an `ink-text`
     * element's handle measures this element's text.
     */
    method CreateNode(name: ElementName) returns (node: NodeRef)
      requires Valid()
      modifies this, tree`children, tree`styles, tree`next
      ensures Valid()
      ensures node !in old(nodes) && node in nodes
      ensures nodes == old(nodes)[node := DomNode(name, None, [], nodes[node].taffyNode, "", EmptyStyles, map[], None)]
      ensures nodes[node].taffyNode.Some? <==> name != InkVirtualText
      ensures nodes[node].taffyNode.None? ==> tree.children == old(tree.children) && tree.styles == old(tree.styles)
      ensures nodes[node].taffyNode.Some? ==>
                var h := nodes[node].taffyNode.value;
                && fresh(h)
                && h.id !in old(tree.children)
                && tree.children == old(tree.children)[h.id := []]
                && tree.styles == old(tree.styles)[h.id := DefaultNodeStyle(Some(name))]
                && (h.measureFunc == Some(MeasureTextNodeOf(node)) <==> name == InkText)
                && (name != InkText ==> h.measureFunc.None?)
    {
      ghost var ids := tree.children.Keys;
      node := next;
      var handle := NewHandle(name, node);
      var created := DomNode(name, None, [], handle, "", EmptyStyles, map[], None);
      AddNodeWellFormed(nodes, next, tree, ids, tree.children.Keys, created);
      nodes := nodes[node := created];
      next := next + 1;
    }

    /** `createTextNode(text)`: a new detached text leaf, which never owns a handle. */
    method CreateTextNode(text: string) returns (node: NodeRef)
      requires Valid()
      modifies this, tree`dirty
      ensures Valid()
      ensures node !in old(nodes)
      ensures nodes == old(nodes)[node := DomNode(TextName, None, [], None, text, EmptyStyles, map[], None)]
      ensures tree.dirty == old(tree.dirty)
    {
      node := next;
      var created := DomNode(TextName, None, [], None, text, EmptyStyles, map[], None);
      AddNodeWellFormed(nodes, next, tree, tree.children.Keys, tree.children.Keys, created);
      nodes := nodes[node := created];
      next := next + 1;
      SetTextNodeValue(node, text);
    }

    /** `setTextNodeValue(node, text)`: stores the text and marks the closest handle dirty. */
    method SetTextNodeValue(node: NodeRef, text: string)
      requires Valid() && node in nodes && nodes[node].nodeName == TextName
      modifies this`nodes, tree`dirty
      ensures Valid()
      ensures nodes == old(nodes)[node := old(nodes[node]).(nodeValue := text)]
      ensures tree.dirty == old(tree.dirty) + MarkedBy(Some(node))
    {
      nodes := nodes[node := nodes[node].(nodeValue := text)];
      MarkNodeAsDirty(Some(node));
    }

    /** `setAttribute(node, key, value)`: the accessibility descriptor under its own key, any other key in `attributes`. */
    method SetAttribute(node: NodeRef, key: string, value: Attribute)
      requires Valid() && node in nodes && nodes[node].nodeName != TextName
      modifies this`nodes
      ensures Valid()
      ensures key == "internal_accessibility" ==> nodes == old(nodes)[node := old(nodes[node]).(accessibility := Some(value))]
      ensures key != "internal_accessibility" ==>
                nodes == old(nodes)[node := old(nodes[node]).(attributes := old(nodes[node]).attributes[key := value])]
    {
      if key == "internal_accessibility" {
        nodes := nodes[node := nodes[node].(accessibility := Some(value))];
        return;
      }
      nodes := nodes[node := nodes[node].(attributes := nodes[node].attributes[key := value])];
    }

    /** `setStyle(node, style)`: replaces the node's style record (the solver style is set separately). */
    method SetStyle(node: NodeRef, style: Styles)
      requires Valid() && node in nodes
      modifies this`nodes
      ensures Valid()
      ensures nodes == old(nodes)[node := old(nodes[node]).(style := style)]
    {
      nodes := nodes[node := nodes[node].(style := style)];
    }

    /** The solver half of a removal: the edge from the handle of `removeNode`'s parent, if both have one. */
    method DetachHandle(removeNode: NodeRef)
      requires Valid() && removeNode in nodes
      modifies tree`children
      ensures Valid()
      ensures tree.children == SolverDetached(nodes, old(tree.children), removeNode)
    {
      var q := nodes[removeNode].parentNode;
      if nodes[removeNode].taffyNode.Some? && q.Some? && nodes[q.value].taffyNode.Some? {
        var parentHandle := nodes[q.value].taffyNode.value;
        parentHandle.tree.RemoveChild(parentHandle.id, nodes[removeNode].taffyNode.value.id);
      }
    }

    /** A removal without the dirty mark: the solver edge, then the element edge. */
    method Unlink(node: NodeRef, removeNode: NodeRef)
      requires Valid() && node in nodes && removeNode in nodes
      modifies this`nodes, tree`children
      ensures Valid()
      ensures nodes == Detach(old(nodes), node, removeNode)
      ensures tree.children == SolverDetached(old(nodes), old(tree.children), removeNode)
    {
      DetachHandle(removeNode);
      DetachElement(node, removeNode);
    }

    /** The element half of a removal: `removeNode` loses its parent and leaves `node`'s child list. */
    method DetachElement(node: NodeRef, removeNode: NodeRef)
      requires Valid() && node in nodes && removeNode in nodes
      modifies this`nodes
      ensures Valid()
      ensures nodes == Detach(old(nodes), node, removeNode)
    {
      DetachWellFormed(nodes, next, tree, tree.children.Keys, node, removeNode);
      nodes := Detach(nodes, node, removeNode);
    }

    /**
     * `removeChildNode(node, removeNode)`. The solver edge removed is the one
     * from the handle of `removeNode`'s own parent, looked up before the
     * parent pointer is cleared; the pointer is cleared even when
     * `removeNode` is not in `node`'s list, and the list loses the first
     * occurrence of `removeNode`, if any.
     */
    method RemoveChildNode(node: NodeRef, removeNode: NodeRef)
      requires Valid() && node in nodes && nodes[node].nodeName != TextName && removeNode in nodes
      modifies this`nodes, tree`children, tree`dirty
      ensures Valid()
      ensures nodes == Detach(old(nodes), node, removeNode)
      ensures tree.children == SolverDetached(old(nodes), old(tree.children), removeNode)
      ensures tree.dirty == old(tree.dirty) + (if IsTextBearing(nodes[node].nodeName) then MarkedBy(Some(node)) else {})
    {
      Unlink(node, removeNode);
      if IsTextBearing(nodes[node].nodeName) {
        MarkNodeAsDirty(Some(node));
      }
    }

    /** The first step of a move: `child` leaves its parent, if it has one, by `RemoveChildNode`. */
    method MoveOut(child: NodeRef)
      requires Valid() && child in nodes
      modifies this`nodes, tree`children, tree`dirty
      ensures Valid()
      ensures nodes == Moved(old(nodes), child)
      ensures tree.children == SolverMoved(old(nodes), old(tree.children), child)
      ensures tree.dirty == old(tree.dirty) + MovedMarks(old(nodes), child, next)
    {
      if nodes[child].parentNode.Some? {
        MovedKeepsNames(nodes, child, nodes[child].parentNode.value);
        RemoveChildNode(nodes[child].parentNode.value, child);
      }
    }

    /**
     * The second step of an append: `child` points at `node` and ends
     * `node`'s list, and its handle ends the list of `node`'s handle.
     */
    method LinkLast(node: NodeRef, child: NodeRef)
      requires Valid() && node in nodes && nodes[node].nodeName != TextName && child in nodes
      modifies this`nodes, tree`children
      ensures Valid()
      ensures nodes == Appended(old(nodes), node, child)
      ensures tree.children == Attach(old(tree.children), nodes[node].taffyNode, nodes[child].taffyNode)
    {
      AppendedWellFormed(nodes, next, tree, tree.children.Keys, node, child);
      nodes := Appended(nodes, node, child);
      AttachHandle(node, child);
    }

    /**
     * The second step of an insertion: `child` points at `node` and sits at
     * `index` of its list, and the solver is asked to put its handle at the
     * same index of the list of `node`'s handle.
     */
    method LinkAt(node: NodeRef, child: NodeRef, index: nat)
      requires Valid() && node in nodes && nodes[node].nodeName != TextName && child in nodes
      requires index <= |nodes[node].childNodes|
      modifies this`nodes, tree`children
      ensures Valid()
      ensures nodes == Attached(old(nodes), node, child, index)
      ensures tree.children == AttachAt(old(tree.children), nodes[node].taffyNode, index, nodes[child].taffyNode)
    {
      AttachedWellFormed(nodes, next, tree, tree.children.Keys, node, child, index);
      nodes := Attached(nodes, node, child, index);
      AttachHandleAt(node, index, child);
    }

    /** The rest of an append once `child` is detached: link it last, then mark a text-bearing `node`. */
    method PlaceLast(node: NodeRef, child: NodeRef)
      requires Valid() && node in nodes && nodes[node].nodeName != TextName && child in nodes
      modifies this`nodes, tree`children, tree`dirty
      ensures Valid()
      ensures nodes == Appended(old(nodes), node, child)
      ensures tree.children == Attach(old(tree.children), nodes[node].taffyNode, nodes[child].taffyNode)
      ensures tree.dirty == old(tree.dirty) + (if IsTextBearing(nodes[node].nodeName) then MarkedBy(Some(node)) else {})
    {
      LinkLast(node, child);
      if IsTextBearing(nodes[node].nodeName) {
        MarkNodeAsDirty(Some(node));
      }
    }

    /**
     * The rest of an insertion once `child` is detached: at the index of
     * `before`, with no mark, when `before` is among `node`'s children, and
     * as by `PlaceLast` otherwise.
     */
    method PlaceBefore(node: NodeRef, child: NodeRef, before: NodeRef)
      requires Valid() && node in nodes && nodes[node].nodeName != TextName && child in nodes
      modifies this`nodes, tree`children, tree`dirty
      ensures Valid()
      ensures var index := IndexOf(old(nodes[node].childNodes), before);
              && nodes == (if index >= 0 then Attached(old(nodes), node, child, index) else Appended(old(nodes), node, child))
              && tree.children == (if index >= 0 then AttachAt(old(tree.children), nodes[node].taffyNode, index, nodes[child].taffyNode)
                                   else Attach(old(tree.children), nodes[node].taffyNode, nodes[child].taffyNode))
              && tree.dirty == old(tree.dirty) + (if index < 0 && IsTextBearing(nodes[node].nodeName) then MarkedBy(Some(node)) else {})
    {
      var index := IndexOf(nodes[node].childNodes, before);
      if index >= 0 {
        LinkAt(node, child, index);
        return;
      }
      PlaceLast(node, child);
    }

    /** The solver half of an append: `child`'s handle joins the end of `node`'s handle's list, when both have one. */
    method AttachHandle(node: NodeRef, child: NodeRef)
      requires Valid() && node in nodes && child in nodes
      modifies tree`children
      ensures Valid()
      ensures tree.children == Attach(old(tree.children), nodes[node].taffyNode, nodes[child].taffyNode)
    {
      if nodes[child].taffyNode.Some? && nodes[node].taffyNode.Some? {
        var parentHandle := nodes[node].taffyNode.value;
        parentHandle.tree.AddChild(parentHandle.id, nodes[child].taffyNode.value.id);
      }
    }

    /** The solver half of an insertion at `index`, when both have a handle. */
    method AttachHandleAt(node: NodeRef, index: nat, child: NodeRef)
      requires Valid() && node in nodes && child in nodes
      modifies tree`children
      ensures Valid()
      ensures tree.children == AttachAt(old(tree.children), nodes[node].taffyNode, index, nodes[child].taffyNode)
    {
      if nodes[child].taffyNode.Some? && nodes[node].taffyNode.Some? {
        var parentHandle := nodes[node].taffyNode.value;
        parentHandle.tree.InsertChildAtIndex(parentHandle.id, index, nodes[child].taffyNode.value.id);
      }
    }

    /**
     * `appendChildNode(node, childNode)`: `childNode` leaves its old parent,
     * then becomes the last child of `node`, in the element tree and, when
     * both own handles, in the solver tree; a text-bearing `node` has its
     * closest handle marked dirty.
     */
    method AppendChildNode(node: NodeRef, childNode: NodeRef)
      requires Valid() && node in nodes && nodes[node].nodeName != TextName && childNode in nodes
      modifies this`nodes, tree`children, tree`dirty
      ensures Valid()
      ensures nodes == Appended(Moved(old(nodes), childNode), node, childNode)
      ensures tree.children == Attach(SolverMoved(old(nodes), old(tree.children), childNode), nodes[node].taffyNode, nodes[childNode].taffyNode)
      ensures tree.dirty == old(tree.dirty) + MovedMarks(old(nodes), childNode, next) +
                            (if IsTextBearing(nodes[node].nodeName) then MarkedBy(Some(node)) else {})
    {
      MovedKeepsNames(nodes, childNode, node);
      MoveOut(childNode);
      PlaceLast(node, childNode);
    }

    /**
     * `insertBeforeNode(node, newChildNode, beforeChildNode)`: `newChildNode`
     * leaves its old parent; if `beforeChildNode` is then at index i of
     * `node`'s list, `newChildNode` is placed at i and the solver is asked to
     * insert at the same i, with no dirty mark; otherwise it is appended as
     * by `AppendChildNode`. (Setting the parent pointer before the lookup,
     * as the source does, leaves `node`'s list as it is, so the lookup is
     * made on the list as it stands after the move.)
     */
    method InsertBeforeNode(node: NodeRef, newChildNode: NodeRef, beforeChildNode: NodeRef)
      requires Valid() && node in nodes && nodes[node].nodeName != TextName && newChildNode in nodes
      modifies this`nodes, tree`children, tree`dirty
      ensures Valid()
      ensures nodes == Inserted(old(nodes), node, newChildNode, beforeChildNode)
      ensures var index := InsertIndex(old(nodes), node, newChildNode, beforeChildNode);
              var solverMoved := SolverMoved(old(nodes), old(tree.children), newChildNode);
              tree.children == if index >= 0 then AttachAt(solverMoved, nodes[node].taffyNode, index, nodes[newChildNode].taffyNode)
                               else Attach(solverMoved, nodes[node].taffyNode, nodes[newChildNode].taffyNode)
      ensures var found := InsertIndex(old(nodes), node, newChildNode, beforeChildNode) >= 0;
              tree.dirty == old(tree.dirty) + MovedMarks(old(nodes), newChildNode, next) +
                            (if !found && IsTextBearing(nodes[node].nodeName) then MarkedBy(Some(node)) else {})
    {
      MovedKeepsNames(nodes, newChildNode, node);
      MoveOut(newChildNode);
      assert IndexOf(nodes[node].childNodes, beforeChildNode) == InsertIndex(old(nodes), node, newChildNode, beforeChildNode);
      PlaceBefore(node, newChildNode, beforeChildNode);
    }

    /** The text a measured node stands for: its own value, or the squashed text below an element. */
    function TextOf(helpers: TextHelpers, node: NodeRef): string
      reads this
      requires node in nodes
    {
      if nodes[node].nodeName == TextName then nodes[node].nodeValue else helpers.squashTextNodes(node)
    }

    /**
     * `measureTextNode(node, width)`: the size of the node's text for the
     * width the solver offers. For min-content the text is wrapped at its
     * widest character; for max-content, or a definite width the natural
     * text fits, or a width below one cell for text at least one cell wide,
     * the natural size is returned; otherwise the text is wrapped at the
     * offered width.
     */
    function MeasureTextNode(helpers: TextHelpers, node: NodeRef, width: AvailableSpace): (r: Dimensions)
      reads this
      requires node in nodes
      ensures var text := TextOf(helpers, node);
              var natural := helpers.measureText(text);
              var mode := TextWrapOf(nodes[node].style.textWrap);
              && (width.MinContent? ==> r == helpers.measureText(helpers.wrapText(text, WidestCharWidth(helpers.stringWidth, text), mode)))
              && (width.MaxContent? ==> r == natural)
              && (width.Definite? && natural.width <= width.width ==> r == natural)
              && (width.Definite? && natural.width >= 1.0 && 0.0 < width.width < 1.0 ==> r == natural)
              && (width.Definite? && natural.width > width.width && !(natural.width >= 1.0 && 0.0 < width.width < 1.0) ==>
                    r == helpers.measureText(helpers.wrapText(text, width.width, mode)))
    {
      var text := TextOf(helpers, node);
      if width.MinContent? then
        var maxCharWidth := WidestCharWidth(helpers.stringWidth, text);
        helpers.measureText(helpers.wrapText(text, maxCharWidth, TextWrapOf(nodes[node].style.textWrap)))
      else
        var dimensions := helpers.measureText(text);
        if width.MaxContent? then dimensions
        else if dimensions.width <= width.width then dimensions
        else if dimensions.width >= 1.0 && width.width > 0.0 && width.width < 1.0 then dimensions
        else helpers.measureText(helpers.wrapText(text, width.width, TextWrapOf(nodes[node].style.textWrap)))
    }
  }
}
