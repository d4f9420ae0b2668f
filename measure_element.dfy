/** Reading back the solved size of an element. */
module MeasureElement {
  import opened NodeNames
  import opened Taffy
  import opened TaffyNodes
  import opened DomNodes
  import opened Dom

  /**
   * `measureElement(node)`: the width and height the solver computed for
   * the node's handle, or zero for each when the node has no handle (a
   * virtual-text element or a text leaf) or the handle has not been solved.
   */
  function MeasureElement(dom: DomTree, node: NodeRef): (r: Dimensions)
    reads dom, dom.tree
    requires dom.Valid() && node in dom.nodes
    ensures !OwnsHandle(dom.nodes[node].nodeName) ==> r == Dimensions(0.0, 0.0)
    ensures OwnsHandle(dom.nodes[node].nodeName) ==>
              var id := dom.nodes[node].taffyNode.value.id;
              && id in dom.tree.children
              && r == if id in dom.tree.layouts then Dimensions(dom.tree.layouts[id].width, dom.tree.layouts[id].height)
                      else Dimensions(0.0, 0.0)
  {
    match dom.nodes[node].taffyNode
    case None => Dimensions(0.0, 0.0)
    case Some(handle) =>
      var layout := handle.tree.GetLayout(handle.id);
      Dimensions(layout.width, layout.height)
  }
}
