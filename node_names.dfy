/** Node kinds of the widget tree and the identities of its node objects. */
module NodeNames {

  /** Identity of a node object of the widget tree (an element or a text leaf). */
  type NodeRef = nat

  /** `'ink-root' | 'ink-box' | 'ink-text' | 'ink-virtual-text'` for elements, `'#text'` for text leaves. */
  datatype NodeName = InkRoot | InkBox | InkText | InkVirtualText | TextName

  /** The element kinds (`ElementNames`). */
  type ElementName = n: NodeName | !n.TextName? witness InkBox

  /** Kinds that own a layout handle: every element except virtual text; never a text leaf. */
  predicate OwnsHandle(n: NodeName) {
    n != InkVirtualText && n != TextName
  }

  /** Kinds whose content is text, so that a structural edit under them invalidates measurement. */
  predicate IsTextBearing(n: NodeName) {
    n == InkText || n == InkVirtualText
  }
}
