/** The width left for content inside a solved box. */
module GetMaxWidth {
  import opened Taffy

  /** The four horizontal insets of a solved box: padding and border on both sides. */
  function HorizontalInsets(layout: Layout): real {
    layout.paddingLeft + layout.paddingRight + layout.borderLeft + layout.borderRight
  }

  /**
   * `getMaxWidth(layout)`: the box's width less its left and right padding
   * and its left and right border. Nothing clamps the result: insets wider
   * than the box give a negative width.
   */
  function GetMaxWidth(layout: Layout): (w: real)
    ensures w + HorizontalInsets(layout) == layout.width
    ensures w == layout.width <==> HorizontalInsets(layout) == 0.0
    ensures layout.paddingLeft >= 0.0 && layout.paddingRight >= 0.0 && layout.borderLeft >= 0.0 && layout.borderRight >= 0.0 ==>
              w <= layout.width
    ensures HorizontalInsets(layout) > layout.width ==> w < 0.0
  {
    layout.width - layout.paddingLeft - layout.paddingRight - layout.borderLeft - layout.borderRight
  }

  /** Widening any one horizontal padding or border by `k` narrows the content by exactly `k`. */
  lemma MaxWidthInset(a: Layout, k: real)
    ensures GetMaxWidth(a.(paddingLeft := a.paddingLeft + k)) == GetMaxWidth(a) - k
    ensures GetMaxWidth(a.(paddingRight := a.paddingRight + k)) == GetMaxWidth(a) - k
    ensures GetMaxWidth(a.(borderLeft := a.borderLeft + k)) == GetMaxWidth(a) - k
    ensures GetMaxWidth(a.(borderRight := a.borderRight + k)) == GetMaxWidth(a) - k
  {
  }

  /** Vertical padding, vertical border and height do not enter the content width. */
  lemma MaxWidthIgnoresVertical(a: Layout, b: Layout)
    requires a.width == b.width && a.paddingLeft == b.paddingLeft && a.paddingRight == b.paddingRight
    requires a.borderLeft == b.borderLeft && a.borderRight == b.borderRight
    ensures GetMaxWidth(a) == GetMaxWidth(b)
  {
  }

  /** Widening a box by `d` with the same insets widens its content by `d`. */
  lemma MaxWidthShift(a: Layout, d: real)
    ensures GetMaxWidth(a.(width := a.width + d)) == GetMaxWidth(a) + d
  {
  }

  /** An unsolved box has no room for content. */
  lemma MaxWidthUnsolved()
    ensures GetMaxWidth(ZeroLayout) == 0.0
  {
  }
}
