/**
 * The selection normaliser `get_selection`: turns the browser's
 * (anchor, focus) pair into a span whose start comes before its end.
 */
module Selection {
  import opened Options

  /** An opaque DOM node identity; `===` on nodes is equality of ids. */
  type NodeId = nat

  /** Bits of `Node.compareDocumentPosition` that the normaliser recognises. */
  const DOCUMENT_POSITION_PRECEDING: int := 2
  const DOCUMENT_POSITION_FOLLOWING: int := 4

  /** What `window.getSelection()` reports: either endpoint node may be missing. */
  datatype RawSelection = RawSelection(
    anchorNode: Option<NodeId>, anchorOffset: nat,
    focusNode: Option<NodeId>, focusOffset: nat)

  /** A normalised selection (`SelectionInfo`). */
  datatype Span = Span(start: NodeId, startOffset: nat, end: NodeId, endOffset: nat)

  /** Both endpoints of a reported selection are present. */
  predicate HasEndpoints(sel: Option<RawSelection>) {
    sel.Some? && sel.value.anchorNode.Some? && sel.value.focusNode.Some?
  }

  /** The span that takes the anchor as its start. */
  function Forward(s: RawSelection): Span
    requires s.anchorNode.Some? && s.focusNode.Some?
  {
    Span(s.anchorNode.value, s.anchorOffset, s.focusNode.value, s.focusOffset)
  }

  /** The span that takes the focus as its start. */
  function Backward(s: RawSelection): Span
    requires s.anchorNode.Some? && s.focusNode.Some?
  {
    Span(s.focusNode.value, s.focusOffset, s.anchorNode.value, s.anchorOffset)
  }

  /** The same selection made by dragging the other way. */
  function Swapped(s: RawSelection): RawSelection {
    RawSelection(s.focusNode, s.focusOffset, s.anchorNode, s.anchorOffset)
  }

  /**
   * `get_selection`, with `compareDocumentPosition` passed in as `compare`
   * (`compare(a, b)` is `a.compareDocumentPosition(b)`).
   */
  function GetSelection(sel: Option<RawSelection>, compare: (NodeId, NodeId) -> int): (r: Option<Span>)
    // no selection, or a missing endpoint: nothing
    ensures !HasEndpoints(sel) ==> r.None?
    // a span keeps both endpoints, oriented one way or the other
    ensures r.Some? ==>
      HasEndpoints(sel) && (r.value == Forward(sel.value) || r.value == Backward(sel.value))
    // same node: a span exactly when the selection is not collapsed, ordered by offset
    ensures HasEndpoints(sel) && sel.value.anchorNode == sel.value.focusNode ==>
      && (r.Some? <==> sel.value.anchorOffset != sel.value.focusOffset)
      && (r.Some? ==> r.value.start == r.value.end == sel.value.anchorNode.value
                      && r.value.startOffset < r.value.endOffset
                      && {r.value.startOffset, r.value.endOffset}
                         == {sel.value.anchorOffset, sel.value.focusOffset})
    // different nodes: only the two exact document-order answers give a span
    ensures HasEndpoints(sel) && sel.value.anchorNode != sel.value.focusNode ==>
      var order := compare(sel.value.anchorNode.value, sel.value.focusNode.value);
      && (r.Some? <==> order == DOCUMENT_POSITION_FOLLOWING || order == DOCUMENT_POSITION_PRECEDING)
      && (order == DOCUMENT_POSITION_FOLLOWING ==> r == Some(Forward(sel.value)))
      && (order == DOCUMENT_POSITION_PRECEDING ==> r == Some(Backward(sel.value)))
  {
    if sel.None? then None
    else
      var s := sel.value;
      if s.anchorNode.None? || s.focusNode.None? then None
      else if s.anchorNode == s.focusNode && s.anchorOffset == s.focusOffset then None
      else
        var nodeOrder :=
          if s.anchorNode == s.focusNode then
            (if s.anchorOffset < s.focusOffset then DOCUMENT_POSITION_FOLLOWING else DOCUMENT_POSITION_PRECEDING)
          else compare(s.anchorNode.value, s.focusNode.value);
        if nodeOrder == DOCUMENT_POSITION_FOLLOWING then Some(Forward(s))
        else if nodeOrder == DOCUMENT_POSITION_PRECEDING then Some(Backward(s))
        else None
  }

  /**
   * `compareDocumentPosition` answers consistently for `a` and `b`: `b`
   * follows `a` exactly when `a` precedes `b`.
   */
  predicate ConsistentOrder(compare: (NodeId, NodeId) -> int, a: NodeId, b: NodeId) {
    && (compare(a, b) == DOCUMENT_POSITION_FOLLOWING <==> compare(b, a) == DOCUMENT_POSITION_PRECEDING)
    && (compare(a, b) == DOCUMENT_POSITION_PRECEDING <==> compare(b, a) == DOCUMENT_POSITION_FOLLOWING)
  }

  /**
   * The normalised span does not depend on the direction in which the user
   * dragged: within one node always, across nodes whenever the document
   * order is answered consistently.
   */
  lemma SwapGivesSameSpan(s: RawSelection, compare: (NodeId, NodeId) -> int)
    requires s.anchorNode.Some? && s.focusNode.Some?
    requires s.anchorNode != s.focusNode ==> ConsistentOrder(compare, s.anchorNode.value, s.focusNode.value)
    ensures GetSelection(Some(Swapped(s)), compare) == GetSelection(Some(s), compare)
  {
  }

  /** A span produced from a same-node selection never has its end before its start. */
  lemma SameNodeSpanIsOrdered(s: RawSelection, compare: (NodeId, NodeId) -> int)
    requires s.anchorNode.Some? && s.anchorNode == s.focusNode
    requires s.anchorOffset != s.focusOffset
    ensures var r := GetSelection(Some(s), compare);
      && r.Some? && r.value.start == r.value.end
      && r.value.startOffset == (if s.anchorOffset < s.focusOffset then s.anchorOffset else s.focusOffset)
      && r.value.endOffset == (if s.anchorOffset < s.focusOffset then s.focusOffset else s.anchorOffset)
  {
  }
}
