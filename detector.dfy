/**
 * The pattern detector `detect_prime`: four character probes around the
 * normalised selection decide whether the selection sits one character
 * inside each edge of a token.
 */
module Detector {
  import opened Options
  import opened Terminal
  import opened Selection

  /**
   * The browser's view of the document, as oracles: `text(n)` is
   * `n.textContent` (possibly null) as its sequence of UTF-16 code units,
   * which is what selection offsets count; `compare(a, b)` is
   * `a.compareDocumentPosition(b)` and `contains(a, b)` is `a.contains(b)`.
   */
  datatype Dom = Dom(
    text: NodeId -> Option<seq<int>>,
    compare: (NodeId, NodeId) -> int,
    contains: (NodeId, NodeId) -> bool)

  predicate IsLeadSurrogate(u: int) { 0xD800 <= u <= 0xDBFF }
  predicate IsTrailSurrogate(u: int) { 0xDC00 <= u <= 0xDFFF }

  /**
   * `textContent?.codePointAt(i)`: absent for a null text or an index out of
   * range; a lead surrogate followed by a trail surrogate decodes to the
   * supplementary code point they encode, any other code unit (a lone
   * surrogate included) is returned as it is.
   */
  function CodePointAt(text: Option<seq<int>>, i: int): (r: Option<int>)
    ensures r.Some? <==> text.Some? && 0 <= i < |text.value|
    ensures r.Some? && !IsLeadSurrogate(text.value[i]) ==> r.value == text.value[i]
    ensures (r.Some? && IsLeadSurrogate(text.value[i]) && i + 1 < |text.value|
             && IsTrailSurrogate(text.value[i + 1])) ==> 0x10000 <= r.value <= 0x10FFFF
  {
    if text.Some? && 0 <= i < |text.value| then
      var u := text.value;
      if IsLeadSurrogate(u[i]) && i + 1 < |u| && IsTrailSurrogate(u[i + 1]) then
        Some(0x10000 + (u[i] - 0xD800) * 0x400 + (u[i + 1] - 0xDC00))
      else Some(u[i])
    else None
  }

  /** The code unit at `i`, absent for a null text or an index out of range. */
  function CodeUnitAt(text: Option<seq<int>>, i: int): Option<int> {
    if text.Some? && 0 <= i < |text.value| then Some(text.value[i]) else None
  }

  /**
   * No separator is a surrogate or lies above U+FFFF, so classifying the code
   * point at `i` gives the same answer as classifying the code unit at `i`.
   */
  lemma ProbeClassifiesByCodeUnit(text: Option<seq<int>>, i: int)
    ensures IsTerminalChar(CodePointAt(text, i)) == IsTerminalChar(CodeUnitAt(text, i))
  {
  }

  /**
   * `contains`: both endpoints of the span are the target or lie inside it.
   * A target that is both endpoints contains the span whatever the oracle
   * says; when the oracle is inclusive at the target (as `Node.contains` is),
   * the `===` tests add nothing to it.
   */
  predicate Contains(target: NodeId, span: Span, contains: (NodeId, NodeId) -> bool)
    ensures target == span.start == span.end ==> Contains(target, span, contains)
    ensures contains(target, target) ==>
      (Contains(target, span, contains) <==> contains(target, span.start) && contains(target, span.end))
  {
    (target == span.start || contains(target, span.start))
    && (target == span.end || contains(target, span.end))
  }

  /** The span, if the reported selection normalises to one. */
  function SpanOf(sel: Option<RawSelection>, dom: Dom): Option<Span> {
    GetSelection(sel, dom.compare)
  }

  /**
   * The guard of `detect_prime` that rejects before any character is read:
   * no span, a span starting at offset 0, or a span outside the target.
   */
  predicate RejectedUpFront(sel: Option<RawSelection>, dom: Dom, target: Option<NodeId>)
    ensures !HasEndpoints(sel) ==> RejectedUpFront(sel, dom, target)
    ensures !RejectedUpFront(sel, dom, target) ==>
      SpanOf(sel, dom).Some? && SpanOf(sel, dom).value.startOffset >= 1
      && (target.Some? ==> Contains(target.value, SpanOf(sel, dom).value, dom.contains))
  {
    var selection := SpanOf(sel, dom);
    selection.None? || selection.value.startOffset == 0
    || (target.Some? && !Contains(target.value, selection.value, dom.contains))
  }

  /**
   * `detect_prime(target)`; `target == None` is a call without a target.
   * When it answers true, every probe it relied on found a character: the
   * start text holds the character before the start, and the end text holds
   * the character at the end offset.
   */
  function DetectPrime(sel: Option<RawSelection>, dom: Dom, target: Option<NodeId>): (r: bool)
    ensures r ==>
      && SpanOf(sel, dom).Some?
      && var span := SpanOf(sel, dom).value;
      && span.startOffset >= 1
      && dom.text(span.start).Some? && |dom.text(span.start).value| > span.startOffset - 1
      && dom.text(span.end).Some? && |dom.text(span.end).value| > span.endOffset
  {
    if RejectedUpFront(sel, dom, target) then false
    else
      var span := SpanOf(sel, dom).value;
      var startToken0 :=
        if span.startOffset > 1 then CodePointAt(dom.text(span.start), span.startOffset - 2) else None;
      if !IsTerminalChar(startToken0) then false
      else
        var startToken1 := CodePointAt(dom.text(span.start), span.startOffset - 1);
        if IsTerminalChar(startToken1) then false
        else
          var endToken0 := CodePointAt(dom.text(span.end), span.endOffset);
          if IsTerminalChar(endToken0) then false
          else
            var endToken1 := CodePointAt(dom.text(span.end), span.endOffset + 1);
            if !IsTerminalChar(endToken1) then false
            else true
  }

  /**
   * The detected shape, stated directly on the texts: the span starts one
   * character after a token's first character (the character before that is
   * a separator or the text's start) and ends one character before the
   * token's last character (the character after that is a separator or the
   * text's end).
   */
  predicate TokenEdges(span: Span, startText: seq<int>, endText: seq<int>) {
    && 1 <= span.startOffset <= |startText|
    && !IsSeparator(startText[span.startOffset - 1])
    && (span.startOffset == 1 || IsSeparator(startText[span.startOffset - 2]))
    && span.endOffset < |endText|
    && !IsSeparator(endText[span.endOffset])
    && (span.endOffset + 1 == |endText| || IsSeparator(endText[span.endOffset + 1]))
  }

  /**
   * `detect_prime` is true exactly when the selection normalises to a span
   * inside the target (if any) whose texts exist and show `TokenEdges`.
   */
  lemma DetectPrimeCharacterised(sel: Option<RawSelection>, dom: Dom, target: Option<NodeId>)
    ensures DetectPrime(sel, dom, target) <==>
      match SpanOf(sel, dom)
      case None => false
      case Some(span) =>
        && (target.None? || Contains(target.value, span, dom.contains))
        && dom.text(span.start).Some? && dom.text(span.end).Some?
        && TokenEdges(span, dom.text(span.start).value, dom.text(span.end).value)
  {
  }

  /**
   * The three up-front rejections answer false whatever the texts are: no
   * character is probed.
   */
  lemma RejectedWithoutProbing(sel: Option<RawSelection>, dom: Dom, target: Option<NodeId>,
                               otherText: NodeId -> Option<seq<int>>)
    requires RejectedUpFront(sel, dom, target)
    ensures !DetectPrime(sel, dom, target)
    ensures !DetectPrime(sel, dom.(text := otherText), target)
  {
  }

  /** A zero-width selection, or one with a missing endpoint, is never detected. */
  lemma CollapsedNeverDetected(sel: Option<RawSelection>, dom: Dom, target: Option<NodeId>)
    requires !HasEndpoints(sel)
      || (sel.value.anchorNode == sel.value.focusNode && sel.value.anchorOffset == sel.value.focusOffset)
    ensures !DetectPrime(sel, dom, target)
  {
  }

  /** The UTF-16 code units of a string whose characters all lie below U+10000. */
  function Codes(s: string): seq<int> {
    seq(|s|, i requires 0 <= i < |s| => s[i] as int)
  }

  /** A document made of the single text node 0 holding `s`. */
  function OneNode(s: string): Dom {
    Dom(n => if n == 0 then Some(Codes(s)) else None, (a, b) => 0, (a, b) => false)
  }

  /** Selecting `from..to` (anchor first) in node 0. */
  function Select(from: nat, to: nat): Option<RawSelection> {
    Some(RawSelection(Some(0), from, Some(0), to))
  }

  /** The text used by the examples below. */
  const Quoted: string := "Hello, \"world\" is here"

  /**
   * In `Hello, "world" is here` the selection of exactly `world` is not
   * detected: the character before it is `"`, a separator.
   */
  lemma QuotedWordRejected()
    ensures !DetectPrime(Select(8, 13), OneNode(Quoted), None)
  {
  }

  /**
   * Selecting `orl`, one character inside each end of `world`, is detected,
   * in either drag direction.
   */
  lemma InnerWordDetected()
    ensures DetectPrime(Select(9, 12), OneNode(Quoted), None)
    ensures DetectPrime(Select(12, 9), OneNode(Quoted), None)
  {
  }

  /**
   * In `ab cd` the selection `b c`, which crosses the space, is detected:
   * `a` precedes it at the text's start and `d` follows it at the text's end.
   */
  lemma CrossingSelectionDetected()
    ensures DetectPrime(Select(1, 4), OneNode("ab cd"), None)
  {
  }

  /** A document made of the single text node 0 holding the code units `u`. */
  function OneUnits(u: seq<int>): Dom {
    Dom(n => if n == 0 then Some(u) else None, (a, b) => 0, (a, b) => false)
  }

  /** The code units of U+1F600 followed by ` bcd e`. */
  const AstralPrefixed: seq<int> := [0xD83D, 0xDE00, 0x20, 0x62, 0x63, 0x64, 0x20, 0x65]

  /**
   * Offsets count code units: after U+1F600 (two code units), probing at
   * offset 1 reads the lone trail surrogate, a non-separator, so the
   * selection 3..4 is rejected; the selection 4..5 (`c`, inside `bcd`) is
   * detected.
   */
  lemma AstralPrefixProbedByCodeUnit()
    ensures !DetectPrime(Select(3, 4), OneUnits(AstralPrefixed), None)
    ensures DetectPrime(Select(4, 5), OneUnits(AstralPrefixed), None)
  {
  }
}
