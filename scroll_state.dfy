/**
 * The scrolling window of the terminal front end's lists, time bar and
 * command line (oombak_tui/src/widgets/scroll_state.rs): `contentLength`
 * items, of which `viewportLength` are visible from `startPosition`, with
 * the selected one at `selectedPosition` inside the viewport. The item the
 * selection points at is `startPosition + selectedPosition`.
 */
module ScrollStates {
  import opened Wrappers

  datatype Window = Window(contentLength: nat, startPosition: nat, selectedPosition: nat, viewportLength: nat)

  /** usize::saturating_sub. */
  function SatSub(a: nat, b: nat): nat {
    if a >= b then a - b else 0
  }

  /** The item the selection points at. */
  function Position(w: Window): nat {
    w.startPosition + w.selectedPosition
  }

  /** The selection lies in the viewport (at 0 when the viewport is empty). */
  predicate SelectionInView(w: Window) {
    w.selectedPosition <= SatSub(w.viewportLength, 1)
  }

  /** The viewport lies inside a content at least as long as the viewport. */
  predicate Fits(w: Window) {
    && 1 <= w.viewportLength
    && w.startPosition + w.viewportLength <= w.contentLength
    && w.selectedPosition < w.viewportLength
  }

  predicate IsAtViewportEnd(w: Window) {
    w.viewportLength == 0 || w.selectedPosition == w.viewportLength - 1
  }

  predicate IsAtViewportStart(w: Window) {
    w.selectedPosition == 0
  }

  /**
   * is_at_end as written: `viewport_length - 1` is computed whenever the
   * start is at the last window, and for an empty viewport that usize
   * subtraction overflows, which panics (None here).
   */
  function AsWrittenIsAtEnd(w: Window): Option<bool> {
    if w.contentLength == 0 then Some(true)
    else if w.startPosition != SatSub(w.contentLength, w.viewportLength) then Some(false)
    else if w.viewportLength == 0 then None
    else Some(w.selectedPosition == w.viewportLength - 1)
  }

  /** is_at_end with the last row found as is_at_viewport_end finds it. */
  predicate IsAtEnd(w: Window) {
    w.contentLength == 0 || (w.startPosition == SatSub(w.contentLength, w.viewportLength) && IsAtViewportEnd(w))
  }

  predicate IsAtBeginning(w: Window) {
    w.startPosition == 0 && w.selectedPosition == 0
  }

  /** ScrollState::new: the given content, everything else 0. */
  function New(contentLength: nat): Window {
    Window(contentLength, 0, 0, 0)
  }

  /** last: the last window, with the selection on its last row. */
  function LastWindow(w: Window): Window {
    w.(startPosition := SatSub(w.contentLength, w.viewportLength), selectedPosition := SatSub(w.viewportLength, 1))
  }

  function WithContentLength(w: Window, contentLength: nat): Window {
    var v := w.(contentLength := contentLength);
    if w.selectedPosition >= contentLength then LastWindow(v) else v
  }

  function WithViewportLength(w: Window, viewportLength: nat): Window {
    var v := w.(viewportLength := viewportLength);
    if w.selectedPosition >= viewportLength then LastWindow(v) else v
  }

  /** next: the selection moves down the viewport, then the window scrolls, up to the end. */
  function NextWindow(w: Window): Window {
    if !IsAtEnd(w) && IsAtViewportEnd(w) then w.(startPosition := w.startPosition + 1)
    else if !IsAtViewportEnd(w) then w.(selectedPosition := w.selectedPosition + 1)
    else w
  }

  /** next as written: None where its end test overflows. */
  function AsWrittenNext(w: Window): Option<Window> {
    match AsWrittenIsAtEnd(w)
    case None => None
    case Some(atEnd) =>
      if !atEnd && IsAtViewportEnd(w) then Some(w.(startPosition := w.startPosition + 1))
      else if !IsAtViewportEnd(w) then Some(w.(selectedPosition := w.selectedPosition + 1))
      else Some(w)
  }

  /** prev: the selection moves up the viewport, then the window scrolls back, down to the beginning. */
  function PrevWindow(w: Window): Window {
    if !IsAtBeginning(w) && IsAtViewportStart(w) then w.(startPosition := w.startPosition - 1)
    else if !IsAtViewportStart(w) then w.(selectedPosition := w.selectedPosition - 1)
    else w
  }

  /** last reaches the end, and keeps the content and the viewport. */
  lemma {:induction false} LastIsAtEnd(w: Window)
    ensures IsAtEnd(LastWindow(w)) && IsAtViewportEnd(LastWindow(w)) && SelectionInView(LastWindow(w))
    ensures LastWindow(w).contentLength == w.contentLength && LastWindow(w).viewportLength == w.viewportLength
    ensures 1 <= w.viewportLength <= w.contentLength ==> Position(LastWindow(w)) == w.contentLength - 1
  {
  }

  /**
   * Setting a length jumps to the last window exactly when the selection
   * falls outside the new length; otherwise only that length changes.
   * Either way a new viewport length brings the selection into view.
   */
  lemma {:induction false} SetLengthSpec(w: Window, n: nat)
    ensures WithContentLength(w, n).contentLength == n && WithViewportLength(w, n).viewportLength == n
    ensures WithContentLength(w, n) == if w.selectedPosition >= n then LastWindow(w.(contentLength := n)) else w.(contentLength := n)
    ensures WithViewportLength(w, n) == if w.selectedPosition >= n then LastWindow(w.(viewportLength := n)) else w.(viewportLength := n)
    ensures SelectionInView(WithViewportLength(w, n))
    ensures SelectionInView(w) ==> SelectionInView(WithContentLength(w, n))
  {
  }

  /**
   * next points one item further on, except at the end where it changes
   * nothing; it keeps the selection in view and the lengths unchanged.
   */
  lemma {:induction false} NextSpec(w: Window)
    requires SelectionInView(w)
    ensures SelectionInView(NextWindow(w))
    ensures NextWindow(w).contentLength == w.contentLength && NextWindow(w).viewportLength == w.viewportLength
    ensures IsAtEnd(w) && IsAtViewportEnd(w) ==> NextWindow(w) == w
    ensures !(IsAtEnd(w) && IsAtViewportEnd(w)) ==> Position(NextWindow(w)) == Position(w) + 1
  {
  }

  /**
   * Inside the content, next stops exactly at the last item: it moves on
   * from every item before it, and the window still fits afterwards.
   */
  lemma {:induction false} NextInsideContent(w: Window)
    requires Fits(w)
    ensures Fits(NextWindow(w))
    ensures Position(w) < w.contentLength
    ensures Position(w) + 1 < w.contentLength ==> Position(NextWindow(w)) == Position(w) + 1
    ensures Position(w) + 1 == w.contentLength ==> NextWindow(w) == w
  {
  }

  /**
   * prev points one item back, and changes nothing at the first item; it
   * keeps the selection in view, the window inside the content, and the
   * lengths unchanged.
   */
  lemma {:induction false} PrevSpec(w: Window)
    ensures Position(PrevWindow(w)) == SatSub(Position(w), 1)
    ensures Position(w) == 0 ==> PrevWindow(w) == w
    ensures PrevWindow(w).contentLength == w.contentLength && PrevWindow(w).viewportLength == w.viewportLength
    ensures SelectionInView(w) ==> SelectionInView(PrevWindow(w))
    ensures Fits(w) ==> Fits(PrevWindow(w))
  {
  }

  /** next applied n times. */
  function NextN(w: Window, n: nat): Window
    decreases n
  {
    if n == 0 then w else NextN(NextWindow(w), n - 1)
  }

  function PrevN(w: Window, n: nat): Window
    decreases n
  {
    if n == 0 then w else PrevN(PrevWindow(w), n - 1)
  }

  lemma {:induction false} NextNAdd(w: Window, a: nat, b: nat)
    ensures NextN(w, a + b) == NextN(NextN(w, a), b)
    decreases a
  {
    if a > 0 {
      NextNAdd(NextWindow(w), a - 1, b);
    }
  }

  lemma {:induction false} PrevNAdd(w: Window, a: nat, b: nat)
    ensures PrevN(w, a + b) == PrevN(PrevN(w, a), b)
    decreases a
  {
    if a > 0 {
      PrevNAdd(PrevWindow(w), a - 1, b);
    }
  }

  /** Inside the viewport, n steps of next move the selection n rows down. */
  lemma {:induction false} NextWithinViewport(w: Window, n: nat)
    requires w.selectedPosition + n < w.viewportLength
    ensures NextN(w, n) == w.(selectedPosition := w.selectedPosition + n)
    decreases n
  {
    if n > 0 {
      NextWithinViewport(NextWindow(w), n - 1);
    }
  }

  /** From the last row, n steps of next scroll the window n items on, while it fits. */
  lemma {:induction false} NextScrolls(w: Window, n: nat)
    requires Fits(w) && w.selectedPosition == w.viewportLength - 1
    requires w.startPosition + n + w.viewportLength <= w.contentLength
    ensures NextN(w, n) == w.(startPosition := w.startPosition + n)
    decreases n
  {
    if n > 0 {
      NextScrolls(NextWindow(w), n - 1);
    }
  }

  lemma {:induction false} PrevWithinViewport(w: Window, n: nat)
    requires n <= w.selectedPosition
    ensures PrevN(w, n) == w.(selectedPosition := w.selectedPosition - n)
    decreases n
  {
    if n > 0 {
      PrevWithinViewport(PrevWindow(w), n - 1);
    }
  }

  lemma {:induction false} PrevScrolls(w: Window, n: nat)
    requires w.selectedPosition == 0 && n <= w.startPosition
    ensures PrevN(w, n) == w.(startPosition := w.startPosition - n)
    decreases n
  {
    if n > 0 {
      PrevScrolls(PrevWindow(w), n - 1);
    }
  }

  /**
   * 100 items seen 50 at a time: 55 steps forward select the last row of
   * the window starting at 6; 50 steps back then select the first row of
   * the window starting at 5.
   */
  lemma {:induction false} ScrollPastEndAndBack()
    ensures var w := WithViewportLength(WithContentLength(New(0), 100), 50);
      && NextN(w, 55) == Window(100, 6, 49, 50)
      && PrevN(NextN(w, 55), 50) == Window(100, 5, 0, 50)
  {
    var w := Window(100, 0, 0, 50);
    NextNAdd(w, 49, 6);
    NextWithinViewport(w, 49);
    NextScrolls(Window(100, 0, 49, 50), 6);
    var v := Window(100, 6, 49, 50);
    PrevNAdd(v, 49, 1);
    PrevWithinViewport(v, 49);
    PrevScrolls(Window(100, 6, 0, 50), 1);
  }

  /**
   * With the default empty viewport and one item, the first next scrolls
   * to start 1, and the second computes `viewport_length - 1` with a
   * viewport of 0 (the as-written end test overflows); the corrected test
   * sees the end and the window stays.
   */
  lemma {:induction false} EmptyViewportOverflow()
    ensures AsWrittenNext(New(1)) == Some(Window(1, 1, 0, 0))
    ensures AsWrittenNext(Window(1, 1, 0, 0)) == None
    ensures NextN(New(1), 2) == Window(1, 1, 0, 0)
  {
    assert NextWindow(New(1)) == Window(1, 1, 0, 0);
  }

  /** Wherever the as-written end test does not overflow, next agrees with it. */
  lemma {:induction false} AsWrittenNextAgrees(w: Window)
    ensures AsWrittenNext(w).Some? ==> AsWrittenNext(w).value == NextWindow(w)
    ensures AsWrittenNext(w).None? <==>
      w.contentLength != 0 && w.viewportLength == 0 && w.startPosition == w.contentLength
  {
  }

  /** The scroll state object; its fields are the window's. */
  class ScrollState {
    var contentLength: nat
    var startPosition: nat
    var selectedPosition: nat
    var viewportLength: nat

    function Model(): Window
      reads this
    {
      Window(contentLength, startPosition, selectedPosition, viewportLength)
    }

    constructor(contentLength: nat)
      ensures Model() == New(contentLength)
    {
      this.contentLength := contentLength;
      startPosition := 0;
      selectedPosition := 0;
      viewportLength := 0;
    }

    method Last()
      modifies this
      ensures Model() == LastWindow(old(Model()))
    {
      startPosition := SatSub(contentLength, viewportLength);
      selectedPosition := SatSub(viewportLength, 1);
    }

    method SetContentLength(contentLength: nat)
      modifies this
      ensures Model() == WithContentLength(old(Model()), contentLength)
    {
      this.contentLength := contentLength;
      if selectedPosition >= contentLength {
        Last();
      }
    }

    method SetViewportLength(viewportLength: nat)
      modifies this
      ensures Model() == WithViewportLength(old(Model()), viewportLength)
    {
      this.viewportLength := viewportLength;
      if selectedPosition >= viewportLength {
        Last();
      }
    }

    method Next()
      modifies this
      ensures Model() == NextWindow(old(Model()))
    {
      var w := Model();
      if !IsAtEnd(w) && IsAtViewportEnd(w) {
        startPosition := startPosition + 1;
      } else if !IsAtViewportEnd(w) {
        selectedPosition := selectedPosition + 1;
      }
    }

    method Prev()
      modifies this
      ensures Model() == PrevWindow(old(Model()))
    {
      var w := Model();
      if !IsAtBeginning(w) && IsAtViewportStart(w) {
        startPosition := startPosition - 1;
      } else if !IsAtViewportStart(w) {
        selectedPosition := selectedPosition - 1;
      }
    }
  }
}
