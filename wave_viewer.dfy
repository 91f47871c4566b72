/**
 * The wave viewer of the terminal front end
 * (oombak_tui/src/components/wave_viewer.rs): the list of waves with a
 * selected row, a horizontal position inside the content and the scroll
 * state shared by the waveforms it draws.
 *
 * Three lengths per unit time appear in the source as written and are kept
 * apart here: the content length counts (4 + zoom) cells per value run,
 * the highlighted unit time divides the position by 4 * zoom.
 */
module WaveViewers {
  import opened Wrappers
  import Models
  import ScrollStates
  import DropDowns

  const CellsPerUnitTime: nat := 4

  /**
   * The viewer's state: the simulation shown, the selected row, the
   * horizontal content length and position, and the waveforms' window.
   * The list widget's own selection and the scrollbar only serve drawing.
   */
  datatype Viewer = Viewer(
    simulation: Models.SimulationSpec,
    selectedIdx: Option<nat>,
    contentLength: nat,
    position: nat,
    waveform: ScrollStates.Window)

  /** The derived default: nothing shown, nothing selected, everything 0. */
  function NewViewer(): Viewer {
    Viewer(Models.SimulationSpec([], 0, 0, 0), None, 0, 0, ScrollStates.New(0))
  }

  /** The horizontal content of a simulation: (4 + zoom) cells per value run of its first wave. */
  function ContentLength(simulation: Models.SimulationSpec): nat
    requires simulation.waveSpecs != []
  {
    (CellsPerUnitTime + simulation.zoom) * |simulation.waveSpecs[0].wave.values|
  }

  /**
   * set_simulation: the simulation is replaced; when it has waves the
   * first row is selected and the content length recomputed and passed to
   * the waveforms' scroll state. The position is kept.
   */
  function SetSimulation(v: Viewer, simulation: Models.SimulationSpec): Viewer {
    if simulation.waveSpecs == [] then v.(simulation := simulation)
    else
      var n := ContentLength(simulation);
      v.(simulation := simulation, selectedIdx := Some(0), contentLength := n,
         waveform := ScrollStates.WithContentLength(v.waveform, n))
  }

  /** scroll_right: the waveforms scroll on, and the position moves right while inside the content. */
  function ScrollRight(v: Viewer): Viewer {
    v.(waveform := ScrollStates.NextWindow(v.waveform),
       position := if v.position < v.contentLength then v.position + 1 else v.position)
  }

  /** scroll_left: the waveforms scroll back, and the position moves left down to 0. */
  function ScrollLeft(v: Viewer): Viewer {
    v.(waveform := ScrollStates.PrevWindow(v.waveform),
       position := if v.position != 0 then v.position - 1 else v.position)
  }

  /**
   * scroll_down computes the last row as the number of rows minus one, an
   * underflow without rows, so with a selection there must be a row.
   */
  predicate CanScrollDown(v: Viewer) {
    v.selectedIdx.Some? ==> v.simulation.waveSpecs != []
  }

  /** scroll_down: the next row, saturating at usize::MAX and clamped to the last row. */
  function ScrollDown(v: Viewer): Viewer
    requires CanScrollDown(v)
  {
    match v.selectedIdx
    case None => v
    case Some(idx) =>
      var next := DropDowns.SelectNext(Some(idx));
      var last := |v.simulation.waveSpecs| - 1;
      v.(selectedIdx := Some(if last <= next then last else next))
  }

  /** scroll_up: the previous row, stopping at 0. */
  function ScrollUp(v: Viewer): Viewer {
    match v.selectedIdx
    case None => v
    case Some(idx) => v.(selectedIdx := Some(if idx >= 1 then idx - 1 else 0))
  }

  /** get_highlighted_unit_time: the position over 4 * zoom; zoom 0 divides by zero. */
  function HighlightedUnitTime(v: Viewer): nat
    requires v.simulation.zoom >= 1
  {
    v.position / (CellsPerUnitTime * v.simulation.zoom)
  }

  predicate PositionInContent(v: Viewer) {
    v.position <= v.contentLength
  }

  predicate SelectionInRange(v: Viewer) {
    v.selectedIdx.Some? ==> v.selectedIdx.value < |v.simulation.waveSpecs|
  }

  /**
   * With waves, set_simulation selects the first row and sets the content
   * length, in the viewer and in the waveforms' window, to (4 + zoom) times
   * the first wave's run count; the position is kept. Without waves only
   * the simulation changes.
   */
  lemma {:induction false} SetSimulationSpec(v: Viewer, simulation: Models.SimulationSpec)
    ensures var r := SetSimulation(v, simulation);
      && r.simulation == simulation && r.position == v.position
      && (simulation.waveSpecs != [] ==>
            && r.selectedIdx == Some(0) && SelectionInRange(r)
            && r.contentLength == (4 + simulation.zoom) * |simulation.waveSpecs[0].wave.values|
            && r.waveform.contentLength == r.contentLength)
      && (simulation.waveSpecs == [] ==> r == v.(simulation := simulation))
  {
    if simulation.waveSpecs != [] {
      ScrollStates.SetLengthSpec(v.waveform, ContentLength(simulation));
    }
  }

  /**
   * Without waves the old selection stays, so it no longer names a row
   * and scroll_down's last-row computation would underflow.
   */
  lemma {:induction false} SetSimulationKeepsStaleSelection()
    ensures var v := NewViewer().(selectedIdx := Some(0));
      var r := SetSimulation(v, Models.SimulationSpec([], 0, 1, 1));
      !SelectionInRange(r) && !CanScrollDown(r)
  {
  }

  /**
   * The position stays within [0, content length] under scroll_right and
   * scroll_left. Right moves it by one exactly when it is short of the
   * end, left exactly when it is past 0, and each undoes the other there;
   * the waveforms' window moves with them.
   */
  lemma {:induction false} ScrollRightLeftSpec(v: Viewer)
    requires PositionInContent(v)
    ensures PositionInContent(ScrollRight(v)) && PositionInContent(ScrollLeft(v))
    ensures ScrollRight(v).position == if v.position < v.contentLength then v.position + 1 else v.position
    ensures ScrollLeft(v).position == if v.position > 0 then v.position - 1 else 0
    ensures v.position < v.contentLength ==> ScrollLeft(ScrollRight(v)).position == v.position
    ensures v.position > 0 ==> ScrollRight(ScrollLeft(v)).position == v.position
    ensures ScrollRight(v).waveform == ScrollStates.NextWindow(v.waveform)
    ensures ScrollLeft(v).waveform == ScrollStates.PrevWindow(v.waveform)
    ensures ScrollRight(v).selectedIdx == v.selectedIdx && ScrollLeft(v).selectedIdx == v.selectedIdx
  {
  }

  function ScrollRightN(v: Viewer, k: nat): Viewer
    decreases k
  {
    if k == 0 then v else ScrollRightN(ScrollRight(v), k - 1)
  }

  function ScrollLeftN(v: Viewer, k: nat): Viewer
    decreases k
  {
    if k == 0 then v else ScrollLeftN(ScrollLeft(v), k - 1)
  }

  /** k steps right end at the content's end at the latest; k steps left at 0. */
  lemma {:induction false} ScrollNSpec(v: Viewer, k: nat)
    requires PositionInContent(v)
    ensures ScrollRightN(v, k).position == if v.position + k <= v.contentLength then v.position + k else v.contentLength
    ensures ScrollLeftN(v, k).position == if k <= v.position then v.position - k else 0
    ensures ScrollRightN(v, k).contentLength == v.contentLength && ScrollLeftN(v, k).contentLength == v.contentLength
    ensures PositionInContent(ScrollRightN(v, k)) && PositionInContent(ScrollLeftN(v, k))
    decreases k
  {
    if k > 0 {
      ScrollNSpec(ScrollRight(v), k - 1);
      ScrollNSpec(ScrollLeft(v), k - 1);
    }
  }

  /**
   * scroll_down moves to the next row and stops at the last one;
   * scroll_up moves to the previous row and stops at the first; both keep
   * the selection on a row and do nothing without a selection (a vector
   * holds at most usize::MAX rows). Up undoes
   * down away from the last row, down undoes up away from the first.
   */
  lemma {:induction false} ScrollDownUpSpec(v: Viewer)
    requires SelectionInRange(v) && CanScrollDown(v)
    requires |v.simulation.waveSpecs| <= DropDowns.UsizeMax
    ensures SelectionInRange(ScrollDown(v)) && SelectionInRange(ScrollUp(v))
    ensures v.selectedIdx.None? ==> ScrollDown(v) == v && ScrollUp(v) == v
    ensures v.selectedIdx.Some? ==>
      var idx := v.selectedIdx.value;
      && ScrollDown(v).selectedIdx == Some(if idx + 1 < |v.simulation.waveSpecs| then idx + 1 else idx)
      && ScrollUp(v).selectedIdx == Some(if idx >= 1 then idx - 1 else 0)
    ensures v.selectedIdx.Some? && v.selectedIdx.value + 1 < |v.simulation.waveSpecs| ==> ScrollUp(ScrollDown(v)) == v
    ensures v.selectedIdx.Some? && v.selectedIdx.value >= 1 ==> ScrollDown(ScrollUp(v)) == v
    ensures ScrollDown(v).position == v.position && ScrollUp(v).waveform == v.waveform
  {
  }

  /**
   * The highlighted unit time is the unit time whose 4 * zoom cells hold
   * the position, and it never decreases as the position moves right.
   */
  lemma {:induction false} HighlightedUnitTimeSpec(v: Viewer)
    requires v.simulation.zoom >= 1
    ensures var t := HighlightedUnitTime(v); var unit := 4 * v.simulation.zoom;
      t * unit <= v.position < (t + 1) * unit
    ensures HighlightedUnitTime(v) <= HighlightedUnitTime(ScrollRight(v))
    ensures HighlightedUnitTime(ScrollLeft(v)) <= HighlightedUnitTime(v)
  {
    var unit := 4 * v.simulation.zoom;
    var t := HighlightedUnitTime(v);
    assert v.position == t * unit + v.position % unit;
    assert (t + 1) * unit == t * unit + unit;
    DivMonotone(v.position, ScrollRight(v).position, unit);
    DivMonotone(ScrollLeft(v).position, v.position, unit);
  }

  lemma {:induction false} DivMonotone(a: nat, b: nat, d: nat)
    requires a <= b && d >= 1
    ensures a / d <= b / d
  {
    var q, r := a / d, b / d;
    assert q * d <= a && b < r * d + d;
    MulMonotone(r + 1, q, d);
    assert (r + 1) * d == r * d + d;
  }

  lemma {:induction false} MulMonotone(x: nat, y: nat, d: nat)
    ensures x <= y ==> x * d <= y * d
  {
    if x <= y {
      assert y * d == x * d + (y - x) * d;
    }
  }

  /** The wave viewer component's state object. */
  class WaveViewer {
    var simulation: Models.SimulationSpec
    var selectedIdx: Option<nat>
    var contentLength: nat
    var position: nat
    const waveform: ScrollStates.ScrollState

    function Model(): Viewer
      reads this, waveform
    {
      Viewer(simulation, selectedIdx, contentLength, position, waveform.Model())
    }

    constructor()
      ensures Model() == NewViewer() && fresh(waveform)
    {
      simulation := Models.SimulationSpec([], 0, 0, 0);
      selectedIdx := None;
      contentLength := 0;
      position := 0;
      waveform := new ScrollStates.ScrollState(0);
    }

    method Set(simulation: Models.SimulationSpec)
      modifies this, waveform
      ensures Model() == SetSimulation(old(Model()), simulation)
    {
      this.simulation := simulation;
      if simulation.waveSpecs != [] {
        selectedIdx := Some(0);
        contentLength := (CellsPerUnitTime + simulation.zoom) * |simulation.waveSpecs[0].wave.values|;
        waveform.SetContentLength(contentLength);
      }
    }

    method Right()
      modifies this, waveform
      ensures Model() == ScrollRight(old(Model()))
    {
      waveform.Next();
      if position < contentLength {
        position := position + 1;
      }
    }

    method Left()
      modifies this, waveform
      ensures Model() == ScrollLeft(old(Model()))
    {
      waveform.Prev();
      if position != 0 {
        position := position - 1;
      }
    }

    method Down()
      requires CanScrollDown(Model())
      modifies this
      ensures Model() == ScrollDown(old(Model()))
    {
      if selectedIdx.Some? {
        var next := DropDowns.SelectNext(selectedIdx);
        var last := |simulation.waveSpecs| - 1;
        selectedIdx := Some(if last <= next then last else next);
      }
    }

    method Up()
      modifies this
      ensures Model() == ScrollUp(old(Model()))
    {
      if selectedIdx.Some? {
        var idx := selectedIdx.value;
        selectedIdx := Some(if idx >= 1 then idx - 1 else 0);
      }
    }

    function UnitTime(): nat
      requires simulation.zoom >= 1
      reads this
    {
      position / (CellsPerUnitTime * simulation.zoom)
    }
  }
}
