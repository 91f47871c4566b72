/**
 * The drop-down list of the terminal front end
 * (oombak_tui/src/widgets/dropdown.rs): a list of items, whether it is
 * opened, and the list's selection, which moves the way the list widget's
 * selection does (select_next, select_previous).
 */
module DropDowns {
  import opened Wrappers

  /** usize::MAX on the 64-bit targets the front end is built for. */
  const UsizeMax: nat := 0xFFFF_FFFF_FFFF_FFFF

  const IndexOutOfRangeMessage := "Index out of range"

  datatype DropDown = DropDown(items: seq<string>, isOpened: bool, selected: Option<nat>)

  /** The selection is an index the list can hold: at most usize::MAX. */
  predicate Valid(d: DropDown) {
    d.selected.Some? ==> d.selected.value <= UsizeMax
  }

  /** The selection, if any, names an item. */
  predicate SelectionInRange(d: DropDown) {
    d.selected.Some? ==> d.selected.value < |d.items|
  }

  /** The item index selected() reads: the selection, or 0 without one. */
  function SelectedIndex(d: DropDown): nat {
    match d.selected
    case Some(i) => i
    case None => 0
  }

  function New(items: seq<string>): DropDown {
    DropDown(items, false, None)
  }

  /**
   * selected: no item for an empty list, otherwise the item at the
   * selection or the first item. The source unwraps the item lookup, so
   * the selection must name an item.
   */
  function Selected(d: DropDown): Option<string>
    requires SelectionInRange(d)
  {
    if d.items != [] then Some(d.items[SelectedIndex(d)]) else None
  }

  /** open: opened, with the first item selected when nothing was. */
  function Opened(d: DropDown): DropDown {
    d.(isOpened := true, selected := if d.selected.None? then Some(0) else d.selected)
  }

  function Closed(d: DropDown): DropDown {
    d.(isOpened := false)
  }

  /** The list selection's select_next: the next index, saturating at usize::MAX; the first without one. */
  function SelectNext(selected: Option<nat>): nat {
    match selected
    case None => 0
    case Some(i) => if i < UsizeMax then i + 1 else UsizeMax
  }

  /** The list selection's select_previous: the previous index, stopping at 0; usize::MAX without one. */
  function SelectPrevious(selected: Option<nat>): nat {
    match selected
    case None => UsizeMax
    case Some(i) => if i >= 1 then i - 1 else 0
  }

  /** down: the selection's select_next. */
  function Down(d: DropDown): DropDown {
    d.(selected := Some(SelectNext(d.selected)))
  }

  /** up: the selection's select_previous. */
  function Up(d: DropDown): DropDown {
    d.(selected := Some(SelectPrevious(d.selected)))
  }

  /** select: the given index becomes the selection, or an error when it names no item. */
  function Select(d: DropDown, idx: nat): Result<DropDown, string> {
    if idx >= |d.items| then Err(IndexOutOfRangeMessage) else Ok(d.(selected := Some(idx)))
  }

  /** A new list is closed with nothing selected, and shows its first item if it has one. */
  lemma {:induction false} NewSpec(items: seq<string>)
    ensures !New(items).isOpened && New(items).selected == None && New(items).items == items
    ensures Valid(New(items)) && SelectionInRange(New(items))
    ensures Selected(New(items)) == if items == [] then None else Some(items[0])
  {
  }

  /**
   * selected gives nothing exactly for an empty list, and otherwise an
   * item of the list: the selected one, or the first without a selection.
   */
  lemma {:induction false} SelectedSpec(d: DropDown)
    requires SelectionInRange(d)
    ensures Selected(d).None? <==> d.items == []
    ensures Selected(d).Some? ==> Selected(d).value in d.items
    ensures d.selected.Some? ==> Selected(d) == Some(d.items[d.selected.value])
    ensures d.selected.None? && d.items != [] ==> Selected(d) == Some(d.items[0])
  {
  }

  /**
   * select fails exactly for an index past the items and then changes
   * nothing; otherwise only the selection changes, and selected then gives
   * that item.
   */
  lemma {:induction false} SelectSpec(d: DropDown, idx: nat)
    ensures Select(d, idx) == Err(IndexOutOfRangeMessage) <==> idx >= |d.items|
    ensures Select(d, idx).Ok? ==>
      var r := Select(d, idx).value;
      && r.items == d.items && r.isOpened == d.isOpened && r.selected == Some(idx)
      && SelectionInRange(r) && Selected(r) == Some(d.items[idx])
  {
  }

  /**
   * open and close change only the flag, except that opening selects the
   * first item when nothing is selected; opening twice is opening once, and
   * closing after opening keeps the selection opening made.
   */
  lemma {:induction false} OpenCloseSpec(d: DropDown)
    ensures Opened(d).isOpened && !Closed(d).isOpened
    ensures Opened(d).items == d.items && Closed(d).items == d.items
    ensures Opened(d).selected == if d.selected.None? then Some(0) else d.selected
    ensures Closed(d).selected == d.selected
    ensures Opened(Opened(d)) == Opened(d)
    ensures Closed(Opened(d)).selected == Opened(d).selected
    ensures Valid(d) ==> Valid(Opened(d)) && Valid(Closed(d))
    ensures SelectionInRange(d) && d.items != [] ==> SelectionInRange(Opened(d))
  {
  }

  /**
   * down and up move the selection by one within the list: up undoes down,
   * and down undoes up away from the first item; neither leaves the
   * index range of usize or changes the items or the flag. Up without a
   * selection selects usize::MAX, which names no item.
   */
  lemma {:induction false} DownUpSpec(d: DropDown)
    requires Valid(d)
    ensures Valid(Down(d)) && Valid(Up(d))
    ensures Down(d).items == d.items && Down(d).isOpened == d.isOpened
    ensures Up(d).items == d.items && Up(d).isOpened == d.isOpened
    ensures d.selected.Some? && d.selected.value < UsizeMax ==> Up(Down(d)) == d
    ensures d.selected.Some? && d.selected.value >= 1 ==> Down(Up(d)) == d
    ensures d.selected.Some? && d.selected.value + 1 < |d.items| ==> SelectionInRange(Down(d))
    ensures SelectionInRange(d) && |d.items| <= UsizeMax ==> (d.selected.Some? <==> SelectionInRange(Up(d)))
  {
  }

  /** The list's state object. */
  class DropDownState {
    var items: seq<string>
    var isOpened: bool
    var selected: Option<nat>

    function Model(): DropDown
      reads this
    {
      DropDown(items, isOpened, selected)
    }

    constructor(items: seq<string>)
      ensures Model() == New(items)
    {
      this.items := items;
      isOpened := false;
      selected := None;
    }

    function SelectedItem(): Option<string>
      requires SelectionInRange(Model())
      reads this
    {
      Selected(Model())
    }

    method Open()
      modifies this
      ensures Model() == Opened(old(Model()))
    {
      isOpened := true;
      if selected.None? {
        selected := Some(0);
      }
    }

    method Close()
      modifies this
      ensures Model() == Closed(old(Model()))
    {
      isOpened := false;
    }

    method MoveDown()
      modifies this
      ensures Model() == Down(old(Model()))
    {
      selected := Some(SelectNext(selected));
    }

    method MoveUp()
      modifies this
      ensures Model() == Up(old(Model()))
    {
      selected := Some(SelectPrevious(selected));
    }

    method SelectIndex(idx: nat) returns (r: Result<(), string>)
      modifies this
      ensures Select(old(Model()), idx).Err? ==> r == Err(IndexOutOfRangeMessage) && Model() == old(Model())
      ensures Select(old(Model()), idx).Ok? ==> r == Ok(()) && Model() == Select(old(Model()), idx).value
    {
      if idx >= |items| {
        return Err(IndexOutOfRangeMessage);
      }
      selected := Some(idx);
      return Ok(());
    }
  }
}
