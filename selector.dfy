/**
 * The pop-up selector of the terminal front end
 * (oombak_tui/src/components/selector.rs): a titled list of named entries,
 * each standing for a component and enabled or disabled; Enter on an
 * enabled entry gives that component the focus.
 */
module Selectors {
  import opened Wrappers
  import KeyMaps
  import DropDowns
  import CommandLines

  /** What a component reports after handling an event. */
  datatype HandleResult = Handled | NotHandled | ReleaseFocus

  /** An entry: its name, the component it opens (by identity), and whether it is disabled. */
  datatype Selection = Selection(name: string, component: nat, disabled: bool)

  /** The selector's state: entries, title, the list's selection and the focused entry. */
  datatype SelectorView = SelectorView(
    selection: seq<Selection>,
    title: string,
    selected: Option<nat>,
    child: Option<nat>)

  /** Selection::new: a new entry is disabled. */
  function NewSelection(name: string, component: nat): Selection {
    Selection(name, component, true)
  }

  function NewSelector(selection: seq<Selection>): SelectorView {
    SelectorView(selection, "", None, None)
  }

  /** The flag of the entry at `idx` set, and whether there was such an entry. */
  function SetDisabled(s: SelectorView, idx: nat, disabled: bool): (bool, SelectorView) {
    if idx < |s.selection| then
      (true, s.(selection := s.selection[idx := s.selection[idx].(disabled := disabled)]))
    else (false, s)
  }

  function EnableSelection(s: SelectorView, idx: nat): (bool, SelectorView) {
    SetDisabled(s, idx, false)
  }

  function DisableSelection(s: SelectorView, idx: nat): (bool, SelectorView) {
    SetDisabled(s, idx, true)
  }

  /** The selector's own key bindings. */
  function SelectorKeyMaps(): KeyMaps.Mappings {
    map[
      KeyMaps.FromChar('q') := KeyMaps.DescFrom("Close window"),
      KeyMaps.FromChar('k') := KeyMaps.DescFrom("Move cursor up"),
      KeyMaps.FromCode(KeyMaps.Up) := KeyMaps.DescFrom("Move cursor up"),
      KeyMaps.FromChar('j') := KeyMaps.DescFrom("Move cursor down"),
      KeyMaps.FromCode(KeyMaps.Down) := KeyMaps.DescFrom("Move cursor down"),
      KeyMaps.FromCode(KeyMaps.Enter) := KeyMaps.DescFrom("Select highlighted")
    ]
  }

  /** Enter indexes the entries with the list's selection, so it must name one. */
  predicate CanHandle(s: SelectorView, code: KeyMaps.KeyCode) {
    code == KeyMaps.Enter && s.selected.Some? ==> s.selected.value < |s.selection|
  }

  /** The entry Enter focuses: the selected entry if it is enabled, otherwise none. */
  function EnterChild(s: SelectorView): Option<nat>
    requires s.selected.Some? ==> s.selected.value < |s.selection|
  {
    if s.selected.Some? && !s.selection[s.selected.value].disabled then s.selected else None
  }

  /**
   * handle_key_event: up and k move the selection up, down and j move it
   * down, Enter focuses the selected entry if enabled, q gives the focus
   * back; every other key is handled by doing nothing.
   */
  function HandleKey(s: SelectorView, code: KeyMaps.KeyCode): (HandleResult, SelectorView)
    requires CanHandle(s, code)
  {
    if code == KeyMaps.Up || code == KeyMaps.Char('k') then
      (Handled, s.(selected := Some(DropDowns.SelectPrevious(s.selected))))
    else if code == KeyMaps.Down || code == KeyMaps.Char('j') then
      (Handled, s.(selected := Some(DropDowns.SelectNext(s.selected))))
    else if code == KeyMaps.Enter then
      (Handled, s.(child := EnterChild(s)))
    else if code == KeyMaps.Char('q') then
      (ReleaseFocus, s)
    else
      (Handled, s)
  }

  /** handle_focus_gained: the focused entry is forgotten and the focus passed on. */
  function FocusGained(s: SelectorView): (HandleResult, SelectorView) {
    (ReleaseFocus, s.(child := None))
  }

  /** get_focused_child: the focused entry's component. */
  function FocusedChild(s: SelectorView): Option<nat>
    requires s.child.Some? ==> s.child.value < |s.selection|
  {
    match s.child
    case Some(i) => Some(s.selection[i].component)
    case None => None
  }

  /** try_select_default_item: the first entry when nothing is selected. */
  function SelectDefault(s: SelectorView): SelectorView {
    if s.selected.None? then s.(selected := Some(0)) else s
  }

  /** The longest entry name in bytes, 0 without entries. */
  function MaxSelectionTextWidth(selection: seq<Selection>): (n: nat)
    ensures forall k :: 0 <= k < |selection| ==> CommandLines.ByteLength(selection[k].name) <= n
    ensures selection == [] ==> n == 0
    ensures selection != [] ==> exists k :: 0 <= k < |selection| && CommandLines.ByteLength(selection[k].name) == n
    decreases |selection|
  {
    if selection == [] then 0
    else
      var rest := MaxSelectionTextWidth(selection[1..]);
      var here := CommandLines.ByteLength(selection[0].name);
      if here >= rest then here else rest
  }

  /** max_content_width: the title or the longest name, whichever is longer, and ten more. */
  function MaxContentWidth(s: SelectorView): nat {
    var titleLength := CommandLines.ByteLength(s.title);
    var longest := MaxSelectionTextWidth(s.selection);
    (if titleLength >= longest then titleLength else longest) + 10
  }

  /**
   * The content is ten wider than the title and every name, and exactly
   * ten wider than the title or one of the names.
   */
  lemma {:induction false} MaxContentWidthSpec(s: SelectorView)
    ensures MaxContentWidth(s) >= CommandLines.ByteLength(s.title) + 10
    ensures forall k :: 0 <= k < |s.selection| ==> MaxContentWidth(s) >= CommandLines.ByteLength(s.selection[k].name) + 10
    ensures MaxContentWidth(s) == CommandLines.ByteLength(s.title) + 10
      || exists k :: 0 <= k < |s.selection| && MaxContentWidth(s) == CommandLines.ByteLength(s.selection[k].name) + 10
  {
  }

  /**
   * enable_selection and disable_selection: false and no change for an
   * index past the entries; otherwise true, with only that entry's flag
   * set. Disabling undoes enabling a disabled entry, and enabling undoes
   * disabling an enabled one.
   */
  lemma {:induction false} SetDisabledSpec(s: SelectorView, idx: nat, disabled: bool)
    ensures SetDisabled(s, idx, disabled).0 <==> idx < |s.selection|
    ensures !SetDisabled(s, idx, disabled).0 ==> SetDisabled(s, idx, disabled).1 == s
    ensures var r := SetDisabled(s, idx, disabled).1;
      && r.title == s.title && r.selected == s.selected && r.child == s.child
      && |r.selection| == |s.selection|
      && (forall k :: 0 <= k < |s.selection| && k != idx ==> r.selection[k] == s.selection[k])
      && (idx < |s.selection| ==>
            r.selection[idx].disabled == disabled
            && r.selection[idx].name == s.selection[idx].name
            && r.selection[idx].component == s.selection[idx].component)
    ensures idx < |s.selection| && s.selection[idx].disabled ==> DisableSelection(EnableSelection(s, idx).1, idx).1 == s
    ensures idx < |s.selection| && !s.selection[idx].disabled ==> EnableSelection(DisableSelection(s, idx).1, idx).1 == s
  {
  }

  /**
   * Enter focuses the selected entry exactly when it is enabled, and the
   * focused component is then that entry's; otherwise nothing is focused.
   * Regaining the focus forgets the focused entry.
   */
  lemma {:induction false} FocusSpec(s: SelectorView)
    requires s.selected.Some? ==> s.selected.value < |s.selection|
    ensures var r := HandleKey(s, KeyMaps.Enter);
      && r.0 == Handled
      && (r.1.child.Some? <==> s.selected.Some? && !s.selection[s.selected.value].disabled)
      && (r.1.child.Some? ==>
            r.1.child == s.selected && FocusedChild(r.1) == Some(s.selection[s.selected.value].component))
      && r.1.selection == s.selection && r.1.selected == s.selected
    ensures FocusGained(s).0 == ReleaseFocus && FocusGained(s).1.child == None
    ensures FocusedChild(FocusGained(s).1) == None
  {
  }

  /**
   * The movement keys move the list's selection and nothing else; q gives
   * the focus back and changes nothing; the help bar lists every key the
   * selector reacts to.
   */
  lemma {:induction false} KeysSpec(s: SelectorView)
    requires DropDowns.Valid(DropDowns.DropDown([], false, s.selected))
    ensures HandleKey(s, KeyMaps.Down).1 == HandleKey(s, KeyMaps.Char('j')).1
      == s.(selected := Some(DropDowns.SelectNext(s.selected)))
    ensures HandleKey(s, KeyMaps.Up).1 == HandleKey(s, KeyMaps.Char('k')).1
      == s.(selected := Some(DropDowns.SelectPrevious(s.selected)))
    ensures s.selected.Some? && s.selected.value < DropDowns.UsizeMax ==>
      HandleKey(HandleKey(s, KeyMaps.Down).1, KeyMaps.Up).1 == s
    ensures HandleKey(s, KeyMaps.Char('q')) == (ReleaseFocus, s)
    ensures var keys := SelectorKeyMaps();
      && KeyMaps.FromCode(KeyMaps.Up) in keys && KeyMaps.FromCode(KeyMaps.Down) in keys
      && KeyMaps.FromCode(KeyMaps.Enter) in keys && KeyMaps.FromChar('j') in keys
      && KeyMaps.FromChar('k') in keys && KeyMaps.FromChar('q') in keys
  {
  }

  /** The selector component's state object. */
  class Selector {
    var selection: seq<Selection>
    var title: string
    var selected: Option<nat>
    var child: Option<nat>

    function Model(): SelectorView
      reads this
    {
      SelectorView(selection, title, selected, child)
    }

    constructor(selection: seq<Selection>)
      ensures Model() == NewSelector(selection)
    {
      this.selection := selection;
      title := "";
      selected := None;
      child := None;
    }

    method SetTitle(title: string)
      modifies this
      ensures Model() == old(Model()).(title := title)
    {
      this.title := title;
    }

    method SetSelection(selection: seq<Selection>)
      modifies this
      ensures Model() == old(Model()).(selection := selection)
    {
      this.selection := selection;
    }

    method Enable(idx: nat) returns (found: bool)
      modifies this
      ensures (found, Model()) == EnableSelection(old(Model()), idx)
    {
      if idx < |selection| {
        selection := selection[idx := selection[idx].(disabled := false)];
        found := true;
      } else {
        found := false;
      }
    }

    method Disable(idx: nat) returns (found: bool)
      modifies this
      ensures (found, Model()) == DisableSelection(old(Model()), idx)
    {
      if idx < |selection| {
        selection := selection[idx := selection[idx].(disabled := true)];
        found := true;
      } else {
        found := false;
      }
    }

    method TrySelectDefaultItem()
      modifies this
      ensures Model() == SelectDefault(old(Model()))
    {
      if selected.None? {
        selected := Some(0);
      }
    }

    method HandleKeyEvent(code: KeyMaps.KeyCode) returns (r: HandleResult)
      requires CanHandle(Model(), code)
      modifies this
      ensures (r, Model()) == HandleKey(old(Model()), code)
    {
      if code == KeyMaps.Up || code == KeyMaps.Char('k') {
        selected := Some(DropDowns.SelectPrevious(selected));
      } else if code == KeyMaps.Down || code == KeyMaps.Char('j') {
        selected := Some(DropDowns.SelectNext(selected));
      } else if code == KeyMaps.Enter {
        if selected.Some? && !selection[selected.value].disabled {
          child := selected;
        } else {
          child := None;
        }
      } else if code == KeyMaps.Char('q') {
        return ReleaseFocus;
      }
      return Handled;
    }

    method HandleFocusGained() returns (r: HandleResult)
      modifies this
      ensures (r, Model()) == FocusGained(old(Model()))
    {
      child := None;
      return ReleaseFocus;
    }
  }
}
