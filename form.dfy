/**
 * The pop-up form of the terminal front end
 * (oombak_tui/src/widgets/form.rs): a column of named input fields, each
 * an editable line or a drop-down list, followed by Apply and Cancel
 * buttons, one of which, or one field, is highlighted. Keys move the
 * highlight, edit the highlighted line, or work the highlighted list.
 *
 * The form owns its fields, so they are values here: a line field is a
 * CommandLines.Editor and a list field a DropDowns.DropDown, changed by
 * the functions that specify their own state objects' methods.
 */
module Forms {
  import opened Wrappers
  import CommandLines
  import DropDowns
  import ScrollStates

  datatype InputFieldType =
    | CommandLine(editor: CommandLines.Editor)
    | DropDown(dropdown: DropDowns.DropDown)

  datatype InputField = InputField(name: string, inputType: InputFieldType)

  /** What is highlighted: the field at an index, or one of the two buttons. */
  datatype FormHighlight = FieldAt(index: nat) | Apply | Cancel

  datatype Form = Form(inputFields: seq<InputField>, highlight: Option<FormHighlight>)

  /** InputField::text: an empty line field. */
  function TextField(name: string): InputField {
    InputField(name, CommandLine(CommandLines.NewEditor()))
  }

  /** InputField::dropdown: a closed list field with nothing selected. */
  function DropDownField(name: string, items: seq<string>): InputField {
    InputField(name, DropDown(DropDowns.New(items)))
  }

  /**
   * What every operation keeps: something is highlighted exactly when the
   * form has fields, and a highlighted field exists.
   */
  predicate Consistent(f: Form) {
    && (f.highlight.None? <==> f.inputFields == [])
    && (f.highlight.Some? && f.highlight.value.FieldAt? ==> f.highlight.value.index < |f.inputFields|)
  }

  /** Consistent, and every field's own state as its operations keep it. */
  predicate Valid(f: Form) {
    && Consistent(f)
    && forall k :: 0 <= k < |f.inputFields| ==> FieldValid(f.inputFields[k])
  }

  predicate FieldValid(field: InputField) {
    match field.inputType
    case CommandLine(e) => CommandLines.CursorInText(e.line) && ScrollStates.SelectionInView(e.window)
    case DropDown(d) => DropDowns.Valid(d)
  }

  /** FormState::new: the first field highlighted, or nothing for a form without fields. */
  function NewForm(inputFields: seq<InputField>): Form {
    Form(inputFields, if inputFields == [] then None else Some(FieldAt(0)))
  }

  /** The index of the highlighted field, if a field is highlighted. */
  function HighlightedIndex(f: Form): Option<nat> {
    match f.highlight
    case Some(FieldAt(x)) => Some(x)
    case _ => None
  }

  /** is_dropdown: a list field is highlighted. */
  predicate IsDropDown(f: Form)
    requires Consistent(f)
  {
    HighlightedIndex(f).Some? && f.inputFields[HighlightedIndex(f).value].inputType.DropDown?
  }

  /** is_command_line: a line field is highlighted. */
  predicate IsCommandLine(f: Form)
    requires Consistent(f)
  {
    HighlightedIndex(f).Some? && f.inputFields[HighlightedIndex(f).value].inputType.CommandLine?
  }

  predicate IsApply(f: Form) {
    f.highlight == Some(Apply)
  }

  predicate IsCancel(f: Form) {
    f.highlight == Some(Cancel)
  }

  /** A highlighted list field that is opened takes up and down for itself. */
  predicate OpenDropDownHighlighted(f: Form)
    requires Consistent(f)
  {
    IsDropDown(f) && f.inputFields[HighlightedIndex(f).value].inputType.dropdown.isOpened
  }

  /** The form with field `x`'s state replaced. */
  function WithInputType(f: Form, x: nat, t: InputFieldType): Form
    requires x < |f.inputFields|
  {
    f.(inputFields := f.inputFields[x := f.inputFields[x].(inputType := t)])
  }

  /**
   * up: an opened list moves its selection up; otherwise the highlight
   * moves to the field above, stays on the first field, and goes from
   * either button to the last field.
   */
  function Up(f: Form): Form
    requires Consistent(f)
  {
    if OpenDropDownHighlighted(f) then
      var x := HighlightedIndex(f).value;
      WithInputType(f, x, DropDown(DropDowns.Up(f.inputFields[x].inputType.dropdown)))
    else
      match f.highlight
      case None => f
      case Some(FieldAt(x)) => f.(highlight := Some(FieldAt(if x == 0 then 0 else x - 1)))
      case Some(_) => f.(highlight := Some(FieldAt(|f.inputFields| - 1)))
  }

  /**
   * down: an opened list moves its selection down; otherwise the highlight
   * moves to the field below, from the last field to Apply, and from Apply
   * to Cancel, where it stays.
   */
  function Down(f: Form): Form
    requires Consistent(f)
  {
    if OpenDropDownHighlighted(f) then
      var x := HighlightedIndex(f).value;
      WithInputType(f, x, DropDown(DropDowns.Down(f.inputFields[x].inputType.dropdown)))
    else
      match f.highlight
      case None => f
      case Some(FieldAt(x)) =>
        f.(highlight := Some(if x == |f.inputFields| - 1 then Apply else FieldAt(x + 1)))
      case Some(_) => f.(highlight := Some(Cancel))
  }

  /** left: a highlighted line moves its cursor left; between the buttons, Apply. */
  function Left(f: Form): Form
    requires Consistent(f)
  {
    if IsCommandLine(f) then
      var x := HighlightedIndex(f).value;
      WithInputType(f, x, CommandLine(CommandLines.EditorMoveLeft(f.inputFields[x].inputType.editor)))
    else if IsApply(f) || IsCancel(f) then f.(highlight := Some(Apply))
    else f
  }

  /** right: a highlighted line moves its cursor right; between the buttons, Cancel. */
  function Right(f: Form): Form
    requires Consistent(f)
  {
    if IsCommandLine(f) then
      var x := HighlightedIndex(f).value;
      WithInputType(f, x, CommandLine(CommandLines.EditorMoveRight(f.inputFields[x].inputType.editor)))
    else if IsApply(f) || IsCancel(f) then f.(highlight := Some(Cancel))
    else f
  }

  /** put: a character typed into the highlighted line, if a line is highlighted. */
  function Put(f: Form, ch: char): Form
    requires Consistent(f)
  {
    if IsCommandLine(f) then
      var x := HighlightedIndex(f).value;
      WithInputType(f, x, CommandLine(CommandLines.EditorPut(f.inputFields[x].inputType.editor, ch)))
    else f
  }

  /** backspace: the highlighted line loses the character before its cursor. */
  function Backspace(f: Form): Form
    requires Valid(f)
  {
    if IsCommandLine(f) then
      var x := HighlightedIndex(f).value;
      assert FieldValid(f.inputFields[x]);
      WithInputType(f, x, CommandLine(CommandLines.EditorBackspace(f.inputFields[x].inputType.editor)))
    else f
  }

  /** enter: the highlighted list opens if closed and closes if opened. */
  function Enter(f: Form): Form
    requires Consistent(f)
  {
    if IsDropDown(f) then
      var x := HighlightedIndex(f).value;
      var d := f.inputFields[x].inputType.dropdown;
      WithInputType(f, x, DropDown(if d.isOpened then DropDowns.Closed(d) else DropDowns.Opened(d)))
    else f
  }

  /** What a field holds: a line's text, or the list's selected item ("" for none). */
  function Entry(field: InputField): string
    requires field.inputType.DropDown? ==> DropDowns.SelectionInRange(field.inputType.dropdown)
  {
    match field.inputType
    case CommandLine(e) => e.line.text
    case DropDown(d) => match DropDowns.Selected(d) case Some(item) => item case None => ""
  }

  predicate SelectionsInRange(f: Form) {
    forall k :: 0 <= k < |f.inputFields| && f.inputFields[k].inputType.DropDown? ==>
      DropDowns.SelectionInRange(f.inputFields[k].inputType.dropdown)
  }

  /** entries: each field's entry, in order. */
  function Entries(f: Form): (r: seq<string>)
    requires SelectionsInRange(f)
    ensures |r| == |f.inputFields|
    ensures forall k :: 0 <= k < |r| ==> r[k] == Entry(f.inputFields[k])
  {
    seq(|f.inputFields|, k requires 0 <= k < |f.inputFields| && SelectionsInRange(f) => Entry(f.inputFields[k]))
  }

  /** The longest field name in bytes, 0 without fields. */
  function MaxNameLength(fields: seq<InputField>): (n: nat)
    ensures forall k :: 0 <= k < |fields| ==> CommandLines.ByteLength(fields[k].name) <= n
    ensures fields == [] ==> n == 0
    ensures fields != [] ==> exists k :: 0 <= k < |fields| && CommandLines.ByteLength(fields[k].name) == n
    decreases |fields|
  {
    if fields == [] then 0
    else
      var rest := MaxNameLength(fields[1..]);
      var here := CommandLines.ByteLength(fields[0].name);
      if here >= rest then here else rest
  }

  /** The width of the names' column: the longest name and four more. */
  function InputFieldNameWidth(f: Form): nat {
    MaxNameLength(f.inputFields) + 4
  }

  /** Each field is three rows high. */
  function InputFieldsHeight(f: Form): nat {
    3 * |f.inputFields|
  }

  const ConfirmationHeight: nat := 1

  /**
   * The order the highlight moves through: the fields top to bottom, then
   * Apply, then Cancel.
   */
  function Rank(f: Form, h: FormHighlight): nat {
    match h
    case FieldAt(x) => x
    case Apply => |f.inputFields|
    case Cancel => |f.inputFields| + 1
  }

  /** A new form is consistent and highlights its first field, if it has one. */
  lemma {:induction false} NewFormSpec(fields: seq<InputField>)
    ensures Consistent(NewForm(fields))
    ensures (forall k :: 0 <= k < |fields| ==> FieldValid(fields[k])) ==> Valid(NewForm(fields))
    ensures fields != [] ==> HighlightedIndex(NewForm(fields)) == Some(0)
    ensures NewForm(fields).inputFields == fields
  {
  }

  /** New fields start valid: an empty line, and a list without a selection. */
  lemma {:induction false} NewFieldsValid(name: string, items: seq<string>)
    ensures FieldValid(TextField(name)) && FieldValid(DropDownField(name, items))
    ensures Entry(TextField(name)) == "" && Entry(DropDownField(name, items)) == if items == [] then "" else items[0]
  {
  }

  /**
   * Unless an opened list takes the key, down moves the highlight one
   * step along the order, stopping at Cancel, and up moves it one step
   * back among the fields, stopping at the first; from either button up
   * goes to the last field. Neither touches the fields.
   */
  lemma {:induction false} MoveHighlight(f: Form)
    requires Consistent(f) && f.highlight.Some? && !OpenDropDownHighlighted(f)
    ensures Down(f).inputFields == f.inputFields && Up(f).inputFields == f.inputFields
    ensures var r := Rank(f, f.highlight.value);
      && Rank(f, Down(f).highlight.value) == (if r < |f.inputFields| + 1 then r + 1 else r)
      && Rank(f, Up(f).highlight.value) == (if r == 0 then 0 else if r < |f.inputFields| then r - 1 else |f.inputFields| - 1)
  {
  }

  /**
   * An opened list that is highlighted takes up and down: its selection
   * moves, and the highlight and every other field stay.
   */
  lemma {:induction false} OpenDropDownTakesUpDown(f: Form)
    requires Consistent(f) && OpenDropDownHighlighted(f)
    ensures var x := HighlightedIndex(f).value;
      var d := f.inputFields[x].inputType.dropdown;
      && Down(f).highlight == f.highlight && Up(f).highlight == f.highlight
      && Down(f).inputFields[x] == f.inputFields[x].(inputType := DropDown(DropDowns.Down(d)))
      && Up(f).inputFields[x] == f.inputFields[x].(inputType := DropDown(DropDowns.Up(d)))
      && |Down(f).inputFields| == |f.inputFields| == |Up(f).inputFields|
      && (forall k :: 0 <= k < |f.inputFields| && k != x ==>
            Down(f).inputFields[k] == f.inputFields[k] && Up(f).inputFields[k] == f.inputFields[k])
  {
  }

  /**
   * Left and right move between the buttons, or the cursor of the
   * highlighted line; on a list field they do nothing.
   */
  lemma {:induction false} LeftRightSpec(f: Form)
    requires Consistent(f)
    ensures IsApply(f) || IsCancel(f) ==> IsApply(Left(f)) && IsCancel(Right(f)) && Left(f).inputFields == f.inputFields
    ensures IsCancel(Right(f)) <==> IsApply(f) || IsCancel(f)
    ensures IsDropDown(f) ==> Left(f) == f && Right(f) == f
    ensures IsCommandLine(f) ==> Left(f).highlight == f.highlight && Right(f).highlight == f.highlight
  {
  }

  /**
   * Typing changes only the highlighted line, and typing then deleting
   * leaves its text and cursor as they were; with no line highlighted,
   * typing and deleting change nothing.
   */
  lemma {:induction false} EditSpec(f: Form, ch: char)
    requires Valid(f)
    ensures !IsCommandLine(f) ==> Put(f, ch) == f && Backspace(f) == f
    ensures IsCommandLine(f) ==>
      var x := HighlightedIndex(f).value;
      && Put(f, ch).highlight == f.highlight
      && |Put(f, ch).inputFields| == |f.inputFields|
      && Put(f, ch).inputFields[x].name == f.inputFields[x].name
      && (forall k :: 0 <= k < |f.inputFields| && k != x ==> Put(f, ch).inputFields[k] == f.inputFields[k])
      && Valid(Put(f, ch))
      && Backspace(Put(f, ch)).inputFields[x].inputType.editor.line == f.inputFields[x].inputType.editor.line
  {
    if IsCommandLine(f) {
      var x := HighlightedIndex(f).value;
      assert FieldValid(f.inputFields[x]);
      var e := f.inputFields[x].inputType.editor;
      CommandLines.EditorSpec(e, ch);
      var e2 := CommandLines.EditorPut(e, ch);
      ScrollStates.SetLengthSpec(e.window, CommandLines.ByteLength(e2.line.text));
      ScrollStates.NextSpec(ScrollStates.WithContentLength(e.window, CommandLines.ByteLength(e2.line.text)));
      FieldsValidAfter(f, x, CommandLine(e2));
      var g := Put(f, ch);
      assert g == WithInputType(f, x, CommandLine(e2));
      assert IsCommandLine(g) && HighlightedIndex(g) == Some(x);
      assert g.inputFields[x].inputType.editor == e2;
    }
  }

  /** enter toggles the highlighted list, and twice leaves it opened or closed as it was. */
  lemma {:induction false} EnterSpec(f: Form)
    requires Consistent(f)
    ensures !IsDropDown(f) ==> Enter(f) == f
    ensures IsDropDown(f) ==>
      var x := HighlightedIndex(f).value;
      && Consistent(Enter(f)) && Enter(f).highlight == f.highlight
      && Enter(f).inputFields[x].inputType.dropdown.isOpened == !f.inputFields[x].inputType.dropdown.isOpened
      && Enter(Enter(f)).inputFields[x].inputType.dropdown.isOpened == f.inputFields[x].inputType.dropdown.isOpened
  {
  }

  /** Every key keeps the form valid. */
  lemma {:induction false} OperationsKeepValid(f: Form, ch: char)
    requires Valid(f)
    ensures Valid(Up(f)) && Valid(Down(f)) && Valid(Left(f)) && Valid(Right(f))
    ensures Valid(Put(f, ch)) && Valid(Backspace(f)) && Valid(Enter(f))
  {
    EditSpec(f, ch);
    match HighlightedIndex(f)
    case None =>
    case Some(x) =>
      assert FieldValid(f.inputFields[x]);
      match f.inputFields[x].inputType
      case DropDown(d) =>
        DropDowns.DownUpSpec(d);
        DropDowns.OpenCloseSpec(d);
        FieldsValidAfter(f, x, DropDown(DropDowns.Up(d)));
        FieldsValidAfter(f, x, DropDown(DropDowns.Down(d)));
        FieldsValidAfter(f, x, DropDown(DropDowns.Opened(d)));
        FieldsValidAfter(f, x, DropDown(DropDowns.Closed(d)));
      case CommandLine(e) =>
        CommandLines.EditorSpec(e, ch);
        ScrollStates.NextSpec(e.window);
        ScrollStates.PrevSpec(e.window);
        FieldsValidAfter(f, x, CommandLine(CommandLines.EditorMoveLeft(e)));
        FieldsValidAfter(f, x, CommandLine(CommandLines.EditorMoveRight(e)));
        if e.line.cursor >= 1 {
          var l := CommandLines.BackspaceLine(e.line);
          ScrollStates.SetLengthSpec(e.window, CommandLines.ByteLength(l.text));
          ScrollStates.PrevSpec(ScrollStates.WithContentLength(e.window, CommandLines.ByteLength(l.text)));
        }
        FieldsValidAfter(f, x, CommandLine(CommandLines.EditorBackspace(e)));
  }

  lemma {:induction false} FieldsValidAfter(f: Form, x: nat, t: InputFieldType)
    requires Valid(f) && x < |f.inputFields| && FieldValid(InputField(f.inputFields[x].name, t))
    ensures Valid(WithInputType(f, x, t))
  {
    var g := WithInputType(f, x, t);
    assert forall k :: 0 <= k < |g.inputFields| ==> FieldValid(g.inputFields[k]) by {
      forall k | 0 <= k < |g.inputFields| ensures FieldValid(g.inputFields[k]) {
        if k != x {
          assert g.inputFields[k] == f.inputFields[k];
        }
      }
    }
  }

  /** The form's state object. */
  class FormState {
    var inputFields: seq<InputField>
    var highlight: Option<FormHighlight>

    function Model(): Form
      reads this
    {
      Form(inputFields, highlight)
    }

    constructor(inputFields: seq<InputField>)
      ensures Model() == NewForm(inputFields)
    {
      this.inputFields := inputFields;
      highlight := if inputFields == [] then None else Some(FieldAt(0));
    }

    /** The highlighted list field's index, if a list field is highlighted. */
    method TryGetDropDownFromSelected() returns (r: Option<nat>)
      requires Consistent(Model())
      ensures r.Some? <==> IsDropDown(Model())
      ensures r.Some? ==> HighlightedIndex(Model()) == r
    {
      r := None;
      if highlight.Some? && highlight.value.FieldAt? {
        var x := highlight.value.index;
        if inputFields[x].inputType.DropDown? {
          r := Some(x);
        }
      }
    }

    /** The highlighted line field's index, if a line field is highlighted. */
    method TryGetCommandLineFromSelected() returns (r: Option<nat>)
      requires Consistent(Model())
      ensures r.Some? <==> IsCommandLine(Model())
      ensures r.Some? ==> HighlightedIndex(Model()) == r
    {
      r := None;
      if highlight.Some? && highlight.value.FieldAt? {
        var x := highlight.value.index;
        if inputFields[x].inputType.CommandLine? {
          r := Some(x);
        }
      }
    }

    method SetInputType(x: nat, t: InputFieldType)
      requires x < |inputFields|
      modifies this
      ensures Model() == WithInputType(old(Model()), x, t)
    {
      inputFields := inputFields[x := inputFields[x].(inputType := t)];
    }

    method MoveUp()
      requires Consistent(Model())
      modifies this
      ensures Model() == Up(old(Model()))
    {
      var dropdown := TryGetDropDownFromSelected();
      if dropdown.Some? {
        var d := inputFields[dropdown.value].inputType.dropdown;
        if d.isOpened {
          SetInputType(dropdown.value, DropDown(DropDowns.Up(d)));
          return;
        }
      }
      match highlight
      case None =>
      case Some(FieldAt(x)) => highlight := Some(FieldAt(if x == 0 then 0 else x - 1));
      case Some(_) => highlight := Some(FieldAt(|inputFields| - 1));
    }

    method MoveDown()
      requires Consistent(Model())
      modifies this
      ensures Model() == Down(old(Model()))
    {
      var dropdown := TryGetDropDownFromSelected();
      if dropdown.Some? {
        var d := inputFields[dropdown.value].inputType.dropdown;
        if d.isOpened {
          SetInputType(dropdown.value, DropDown(DropDowns.Down(d)));
          return;
        }
      }
      match highlight
      case None =>
      case Some(FieldAt(x)) =>
        highlight := Some(if x == |inputFields| - 1 then Apply else FieldAt(x + 1));
      case Some(_) => highlight := Some(Cancel);
    }

    method MoveLeft()
      requires Consistent(Model())
      modifies this
      ensures Model() == Left(old(Model()))
    {
      var line := TryGetCommandLineFromSelected();
      if line.Some? {
        SetInputType(line.value, CommandLine(CommandLines.EditorMoveLeft(inputFields[line.value].inputType.editor)));
        return;
      }
      if highlight == Some(Apply) || highlight == Some(Cancel) {
        highlight := Some(Apply);
      }
    }

    method MoveRight()
      requires Consistent(Model())
      modifies this
      ensures Model() == Right(old(Model()))
    {
      var line := TryGetCommandLineFromSelected();
      if line.Some? {
        SetInputType(line.value, CommandLine(CommandLines.EditorMoveRight(inputFields[line.value].inputType.editor)));
        return;
      }
      if highlight == Some(Apply) || highlight == Some(Cancel) {
        highlight := Some(Cancel);
      }
    }

    method PutChar(ch: char)
      requires Consistent(Model())
      modifies this
      ensures Model() == Put(old(Model()), ch)
    {
      var line := TryGetCommandLineFromSelected();
      if line.Some? {
        SetInputType(line.value, CommandLine(CommandLines.EditorPut(inputFields[line.value].inputType.editor, ch)));
      }
    }

    method DeleteChar()
      requires Valid(Model())
      modifies this
      ensures Model() == Backspace(old(Model()))
    {
      var line := TryGetCommandLineFromSelected();
      if line.Some? {
        assert FieldValid(inputFields[line.value]);
        SetInputType(line.value, CommandLine(CommandLines.EditorBackspace(inputFields[line.value].inputType.editor)));
      }
    }

    method PressEnter()
      requires Consistent(Model())
      modifies this
      ensures Model() == Enter(old(Model()))
    {
      var dropdown := TryGetDropDownFromSelected();
      if dropdown.Some? {
        var d := inputFields[dropdown.value].inputType.dropdown;
        SetInputType(dropdown.value, DropDown(if d.isOpened then DropDowns.Closed(d) else DropDowns.Opened(d)));
      }
    }
  }
}
