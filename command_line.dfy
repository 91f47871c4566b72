/**
 * The editable command line of the terminal front end
 * (oombak_tui/src/widgets/command_line.rs): a text, a cursor counted in
 * characters, and the scroll window that follows the cursor. The text is
 * UTF-8 in the source; here it is a sequence of characters, with the byte
 * length of each written out where the source counts bytes.
 */
module CommandLines {
  import opened Wrappers
  import opened ScrollStates

  /** The number of bytes UTF-8 uses for a character. */
  function Utf8Length(c: char): (n: nat)
    ensures 1 <= n <= 4
  {
    if c as int < 0x80 then 1
    else if c as int < 0x800 then 2
    else if c as int < 0x1_0000 then 3
    else 4
  }

  /** str::len: the text's length in bytes. */
  function ByteLength(s: string): (n: nat)
    ensures |s| <= n
    decreases |s|
  {
    if s == [] then 0 else Utf8Length(s[0]) + ByteLength(s[1..])
  }

  predicate IsAscii(s: string) {
    forall i :: 0 <= i < |s| ==> s[i] as int < 0x80
  }

  /**
   * get_utf8_index: walking the characters with their byte offsets, the
   * offset of character `n`, or None past the last character.
   */
  function GetUtf8Index(s: string, n: nat): Option<nat>
    decreases |s|
  {
    if s == [] then None
    else if n == 0 then Some(0)
    else
      match GetUtf8Index(s[1..], n - 1)
      case None => None
      case Some(i) => Some(Utf8Length(s[0]) + i)
  }

  lemma {:induction false} AsciiByteLength(s: string)
    requires IsAscii(s)
    ensures ByteLength(s) == |s|
    decreases |s|
  {
    if s != [] {
      AsciiByteLength(s[1..]);
    }
  }

  /**
   * Character `n` has an offset exactly when the text has more than `n`
   * characters, and the offset is the byte length of the characters
   * before it: `n` itself for ASCII text.
   */
  lemma {:induction false} GetUtf8IndexSpec(s: string, n: nat)
    ensures GetUtf8Index(s, n).Some? <==> n < |s|
    ensures n < |s| ==> GetUtf8Index(s, n) == Some(ByteLength(s[..n]))
    ensures n < |s| && IsAscii(s) ==> GetUtf8Index(s, n) == Some(n)
    decreases |s|
  {
    if s != [] && n > 0 {
      GetUtf8IndexSpec(s[1..], n - 1);
      if n < |s| {
        assert s[..n] == [s[0]] + s[1..][..n - 1];
        assert s[..n][1..] == s[1..][..n - 1];
      }
    }
    if n < |s| && IsAscii(s) {
      AsciiByteLength(s[..n]);
    }
  }

  /** What the editing operations act on: the text and the cursor. */
  datatype Line = Line(text: string, cursor: nat)

  /** The cursor is on a character of the text or just after the last. */
  predicate CursorInText(l: Line) {
    l.cursor <= |l.text|
  }

  /** Where put inserts: at the cursor, or at the end when the cursor is past it. */
  function InsertionPoint(l: Line): nat {
    if l.cursor < |l.text| then l.cursor else |l.text|
  }

  function PutLine(l: Line, ch: char): Line {
    var p := InsertionPoint(l);
    Line(l.text[..p] + [ch] + l.text[p..], l.cursor + 1)
  }

  /**
   * backspace: the character before the cursor removed and the cursor
   * moved back onto its place; nothing at the start of the line. The
   * source unwraps that character's offset, so it must exist.
   */
  function BackspaceLine(l: Line): Line
    requires l.cursor == 0 || l.cursor - 1 < |l.text|
  {
    if l.cursor >= 1 then Line(l.text[..l.cursor - 1] + l.text[l.cursor..], l.cursor - 1) else l
  }

  /** move_cursor_right as written: bounded by the text's length in bytes. */
  function AsWrittenMoveRight(l: Line): Line {
    if l.cursor < ByteLength(l.text) then l.(cursor := l.cursor + 1) else l
  }

  /** move_cursor_right bounded by the text's length in characters. */
  function MoveRight(l: Line): Line {
    if l.cursor < |l.text| then l.(cursor := l.cursor + 1) else l
  }

  function MoveLeft(l: Line): Line {
    l.(cursor := SatSub(l.cursor, 1))
  }

  function Cleared(): Line {
    Line([], 0)
  }

  /**
   * put inserts the character at the insertion point, keeping the text
   * before and after it in place, and moves the cursor past it.
   */
  lemma {:induction false} PutSpec(l: Line, ch: char)
    requires CursorInText(l)
    ensures var r := PutLine(l, ch);
      && |r.text| == |l.text| + 1 && r.cursor == l.cursor + 1 && CursorInText(r)
      && r.text[l.cursor] == ch
      && r.text[..l.cursor] == l.text[..l.cursor]
      && r.text[l.cursor + 1..] == l.text[l.cursor..]
  {
  }

  /** put followed by backspace restores the text and the cursor. */
  lemma {:induction false} PutThenBackspace(l: Line, ch: char)
    requires CursorInText(l)
    ensures BackspaceLine(PutLine(l, ch)) == l
  {
    var r := PutLine(l, ch);
    assert r.text[..l.cursor] + r.text[l.cursor + 1..] == l.text;
  }

  /** Every operation keeps the cursor within the text, and clear starts afresh. */
  lemma {:induction false} CursorStaysInText(l: Line, ch: char)
    requires CursorInText(l)
    ensures CursorInText(PutLine(l, ch)) && CursorInText(BackspaceLine(l))
    ensures CursorInText(MoveRight(l)) && CursorInText(MoveLeft(l)) && CursorInText(Cleared())
    ensures l.cursor >= 1 ==> |BackspaceLine(l).text| == |l.text| - 1
    ensures l.cursor == 0 ==> BackspaceLine(l) == l
    ensures MoveRight(l).text == l.text && MoveLeft(l).text == l.text
    ensures MoveRight(l).cursor == if l.cursor < |l.text| then l.cursor + 1 else l.cursor
    ensures MoveLeft(l).cursor == SatSub(l.cursor, 1)
  {
  }

  /** On ASCII text the byte bound is the character bound. */
  lemma {:induction false} AsciiMoveRightAgrees(l: Line)
    requires IsAscii(l.text)
    ensures AsWrittenMoveRight(l) == MoveRight(l)
  {
    AsciiByteLength(l.text);
  }

  /**
   * "é" is one character of two bytes: with the cursor after it, the
   * byte-bounded move right takes the cursor past the text, and then the
   * character before the cursor has no offset, so backspace's unwrap
   * fails. The character bound keeps the cursor where it is.
   */
  lemma {:induction false} MoveRightPastMultiByte()
    ensures AsWrittenMoveRight(Line("é", 1)) == Line("é", 2)
    ensures GetUtf8Index("é", 1) == None
    ensures MoveRight(Line("é", 1)) == Line("é", 1)
  {
    assert ByteLength("é") == 2;
  }

  /**
   * A command line as a value: its line and the scroll window that follows
   * the cursor, which is measured in bytes. Each operation below is what
   * the state object's method of the same name does to both.
   */
  datatype Editor = Editor(line: Line, window: Window)

  function NewEditor(): Editor {
    Editor(Cleared(), New(0))
  }

  function EditorClear(e: Editor): Editor {
    Editor(Cleared(), WithContentLength(e.window, 0))
  }

  function EditorPut(e: Editor, ch: char): Editor {
    var l := PutLine(e.line, ch);
    Editor(l, NextWindow(WithContentLength(e.window, ByteLength(l.text))))
  }

  function EditorBackspace(e: Editor): Editor
    requires e.line.cursor == 0 || e.line.cursor - 1 < |e.line.text|
  {
    if e.line.cursor >= 1 then
      var l := BackspaceLine(e.line);
      Editor(l, PrevWindow(WithContentLength(e.window, ByteLength(l.text))))
    else e
  }

  function EditorMoveRight(e: Editor): Editor {
    Editor(MoveRight(e.line), NextWindow(e.window))
  }

  function EditorMoveLeft(e: Editor): Editor {
    Editor(MoveLeft(e.line), PrevWindow(e.window))
  }

  /**
   * Every editing operation keeps the cursor within the text; put followed
   * by backspace gives back the line; and after put or backspace the
   * window's content is the text's length in bytes.
   */
  lemma {:induction false} EditorSpec(e: Editor, ch: char)
    requires CursorInText(e.line) && SelectionInView(e.window)
    ensures CursorInText(EditorPut(e, ch).line) && CursorInText(EditorBackspace(e).line)
    ensures CursorInText(EditorMoveRight(e).line) && CursorInText(EditorMoveLeft(e).line)
    ensures CursorInText(EditorClear(e).line) && EditorClear(e).window.contentLength == 0
    ensures EditorBackspace(EditorPut(e, ch)).line == e.line
    ensures EditorPut(e, ch).window.contentLength == ByteLength(EditorPut(e, ch).line.text)
    ensures e.line.cursor >= 1 ==>
      EditorBackspace(e).window.contentLength == ByteLength(EditorBackspace(e).line.text)
  {
    PutThenBackspace(e.line, ch);
    CursorStaysInText(e.line, ch);
    SetLengthSpec(e.window, ByteLength(PutLine(e.line, ch).text));
    NextSpec(WithContentLength(e.window, ByteLength(PutLine(e.line, ch).text)));
    if e.line.cursor >= 1 {
      PrevSpec(WithContentLength(e.window, ByteLength(BackspaceLine(e.line).text)));
    }
  }

  /** The command line's state object. */
  class CommandLineState {
    var text: string
    var cursorPosition: nat
    const scroll: ScrollState

    function Model(): Line
      reads this
    {
      Line(text, cursorPosition)
    }

    function State(): Editor
      reads this, scroll
    {
      Editor(Model(), scroll.Model())
    }

    /** Default: empty text, cursor 0, the default scroll state. */
    constructor()
      ensures State() == NewEditor() && fresh(scroll)
    {
      text := [];
      cursorPosition := 0;
      scroll := new ScrollState(0);
    }

    method Clear()
      modifies this, scroll
      ensures State() == EditorClear(old(State()))
    {
      text := [];
      cursorPosition := 0;
      scroll.SetContentLength(0);
    }

    method Put(ch: char)
      modifies this, scroll
      ensures State() == EditorPut(old(State()), ch)
      ensures old(CursorInText(Model())) ==> CursorInText(Model())
    {
      var p := InsertionPoint(Model());
      text := text[..p] + [ch] + text[p..];
      cursorPosition := cursorPosition + 1;
      scroll.SetContentLength(ByteLength(text));
      scroll.Next();
    }

    method Backspace()
      requires CursorInText(Model())
      modifies this, scroll
      ensures State() == EditorBackspace(old(State())) && CursorInText(Model())
    {
      if cursorPosition >= 1 {
        text := text[..cursorPosition - 1] + text[cursorPosition..];
        cursorPosition := cursorPosition - 1;
        scroll.SetContentLength(ByteLength(text));
        scroll.Prev();
      }
    }

    method MoveCursorRight()
      modifies this, scroll
      ensures State() == EditorMoveRight(old(State()))
      ensures old(CursorInText(Model())) ==> CursorInText(Model())
    {
      if cursorPosition < |text| {
        cursorPosition := cursorPosition + 1;
      }
      scroll.Next();
    }

    method MoveCursorLeft()
      modifies this, scroll
      ensures State() == EditorMoveLeft(old(State()))
      ensures old(CursorInText(Model())) ==> CursorInText(Model())
    {
      cursorPosition := SatSub(cursorPosition, 1);
      scroll.Prev();
    }
  }
}
