/**
 * Vi compatibility of the editor (editor/viscintilla.cpp): key
 * translation, the key-to-command map, what each command does with the
 * key sequence typed so far, and the key-press bookkeeping of the editor
 * (mode, command in progress, sequence and its display string).
 *
 * Everything the commands do to the text widget is an `Effect` appended
 * to a log; the cursor position and line length they read are a `View`.
 */
module ViCommands {
  import opened Globals
  import opened CharSequences

  // ---- key translation

  /** Qt key codes the editor tests for. */
  const KeyEscape: int := 0x0100_0000
  const KeyLeft: int := 0x0100_0012
  const KeyUp: int := 0x0100_0013
  const KeyRight: int := 0x0100_0014
  const KeyDown: int := 0x0100_0015

  /** Ctrl-R, the redo key. */
  const CtrlR: char := 18 as char

  /** The transforms take a char, so a key code reaches them cut to its low byte. */
  function Low8(key: int): (b: nat)
    ensures b < 256 && (key - b) % 256 == 0
  {
    key % 256
  }

  /** ToChar::transform: digit and capital-letter codes give the same ASCII character, anything else 0. */
  function ToChar(key: int): (c: char)
  {
    var b := Low8(key);
    if 0x30 <= b <= 0x39 || 0x41 <= b <= 0x5a then b as char else '\0'
  }

  /** ToControlChar::transform: the codes of 'A'..'Z' give the control characters 1..26, anything else 0. */
  function ToControlChar(key: int): (c: char)
  {
    var b := Low8(key);
    if 0x41 <= b <= 0x5a then (b - 0x40) as char else '\0'
  }

  /** What the transforms give for a key code below 256, and that they look at the low byte only. */
  lemma TransformSpec(key: int)
    ensures ToChar(key) != '\0' <==> IsDigit(Low8(key) as char) || 'A' <= Low8(key) as char <= 'Z'
    ensures ToChar(key) != '\0' ==> ToChar(key) as int == Low8(key)
    ensures ToControlChar(key) != '\0' <==> 'A' <= Low8(key) as char <= 'Z'
    ensures ToControlChar(key) != '\0' ==> 1 <= ToControlChar(key) as int <= 26
    ensures ToControlChar(key) != '\0' ==> ToControlChar(key) as int + 0x40 == ToChar(key) as int
    ensures ToChar(key + 256) == ToChar(key) && ToControlChar(key + 256) == ToControlChar(key)
  {
    assert Low8(key + 256) == Low8(key);
  }

  /** Distinct letters give distinct control characters; R gives Ctrl-R; special keys give nothing. */
  lemma ControlCharFacts(a: char, b: char)
    requires 'A' <= a <= 'Z' && 'A' <= b <= 'Z' && ToControlChar(a as int) == ToControlChar(b as int)
    ensures a == b
    ensures ToControlChar('R' as int) == CtrlR
    ensures ToControlChar(KeyEscape) == '\0' && ToChar(KeyEscape) == '\0'
  {
  }

  // ---- commands and their results

  datatype ProcessResult = Continue | Done | Exit | NotHandled

  /** The command objects of the command map. */
  datatype Command = MoveCmd | YankCmd | CutCmd | ChangeCmd | PasteCmd | InsertCmd | UndoCmd | NumCmd | OpenCmd

  /** What a selecting move finishes with. */
  datatype Action = MoveAction | YankAction | CutAction | ChangeAction

  /** The cursor motions, one Scintilla message each (with or without extending the selection). */
  datatype Motion =
    | CharRight | CharLeft | LineUp | LineDown | WordRight
    | Home | LineEnd | DocumentStart | DocumentEnd

  datatype EditMode = Disabled | InsertMode | NormalMode | VisualMode

  /** What the editor does to the text widget. */
  datatype Effect =
    | Move(motion: Motion, extend: bool)
    | VCHome
    | Copy
    | CollapseSelection
    | Cut
    | RemoveSelected
    | Paste
    | Undo
    | Redo
    | SetCursor(line: int, column: int)
    | InsertText(text: string)
    | CaretStyle(block: bool)
    | ModeChanged(mode: EditMode)
    | PassToScintilla(key: int)

  /** The editor state a command reads: the cursor and the length of its line. */
  datatype View = View(line: int, column: int, lineLength: int)

  datatype Reaction = Reaction(result: ProcessResult, effects: seq<Effect>)

  /**
   * CommandMap::command: the command of a character, none for an
   * unmapped one. A character of 0x80 and above is negative as a signed
   * char and fails the index test, like any code past 0xff.
   */
  function CommandOf(c: char): (r: Option<Command>)
    ensures r == Some(NumCmd) <==> '1' <= c <= '9'
    ensures r == Some(MoveCmd) <==> c in "0lhkjw$gG"
    ensures r == Some(YankCmd) <==> c == 'y'
    ensures r == Some(CutCmd) <==> c == 'd'
    ensures r == Some(ChangeCmd) <==> c == 'c'
    ensures r == Some(UndoCmd) <==> c == 'u' || c == CtrlR
    ensures r == Some(PasteCmd) <==> c in "pP"
    ensures r == Some(InsertCmd) <==> c in "iaIA"
    ensures r == Some(OpenCmd) <==> c in "oO"
    ensures c as int >= 0x80 ==> r == None
  {
    if c as int >= 0x80 then None
    else if '1' <= c <= '9' then Some(NumCmd)
    else if c in "0lhkjw$gG" then Some(MoveCmd)
    else if c == 'y' then Some(YankCmd)
    else if c == 'd' then Some(CutCmd)
    else if c == 'c' then Some(ChangeCmd)
    else if c == 'u' || c == CtrlR then Some(UndoCmd)
    else if c in "pP" then Some(PasteCmd)
    else if c in "iaIA" then Some(InsertCmd)
    else if c in "oO" then Some(OpenCmd)
    else None
  }

  /** The motion of a move key and whether it is relative (takes a count). */
  function MotionOf(key: char): Option<(Motion, bool)>
  {
    match key
    case 'l' => Some((CharRight, true))
    case 'h' => Some((CharLeft, true))
    case 'k' => Some((LineUp, true))
    case 'j' => Some((LineDown, true))
    case 'w' => Some((WordRight, true))
    case '0' => Some((Home, false))
    case '$' => Some((LineEnd, false))
    case 'g' => Some((DocumentStart, false))
    case 'G' => Some((DocumentEnd, false))
    case _ => None
  }

  /** The move keys are exactly the keys the command map gives the move command, but for the digit 0 kept by the count prefix. */
  lemma MotionKeys(key: char)
    ensures MotionOf(key).Some? <==> key in "lhkjw0$gG"
    ensures MotionOf(key).Some? ==> CommandOf(key) == Some(MoveCmd)
    ensures MotionOf(key).Some? && MotionOf(key).value.1 <==> key in "lhkjw"
  {
  }

  /**
   * A count as the commands use it: the uint value of the digits
   * (none for a non-digit), stored into an int, so that values of 2^31
   * and above turn negative.
   */
  function Multiplier(digits: string): (m: Option<int>)
    ensures m.Some? <==> AllDigits(digits)
    ensures AllDigits(digits) && Decimal(digits) < 0x8000_0000 ==> m == Some(Decimal(digits))
  {
    var (ok, u) := UIntValue(digits);
    if !ok then None
    else Some(if u >= 0x8000_0000 then u - UIntRange else u)
  }

  /** A count that has wrapped to a negative int repeats nothing. */
  lemma MultiplierWraps()
    ensures Multiplier("2147483648") == Some(-0x8000_0000)
  {
    var s := "2147483648";
    assert AllDigits(s);
    assert Decimal(s[..1]) == 2 by { assert s[..1][..0] == []; }
    assert Decimal(s[..2]) == 21 by { assert s[..2][..1] == s[..1]; }
    assert Decimal(s[..3]) == 214 by { assert s[..3][..2] == s[..2]; }
    assert Decimal(s[..4]) == 2147 by { assert s[..4][..3] == s[..3]; }
    assert Decimal(s[..5]) == 21474 by { assert s[..5][..4] == s[..4]; }
    assert Decimal(s[..6]) == 214748 by { assert s[..6][..5] == s[..5]; }
    assert Decimal(s[..7]) == 2147483 by { assert s[..7][..6] == s[..6]; }
    assert Decimal(s[..8]) == 21474836 by { assert s[..8][..7] == s[..7]; }
    assert Decimal(s[..9]) == 214748364 by { assert s[..9][..8] == s[..8]; }
    assert Decimal(s) == 2147483648 by { assert s[..9] == s[..|s| - 1]; }
  }

  /** The same effect, n times (none for n <= 0): the body of a `for (i = 0; i < n; i++)` loop. */
  function Repeat(e: Effect, n: int): (r: seq<Effect>)
    ensures |r| == (if n <= 0 then 0 else n)
    ensures forall k :: 0 <= k < |r| ==> r[k] == e
  {
    if n <= 0 then [] else seq(n, _ => e)
  }

  /** What a move command finishes with: Done after a move, yank or cut; Exit after a change. */
  function Finish(action: Action): (r: Reaction)
    ensures r.result == (if action == ChangeAction then Exit else Done)
  {
    match action
    case MoveAction => Reaction(Done, [])
    case YankAction => Reaction(Done, [Copy, CollapseSelection])
    case CutAction => Reaction(Done, [Cut])
    case ChangeAction => Reaction(Exit, [RemoveSelected])
  }

  /**
   * MoveCommand<Select, Action>::processKey. `s` is the key sequence,
   * ending with `key`; a relative move with more than one key takes its
   * count from all keys but the last.
   */
  function MoveKey(select: bool, action: Action, key: char, s: string): Reaction
  {
    match MotionOf(key)
    case None => Reaction(NotHandled, [])
    case Some((motion, relative)) =>
      var m := if relative && |s| > 1 then Multiplier(s[..|s| - 1]) else Some(1);
      if m.None? then Reaction(NotHandled, [])
      else Reaction(Finish(action).result, Repeat(Move(motion, select), m.value) + Finish(action).effects)
  }

  /**
   * XyXCommand<C, Action>::processKey (yank, cut and change): `C` first
   * waits; digits wait (0 only after another digit); a second `C` acts on
   * as many whole lines as the digits between say; any other key is a
   * selecting move over the sequence without its first key.
   */
  function XyXKey(c: char, action: Action, key: char, s: string): Reaction
    requires s != []
  {
    if key == c && |s| == 1 then Reaction(Continue, [])
    else if key == c then
      var m := if |s| > 2 then Multiplier(s[1..|s| - 1]) else Some(1);
      if m.None? then Reaction(NotHandled, [])
      else Reaction(Finish(action).result, [VCHome] + Repeat(Move(LineDown, true), m.value) + Finish(action).effects)
    else if '1' <= key <= '9' then Reaction(Continue, [])
    else if key == '0' && |s| > 2 then Reaction(Continue, [])
    else MoveKey(true, action, key, s[1..])
  }

  /** UndoRedoCommand::processKey: the count is read before the key is looked at. */
  function UndoRedoKey(key: char, s: string): Reaction
  {
    var m := if |s| > 1 then Multiplier(s[..|s| - 1]) else Some(1);
    if m.None? then Reaction(NotHandled, [])
    else if key == 'u' then Reaction(Done, Repeat(Undo, m.value))
    else if key == CtrlR then Reaction(Done, Repeat(Redo, m.value))
    else Reaction(NotHandled, [])
  }

  /** NumPrefixCommand::processKey: digits wait; relative moves, undo and redo take the count; nothing else is handled. */
  function NumPrefixKey(key: char, s: string): Reaction
  {
    if IsDigit(key) then Reaction(Continue, [])
    else if key in "lhkjw" then MoveKey(false, MoveAction, key, s)
    else if key == 'u' || key == CtrlR then UndoRedoKey(key, s)
    else Reaction(NotHandled, [])
  }

  /** PasteCommand::processKey: P pastes here, p after the cursor (on the next line from column 0). */
  function PasteKey(key: char, v: View): Reaction
  {
    if key == 'P' then Reaction(Done, [Paste])
    else if key == 'p' then
      Reaction(Done, [if v.column == 0 then SetCursor(v.line + 1, 0) else SetCursor(v.line, v.column + 1), Paste])
    else Reaction(NotHandled, [])
  }

  /** InsertCommand::processKey: i, a, I and A place the cursor and leave normal mode. */
  function InsertKey(key: char, v: View): Reaction
  {
    if key == 'i' then Reaction(Exit, [SetCursor(v.line, v.column)])
    else if key == 'a' then Reaction(Exit, [SetCursor(v.line, v.column + 1)])
    else if key == 'I' then Reaction(Exit, [SetCursor(v.line, 0)])
    else if key == 'A' then Reaction(Exit, [SetCursor(v.line, v.lineLength - 1)])
    else Reaction(NotHandled, [])
  }

  /** OpenLineCommand::processKey: o opens a line below, O above, and normal mode ends. */
  function OpenLineKey(key: char, v: View): Reaction
  {
    if key == 'o' then Reaction(Exit, [SetCursor(v.line + 1, 0), InsertText("\n")])
    else if key == 'O' then Reaction(Exit, [SetCursor(v.line, 0), InsertText("\n")])
    else Reaction(NotHandled, [])
  }

  /** ViCommand::processKey of each command object. */
  function Process(cmd: Command, key: char, s: string, v: View): Reaction
    requires s != []
  {
    match cmd
    case MoveCmd => MoveKey(false, MoveAction, key, s)
    case YankCmd => XyXKey('y', YankAction, key, s)
    case CutCmd => XyXKey('d', CutAction, key, s)
    case ChangeCmd => XyXKey('c', ChangeAction, key, s)
    case PasteCmd => PasteKey(key, v)
    case InsertCmd => InsertKey(key, v)
    case UndoCmd => UndoRedoKey(key, s)
    case NumCmd => NumPrefixKey(key, s)
    case OpenCmd => OpenLineKey(key, v)
  }

  // ---- properties of the commands

  /** A key that is no motion is not handled by a move command, whatever came before. */
  lemma MoveUnknownKey(select: bool, action: Action, key: char, s: string)
    requires key !in "lhkjw0$gG"
    ensures MoveKey(select, action, key, s) == Reaction(NotHandled, [])
  {
    MotionKeys(key);
  }

  /**
   * A relative move after a count moves that many times and then
   * finishes; a count with a non-digit makes the sequence unhandled.
   */
  lemma RelativeMoveCount(select: bool, action: Action, key: char, digits: string)
    requires key in "lhkjw" && digits != []
    ensures var r := MoveKey(select, action, key, digits + [key]);
      && (!AllDigits(digits) ==> r == Reaction(NotHandled, []))
      && (AllDigits(digits) && Decimal(digits) < 0x8000_0000 ==>
            r == Reaction(Finish(action).result,
                          Repeat(Move(MotionOf(key).value.0, select), Decimal(digits)) + Finish(action).effects))
  {
    MotionKeys(key);
    assert (digits + [key])[..|digits + [key]| - 1] == digits;
  }

  /** A relative move as the first key moves once. */
  lemma RelativeMoveOnce(select: bool, action: Action, key: char)
    requires key in "lhkjw"
    ensures MoveKey(select, action, key, [key])
         == Reaction(Finish(action).result, [Move(MotionOf(key).value.0, select)] + Finish(action).effects)
  {
    MotionKeys(key);
    assert Repeat(Move(MotionOf(key).value.0, select), 1) == [Move(MotionOf(key).value.0, select)];
  }

  /** An absolute move ignores whatever precedes it and moves exactly once. */
  lemma AbsoluteMoveIgnoresPrefix(select: bool, action: Action, key: char, s: string, t: string)
    requires key in "0$gG"
    ensures MoveKey(select, action, key, s) == MoveKey(select, action, key, t)
    ensures MoveKey(select, action, key, s).effects == [Move(MotionOf(key).value.0, select)] + Finish(action).effects
  {
    MotionKeys(key);
    assert Repeat(Move(MotionOf(key).value.0, select), 1) == [Move(MotionOf(key).value.0, select)];
  }

  /** The first key of yank, cut or change waits for more, and so does every count digit but a leading 0. */
  lemma XyXWaits(c: char, action: Action, key: char, s: string)
    requires c in "ydc" && s != []
    ensures XyXKey(c, action, c, [c]).result == Continue
    ensures '1' <= key <= '9' && key != c ==> XyXKey(c, action, key, s).result == Continue
    ensures key == '0' ==> (XyXKey(c, action, key, s).result == Continue <==> |s| > 2)
  {
    if key == '0' && |s| <= 2 {
      assert MotionOf('0') == Some((Home, false));
      assert XyXKey(c, action, key, s).result == Finish(action).result;
    }
  }

  /**
   * C, a count, C: the action applies to that many whole lines, selected
   * from the start of the line; CC applies it to the current line.
   */
  lemma XyXWholeLines(c: char, action: Action, digits: string)
    requires c in "ydc"
    ensures var r := XyXKey(c, action, c, [c] + digits + [c]);
      && (digits == [] ==> r == Reaction(Finish(action).result, [VCHome, Move(LineDown, true)] + Finish(action).effects))
      && (digits != [] && !AllDigits(digits) ==> r == Reaction(NotHandled, []))
      && (digits != [] && AllDigits(digits) && Decimal(digits) < 0x8000_0000 ==>
            r == Reaction(Finish(action).result, [VCHome] + Repeat(Move(LineDown, true), Decimal(digits)) + Finish(action).effects))
  {
    var s := [c] + digits + [c];
    assert s[1..|s| - 1] == digits;
    assert Repeat(Move(LineDown, true), 1) == [Move(LineDown, true)];
  }

  /** C, a count, a motion: the selecting move over the count and the motion, then the action. */
  lemma XyXSelectsMove(c: char, action: Action, digits: string, key: char)
    requires c in "ydc" && key != c && !('1' <= key <= '9') && (key == '0' ==> digits == [])
    ensures XyXKey(c, action, key, [c] + digits + [key]) == MoveKey(true, action, key, digits + [key])
  {
    assert ([c] + digits + [key])[1..] == digits + [key];
  }

  /** A count followed by u or Ctrl-R undoes or redoes that many times. */
  lemma UndoRedoCount(key: char, digits: string)
    requires (key == 'u' || key == CtrlR) && AllDigits(digits) && Decimal(digits) < 0x8000_0000
    ensures UndoRedoKey(key, digits + [key]) == Reaction(Done, Repeat(if key == 'u' then Undo else Redo, if digits == [] then 1 else Decimal(digits)))
  {
    var s := digits + [key];
    assert s[..|s| - 1] == digits;
  }

  /** After the count, the count command hands relative moves and undo/redo the whole sequence and rejects the rest. */
  lemma NumPrefixDelegates(key: char, s: string)
    ensures IsDigit(key) ==> NumPrefixKey(key, s) == Reaction(Continue, [])
    ensures key in "lhkjw" ==> NumPrefixKey(key, s) == MoveKey(false, MoveAction, key, s)
    ensures key == 'u' || key == CtrlR ==> NumPrefixKey(key, s) == UndoRedoKey(key, s)
    ensures !IsDigit(key) && key !in "lhkjwu" && key != CtrlR ==> NumPrefixKey(key, s).result == NotHandled
  {
  }

  /** Only insert, change and open-line commands leave normal mode; nothing else returns Exit. */
  lemma ExitOnlyFromInsertingCommands(cmd: Command, key: char, s: string, v: View)
    requires s != []
    ensures Process(cmd, key, s, v).result == Exit ==> cmd in {ChangeCmd, InsertCmd, OpenCmd}
  {
    if cmd in {MoveCmd, NumCmd} {
      assert MoveKey(false, MoveAction, key, s).result != Exit;
    }
  }

  // ---- the editor's key handling

  datatype Modifiers = NoModifier | ControlModifier | ShiftModifier | OtherModifiers

  /** A key press: the key code, the modifiers held and the text it produces. */
  datatype KeyEvent = KeyEvent(key: int, modifiers: Modifiers, text: string)

  /** Whether the editor accepted the event, ignored it, or passed it on to Scintilla. */
  datatype Disposition = Accepted | Ignored | Passed

  /** The editor fields key handling updates, and the log of effects on the widget. */
  datatype EditorState = EditorState(mode: EditMode, cur: Option<Command>, sequence: string, display: string, log: seq<Effect>)

  /**
   * QChar::toAscii of the first character of the event text. A character
   * beyond Latin-1 has no such value and gives 0, and so does an empty
   * text, whose first character is the terminating null.
   */
  function FirstAscii(text: string): (c: char)
    ensures c as int < 256
  {
    if text == [] || text[0] as int >= 256 then '\0' else text[0]
  }

  /** The key character of an event in normal mode: Ctrl gives a control character, arrows give moves. */
  function KeyChar(ev: KeyEvent): char
  {
    match ev.modifiers
    case ControlModifier => ToControlChar(ev.key)
    case NoModifier =>
      if ev.key == KeyRight then 'l'
      else if ev.key == KeyLeft then 'h'
      else if ev.key == KeyUp then 'k'
      else if ev.key == KeyDown then 'j'
      else FirstAscii(ev.text)
    case _ => FirstAscii(ev.text)
  }

  /** Whether the caret is a block in a mode. */
  predicate BlockCaret(mode: EditMode)
  {
    mode == NormalMode || mode == VisualMode
  }

  /** setEditMode: a different mode is set, the caret style follows and the change is announced. */
  function WithMode(st: EditorState, mode: EditMode): (r: EditorState)
    ensures r.mode == mode && r.cur == st.cur && r.sequence == st.sequence && r.display == st.display
    ensures mode == st.mode ==> r == st
    ensures mode != st.mode ==> r.log == st.log + [CaretStyle(BlockCaret(mode)), ModeChanged(mode)]
  {
    if mode == st.mode then st
    else st.(mode := mode, log := st.log + [CaretStyle(BlockCaret(mode)), ModeChanged(mode)])
  }

  /** No command in progress. */
  function Idle(st: EditorState): EditorState
  {
    st.(cur := None, sequence := [], display := [])
  }

  /**
   * The part of keyPressEvent after translation: the key joins the
   * sequence (and its display form the display string), the command in
   * progress, or else the command of the key, processes it, and the
   * result decides whether the command goes on.
   */
  function Dispatch(st: EditorState, key: char, ctrl: bool, disp: char, v: View): (EditorState, Disposition)
  {
    var s := st.sequence + [key];
    var d := st.display + (if ctrl then "(Ctrl)" else "") + [if disp != '\0' then disp else key];
    var cmd := if st.cur.Some? then st.cur else CommandOf(key);
    var r := if cmd.None? then Reaction(NotHandled, []) else Process(cmd.value, key, s, v);
    var st1 := st.(log := st.log + r.effects);
    match r.result
    case Continue => (st1.(cur := cmd, sequence := s, display := d), Accepted)
    case Done => (Idle(st1), Accepted)
    case Exit => (Idle(WithMode(st1, InsertMode)), Accepted)
    case NotHandled => (Idle(st1), Ignored)
  }

  /** keyPressEvent in normal or visual mode. */
  function NormalStep(st: EditorState, ev: KeyEvent, v: View): (EditorState, Disposition)
  {
    if ev.modifiers == NoModifier && ev.key == KeyEscape then
      (if st.cur.Some? then Idle(st) else st, Accepted)
    else if ev.modifiers == OtherModifiers then (st, Ignored)
    else if KeyChar(ev) == '\0' then (st, Ignored)
    else
      var ctrl := ev.modifiers == ControlModifier;
      Dispatch(st, KeyChar(ev), ctrl, if ctrl then ToChar(ev.key) else '\0', v)
  }

  /** keyPressEvent: the next state and what became of the event. */
  function Step(st: EditorState, ev: KeyEvent, v: View): (EditorState, Disposition)
  {
    if st.mode == Disabled then
      (st.(log := st.log + [PassToScintilla(ev.key)]), Passed)
    else if st.mode == InsertMode then
      if ev.key == KeyEscape && ev.modifiers == NoModifier then (WithMode(st, NormalMode), Accepted)
      else (st.(log := st.log + [PassToScintilla(ev.key)]), Passed)
    else NormalStep(st, ev, v)
  }

  /** The state after a series of key presses. */
  function Run(st: EditorState, evs: seq<KeyEvent>, v: View): EditorState
  {
    if evs == [] then st else Step(Run(st, evs[..|evs| - 1], v), evs[|evs| - 1], v).0
  }

  /**
   * The bookkeeping invariant: a command is in progress exactly when the
   * sequence is not empty, and it is the command of the sequence's first
   * key; an empty sequence has an empty display string.
   */
  predicate Consistent(st: EditorState)
  {
    && (st.cur.None? <==> st.sequence == [])
    && (st.sequence == [] ==> st.display == [])
    && (st.cur.Some? ==> CommandOf(st.sequence[0]) == st.cur)
  }

  /** A dispatched key keeps the bookkeeping consistent, and only an ongoing command keeps its sequence. */
  lemma DispatchKeepsConsistent(st: EditorState, key: char, ctrl: bool, disp: char, v: View)
    requires Consistent(st)
    ensures Consistent(Dispatch(st, key, ctrl, disp, v).0)
    ensures var r := Dispatch(st, key, ctrl, disp, v).0;
      r.sequence != [] ==> r.cur == (if st.cur.Some? then st.cur else CommandOf(r.sequence[0]))
  {
    var s := st.sequence + [key];
    var cmd := if st.cur.Some? then st.cur else CommandOf(key);
    var r := if cmd.None? then Reaction(NotHandled, []) else Process(cmd.value, key, s, v);
    if r.result == Continue {
      assert cmd.Some? && s[0] == (if st.sequence == [] then key else st.sequence[0]);
    }
  }

  /** Every key press keeps the bookkeeping consistent, and only an ongoing command keeps its sequence. */
  lemma StepKeepsConsistent(st: EditorState, ev: KeyEvent, v: View)
    requires Consistent(st)
    ensures Consistent(Step(st, ev, v).0)
    ensures var r := Step(st, ev, v).0;
      r.sequence != [] ==> r.cur == (if st.cur.Some? then st.cur else CommandOf(r.sequence[0]))
  {
    if BlockCaret(st.mode) && !(ev.modifiers == NoModifier && ev.key == KeyEscape)
       && ev.modifiers != OtherModifiers && KeyChar(ev) != '\0' {
      var ctrl := ev.modifiers == ControlModifier;
      DispatchKeepsConsistent(st, KeyChar(ev), ctrl, if ctrl then ToChar(ev.key) else '\0', v);
    }
  }

  /** In insert mode only an unmodified Escape is taken, and it switches to normal mode; every other key goes to Scintilla. */
  lemma InsertModeOnlyEscape(st: EditorState, ev: KeyEvent, v: View)
    requires st.mode == InsertMode
    ensures var (r, d) := Step(st, ev, v);
      && (ev.key == KeyEscape && ev.modifiers == NoModifier ==>
            d == Accepted && r == st.(mode := NormalMode, log := st.log + [CaretStyle(true), ModeChanged(NormalMode)]))
      && (!(ev.key == KeyEscape && ev.modifiers == NoModifier) ==>
            d == Passed && r == st.(log := st.log + [PassToScintilla(ev.key)]))
  {
  }

  /** Escape in normal mode aborts the command in progress and does nothing else. */
  lemma EscapeAborts(st: EditorState, ev: KeyEvent, v: View)
    requires BlockCaret(st.mode) && Consistent(st)
    requires ev.key == KeyEscape && ev.modifiers == NoModifier
    ensures Step(st, ev, v) == (Idle(st), Accepted)
  {
  }

  /**
   * Done, Exit and NotHandled all end the command: after such a key
   * nothing is in progress; only Exit changes the mode, to insert mode.
   */
  lemma EndOfCommand(st: EditorState, ev: KeyEvent, v: View)
    requires BlockCaret(st.mode) && Consistent(st)
    requires Step(st, ev, v).0.cur.None?
    ensures var r := Step(st, ev, v).0;
      r.sequence == [] && r.display == [] && (r.mode == st.mode || r.mode == InsertMode)
  {
    if !(ev.modifiers == NoModifier && ev.key == KeyEscape)
       && ev.modifiers != OtherModifiers && KeyChar(ev) != '\0' {
      var ctrl := ev.modifiers == ControlModifier;
      DispatchKeepsConsistent(st, KeyChar(ev), ctrl, if ctrl then ToChar(ev.key) else '\0', v);
    }
  }

  /** A key typed without modifiers. */
  function Typed(c: char): KeyEvent
  {
    KeyEvent(c as int, NoModifier, [c])
  }

  function TypedAll(s: string): (evs: seq<KeyEvent>)
    ensures |evs| == |s| && forall i :: 0 <= i < |s| ==> evs[i] == Typed(s[i])
  {
    seq(|s|, i requires 0 <= i < |s| => Typed(s[i]))
  }

  /** A typed character in normal mode goes straight to the dispatch, without control display. */
  lemma TypedDispatch(st: EditorState, c: char, v: View)
    requires BlockCaret(st.mode) && c != '\0' && c as int < 256
    ensures Step(st, Typed(c), v) == Dispatch(st, c, false, '\0', v)
  {
    assert KeyChar(Typed(c)) == c;
  }

  /** The state while a count is being typed. */
  function Counting(st: EditorState, digits: string): EditorState
  {
    st.(cur := Some(NumCmd), sequence := digits, display := digits)
  }

  /** Each digit of a count keeps the count command waiting and joins the sequence and the display. */
  lemma CountDigit(st: EditorState, p: string, c: char, v: View)
    requires BlockCaret(st.mode) && Idle(st) == st && IsDigit(c) && (p == [] ==> c != '0')
    ensures Step(if p == [] then st else Counting(st, p), Typed(c), v).0 == Counting(st, p + [c])
  {
    var before := if p == [] then st else Counting(st, p);
    TypedDispatch(before, c, v);
    assert before.sequence + [c] == p + [c] && before.display + "" + [c] == p + [c];
    assert (if before.cur.Some? then before.cur else CommandOf(c)) == Some(NumCmd);
    assert Process(NumCmd, c, p + [c], v) == Reaction(Continue, []);
  }

  /** While a count is typed the count command waits, and the sequence and display are the digits so far. */
  lemma {:induction false} TypingCount(st: EditorState, digits: string, i: nat, v: View)
    requires BlockCaret(st.mode) && Idle(st) == st
    requires 1 <= i <= |digits| && '1' <= digits[0] <= '9' && AllDigits(digits)
    ensures Run(st, TypedAll(digits[..i]), v) == Counting(st, digits[..i])
    decreases i
  {
    var evs := TypedAll(digits[..i]);
    var c := digits[i - 1];
    var p := digits[..i - 1];
    assert evs[..|evs| - 1] == TypedAll(p) && evs[|evs| - 1] == Typed(c);
    assert Run(st, evs, v) == Step(Run(st, TypedAll(p), v), Typed(c), v).0;
    assert digits[..i] == p + [c];
    assert IsDigit(c);
    if i == 1 {
      assert TypedAll(p) == [];
      CountDigit(st, [], c, v);
    } else {
      TypingCount(st, digits, i - 1, v);
      assert p != [];
      CountDigit(st, p, c, v);
    }
  }

  /**
   * Typing a count (not starting with 0) and j in normal mode moves the
   * cursor down that many lines and ends the command.
   */
  lemma CountedLineDown(st: EditorState, digits: string, v: View)
    requires BlockCaret(st.mode) && Idle(st) == st
    requires digits != [] && '1' <= digits[0] <= '9' && AllDigits(digits) && Decimal(digits) < 0x8000_0000
    ensures Run(st, TypedAll(digits + "j"), v) == st.(log := st.log + Repeat(Move(LineDown, false), Decimal(digits)))
  {
    var evs := TypedAll(digits + "j");
    assert evs[..|evs| - 1] == TypedAll(digits[..|digits|]) && evs[|evs| - 1] == Typed('j');
    TypingCount(st, digits, |digits|, v);
    assert digits[..|digits|] == digits;
    assert Run(st, evs, v) == Step(Counting(st, digits), Typed('j'), v).0;
    CountThenLineDown(st, digits, v);
  }

  /** j after a count moves down that many lines and ends the command. */
  lemma CountThenLineDown(st: EditorState, digits: string, v: View)
    requires BlockCaret(st.mode) && Idle(st) == st
    requires digits != [] && AllDigits(digits) && Decimal(digits) < 0x8000_0000
    ensures Step(Counting(st, digits), Typed('j'), v).0 == st.(log := st.log + Repeat(Move(LineDown, false), Decimal(digits)))
  {
    var pending := Counting(st, digits);
    TypedDispatch(pending, 'j', v);
    RelativeMoveCount(false, MoveAction, 'j', digits);
    assert Process(NumCmd, 'j', digits + "j", v) == Reaction(Done, Repeat(Move(LineDown, false), Decimal(digits)));
  }

  /** The editor widget's Vi state, updated in place by key presses and mode changes. */
  class ViScintilla {
    var mode: EditMode
    var curCommand: Option<Command>
    var cmdSequence: string
    var cmdString: string
    var log: seq<Effect>

    function State(): EditorState
      reads this
    {
      EditorState(mode, curCommand, cmdSequence, cmdString, log)
    }

    /** A new editor: Vi compatibility disabled, no command in progress. */
    constructor ()
      ensures State() == EditorState(Disabled, None, [], [], [])
      ensures Consistent(State())
    {
      mode := Disabled;
      curCommand := None;
      cmdSequence := [];
      cmdString := [];
      log := [];
    }

    /** setEditMode. */
    method SetEditMode(newMode: EditMode)
      modifies this
      ensures State() == WithMode(old(State()), newMode)
    {
      if newMode != mode {
        mode := newMode;
        log := log + [CaretStyle(newMode == NormalMode || newMode == VisualMode)];
        log := log + [ModeChanged(mode)];
      }
    }

    /** keyPressEvent: the cursor and line length the commands read are given by `v`. */
    method KeyPress(ev: KeyEvent, v: View) returns (d: Disposition)
      modifies this
      ensures (State(), d) == Step(old(State()), ev, v)
    {
      if mode == Disabled {
        log := log + [PassToScintilla(ev.key)];
        return Passed;
      }
      if mode == InsertMode {
        if ev.key == KeyEscape && ev.modifiers == NoModifier {
          SetEditMode(NormalMode);
          return Accepted;
        }
        log := log + [PassToScintilla(ev.key)];
        return Passed;
      }
      d := Ignored;
      var key: char;
      var dispKey: char := '\0';
      match ev.modifiers {
        case ControlModifier =>
          key := ToControlChar(ev.key);
          dispKey := ToChar(ev.key);
        case NoModifier =>
          if ev.key == KeyRight {
            key := 'l';
          } else if ev.key == KeyLeft {
            key := 'h';
          } else if ev.key == KeyUp {
            key := 'k';
          } else if ev.key == KeyDown {
            key := 'j';
          } else if ev.key == KeyEscape {
            if curCommand.Some? {
              curCommand := None;
              cmdSequence := [];
              cmdString := [];
            }
            return Accepted;
          } else {
            key := FirstAscii(ev.text);
          }
        case ShiftModifier =>
          key := FirstAscii(ev.text);
        case OtherModifiers =>
          return;
      }
      if key == '\0' {
        return;
      }
      d := Feed(key, ev.modifiers == ControlModifier, dispKey, v);
    }

    /** The second half of keyPressEvent: the translated key joins the sequence and is processed. */
    method Feed(key: char, ctrl: bool, dispKey: char, v: View) returns (d: Disposition)
      modifies this
      ensures (State(), d) == Dispatch(old(State()), key, ctrl, dispKey, v)
    {
      ghost var s := cmdSequence + [key];
      ghost var disp := cmdString + (if ctrl then "(Ctrl)" else "") + [if dispKey != '\0' then dispKey else key];
      cmdSequence := cmdSequence + [key];
      if ctrl {
        cmdString := cmdString + "(Ctrl)";
      }
      cmdString := cmdString + [if dispKey != '\0' then dispKey else key];
      assert cmdSequence == s && cmdString == disp;
      var reaction: Reaction;
      if curCommand.Some? {
        reaction := Process(curCommand.value, key, cmdSequence, v);
      } else {
        curCommand := CommandOf(key);
        if curCommand.Some? {
          reaction := Process(curCommand.value, key, cmdSequence, v);
        } else {
          reaction := Reaction(NotHandled, []);
        }
      }
      log := log + reaction.effects;
      match reaction.result {
        case Continue =>
        case Exit =>
          SetEditMode(InsertMode);
          curCommand, cmdSequence, cmdString := None, [], [];
        case Done =>
          curCommand, cmdSequence, cmdString := None, [], [];
        case NotHandled =>
          curCommand, cmdSequence, cmdString := None, [], [];
          return Ignored;
      }
      d := Accepted;
    }
  }
}
