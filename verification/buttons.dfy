/** The button code tables: which MOUSEINPUT flags (for SendInput) and which
    window messages (for PostMessage/SendMessage) press and release a button.
    Both tables fall back to the left button for any other button value. */
module Buttons {
  import opened Win32

  /** The backend's MouseButton; `Other` stands for any value that is not one
      of the three named constants. */
  datatype MouseButton = Left | Right | Middle | Other(code: int)

  /** The button a table lookup actually serves: unknown values become Left. */
  function Served(b: MouseButton): (s: MouseButton)
    ensures !s.Other?
    ensures b.Other? ==> s == Left
    ensures !b.Other? ==> s == b
  {
    if b.Other? then Left else b
  }

  /** getInputFlags: the (down, up) MOUSEINPUT flags of a button. */
  function InputFlags(b: MouseButton): (flags: (bv32, bv32))
    ensures flags.0 != 0 && flags.1 != 0 && flags.0 & flags.1 == 0
    ensures (flags.0 | flags.1) & MOUSEEVENTF_ABSOLUTE == 0
  {
    match b
    case Left => (MOUSEEVENTF_LEFTDOWN, MOUSEEVENTF_LEFTUP)
    case Right => (MOUSEEVENTF_RIGHTDOWN, MOUSEEVENTF_RIGHTUP)
    case Middle => (MOUSEEVENTF_MIDDLEDOWN, MOUSEEVENTF_MIDDLEUP)
    case Other(_) => (MOUSEEVENTF_LEFTDOWN, MOUSEEVENTF_LEFTUP)
  }

  /** getMessageCodes: the (down, up) window messages of a button. */
  function MessageCodes(b: MouseButton): (codes: (bv32, bv32))
    ensures codes.1 == codes.0 + 1
    ensures WM_LBUTTONDOWN <= codes.0 <= WM_MBUTTONDOWN
  {
    match b
    case Left => (WM_LBUTTONDOWN, WM_LBUTTONUP)
    case Right => (WM_RBUTTONDOWN, WM_RBUTTONUP)
    case Middle => (WM_MBUTTONDOWN, WM_MBUTTONUP)
    case Other(_) => (WM_LBUTTONDOWN, WM_LBUTTONUP)
  }

  // ---------------------------------------------------------------------
  // How Windows reads these codes back
  // ---------------------------------------------------------------------

  /** The button a MOUSEINPUT presses, reading its flags apart from the
      ABSOLUTE bit, or None when they are not exactly one button-down flag. */
  function PressedBy(flags: bv32): Option<MouseButton> {
    var f := flags & !MOUSEEVENTF_ABSOLUTE;
    if f == MOUSEEVENTF_LEFTDOWN then Some(Left)
    else if f == MOUSEEVENTF_RIGHTDOWN then Some(Right)
    else if f == MOUSEEVENTF_MIDDLEDOWN then Some(Middle)
    else None
  }

  /** The button a MOUSEINPUT releases, in the same reading. */
  function ReleasedBy(flags: bv32): Option<MouseButton> {
    var f := flags & !MOUSEEVENTF_ABSOLUTE;
    if f == MOUSEEVENTF_LEFTUP then Some(Left)
    else if f == MOUSEEVENTF_RIGHTUP then Some(Right)
    else if f == MOUSEEVENTF_MIDDLEUP then Some(Middle)
    else None
  }

  /** The button and direction (true: down) of a button window message. */
  function MessageMeaning(msg: bv32): Option<(MouseButton, bool)> {
    if msg == WM_LBUTTONDOWN then Some((Left, true))
    else if msg == WM_LBUTTONUP then Some((Left, false))
    else if msg == WM_RBUTTONDOWN then Some((Right, true))
    else if msg == WM_RBUTTONUP then Some((Right, false))
    else if msg == WM_MBUTTONDOWN then Some((Middle, true))
    else if msg == WM_MBUTTONUP then Some((Middle, false))
    else None
  }

  /** The flag table read back: the down flag presses and the up flag releases
      the served button, with or without the ABSOLUTE bit, and neither flag
      does the other's job. */
  lemma InputFlagsDecode(b: MouseButton, absolute: bv32)
    requires absolute == 0 || absolute == MOUSEEVENTF_ABSOLUTE
    ensures PressedBy(InputFlags(b).0 | absolute) == Some(Served(b))
    ensures ReleasedBy(InputFlags(b).1 | absolute) == Some(Served(b))
    ensures ReleasedBy(InputFlags(b).0 | absolute) == None
    ensures PressedBy(InputFlags(b).1 | absolute) == None
    ensures (InputFlags(b).0 | absolute) & MOUSEEVENTF_ABSOLUTE == absolute
    ensures (InputFlags(b).1 | absolute) & MOUSEEVENTF_ABSOLUTE == absolute
  {
  }

  /** The message table read back: the down code is the served button's down
      message and the up code its up message. */
  lemma MessageCodesDecode(b: MouseButton)
    ensures MessageMeaning(MessageCodes(b).0) == Some((Served(b), true))
    ensures MessageMeaning(MessageCodes(b).1) == Some((Served(b), false))
  {
  }

  /** The two tables agree on which button a value stands for, and the table
      is one-to-one on the three named buttons. */
  lemma TablesAgree(b: MouseButton, c: MouseButton)
    ensures MessageMeaning(MessageCodes(b).0).Some?
    ensures PressedBy(InputFlags(b).0) == Some(MessageMeaning(MessageCodes(b).0).value.0)
    ensures Served(b) != Served(c) ==> InputFlags(b) != InputFlags(c) && MessageCodes(b) != MessageCodes(c)
  {
  }

  /** The exact constants of both tables, and the Left fallback. */
  lemma ButtonTables(n: int)
    ensures InputFlags(Left) == (0x0002, 0x0004)
    ensures InputFlags(Right) == (0x0008, 0x0010)
    ensures InputFlags(Middle) == (0x0020, 0x0040)
    ensures InputFlags(Other(n)) == InputFlags(Left)
    ensures MessageCodes(Left) == (0x0201, 0x0202)
    ensures MessageCodes(Right) == (0x0204, 0x0205)
    ensures MessageCodes(Middle) == (0x0207, 0x0208)
    ensures MessageCodes(Other(n)) == MessageCodes(Left)
  {
  }
}
