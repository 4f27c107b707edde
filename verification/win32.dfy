/** The Win32 surface that the mouse backend uses: Go's fixed-width integers,
    the INPUT/MOUSEINPUT records and flag/message constants, the error values
    the backend can return, and the user32.dll boundary itself, which records
    every native call it receives and answers with an outcome it is given. */
module Win32 {

  datatype Option<+T> = None | Some(value: T)

  datatype Result<+T, +E> = Ok(value: T) | Err(error: E)

  // ---------------------------------------------------------------------
  // Go's integer widths (a 64-bit build: Go's `int` is 64 bits wide)
  // ---------------------------------------------------------------------

  const TWO_32: int := 0x1_0000_0000
  const TWO_64: int := 0x1_0000_0000_0000_0000

  type Int32 = i: int | -0x8000_0000 <= i < 0x8000_0000
  type Int64 = i: int | -0x8000_0000_0000_0000 <= i < 0x8000_0000_0000_0000
  type Uintptr = n: int | 0 <= n < 0x1_0000_0000_0000_0000

  /** Go's conversion `int32(v)`: keeps the low 32 bits, two's complement. */
  function ToInt32(v: int): (r: Int32)
    ensures (v - r) % TWO_32 == 0
    ensures -0x8000_0000 <= v < 0x8000_0000 ==> r == v
  {
    var m := v % TWO_32;
    if m < 0x8000_0000 then m else m - TWO_32
  }

  /** Wrap-around of Go's 64-bit `int` arithmetic. */
  function ToInt64(v: int): (r: Int64)
    ensures (v - r) % TWO_64 == 0
    ensures -0x8000_0000_0000_0000 <= v < 0x8000_0000_0000_0000 ==> r == v
  {
    var m := v % TWO_64;
    if m < 0x8000_0000_0000_0000 then m else m - TWO_64
  }

  /** Go's conversion `uintptr(v)` of a 64-bit integer. */
  function ToUintptr(v: int): (r: Uintptr)
    ensures (v - r) % TWO_64 == 0
    ensures 0 <= v < TWO_64 ==> r == v
  {
    v % TWO_64
  }

  // ---------------------------------------------------------------------
  // SendInput constants and records
  // ---------------------------------------------------------------------

  const INPUT_MOUSE: bv32 := 0
  const MOUSEEVENTF_LEFTDOWN: bv32 := 0x0002
  const MOUSEEVENTF_LEFTUP: bv32 := 0x0004
  const MOUSEEVENTF_RIGHTDOWN: bv32 := 0x0008
  const MOUSEEVENTF_RIGHTUP: bv32 := 0x0010
  const MOUSEEVENTF_MIDDLEDOWN: bv32 := 0x0020
  const MOUSEEVENTF_MIDDLEUP: bv32 := 0x0040
  const MOUSEEVENTF_ABSOLUTE: bv32 := 0x8000

  // SendMessage/PostMessage message identifiers
  const WM_LBUTTONDOWN: bv32 := 0x0201
  const WM_LBUTTONUP: bv32 := 0x0202
  const WM_RBUTTONDOWN: bv32 := 0x0204
  const WM_RBUTTONUP: bv32 := 0x0205
  const WM_MBUTTONDOWN: bv32 := 0x0207
  const WM_MBUTTONUP: bv32 := 0x0208

  /** Upper end of the normalised absolute coordinate range 0..65535. */
  const WINDOWS_ABSOLUTE_COORD_MAX: int := 65535

  /** MOUSEINPUT; the uint32 fields are bit-vectors since the flags are or-ed. */
  datatype MouseInput = MouseInput(
    dx: Int32,
    dy: Int32,
    mouseData: bv32,
    dwFlags: bv32,
    time: bv32,
    dwExtraInfo: Uintptr)

  /** INPUT with its union fixed to the mouse variant. */
  datatype Input = Input(inputType: bv32, mi: MouseInput)

  /** The Go composite literal `INPUT{Type: INPUT_MOUSE, Mi: MOUSEINPUT{DX: dx,
      DY: dy, DwFlags: flags}}`: every field it does not name is zero. */
  function MouseEvent(dx: Int32, dy: Int32, flags: bv32): (i: Input)
    ensures i.inputType == INPUT_MOUSE && i.mi.dwFlags == flags
    ensures i.mi.dx == dx && i.mi.dy == dy
    ensures i.mi.mouseData == 0 && i.mi.time == 0 && i.mi.dwExtraInfo == 0
  {
    Input(INPUT_MOUSE, MouseInput(dx, dy, 0, flags, 0, 0))
  }

  // ---------------------------------------------------------------------
  // Errors and the user32.dll boundary
  // ---------------------------------------------------------------------

  datatype MessageApi = PostMessageW | SendMessageW

  /** The error values the mouse backend returns. `Native` is whatever error
      value a user32 call hands back; its contents are not interpreted. */
  datatype Error =
    | Native(code: nat)
    | InvalidScreenDimensions(width: int, height: int)
    | NoTargetWindow(api: MessageApi)
    | PostMessageFailed

  /** One call into user32.dll, with its arguments as passed (`uintptr`s; a
      message identifier keeps its uint32 value when widened). */
  datatype Call =
    | SetCursorPosCall(x: Uintptr, y: Uintptr)
    | SendInputCall(count: nat, inputs: seq<Input>)
    | MessageCall(api: MessageApi, hwnd: Uintptr, msg: bv32, wParam: Uintptr, lParam: Uintptr)

  /** What a native call returns: its first result register and, when the
      call reports one, its error. A native call can only report a native
      error; the other Error values are made by the backend itself. */
  datatype CallOutcome = CallOutcome(ret: Uintptr, err: Option<nat>)

  /** The call's error as the backend returns it (None for Go's nil). */
  function NativeError(o: CallOutcome): (e: Option<Error>)
    ensures e.None? <==> o.err.None?
    ensures e.Some? ==> e.value == Native(o.err.value)
  {
    match o.err
    case None => None
    case Some(code) => Some(Native(code))
  }

  /** The user32.dll procedures seen from the backend. Every call made is
      appended to `trace`; what it returns is decided by `outcome`, given the
      position of the call in the trace and the call itself. */
  class User32 {
    var trace: seq<Call>
    const outcome: (nat, Call) -> CallOutcome

    constructor (outcome: (nat, Call) -> CallOutcome)
      ensures trace == [] && this.outcome == outcome
    {
      trace := [];
      this.outcome := outcome;
    }

    method Invoke(c: Call) returns (o: CallOutcome)
      modifies this`trace
      ensures trace == old(trace) + [c]
      ensures o == outcome(|old(trace)|, c)
    {
      o := outcome(|trace|, c);
      trace := trace + [c];
    }
  }
}
