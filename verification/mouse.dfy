/** The click synthesis of the Windows mouse backend: sendInput, postMessage
    and sendMessage. Each is a method that makes its user32 calls through a
    User32 boundary (which records them in order) and is specified by a
    function giving the calls made and the error returned for every possible
    answer of the native calls. */
module Mouse {
  import opened Win32
  import opened Buttons
  import opened Coordinates
  import opened LParam

  /** What one click operation does: the native calls it makes, in order, and
      the error it returns (None for Go's nil). */
  datatype Run = Run(calls: seq<Call>, err: Option<Error>)

  // ---------------------------------------------------------------------
  // sendInput
  // ---------------------------------------------------------------------

  /** The two INPUT records handed to SendInput: a press and a release of
      the served button, with no position (the click lands where the cursor
      is), or both at the same absolute position with MOUSEEVENTF_ABSOLUTE. */
  function ClickInputs(button: MouseButton, at: Option<(Int32, Int32)>): (inputs: seq<Input>)
    ensures |inputs| == 2
    ensures PressedBy(inputs[0].mi.dwFlags) == Some(Served(button))
    ensures ReleasedBy(inputs[1].mi.dwFlags) == Some(Served(button))
    ensures Placed(inputs[0], at) && Placed(inputs[1], at)
  {
    var (downFlag, upFlag) := InputFlags(button);
    match at
    case None =>
      InputFlagsDecode(button, 0);
      assert downFlag | 0 == downFlag && upFlag | 0 == upFlag;
      var down, up := MouseEvent(0, 0, downFlag), MouseEvent(0, 0, upFlag);
      assert Placed(down, at) && Placed(up, at);
      [down, up]
    case Some((absX, absY)) =>
      InputFlagsDecode(button, MOUSEEVENTF_ABSOLUTE);
      var down := MouseEvent(absX, absY, downFlag | MOUSEEVENTF_ABSOLUTE);
      var up := MouseEvent(absX, absY, upFlag | MOUSEEVENTF_ABSOLUTE);
      assert Placed(down, at) && Placed(up, at);
      [down, up]
  }

  /** A mouse INPUT with no position payload (at == None) or positioned at
      absolute coordinates, and with every other field zero. */
  predicate Placed(i: Input, at: Option<(Int32, Int32)>) {
    && i == MouseEvent(i.mi.dx, i.mi.dy, i.mi.dwFlags)
    && match at
       case None =>
         i.mi.dx == 0 && i.mi.dy == 0 && i.mi.dwFlags & MOUSEEVENTF_ABSOLUTE == 0
       case Some((absX, absY)) =>
         i.mi.dx == absX && i.mi.dy == absY
         && i.mi.dwFlags & MOUSEEVENTF_ABSOLUTE == MOUSEEVENTF_ABSOLUTE
  }

  /** The SetCursorPos call for a point: each coordinate passed as a
      `uintptr`, so a negative one (a monitor left of or above the primary
      one) arrives as its 64-bit two's complement. */
  function SetCursorPosTo(x: Int64, y: Int64): (c: Call)
    ensures c.SetCursorPosCall?
    ensures 0 <= x ==> c.x == x
    ensures x < 0 ==> c.x == x + TWO_64
    ensures 0 <= y ==> c.y == y
    ensures y < 0 ==> c.y == y + TWO_64
  {
    SetCursorPosCall(ToUintptr(x), ToUintptr(y))
  }

  /** The SendInput call that ends a sendInput run, made as call number n. */
  function SubmitInputs(before: seq<Call>, inputs: seq<Input>,
                        outcome: (nat, Call) -> CallOutcome, n: nat): (run: Run)
    ensures run.calls == before + [SendInputCall(|inputs|, inputs)]
    ensures var o := outcome(n, SendInputCall(|inputs|, inputs));
      run.err.Some? <==> o.ret == 0 && o.err.Some?
    ensures run.err.Some? ==> run.err.value.Native?
    ensures run.err.Some? ==> run.err == NativeError(outcome(n, SendInputCall(|inputs|, inputs)))
  {
    var submit := SendInputCall(|inputs|, inputs);
    var o := outcome(n, submit);
    Run(before + [submit], if o.ret == 0 then NativeError(o) else None)
  }

  /** Whether a run reached its SendInput call. */
  predicate Injected(run: Run) {
    |run.calls| > 0 && run.calls[|run.calls| - 1].SendInputCall?
  }

  /** sendInput as a function of the answers of the native calls, the first
      of which is call number `start`. */
  function SendInputRun(outcome: (nat, Call) -> CallOutcome, start: nat,
                        display: Result<(Int64, Int64), Error>,
                        x: Int64, y: Int64, button: MouseButton, moveCursor: bool): (run: Run)
    requires DisplayOracle(display)
    // SetCursorPos comes first when the cursor is moved, and not at all otherwise
    ensures moveCursor ==> |run.calls| > 0 && run.calls[0] == SetCursorPosTo(x, y)
    ensures !moveCursor ==> forall i | 0 <= i < |run.calls| :: !run.calls[i].SetCursorPosCall?
    // at most one SendInput call, and nothing after it; no other call is made
    ensures |run.calls| == (if moveCursor then 1 else 0) + (if Injected(run) then 1 else 0)
    ensures forall i | 0 <= i < |run.calls| - 1 :: !run.calls[i].SendInputCall?
    // SendInput is reached exactly when the step before it succeeded ...
    ensures Injected(run) <==>
      if moveCursor then outcome(start, SetCursorPosTo(x, y)).err.None? else display.Ok?
    // ... and otherwise that step's error is returned
    ensures !Injected(run) ==> run.err.Some?
    ensures !Injected(run) && moveCursor ==> run.err == NativeError(outcome(start, SetCursorPosTo(x, y)))
    ensures !Injected(run) && !moveCursor ==> run.err == Some(display.error)
    // the batch: two events, with or without the absolute position
    ensures Injected(run) ==>
      var submit := run.calls[|run.calls| - 1];
      && submit.count == 2
      && submit.inputs == ClickInputs(button,
           if moveCursor then None else Some(ScreenToAbsolute(display, x, y).value))
    // an error is returned only when SendInput reports zero events inserted
    ensures Injected(run) ==>
      var o := outcome(start + |run.calls| - 1, run.calls[|run.calls| - 1]);
      run.err == if o.ret == 0 then NativeError(o) else None
  {
    if moveCursor then
      var setPos := SetCursorPosTo(x, y);
      var o := outcome(start, setPos);
      if o.err.Some? then Run([setPos], NativeError(o))
      else SubmitInputs([setPos], ClickInputs(button, None), outcome, start + 1)
    else
      match ScreenToAbsolute(display, x, y)
      case Err(e) => Run([], Some(e))
      case Ok(at) => SubmitInputs([], ClickInputs(button, Some(at)), outcome, start)
  }

  /** Fills the two-element INPUT array with the press and the release of
      the button, positioned as `at` says. */
  method FillClick(inputs: array<Input>, button: MouseButton, at: Option<(Int32, Int32)>)
    requires inputs.Length == 2
    modifies inputs
    ensures inputs[..] == ClickInputs(button, at)
  {
    var (downFlag, upFlag) := InputFlags(button);
    match at
    case None =>
      inputs[0] := MouseEvent(0, 0, downFlag);
      inputs[1] := MouseEvent(0, 0, upFlag);
    case Some((absX, absY)) =>
      inputs[0] := MouseEvent(absX, absY, downFlag | MOUSEEVENTF_ABSOLUTE);
      inputs[1] := MouseEvent(absX, absY, upFlag | MOUSEEVENTF_ABSOLUTE);
  }

  /** sendInput: moves the cursor with SetCursorPos or converts the point to
      absolute coordinates, fills the two-element INPUT array and submits it
      with one SendInput call. */
  method SendInput(dll: User32, display: Result<(Int64, Int64), Error>,
                   x: Int64, y: Int64, button: MouseButton, moveCursor: bool)
    returns (err: Option<Error>)
    requires DisplayOracle(display)
    modifies dll
    ensures var run := SendInputRun(dll.outcome, |old(dll.trace)|, display, x, y, button, moveCursor);
      dll.trace == old(dll.trace) + run.calls && err == run.err
  {
    var inputs := new Input[2];
    ghost var start := |dll.trace|;

    if moveCursor {
      var o := dll.Invoke(SetCursorPosCall(ToUintptr(x), ToUintptr(y)));
      if o.err.Some? {
        return NativeError(o);
      }
      FillClick(inputs, button, None);
    } else {
      var abs := ScreenToAbsolute(display, x, y);
      if abs.Err? {
        return Some(abs.error);
      }
      FillClick(inputs, button, Some(abs.value));
    }
    assert SendInputRun(dll.outcome, start, display, x, y, button, moveCursor)
      == SubmitInputs(dll.trace[start..], inputs[..], dll.outcome, |dll.trace|);

    var o := dll.Invoke(SendInputCall(inputs.Length, inputs[..]));
    if o.ret == 0 {
      return NativeError(o);
    }
    return None;
  }

  /** The only error sendInput makes itself is the display-size one; every
      other error is a native call's. */
  lemma SendInputErrors(outcome: (nat, Call) -> CallOutcome, start: nat,
                        display: Result<(Int64, Int64), Error>,
                        x: Int64, y: Int64, button: MouseButton, moveCursor: bool)
    requires DisplayOracle(display)
    ensures var run := SendInputRun(outcome, start, display, x, y, button, moveCursor);
      run.err.Some? ==>
        || run.err.value.Native?
        || (!moveCursor && !Injected(run) && run.err.value.InvalidScreenDimensions?)
  {
  }

  /** A right click at (100, 200) on a 1920x1080 display, without moving the
      cursor, makes one SendInput call carrying (3413, 12136) in both events. */
  lemma SendInputExample(outcome: (nat, Call) -> CallOutcome)
    ensures SendInputRun(outcome, 0, Ok((1920, 1080)), 100, 200, Right, false).calls ==
      [SendInputCall(2, [MouseEvent(3413, 12136, 0x8008), MouseEvent(3413, 12136, 0x8010)])]
  {
    ScreenToAbsoluteExample();
  }

  // ---------------------------------------------------------------------
  // postMessage and sendMessage
  // ---------------------------------------------------------------------

  /** The down and up messages of a click through `api`: same window, same
      packed point, wParam 1 on the press and 0 on the release. */
  function MessagePair(api: MessageApi, hwnd: Uintptr, x: Int64, y: Int64, button: MouseButton)
    : (pair: seq<Call>)
    ensures |pair| == 2
    ensures forall i | 0 <= i < 2 ::
      pair[i].MessageCall? && pair[i].api == api && pair[i].hwnd == hwnd
      && pair[i].lParam == PackLParam(x, y)
    ensures pair[0].wParam == 1 && pair[1].wParam == 0
    ensures MessageMeaning(pair[0].msg) == Some((Served(button), true))
    ensures MessageMeaning(pair[1].msg) == Some((Served(button), false))
  {
    var (downMsg, upMsg) := MessageCodes(button);
    var lParam := PackLParam(x, y);
    MessageCodesDecode(button);
    [MessageCall(api, hwnd, downMsg, 1, lParam), MessageCall(api, hwnd, upMsg, 0, lParam)]
  }

  /** postMessage as a function of the answers of the native calls. */
  function PostMessageRun(outcome: (nat, Call) -> CallOutcome, start: nat,
                          x: Int64, y: Int64, button: MouseButton, hwnd: Uintptr): (run: Run)
    // no target window: an error and no native call
    ensures hwnd == 0 ==> run == Run([], Some(NoTargetWindow(PostMessageW)))
    // otherwise the down message, then (unless it failed) the up message
    ensures hwnd != 0 ==>
      var pair := MessagePair(PostMessageW, hwnd, x, y, button);
      var first, second := outcome(start, pair[0]), outcome(start + 1, pair[1]);
      && 1 <= |run.calls| && run.calls <= pair
      && (|run.calls| == 1 <==> first.err.Some?)
      && (first.err.Some? ==> run.err == NativeError(first))
      && (first.err.None? && second.err.Some? ==> run.err == NativeError(second))
      && (first.err.None? && second.err.None? ==>
            run.err == if first.ret == 0 || second.ret == 0 then Some(PostMessageFailed) else None)
    // success exactly when both messages were queued without error
    ensures run.err.None? <==>
      hwnd != 0 &&
      var pair := MessagePair(PostMessageW, hwnd, x, y, button);
      var first, second := outcome(start, pair[0]), outcome(start + 1, pair[1]);
      first.err.None? && second.err.None? && first.ret != 0 && second.ret != 0
    // the backend's own errors: no window, or a message that was not queued
    ensures run.err == Some(NoTargetWindow(PostMessageW)) <==> hwnd == 0
    ensures run.err == Some(PostMessageFailed) <==>
      hwnd != 0 &&
      var pair := MessagePair(PostMessageW, hwnd, x, y, button);
      var first, second := outcome(start, pair[0]), outcome(start + 1, pair[1]);
      first.err.None? && second.err.None? && (first.ret == 0 || second.ret == 0)
    ensures run.err.Some? && run.err.value.Native? ==> hwnd != 0
  {
    if hwnd == 0 then Run([], Some(NoTargetWindow(PostMessageW)))
    else
      var pair := MessagePair(PostMessageW, hwnd, x, y, button);
      var first := outcome(start, pair[0]);
      if first.err.Some? then Run(pair[..1], NativeError(first))
      else
        var second := outcome(start + 1, pair[1]);
        if second.err.Some? then Run(pair, NativeError(second))
        else if first.ret == 0 || second.ret == 0 then Run(pair, Some(PostMessageFailed))
        else Run(pair, None)
  }

  /** postMessage: queues the down and then the up message to the window. */
  method PostMessage(dll: User32, x: Int64, y: Int64, button: MouseButton, hwnd: Uintptr)
    returns (err: Option<Error>)
    modifies dll
    ensures var run := PostMessageRun(dll.outcome, |old(dll.trace)|, x, y, button, hwnd);
      dll.trace == old(dll.trace) + run.calls && err == run.err
  {
    if hwnd == 0 {
      return Some(NoTargetWindow(PostMessageW));
    }

    var (downMsg, upMsg) := MessageCodes(button);
    var lParam := PackLParam(x, y);

    var first := dll.Invoke(MessageCall(PostMessageW, hwnd, downMsg, 1, lParam));
    if first.err.Some? {
      return NativeError(first);
    }
    var second := dll.Invoke(MessageCall(PostMessageW, hwnd, upMsg, 0, lParam));
    if second.err.Some? {
      return NativeError(second);
    }
    if first.ret == 0 || second.ret == 0 {
      return Some(PostMessageFailed);
    }
    return None;
  }

  /** sendMessage as a function of the answers of the native calls: like
      postMessage, except that the results of the calls are never looked at. */
  function SendMessageRun(outcome: (nat, Call) -> CallOutcome, start: nat,
                          x: Int64, y: Int64, button: MouseButton, hwnd: Uintptr): (run: Run)
    ensures hwnd == 0 ==> run == Run([], Some(NoTargetWindow(SendMessageW)))
    ensures hwnd != 0 ==>
      var pair := MessagePair(SendMessageW, hwnd, x, y, button);
      var first, second := outcome(start, pair[0]), outcome(start + 1, pair[1]);
      && 1 <= |run.calls| && run.calls <= pair
      && (|run.calls| == 1 <==> first.err.Some?)
      && run.err == NativeError(if first.err.Some? then first else second)
    ensures run.err.None? <==>
      hwnd != 0 &&
      var pair := MessagePair(SendMessageW, hwnd, x, y, button);
      outcome(start, pair[0]).err.None? && outcome(start + 1, pair[1]).err.None?
    // the only error sendMessage makes itself is the missing window
    ensures run.err == Some(NoTargetWindow(SendMessageW)) <==> hwnd == 0
    ensures run.err.Some? && hwnd != 0 ==> run.err.value.Native?
  {
    if hwnd == 0 then Run([], Some(NoTargetWindow(SendMessageW)))
    else
      var pair := MessagePair(SendMessageW, hwnd, x, y, button);
      var first := outcome(start, pair[0]);
      if first.err.Some? then Run(pair[..1], NativeError(first))
      else
        var second := outcome(start + 1, pair[1]);
        if second.err.Some? then Run(pair, NativeError(second))
        else Run(pair, None)
  }

  /** sendMessage: delivers the down and then the up message to the window,
      each call returning once the window has handled it. */
  method SendMessage(dll: User32, x: Int64, y: Int64, button: MouseButton, hwnd: Uintptr)
    returns (err: Option<Error>)
    modifies dll
    ensures var run := SendMessageRun(dll.outcome, |old(dll.trace)|, x, y, button, hwnd);
      dll.trace == old(dll.trace) + run.calls && err == run.err
  {
    if hwnd == 0 {
      return Some(NoTargetWindow(SendMessageW));
    }

    var (downMsg, upMsg) := MessageCodes(button);
    var lParam := PackLParam(x, y);

    var first := dll.Invoke(MessageCall(SendMessageW, hwnd, downMsg, 1, lParam));
    if first.err.Some? {
      return NativeError(first);
    }
    var second := dll.Invoke(MessageCall(SendMessageW, hwnd, upMsg, 0, lParam));
    if second.err.Some? {
      return NativeError(second);
    }
    return None;
  }
}
