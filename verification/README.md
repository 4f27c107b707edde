# AutoClicker mouse backend (Windows) in Dafny

This project models the click synthesis of AutoClicker's Windows mouse
backend (`backend/mouse/mouse_windows.go`). Given a point, a mouse button and
a delivery route, the backend produces a button-down event followed by a
button-up event. There are three routes:

- **sendInput** injects two `INPUT` records through `SendInput`. It either
  moves the cursor first with `SetCursorPos`, or embeds the point as a
  normalised absolute coordinate flagged `MOUSEEVENTF_ABSOLUTE`.
- **postMessage** queues `WM_*BUTTONDOWN` and then `WM_*BUTTONUP` to a window.
- **sendMessage** delivers the same two messages synchronously.

Files and modules:

- `win32.dfy` (`Win32`): Go's integer widths with explicit wrap-around
  (`ToInt32`, `ToInt64`, `ToUintptr`), the `MOUSEINPUT`/`INPUT` records, the
  flag and message constants, the error values and the `User32` class. A
  `User32` object stands for the user32.dll procedures. Its `Invoke` appends
  each call to the `trace` field and answers with `outcome(position, call)`.
  `outcome` is an oracle that gives the `(ret, err)` pair every native call
  returns. The model does not know what Windows does, so every contract holds
  for every oracle.
- `buttons.dfy` (`Buttons`): `getInputFlags` and `getMessageCodes`. It also
  holds decoders that read a flag or message back as "press/release of
  button B", which serve as their inverse. `MouseButton` is
  `Left | Right | Middle | Other(n)`, so the default branch is reachable.
- `coordinates.dfy` (`Coordinates`): `convertScreenCoordinatesToAbsoluteCoordinates`.
  It uses Go's division, which truncates toward zero (`GoQuo`). Dafny's `/` is
  Euclidean, so `GoQuo` is defined separately and characterised by its
  remainder. The product `x*65535` wraps at 64 bits and the quotient is
  narrowed with `int32(...)`. Negative inputs are covered by this definition
  and are not excluded. The display-size query is a parameter.
  `ScreenDimensions` is `GetScreenDimensions` over the two raw
  `GetSystemMetrics` values, and `DisplayOracle` contains every answer it can
  give (`ScreenDimensionsInOracle`): two non-zero dimensions, or the
  `InvalidScreenDimensions` error for a zero dimension.
- `lparam.dfy` (`LParam`): `uintptr(y<<16 | x)` on 64-bit two's complement
  values. The bitwise or is a recursive bit-by-bit function (`BitOr`).
- `mouse.dfy` (`Mouse`): the three operations as methods over a `User32`.
  `SendInput` fills a two-element `array<Input>` in place before its one
  `SendInput` call. Each method is proved against a function
  (`SendInputRun`, `PostMessageRun`, `SendMessageRun`). That function gives,
  for any oracle, the calls made in order and the error returned. The
  properties are stated in the function's contract: call order, "no call
  made", "stops at the first error" and the packet contents.

Behaviour worth knowing, as the code has it:

- `sendInput` returns the `SendInput` call's `err` when `ret == 0`, and nil
  otherwise. So it fails exactly when `ret == 0` and that error is non-nil.
- After `SetCursorPos` only `err` is inspected, never the return value.
- postMessage does not send the up message once the down message has
  reported an error: it returns that error straight away.
- Native errors are returned unchanged, not mapped to categories. A native
  call can only report a native error (`CallOutcome.err` is a bare error
  code); `NoTargetWindow`, `PostMessageFailed` and `InvalidScreenDimensions`
  are made by the backend alone.
- The coordinate mapping truncates toward zero, which equals the floor on
  `0 <= x < width` (`GoQuoNonNegative`, `ScreenToAbsoluteInRange`).

## Model

| member | source | states |
|---|---|---|
| `Win32.ToInt32` | backend/mouse/mouse_windows.go:68-69 | `int32(v)` keeps v modulo 2^32 in the signed range and is the identity on values that fit |
| `Win32.ToInt64` | backend/mouse/mouse_windows.go:68-69 | Go's 64-bit `int` arithmetic wraps modulo 2^64 and is exact on values that fit |
| `Win32.ToUintptr` | backend/mouse/mouse_windows.go:80 | `uintptr(v)` is v modulo 2^64 and is the identity on non-negative values that fit |
| `Win32.MouseEvent` | backend/mouse/mouse_windows.go:84-85 | an `INPUT{Type: INPUT_MOUSE, Mi: MOUSEINPUT{DX, DY, DwFlags}}` literal carries those three values and zero in every other field |
| `Win32.NativeError` | backend/mouse/mouse_windows.go:80-82 | a native call's error is returned unchanged as a `Native` error, and nil stays nil |
| `Win32.User32.Invoke` | backend/mouse/mouse_windows.go:80 | a native call is appended to the trace and answered by the oracle for its position |
| `Buttons.Served` | backend/mouse/mouse_windows.go:174-175 | the button a table lookup serves: any value other than the three named buttons falls to the `default:` branch and is served as Left; the named ones are served as themselves |
| `Buttons.InputFlags` | backend/mouse/mouse_windows.go:166-177 | down and up flags are non-zero, share no bit, and neither contains `MOUSEEVENTF_ABSOLUTE` |
| `Buttons.MessageCodes` | backend/mouse/mouse_windows.go:179-190 | the up message is the down message plus one, and the down message is one of WM_LBUTTONDOWN..WM_MBUTTONDOWN |
| `Buttons.InputFlagsDecode` | backend/mouse/mouse_windows.go:166-177 | with or without the ABSOLUTE bit, the down flag presses and the up flag releases the served button (Left for any unknown value), and neither does the other's job |
| `Buttons.MessageCodesDecode` | backend/mouse/mouse_windows.go:179-190 | the down code is the served button's down message and the up code its up message |
| `Buttons.TablesAgree` | backend/mouse/mouse_windows.go:166-190 | both tables name the same button for every value, and different served buttons get different codes in both |
| `Buttons.ButtonTables` | backend/mouse/mouse_windows.go:166-190 | exact pairs (0x2,0x4), (0x8,0x10), (0x20,0x40) and (0x201,0x202), (0x204,0x205), (0x207,0x208); any other button gets the Left pair |
| `Coordinates.GoQuo` | backend/mouse/mouse_windows.go:68-69 | Go's `/`: the remainder is smaller than the divisor in magnitude and has the sign of the dividend |
| `Coordinates.GoQuoNonNegative` | backend/mouse/mouse_windows.go:68-69 | on a non-negative dividend and a positive divisor, Go's `/` equals floor division |
| `Coordinates.ScreenDimensions` | backend/system/system_windows.go:13-22 | an error carrying both raw values exactly when either metric is zero; otherwise both values as Go `int`s, both non-zero |
| `Coordinates.ScreenDimensionsInOracle` | backend/system/system_windows.go:17-21 | every answer of GetScreenDimensions satisfies `DisplayOracle`, the display contract the conversion and sendInput require |
| `Coordinates.AbsoluteAxis` | backend/mouse/mouse_windows.go:68-69 | on a positive extent the left edge maps to 0, and on a display GetSystemMetrics can report the pixel just past the far edge maps to exactly 65535 |
| `Coordinates.ScreenToAbsolute` | backend/mouse/mouse_windows.go:63-72 | a display-size error is returned unchanged; otherwise each axis is `int32((v*65535)/extent)` |
| `Coordinates.AxisInRange` | backend/mouse/mouse_windows.go:68-69 | for 0 <= v < extent, the absolute coordinate a lies in [0, 65535) and is the floor of v*65535/extent (a*extent <= v*65535 < (a+1)*extent) |
| `Coordinates.AxisMonotonic` | backend/mouse/mouse_windows.go:68-69 | on the display, a larger pixel coordinate never gives a smaller absolute coordinate |
| `Coordinates.ScreenToAbsoluteInRange` | backend/mouse/mouse_windows.go:63-72 | a point on a successfully queried display converts without error, with both axes in [0, 65535) and equal to floor(v*65535/extent) |
| `Coordinates.ScreenToAbsoluteExample` | backend/mouse/mouse_windows.go:63-72 | (100, 200) on 1920x1080 converts to (3413, 12136) |
| `LParam.BitOr` | backend/mouse/mouse_windows.go:128 | Go's bitwise or on the low n bits: the result fits in n bits |
| `LParam.PackLParam` | backend/mouse/mouse_windows.go:128 | for a 16-bit x and any y, `uintptr(y<<16 or x)` is the wrapped `uintptr(y<<16)` plus x: x lands in the low word, which the shift leaves clear |
| `LParam.BitOrDisjoint` | backend/mouse/mouse_windows.go:128 | or-ing a value below 2^k into a word whose low k bits are zero is addition |
| `LParam.PackLParamArithmetic` | backend/mouse/mouse_windows.go:128 | for 0 <= x < 65536 and 0 <= y < 2^48, the word y<<16 or-ed with x, as a uintptr, equals y*65536 + x |
| `LParam.PackLParamRoundTrip` | backend/mouse/mouse_windows.go:152 | for 16-bit x and y, the low word of lParam gives back x and the high word gives back y |
| `LParam.PackLParamExample` | backend/mouse/mouse_windows.go:152 | x = 10, y = 20 packs to 1310730 |
| `Mouse.ClickInputs` | backend/mouse/mouse_windows.go:84-106 | two mouse INPUTs: index 0 presses and index 1 releases the served button; without a position both have DX = DY = 0 and no ABSOLUTE bit, with one both carry it and the ABSOLUTE bit |
| `Mouse.FillClick` | backend/mouse/mouse_windows.go:84-106 | the two-element INPUT array, filled in place, holds exactly `ClickInputs` for the button and position |
| `Mouse.SetCursorPosTo` | backend/mouse/mouse_windows.go:80 | a SetCursorPos call whose arguments are the coordinates as `uintptr`s: unchanged when non-negative, plus 2^64 when negative |
| `Mouse.SubmitInputs` | backend/mouse/mouse_windows.go:109-118 | the SendInput call is appended after the earlier calls with the batch and its length; an error is returned exactly when the call inserted nothing (`ret == 0`) and reported an error, and it is that native error |
| `Mouse.SendInputErrors` | backend/mouse/mouse_windows.go:75-119 | every error sendInput returns is a native call's error, except the display-size error, which comes only without cursor movement and before SendInput |
| `Mouse.SendInputRun` | backend/mouse/mouse_windows.go:75-119 | SetCursorPos comes first when moving the cursor and never otherwise; its error, or a display-size error (with no native call at all), is returned before SendInput; no other call is made; otherwise SendInput is the one last call, with count 2 and ClickInputs at the converted point; the result is the call's err iff ret == 0 |
| `Mouse.SendInput` | backend/mouse/mouse_windows.go:75-119 | fills the two-element INPUT array and makes exactly the calls, in order, and returns exactly the error that SendInputRun gives for the oracle |
| `Mouse.SendInputExample` | backend/mouse/mouse_windows.go:86-113 | a right click at (100, 200) on 1920x1080 without moving the cursor is one SendInput of (3413, 12136) with flags 0x8008 then 0x8010 |
| `Mouse.MessagePair` | backend/mouse/mouse_windows.go:127-134 | down then up message to the same window and lParam, wParam 1 then 0, codes meaning press and release of the served button |
| `Mouse.PostMessageRun` | backend/mouse/mouse_windows.go:122-143 | hwnd 0 gives an error and no call; otherwise the calls are a non-empty prefix of (down, up), stopping after the first call's error; success iff both calls have no error and non-zero ret; NoTargetWindow iff hwnd is 0, PostMessageFailed iff both calls report no error and a ret is zero, any other error is a native call's |
| `Mouse.PostMessage` | backend/mouse/mouse_windows.go:122-143 | makes exactly the calls, in order, and returns exactly the error that PostMessageRun gives for the oracle |
| `Mouse.SendMessageRun` | backend/mouse/mouse_windows.go:146-164 | hwnd 0 gives an error and no call; otherwise a non-empty prefix of (down, up), stopping after the first error; the result is the first error met, and return values are never inspected; NoTargetWindow iff hwnd is 0, any other error is a native call's |
| `Mouse.SendMessage` | backend/mouse/mouse_windows.go:146-164 | makes exactly the calls, in order, and returns exactly the error that SendMessageRun gives for the oracle |

## Left out

- `backend/window/window_windows.go` (finding, describing and reading back windows) is not part of this model. It only wraps user32 calls and UTF-16 conversion.
- `backend/system/system_windows.go` is modelled as `ScreenDimensions` over the two raw `GetSystemMetrics` values, which the conversion takes as a parameter. The two `GetSystemMetrics` calls are not recorded in the call trace.
- The lazy binding of user32.dll and its procedures is left out. It is process-wide foreign state with no logic.
- The `SendInput` call is recorded with its count and the contents of the array. The pointer and `unsafe.Sizeof` arguments are memory layout and are not modelled.
- What the error returned by a native call contains is not modelled. It is an opaque error code given by the oracle, and the model follows the code's branches on it exactly.
- The real effects are not modelled: moving the cursor, delivering input, and `SendMessageW` blocking on a hung window.
- The type `MouseButton`, its constants, and the code that chooses among the three routes live in files that are not part of this model.
- The model assumes a 64-bit build, where Go's `int` is 64 bits wide. A 32-bit build would wrap `x*65535` at 32 bits instead.
- Coordinates.AxisInRange: stated for displays narrower than 2^31 pixels. `GetSystemMetrics` returns a C `int`, so no display is wider.
- LParam.PackLParamArithmetic: stated for y below 2^48. Above that, `y<<16` loses high bits, which `PackLParam` itself does model.
