# Powercap capture core in Dafny

Powercap is a macOS menu-bar tool. A global hotkey (command-shift with T, I or R)
opens a transparent overlay on the main screen. The user drags out a rectangle on
it. The region is then photographed and handed to one of three modes:

- **text** copies the recognised lines to the clipboard;
- **image** offers to save the picture;
- **translate** copies the recognised lines with a translation marker appended.

This project models the three pieces of that app that hold state, and proves what
they do:

- **The overlay's selection gesture** (`CaptureOverlayView`, module `Overlay`). A
  tracker that is either selecting or not, over a start point and a current point.
  Mouse-down, mouse-dragged, mouse-up and key-down events drive it. Each event it
  reacts to makes exactly one call on its delegate: start, update, end with the
  spanned rectangle, or cancel on escape (key code 53).
- **The capture coordinator** (`ScreenCaptureManager`, module `Capture`). It has a
  mode slot and a window slot. `startCapture` fills both. `endCapture` always
  clears the window. Then, unless the rectangle is empty, it passes the rectangle
  to `normalizeRect`, which as written returns it unchanged (see "Findings"), and
  runs exactly one mode handler on the result. The model uses the intended
  normalisation, which never changes a rectangle the overlay sends. The handlers' text assembly
  (top candidates joined by line feeds, the translation stub, the timestamped file
  name) is modelled as pure functions.
- **The hotkey registry** (`ShortcutManager`, module `Shortcuts`). A table maps
  hotkey id to handler, and three per-mode handler-ref slots are released before
  re-registering. The Carbon dispatcher looks up the pressed hotkey's id and
  schedules at most one handler on the main queue.

Module `Session` connects the overlay and the coordinator. From a started capture,
a press, any drags and a release produce exactly one dispatch of the started mode
on the rectangle spanned by the press and the release, unless that rectangle is
empty. A press, drags and escape produce nothing but a closed window.
`Geometry` holds points and rectangles. `Wrappers` holds an `Option` type.

The overlay and the coordinator each have a pure state record (`Tracker`,
`Coordinator`) and transition functions that specify them. Their methods are proved
to move the fields and the effect trace exactly as those functions say, and the
lemmas are stated over the functions. `ShortcutManager` has no state record: its
method contracts state the new table, slots, queue and Carbon calls directly,
through the functions `WithDefaultHandlers`, `Dispatch`, `ReleaseCalls` and
`RegistrationCalls`.

Outside effects are recorded in ghost traces, never performed:

- the overlay's delegate calls;
- the coordinator's effects: window opened or closed, screenshot, handler
  dispatched, clipboard set, notification, save panel;
- the registry's Carbon calls.

What the operating system answers comes in as a parameter:

- the identity of a new window;
- Vision's outcome for a screenshot (`Recognition`);
- the clock reading used for the file name;
- the ref that `InstallEventHandler` writes back;
- the hotkey id that `GetEventParameter` reads, or none when that call fails.

Coordinates are exact reals.

The code does a few things a reader might not expect; the model follows the code,
except for `normalizeRect`, whose dead branches are logged under "Findings":

- A second hotkey during a capture is neither ignored nor turned into a cancel.
  `startCapture` overwrites both slots. The earlier overlay window is never closed
  (`Session.RestartKeepsLatest`).
- A recognition error, a missing bitmap or results of the wrong type end the text
  and translate handlers silently. There is no failure notification and no
  clipboard write.
- The overlay accepts a new press after an end or a cancel. Escape sends a cancel
  even when no selection is under way.
- Translation is the code's stub: the text followed by `" (번역됨: <language>)"`.
- The "release" before re-registering a hotkey passes the slot's ref to
  `UnregisterEventHotKey`. That ref is the `EventHandlerRef` that
  `InstallEventHandler` produced, while the `EventHotKeyRef` that
  `RegisterEventHotKey` returns is dropped. The model records the calls exactly as
  made and does not interpret them.

## Model

| member | source | states |
|---|---|---|
| `Overlay.SelectionRect` | Powercap/Powercap/CaptureOverlayView.swift:117-124 | the rectangle has non-negative sides and, on each axis, runs from one of the two points to the other |
| `Overlay.SelectionRectSymmetric` | Powercap/Powercap/CaptureOverlayView.swift:119-122 | swapping start and current point gives the same rectangle |
| `Overlay.SelectionRectSides` | Powercap/Powercap/CaptureOverlayView.swift:119-122 | origin is the component-wise minimum of the points, sides are the absolute coordinate differences |
| `Overlay.Step` | Powercap/Powercap/CaptureOverlayView.swift:32-63 | at most one delegate call per event; a call is made exactly for a press, a drag or release while selecting, or escape; no call means no state change; afterwards it is selecting exactly after a press, or if it was selecting and the event is neither a release nor escape; only a press moves the start point |
| `Overlay.Run` | Powercap/Powercap/CaptureOverlayView.swift:32-63 | a sequence of events makes no more delegate calls than there are events |
| `Overlay.DragsWhileSelecting` | Powercap/Powercap/CaptureOverlayView.swift:39-45 | drags while selecting keep the selection and its start point and report each location in order |
| `Overlay.GestureEnd` | Powercap/Powercap/CaptureOverlayView.swift:32-56 | press, drags, release: one start with the press point, one update per drag, one end whose rectangle depends only on the press and release points, and selection over |
| `Overlay.NothingEndsWithoutPress` | Powercap/Powercap/CaptureOverlayView.swift:39-63 | when not selecting, events without a press change nothing and send only cancels, so no end can follow an end or cancel before a new press |
| `Overlay.EndsNeedPresses` | Powercap/Powercap/CaptureOverlayView.swift:32-56 | in any event sequence the end calls number at most the presses, plus one if a selection was already under way |
| `Overlay.CaptureOverlayView.constructor` | Powercap/Powercap/CaptureOverlayView.swift:13-25 | a new view is not selecting, both points are zero, nothing sent |
| `Overlay.CaptureOverlayView.MouseDown` | Powercap/Powercap/CaptureOverlayView.swift:32-37 | sets the start point and selecting, leaves the current point, sends exactly one start with that point |
| `Overlay.CaptureOverlayView.MouseDragged` | Powercap/Powercap/CaptureOverlayView.swift:39-45 | while selecting, records the point and sends one update; otherwise changes and sends nothing |
| `Overlay.CaptureOverlayView.MouseUp` | Powercap/Powercap/CaptureOverlayView.swift:47-56 | while selecting, records the point, stops selecting and sends one end with the start-to-release rectangle; otherwise changes and sends nothing |
| `Overlay.CaptureOverlayView.KeyDown` | Powercap/Powercap/CaptureOverlayView.swift:58-63 | key 53 stops selecting and sends one cancel; any other key changes and sends nothing |
| `Capture.NormalizedRect` | Powercap/Powercap/ScreenCaptureManager.swift:186-197 | the normalisation `normalizeRect` is meant to compute: non-negative sides; on each axis the new origin is min(x, x+w) and origin plus side is max(x, x+w) |
| `Capture.NormalizeRect` | Powercap/Powercap/ScreenCaptureManager.swift:186-197 | the intended field-by-field flip, testing the stored sides: non-negative sides with the same spans, the identity on rectangles with non-negative sides, and equal to `NormalizedRect` |
| `Capture.NormalizeRectAsWritten` | Powercap/Powercap/ScreenCaptureManager.swift:186-197 | the code as written tests the standardized, never negative width and height, so it returns every rectangle unchanged |
| `Capture.NegativeWidthSurvives` | Powercap/Powercap/ScreenCaptureManager.swift:188 | (10, 0, -5, 3) fails the as-written test and keeps its negative side, while the intended normalisation gives (5, 0, 5, 3) |
| `Capture.SelectionsNeedNoNormalizing` | Powercap/Powercap/ScreenCaptureManager.swift:52-53 | every rectangle the overlay sends is left unchanged by the intended normalisation, so the as-written and intended versions agree on every call the app makes |
| `Capture.NormalizeKeepsStandard` | Powercap/Powercap/ScreenCaptureManager.swift:188-195 | identity on rectangles whose sides are already non-negative |
| `Capture.NormalizeIdempotent` | Powercap/Powercap/ScreenCaptureManager.swift:186-197 | normalising twice is normalising once |
| `Capture.NormalizeKeepsEmptiness` | Powercap/Powercap/ScreenCaptureManager.swift:52-53 | a rectangle is empty exactly when its normalisation is, so the emptiness gate may be read either side of the normalisation |
| `Capture.CompactMap` | Powercap/Powercap/ScreenCaptureManager.swift:92-94 | keeps only present top candidates, no more lines than observations, none when no observation has a candidate |
| `Capture.CompactMapSplit` | Powercap/Powercap/ScreenCaptureManager.swift:92-94 | an observation among others is kept in its place exactly when it has a top candidate; one without is skipped and the others keep their order |
| `Capture.CompactMapPresent` | Powercap/Powercap/ScreenCaptureManager.swift:92-94 | when every observation has a candidate, all of them are kept, in order |
| `Capture.JoinLines` | Powercap/Powercap/ScreenCaptureManager.swift:97 | joining no lines gives the empty string, one line gives that line |
| `Capture.SplitJoin` | Powercap/Powercap/ScreenCaptureManager.swift:97 | lines without line feeds, joined with line feeds, split back into exactly those lines |
| `Capture.TranslateText` | Powercap/Powercap/ScreenCaptureManager.swift:143-146 | result is the text unchanged, then the marker " (번역됨: ", then the language, then ")" |
| `Capture.TranslateInjective` | Powercap/Powercap/ScreenCaptureManager.swift:143-146 | the stub loses no text: equal results for one language mean equal texts |
| `Capture.Truncate` | Powercap/Powercap/ScreenCaptureManager.swift:159 | Swift's `Int(Double)` truncates toward zero |
| `Capture.SaveName` | Powercap/Powercap/ScreenCaptureManager.swift:159 | the suggested file name starts with "powercap_" |
| `Capture.DecimalValue` | Powercap/Powercap/ScreenCaptureManager.swift:159 | the decimal numeral of a natural number reads back as that number |
| `Capture.IntStringValue` | Powercap/Powercap/ScreenCaptureManager.swift:159 | an interpolated Int is an optional minus sign and digits, and reads back as that Int |
| `Capture.SaveNameValue` | Powercap/Powercap/ScreenCaptureManager.swift:159 | after "powercap_", the suggested name holds a numeral whose value is the clock reading truncated toward zero |
| `Capture.SaveNamesDiffer` | Powercap/Powercap/ScreenCaptureManager.swift:159 | clock readings in different whole seconds give different file names |
| `Capture.TextEffects` | Powercap/Powercap/ScreenCaptureManager.swift:83-108 | text mode does something exactly when Vision delivered observations: it sets the clipboard to the joined top candidates, then notifies |
| `Capture.TranslateEffects` | Powercap/Powercap/ScreenCaptureManager.swift:111-140 | translate mode does something exactly when Vision delivered observations: it sets the clipboard to the translated joined candidates, then notifies |
| `Capture.ImageEffects` | Powercap/Powercap/ScreenCaptureManager.swift:149-159 | image mode opens the save panel once, with the timestamped name |
| `Capture.ModeEffects` | Powercap/Powercap/ScreenCaptureManager.swift:56-63 | a mode handler only sets the clipboard, notifies or opens the save panel |
| `Capture.FailedRecognitionWritesNoClipboard` | Powercap/Powercap/ScreenCaptureManager.swift:84-90 | a recognition error, missing bitmap or unexpected results write nothing to the clipboard in any mode |
| `Capture.TextModeRoundTrip` | Powercap/Powercap/ScreenCaptureManager.swift:92-99 | the clipboard text of text mode splits back into exactly the lines Vision read, when they contain no line feed |
| `Capture.Initial` | Powercap/Powercap/ScreenCaptureManager.swift:14-19 | no window, text mode, and the stored language or else "한국어" |
| `Capture.Start` | Powercap/Powercap/ScreenCaptureManager.swift:22-44 | `startCapture` sets mode and window unconditionally, keeps the rest, and opens exactly the new window |
| `Capture.End` | Powercap/Powercap/ScreenCaptureManager.swift:47-65 | `endCapture` clears the window slot and nothing else, and always begins by closing the window it held (nothing when the slot is empty, else that one window) |
| `Capture.EndDispatch` | Powercap/Powercap/ScreenCaptureManager.swift:52-63 | an empty rectangle dispatches nothing and only closes the window; otherwise exactly one dispatch, of the current mode, on the normalised rectangle |
| `Capture.EndDependsOnSlotsOnly` | Powercap/Powercap/ScreenCaptureManager.swift:201-207 | the recorded start and current points never influence `endCapture` |
| `Capture.React` | Powercap/Powercap/ScreenCaptureManager.swift:200-217 | no delegate call except the end changes the mode or the language |
| `Capture.ScreenCaptureManager.constructor` | Powercap/Powercap/ScreenCaptureManager.swift:14-19 | the slots start as in `Initial`, with no effects |
| `Capture.ScreenCaptureManager.StartCapture` | Powercap/Powercap/ScreenCaptureManager.swift:22-44 | mode and window slots overwritten, state and effects as `Start` says |
| `Capture.ScreenCaptureManager.EndCapture` | Powercap/Powercap/ScreenCaptureManager.swift:47-65 | window slot cleared, mode kept, state and effects as `End` says |
| `Capture.ScreenCaptureManager.Handle` | Powercap/Powercap/ScreenCaptureManager.swift:56-63 | the switch on the current mode runs that mode's handler and only it |
| `Capture.ScreenCaptureManager.ExtractText` | Powercap/Powercap/ScreenCaptureManager.swift:83-108 | effects as `TextEffects` says |
| `Capture.ScreenCaptureManager.ExtractAndTranslateText` | Powercap/Powercap/ScreenCaptureManager.swift:111-140 | effects as `TranslateEffects` says, with the language the stored setting holds when the handler runs |
| `Capture.ScreenCaptureManager.StoreTranslateLanguage` | Powercap/Powercap/SettingsView.swift:55-59 | a language picked in the settings writes the shared `translateLanguage` setting; nothing else changes |
| `Capture.TranslationUsesStoredLanguage` | Powercap/Powercap/ScreenCaptureManager.swift:127 | after the setting is changed to a language, the next translate capture copies the text translated into that language |
| `Capture.ScreenCaptureManager.ProcessImage` | Powercap/Powercap/ScreenCaptureManager.swift:149-159 | effects as `ImageEffects` says |
| `Capture.ScreenCaptureManager.DidStartSelection` | Powercap/Powercap/ScreenCaptureManager.swift:201-203 | records the start point only; no effect |
| `Capture.ScreenCaptureManager.DidUpdateSelection` | Powercap/Powercap/ScreenCaptureManager.swift:205-207 | records the current point only; no effect |
| `Capture.ScreenCaptureManager.DidEndSelection` | Powercap/Powercap/ScreenCaptureManager.swift:209-211 | does exactly what `endCapture` does |
| `Capture.ScreenCaptureManager.DidCancel` | Powercap/Powercap/ScreenCaptureManager.swift:213-216 | closes the window it held, if any, and clears its slot; dispatches nothing |
| `Session.UpdatesOnlyRecord` | Powercap/Powercap/ScreenCaptureManager.swift:205-207 | update calls have no effect and keep window, mode and language |
| `Session.CancelsWhenClosed` | Powercap/Powercap/ScreenCaptureManager.swift:213-216 | with the window slot empty, further cancels do nothing |
| `Session.CompletedSelection` | Powercap/Powercap/ScreenCaptureManager.swift:200-211 | start, updates, end: the coordinator does exactly what `endCapture` does from its slots before the gesture |
| `Session.GestureCalls` | Powercap/Powercap/CaptureOverlayView.swift:32-56 | a press, drags and a release send a start, only updates, and an end with the spanned rectangle |
| `Session.GestureDispatch` | Powercap/Powercap/ScreenCaptureManager.swift:47-63 | after `startCapture(mode)`, press, drags, release: window closed, then (unless empty) one screenshot and one dispatch of that mode on the press-to-release rectangle, followed by that handler's effects |
| `Session.GestureCancel` | Powercap/Powercap/ScreenCaptureManager.swift:213-216 | after `startCapture`, press, drags, escape and any events without a press: only the window is closed, nothing is dispatched |
| `Session.RestartKeepsLatest` | Powercap/Powercap/ScreenCaptureManager.swift:22-43 | after two `startCapture`s, the gesture dispatches the latest mode and the first window is never closed |
| `Session.TextDragScenario` | Powercap/Powercap/ScreenCaptureManager.swift:52-58 | text mode, drag from (100, 100) to (300, 250): one text dispatch on (100, 100, 200, 150) |
| `Session.EmptyImageScenario` | Powercap/Powercap/ScreenCaptureManager.swift:52 | image mode, click at (50, 50) without moving: only the window is closed |
| `Shortcuts.DefaultBinding` | Powercap/Powercap/ShortcutManager.swift:36-84 | every default binding uses the command-shift mask |
| `Shortcuts.DefaultBindingsDistinct` | Powercap/Powercap/ShortcutManager.swift:16-18 | the three modes have distinct key codes (0x11, 0x22, 0x0F) and ids, all with modifiers 0x300 |
| `Shortcuts.WithDefaultHandlers` | Powercap/Powercap/ShortcutManager.swift:21-25 | after registering, the table's ids are the old ones plus 1, 2 and 3, each new id maps to its mode's handler, and other ids are untouched |
| `Shortcuts.RegisteredIds` | Powercap/Powercap/ShortcutManager.swift:21-25 | starting from an empty table, the ids are exactly {1, 2, 3} |
| `Shortcuts.RegisterTwice` | Powercap/Powercap/ShortcutManager.swift:95 | registering twice leaves the table as registering once |
| `Shortcuts.Dispatch` | Powercap/Powercap/ShortcutManager.swift:132-146 | at most one handler is scheduled, and one is scheduled exactly when the parameter read succeeded and its id is in the table; it is that id's handler |
| `Shortcuts.HotKeyStartsItsMode` | Powercap/Powercap/ShortcutManager.swift:40-44 | after registration, a mode's hotkey id schedules exactly the start of a capture in that mode |
| `Shortcuts.ShortcutManager.constructor` | Powercap/Powercap/ShortcutManager.swift:8-13 | empty slots, empty table, empty queue, no Carbon calls |
| `Shortcuts.ShortcutManager.RegisterShortcuts` | Powercap/Powercap/ShortcutManager.swift:21-25 | table as `WithDefaultHandlers`; each slot holds its new ref; per mode in order: release the old ref, install, register |
| `Shortcuts.ShortcutManager.RegisterTextCaptureShortcut` | Powercap/Powercap/ShortcutManager.swift:28-45 | an empty text slot releases nothing, a filled one makes one `UnregisterEventHotKey` call with its ref and is cleared; then id 1 is registered for text; other slots untouched |
| `Shortcuts.ShortcutManager.RegisterImageCaptureShortcut` | Powercap/Powercap/ShortcutManager.swift:48-65 | an empty image slot releases nothing, a filled one makes one `UnregisterEventHotKey` call with its ref and is cleared; then id 2 is registered for image; other slots untouched |
| `Shortcuts.ShortcutManager.RegisterTranslateCaptureShortcut` | Powercap/Powercap/ShortcutManager.swift:68-85 | an empty translate slot releases nothing, a filled one makes one `UnregisterEventHotKey` call with its ref and is cleared; then id 3 is registered for translate; other slots untouched |
| `Shortcuts.ShortcutManager.RegisterHotKey` | Powercap/Powercap/ShortcutManager.swift:88-128 | stores the handler under its id, replacing any earlier one and leaving other ids alone; makes exactly two Carbon calls, `InstallEventHandler` and then `RegisterEventHotKey` with the key code, modifiers, signature and id; ids 1, 2, 3 fill the matching slot; any other id fills none |
| `Shortcuts.ShortcutManager.HotKeyHandler` | Powercap/Powercap/ShortcutManager.swift:132-146 | appends to the main queue exactly what `Dispatch` schedules, and returns noErr in every case |

## Left out

- Capture.NormalizeRect: `EndCapture` uses the intended normalisation, not the code as written. On a rectangle with a negative side the code returns it unchanged. The two agree on every rectangle the overlay sends (`SelectionsNeedNoNormalizing`), so no end-to-end lemma depends on which one is used.

- Drawing: `draw` and every `needsDisplay` assignment in the overlay are presentation only.
- Window creation and `CGWindowListCreateImage`. A new window is an identity passed to `StartCapture`. A screenshot is the effect `ScreenshotTaken(rect)`. A failed capture reaches the text modes as `Recognition.NoBitmap`. The crash of `NSScreen.main!` on a machine without a main screen is not modelled.
- Vision. The recognition request is the `Recognition` parameter: an error, missing results, or one optional top candidate per observation. The accuracy setting has no counterpart.
- Pasteboard, notification centre, save panel and PNG encoding are effects. What happens after the save panel opens is not modelled: the user's answer, the TIFF-to-PNG conversion and the file write.
- The effects of Carbon are left out. `InstallEventHandler`, `RegisterEventHotKey` and `UnregisterEventHotKey` are recorded as calls with their arguments and are not interpreted; their status results are ignored by the source, and by the model too. `GetEventParameter` is not recorded: its outcome is the `read` parameter of `HotKeyHandler`, `None` when its status is not noErr.
- Handlers queued with `DispatchQueue.main.async` stay in `mainQueue`; running them is not modelled, and neither is any concurrency.
- Every `registerHotKey` installs one more application-wide handler. Carbon stops at the first handler that answers noErr, and `hotKeyHandler` always does. The model therefore treats one hotkey press as one dispatcher call.
- The static `hotKeyHandlers` table is a field of the single `ShortcutManager`.
- The overlay's weak delegate is taken as always attached, as `startCapture` attaches the coordinator.
- `GetEventParameter` on a nil event (a crash in the source) is not modelled.
- `CGFloat` rounding is not modelled: coordinates are exact reals.
- `Capture.Truncate` does not model the trap of `Int(Double)` on values outside the 64-bit range.
- `Powercap/Powercap/SettingsView.swift` is not part of this model apart from its language picker, which writes the `translateLanguage` setting the coordinator reads (`StoreTranslateLanguage`). Its shortcut strings are never read by the registry, and the rest of the view is presentation.
- Capture.ScreenCaptureManager.ExtractAndTranslateText: the stored setting is modelled as the coordinator's `translateLanguage` field, so the model sees a change of the setting only through `StoreTranslateLanguage`; writes to the defaults database by any other route are not modelled.

## Findings

| source | as written | input that shows it | evidently intended | confidence | as-written member | corrected member |
|---|---|---|---|---|---|---|
| Powercap/Powercap/ScreenCaptureManager.swift:188-195 | the tests `normalized.width < 0` and `normalized.height < 0` read CGRect's standardized getters, which are never negative, so neither flip runs and `normalizeRect` is the identity | `Rect(10, 0, -5, 3)` comes back as `(10, 0, -5, 3)` with its negative width | read the stored `size.width`/`size.height` in the tests and in the flips (lines 188-194), giving `(5, 0, 5, 3)` with the same spans | medium; not executed | `Capture.NormalizeRectAsWritten`, `Capture.NegativeWidthSurvives` | `Capture.NormalizeRect`, `Capture.NormalizedRect` |
