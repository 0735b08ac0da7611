/**
 * The hotkey registry (ShortcutManager): a table from hotkey id to the closure that
 * starts a capture, three slots holding the event-handler refs of the three modes,
 * and the dispatcher that the Carbon event target calls on a hotkey press. The
 * Carbon calls made are recorded, in order, as a ghost trace; what Carbon hands
 * back is passed in.
 */
module Shortcuts {
  import opened Wrappers
  import opened Capture

  newtype UInt32 = x: int | 0 <= x < 0x1_0000_0000

  /** An EventHandlerRef, as opaque as Carbon makes it. */
  type HandlerRef = nat

  /** The closure stored for a hotkey: `ScreenCaptureManager.shared.startCapture(mode:)`. */
  datatype Handler = StartCapture(mode: CaptureMode)

  /** Virtual key codes of the T, I and R keys. */
  const KeyT: UInt32 := 0x11
  const KeyI: UInt32 := 0x22
  const KeyR: UInt32 := 0x0F

  /** Carbon's modifier bits `cmdKey` (bit 8) and `shiftKey` (bit 9). */
  const CmdKey: bv32 := 0x100
  const ShiftKey: bv32 := 0x200

  /** The hotkey signature 'POWC'. */
  const Signature: UInt32 := 0x504f5743

  const NoErr := 0

  /** The Carbon calls the registry makes, with the arguments that matter. */
  datatype CarbonCall =
    | UnregisterEventHotKey(ref: HandlerRef)
      /** `InstallEventHandler` for hotkey presses, and the ref it wrote back, if any. */
    | InstallEventHandler(installed: Option<HandlerRef>)
    | RegisterEventHotKey(keyCode: UInt32, modifiers: bv32, signature: UInt32, id: UInt32)

  /** A key, its modifiers and the hotkey id they are registered under. */
  datatype Binding = Binding(keyCode: UInt32, modifiers: bv32, id: UInt32)

  /** The default bindings: command-shift with T, I or R, under ids 1, 2 and 3. */
  function DefaultBinding(mode: CaptureMode): (b: Binding)
    ensures b.modifiers == CmdKey | ShiftKey
  {
    match mode
    case Text => Binding(KeyT, CmdKey | ShiftKey, 1)
    case Image => Binding(KeyI, CmdKey | ShiftKey, 2)
    case Translate => Binding(KeyR, CmdKey | ShiftKey, 3)
  }

  /** Different modes get different keys and different ids, with the same two modifiers. */
  lemma DefaultBindingsDistinct(m1: CaptureMode, m2: CaptureMode)
    requires m1 != m2
    ensures DefaultBinding(m1).keyCode != DefaultBinding(m2).keyCode
    ensures DefaultBinding(m1).id != DefaultBinding(m2).id
    ensures DefaultBinding(m1).modifiers == DefaultBinding(m2).modifiers == 0x300
  {
  }

  /** The table `registerShortcuts` leaves: the three mode handlers under ids 1, 2 and 3. */
  function WithDefaultHandlers(handlers: map<UInt32, Handler>): (r: map<UInt32, Handler>)
    ensures r.Keys == handlers.Keys + {1, 2, 3}
    ensures forall mode: CaptureMode :: r[DefaultBinding(mode).id] == StartCapture(mode)
    ensures forall id | id in handlers && id != 1 && id != 2 && id != 3 :: r[id] == handlers[id]
  {
    handlers[1 := StartCapture(Text)][2 := StartCapture(Image)][3 := StartCapture(Translate)]
  }

  /** Starting from an empty table, exactly the ids 1, 2 and 3 have handlers. */
  lemma RegisteredIds()
    ensures WithDefaultHandlers(map[]).Keys == {1, 2, 3}
  {
  }

  /** Registering again changes nothing in the table. */
  lemma RegisterTwice(handlers: map<UInt32, Handler>)
    ensures WithDefaultHandlers(WithDefaultHandlers(handlers)) == WithDefaultHandlers(handlers)
  {
  }

  /**
   * What the dispatcher schedules for a hotkey event: `read` is the hotkey id that
   * `GetEventParameter` read, or None when it failed. At most one handler, and
   * exactly the table's handler when the id is present.
   */
  function Dispatch(handlers: map<UInt32, Handler>, read: Option<UInt32>): (scheduled: seq<Handler>)
    ensures |scheduled| <= 1
    ensures scheduled != [] <==> read.Some? && read.value in handlers
    ensures scheduled != [] ==> scheduled[0] == handlers[read.value]
  {
    if read.Some? && read.value in handlers then [handlers[read.value]] else []
  }

  /** After registration, each mode's hotkey schedules the start of a capture in that mode. */
  lemma HotKeyStartsItsMode(handlers: map<UInt32, Handler>, mode: CaptureMode)
    ensures Dispatch(WithDefaultHandlers(handlers), Some(DefaultBinding(mode).id)) == [StartCapture(mode)]
  {
  }

  /** `UnregisterEventHotKey` on the slot's ref, if the slot holds one. */
  function ReleaseCalls(slot: Option<HandlerRef>): seq<CarbonCall>
  {
    if slot.Some? then [UnregisterEventHotKey(slot.value)] else []
  }

  /** The two Carbon calls of `registerHotKey`, in order. */
  function RegistrationCalls(b: Binding, installed: Option<HandlerRef>): seq<CarbonCall>
  {
    [InstallEventHandler(installed), RegisterEventHotKey(b.keyCode, b.modifiers, Signature, b.id)]
  }

  /** ShortcutManager.shared, with the static handler table as one of its fields. */
  class ShortcutManager {
    var textCaptureEventHandler: Option<HandlerRef>
    var imageCaptureEventHandler: Option<HandlerRef>
    var translateCaptureEventHandler: Option<HandlerRef>
    /** `ShortcutManager.hotKeyHandlers`. */
    var hotKeyHandlers: map<UInt32, Handler>
    /** Handlers the dispatcher has put on the main queue, oldest first. */
    var mainQueue: seq<Handler>
    /** Every Carbon call made so far, oldest first. */
    ghost var carbonCalls: seq<CarbonCall>

    /** The handler-ref slot of a mode. */
    function Slot(mode: CaptureMode): Option<HandlerRef>
      reads this
    {
      match mode
      case Text => textCaptureEventHandler
      case Image => imageCaptureEventHandler
      case Translate => translateCaptureEventHandler
    }

    constructor ()
      ensures Slot(Text).None? && Slot(Image).None? && Slot(Translate).None?
      ensures hotKeyHandlers == map[] && mainQueue == [] && carbonCalls == []
    {
      textCaptureEventHandler, imageCaptureEventHandler, translateCaptureEventHandler := None, None, None;
      hotKeyHandlers, mainQueue := map[], [];
      carbonCalls := [];
    }

    /**
     * `registerShortcuts`; the three arguments are the refs `InstallEventHandler`
     * writes back for text, image and translate, in that order.
     */
    method RegisterShortcuts(textInstalled: Option<HandlerRef>, imageInstalled: Option<HandlerRef>,
                             translateInstalled: Option<HandlerRef>)
      modifies this
      ensures hotKeyHandlers == WithDefaultHandlers(old(hotKeyHandlers))
      ensures Slot(Text) == textInstalled && Slot(Image) == imageInstalled && Slot(Translate) == translateInstalled
      ensures carbonCalls == old(carbonCalls)
        + ReleaseCalls(old(Slot(Text))) + RegistrationCalls(DefaultBinding(Text), textInstalled)
        + ReleaseCalls(old(Slot(Image))) + RegistrationCalls(DefaultBinding(Image), imageInstalled)
        + ReleaseCalls(old(Slot(Translate))) + RegistrationCalls(DefaultBinding(Translate), translateInstalled)
      ensures mainQueue == old(mainQueue)
    {
      RegisterTextCaptureShortcut(textInstalled);
      RegisterImageCaptureShortcut(imageInstalled);
      RegisterTranslateCaptureShortcut(translateInstalled);
    }

    method RegisterTextCaptureShortcut(installed: Option<HandlerRef>)
      modifies this
      ensures hotKeyHandlers == old(hotKeyHandlers)[1 := StartCapture(Text)]
      ensures Slot(Text) == installed && Slot(Image) == old(Slot(Image)) && Slot(Translate) == old(Slot(Translate))
      ensures carbonCalls == old(carbonCalls) + ReleaseCalls(old(Slot(Text))) + RegistrationCalls(DefaultBinding(Text), installed)
      ensures mainQueue == old(mainQueue)
    {
      if textCaptureEventHandler.Some? {
        carbonCalls := carbonCalls + [UnregisterEventHotKey(textCaptureEventHandler.value)];
        textCaptureEventHandler := None;
      }
      RegisterHotKey(KeyT, CmdKey | ShiftKey, 1, StartCapture(Text), installed);
    }

    method RegisterImageCaptureShortcut(installed: Option<HandlerRef>)
      modifies this
      ensures hotKeyHandlers == old(hotKeyHandlers)[2 := StartCapture(Image)]
      ensures Slot(Image) == installed && Slot(Text) == old(Slot(Text)) && Slot(Translate) == old(Slot(Translate))
      ensures carbonCalls == old(carbonCalls) + ReleaseCalls(old(Slot(Image))) + RegistrationCalls(DefaultBinding(Image), installed)
      ensures mainQueue == old(mainQueue)
    {
      if imageCaptureEventHandler.Some? {
        carbonCalls := carbonCalls + [UnregisterEventHotKey(imageCaptureEventHandler.value)];
        imageCaptureEventHandler := None;
      }
      RegisterHotKey(KeyI, CmdKey | ShiftKey, 2, StartCapture(Image), installed);
    }

    method RegisterTranslateCaptureShortcut(installed: Option<HandlerRef>)
      modifies this
      ensures hotKeyHandlers == old(hotKeyHandlers)[3 := StartCapture(Translate)]
      ensures Slot(Translate) == installed && Slot(Text) == old(Slot(Text)) && Slot(Image) == old(Slot(Image))
      ensures carbonCalls == old(carbonCalls) + ReleaseCalls(old(Slot(Translate))) + RegistrationCalls(DefaultBinding(Translate), installed)
      ensures mainQueue == old(mainQueue)
    {
      if translateCaptureEventHandler.Some? {
        carbonCalls := carbonCalls + [UnregisterEventHotKey(translateCaptureEventHandler.value)];
        translateCaptureEventHandler := None;
      }
      RegisterHotKey(KeyR, CmdKey | ShiftKey, 3, StartCapture(Translate), installed);
    }

    /**
     * `registerHotKey`: store the handler under `id` (replacing any earlier one),
     * install the event handler, register the hotkey, and keep the installed ref in
     * the slot of id 1, 2 or 3; any other id fills no slot.
     */
    method RegisterHotKey(keyCode: UInt32, modifiers: bv32, id: UInt32, handler: Handler, installed: Option<HandlerRef>)
      modifies this
      ensures hotKeyHandlers == old(hotKeyHandlers)[id := handler]
      ensures forall other | other in old(hotKeyHandlers) && other != id :: hotKeyHandlers[other] == old(hotKeyHandlers)[other]
      ensures Slot(Text) == if id == 1 then installed else old(Slot(Text))
      ensures Slot(Image) == if id == 2 then installed else old(Slot(Image))
      ensures Slot(Translate) == if id == 3 then installed else old(Slot(Translate))
      ensures carbonCalls == old(carbonCalls) + RegistrationCalls(Binding(keyCode, modifiers, id), installed)
      ensures mainQueue == old(mainQueue)
    {
      hotKeyHandlers := hotKeyHandlers[id := handler];
      carbonCalls := carbonCalls + [InstallEventHandler(installed)];
      carbonCalls := carbonCalls + [RegisterEventHotKey(keyCode, modifiers, Signature, id)];
      if id == 1 {
        textCaptureEventHandler := installed;
      } else if id == 2 {
        imageCaptureEventHandler := installed;
      } else if id == 3 {
        translateCaptureEventHandler := installed;
      }
    }

    /**
     * The global `hotKeyHandler`: `read` is the hotkey id `GetEventParameter` read,
     * or None when it did not return noErr. Schedules the id's handler, if any, and
     * reports noErr in every case.
     */
    method HotKeyHandler(read: Option<UInt32>) returns (status: int)
      modifies this`mainQueue
      ensures status == NoErr
      ensures mainQueue == old(mainQueue) + Dispatch(hotKeyHandlers, read)
    {
      if read.Some? {
        if read.value in hotKeyHandlers {
          mainQueue := mainQueue + [hotKeyHandlers[read.value]];
        }
      }
      status := NoErr;
    }
  }
}
