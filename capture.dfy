/**
 * The capture coordinator (ScreenCaptureManager): it remembers the mode of the
 * capture in progress and the overlay window showing it, reacts to the overlay's
 * delegate calls and, when a selection ends, hands the normalized rectangle to the
 * handler of the mode. What AppKit, Core Graphics and Vision do is recorded as a
 * trace of effects; what they answer is passed in.
 */
module Capture {
  import opened Wrappers
  import opened Geometry
  import Overlay

  datatype CaptureMode = Text | Image | Translate

  /** An overlay window, by the identity AppKit gives it when it is created. */
  type WindowId = nat

  /** What the Vision text request reports for one screenshot. */
  datatype Recognition =
      /** The screenshot has no bitmap (the capture failed and an empty image stood in). */
    | NoBitmap
      /** The request completed with an error. */
    | RecognitionError
      /** The results were not text observations. */
    | UnexpectedResults
      /** One entry per observation, in detection order: its top candidate, if it has one. */
    | Observations(candidates: seq<Option<string>>)

  /** The outside effects of the coordinator, in the order they happen. */
  datatype Effect =
    | WindowOpened(window: WindowId)
    | WindowClosed(window: WindowId)
    | ScreenshotTaken(rect: Rect)
    | Dispatched(mode: CaptureMode, rect: Rect)
      /** The general pasteboard is cleared and then holds exactly `text`. */
    | ClipboardSet(text: string)
    | Notified(title: string, body: string)
      /** The PNG save panel is shown with this file name filled in. */
    | SavePanelOpened(suggestedName: string)

  // ---------------------------------------------------------------------------
  // Rectangles

  /** The rectangle with the same spans as `r` on both axes, written with non-negative sides. */
  function NormalizedRect(r: Rect): (n: Rect)
    ensures IsStandard(n)
    ensures n.x == Min(r.x, r.x + r.width) && n.x + n.width == Max(r.x, r.x + r.width)
    ensures n.y == Min(r.y, r.y + r.height) && n.y + n.height == Max(r.y, r.y + r.height)
  {
    Rect(Min(r.x, r.x + r.width), Min(r.y, r.y + r.height), Abs(r.width), Abs(r.height))
  }

  /** A rectangle that already has non-negative sides is left as it is. */
  lemma NormalizeKeepsStandard(r: Rect)
    requires IsStandard(r)
    ensures NormalizedRect(r) == r
  {
  }

  lemma NormalizeIdempotent(r: Rect)
    ensures NormalizedRect(NormalizedRect(r)) == NormalizedRect(r)
  {
    NormalizeKeepsStandard(NormalizedRect(r));
  }

  /** Normalizing neither creates nor removes emptiness. */
  lemma NormalizeKeepsEmptiness(r: Rect)
    ensures IsEmpty(NormalizedRect(r)) <==> IsEmpty(r)
  {
  }

  /**
   * `normalizeRect` as it is meant to work: moves the origin across each negative
   * side and flips that side. The rest of the model uses this one.
   */
  method NormalizeRect(rect: Rect) returns (normalized: Rect)
    ensures IsStandard(normalized)
    ensures normalized.x == Min(rect.x, rect.x + rect.width) && normalized.x + normalized.width == Max(rect.x, rect.x + rect.width)
    ensures normalized.y == Min(rect.y, rect.y + rect.height) && normalized.y + normalized.height == Max(rect.y, rect.y + rect.height)
    ensures IsStandard(rect) ==> normalized == rect
    ensures normalized == NormalizedRect(rect)
  {
    normalized := rect;
    if normalized.width < 0.0 {
      normalized := normalized.(x := normalized.x + normalized.width);
      normalized := normalized.(width := -normalized.width);
    }
    if normalized.height < 0.0 {
      normalized := normalized.(y := normalized.y + normalized.height);
      normalized := normalized.(height := -normalized.height);
    }
  }

  /**
   * `normalizeRect` as written: its tests read `width` and `height`, whose getters
   * give the standardized, never negative lengths, so neither branch is taken and
   * the rectangle comes back as it went in, negative sides included.
   */
  method NormalizeRectAsWritten(rect: Rect) returns (normalized: Rect)
    ensures normalized == rect
  {
    normalized := rect;
    if StandardWidth(normalized) < 0.0 {
      normalized := normalized.(x := normalized.x + StandardWidth(normalized));
      normalized := normalized.(width := -StandardWidth(normalized));
    }
    if StandardHeight(normalized) < 0.0 {
      normalized := normalized.(y := normalized.y + StandardHeight(normalized));
      normalized := normalized.(height := -StandardHeight(normalized));
    }
  }

  /**
   * A rectangle with a negative width fails the as-written test, so it stays as it
   * is, while the intended normalization gives it non-negative sides.
   */
  lemma NegativeWidthSurvives()
    ensures var r := Rect(10.0, 0.0, -5.0, 3.0);
      !(StandardWidth(r) < 0.0) && !IsStandard(r) && NormalizedRect(r) == Rect(5.0, 0.0, 5.0, 3.0) && NormalizedRect(r) != r
  {
  }

  /**
   * Every rectangle the overlay sends already has non-negative sides, so on every
   * call the program makes the as-written and the intended normalization agree.
   */
  lemma SelectionsNeedNoNormalizing(p: Point, q: Point)
    ensures NormalizedRect(Overlay.SelectionRect(p, q)) == Overlay.SelectionRect(p, q)
  {
    NormalizeKeepsStandard(Overlay.SelectionRect(p, q));
  }

  // ---------------------------------------------------------------------------
  // Recognized text

  /** The top candidates, in order, skipping observations that have none. */
  function CompactMap(candidates: seq<Option<string>>): (lines: seq<string>)
    ensures |lines| <= |candidates|
    ensures forall l | l in lines :: Some(l) in candidates
    ensures (forall i | 0 <= i < |candidates| :: candidates[i].None?) ==> lines == []
  {
    if candidates == [] then []
    else (if candidates[0].Some? then [candidates[0].value] else []) + CompactMap(candidates[1..])
  }

  lemma {:induction false} CompactMapAppend(a: seq<Option<string>>, b: seq<Option<string>>)
    ensures CompactMap(a + b) == CompactMap(a) + CompactMap(b)
  {
    if a == [] {
      assert a + b == b;
    } else {
      assert (a + b)[1..] == a[1..] + b;
      CompactMapAppend(a[1..], b);
    }
  }

  /**
   * One observation among others: kept, in its place, exactly when it has a
   * candidate; an observation without one is skipped and the rest keep their order.
   */
  lemma CompactMapSplit(a: seq<Option<string>>, x: Option<string>, b: seq<Option<string>>)
    ensures CompactMap(a + [x] + b) == CompactMap(a) + (if x.Some? then [x.value] else []) + CompactMap(b)
  {
    CompactMapAppend(a + [x], b);
    CompactMapAppend(a, [x]);
    assert [x][1..] == [];
  }

  /** Every observation wrapped as a present candidate. */
  function Present(lines: seq<string>): (candidates: seq<Option<string>>)
    ensures |candidates| == |lines| && forall i | 0 <= i < |lines| :: candidates[i] == Some(lines[i])
  {
    seq(|lines|, i requires 0 <= i < |lines| => Some(lines[i]))
  }

  /** When every observation has a candidate, all of them are kept, in order. */
  lemma {:induction false} CompactMapPresent(lines: seq<string>)
    ensures CompactMap(Present(lines)) == lines
  {
    if lines != [] {
      assert Present(lines)[1..] == Present(lines[1..]);
      CompactMapPresent(lines[1..]);
    }
  }

  /** `joined(separator: "\n")`. */
  function JoinLines(lines: seq<string>): (s: string)
    ensures lines == [] ==> s == ""
    ensures |lines| == 1 ==> s == lines[0]
  {
    if lines == [] then ""
    else if |lines| == 1 then lines[0]
    else lines[0] + "\n" + JoinLines(lines[1..])
  }

  /** Cuts a string at every line feed; the inverse of JoinLines for lines without one. */
  function SplitLines(s: string): (lines: seq<string>)
    ensures |lines| >= 1
  {
    if s == [] then [""]
    else
      var rest := SplitLines(s[1..]);
      if s[0] == '\n' then [""] + rest else [[s[0]] + rest[0]] + rest[1..]
  }

  lemma {:induction false} SplitLine(a: string, b: string)
    requires '\n' !in a
    ensures SplitLines(a + "\n" + b) == [a] + SplitLines(b)
  {
    if a == [] {
      assert a + "\n" + b == "\n" + b;
      assert ("\n" + b)[1..] == b;
    } else {
      assert (a + "\n" + b)[1..] == a[1..] + "\n" + b;
      assert '\n' !in a[1..] by {
        forall i | 0 <= i < |a[1..]| ensures a[1..][i] != '\n' { assert a[1..][i] == a[i + 1]; }
      }
      SplitLine(a[1..], b);
      assert [a[0]] + a[1..] == a;
    }
  }

  lemma {:induction false} SplitSingle(a: string)
    requires '\n' !in a
    ensures SplitLines(a) == [a]
  {
    if a != [] {
      assert '\n' !in a[1..] by {
        forall i | 0 <= i < |a[1..]| ensures a[1..][i] != '\n' { assert a[1..][i] == a[i + 1]; }
      }
      SplitSingle(a[1..]);
      assert [a[0]] + a[1..] == a;
    }
  }

  predicate NoLineFeeds(lines: seq<string>)
  {
    forall i | 0 <= i < |lines| :: '\n' !in lines[i]
  }

  /** Joined lines without line feeds can be cut back into exactly those lines. */
  lemma {:induction false} SplitJoin(lines: seq<string>)
    requires |lines| > 0 && NoLineFeeds(lines)
    ensures SplitLines(JoinLines(lines)) == lines
  {
    if |lines| == 1 {
      SplitSingle(lines[0]);
    } else {
      assert NoLineFeeds(lines[1..]) by {
        forall i | 0 <= i < |lines[1..]| ensures '\n' !in lines[1..][i] { assert lines[1..][i] == lines[i + 1]; }
      }
      SplitJoin(lines[1..]);
      SplitLine(lines[0], JoinLines(lines[1..]));
    }
  }

  /** The text the clipboard receives: the recognized lines, one per line. */
  function RecognizedText(candidates: seq<Option<string>>): string
  {
    JoinLines(CompactMap(candidates))
  }

  /** What the placeholder translation appends after the recognized text. */
  const TranslationMarker := " (번역됨: "

  /** `translateText`: the text, untouched, followed by a marker naming the language. */
  function TranslateText(text: string, language: string): (r: string)
    ensures |r| == |text| + |TranslationMarker| + |language| + 1
    ensures r[..|text|] == text
    ensures r[|text|..|text| + |TranslationMarker|] == TranslationMarker
    ensures r[|text| + |TranslationMarker|..|r| - 1] == language && r[|r| - 1] == ')'
  {
    text + TranslationMarker + language + ")"
  }

  /** The placeholder loses nothing: different texts stay different after it. */
  lemma TranslateInjective(a: string, b: string, language: string)
    requires TranslateText(a, language) == TranslateText(b, language)
    ensures a == b
  {
    assert |a| == |b|;
    assert a == TranslateText(a, language)[..|a|];
  }

  // ---------------------------------------------------------------------------
  // The file name suggested for a saved image

  function Digit(d: nat): (c: char)
    requires d < 10
    ensures '0' <= c <= '9'
  {
    (48 + d) as char
  }

  /** The decimal numeral of `n`, most significant digit first. */
  function Decimal(n: nat): (s: string)
    ensures |s| >= 1 && forall i | 0 <= i < |s| :: '0' <= s[i] <= '9'
    ensures (n < 10) == (|s| == 1)
  {
    if n < 10 then [Digit(n)] else Decimal(n / 10) + [Digit(n % 10)]
  }

  predicate AllDigits(s: string)
  {
    forall i | 0 <= i < |s| :: '0' <= s[i] <= '9'
  }

  /** The number a string of decimal digits denotes, most significant digit first. */
  function DigitsValue(s: string): nat
    requires AllDigits(s)
    decreases |s|
  {
    if s == [] then 0 else DigitsValue(s[..|s| - 1]) * 10 + (s[|s| - 1] as int - 48)
  }

  /** Reading the numeral back gives the number. */
  lemma {:induction false} DecimalValue(n: nat)
    ensures DigitsValue(Decimal(n)) == n
    decreases n
  {
    var s := Decimal(n);
    if n >= 10 {
      assert s[..|s| - 1] == Decimal(n / 10);
      DecimalValue(n / 10);
    }
  }

  lemma DecimalInjective(a: nat, b: nat)
    requires Decimal(a) == Decimal(b)
    ensures a == b
  {
    DecimalValue(a);
    DecimalValue(b);
  }

  /** Swift's `Int(Double)`: truncation toward zero. */
  function Truncate(x: real): (i: int)
    ensures 0.0 <= x ==> i as real <= x < i as real + 1.0
    ensures x < 0.0 ==> i as real - 1.0 < x <= i as real
  {
    if x >= 0.0 then x.Floor else -((-x).Floor)
  }

  /** String interpolation of an Int. */
  function IntString(i: int): (s: string)
    ensures |s| >= 1
    ensures (s[0] == '-') <==> i < 0
  {
    if i < 0 then "-" + Decimal(-i) else Decimal(i)
  }

  /** An optional minus sign, then at least one decimal digit. */
  predicate IsIntNumeral(s: string)
  {
    |s| >= 1 && if s[0] == '-' then |s| >= 2 && AllDigits(s[1..]) else AllDigits(s)
  }

  /** The integer an interpolated Int denotes. */
  function IntValue(s: string): int
    requires IsIntNumeral(s)
  {
    if s[0] == '-' then -(DigitsValue(s[1..]) as int) else DigitsValue(s)
  }

  /** Reading an interpolated Int back gives the Int. */
  lemma IntStringValue(i: int)
    ensures IsIntNumeral(IntString(i)) && IntValue(IntString(i)) == i
  {
    var s := IntString(i);
    if i < 0 {
      assert s[0] == '-' && s[1..] == Decimal(-i);
      DecimalValue(-i);
    } else {
      assert s == Decimal(i) && s[0] != '-';
      DecimalValue(i);
    }
  }

  lemma IntStringInjective(a: int, b: int)
    requires IntString(a) == IntString(b)
    ensures a == b
  {
    if a < 0 {
      assert IntString(a)[1..] == Decimal(-a) && IntString(b)[1..] == Decimal(-b);
      DecimalInjective(-a, -b);
    } else {
      DecimalInjective(a, b);
    }
  }

  const SaveNamePrefix := "powercap_"

  /** `"powercap_\(Int(Date().timeIntervalSince1970))"`, for a clock reading in seconds. */
  function SaveName(clock: real): (name: string)
    ensures SaveNamePrefix <= name
  {
    SaveNamePrefix + IntString(Truncate(clock))
  }

  /** The digits after the prefix are the clock reading truncated to whole seconds. */
  lemma SaveNameValue(clock: real)
    ensures IsIntNumeral(SaveName(clock)[|SaveNamePrefix|..])
    ensures IntValue(SaveName(clock)[|SaveNamePrefix|..]) == Truncate(clock)
  {
    assert SaveName(clock)[|SaveNamePrefix|..] == IntString(Truncate(clock));
    IntStringValue(Truncate(clock));
  }

  /** Captures saved in different whole seconds are offered different names. */
  lemma SaveNamesDiffer(a: real, b: real)
    requires Truncate(a) != Truncate(b)
    ensures SaveName(a) != SaveName(b)
  {
    if SaveName(a) == SaveName(b) {
      assert SaveName(a)[|SaveNamePrefix|..] == IntString(Truncate(a));
      assert SaveName(b)[|SaveNamePrefix|..] == IntString(Truncate(b));
      IntStringInjective(Truncate(a), Truncate(b));
    }
  }

  // ---------------------------------------------------------------------------
  // The mode handlers

  const TextCopied := Notified("텍스트 캡처 완료", "클립보드에 텍스트가 복사되었습니다.")
  const TranslationCopied := Notified("번역 완료", "번역된 텍스트가 클립보드에 복사되었습니다.")

  /** `extractText`: copy the recognized lines and notify; nothing at all unless Vision delivered observations. */
  function TextEffects(recognition: Recognition): (effects: seq<Effect>)
    ensures effects != [] <==> recognition.Observations?
    ensures recognition.Observations? ==>
      effects[0] == ClipboardSet(JoinLines(CompactMap(recognition.candidates))) && effects[1..] == [TextCopied]
  {
    if recognition.Observations? then [ClipboardSet(RecognizedText(recognition.candidates)), TextCopied] else []
  }

  /** `extractAndTranslateText`: copy the translated recognized lines and notify, under the same condition. */
  function TranslateEffects(recognition: Recognition, language: string): (effects: seq<Effect>)
    ensures effects != [] <==> recognition.Observations?
    ensures recognition.Observations? ==>
      effects[0] == ClipboardSet(TranslateText(RecognizedText(recognition.candidates), language)) &&
      effects[1..] == [TranslationCopied]
  {
    if recognition.Observations? then
      [ClipboardSet(TranslateText(RecognizedText(recognition.candidates), language)), TranslationCopied]
    else []
  }

  /** `processImage`, which saves: the save panel opens with the timestamped name. */
  function ImageEffects(clock: real): (effects: seq<Effect>)
    ensures |effects| == 1 && effects[0].SavePanelOpened? && effects[0].suggestedName == SaveName(clock)
  {
    [SavePanelOpened(SaveName(clock))]
  }

  /** The handler of `mode`: it touches only the clipboard, the notifications and the save panel. */
  function ModeEffects(mode: CaptureMode, recognition: Recognition, language: string, clock: real): (effects: seq<Effect>)
    ensures forall e | e in effects :: e.ClipboardSet? || e.Notified? || e.SavePanelOpened?
  {
    match mode
    case Text => TextEffects(recognition)
    case Image => ImageEffects(clock)
    case Translate => TranslateEffects(recognition, language)
  }

  /** A recognition that fails writes nothing to the clipboard, whatever the mode. */
  lemma FailedRecognitionWritesNoClipboard(mode: CaptureMode, recognition: Recognition, language: string, clock: real)
    requires !recognition.Observations?
    ensures forall e | e in ModeEffects(mode, recognition, language, clock) :: !e.ClipboardSet?
  {
  }

  /**
   * On an image whose text Vision reads back as lines without line feeds, text mode
   * leaves exactly those lines on the clipboard.
   */
  lemma TextModeRoundTrip(lines: seq<string>)
    requires |lines| > 0 && NoLineFeeds(lines)
    ensures var effects := TextEffects(Observations(Present(lines)));
      effects[0].ClipboardSet? && SplitLines(effects[0].text) == lines
  {
    CompactMapPresent(lines);
    SplitJoin(lines);
  }

  // ---------------------------------------------------------------------------
  // The coordinator's state and its transitions

  /** The slots of the coordinator. */
  datatype Coordinator = Coordinator(
    window: Option<WindowId>,
    mode: CaptureMode,
    startPoint: Point,
    currentPoint: Point,
    language: string)

  /** The default of the `translateLanguage` setting. */
  const DefaultLanguage := "한국어"

  /** The shared coordinator when first used, given the stored language setting, if any. */
  function Initial(storedLanguage: Option<string>): (c: Coordinator)
    ensures c.window == None && c.mode == Text
    ensures c.language == if storedLanguage.Some? then storedLanguage.value else DefaultLanguage
  {
    Coordinator(None, Text, Zero, Zero, storedLanguage.GetOr(DefaultLanguage))
  }

  datatype Transition = Transition(state: Coordinator, effects: seq<Effect>)

  /** `startCapture`: overwrite both slots, whatever they held, and show the new window. */
  function Start(c: Coordinator, mode: CaptureMode, window: WindowId): (t: Transition)
    ensures t.state.mode == mode && t.state.window == Some(window)
    ensures t.state.startPoint == c.startPoint && t.state.currentPoint == c.currentPoint && t.state.language == c.language
    ensures t.effects == [WindowOpened(window)]
  {
    Transition(c.(mode := mode, window := Some(window)), [WindowOpened(window)])
  }

  /** `captureWindow?.close()`. */
  function CloseEffects(window: Option<WindowId>): seq<Effect>
  {
    if window.Some? then [WindowClosed(window.value)] else []
  }

  /** `endCapture`: close the window, then, unless the rectangle is empty, shoot and dispatch. */
  function End(c: Coordinator, rect: Rect, recognition: Recognition, clock: real): (t: Transition)
    ensures t.state == c.(window := None)
    ensures CloseEffects(c.window) <= t.effects
  {
    var closing := CloseEffects(c.window);
    if IsEmpty(rect) then Transition(c.(window := None), closing)
    else
      var r := NormalizedRect(rect);
      Transition(c.(window := None),
        closing + [ScreenshotTaken(r), Dispatched(c.mode, r)] + ModeEffects(c.mode, recognition, c.language, clock))
  }

  /** `End`'s effects, grouped as `endCapture` produces them: the close, then the capture. */
  lemma EndEffects(c: Coordinator, rect: Rect, recognition: Recognition, clock: real)
    ensures IsEmpty(rect) ==> End(c, rect, recognition, clock).effects == CloseEffects(c.window)
    ensures !IsEmpty(rect) ==> var r := NormalizedRect(rect);
      End(c, rect, recognition, clock).effects ==
        CloseEffects(c.window) + ([ScreenshotTaken(r), Dispatched(c.mode, r)] + ModeEffects(c.mode, recognition, c.language, clock))
  {
  }

  /** The coordinator as the overlay's delegate. */
  function React(c: Coordinator, e: Overlay.DelegateEvent, recognition: Recognition, clock: real): (t: Transition)
    ensures !e.DidEndSelection? ==> t.state.mode == c.mode && t.state.language == c.language
  {
    match e
    case DidStartSelection(p) => Transition(c.(startPoint := p), [])
    case DidUpdateSelection(p) => Transition(c.(currentPoint := p), [])
    case DidEndSelection(rect) => End(c, rect, recognition, clock)
    case DidCancel => Transition(c.(window := None), CloseEffects(c.window))
  }

  /** A sequence of delegate calls, handled in order. */
  function ReactAll(c: Coordinator, es: seq<Overlay.DelegateEvent>, recognition: Recognition, clock: real): (t: Transition)
    decreases |es|
  {
    if es == [] then Transition(c, [])
    else
      var first := React(c, es[0], recognition, clock);
      var rest := ReactAll(first.state, es[1..], recognition, clock);
      Transition(rest.state, first.effects + rest.effects)
  }

  /** The effects that are handler dispatches, in order. */
  function Dispatches(effects: seq<Effect>): (d: seq<Effect>)
    ensures |d| <= |effects|
    ensures forall i | 0 <= i < |d| :: d[i].Dispatched? && d[i] in effects
    ensures (forall i | 0 <= i < |effects| :: !effects[i].Dispatched?) ==> d == []
  {
    if effects == [] then []
    else (if effects[0].Dispatched? then [effects[0]] else []) + Dispatches(effects[1..])
  }

  lemma {:induction false} DispatchesAppend(a: seq<Effect>, b: seq<Effect>)
    ensures Dispatches(a + b) == Dispatches(a) + Dispatches(b)
  {
    if a == [] {
      assert a + b == b;
    } else {
      assert (a + b)[1..] == a[1..] + b;
      DispatchesAppend(a[1..], b);
    }
  }

  /** The screenshot, the dispatch and the handler's effects hold exactly one dispatch. */
  lemma OneDispatch(mode: CaptureMode, r: Rect, recognition: Recognition, language: string, clock: real)
    ensures Dispatches([ScreenshotTaken(r), Dispatched(mode, r)] + ModeEffects(mode, recognition, language, clock)) ==
      [Dispatched(mode, r)]
  {
    var shot := [ScreenshotTaken(r), Dispatched(mode, r)];
    var handled := ModeEffects(mode, recognition, language, clock);
    assert forall i | 0 <= i < |handled| :: !handled[i].Dispatched? by {
      forall i | 0 <= i < |handled| ensures !handled[i].Dispatched? { assert handled[i] in handled; }
    }
    assert Dispatches(shot) == [Dispatched(mode, r)];
    DispatchesAppend(shot, handled);
  }

  /**
   * `endCapture` dispatches nothing for an empty rectangle and otherwise exactly one
   * handler: the one of the current mode, on the normalized rectangle. For an empty
   * rectangle closing the window is all that happens.
   */
  lemma EndDispatch(c: Coordinator, rect: Rect, recognition: Recognition, clock: real)
    ensures Dispatches(End(c, rect, recognition, clock).effects) ==
      if IsEmpty(rect) then [] else [Dispatched(c.mode, NormalizedRect(rect))]
    ensures IsEmpty(rect) ==> End(c, rect, recognition, clock).effects == CloseEffects(c.window)
  {
    var closing := CloseEffects(c.window);
    assert Dispatches(closing) == [];
    if !IsEmpty(rect) {
      var r := NormalizedRect(rect);
      var captured := [ScreenshotTaken(r), Dispatched(c.mode, r)] + ModeEffects(c.mode, recognition, c.language, clock);
      OneDispatch(c.mode, r, recognition, c.language, clock);
      DispatchesAppend(closing, captured);
      assert End(c, rect, recognition, clock).effects == closing + captured;
    }
  }

  /**
   * What `endCapture` does depends on the window, the mode and the language only:
   * the points recorded from the delegate calls never influence it.
   */
  lemma EndDependsOnSlotsOnly(c: Coordinator, d: Coordinator, rect: Rect, recognition: Recognition, clock: real)
    requires c.window == d.window && c.mode == d.mode && c.language == d.language
    ensures End(c, rect, recognition, clock).effects == End(d, rect, recognition, clock).effects
  {
  }

  /**
   * The translate handler reads the stored `translateLanguage` setting when it runs:
   * once the setting holds `language`, a translate capture of a non-empty region copies
   * the recognized text translated into `language`, whatever was stored before.
   */
  lemma TranslationUsesStoredLanguage(c: Coordinator, language: string, rect: Rect, recognition: Recognition, clock: real)
    requires c.mode == Translate && !IsEmpty(rect) && recognition.Observations?
    ensures var r := NormalizedRect(rect);
      End(c.(language := language), rect, recognition, clock).effects ==
        CloseEffects(c.window) + [ScreenshotTaken(r), Dispatched(Translate, r),
          ClipboardSet(TranslateText(RecognizedText(recognition.candidates), language)), TranslationCopied]
  {
  }

  // ---------------------------------------------------------------------------
  // The class

  /** ScreenCaptureManager.shared. */
  class ScreenCaptureManager {
    var captureWindow: Option<WindowId>
    var currentMode: CaptureMode
    var startPoint: Point
    var currentPoint: Point
    var translateLanguage: string
    /** Every outside effect so far, oldest first. */
    ghost var effects: seq<Effect>

    function State(): Coordinator
      reads this
    {
      Coordinator(captureWindow, currentMode, startPoint, currentPoint, translateLanguage)
    }

    constructor (storedLanguage: Option<string>)
      ensures State() == Initial(storedLanguage) && effects == []
    {
      captureWindow, currentMode := None, Text;
      startPoint, currentPoint := Zero, Zero;
      translateLanguage := storedLanguage.GetOr(DefaultLanguage);
      effects := [];
    }

    /**
     * The settings window's language picker writes the `translateLanguage` key that
     * this object's stored property reads; only the language changes.
     */
    method StoreTranslateLanguage(language: string)
      modifies this
      ensures translateLanguage == language
      ensures State() == old(State()).(language := language) && effects == old(effects)
    {
      translateLanguage := language;
    }

    /** `startCapture`; `window` is the overlay window that AppKit creates for it. */
    method StartCapture(mode: CaptureMode, window: WindowId)
      modifies this
      ensures currentMode == mode && captureWindow == Some(window)
      ensures var t := Start(old(State()), mode, window); State() == t.state && effects == old(effects) + t.effects
    {
      currentMode := mode;
      effects := effects + [WindowOpened(window)];
      captureWindow := Some(window);
    }

    /**
     * `endCapture`; `recognition` is what Vision reports for the screenshot and
     * `clock` the time the save panel reads, in seconds since 1970.
     */
    method EndCapture(rect: Rect, recognition: Recognition, clock: real)
      modifies this
      ensures captureWindow == None && currentMode == old(currentMode)
      ensures var t := End(old(State()), rect, recognition, clock); State() == t.state && effects == old(effects) + t.effects
    {
      ghost var c := State();
      ghost var before := effects;
      EndEffects(c, rect, recognition, clock);
      if captureWindow.Some? {
        effects := effects + [WindowClosed(captureWindow.value)];
      }
      captureWindow := None;
      assert effects == before + CloseEffects(c.window);
      if !IsEmpty(rect) {
        var captureRect := NormalizeRect(rect);
        ghost var closed := effects;
        effects := effects + [ScreenshotTaken(captureRect), Dispatched(currentMode, captureRect)];
        Handle(recognition, clock);
        assert effects == closed + ([ScreenshotTaken(captureRect), Dispatched(c.mode, captureRect)]
          + ModeEffects(c.mode, recognition, c.language, clock));
      }
    }

    /** The `switch currentMode` of `endCapture`: run the handler of the mode. */
    method Handle(recognition: Recognition, clock: real)
      modifies this`effects
      ensures effects == old(effects) + ModeEffects(currentMode, recognition, translateLanguage, clock)
    {
      match currentMode
      case Text => ExtractText(recognition);
      case Image => ProcessImage(clock);
      case Translate => ExtractAndTranslateText(recognition);
    }

    method ExtractText(recognition: Recognition)
      modifies this`effects
      ensures effects == old(effects) + TextEffects(recognition)
    {
      if recognition.Observations? {
        var text := JoinLines(CompactMap(recognition.candidates));
        effects := effects + [ClipboardSet(text), TextCopied];
      }
    }

    method ExtractAndTranslateText(recognition: Recognition)
      modifies this`effects
      ensures effects == old(effects) + TranslateEffects(recognition, translateLanguage)
    {
      if recognition.Observations? {
        var text := JoinLines(CompactMap(recognition.candidates));
        var translatedText := TranslateText(text, translateLanguage);
        effects := effects + [ClipboardSet(translatedText), TranslationCopied];
      }
    }

    method ProcessImage(clock: real)
      modifies this`effects
      ensures effects == old(effects) + ImageEffects(clock)
    {
      effects := effects + [SavePanelOpened(SaveName(clock))];
    }

    method DidStartSelection(point: Point)
      modifies this
      ensures startPoint == point && captureWindow == old(captureWindow) && effects == old(effects)
      ensures State() == React(old(State()), Overlay.DidStartSelection(point), NoBitmap, 0.0).state
    {
      startPoint := point;
    }

    method DidUpdateSelection(point: Point)
      modifies this
      ensures currentPoint == point && captureWindow == old(captureWindow) && effects == old(effects)
      ensures State() == React(old(State()), Overlay.DidUpdateSelection(point), NoBitmap, 0.0).state
    {
      currentPoint := point;
    }

    method DidEndSelection(rect: Rect, recognition: Recognition, clock: real)
      modifies this
      ensures var t := React(old(State()), Overlay.DidEndSelection(rect), recognition, clock);
        State() == t.state && effects == old(effects) + t.effects
    {
      EndCapture(rect, recognition, clock);
    }

    method DidCancel()
      modifies this
      ensures captureWindow == None && currentMode == old(currentMode)
      ensures var t := React(old(State()), Overlay.DidCancel, NoBitmap, 0.0);
        State() == t.state && effects == old(effects) + t.effects
    {
      if captureWindow.Some? {
        effects := effects + [WindowClosed(captureWindow.value)];
      }
      captureWindow := None;
    }
  }
}
