/** The OLED display service's screen selection: the rotation through the
    configured screen list by button press, by the legacy button-state
    handler and by the timed auto-rotation, the screen-name dispatch, and
    the default screen list.

    The clock is a parameter `now` (seconds). A step over an empty screen
    list divides by zero in the source; here it yields
    `Err(ZeroDivisionError)` and the state is left as it was. */
module Oled {
  import opened Wrappers
  import opened Strings
  import opened Numbers

  /** `current_screen` and `last_switch`. */
  datatype OledState = OledState(current: int, lastSwitch: real)

  /** The state right after construction at time `now`. */
  function Initial(now: real): OledState {
    OledState(0, now)
  }

  /** The index is a position in a list of `count` screens. */
  predicate InRange(s: OledState, count: nat) {
    0 <= s.current < count
  }

  // ---------------------------------------------------------------------
  // Single steps
  // ---------------------------------------------------------------------

  /** `(current_screen + 1) % len(screen_list)` and a timer reset. */
  function Next(s: OledState, count: nat, now: real): (r: Result<OledState>)
    ensures r.Err? <==> count == 0
    ensures r.Ok? ==> InRange(r.value, count) && r.value.lastSwitch == now
    ensures r.Ok? && InRange(s, count) ==>
      r.value.current == (if s.current == count - 1 then 0 else s.current + 1)
  {
    if count == 0 then Err(ZeroDivisionError) else Ok(OledState(PyMod(s.current + 1, count), now))
  }

  /** `(current_screen - 1) % len(screen_list)`, with Python's wrap from -1
      to the last screen, and a timer reset. */
  function Previous(s: OledState, count: nat, now: real): (r: Result<OledState>)
    ensures r.Err? <==> count == 0
    ensures r.Ok? ==> InRange(r.value, count) && r.value.lastSwitch == now
    ensures r.Ok? && InRange(s, count) ==>
      r.value.current == (if s.current == 0 then count - 1 else s.current - 1)
  {
    if count == 0 then Err(ZeroDivisionError) else Ok(OledState(PyMod(s.current - 1, count), now))
  }

  /** Going back undoes going forward, and forward undoes back, apart from
      the timer. */
  lemma NextPreviousInverse(s: OledState, count: nat, t1: real, t2: real)
    requires InRange(s, count)
    ensures Previous(Next(s, count, t1).value, count, t2).value == s.(lastSwitch := t2)
    ensures Next(Previous(s, count, t1).value, count, t2).value == s.(lastSwitch := t2)
  {
  }

  /** `k` presses of the button in a row. */
  function Presses(s: OledState, count: nat, k: nat, now: real): Result<OledState>
    decreases k
  {
    if k == 0 then Ok(s)
    else
      match Next(s, count, now)
      case Err(e) => Err(e)
      case Ok(s1) => Presses(s1, count, k - 1, now)
  }

  /** `k` presses move the index `k` places around the ring: a full round
      of `count` presses comes back to the starting screen. */
  lemma {:induction false} PressesRotate(s: OledState, count: nat, k: nat, now: real)
    requires InRange(s, count)
    ensures Presses(s, count, k, now).Ok?
    ensures k > 0 ==> Presses(s, count, k, now).value == OledState(PyMod(s.current + k, count), now)
    ensures k == count ==> Presses(s, count, k, now).value.current == s.current
    decreases k
  {
    if k > 0 {
      var s1 := Next(s, count, now).value;
      assert Presses(s, count, k, now) == Presses(s1, count, k - 1, now);
      PressesRotate(s1, count, k - 1, now);
      var target := PyMod(s.current + k, count);
      if k == 1 {
        assert Presses(s1, count, 0, now) == Ok(s1);
      } else {
        assert s1.current == PyMod(s.current + 1, count);
        ModStep(s.current, k, count);
        assert Presses(s1, count, k - 1, now).value == OledState(target, now);
      }
      if k == count {
        PyModUnique(s.current + count, count, 1, s.current);
      }
    }
  }

  /** Stepping once and then `k - 1` more times lands where `k` steps land. */
  lemma ModStep(a: int, k: nat, count: nat)
    requires k > 1 && 0 <= a < count
    ensures PyMod(PyMod(a + 1, count) + (k - 1), count) == PyMod(a + k, count)
  {
    if a + 1 < count {
      PyModUnique(a + 1, count, 0, a + 1);
    } else {
      PyModUnique(a + 1, count, 1, 0);
      var q := FloorDiv(k - 1, count);
      var r := PyMod(k - 1, count);
      assert (q + 1) * count == q * count + count;
      PyModUnique(a + k, count, q + 1, r);
    }
  }

  /** Python's floor division with remainder has one answer. */
  lemma PyModUnique(x: int, n: int, q: int, r: int)
    requires n > 0 && 0 <= r < n && x == q * n + r
    ensures PyMod(x, n) == r
  {
    var q0 := FloorDiv(x, n);
    var r0 := PyMod(x, n);
    if q0 > q {
      assert (q0 - q) * n == q0 * n - q * n;
      MulAtLeast(q0 - q, n);
    } else if q0 < q {
      assert (q - q0) * n == q * n - q0 * n;
      MulAtLeast(q - q0, n);
    }
  }

  lemma MulAtLeast(m: int, n: int)
    requires m >= 1 && n > 0
    ensures m * n >= n
  {
    if m > 1 {
      MulAtLeast(m - 1, n);
      assert m * n == (m - 1) * n + n;
    }
  }

  // ---------------------------------------------------------------------
  // The button handlers
  // ---------------------------------------------------------------------

  /** `button_callback`: the GPIO button shows the next screen. */
  function ButtonCallback(s: OledState, count: nat, now: real): (r: Result<OledState>)
    ensures r.Err? <==> count == 0
    ensures r.Ok? ==> InRange(r.value, count) && r.value.lastSwitch == now
    ensures r.Ok? && InRange(s, count) && s.current + 1 < count ==> r.value.current == s.current + 1
    ensures r.Ok? && s.current == count - 1 ==> r.value.current == 0
  {
    Next(s, count, now)
  }

  /** `value & (1 << bit)` is non-zero, with Python's unbounded two's
      complement for negative values. */
  predicate BitSet(value: int, bit: nat) {
    PyMod(FloorDiv(value, Pow2(bit)), 2) == 1
  }

  function Pow2(n: nat): (r: nat)
    ensures r >= 1
  {
    if n == 0 then 1 else 2 * Pow2(n - 1)
  }

  /** Apply `step` when `cond` holds, passing an earlier exception on. */
  function StepIf(r: Result<OledState>, cond: bool, back: bool, count: nat, now: real): Result<OledState> {
    match r
    case Err(e) => Err(e)
    case Ok(s) =>
      if !cond then Ok(s)
      else if back then Previous(s, count, now)
      else Next(s, count, now)
  }

  /** The single-bit values the legacy handler logs as bit presses. */
  predicate SingleBitCode(value: int) {
    value == 0x01 || value == 0x02 || value == 0x04 || value == 0x08
  }

  /** `handle_button_press_legacy`: bit 1 (0x02) shows the next screen,
      then bit 2 (0x04) the previous one; bits 0 and 3 only log. Apart from
      the four single-bit values, the exact value 0x10 also shows the next
      screen and 0x20 the previous one. */
  function HandleButtonPressLegacy(s: OledState, count: nat, value: int, now: real): (r: Result<OledState>)
    ensures r.Ok? ==> r.value == s || InRange(r.value, count)
    ensures r.Err? <==> count == 0 && LegacyMoves(value)
    ensures !LegacyMoves(value) ==> r == Ok(s)
    ensures InRange(s, count) && LegacyMoves(value) ==>
      r == Ok(OledState(PyMod(s.current + LegacyShift(value), count), now))
  {
    LegacyRule(s, count, value, now);
    var afterNext := StepIf(Ok(s), BitSet(value, 1), false, count, now);
    var afterBack := StepIf(afterNext, BitSet(value, 2), true, count, now);
    if SingleBitCode(value) then afterBack
    else if value == 0x10 then StepIf(afterBack, true, false, count, now)
    else if value == 0x20 then StepIf(afterBack, true, true, count, now)
    else afterBack
  }

  /** Whether the legacy handler changes screen (and restarts the timer):
      bit 1 or bit 2 is set, or the value is the button id 0x10 or 0x20. */
  predicate LegacyMoves(value: int) {
    BitSet(value, 1) || BitSet(value, 2) || value == 0x10 || value == 0x20
  }

  /** The net number of screens the legacy handler moves forward: one for
      bit 1 or id 0x10, one back for bit 2 or id 0x20. */
  function LegacyShift(value: int): int {
    (if BitSet(value, 1) || value == 0x10 then 1 else 0)
    - (if BitSet(value, 2) || value == 0x20 then 1 else 0)
  }

  /** With both bits set, forward then back lands on the same in-range
      index (neither button id has bit 2 set). */
  lemma LegacyRule(s: OledState, count: nat, value: int, now: real)
    ensures InRange(s, count) && BitSet(value, 1) && BitSet(value, 2) ==>
      PyMod(s.current + LegacyShift(value), count) == s.current
  {
    if InRange(s, count) && BitSet(value, 1) && BitSet(value, 2) {
      assert value != 0x10 && value != 0x20 by {
        assert FloorDiv(0x10, 4) == 4;
        assert FloorDiv(0x20, 4) == 8;
      }
      PyModUnique(s.current, count, 0, s.current);
    }
  }

  /** The legacy codes: 0x02 and 0x10 go forward, 0x04 and 0x20 go back,
      0x06 goes forward and back again, and 0x01 and 0x08 change nothing. */
  lemma LegacyCodes(s: OledState, count: nat, now: real)
    requires InRange(s, count)
    ensures HandleButtonPressLegacy(s, count, 0x02, now) == Next(s, count, now)
    ensures HandleButtonPressLegacy(s, count, 0x10, now) == Next(s, count, now)
    ensures HandleButtonPressLegacy(s, count, 0x04, now) == Previous(s, count, now)
    ensures HandleButtonPressLegacy(s, count, 0x20, now) == Previous(s, count, now)
    ensures HandleButtonPressLegacy(s, count, 0x06, now) == Ok(s.(lastSwitch := now))
    ensures HandleButtonPressLegacy(s, count, 0x01, now) == Ok(s)
    ensures HandleButtonPressLegacy(s, count, 0x08, now) == Ok(s)
  {
    assert FloorDiv(0x10, 2) == 8 && FloorDiv(0x10, 4) == 4;
    assert FloorDiv(0x20, 2) == 16 && FloorDiv(0x20, 4) == 8;
    assert FloorDiv(0x06, 2) == 3 && FloorDiv(0x06, 4) == 1;
    NextPreviousInverse(s, count, now, now);
  }

  /** A value with neither bit 1 nor bit 2 set, other than 0x10 and 0x20,
      leaves the state exactly as it was. */
  lemma LegacyIgnoresOtherValues(s: OledState, count: nat, value: int, now: real)
    requires !BitSet(value, 1) && !BitSet(value, 2) && value != 0x10 && value != 0x20
    ensures HandleButtonPressLegacy(s, count, value, now) == Ok(s)
  {
  }

  // ---------------------------------------------------------------------
  // Auto-rotation
  // ---------------------------------------------------------------------

  /** The auto-rotation step of `run`: once `switchDuration` seconds have
      passed since the last switch, show the next screen and restart the
      timer at `now`. */
  function AutoRotate(s: OledState, count: nat, switchDuration: real, now: real): (r: Result<OledState>)
    ensures now - s.lastSwitch < switchDuration ==> r == Ok(s)
    ensures now - s.lastSwitch >= switchDuration ==> r == Next(s, count, now)
  {
    if now - s.lastSwitch >= switchDuration then Next(s, count, now) else Ok(s)
  }

  /** Every transition keeps the index inside a non-empty list. */
  lemma TransitionsStayInRange(s: OledState, count: nat, value: int, switchDuration: real, now: real)
    requires InRange(s, count)
    ensures ButtonCallback(s, count, now).Ok? && InRange(ButtonCallback(s, count, now).value, count)
    ensures HandleButtonPressLegacy(s, count, value, now).Ok? && InRange(HandleButtonPressLegacy(s, count, value, now).value, count)
    ensures AutoRotate(s, count, switchDuration, now).Ok? && InRange(AutoRotate(s, count, switchDuration, now).value, count)
  {
  }

  // ---------------------------------------------------------------------
  // Screen dispatch
  // ---------------------------------------------------------------------

  datatype Screen = Clock | Cpu | Ram | Storage | Temp | Ip | Logo | Unknown(text: string)

  /** `display_screen`: which screen a name draws; an unknown name draws
      the text "Unknown: <name>". */
  function DisplayScreen(name: string): (r: Screen)
    ensures r.Unknown? ==> r.text == "Unknown: " + name
    ensures r == Logo <==> name == "logo" || name == "logo1v5"
  {
    if name == "clock" then Clock
    else if name == "cpu" then Cpu
    else if name == "ram" then Ram
    else if name == "storage" then Storage
    else if name == "temp" then Temp
    else if name == "ip" then Ip
    else if name == "logo" || name == "logo1v5" then Logo
    else Unknown("Unknown: " + name)
  }

  /** The configuration name of each known screen. */
  function ScreenName(screen: Screen): string
    requires !screen.Unknown?
  {
    match screen
    case Clock => "clock"
    case Cpu => "cpu"
    case Ram => "ram"
    case Storage => "storage"
    case Temp => "temp"
    case Ip => "ip"
    case Logo => "logo"
  }

  /** Every known screen is drawn for its own name, and only names of
      known screens avoid the fallback. */
  lemma DisplayScreenRoundTrip(screen: Screen, name: string)
    requires !screen.Unknown?
    ensures DisplayScreen(ScreenName(screen)) == screen
    ensures !DisplayScreen(name).Unknown? ==>
      name == ScreenName(DisplayScreen(name)) || name == "logo1v5"
  {
  }

  // ---------------------------------------------------------------------
  // The screen list
  // ---------------------------------------------------------------------

  const DefaultScreenList: string := "logo clock cpu storage ram temp ip"
  const DefaultScreens: seq<string> := ["logo", "clock", "cpu", "storage", "ram", "temp", "ip"]

  /** `os.environ.get('SCREEN_LIST', default).split()`. */
  function ScreenList(environment: Option<string>): (r: seq<string>)
    ensures IsWordList(r)
  {
    FieldsAreWords(environment.GetOr(DefaultScreenList));
    Fields(environment.GetOr(DefaultScreenList))
  }

  /** Without the variable the list is the seven screens in order. */
  lemma DefaultScreenListSplits()
    ensures ScreenList(None) == DefaultScreens
  {
    DefaultScreensJoin();
    DefaultScreensWords();
    FieldsOfUnwords(DefaultScreens);
    var joined := Unwords(DefaultScreens);
    assert ScreenList(None) == Fields(joined);
  }

  /** Every default screen is one the dispatch knows. */
  lemma DefaultScreensKnown()
    ensures forall i :: 0 <= i < |DefaultScreens| ==> !DisplayScreen(DefaultScreens[i]).Unknown?
  {
  }

  lemma DefaultScreensJoin()
    ensures Unwords(DefaultScreens) == DefaultScreenList
  {
    DefaultScreensAfterLogo();
    LogoJoin();
    UnwordsCons("logo", ["clock", "cpu", "storage", "ram", "temp", "ip"]);
    assert ["logo"] + ["clock", "cpu", "storage", "ram", "temp", "ip"] == DefaultScreens;
  }

  lemma LogoJoin()
    ensures "logo" + " " + "clock cpu storage ram temp ip" == DefaultScreenList
  {
  }

  lemma DefaultScreensAfterLogo()
    ensures Unwords(["clock", "cpu", "storage", "ram", "temp", "ip"]) == "clock cpu storage ram temp ip"
  {
    DefaultScreensMiddle();
    UnwordsCons("clock", ["cpu", "storage", "ram", "temp", "ip"]);
    assert ["clock"] + ["cpu", "storage", "ram", "temp", "ip"] == ["clock", "cpu", "storage", "ram", "temp", "ip"];
  }

  lemma DefaultScreensMiddle()
    ensures Unwords(["cpu", "storage", "ram", "temp", "ip"]) == "cpu storage ram temp ip"
  {
    DefaultScreensTail();
    UnwordsCons("storage", ["ram", "temp", "ip"]);
    assert ["storage"] + ["ram", "temp", "ip"] == ["storage", "ram", "temp", "ip"];
    UnwordsCons("cpu", ["storage", "ram", "temp", "ip"]);
    assert ["cpu"] + ["storage", "ram", "temp", "ip"] == ["cpu", "storage", "ram", "temp", "ip"];
  }

  lemma DefaultScreensTail()
    ensures Unwords(["ram", "temp", "ip"]) == "ram temp ip"
  {
    UnwordsCons("temp", ["ip"]);
    assert ["temp"] + ["ip"] == ["temp", "ip"];
    UnwordsCons("ram", ["temp", "ip"]);
    assert ["ram"] + ["temp", "ip"] == ["ram", "temp", "ip"];
  }

  lemma UnwordsCons(w: string, rest: seq<string>)
    requires |rest| > 0
    ensures Unwords([w] + rest) == w + " " + Unwords(rest)
  {
    assert ([w] + rest)[1..] == rest;
  }

  lemma DefaultScreensWords()
    ensures IsWordList(DefaultScreens)
  {
  }

  /** A configured list written out with single spaces splits back into
      its names. */
  lemma ConfiguredScreenList(names: seq<string>)
    requires IsWordList(names)
    ensures ScreenList(Some(Unwords(names))) == names
  {
    FieldsOfUnwords(names);
  }
}
