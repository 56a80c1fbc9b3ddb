/** The touch task's menu: a capacitive reading below a threshold counts as a
    touch; a short tap moves to the next of two menu items, a hold of at
    least 1500 ms selects the current item (Art or Clock). Text goes to the
    16x2 display one padded line of 16 characters at a time. The clock mode's
    split of elapsed seconds into hours, minutes and seconds is modelled too. */
module TouchTask {
  import opened Common

  /** Readings in [0, TouchThreshold) count as a touch. */
  const TouchThreshold: int := 40
  /** A release after at least this many ticks selects the current item. */
  const SelectHoldTicks: nat := MsToTicks(1500)
  /** Ticks between two polls of the sensor. */
  const PollDelayTicks: nat := MsToTicks(100)
  /** Pause after showing the selected item. */
  const SelectedPauseTicks: nat := MsToTicks(400)
  /** Characters per display line. */
  const LineWidth: nat := 16

  /** The two menu entries; the index always stays below their count. */
  type MenuIndex = i: nat | i < 2

  datatype MenuItem = Art | Clock

  function MenuItemAt(i: MenuIndex): MenuItem
  {
    if i == 0 then Art else Clock
  }

  function ItemName(m: MenuItem): string
  {
    match m
    case Art => "Art"
    case Clock => "Clock"
  }

  /** A raw reading counts as a touch when it is non-negative and below the
      threshold: smaller readings mean a stronger touch. */
  predicate Touched(v: int)
  {
    0 <= v < TouchThreshold
  }

  /** The touch test at its boundaries: 0 and 39 are touches; 40, and any
      negative reading, are not. */
  lemma TouchBoundary(v: int)
    ensures Touched(0) && Touched(TouchThreshold - 1)
    ensures !Touched(TouchThreshold) && !Touched(-1)
    ensures Touched(v) ==> Touched(v - 1) || v == 0
    ensures !Touched(v) && v >= 0 ==> !Touched(v + 1)
  {
  }

  // ---------------------------------------------------------------------
  // Line padding (writeStringToDisplay)
  // ---------------------------------------------------------------------

  /** The length of a C string: the index of its first NUL, or the whole
      sequence when it holds none. */
  function CStringLength(s: seq<char>): (n: nat)
    ensures n <= |s|
    ensures n < |s| ==> s[n] == '\0'
    ensures forall i :: 0 <= i < n ==> s[i] != '\0'
  {
    if s == [] || s[0] == '\0' then 0 else 1 + CStringLength(s[1..])
  }

  function Spaces(k: nat): (r: seq<char>)
    ensures |r| == k
    ensures forall i :: 0 <= i < k ==> r[i] == ' '
  {
    seq(k, _ => ' ')
  }

  /** The 16 characters put on a display line for string s: the characters of
      s before its first NUL, at most 16 of them, then spaces. */
  function PaddedLine(s: seq<char>): (line: seq<char>)
    ensures |line| == LineWidth
    ensures forall i :: 0 <= i < LineWidth ==> line[i] == if i < CStringLength(s) then s[i] else ' '
  {
    var n := if CStringLength(s) < LineWidth then CStringLength(s) else LineWidth;
    s[..n] + Spaces(LineWidth - n)
  }

  /** One WriteChar message per column, in column order. */
  function LineMessages(row: U8, line: seq<char>): seq<DisplayMessage>
    requires |line| == LineWidth
  {
    seq(LineWidth, c requires 0 <= c < LineWidth => WriteChar(c, row, line[c]))
  }

  /** writeStringToDisplay: fills a 17-character buffer with spaces and a
      final NUL, copies s up to its first NUL (at most 16 characters), and
      returns the 16 messages it sends, column by column. */
  method WriteStringToDisplay(row: U8, s: seq<char>) returns (msgs: seq<DisplayMessage>)
    ensures msgs == LineMessages(row, PaddedLine(s))
    ensures msgs == SentMessages(Line(row, s))
    ensures forall c :: 0 <= c < |msgs| ==> msgs[c].WriteChar? && msgs[c].col == c && msgs[c].row == row
  {
    var line := new char[LineWidth + 1];
    var i := 0;
    while i < LineWidth
      invariant 0 <= i <= LineWidth
      invariant forall k :: 0 <= k < i ==> line[k] == ' '
    {
      line[i] := ' ';
      i := i + 1;
    }
    line[LineWidth] := '\0';

    i := 0;
    while i < LineWidth && i < |s| && s[i] != '\0'
      invariant 0 <= i <= LineWidth && i <= |s|
      invariant forall k :: 0 <= k < i ==> s[k] != '\0'
      invariant forall k :: 0 <= k < LineWidth ==> line[k] == if k < i then s[k] else ' '
    {
      line[i] := s[i];
      i := i + 1;
    }
    assert i == if CStringLength(s) < LineWidth then CStringLength(s) else LineWidth;

    msgs := [];
    var c := 0;
    while c < LineWidth
      invariant 0 <= c <= LineWidth
      invariant |msgs| == c
      invariant forall k :: 0 <= k < c ==> msgs[k] == WriteChar(k, row, PaddedLine(s)[k])
    {
      msgs := msgs + [WriteChar(c, row, line[c])];
      c := c + 1;
    }
  }

  // ---------------------------------------------------------------------
  // The press/release menu
  // ---------------------------------------------------------------------

  datatype MenuState = MenuState(lastTouched: bool, touchStartTick: U32, menuIndex: MenuIndex)

  const InitialMenu: MenuState := MenuState(false, 0, 0)

  /** What the menu loop does to the outside world, in order: clearing the
      screen, one writeStringToDisplay call, starting a mode (which runs until
      the user leaves it), and waits. */
  datatype UiEvent = ClearScreen | Line(row: U8, text: string) | RunMode(item: MenuItem) | Wait(ticks: nat)

  /** The display messages an event sends: one Clear, or the sixteen
      characters of the padded line (as WriteStringToDisplay proves). */
  function SentMessages(e: UiEvent): seq<DisplayMessage>
  {
    match e
    case ClearScreen => [Clear]
    case Line(row, text) => LineMessages(row, PaddedLine(text))
    case _ => []
  }

  /** A Line event sends the padded text as sixteen WriteChar messages, column
      by column, on its row. */
  lemma LineEventMessages(row: U8, s: string)
    ensures |SentMessages(Line(row, s))| == LineWidth
    ensures forall c :: 0 <= c < LineWidth ==>
      SentMessages(Line(row, s))[c] == WriteChar(c, row, if c < CStringLength(s) then s[c] else ' ')
  {
  }

  /** How long the finger was on the sensor, in ticks, with the unsigned
      wrap-around of TickType_t. */
  function HeldTicks(now: U32, start: U32): U32
  {
    SubU32(now, start)
  }

  /** The state after one poll that saw `touched` at tick `now`. */
  function MenuStep(st: MenuState, touched: bool, now: U32): MenuState
  {
    if touched && !st.lastTouched then
      st.(touchStartTick := now, lastTouched := true)
    else if !touched && st.lastTouched then
      if HeldTicks(now, st.touchStartTick) >= SelectHoldTicks then st.(lastTouched := false)
      else st.(menuIndex := (st.menuIndex + 1) % 2, lastTouched := false)
    else
      st.(lastTouched := touched)
  }

  /** The text shown when an item is selected. */
  function SelectedText(item: MenuItem): string
  {
    "Selected:" + ItemName(item)
  }

  /** The first line of the menu screen. */
  const MenuTitle: string := "Menu:"

  /** A long press released: show the selection, run the mode until the user
      leaves it, then show the menu again with the same item. */
  function SelectionEvents(item: MenuItem): seq<UiEvent>
  {
    [Line(0, SelectedText(item)), Wait(SelectedPauseTicks), RunMode(item),
     Line(0, MenuTitle), Line(1, ItemName(item))]
  }

  /** The events of one poll, ending with the poll delay. */
  function MenuOutput(st: MenuState, touched: bool, now: U32): seq<UiEvent>
  {
    var item := MenuItemAt(st.menuIndex);
    if !touched && st.lastTouched then
      if HeldTicks(now, st.touchStartTick) >= SelectHoldTicks then
        SelectionEvents(item) + [Wait(PollDelayTicks)]
      else
        [Line(1, ItemName(MenuItemAt((st.menuIndex + 1) % 2))), Wait(PollDelayTicks)]
    else
      [Wait(PollDelayTicks)]
  }

  /** A touch that starts records the tick and changes nothing else. */
  lemma RisingEdgeRecordsStart(st: MenuState, now: U32)
    requires !st.lastTouched
    ensures MenuStep(st, true, now) == MenuState(true, now, st.menuIndex)
    ensures MenuOutput(st, true, now) == [Wait(PollDelayTicks)]
  {
  }

  /** A release before SelectHoldTicks moves to the next item, modulo 2, and
      shows it on the second line. */
  lemma ShortTapAdvances(st: MenuState, now: U32)
    requires st.lastTouched && HeldTicks(now, st.touchStartTick) < SelectHoldTicks
    ensures MenuStep(st, false, now).menuIndex == (st.menuIndex + 1) % 2
    ensures MenuStep(st, false, now).menuIndex != st.menuIndex
    ensures MenuStep(st, false, now).touchStartTick == st.touchStartTick
    ensures MenuOutput(st, false, now)
         == [Line(1, ItemName(MenuItemAt(MenuStep(st, false, now).menuIndex))), Wait(PollDelayTicks)]
  {
  }

  /** A release after at least SelectHoldTicks keeps the index and runs the
      current item: Art for index 0, Clock for index 1. */
  lemma HoldSelects(st: MenuState, now: U32)
    requires st.lastTouched && HeldTicks(now, st.touchStartTick) >= SelectHoldTicks
    ensures MenuStep(st, false, now).menuIndex == st.menuIndex
    ensures RunMode(Art) in MenuOutput(st, false, now) <==> st.menuIndex == 0
    ensures RunMode(Clock) in MenuOutput(st, false, now) <==> st.menuIndex == 1
  {
    var item := MenuItemAt(st.menuIndex);
    var out := MenuOutput(st, false, now);
    assert out[2] == RunMode(item);
  }

  /** Every poll leaves lastTouched equal to what it saw, and a poll without
      an edge changes nothing. */
  lemma PollTracksTouch(st: MenuState, touched: bool, now: U32)
    ensures MenuStep(st, touched, now).lastTouched == touched
    ensures touched == st.lastTouched ==> MenuStep(st, touched, now) == st
  {
  }

  /** A hold that lasted d < 2^32 ticks is measured as exactly d, even if the
      tick counter wrapped around meanwhile. */
  lemma HeldTicksAcrossWrap(start: U32, d: nat)
    requires d < U32Modulus
    ensures HeldTicks((start + d) % U32Modulus, start) == d
  {
    var now := (start + d) % U32Modulus;
    if start + d < U32Modulus {
      assert now == start + d;
    } else {
      assert now == start + d - U32Modulus;
      assert (now - start) % U32Modulus == (d - U32Modulus) % U32Modulus;
    }
  }

  /** The touch task's loop variables and what it has sent and done. */
  class TouchMenu {
    var lastTouched: bool
    var touchStartTick: U32
    var menuIndex: MenuIndex
    var events: seq<UiEvent>

    function State(): MenuState
      reads this
    {
      MenuState(lastTouched, touchStartTick, menuIndex)
    }

    /** Task start: clear the screen and show the menu with its first item. */
    constructor ()
      ensures State() == InitialMenu
      ensures events == [ClearScreen, Line(0, MenuTitle), Line(1, "Art")]
    {
      lastTouched, touchStartTick, menuIndex := false, 0, 0;
      events := [ClearScreen];
      new;
      WriteLine(0, MenuTitle);
      WriteLine(1, ItemName(MenuItemAt(menuIndex)));
    }

    /** One writeStringToDisplay call; the messages it sends are those of
        WriteStringToDisplay, that is SentMessages(Line(row, s)). */
    method WriteLine(row: U8, s: string)
      modifies this
      ensures events == old(events) + [Line(row, s)]
      ensures State() == old(State())
    {
      events := events + [Line(row, s)];
    }

    /** A long press released: show the selection, run the selected mode,
        then show the menu again. The index is unchanged. */
    method SelectCurrent()
      modifies this
      ensures State() == old(State())
      ensures events == old(events) + SelectionEvents(MenuItemAt(menuIndex))
    {
      var selected := MenuItemAt(menuIndex);
      WriteLine(0, SelectedText(selected));
      events := events + [Wait(SelectedPauseTicks)];
      events := events + [RunMode(selected)];
      ghost var ran := events;
      WriteLine(0, MenuTitle);
      WriteLine(1, ItemName(MenuItemAt(menuIndex)));
      assert events == ran + [Line(0, MenuTitle), Line(1, ItemName(selected))];
      assert events == old(events) + SelectionEvents(selected);
    }

    /** A short tap released: move to the next item and show it. */
    method AdvanceMenu()
      modifies this
      ensures State() == old(State()).(menuIndex := (old(menuIndex) + 1) % 2)
      ensures events == old(events) + [Line(1, ItemName(MenuItemAt((old(menuIndex) + 1) % 2)))]
    {
      menuIndex := (menuIndex + 1) % 2;
      WriteLine(1, ItemName(MenuItemAt(menuIndex)));
    }

    /** The finger was lifted: select on a long press, advance on a short
        one, then wait for the next poll. */
    method Release(now: U32)
      requires lastTouched
      modifies this
      ensures State() == MenuStep(old(State()), false, now)
      ensures events == old(events) + MenuOutput(old(State()), false, now)
    {
      ghost var st := State();
      ghost var ev := events;
      var held := SubU32(now, touchStartTick);
      if held >= SelectHoldTicks {
        SelectCurrent();
        lastTouched := false;
        events := events + [Wait(PollDelayTicks)];
      } else {
        AdvanceMenu();
        lastTouched := false;
        events := events + [Wait(PollDelayTicks)];
      }
    }

    /** One iteration of the menu loop with raw reading v at tick now. */
    method Poll(v: int, now: U32)
      modifies this
      ensures State() == MenuStep(old(State()), Touched(v), now)
      ensures events == old(events) + MenuOutput(old(State()), Touched(v), now)
    {
      var touched := 0 <= v < TouchThreshold;

      if touched && !lastTouched {
        touchStartTick := now;
      }

      if !touched && lastTouched {
        Release(now);
      } else {
        lastTouched := touched;
        events := events + [Wait(PollDelayTicks)];
      }
    }
  }

  // ---------------------------------------------------------------------
  // Clock mode: elapsed seconds as HH:MM:SS
  // ---------------------------------------------------------------------

  datatype ClockTime = ClockTime(hh: nat, mm: nat, ss: nat)

  /** Whole seconds since startMs, with the 32-bit wrap of millis(). The
      clock therefore runs for at most 4294967 seconds (about 49.7 days)
      before starting over. */
  function ElapsedSeconds(startMs: U32, nowMs: U32): (e: nat)
    ensures e <= 4294967
  {
    SubU32(nowMs, startMs) / 1000
  }

  /** d milliseconds after startMs (d < 2^32) the clock counts d / 1000 whole
      seconds, even if millis() wrapped around meanwhile. */
  lemma ElapsedAcrossWrap(start: U32, d: nat)
    requires d < U32Modulus
    ensures ElapsedSeconds(start, (start + d) % U32Modulus) == d / 1000
  {
    HeldTicksAcrossWrap(start, d);
  }

  /** Quotient and remainder by the constant divisors the clock uses. Each
      divisor is a literal so that the solver reasons linearly; a lemma over
      an arbitrary divisor would need non-linear arithmetic. */
  lemma DivMod60(n: int, q: int, r: int)
    requires 0 <= r < 60 && n == 60 * q + r
    ensures n / 60 == q && n % 60 == r
  {
  }

  lemma DivMod3600(n: int, q: int, r: int)
    requires 0 <= r < 3600 && n == 3600 * q + r
    ensures n / 3600 == q && n % 3600 == r
  {
  }

  lemma DivMod24(n: int, q: int, r: int)
    requires 0 <= r < 24 && n == 24 * q + r
    ensures n / 24 == q && n % 24 == r
  {
  }

  /** The three fields are in range and give back the elapsed time modulo
      one day. */
  lemma ClockSplitSound(elapsed: nat)
    ensures (elapsed / 3600) % 24 < 24 && (elapsed / 60) % 60 < 60 && elapsed % 60 < 60
    ensures ((elapsed / 3600) % 24) * 3600 + ((elapsed / 60) % 60) * 60 + elapsed % 60 == elapsed % 86400
  {
    var q := elapsed / 86400;
    var r := elapsed % 86400;
    var h := r / 3600;
    var x := r % 3600;
    var m := x / 60;
    var s := x % 60;
    DivMod3600(elapsed, 24 * q + h, x);
    DivMod24(24 * q + h, q, h);
    DivMod60(elapsed, 1440 * q + 60 * h + m, s);
    DivMod60(1440 * q + 60 * h + m, 24 * q + h, m);
  }

  /** The clock fields shown for `elapsed` seconds. */
  function SplitClock(elapsed: nat): (t: ClockTime)
    ensures t.hh < 24 && t.mm < 60 && t.ss < 60
    ensures t.hh * 3600 + t.mm * 60 + t.ss == elapsed % 86400
  {
    ClockSplitSound(elapsed);
    ClockTime((elapsed / 3600) % 24, (elapsed / 60) % 60, elapsed % 60)
  }

  /** The fields the clock mode shows at nowMs when it started at startMs. */
  function ClockFields(startMs: U32, nowMs: U32): (t: ClockTime)
    ensures t.hh < 24 && t.mm < 60 && t.ss < 60
    ensures t.hh * 3600 + t.mm * 60 + t.ss == ElapsedSeconds(startMs, nowMs) % 86400
  {
    SplitClock(ElapsedSeconds(startMs, nowMs))
  }

  /** d milliseconds into the clock mode (d < 2^32), the fields shown give
      back d / 1000 seconds modulo one day, across a wrap of millis(). */
  lemma ClockAfter(start: U32, d: nat)
    requires d < U32Modulus
    ensures var t := ClockFields(start, (start + d) % U32Modulus);
      t.hh * 3600 + t.mm * 60 + t.ss == (d / 1000) % 86400
  {
    ElapsedAcrossWrap(start, d);
  }
}
