/** The integer part of static/js/timer.js: the page state the script keeps in its globals
    (`currentMode`, `remainingSeconds`, `timerInterval`), the texts and button states it writes,
    and the once-per-second countdown. */
module TimerUI {
  import opened Wrappers
  import opened Decimal
  import opened Models
  import Services

  const SECONDS_PER_MINUTE: nat := 60
  const SECONDS_PER_HOUR: nat := 3600

  /** `s.padStart(2, '0')`. */
  function PadStart2(s: string): (r: string)
    ensures |s| >= 2 ==> r == s
    ensures |s| < 2 ==> |r| == 2 && r[2 - |s|..] == s
    ensures forall k | 0 <= k < |r| - |s| :: r[k] == '0'
    decreases 2 - |s|
  {
    if |s| >= 2 then s else PadStart2("0" + s)
  }

  /** The text updateTimerDisplay writes for `seconds`: `m:ss`. */
  function TimerText(seconds: nat): string
  {
    DecimalText(seconds / SECONDS_PER_MINUTE) + ":" + PadStart2(DecimalText(seconds % SECONDS_PER_MINUTE))
  }

  /** The timer text reads as whole minutes, a colon, and exactly two digits holding the
      seconds within the minute. */
  lemma TimerTextMeaning(seconds: nat)
    ensures var t := TimerText(seconds);
      && |t| >= 4 && t[|t| - 3] == ':'
      && ParseDecimal(t[..|t| - 3]) == Some(seconds / 60)
      && ParseDecimal(t[|t| - 2..]) == Some(seconds % 60)
  {
    var t := TimerText(seconds);
    var mins := DecimalText(seconds / 60);
    var digits := DecimalText(seconds % 60);
    var secs := PadStart2(digits);
    DecimalTextShort(seconds % 60);
    DecimalRoundTrip(seconds / 60);
    DecimalRoundTrip(seconds % 60);
    assert |secs| == 2;
    assert t[..|t| - 3] == mins;
    assert t[|t| - 2..] == secs;
    if |digits| == 1 {
      assert secs == "0" + digits;
      LeadingZero(digits);
    }
  }

  /** The whole-hours and leftover-minutes parts of a number of seconds. */
  function HoursMinutes(total: nat): (hm: (nat, nat))
    ensures hm.1 < 60
    ensures hm.0 * 60 + hm.1 == total / 60
  {
    var h := total / SECONDS_PER_HOUR;
    var r := total % SECONDS_PER_HOUR;
    var m := r / SECONDS_PER_MINUTE;
    assert total == 60 * (60 * h + m) + r % 60;
    (h, m)
  }

  /** The total-focus-time text: `{h}時間{m}分` when there is at least one whole hour, else `{m}分`. */
  function TotalTimeText(total: nat): string
  {
    var (h, m) := HoursMinutes(total);
    if h > 0 then DecimalText(h) + "時間" + DecimalText(m) + "分" else DecimalText(m) + "分"
  }

  /** The position of the first `c` in `s`. */
  function IndexOf(s: string, c: char): (r: Option<nat>)
    ensures r.Some? ==> r.value < |s| && s[r.value] == c && forall k | 0 <= k < r.value :: s[k] != c
    ensures r.None? <==> forall k | 0 <= k < |s| :: s[k] != c
  {
    if |s| == 0 then None
    else if s[0] == c then Some(0)
    else match IndexOf(s[1..], c)
      case None => None
      case Some(i) => Some(i + 1)
  }

  /** Reads a total-time text back as a number of whole minutes. */
  function ParseTotalTime(text: string): Option<nat>
  {
    if |text| == 0 || text[|text| - 1] != '分' then None
    else
      var body := text[..|text| - 1];
      match IndexOf(body, '時')
      case None => ParseDecimal(body)
      case Some(i) =>
        if i + 1 < |body| && body[i + 1] == '間' then
          match (ParseDecimal(body[..i]), ParseDecimal(body[i + 2..]))
          case (Some(h), Some(m)) => if h > 0 && m < 60 then Some(h * 60 + m) else None
          case _ => None
        else None
  }

  /** The total-time text states the total in whole minutes, and names hours exactly when
      there is at least one. */
  lemma TotalTimeRoundTrip(total: nat)
    ensures ParseTotalTime(TotalTimeText(total)) == Some(total / 60)
    ensures IndexOf(TotalTimeText(total), '時').Some? <==> total >= 3600
  {
    var text := TotalTimeText(total);
    var (h, m) := HoursMinutes(total);
    var body := text[..|text| - 1];
    DecimalRoundTrip(m);
    if h > 0 {
      var hs := DecimalText(h);
      DecimalRoundTrip(h);
      assert body == hs + "時間" + DecimalText(m);
      assert body[|hs|] == '時';
      assert forall k | 0 <= k < |hs| :: body[k] != '時' by {
        assert forall k | 0 <= k < |hs| :: body[k] == hs[k] && IsDigit(hs[k]);
      }
      assert IndexOf(body, '時') == Some(|hs|);
      assert body[..|hs|] == hs;
      assert body[|hs| + 2..] == DecimalText(m);
      assert text[|hs|] == '時';
    } else {
      assert body == DecimalText(m);
      assert IndexOf(body, '時') == None;
      assert forall k | 0 <= k < |text| :: text[k] != '時' by {
        assert text == body + "分";
      }
    }
  }

  /** The enabled/disabled state of the three buttons. */
  datatype Buttons = Buttons(startDisabled: bool, breakDisabled: bool, stopDisabled: bool)

  /** The button rule of updateUI: start and break usable only when idle, stop only when not. */
  function ButtonsFor(mode: Mode): (b: Buttons)
    ensures mode == Idle <==> !b.startDisabled
    ensures mode == Idle <==> !b.breakDisabled
    ensures mode == Idle <==> b.stopDisabled
  {
    if mode == Idle then Buttons(false, false, true) else Buttons(true, true, false)
  }

  /** The status line updateUI writes. */
  function StatusLabel(mode: Mode): string
  {
    match mode
    case Running(Focus) => "作業中"
    case Running(Break) => "休憩中"
    case Idle => "待機中"
  }

  /** Whether updateUI keeps a countdown running. */
  predicate ShouldCount(mode: Mode, remaining: int)
  {
    mode != Idle && remaining > 0
  }

  /** The countdown as a value: the seconds left and whether an interval is registered. */
  datatype Countdown = Countdown(remaining: int, running: bool)

  /** One firing of the interval callback; none fires once the interval is cleared. */
  function Tick(c: Countdown): Countdown
  {
    if !c.running then c
    else if c.remaining > 0 then Countdown(c.remaining - 1, true)
    else Countdown(c.remaining, false)
  }

  function Ticks(c: Countdown, k: nat): Countdown
    decreases k
  {
    if k == 0 then c else Ticks(Tick(c), k - 1)
  }

  lemma {:induction false} TicksWhenStopped(c: Countdown, k: nat)
    requires !c.running
    ensures Ticks(c, k) == c
  {
    if k > 0 {
      TicksWhenStopped(Tick(c), k - 1);
    }
  }

  /** From `r` seconds the countdown goes down by exactly one per tick, is still running at 0,
      stops on the next tick, and never goes below 0. */
  lemma {:induction false} CountdownRunsDown(r: nat, k: nat)
    ensures Ticks(Countdown(r, true), k) == if k <= r then Countdown(r - k, true) else Countdown(0, false)
    ensures Ticks(Countdown(r, true), k).remaining >= 0
  {
    if k > 0 {
      if r > 0 {
        CountdownRunsDown(r - 1, k - 1);
      } else {
        TicksWhenStopped(Countdown(0, false), k - 1);
      }
    }
  }

  /** The page: the script's globals and the parts of the DOM it writes. */
  class TimerPage {
    var currentMode: Mode
    var remainingSeconds: int
    var timerInterval: bool
    var timerText: string
    var statusText: string
    var buttons: Buttons
    var completedCountText: string
    var totalTimeText: string

    ghost predicate Valid()
      reads this
    {
      remainingSeconds >= 0
    }

    ghost function CountdownState(): Countdown
      reads this
    {
      Countdown(remainingSeconds, timerInterval)
    }

    /** The globals as the script declares them; the texts before the first update are the
        page's markup, which is not part of this model. */
    constructor ()
      ensures Valid()
      ensures currentMode == Idle && remainingSeconds == 0 && !timerInterval
    {
      currentMode := Idle;
      remainingSeconds := 0;
      timerInterval := false;
      timerText := "";
      statusText := "";
      buttons := Buttons(false, false, false);
      completedCountText := "";
      totalTimeText := "";
    }

    method UpdateTimerDisplay(seconds: nat)
      modifies this`timerText
      ensures timerText == TimerText(seconds)
    {
      var minutes := seconds / SECONDS_PER_MINUTE;
      var secs := seconds % SECONDS_PER_MINUTE;
      timerText := DecimalText(minutes) + ":" + PadStart2(DecimalText(secs));
    }

    /** Registers the interval unless one is already registered. */
    method StartCountdown()
      modifies this`timerInterval
      ensures timerInterval
    {
      if timerInterval {
        return;
      }
      timerInterval := true;
    }

    /** Clears the interval; a second call finds nothing to clear. */
    method StopCountdown()
      modifies this`timerInterval
      ensures !timerInterval
    {
      if timerInterval {
        timerInterval := false;
      }
    }

    /** One firing of the interval callback: count down and redraw, or stop at 0. */
    method OnTick()
      requires Valid() && timerInterval
      modifies this`remainingSeconds, this`timerInterval, this`timerText
      ensures Valid()
      ensures CountdownState() == Tick(old(CountdownState()))
      ensures old(remainingSeconds) > 0 ==> timerText == TimerText(remainingSeconds)
      ensures old(remainingSeconds) == 0 ==> timerText == old(timerText)
    {
      if remainingSeconds > 0 {
        remainingSeconds := remainingSeconds - 1;
        UpdateTimerDisplay(remainingSeconds);
      } else {
        StopCountdown();
      }
    }

    /** updateUI: adopt the server's state, redraw status, buttons and totals, then keep the
        countdown running or stop it and show the remaining time. */
    method UpdateUI(state: Services.Snapshot)
      modifies this
      ensures Valid()
      ensures currentMode == state.mode && remainingSeconds == state.remainingSeconds
      ensures statusText == StatusLabel(state.mode) && buttons == ButtonsFor(state.mode)
      ensures completedCountText == DecimalText(state.completedFocusCount)
      ensures totalTimeText == TotalTimeText(state.totalFocusSeconds)
      ensures ShouldCount(state.mode, state.remainingSeconds) ==> timerInterval && timerText == old(timerText)
      ensures !ShouldCount(state.mode, state.remainingSeconds) ==>
                !timerInterval && timerText == TimerText(state.remainingSeconds)
    {
      currentMode := state.mode;
      remainingSeconds := state.remainingSeconds;
      statusText := StatusLabel(currentMode);
      buttons := ButtonsFor(currentMode);
      completedCountText := DecimalText(state.completedFocusCount);
      var (hours, minutes) := HoursMinutes(state.totalFocusSeconds);
      totalTimeText := if hours > 0 then DecimalText(hours) + "時間" + DecimalText(minutes) + "分"
                       else DecimalText(minutes) + "分";
      if currentMode != Idle && remainingSeconds > 0 {
        StartCountdown();
      } else {
        StopCountdown();
        UpdateTimerDisplay(remainingSeconds);
      }
    }
  }
}
