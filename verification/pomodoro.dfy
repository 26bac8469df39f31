/** The focus timer: a countdown through a work phase and a break phase.
    One `Second` is the interval callback followed by the re-render effect
    that reacts to reaching zero. */
module Pomodoro {
  import opened Text
  import opened Options

  datatype Phase = Work | Break

  const WorkSeconds: nat := 25 * 60
  const BreakSeconds: nat := 5 * 60

  /** The fixed length of a phase. */
  function Duration(p: Phase): nat {
    if p == Break then BreakSeconds else WorkSeconds
  }

  function Other(p: Phase): Phase {
    if p == Work then Break else Work
  }

  datatype Timer = Timer(timeLeft: int, active: bool, phase: Phase)

  /** What every reachable timer satisfies: the time left lies between zero
      and the length of the current phase. */
  predicate Valid(t: Timer) {
    0 <= t.timeLeft <= Duration(t.phase)
  }

  /** On mount: a full work phase, not running. */
  function Initial(): (t: Timer)
    ensures Valid(t) && !t.active && t.phase == Work
    ensures t.timeLeft == WorkSeconds && WorkSeconds == 1500
  {
    Timer(WorkSeconds, false, Work)
  }

  /** The interval callback. The interval only exists while the timer is
      active with time left, so only then is one second taken off. */
  function Tick(t: Timer): (r: Timer)
    ensures r.phase == t.phase && r.active == t.active
    ensures t.active && t.timeLeft > 0 ==> r.timeLeft == t.timeLeft - 1
    ensures !(t.active && t.timeLeft > 0) ==> r == t
    ensures Valid(t) ==> Valid(r)
  {
    if t.active && t.timeLeft > 0 then t.(timeLeft := t.timeLeft - 1) else t
  }

  /** The effect's zero branch: at zero the timer stops and switches phase,
      starting the new phase at its full length. */
  function Settle(t: Timer): (r: Timer)
    ensures t.timeLeft == 0 ==> !r.active && r.phase == Other(t.phase) && r.timeLeft == Duration(r.phase)
    ensures t.timeLeft != 0 ==> r == t
    ensures Valid(t) ==> Valid(r)
  {
    if t.timeLeft == 0 then Timer(Duration(Other(t.phase)), false, Other(t.phase)) else t
  }

  /** One elapsed second. A running timer counts down; the second that
      reaches zero (or a timer already at zero) leaves it paused at the full
      length of the other phase; a paused timer with time left stays put. */
  function Second(t: Timer): (r: Timer)
    ensures t.active && t.timeLeft > 1 ==> r == t.(timeLeft := t.timeLeft - 1)
    ensures t.timeLeft == 0 || (t.active && t.timeLeft == 1) ==>
      r == Timer(Duration(Other(t.phase)), false, Other(t.phase))
    ensures t.timeLeft != 0 && !(t.active && t.timeLeft > 0) ==> r == t
    ensures Valid(t) ==> Valid(r)
  {
    Settle(Tick(t))
  }

  /** `k` elapsed seconds. However many pass, a valid timer stays valid: the
      time left never leaves the current phase's range. */
  function Run(t: Timer, k: nat): (r: Timer)
    ensures Valid(t) ==> Valid(r)
    decreases k
  {
    if k == 0 then t else Run(Second(t), k - 1)
  }

  /** The play/pause button flips only the running flag. */
  function Toggle(t: Timer): (r: Timer)
    ensures r.active == !t.active
    ensures r.timeLeft == t.timeLeft && r.phase == t.phase
  {
    t.(active := !t.active)
  }

  /** The reset button stops the timer and refills the current phase, which
      it does not change. */
  function Reset(t: Timer): (r: Timer)
    ensures !r.active && r.phase == t.phase
    ensures r.timeLeft == Duration(t.phase)
    ensures Valid(r)
  {
    Timer(if t.phase == Break then BreakSeconds else WorkSeconds, false, t.phase)
  }

  /** The numerator of the progress bar: seconds spent in the phase. */
  function Elapsed(t: Timer): (e: int)
    ensures Valid(t) ==> 0 <= e <= Duration(t.phase)
    ensures Valid(t) && e == 0 ==> t.timeLeft == Duration(t.phase)
  {
    Duration(t.phase) - t.timeLeft
  }

  /** The progress bar as a percentage. */
  function Progress(t: Timer): (pct: real)
    ensures Valid(t) ==> 0.0 <= pct <= 100.0
  {
    (Elapsed(t) as real / Duration(t.phase) as real) * 100.0
  }

  /** While the timer runs and time is left, each second takes exactly one
      second off and nothing else changes. */
  lemma {:induction false} CountDown(t: Timer, k: nat)
    requires t.active && k < t.timeLeft
    ensures Run(t, k) == t.(timeLeft := t.timeLeft - k)
    decreases k
  {
    if k > 0 {
      CountDown(Second(t), k - 1);
    }
  }

  /** A running phase runs down in exactly `timeLeft` seconds and then leaves
      the timer paused at the start of the other phase. */
  lemma {:induction false} PhaseEnds(t: Timer)
    requires t.active && t.timeLeft > 0
    ensures Run(t, t.timeLeft) == Timer(Duration(Other(t.phase)), false, Other(t.phase))
    decreases t.timeLeft
  {
    if t.timeLeft > 1 {
      PhaseEnds(Second(t));
    }
  }

  /** A paused timer with time left does not move, however long it waits. */
  lemma {:induction false} PausedStays(t: Timer, k: nat)
    requires !t.active && t.timeLeft > 0
    ensures Run(t, k) == t
    decreases k
  {
    if k > 0 {
      PausedStays(Second(t), k - 1);
    }
  }

  /** A full cycle: started from a fresh work phase, 1500 seconds bring the
      timer to a paused 300-second break; restarted, 300 more seconds bring
      it back to a paused 1500-second work phase. */
  lemma FullCycle()
    ensures Run(Toggle(Initial()), 1500) == Timer(300, false, Break)
    ensures Run(Toggle(Run(Toggle(Initial()), 1500)), 300) == Timer(1500, false, Work)
  {
    PhaseEnds(Toggle(Initial()));
    PhaseEnds(Toggle(Timer(300, false, Break)));
  }

  /** What can happen to the timer: a second passes, or one of its two
      buttons is pressed. */
  datatype Event = SecondPassed | StartPause | ResetButton

  function Apply(t: Timer, e: Event): Timer {
    match e
    case SecondPassed => Second(t)
    case StartPause => Toggle(t)
    case ResetButton => Reset(t)
  }

  function ApplyAll(t: Timer, es: seq<Event>): Timer
    decreases |es|
  {
    if |es| == 0 then t else ApplyAll(Apply(t, es[0]), es[1..])
  }

  /** No mix of elapsed seconds and button presses takes the time left out
      of the current phase's range. */
  lemma {:induction false} EventsKeepValid(t: Timer, es: seq<Event>)
    requires Valid(t)
    ensures Valid(ApplyAll(t, es))
    decreases |es|
  {
    if |es| > 0 {
      EventsKeepValid(Apply(t, es[0]), es[1..]);
    }
  }

  /** Two-digit, zero-padded decimal. */
  function Pad2(n: nat): (r: string)
    ensures |r| >= 2
    ensures n < 100 ==> |r| == 2
  {
    PadStart(NatToString(n), 2, '0')
  }

  /** A padded number is all digits and reads back as the number. */
  lemma Pad2Reads(n: nat)
    ensures AllDigits(Pad2(n))
    ensures ParseDecimal(Pad2(n)) == n
  {
    ParsePadded(NatToString(n), 2);
    ParseNatToString(n);
  }

  /** The `mm:ss` display of a number of seconds. */
  function FormatTime(seconds: nat): (r: string)
    ensures |r| >= 5 && r[|r| - 3] == ':'
    ensures seconds < 6000 ==> |r| == 5
  {
    var m, sec := Pad2(seconds / 60), Pad2(seconds % 60);
    assert |sec| == 2;
    var r := m + ":" + sec;
    assert r[|r| - 3] == ':';
    r
  }

  /** Reads an `m..m:ss` display back as a number of seconds. */
  function ParseTime(r: string): Option<nat>
  {
    if |r| >= 3 && r[|r| - 3] == ':' && AllDigits(r[..|r| - 3])
      && IsDigit(r[|r| - 2]) && IsDigit(r[|r| - 1])
    then Some(ParseDecimal(r[..|r| - 3]) * 60 + ParseDecimal(r[|r| - 2..]))
    else None
  }

  /** An `m..m:ss` display made of digit runs reads back as minutes and seconds. */
  lemma ParseTimeOf(a: string, b: string)
    requires AllDigits(a)
    requires |b| == 2 && IsDigit(b[0]) && IsDigit(b[1])
    ensures ParseTime(a + ":" + b) == Some(ParseDecimal(a) * 60 + ParseDecimal(b))
  {
    var r := a + ":" + b;
    assert r[..|r| - 3] == a;
    assert r[|r| - 2..] == b;
  }

  /** The two halves of the display. */
  lemma FormatTimeParts(seconds: nat)
    ensures FormatTime(seconds) == Pad2(seconds / 60) + ":" + Pad2(seconds % 60)
    ensures |Pad2(seconds % 60)| == 2
  {
  }

  /** The display loses nothing: it reads back as the number it shows. */
  lemma FormatTimeRoundTrip(seconds: nat)
    ensures ParseTime(FormatTime(seconds)) == Some(seconds)
  {
    var m, s := seconds / 60, seconds % 60;
    FormatTimeParts(seconds);
    Pad2Reads(m);
    Pad2Reads(s);
    DisplayReads(Pad2(m), Pad2(s), m, s);
    MinutesAndSeconds(seconds);
  }

  lemma MinutesAndSeconds(seconds: nat)
    ensures (seconds / 60) * 60 + seconds % 60 == seconds
  {
  }

  lemma DisplayReads(a: string, b: string, m: nat, s: nat)
    requires AllDigits(a) && AllDigits(b) && |b| == 2
    requires ParseDecimal(a) == m && ParseDecimal(b) == s
    ensures ParseTime(a + ":" + b) == Some(m * 60 + s)
  {
    assert IsDigit(b[0]) && IsDigit(b[1]);
    ParseTimeOf(a, b);
  }
}
