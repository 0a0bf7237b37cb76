/** One trigger channel of the event receiver: an event starts a delay, and the end
    of the delay starts a pulse. */
module EventTrigger {
  import opened Octets

  datatype Regs = Regs(delay: Word32, width: Word32, delaying: bool, high: bool)

  /** The registers' power-up values; reset brings them back. */
  const QUIET := Regs(0, 0, false, false)

  /** myDelay and myWidth. */
  datatype Setup = Setup(delay: Word32, width: Word32)

  /** Counting up in 32 bits. */
  function Inc(x: Word32): Word32 {
    if x == WORD - 1 then 0 else x + 1
  }

  /** One rising clock edge without reset: each of the four processes reads the
      values from before the edge. */
  function Step(c: Setup, r: Regs, hit: bool): Regs {
    Regs(if r.delaying then Inc(r.delay) else if r.delay >= c.delay then 0 else r.delay,
         if r.high then Inc(r.width) else if r.width >= c.width then 0 else r.width,
         hit || (r.delaying && r.delay < c.delay),
         r.delay > c.delay || (r.high && r.width < c.width))
  }

  /** The trigger output. */
  function Output(c: Setup, polarity: bool, r: Regs): bool {
    c.delay != 0 && c.width != 0 && (if polarity then !r.high else r.high)
  }

  class Channel {
    var delayCounter: Word32
    var widthCounter: Word32
    var startDelay: bool
    var startWidth: bool

    function State(): Regs
      reads this
    {
      Regs(delayCounter, widthCounter, startDelay, startWidth)
    }

    constructor ()
      ensures State() == QUIET
    {
      delayCounter, widthCounter, startDelay, startWidth := 0, 0, false, false;
    }

    /** A rising edge of Clock. */
    method Edge(reset: bool, eventStream: Octet, myEvent: Octet, c: Setup)
      modifies this
      ensures State() == if reset then QUIET else Step(c, old(State()), eventStream == myEvent)
    {
      var delayCounter', widthCounter' := delayCounter, widthCounter;
      var startDelay', startWidth' := startDelay, startWidth;
      if reset {
        delayCounter' := 0;
      } else if startDelay {
        delayCounter' := Inc(delayCounter);
      } else if delayCounter >= c.delay {
        delayCounter' := 0;
      }
      if reset {
        widthCounter' := 0;
      } else if startWidth {
        widthCounter' := Inc(widthCounter);
      } else if widthCounter >= c.width {
        widthCounter' := 0;
      }
      if reset {
        startDelay' := false;
      } else if myEvent == eventStream {
        startDelay' := true;
      } else if delayCounter >= c.delay {
        startDelay' := false;
      }
      if reset {
        startWidth' := false;
      } else if delayCounter > c.delay {
        startWidth' := true;
      } else if widthCounter >= c.width {
        startWidth' := false;
      }
      delayCounter, widthCounter := delayCounter', widthCounter';
      startDelay, startWidth := startDelay', startWidth';
    }
  }

  // --- Traces ---------------------------------------------------------------

  /** The registers before edge n, where the event is seen at the edges in hit. */
  ghost function At(c: Setup, hit: nat -> bool, n: nat): Regs {
    if n == 0 then QUIET else Step(c, At(c, hit, n - 1), hit(n - 1))
  }

  /** The last event before edge n that starts a delay of its own, or -1. */
  ghost function Last(c: Setup, hit: nat -> bool, n: nat): (a: int)
    ensures -1 <= a < n
    ensures a >= 0 ==> Accepted(c, hit, a)
    decreases n, 0
  {
    if n == 0 then -1 else if Accepted(c, hit, n - 1) then n - 1 else Last(c, hit, n - 1)
  }

  /** An event starts a delay of its own unless the delay of an earlier one is running. */
  ghost predicate Accepted(c: Setup, hit: nat -> bool, n: nat)
    decreases n, 1
  {
    hit(n) && (Last(c, hit, n) < 0 || n > Last(c, hit, n) + c.delay)
  }

  function Gap(c: Setup): nat {
    Max(c.delay, c.width) + 2
  }

  /** Each event before edge n falls within the delay of an earlier one, or comes at
      least Gap clocks after it. */
  ghost predicate Spaced(c: Setup, hit: nat -> bool, n: nat) {
    forall m: nat | m < n && Accepted(c, hit, m) && Last(c, hit, m) >= 0 :: m >= Last(c, hit, m) + Gap(c)
  }

  /** k edges after the one that accepted an event: k = 0 is right after it. */
  predicate DelayAt(c: Setup, k: int, r: Regs) {
    if 0 <= k <= c.delay then r.delaying && r.delay == k
    else if k == c.delay + 1 then !r.delaying && r.delay == k
    else !r.delaying && r.delay == 0
  }

  /** j edges after the one at which the pulse began. */
  predicate WidthAt(c: Setup, j: int, r: Regs) {
    if 0 <= j <= c.width then r.high && r.width == j
    else if j == c.width + 1 then !r.high && r.width == (if j == WORD then 0 else j)
    else !r.high && r.width == 0
  }

  /** The last accepted event whose delay is over before edge n, or -1. */
  ghost function Firing(c: Setup, hit: nat -> bool, n: nat): (a: int)
    ensures -1 <= a < n && (a >= 0 ==> Accepted(c, hit, a))
  {
    var a := Last(c, hit, n);
    if a < 0 || n - 1 - a >= c.delay + 2 then a else Last(c, hit, a)
  }

  ghost predicate Follows(c: Setup, hit: nat -> bool, n: nat) {
    var a, f, r := Last(c, hit, n), Firing(c, hit, n), At(c, hit, n);
    && DelayAt(c, if a < 0 then -1 else n - 1 - a, r)
    && WidthAt(c, if f < 0 then -1 else n - 1 - (f + c.delay + 2), r)
    && (f >= 0 ==> n - 1 >= f + c.delay + 2)
  }

  lemma StepDelay(c: Setup, r: Regs, k: int, hit: bool)
    requires c.delay < WORD - 1 && -1 <= k && DelayAt(c, k, r) && (hit ==> k != c.delay)
    ensures DelayAt(c, if hit && !(0 <= k < c.delay) then 0 else if k < 0 then -1 else k + 1, Step(c, r, hit))
    ensures r.delay > c.delay <==> k == c.delay + 1
  {}

  lemma StepWidth(c: Setup, r: Regs, j: int, hit: bool)
    requires -1 <= j && WidthAt(c, j, r) && (r.delay > c.delay ==> !(0 <= j <= c.width))
    ensures WidthAt(c, if r.delay > c.delay then 0 else if j < 0 then -1 else j + 1, Step(c, r, hit))
  {}

  lemma StepFollows(c: Setup, hit: nat -> bool, m: nat, n: nat)
    requires c.delay < WORD - 1 && n == m + 1 && Spaced(c, hit, n) && Follows(c, hit, m)
    ensures Follows(c, hit, n)
  {
    var a, f, r := Last(c, hit, m), Firing(c, hit, m), At(c, hit, m);
    StepDelay(c, r, if a < 0 then -1 else m - 1 - a, hit(m));
    StepWidth(c, r, if f < 0 then -1 else m - 1 - (f + c.delay + 2), hit(m));
  }

  /** In every run the registers are a function of the accepted events alone. */
  lemma {:induction false} EveryRunFollows(c: Setup, hit: nat -> bool, n: nat)
    requires c.delay < WORD - 1 && Spaced(c, hit, n)
    ensures Follows(c, hit, n)
  {
    if n > 0 {
      EveryRunFollows(c, hit, n - 1);
      StepFollows(c, hit, n - 1, n);
    }
  }

  /** Accepted events are at least Gap apart. */
  lemma {:induction false} AcceptedApart(c: Setup, hit: nat -> bool, m: nat, n: nat)
    requires Spaced(c, hit, n) && m < n && Accepted(c, hit, m)
    ensures m <= Last(c, hit, n)
    ensures m == Last(c, hit, n) || m + Gap(c) <= Last(c, hit, n)
  {
    if m < n - 1 {
      AcceptedApart(c, hit, m, n - 1);
    }
  }

  /** The pulse that belongs to the event accepted at edge m. */
  predicate InPulse(c: Setup, m: int, n: int) {
    m + c.delay + 2 <= n <= m + c.delay + c.width + 2
  }

  lemma HighWhileFiring(c: Setup, hit: nat -> bool, n: nat)
    requires c.delay < WORD - 1 && Spaced(c, hit, n)
    ensures At(c, hit, n).high <==> Firing(c, hit, n) >= 0 && InPulse(c, Firing(c, hit, n), n - 1)
  {
    EveryRunFollows(c, hit, n);
  }

  /** After edge n the pulse is high exactly if n lies in the pulse of an accepted
      event: width + 1 clocks, from the edge delay + 2 after the event. */
  lemma PulsesAreExact(c: Setup, hit: nat -> bool, n: nat)
    requires c.delay < WORD - 1 && Spaced(c, hit, n + 1)
    ensures At(c, hit, n + 1).high <==> exists m: nat :: m <= n && Accepted(c, hit, m) && InPulse(c, m, n)
  {
    HighWhileFiring(c, hit, n + 1);
    forall m: nat | m <= n && Accepted(c, hit, m) && InPulse(c, m, n) ensures m == Firing(c, hit, n + 1) {
      FiringIs(c, hit, m, n);
    }
  }

  /** The trigger output: with polarity 0 it is high in the pulses and low otherwise,
      with polarity 1 the other way round; a zero delay or width keeps it low. */
  lemma TriggerIsExact(c: Setup, hit: nat -> bool, polarity: bool, n: nat)
    requires c.delay < WORD - 1 && Spaced(c, hit, n + 1)
    ensures c.delay == 0 || c.width == 0 ==> !Output(c, polarity, At(c, hit, n + 1))
    ensures c.delay != 0 && c.width != 0 ==>
              (Output(c, polarity, At(c, hit, n + 1)) != polarity
               <==> exists m: nat :: m <= n && Accepted(c, hit, m) && InPulse(c, m, n))
  {
    PulsesAreExact(c, hit, n);
  }

  lemma HighDuring(c: Setup, hit: nat -> bool, m: nat, n: nat)
    requires c.delay < WORD - 1 && Spaced(c, hit, n + 1) && Accepted(c, hit, m) && InPulse(c, m, n)
    ensures At(c, hit, n + 1).high
  {
    PulsesAreExact(c, hit, n);
  }

  lemma HighBecause(c: Setup, hit: nat -> bool, n: nat) returns (m: nat)
    requires c.delay < WORD - 1 && Spaced(c, hit, n) && At(c, hit, n).high
    ensures m < n && Accepted(c, hit, m) && InPulse(c, m, n - 1)
  {
    PulsesAreExact(c, hit, n - 1);
    m :| m <= n - 1 && Accepted(c, hit, m) && InPulse(c, m, n - 1);
  }

  /** Two events whose pulses touch or overlap are the same event. */
  lemma {:induction false} NoOverlap(c: Setup, hit: nat -> bool, m: nat, m': nat, n: nat)
    requires Spaced(c, hit, n) && m < n && m' < n && Accepted(c, hit, m) && Accepted(c, hit, m')
    requires InPulse(c, m, n) || InPulse(c, m, n - 1)
    requires InPulse(c, m', n) || InPulse(c, m', n - 1)
    ensures m == m'
  {
    if m < m' {
      AcceptedApart(c, hit, m, m' + 1);
    } else if m' < m {
      AcceptedApart(c, hit, m', m + 1);
    }
  }

  /** Pulses and accepted events correspond one to one: the pulse rises exactly
      delay + 2 edges after each accepted event ... */
  lemma OneRisePerEvent(c: Setup, hit: nat -> bool, n: nat)
    requires c.delay < WORD - 1 && Spaced(c, hit, n + 1)
    ensures !At(c, hit, n).high && At(c, hit, n + 1).high
       <==> n >= c.delay + 2 && Accepted(c, hit, n - c.delay - 2)
  {
    if At(c, hit, n + 1).high {
      var m := HighBecause(c, hit, n + 1);
      if InPulse(c, m, n - 1) {
        HighDuring(c, hit, m, n - 1);
      }
      if n >= c.delay + 2 && Accepted(c, hit, n - c.delay - 2) {
        NoOverlap(c, hit, m, n - c.delay - 2, n);
        if At(c, hit, n).high {
          var m' := HighBecause(c, hit, n);
          NoOverlap(c, hit, m, m', n);
        }
      }
    } else if n >= c.delay + 2 && Accepted(c, hit, n - c.delay - 2) {
      HighDuring(c, hit, n - c.delay - 2, n);
    }
  }

  /** ... and falls width + 1 edges after that. */
  lemma OneFallPerEvent(c: Setup, hit: nat -> bool, n: nat)
    requires c.delay < WORD - 1 && Spaced(c, hit, n + 1)
    ensures At(c, hit, n).high && !At(c, hit, n + 1).high
       <==> n >= c.delay + c.width + 3 && Accepted(c, hit, n - c.delay - c.width - 3)
  {
    if At(c, hit, n).high {
      var m := HighBecause(c, hit, n);
      if InPulse(c, m, n) {
        HighDuring(c, hit, m, n);
      }
      if n >= c.delay + c.width + 3 && Accepted(c, hit, n - c.delay - c.width - 3) {
        NoOverlap(c, hit, m, n - c.delay - c.width - 3, n);
        if At(c, hit, n + 1).high {
          var m' := HighBecause(c, hit, n + 1);
          NoOverlap(c, hit, m, m', n);
        }
      }
    } else if n >= c.delay + c.width + 3 && Accepted(c, hit, n - c.delay - c.width - 3) {
      HighDuring(c, hit, n - c.delay - c.width - 3, n - 1);
    }
  }

  /** Between the end of its delay and that of the next accepted event, m is firing. */
  lemma FiringIs(c: Setup, hit: nat -> bool, m: nat, n: nat)
    requires Spaced(c, hit, n + 1) && m + c.delay + 2 <= n <= m + c.delay + c.width + 3 && Accepted(c, hit, m)
    ensures Firing(c, hit, n + 1) == m
  {
    AcceptedApart(c, hit, m, n + 1);
    var a := Last(c, hit, n + 1);
    if m < a {
      AcceptedApart(c, hit, m, a);
    }
  }

  /** Events that fall within a running delay change no register, ever. */
  lemma {:induction false} EventsDuringDelayAreIgnored(c: Setup, hit: nat -> bool, hit': nat -> bool, n: nat)
    requires c.delay < WORD - 1 && Spaced(c, hit, n)
    requires forall m: nat | m < n && hit(m) != hit'(m) :: 0 <= Last(c, hit, m) && m <= Last(c, hit, m) + c.delay
    ensures At(c, hit', n) == At(c, hit, n)
  {
    if n > 0 {
      EventsDuringDelayAreIgnored(c, hit, hit', n - 1);
      EveryRunFollows(c, hit, n - 1);
    }
  }

  /** With the greatest delay the counter wraps before it passes, and no event ever fires. */
  lemma {:induction false} GreatestDelayNeverFires(c: Setup, hit: nat -> bool, n: nat)
    requires c.delay == WORD - 1
    ensures !At(c, hit, n).high
  {
    if n > 0 {
      GreatestDelayNeverFires(c, hit, n - 1);
    }
  }

  /** Where the registers are when the event is seen only at edges a and a + g. */
  lemma {:induction false} TwoEvents(c: Setup, hit: nat -> bool, a: nat, g: nat, n: nat)
    requires c.delay < WORD - 1 && c.delay + 2 <= g <= c.width
    requires forall m: nat :: hit(m) <==> m == a || m == a + g
    ensures WidthAt(c, Max(-1, n - 1 - (a + c.delay + 2)), At(c, hit, n))
    ensures DelayAt(c, if n - 1 < a then -1 else if n - 1 < a + g then n - 1 - a else n - 1 - (a + g), At(c, hit, n))
  {
    if n > 0 {
      TwoEvents(c, hit, a, g, n - 1);
      var k := if n - 2 < a then -1 else if n - 2 < a + g then n - 2 - a else n - 2 - (a + g);
      StepDelay(c, At(c, hit, n - 1), k, hit(n - 1));
      MergedWidth(c, At(c, hit, n - 1), Max(-1, n - 2 - (a + c.delay + 2)), hit(n - 1));
    }
  }

  /** A second end of delay while the pulse is high goes unnoticed. */
  lemma MergedWidth(c: Setup, r: Regs, j: int, hit: bool)
    requires -1 <= j && WidthAt(c, j, r) && (r.delay > c.delay ==> j < c.width)
    ensures WidthAt(c, if j >= 0 then j + 1 else if r.delay > c.delay then 0 else -1, Step(c, r, hit))
  {}

  lemma {:induction false} NoEventsBefore(c: Setup, hit: nat -> bool, a: int, n: nat)
    requires -1 <= a < n && (forall m: nat | a < m < n :: !hit(m)) && (a >= 0 ==> Accepted(c, hit, a))
    ensures Last(c, hit, n) == a
  {
    if n - 1 > a {
      NoEventsBefore(c, hit, a, n - 1);
    }
  }

  /** What comes out when the gap is too short but past the delay: two events at a and
      a + g, delay + 2 <= g <= width, are both accepted and give the one pulse of the first. */
  lemma CloserEventsMerge(c: Setup, hit: nat -> bool, a: nat, g: nat, n: nat)
    requires c.delay < WORD - 1 && c.delay + 2 <= g <= c.width
    requires forall m: nat :: hit(m) <==> m == a || m == a + g
    ensures Accepted(c, hit, a) && Accepted(c, hit, a + g)
    ensures At(c, hit, n + 1).high <==> InPulse(c, a, n)
  {
    TwoEvents(c, hit, a, g, n + 1);
    if a > 0 {
      NoEventsBefore(c, hit, -1, a);
    }
    NoEventsBefore(c, hit, a, a + g);
  }

  // --- The channel over time ------------------------------------------------------------

  /** The edges at which a stream carries the event. */
  ghost function Hits(stream: seq<Octet>, event: Octet): nat -> bool {
    (n: nat) => n < |stream| && stream[n] == event
  }

  /** The channel fed a stream from power-up: after spaced events its flag is high exactly
      in their pulses. */
  method Watch(stream: seq<Octet>, event: Octet, c: Setup) returns (channel: Channel)
    ensures fresh(channel) && channel.State() == At(c, Hits(stream, event), |stream|)
    ensures c.delay < WORD - 1 && stream != [] && Spaced(c, Hits(stream, event), |stream|) ==>
              (channel.startWidth <==>
               exists m: nat :: m <= |stream| - 1 && Accepted(c, Hits(stream, event), m) && InPulse(c, m, |stream| - 1))
  {
    channel := new Channel();
    for n := 0 to |stream|
      invariant fresh(channel) && channel.State() == At(c, Hits(stream, event), n)
    {
      channel.Edge(false, stream[n], event, c);
    }
    if c.delay < WORD - 1 && stream != [] && Spaced(c, Hits(stream, event), |stream|) {
      PulsesAreExact(c, Hits(stream, event), |stream| - 1);
    }
  }
}
