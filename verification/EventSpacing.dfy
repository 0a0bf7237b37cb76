/** Exactly when the trigger pulses are those of the accepted events. */
module EventSpacing {
  import opened Octets
  import opened EventTrigger

  /** The pulse is high after edge n. */
  ghost predicate High(c: Setup, hit: nat -> bool, n: nat) {
    At(c, hit, n + 1).high
  }

  /** It should be: edge n lies in the pulse of an accepted event. */
  ghost predicate Due(c: Setup, hit: nat -> bool, n: nat) {
    exists m: nat :: m <= n && Accepted(c, hit, m) && InPulse(c, m, n)
  }

  ghost predicate Corresponds(c: Setup, hit: nat -> bool) {
    forall n: nat :: High(c, hit, n) <==> Due(c, hit, n)
  }

  ghost predicate AllSpaced(c: Setup, hit: nat -> bool) {
    forall n: nat :: Spaced(c, hit, n)
  }

  /** Event b is the first that comes too early after the one accepted before it. */
  ghost predicate Breach(c: Setup, hit: nat -> bool, b: nat) {
    && Spaced(c, hit, b) && Accepted(c, hit, b)
    && 0 <= Last(c, hit, b) && b < Last(c, hit, b) + Gap(c)
  }

  lemma {:induction false} FirstBreach(c: Setup, hit: nat -> bool, n: nat) returns (b: nat)
    requires !Spaced(c, hit, n)
    ensures Breach(c, hit, b)
  {
    if !Spaced(c, hit, n - 1) {
      b := FirstBreach(c, hit, n - 1);
    } else {
      b := n - 1;
    }
  }

  // --- Facts about any run -----------------------------------------------------------

  /** The edge at which the delay of the event before b is over. */
  ghost function FireOf(c: Setup, hit: nat -> bool, b: nat): int {
    Last(c, hit, b) + c.delay + 2
  }

  lemma {:induction false} LastStays(c: Setup, hit: nat -> bool, n: nat, b: nat)
    requires Last(c, hit, b) < n <= b
    ensures Last(c, hit, n) == Last(c, hit, b)
    decreases b - n
  {
    if n < b {
      LastStays(c, hit, n + 1, b);
    }
  }

  /** An event is accepted, or falls within the delay of an accepted one. */
  lemma HitIsCovered(c: Setup, hit: nat -> bool, t: nat) returns (m: nat)
    requires hit(t)
    ensures t - c.delay <= m <= t && Accepted(c, hit, m)
  {
    if Accepted(c, hit, t) {
      m := t;
    } else {
      m := Last(c, hit, t);
    }
  }

  lemma StepWide(c: Setup, r: Regs, hit: bool)
    ensures var r' := Step(c, r, hit);
      && (r.high ==> r'.width == Inc(r.width))
      && (r'.high <==> r.delay > c.delay || (r.high && r.width < c.width))
  {}

  /** The delay is past its end at two edges in a row only if the event came again. */
  lemma PastEndTwice(c: Setup, r: Regs, h: bool, h': bool)
    requires var r1 := Step(c, r, h); r1.delay > c.delay && Step(c, r1, h').delay > c.delay
    ensures h
  {}

  /** From past its end, the delay counter comes down only through zero. */
  lemma {:induction false} DownThroughZero(c: Setup, hit: nat -> bool, from: nat, n: nat) returns (q: nat)
    requires from < n && At(c, hit, from).delay > c.delay && At(c, hit, n).delay <= c.delay
    ensures from < q <= n && At(c, hit, q).delay == 0
  {
    if At(c, hit, n - 1).delay > c.delay {
      q := n;
    } else {
      q := DownThroughZero(c, hit, from, n - 1);
    }
  }

  /** From zero it takes one edge for each count. */
  lemma {:induction false} ClimbsByOne(c: Setup, hit: nat -> bool, q: nat, n: nat)
    requires q <= n && At(c, hit, q).delay == 0
    ensures At(c, hit, n).delay <= n - q
  {
    if q < n {
      ClimbsByOne(c, hit, q, n - 1);
    }
  }

  lemma {:induction false} StaysLow(c: Setup, hit: nat -> bool, from: nat, n: nat)
    requires from <= n && !At(c, hit, from).high
    requires forall e | from <= e < n :: At(c, hit, e).delay <= c.delay
    ensures !At(c, hit, n).high
  {
    if from < n {
      StaysLow(c, hit, from, n - 1);
      StepWide(c, At(c, hit, n - 1), hit(n - 1));
    }
  }

  lemma {:induction false} CountsWhileHigh(c: Setup, hit: nat -> bool, f: nat, n: nat)
    requires f <= n < f + WORD && At(c, hit, f + 1).width == 0
    requires forall e: nat | f <= e < n :: High(c, hit, e)
    ensures At(c, hit, n + 1).width == n - f
  {
    if f < n {
      CountsWhileHigh(c, hit, f, n - 1);
      StepWide(c, At(c, hit, n), hit(n));
      assert High(c, hit, n - 1);
    }
  }

  // --- The first breach ---------------------------------------------------------------

  /** Up to there everything is in order: the pulse of the event before begins. */
  lemma PulseBegins(c: Setup, hit: nat -> bool, b: nat)
    requires c.delay < WORD - 1 && Breach(c, hit, b)
    ensures FireOf(c, hit, b) >= 0 && b >= FireOf(c, hit, b) - 1
    ensures At(c, hit, FireOf(c, hit, b)).delay > c.delay
    ensures At(c, hit, FireOf(c, hit, b) + 1).high && At(c, hit, FireOf(c, hit, b) + 1).width == 0
  {
    var f: nat := FireOf(c, hit, b);
    if b < f {
      BeginsAfter(c, hit, b, f);
    } else {
      LastStays(c, hit, f, b);
      BeginsAt(c, hit, f);
    }
  }

  /** The delay is over at edge f, where nothing is too early yet. */
  lemma BeginsAt(c: Setup, hit: nat -> bool, f: nat)
    requires c.delay < WORD - 1 && Spaced(c, hit, f) && 0 <= Last(c, hit, f) && f == Last(c, hit, f) + c.delay + 2
    ensures At(c, hit, f).delay > c.delay && WidthAt(c, 0, At(c, hit, f + 1))
  {
    var o := Last(c, hit, Last(c, hit, f));
    EveryRunFollows(c, hit, f);
    StepWidth(c, At(c, hit, f), if o < 0 then -1 else f - 1 - (o + c.delay + 2), hit(f));
  }

  lemma BeginsAfter(c: Setup, hit: nat -> bool, b: nat, f: nat)
    requires c.delay < WORD - 1 && Breach(c, hit, b) && f == FireOf(c, hit, b) == b + 1
    ensures At(c, hit, f).delay > c.delay && WidthAt(c, 0, At(c, hit, f + 1))
  {
    var o := Last(c, hit, Last(c, hit, b));
    EveryRunFollows(c, hit, b);
    BeforeFire(c, At(c, hit, b), if o < 0 then -1 else b - 1 - (o + c.delay + 2));
  }

  /** The event comes at the last clock of the delay. */
  lemma BeforeFire(c: Setup, r: Regs, j: int)
    requires c.delay < WORD - 1 && DelayAt(c, c.delay, r) && -1 <= j && WidthAt(c, j, r) && !(0 <= j < c.width)
    ensures Step(c, r, true).delay == c.delay + 1
    ensures forall h :: WidthAt(c, 0, Step(c, Step(c, r, true), h))
  {}

  /** With the width at least the delay: as long as the pulse has been high since it
      began, it is due to be high still. */
  lemma StillDue(c: Setup, hit: nat -> bool, b: nat, n: nat)
    requires 1 <= c.delay <= c.width && c.delay < WORD - 1 && Breach(c, hit, b)
    requires FireOf(c, hit, b) <= n < FireOf(c, hit, b) + WORD + 1
    requires forall e: nat | FireOf(c, hit, b) <= e < n :: High(c, hit, e)
    ensures Due(c, hit, n)
    ensures forall e: nat | FireOf(c, hit, b) + c.width <= e < n - 2 :: hit(e)
  {
    var a, f: nat := Last(c, hit, b), FireOf(c, hit, b);
    PulseBegins(c, hit, b);
    forall e: nat | f + c.width <= e < n - 2 ensures hit(e) {
      MustFire(c, hit, f, e + 1);
      MustFire(c, hit, f, e + 2);
      PastEndTwice(c, At(c, hit, e), hit(e), hit(e + 1));
    }
    if n <= f + c.width {
      assert Accepted(c, hit, a) && InPulse(c, a, n);
    } else if n <= b + c.delay + 2 + c.width {
      assert Accepted(c, hit, b) && InPulse(c, b, n);
    } else {
      var m := HitIsCovered(c, hit, n - c.delay - 2);
      assert InPulse(c, m, n);
    }
  }

  /** Past its width a pulse is high only while some delay is past its end. */
  lemma MustFire(c: Setup, hit: nat -> bool, f: nat, n: nat)
    requires At(c, hit, f + 1).width == 0 && f + c.width < n <= f + WORD
    requires forall e: nat | f <= e <= n :: High(c, hit, e)
    ensures At(c, hit, n).delay > c.delay
  {
    CountsWhileHigh(c, hit, f, n - 1);
    StepWide(c, At(c, hit, n), hit(n));
    assert High(c, hit, n);
  }

  lemma {:induction false} StaysHigh(c: Setup, hit: nat -> bool, b: nat, n: nat)
    requires 1 <= c.delay <= c.width && c.delay < WORD - 1 && Breach(c, hit, b) && Corresponds(c, hit)
    requires FireOf(c, hit, b) <= n <= FireOf(c, hit, b) + WORD
    ensures forall e: nat | FireOf(c, hit, b) <= e <= n :: High(c, hit, e)
    decreases n
  {
    if n > FireOf(c, hit, b) {
      StaysHigh(c, hit, b, n - 1);
    }
    StillDue(c, hit, b, n);
  }

  /** With the delay longer than the width: nothing is due right after the first pulse ... */
  lemma NothingDue(c: Setup, hit: nat -> bool, b: nat)
    requires c.width < c.delay && Breach(c, hit, b)
    ensures !Due(c, hit, FireOf(c, hit, b) + c.width + 1)
  {
    var a, n := Last(c, hit, b), FireOf(c, hit, b) + c.width + 1;
    forall m: nat | m <= n && Accepted(c, hit, m) ensures !InPulse(c, m, n) {
      if a < m < b {
        NoneBetween(c, hit, m, b);
      }
    }
  }

  /** ... and once it is low there it is low for the rest of a delay ... */
  lemma LowForADelay(c: Setup, hit: nat -> bool, f: nat, n: nat)
    requires f < n <= f + c.delay + 1 && At(c, hit, f).delay > c.delay && !High(c, hit, n)
    ensures !High(c, hit, f + c.delay + 1)
  {
    StepWide(c, At(c, hit, n), hit(n));
    var q := DownThroughZero(c, hit, f, n);
    forall e | n + 1 <= e < f + c.delay + 2 ensures At(c, hit, e).delay <= c.delay {
      ClimbsByOne(c, hit, q, e);
    }
    StaysLow(c, hit, n + 1, f + c.delay + 2);
  }

  /** ... so the pulse that is due for the second event does not come. */
  lemma PulseIsMissing(c: Setup, hit: nat -> bool, b: nat)
    requires c.width < c.delay < WORD - 1 && Breach(c, hit, b)
    ensures !Corresponds(c, hit)
  {
    var f: nat := FireOf(c, hit, b);
    PulseBegins(c, hit, b);
    NothingDue(c, hit, b);
    assert Due(c, hit, f + c.delay + 1) by {
      assert InPulse(c, b, f + c.delay + 1);
    }
    if !High(c, hit, f + c.width + 1) {
      LowForADelay(c, hit, f, f + c.width + 1);
    }
  }

  lemma {:induction false} NoneBetween(c: Setup, hit: nat -> bool, m: nat, b: nat)
    requires m < b && Accepted(c, hit, m)
    ensures m <= Last(c, hit, b)
  {
    if m < b - 1 {
      NoneBetween(c, hit, m, b - 1);
    }
  }

  /** A breach goes unnoticed only if the event then fills the stream: it is there at
      every one of 2^32 - 1 - width clocks in a row. */
  lemma BreachNeedsFullStream(c: Setup, hit: nat -> bool, b: nat)
    requires 1 <= c.delay < WORD - 1 && Breach(c, hit, b) && Corresponds(c, hit)
    ensures forall e: nat | FireOf(c, hit, b) + c.width <= e < FireOf(c, hit, b) + WORD - 1 :: hit(e)
    ensures c.delay <= c.width
  {
    if c.width < c.delay {
      PulseIsMissing(c, hit, b);
    } else {
      var f := FireOf(c, hit, b);
      PulseBegins(c, hit, b);
      StaysHigh(c, hit, b, f + WORD);
      forall e: nat | f + c.width <= e < f + WORD - 1 ensures hit(e) {
        MustFire(c, hit, f, e + 1);
        MustFire(c, hit, f, e + 2);
        PastEndTwice(c, At(c, hit, e), hit(e), hit(e + 1));
      }
    }
  }

  // --- The exact conditions ---------------------------------------------------------------

  /** From edge n on, the event is not there at all of the next 2^32 - 1 - width edges. */
  ghost predicate Pauses(c: Setup, hit: nat -> bool, n: nat) {
    exists m: nat :: n <= m < n + WORD - 1 - c.width && !hit(m)
  }

  /** The pulses are exactly those of the accepted events if and only if these are
      spaced, for every stream that does not carry the event at 2^32 - 1 - width clocks
      in a row. The greatest width is left out: two pulses of it may touch and still be
      counted apart. */
  lemma PulsesIffSpaced(c: Setup, hit: nat -> bool)
    requires 1 <= c.delay < WORD - 1 && c.width < WORD - 1
    requires forall n: nat :: Pauses(c, hit, n)
    ensures Corresponds(c, hit) <==> AllSpaced(c, hit)
  {
    if AllSpaced(c, hit) {
      SpacedCorresponds(c, hit);
    } else if Corresponds(c, hit) {
      var n: nat :| !Spaced(c, hit, n);
      var b := FirstBreach(c, hit, n);
      assert Pauses(c, hit, FireOf(c, hit, b) + c.width);
      BreachNeedsFullStream(c, hit, b);
    }
  }

  lemma SpacedCorresponds(c: Setup, hit: nat -> bool)
    requires c.delay < WORD - 1 && AllSpaced(c, hit)
    ensures Corresponds(c, hit)
  {
    forall n: nat ensures High(c, hit, n) <==> Due(c, hit, n) {
      assert Spaced(c, hit, n + 1);
      PulsesAreExact(c, hit, n);
    }
  }

  /** Two events, g clocks apart and no other: the pulses are right if and only if the
      second falls within the delay of the first or comes max(delay, width) + 2 after it. */
  lemma TwoEventsIff(c: Setup, hit: nat -> bool, a: nat, g: nat)
    requires 1 <= c.delay < WORD - 1 && c.width < WORD - 1 && g >= 1
    requires forall m: nat :: hit(m) <==> m == a || m == a + g
    ensures Corresponds(c, hit) <==> g <= c.delay || g >= Gap(c)
  {
    if a > 0 {
      NoEventsBefore(c, hit, -1, a);
    }
    NoEventsBefore(c, hit, a, a + g);
    if g <= c.delay || g >= Gap(c) {
      SpacedCorresponds(c, hit);
    } else {
      assert Breach(c, hit, a + g);
      if Corresponds(c, hit) {
        var silent := FireOf(c, hit, a + g) + c.width;
        assert !hit(silent);
        BreachNeedsFullStream(c, hit, a + g);
      }
    }
  }

  /** A stream that carries the event for ever: with delay 1 and width 3, events at 0, 2
      and 4 and at every clock from 6 on, the output is high from edge 3 on, as it is due
      to be, though no two of the accepted events are spaced. */
  lemma FullStreamHidesBreach(c: Setup, hit: nat -> bool)
    requires c == Setup(1, 3) && forall n: nat :: hit(n) <==> n == 0 || n == 2 || n == 4 || n >= 6
    ensures Corresponds(c, hit) && !AllSpaced(c, hit)
  {
    forall n: nat ensures High(c, hit, n) <==> Due(c, hit, n) {
      FullStream(c, hit, n);
    }
    FullStream(c, hit, 2);
    assert Accepted(c, hit, 2) && Last(c, hit, 2) == 0;
    assert !Spaced(c, hit, 3);
  }

  lemma FullStream(c: Setup, hit: nat -> bool, n: nat)
    requires c == Setup(1, 3) && forall n: nat :: hit(n) <==> n == 0 || n == 2 || n == 4 || n >= 6
    ensures n % 2 == 0 ==> Accepted(c, hit, n)
    ensures High(c, hit, n) <==> n >= 3
    ensures Due(c, hit, n) <==> n >= 3
  {
    EveryOther(c, hit, n);
    Locked(c, hit, n + 1);
    if n >= 3 {
      var m := if n % 2 == 0 then n - 4 else n - 3;
      EveryOther(c, hit, m);
      assert InPulse(c, m, n);
    }
  }

  lemma {:induction false} EveryOther(c: Setup, hit: nat -> bool, n: nat)
    requires c == Setup(1, 3) && forall n: nat :: hit(n) <==> n == 0 || n == 2 || n == 4 || n >= 6
    ensures Last(c, hit, n) == (if n == 0 then -1 else if n % 2 == 0 then n - 2 else n - 1)
    ensures Accepted(c, hit, n) <==> n % 2 == 0
  {
    if n > 0 {
      EveryOther(c, hit, n - 1);
    }
  }

  /** From edge 8 on, both counters run in step, and one of them always keeps the pulse up. */
  lemma {:induction false} Locked(c: Setup, hit: nat -> bool, n: nat)
    requires c == Setup(1, 3) && forall n: nat :: hit(n) <==> n == 0 || n == 2 || n == 4 || n >= 6
    ensures At(c, hit, n).high <==> n >= 4
    ensures n >= 7 ==> At(c, hit, n).delaying && At(c, hit, n).width == Inc(At(c, hit, n).delay)
    ensures n == 7 ==> At(c, hit, n).delay == 2
    ensures n < 7 ==> At(c, hit, n) == [QUIET, Regs(0, 0, true, false), Regs(1, 0, true, false), Regs(2, 0, true, false),
                                        Regs(3, 0, false, true), Regs(0, 1, true, true), Regs(1, 2, true, true)][n]
  {
    if n > 0 {
      Locked(c, hit, n - 1);
    }
  }
}
