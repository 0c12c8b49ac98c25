/**
 Time in the link supervision: when a 32-bit comparison tells the truth, and at what pace the events
 of a run come. Runs carry true times; a `Wrapped32` run of them compares times as the kernel does.
 */
module LinkTime {
  import opened LinkModel

  /** The signed comparison is exact while the true difference fits in 32 signed bits. */
  lemma {:induction false} ReachedExact(now: int, stamp: int, delay: int)
    requires -HALF <= now - (stamp + delay) < HALF
    ensures Reached(Wrapped32, now, stamp, delay) <==> Reached(Unbounded, now, stamp, delay)
  {
    var late := now - (stamp + delay);
    if late < 0 {
      assert (late + TWO32) % TWO32 == late + TWO32;
    } else {
      assert late % TWO32 == late;
    }
  }

  /** The clock can tell a delay of that length from its end. */
  predicate Measures(clock: Clock, delay: int) {
    clock.Wrapped32? ==> delay <= HALF
  }

  /** A stamp of that age is compared truthfully. */
  predicate InRange(clock: Clock, now: int, stamp: int) {
    clock.Wrapped32? ==> 0 <= now - stamp < HALF
  }

  lemma {:induction false} ReachedTruly(clock: Clock, now: int, stamp: int, delay: nat)
    requires Measures(clock, delay) && InRange(clock, now, stamp)
    ensures Reached(clock, now, stamp, delay) <==> stamp + delay <= now
  {
    if clock.Wrapped32? {
      ReachedExact(now, stamp, delay);
    }
  }

  /** Before its end a delay is not reached. */
  lemma {:induction false} NotYetReached(clock: Clock, now: int, stamp: int, delay: nat)
    requires Measures(clock, delay) && 0 <= now - stamp < delay
    ensures !Reached(clock, now, stamp, delay)
  {
    if clock.Wrapped32? {
      ReachedExact(now, stamp, delay);
    }
  }

  // ---- the pace of a run --------------------------------------------------------------------

  /** The time of the last timed event, from the start. */
  function LatestTime(start: int, es: seq<Event>): int {
    if es == [] then start
    else if Timed(es[|es| - 1]) then es[|es| - 1].now
    else LatestTime(start, es[..|es| - 1])
  }

  lemma {:induction false} LatestTimeBound(start: int, es: seq<Event>, n: nat)
    requires Monotone(start, es) && n < |es| && Timed(es[n])
    ensures LatestTime(start, es[..n]) <= es[n].now
  {
    LatestTimeWitness(start, es[..n]);
  }

  lemma {:induction false} LatestTimeWitness(start: int, es: seq<Event>)
    ensures LatestTime(start, es) == start ||
            exists i :: 0 <= i < |es| && Timed(es[i]) && LatestTime(start, es) == es[i].now
  {
    if es != [] && !Timed(es[|es| - 1]) {
      LatestTimeWitness(start, es[..|es| - 1]);
    }
  }

  /** The PHY is not powered down after these events. */
  predicate PoweredUp(es: seq<Event>) {
    es != [] &&
    var e := es[|es| - 1];
    e.PowerUp? || (!e.PowerDown? && PoweredUp(es[..|es| - 1]))
  }

  /** Event i is a poll that is not skipped. */
  predicate PollsAt(es: seq<Event>, i: nat)
    requires i < |es|
  {
    es[i].Poll? && PoweredUp(es[..i])
  }

  /** The time of the last poll that was not skipped, from the start. */
  function PollTime(start: int, es: seq<Event>): int {
    if es == [] then start
    else
      var n := |es| - 1;
      if PollsAt(es, n) then es[n].now else PollTime(start, es[..n])
  }

  /** Time runs forward and polls are at most g ticks apart. */
  predicate Paced(start: int, es: seq<Event>, g: nat) {
    Monotone(start, es) &&
    forall i :: 0 <= i < |es| && PollsAt(es, i) ==> es[i].now - PollTime(start, es[..i]) <= g
  }

  /** Only the power events decide whether polls are skipped. */
  lemma {:induction false} PoweredMeans(clock: Clock, cfg: LinkConfig, t0: int, j0: int, es: seq<Event>)
    ensures After(clock, cfg, Fresh(t0, j0), es).powerdown <==> !PoweredUp(es)
  {
    if es == [] {
    } else {
      var n := |es| - 1;
      PoweredMeans(clock, cfg, t0, j0, es[..n]);
      StepPower(clock, cfg, After(clock, cfg, Fresh(t0, j0), es[..n]), es[n]);
    }
  }

  /** A board without fix-ups shows what the registers say, at every poll of a powered PHY, and does
      nothing else. */
  lemma {:induction false} PlainBoardShowsRaw(clock: Clock, cfg: LinkConfig, t0: int, j0: int, es: seq<Event>, i: nat)
    requires i < |es| && es[i].Poll? && !cfg.rstOnLinkfail && !cfg.linkfailTime
    ensures EntryAt(clock, cfg, Fresh(t0, j0), es, i)
         == Entry(if PoweredUp(es[..i]) then es[i].x.raw else NO_STATUS, false, false, NoFailure, [])
  {
    PoweredMeans(clock, cfg, t0, j0, es[..i]);
  }

  lemma {:induction false} StepPower(clock: Clock, cfg: LinkConfig, s: Phy, e: Event)
    ensures Step(clock, cfg, s, e).phy.powerdown <==> !(e.PowerUp? || (!e.PowerDown? && !s.powerdown))
  {
    if e.Poll? {
      PreparePower(clock, cfg, s, e.now, e.x);
      ConcludePower(clock, cfg, Prepare(clock, cfg, s, e.now, e.x), e.now, e.x);
    }
  }

  lemma {:induction false} PreparePower(clock: Clock, cfg: LinkConfig, s: Phy, now: int, x: Sample)
    ensures Prepare(clock, cfg, s, now, x).phy.powerdown == s.powerdown
  {
  }

  lemma {:induction false} ConcludePower(clock: Clock, cfg: LinkConfig, r: Ready, now: int, x: Sample)
    ensures Conclude(clock, cfg, r, now, x).phy.powerdown == r.phy.powerdown
  {
  }

  lemma {:induction false} PollTimeBound(start: int, es: seq<Event>)
    requires Monotone(start, es)
    ensures PollTime(start, es) <= LatestTime(start, es)
  {
    if es == [] {
    } else {
      var n := |es| - 1;
      if !PollsAt(es, n) {
        PollTimeBound(start, es[..n]);
        if Timed(es[n]) {
          LatestTimeBound(start, es, n);
        }
      }
    }
  }

  lemma {:induction false} TimesNext(start: int, es: seq<Event>, n: nat)
    requires n < |es|
    ensures LatestTime(start, es[..n + 1]) == if Timed(es[n]) then es[n].now else LatestTime(start, es[..n])
    ensures PollTime(start, es[..n + 1]) == if PollsAt(es, n) then es[n].now else PollTime(start, es[..n])
  {
    assert es[..n + 1][..n] == es[..n];
  }

  lemma {:induction false} MonotonePrefix(start: int, es: seq<Event>, n: nat)
    requires Monotone(start, es) && n <= |es|
    ensures Monotone(start, es[..n])
  {
  }
}
