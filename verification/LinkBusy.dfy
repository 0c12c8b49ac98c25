/**
 A run that uses the rate limit on PHY resets to the full: four resets before the thrash counter is
 zeroed and five after, all nine within one window. The link comes up, drops to 10 Mbit/s, and the
 PHY is reset, again and again.
 */
module LinkBusy {
  import opened LinkModel
  import opened LinkTime
  import opened LinkRuns

  // A poll that finds the link back at 10 Mbit/s after an interrupt.
  function DropPoll(now: int): Event {
    Poll(now, Sample(WORKING.(speed := Speed10), true, true, false))
  }

  const LENGTH: nat := 28

  /** Everything but the start happens at time 1, then at the end of the window of the first failure. */
  function BusyTime(cfg: LinkConfig, i: nat): int {
    if i < 3 then 0 else if i < 15 then 1 else cfg.ThrashTime()
  }

  function BusyEvent(cfg: LinkConfig, i: nat): Event {
    if i == 0 then PowerUp(true)
    else if i % 3 == 2 then DropPoll(BusyTime(cfg, i))
    else LinkPoll(BusyTime(cfg, i), false)
  }

  /** Power-up, up, drop; then nine times: reset, up, drop - without the last two. */
  function BusyRun(cfg: LinkConfig): (es: seq<Event>)
    ensures |es| == LENGTH && forall i :: 0 <= i < LENGTH ==> es[i] == BusyEvent(cfg, i)
  {
    seq(LENGTH, i requires 0 <= i < LENGTH => BusyEvent(cfg, i))
  }

  // ---- the three polls of a round -----------------------------------------------------------

  predicate Zeroes(clock: Clock, cfg: LinkConfig, s: Phy, now: int) {
    Reached(clock, now, s.thrashTime, cfg.ThrashTime())
  }

  lemma {:induction false} ResetPoll(clock: Clock, cfg: LinkConfig, s: Phy, now: int)
    requires cfg.rstOnLinkfail && s.state == Failed && !s.powerdown
    requires Zeroes(clock, cfg, s, now) || s.thrashCount < LINK_THRASH_LIMIT
    ensures
      var o, zeroed := Step(clock, cfg, s, LinkPoll(now, false)), Zeroes(clock, cfg, s, now);
      && o.phy.state == Down && !o.phy.powerdown && o.entry.reset && o.entry.zeroed == zeroed
      && o.phy.thrashCount == (if zeroed then 0 else s.thrashCount)
      && o.phy.thrashTime == (if zeroed then now else s.thrashTime)
  {
  }

  lemma {:induction false} UpPoll(clock: Clock, cfg: LinkConfig, s: Phy, now: int)
    requires cfg.rstOnLinkfail && s.state == Down && !s.powerdown && !Zeroes(clock, cfg, s, now)
    ensures
      var o := Step(clock, cfg, s, LinkPoll(now, false));
      && o.phy.state == Up && !o.phy.powerdown && !o.entry.reset && !o.entry.zeroed
      && o.phy.lastStatus == WORKING && o.phy.thrashCount == s.thrashCount && o.phy.thrashTime == s.thrashTime
  {
  }

  lemma {:induction false} DropFails(clock: Clock, cfg: LinkConfig, s: Phy, now: int)
    requires cfg.rstOnLinkfail && s.state == Up && !s.powerdown && !Zeroes(clock, cfg, s, now)
    requires s.lastStatus == WORKING
    ensures
      var o := Step(clock, cfg, s, DropPoll(now));
      && o.phy.state == Failed && !o.phy.powerdown && !o.entry.reset && !o.entry.zeroed
      && o.phy.thrashCount == s.thrashCount + 1
      && o.phy.thrashTime == (if s.thrashCount == 0 then now else s.thrashTime)
  {
  }

  // ---- the run ------------------------------------------------------------------------------

  /** Failures counted before event i, and since when. */
  function BusyCount(i: nat): nat {
    if i < 3 then 0 else if i <= 15 then i / 3 else (i - 15) / 3
  }

  function BusySince(cfg: LinkConfig, i: nat): int {
    if i <= 15 then 0 else cfg.ThrashTime()
  }

  predicate BusyAt(cfg: LinkConfig, s: Phy, i: nat) {
    && s.powerdown == (i == 0)
    && s.state == (if i <= 1 || i % 3 == 1 then Down else if i % 3 == 2 then Up else Failed)
    && (s.state == Up ==> s.lastStatus == WORKING)
    && s.thrashCount == BusyCount(i) && s.thrashTime == BusySince(cfg, i)
  }

  predicate ResetsAt(i: nat) {
    i >= 3 && i % 3 == 0
  }

  lemma {:induction false} BusyClock(clock: Clock, cfg: LinkConfig, i: nat)
    requires Measures(clock, cfg.ThrashTime()) && 1 <= i < LENGTH
    ensures Reached(clock, BusyTime(cfg, i), BusySince(cfg, i), cfg.ThrashTime()) <==> i == 15
  {
    var now, stamp := BusyTime(cfg, i), BusySince(cfg, i);
    if i == 15 {
      ReachedTruly(Unbounded, now, stamp, cfg.ThrashTime());
    } else {
      NotYetReached(clock, now, stamp, cfg.ThrashTime());
    }
  }

  lemma {:induction false} BusyStep(clock: Clock, cfg: LinkConfig, s: Phy, i: nat)
    requires cfg.rstOnLinkfail && Measures(clock, cfg.ThrashTime()) && i < LENGTH && BusyAt(cfg, s, i)
    ensures
      var o := Step(clock, cfg, s, BusyEvent(cfg, i));
      BusyAt(cfg, o.phy, i + 1) && o.entry.reset == ResetsAt(i) && o.entry.zeroed == (i == 15)
  {
    if i == 0 {
    } else {
      BusyClock(clock, cfg, i);
      if i % 3 == 0 {
        ResetPoll(clock, cfg, s, BusyTime(cfg, i));
      } else if i % 3 == 1 {
        UpPoll(clock, cfg, s, BusyTime(cfg, i));
      } else {
        DropFails(clock, cfg, s, BusyTime(cfg, i));
      }
    }
  }

  lemma {:induction false} BusyState(clock: Clock, cfg: LinkConfig, es: seq<Event>, i: nat)
    requires cfg.rstOnLinkfail && Measures(clock, cfg.ThrashTime()) && es == BusyRun(cfg) && i <= LENGTH
    ensures BusyAt(cfg, StateAt(clock, cfg, Fresh(0, 0), es, i), i)
  {
    if i == 0 {
      assert es[..i] == [];
    } else {
      BusyState(clock, cfg, es, i - 1);
      StateNext(clock, cfg, Fresh(0, 0), es, i - 1);
      BusyStep(clock, cfg, StateAt(clock, cfg, Fresh(0, 0), es, i - 1), i - 1);
    }
  }

  lemma {:induction false} BusyEntry(clock: Clock, cfg: LinkConfig, es: seq<Event>, i: nat)
    requires cfg.rstOnLinkfail && Measures(clock, cfg.ThrashTime()) && es == BusyRun(cfg) && i < LENGTH
    ensures EntryAt(clock, cfg, Fresh(0, 0), es, i).reset == ResetsAt(i)
    ensures ZeroedAt(clock, cfg, Fresh(0, 0), es, i) <==> i == 15
  {
    BusyState(clock, cfg, es, i);
    BusyStep(clock, cfg, StateAt(clock, cfg, Fresh(0, 0), es, i), i);
  }

  lemma {:induction false} BusyResets(clock: Clock, cfg: LinkConfig, es: seq<Event>, i: nat, j: nat)
    requires cfg.rstOnLinkfail && Measures(clock, cfg.ThrashTime()) && es == BusyRun(cfg)
    requires 3 <= i <= j <= LENGTH && i % 3 == 0
    ensures ResetsBetween(clock, cfg, Fresh(0, 0), es, i, j) == (j - i + 2) / 3
  {
    if i == j {
    } else {
      BusyResets(clock, cfg, es, i, j - 1);
      BusyEntry(clock, cfg, es, j - 1);
      OneInThree(i, j);
    }
  }

  lemma {:induction false} OneInThree(i: nat, j: nat)
    requires i < j && i % 3 == 0
    ensures (j - i + 2) / 3 == (j - 1 - i + 2) / 3 + if (j - 1) % 3 == 0 then 1 else 0
  {
  }

  lemma {:induction false} BusyTimes(cfg: LinkConfig)
    ensures Monotone(0, BusyRun(cfg)) && InWindow(cfg, BusyRun(cfg), 3, LENGTH, 1)
  {
  }

  lemma {:induction false} BusyEpoch(clock: Clock, cfg: LinkConfig, es: seq<Event>)
    requires cfg.rstOnLinkfail && Measures(clock, cfg.ThrashTime()) && es == BusyRun(cfg)
    ensures ZeroedAt(clock, cfg, Fresh(0, 0), es, 15)
    ensures forall k :: 15 < k < LENGTH ==> !ZeroedAt(clock, cfg, Fresh(0, 0), es, k)
  {
    forall k | 15 <= k < LENGTH ensures ZeroedAt(clock, cfg, Fresh(0, 0), es, k) <==> k == 15 {
      BusyEntry(clock, cfg, es, k);
    }
  }

  /** Both limits are attained, on either clock and on every board that resets on link failure: five
      resets from the zeroing at event 15 to the end, and nine from event 3 on, in one window. */
  lemma {:induction false} LimitsAttained(clock: Clock, cfg: LinkConfig, es: seq<Event>)
    requires cfg.rstOnLinkfail && Measures(clock, cfg.ThrashTime()) && es == BusyRun(cfg)
    ensures Monotone(0, es) && InWindow(cfg, es, 3, LENGTH, 1)
    ensures ZeroedAt(clock, cfg, Fresh(0, 0), es, 15)
    ensures forall k :: 15 < k < LENGTH ==> !ZeroedAt(clock, cfg, Fresh(0, 0), es, k)
    ensures ResetsBetween(clock, cfg, Fresh(0, 0), es, 15, LENGTH) == LINK_THRASH_LIMIT
    ensures ResetsBetween(clock, cfg, Fresh(0, 0), es, 3, LENGTH) == 2 * LINK_THRASH_LIMIT - 1
  {
    BusyTimes(cfg);
    BusyEpoch(clock, cfg, es);
    BusyResets(clock, cfg, es, 15, LENGTH);
    BusyResets(clock, cfg, es, 3, LENGTH);
  }
}
