/**
 The glitch filter. `FilterStep` is the filter the driver is meant to be: pass a status with link
 on, replace a link loss by the last good status while the loss is younger than the configured
 time, in true time. `ReportsAreFiltered` shows when the driver's reports are those of the filter,
 on either clock; the wrapping clock needs polls that come often enough.
 */
module LinkDebounce {
  import opened LinkModel
  import opened LinkTime
  import opened LinkRuns

  datatype Mode =
    | Steady(held: Status)            // link up, with this status
    | Dip(since: int, held: Status)   // link lost at `since`
    | Gone                            // no link since power-up
    | Bypass                          // the PHY was seen powered down; statuses pass until the next power-up

  datatype Filter = Filter(mode: Mode, on: bool)

  const IDLE := Filter(Gone, false)

  function FilterReport(cfg: LinkConfig, f: Filter, now: int, x: Sample): Status {
    if !f.on then NO_STATUS
    else if x.raw.link || !x.raw.powerup then x.raw
    else match f.mode
         case Steady(held) => if cfg.LinkfTime() > 0 then held else x.raw
         case Dip(since, held) => if now < since + cfg.LinkfTime() then held else x.raw
         case Gone => x.raw
         case Bypass => x.raw
  }

  function FilterStep(cfg: LinkConfig, f: Filter, e: Event): Filter {
    match e
    case Poll(now, x) =>
      if !f.on || f.mode.Bypass? then f
      else if !x.raw.powerup then f.(mode := Bypass)
      else if x.raw.link then f.(mode := Steady(x.raw))
      else if f.mode.Steady? then f.(mode := Dip(now, f.mode.held))
      else f
    case Dump(now, latchedLink) =>
      if f.mode.Steady? && !latchedLink then f.(mode := Dip(now, f.mode.held)) else f
    case PowerDown => f.(on := false)
    case PowerUp(setupOk) => Filter(if cfg.rstOnLinkfail && !setupOk then f.mode else Gone, true)
  }

  function FilterAfter(cfg: LinkConfig, f: Filter, es: seq<Event>): Filter {
    if es == [] then f else FilterStep(cfg, FilterAfter(cfg, f, es[..|es| - 1]), es[|es| - 1])
  }

  // ---- when a report differs ----------------------------------------------------------------

  const LINKLESS := NO_STATUS.(powerup := true)

  /** The poll resets the PHY, over anything but a linkless reading: a failure is pending, and fewer
      than 5 were counted or the count is 60 seconds old. */
  predicate ResetDue(clock: Clock, cfg: LinkConfig, s: Phy, now: int, x: Sample) {
    && s.state == Failed && cfg.rstOnLinkfail && x.raw != LINKLESS
    && (s.thrashCount < 5 || Reached(clock, now, s.thrashTime, 60 * cfg.hz))
  }

  /** The link jabbers, and has for a second. */
  predicate JabberDue(clock: Clock, cfg: LinkConfig, s: Phy, now: int, x: Sample) {
    && s.state != Failed && cfg.rstOnLinkfail && x.raw.link && x.jabber
    && Reached(clock, now, s.jabberTime, cfg.hz)
  }

  /** The link is back from a loss, or was lost unseen, at 10 Mbit/s where it had another speed. */
  predicate SpeedDropDue(cfg: LinkConfig, s: Phy, x: Sample) {
    && cfg.rstOnLinkfail && x.raw.link && x.raw.speed == Speed10 && s.lastStatus.speed != Speed10
    && (s.state == Lost || (s.state != PwrDown && (!x.latchedLink || x.linkIrq)))
  }

  /** What can be seen before a poll of a powered PHY that makes its report differ from the filter's. */
  predicate Masks(clock: Clock, cfg: LinkConfig, s: Phy, now: int, x: Sample) {
    ResetDue(clock, cfg, s, now, x) || JabberDue(clock, cfg, s, now, x) || SpeedDropDue(cfg, s, x)
  }

  // The same, read off the outcome.
  predicate Masked(en: Entry, x: Sample) {
    en.failure.Jabber? || en.failure.SpeedDrop? || (en.reset && x.raw != LINKLESS)
  }

  lemma {:induction false} PrepareFails(clock: Clock, cfg: LinkConfig, s: Phy, now: int, x: Sample)
    requires Measures(clock, cfg.hz)
    ensures
      var r := Prepare(clock, cfg, s, now, x);
      && (x.raw != LINKLESS ==> (r.reset <==> ResetDue(clock, cfg, s, now, x)))
      && (r.reset ==> r.raw == LINKLESS && r.phy.state == Down)
      && (!r.reset ==> r.raw == x.raw && r.phy.lastStatus == s.lastStatus)
      && (!r.reset ==> (r.phy.state == Failed <==> JabberDue(clock, cfg, s, now, x)))
      && (!r.reset && r.phy.state != Failed && x.raw.powerup ==>
            r.phy.state == if s.state == Failed then Down else s.state)
  {
    NotYetReached(clock, now, now, cfg.hz);
  }

  lemma {:induction false} ConcludeFails(clock: Clock, cfg: LinkConfig, r: Ready, now: int, x: Sample)
    requires r.phy.state != Thrashing
    ensures
      var en := Conclude(clock, cfg, r, now, x).entry;
      && en.reset == r.reset
      && (en.failure.Jabber? <==> r.phy.state == Failed)
      && (r.phy.state != Failed && r.raw == x.raw ==> (en.failure.SpeedDrop? <==> SpeedDropDue(cfg, r.phy, x)))
  {
  }

  /** Each guard is exact: what a poll ends in, told from before. */
  lemma {:induction false} MasksMeans(clock: Clock, cfg: LinkConfig, s: Phy, now: int, x: Sample)
    requires Measures(clock, cfg.hz) && Executed(cfg, s, Poll(now, x)) && s.state != Thrashing
    ensures
      var en := Step(clock, cfg, s, Poll(now, x)).entry;
      && (en.reset && x.raw != LINKLESS <==> ResetDue(clock, cfg, s, now, x))
      && (en.failure.Jabber? <==> JabberDue(clock, cfg, s, now, x))
      && (en.failure.SpeedDrop? <==>
            SpeedDropDue(cfg, s, x) && !JabberDue(clock, cfg, s, now, x) && !ResetDue(clock, cfg, s, now, x))
      && (Masked(en, x) <==> Masks(clock, cfg, s, now, x))
  {
    var r := Prepare(clock, cfg, s, now, x);
    PrepareFails(clock, cfg, s, now, x);
    if r.reset {
      ResetFails(clock, cfg, r, now, x);
    } else {
      PrepareNoThrash(clock, cfg, s, now, x);
      assert !x.raw.powerup ==> !x.raw.link;
      ConcludeFails(clock, cfg, r, now, x);
    }
  }

  lemma {:induction false} PrepareNoThrash(clock: Clock, cfg: LinkConfig, s: Phy, now: int, x: Sample)
    requires s.state != Thrashing
    ensures Prepare(clock, cfg, s, now, x).phy.state != Thrashing
  {
  }

  /** A reset reports a PHY without link. */
  lemma {:induction false} ResetFails(clock: Clock, cfg: LinkConfig, r: Ready, now: int, x: Sample)
    requires r.reset && r.phy.state == Down && r.raw == LINKLESS
    ensures
      var en := Conclude(clock, cfg, r, now, x).entry;
      en.report == r.raw && en.reset && en.failure.NoFailure?
  {
  }

  // ---- driver and filter side by side -------------------------------------------------------

  /** Driver and filter agree; `p` is the time of the latest timed event. */
  predicate Matches(cfg: LinkConfig, s: Phy, f: Filter, p: int) {
    && s.powerdown == !f.on
    && s.state != Thrashing
    && (s.state == Up ==> s.lastStatus.link && f.mode == Steady(s.lastStatus))
    && (s.state == Lost ==> s.lastStatus.link && f.mode == Dip(s.lostTime, s.lastStatus))
    && (s.state == Down || s.state == Failed ==>
          f.mode == Gone || (f.mode.Dip? && f.mode.since + cfg.LinkfTime() <= p))
    && (s.state == PwrDown ==> f.mode == Bypass)
  }

  /** The clock compares the time of a loss truthfully. */
  predicate LossInRange(clock: Clock, cfg: LinkConfig, s: Phy, now: int) {
    Measures(clock, cfg.LinkdownDelay()) && (s.state == Lost ==> InRange(clock, now, s.lostTime))
  }

  predicate Agrees(cfg: LinkConfig, f: Filter, now: int, x: Sample, o: Outcome) {
    && (o.entry.report == FilterReport(cfg, f, now, x) <==> !Masked(o.entry, x))
    && (!Masked(o.entry, x) ==> Matches(cfg, o.phy, FilterStep(cfg, f, Poll(now, x)), now))
  }

  /** Half way through a poll: the failure state is gone unless jabber was just declared. */
  predicate ReadyMatches(cfg: LinkConfig, r: Ready, f: Filter, now: int) {
    && f.on && !r.phy.powerdown
    && (r.raw.powerup || r.phy.state == PwrDown)
    && (r.phy.state == Failed ==> r.raw.link)
    && (r.phy.state == PwrDown && r.raw.powerup ==> f.mode == Bypass)
    && (r.phy.state == Failed || r.phy.state == PwrDown || Matches(cfg, r.phy, f, now))
  }

  lemma {:induction false} PrepareMatches(clock: Clock, cfg: LinkConfig, s: Phy, f: Filter, p: int, now: int, x: Sample)
    requires cfg.FixUps() && Matches(cfg, s, f, p) && p <= now && !s.powerdown
    requires LossInRange(clock, cfg, s, now)
    ensures
      var r := Prepare(clock, cfg, s, now, x);
      && (!r.reset ==> r.raw == x.raw)
      && (r.reset ==> r.raw == LINKLESS && r.phy.state == Down)
      && ReadyMatches(cfg, r, f, now) && LossInRange(clock, cfg, r.phy, now)
  {
  }

  /** The two comparisons with the time of a loss, after the link was tracked. */
  lemma {:induction false} TrackInRange(clock: Clock, cfg: LinkConfig, s: Phy, now: int, raw: Status, x: Sample)
    requires LossInRange(clock, cfg, s, now)
    ensures
      var t := TrackLink(s, now, raw, x);
      t.state == Lost ==>
        && (Reached(clock, now, t.lostTime, cfg.LinkfTime()) <==> t.lostTime + cfg.LinkfTime() <= now)
        && (Reached(clock, now, t.lostTime, cfg.LinkdownDelay()) <==> t.lostTime + cfg.LinkdownDelay() <= now)
  {
    var t := TrackLink(s, now, raw, x);
    if t.state == Lost {
      ReachedTruly(clock, now, t.lostTime, cfg.LinkfTime());
      ReachedTruly(clock, now, t.lostTime, cfg.LinkdownDelay());
    }
  }

  lemma {:induction false} ConcludeMatches(clock: Clock, cfg: LinkConfig, r: Ready, f: Filter, now: int, x: Sample)
    requires cfg.FixUps() && ReadyMatches(cfg, r, f, now) && r.raw == x.raw && LossInRange(clock, cfg, r.phy, now)
    ensures
      var o := Conclude(clock, cfg, r, now, x);
      && o.entry.reset == r.reset
      && ((r.reset && x.raw != LINKLESS) || Agrees(cfg, f, now, x, o))
  {
    TrackInRange(clock, cfg, r.phy, now, r.raw, x);
  }

  lemma {:induction false} PollMatches(clock: Clock, cfg: LinkConfig, s: Phy, f: Filter, p: int, now: int, x: Sample)
    requires cfg.FixUps() && Matches(cfg, s, f, p) && p <= now && LossInRange(clock, cfg, s, now)
    ensures Agrees(cfg, f, now, x, Step(clock, cfg, s, Poll(now, x)))
  {
    if !s.powerdown {
      PrepareMatches(clock, cfg, s, f, p, now, x);
      var r := Prepare(clock, cfg, s, now, x);
      if r.reset && x.raw != r.raw {
        ResetFails(clock, cfg, r, now, x);
      } else {
        ConcludeMatches(clock, cfg, r, f, now, x);
      }
    }
  }

  lemma {:induction false} QuietMatches(clock: Clock, cfg: LinkConfig, s: Phy, f: Filter, p: int, e: Event)
    requires cfg.FixUps() && Matches(cfg, s, f, p) && !e.Poll? && (Timed(e) ==> p <= e.now)
    ensures Matches(cfg, Step(clock, cfg, s, e).phy, FilterStep(cfg, f, e), if Timed(e) then e.now else p)
  {
  }

  // ---- how old a loss gets ------------------------------------------------------------------

  /** The board's delays and the gap between polls fit the clock. */
  predicate ClockFits(clock: Clock, cfg: LinkConfig, g: nat) {
    clock.Wrapped32? ==> g + cfg.LinkdownDelay() < HALF && cfg.hz <= HALF
  }

  /** Time runs forward; where it wraps, polls are at most g ticks apart. */
  predicate Orderly(clock: Clock, start: int, es: seq<Event>, g: nat) {
    Monotone(start, es) && (clock.Wrapped32? ==> Paced(start, es, g))
  }

  /** A loss began at some event, and was younger than the longest delay at the last poll. */
  predicate LossYoung(clock: Clock, cfg: LinkConfig, s: Phy, p: int, q: int) {
    s.state == Lost ==> s.lostTime <= q && (clock.Wrapped32? ==> p - s.lostTime <= cfg.LinkdownDelay())
  }

  lemma {:induction false} PrepareLoss(clock: Clock, cfg: LinkConfig, s: Phy, now: int, x: Sample)
    ensures
      var r := Prepare(clock, cfg, s, now, x);
      r.phy.lostTime == s.lostTime && (r.phy.state == Lost ==> s.state == Lost)
  {
  }

  lemma {:induction false} ConcludeLoss(clock: Clock, cfg: LinkConfig, r: Ready, now: int, x: Sample)
    requires LossInRange(clock, cfg, r.phy, now) && (r.phy.state == Lost ==> r.phy.lostTime <= now)
    ensures
      var s := Conclude(clock, cfg, r, now, x).phy;
      s.state == Lost ==> s.lostTime <= now && now - s.lostTime <= cfg.LinkdownDelay()
  {
    TrackInRange(clock, cfg, r.phy, now, r.raw, x);
  }

  lemma {:induction false} PollLoss(clock: Clock, cfg: LinkConfig, s: Phy, now: int, x: Sample)
    requires Executed(cfg, s, Poll(now, x))
    requires LossInRange(clock, cfg, s, now) && (s.state == Lost ==> s.lostTime <= now)
    ensures LossYoung(clock, cfg, Step(clock, cfg, s, Poll(now, x)).phy, now, now)
  {
    PrepareLoss(clock, cfg, s, now, x);
    ConcludeLoss(clock, cfg, Prepare(clock, cfg, s, now, x), now, x);
  }

  lemma {:induction false} QuietLoss(clock: Clock, cfg: LinkConfig, s: Phy, e: Event, p: int, q: int)
    requires cfg.FixUps() && !Executed(cfg, s, e) && LossYoung(clock, cfg, s, p, q)
    requires p <= q && (Timed(e) ==> q <= e.now)
    ensures LossYoung(clock, cfg, Step(clock, cfg, s, e).phy, p, if Timed(e) then e.now else q)
  {
  }

  /** At every poll the clock tells the age of a loss. */
  lemma {:induction false} LossesInRange(clock: Clock, cfg: LinkConfig, t0: int, j0: int, es: seq<Event>, g: nat,
      n: nat)
    requires cfg.FixUps() && ClockFits(clock, cfg, g) && Orderly(clock, t0, es, g) && n <= |es|
    ensures LossYoung(clock, cfg, StateAt(clock, cfg, Fresh(t0, j0), es, n),
                      PollTime(t0, es[..n]), LatestTime(t0, es[..n]))
    ensures n < |es| && PollsAt(es, n) ==> LossInRange(clock, cfg, StateAt(clock, cfg, Fresh(t0, j0), es, n), es[n].now)
    ensures n < |es| && PollsAt(es, n) && StateAt(clock, cfg, Fresh(t0, j0), es, n).state == Lost ==>
              StateAt(clock, cfg, Fresh(t0, j0), es, n).lostTime <= es[n].now
  {
    if n == 0 {
    } else {
      LossesInRange(clock, cfg, t0, j0, es, g, n - 1);
      LossGoesOn(clock, cfg, t0, j0, es, g, n - 1);
    }
    if n < |es| && PollsAt(es, n) {
      LatestTimeBound(t0, es, n);
    }
  }

  lemma {:induction false} LossGoesOn(clock: Clock, cfg: LinkConfig, t0: int, j0: int, es: seq<Event>, g: nat, n: nat)
    requires cfg.FixUps() && ClockFits(clock, cfg, g) && Orderly(clock, t0, es, g) && n < |es|
    requires
      var s := StateAt(clock, cfg, Fresh(t0, j0), es, n);
      && LossYoung(clock, cfg, s, PollTime(t0, es[..n]), LatestTime(t0, es[..n]))
      && (PollsAt(es, n) ==> LossInRange(clock, cfg, s, es[n].now) && (s.state == Lost ==> s.lostTime <= es[n].now))
    ensures LossYoung(clock, cfg, StateAt(clock, cfg, Fresh(t0, j0), es, n + 1),
                      PollTime(t0, es[..n + 1]), LatestTime(t0, es[..n + 1]))
  {
    var s := StateAt(clock, cfg, Fresh(t0, j0), es, n);
    StateNext(clock, cfg, Fresh(t0, j0), es, n);
    PoweredMeans(clock, cfg, t0, j0, es[..n]);
    TimesNext(t0, es, n);
    if PollsAt(es, n) {
      PollLoss(clock, cfg, s, es[n].now, es[n].x);
    } else {
      if Timed(es[n]) {
        LatestTimeBound(t0, es, n);
      }
      MonotonePrefix(t0, es, n);
      PollTimeBound(t0, es[..n]);
      QuietLoss(clock, cfg, s, es[n], PollTime(t0, es[..n]), LatestTime(t0, es[..n]));
    }
  }

  // ---- reports over whole runs --------------------------------------------------------------

  /** Poll i is executed and makes the report differ. */
  predicate MasksAt(clock: Clock, cfg: LinkConfig, t0: int, j0: int, es: seq<Event>, i: nat)
    requires i < |es|
  {
    PollsAt(es, i) && Masks(clock, cfg, StateAt(clock, cfg, Fresh(t0, j0), es, i), es[i].now, es[i].x)
  }

  predicate FilteredAt(clock: Clock, cfg: LinkConfig, t0: int, j0: int, es: seq<Event>, i: nat)
    requires i < |es|
  {
    es[i].Poll? ==>
      EntryAt(clock, cfg, Fresh(t0, j0), es, i).report ==
      FilterReport(cfg, FilterAfter(cfg, IDLE, es[..i]), es[i].now, es[i].x)
  }

  /** Driver and filter agree after n events. */
  predicate MatchesAt(clock: Clock, cfg: LinkConfig, t0: int, j0: int, es: seq<Event>, n: nat)
    requires n <= |es|
  {
    Matches(cfg, StateAt(clock, cfg, Fresh(t0, j0), es, n), FilterAfter(cfg, IDLE, es[..n]), LatestTime(t0, es[..n]))
  }

  lemma {:induction false} EventMatches(clock: Clock, cfg: LinkConfig, t0: int, j0: int, es: seq<Event>, g: nat, n: nat)
    requires cfg.FixUps() && ClockFits(clock, cfg, g) && Orderly(clock, t0, es, g) && n < |es|
    requires MatchesAt(clock, cfg, t0, j0, es, n)
    ensures FilteredAt(clock, cfg, t0, j0, es, n) <==> !MasksAt(clock, cfg, t0, j0, es, n)
    ensures !MasksAt(clock, cfg, t0, j0, es, n) ==> MatchesAt(clock, cfg, t0, j0, es, n + 1)
  {
    var s, f, p := StateAt(clock, cfg, Fresh(t0, j0), es, n), FilterAfter(cfg, IDLE, es[..n]), LatestTime(t0, es[..n]);
    StateNext(clock, cfg, Fresh(t0, j0), es, n);
    FilterNext(cfg, es, n);
    TimesNext(t0, es, n);
    PoweredMeans(clock, cfg, t0, j0, es[..n]);
    if Timed(es[n]) {
      LatestTimeBound(t0, es, n);
    }
    if PollsAt(es, n) {
      LossesInRange(clock, cfg, t0, j0, es, g, n);
      PollMatches(clock, cfg, s, f, p, es[n].now, es[n].x);
      MasksMeans(clock, cfg, s, es[n].now, es[n].x);
    } else if es[n].Poll? {
      SkippedMatches(clock, cfg, s, f, p, es[n].now, es[n].x);
    } else {
      QuietMatches(clock, cfg, s, f, p, es[n]);
    }
  }

  lemma {:induction false} FilterNext(cfg: LinkConfig, es: seq<Event>, n: nat)
    requires n < |es|
    ensures FilterAfter(cfg, IDLE, es[..n + 1]) == FilterStep(cfg, FilterAfter(cfg, IDLE, es[..n]), es[n])
  {
    assert es[..n + 1][..n] == es[..n];
  }

  lemma {:induction false} SkippedMatches(clock: Clock, cfg: LinkConfig, s: Phy, f: Filter, p: int, now: int, x: Sample)
    requires s.powerdown && Matches(cfg, s, f, p) && p <= now
    ensures Step(clock, cfg, s, Poll(now, x)).entry.report == FilterReport(cfg, f, now, x)
    ensures Matches(cfg, Step(clock, cfg, s, Poll(now, x)).phy, FilterStep(cfg, f, Poll(now, x)), now)
  {
  }

  /** Up to event n nothing was masked, so driver and filter still agree. */
  lemma {:induction false} MatchesUpTo(clock: Clock, cfg: LinkConfig, t0: int, j0: int, es: seq<Event>, g: nat, n: nat)
    requires cfg.FixUps() && ClockFits(clock, cfg, g) && Orderly(clock, t0, es, g) && n <= |es|
    requires forall i :: 0 <= i < n ==> !MasksAt(clock, cfg, t0, j0, es, i)
    ensures MatchesAt(clock, cfg, t0, j0, es, n)
  {
    if n == 0 {
    } else {
      MatchesUpTo(clock, cfg, t0, j0, es, g, n - 1);
      EventMatches(clock, cfg, t0, j0, es, g, n - 1);
    }
  }

  /** With fix-ups configured, the reports of a run are the filter's if and only if no poll masks a
      working link - by a reset, by jabber, or by a drop to 10 Mbit/s, each a fact about the state
      before the poll and what it reads. */
  lemma {:induction false} ReportsAreFiltered(clock: Clock, cfg: LinkConfig, t0: int, j0: int, es: seq<Event>, g: nat)
    requires cfg.FixUps() && ClockFits(clock, cfg, g) && Orderly(clock, t0, es, g)
    ensures (forall i :: 0 <= i < |es| ==> FilteredAt(clock, cfg, t0, j0, es, i)) <==>
            (forall i :: 0 <= i < |es| ==> !MasksAt(clock, cfg, t0, j0, es, i))
  {
    var masks := (i: nat) => i < |es| && MasksAt(clock, cfg, t0, j0, es, i);
    var n := First(masks, 0, |es|);
    forall i | 0 <= i < n ensures !MasksAt(clock, cfg, t0, j0, es, i) {
      assert !masks(i);
    }
    if n < |es| {
      MatchesUpTo(clock, cfg, t0, j0, es, g, n);
      EventMatches(clock, cfg, t0, j0, es, g, n);
      assert !FilteredAt(clock, cfg, t0, j0, es, n);
    } else {
      forall i | 0 <= i < |es| ensures FilteredAt(clock, cfg, t0, j0, es, i) {
        MatchesUpTo(clock, cfg, t0, j0, es, g, i);
        EventMatches(clock, cfg, t0, j0, es, g, i);
      }
    }
  }

  /** A board gets the plain filter in every run if and only if it does not reset on link failure. */
  lemma {:induction false} BoardFilters(clock: Clock, cfg: LinkConfig, g: nat)
    requires cfg.FixUps() && ClockFits(clock, cfg, g) && (clock.Wrapped32? ==> cfg.hz <= g)
    ensures !cfg.rstOnLinkfail <==>
            forall t0, j0, es, i: nat :: Orderly(clock, t0, es, g) && i < |es| ==> FilteredAt(clock, cfg, t0, j0, es, i)
  {
    if cfg.rstOnLinkfail {
      var es := JabberRun(cfg.hz);
      JabberIsReported(clock, cfg, g);
      assert Orderly(clock, 0, es, g) && !FilteredAt(clock, cfg, 0, 0, es, |es| - 1);
    } else {
      forall t0, j0, es, i: nat | Orderly(clock, t0, es, g) && i < |es| ensures FilteredAt(clock, cfg, t0, j0, es, i) {
        DelayOnlyBoardsFilter(clock, cfg, t0, j0, es, g, i);
      }
    }
  }

  /** Boards that only delay link-down reports, without resetting the PHY, get the plain filter. */
  lemma {:induction false} DelayOnlyBoardsFilter(clock: Clock, cfg: LinkConfig, t0: int, j0: int, es: seq<Event>,
      g: nat, i: nat)
    requires cfg.linkfailTime && !cfg.rstOnLinkfail && ClockFits(clock, cfg, g) && Orderly(clock, t0, es, g) && i < |es|
    ensures FilteredAt(clock, cfg, t0, j0, es, i)
  {
    assert forall k :: 0 <= k < |es| ==> !MasksAt(clock, cfg, t0, j0, es, k);
    ReportsAreFiltered(clock, cfg, t0, j0, es, g);
  }

  /** The run of a link that jabbers: up, then jabbering a second later. */
  function JabberRun(hz: pos): seq<Event> {
    [PowerUp(true), LinkPoll(0, false), LinkPoll(hz, true)]
  }

  predicate EndsUnfiltered(clock: Clock, cfg: LinkConfig, es: seq<Event>) {
    es != [] && !FilteredAt(clock, cfg, 0, 0, es, |es| - 1)
  }

  /** On every board that resets on link failure the last poll of that run reports a working link as
      down, which the filter would not. */
  lemma {:induction false} JabberIsReported(clock: Clock, cfg: LinkConfig, g: nat)
    requires cfg.rstOnLinkfail && (clock.Wrapped32? ==> cfg.hz <= g)
    ensures Orderly(clock, 0, JabberRun(cfg.hz), g) && EndsUnfiltered(clock, cfg, JabberRun(cfg.hz))
  {
    var es := JabberRun(cfg.hz);
    JabberShows(clock, cfg, es, 0);
    if clock.Wrapped32? {
      JabberRunPaced(cfg.hz, g, es);
    }
  }

  lemma {:induction false} JabberShows(clock: Clock, cfg: LinkConfig, es: seq<Event>, i: nat)
    requires cfg.rstOnLinkfail && Begins(cfg, es, i) && |es| == i + 3
    ensures EndsUnfiltered(clock, cfg, es)
  {
    LinkJabbers(clock, cfg, Fresh(0, 0), es, i);
    FilterNext(cfg, es, i);
    FilterNext(cfg, es, i + 1);
    DownOverUp(clock, cfg, 0, 0, es, i + 2);
  }

  lemma {:induction false} DownOverUp(clock: Clock, cfg: LinkConfig, t0: int, j0: int, es: seq<Event>, n: nat)
    requires n < |es| && es[n].Poll? && es[n].x.raw.link && FilterAfter(cfg, IDLE, es[..n]).on
    requires !EntryAt(clock, cfg, Fresh(t0, j0), es, n).report.link
    ensures !FilteredAt(clock, cfg, t0, j0, es, n)
  {
  }

  lemma {:induction false} JabberRunPaced(hz: pos, g: nat, es: seq<Event>)
    requires es == JabberRun(hz) && hz <= g
    ensures Paced(0, es, g)
  {
    assert es[..0] == [];
    TimesNext(0, es, 0);
    TimesNext(0, es, 1);
  }

  // ---- when a lost link fails ---------------------------------------------------------------

  /** A lost link may be given up at that age: after the time for which losses are hidden, and on boards
      that reset on link failure not before 5 seconds. */
  predicate LongEnough(cfg: LinkConfig, age: int) {
    && (if cfg.linkfailTime then cfg.lnkfTime else cfg.hz) <= age
    && (cfg.rstOnLinkfail ==> 5 * cfg.hz <= age)
  }

  /** The poll reads a powered PHY without link, whose loss is old enough. */
  predicate GivesUp(cfg: LinkConfig, s: Phy, now: int, x: Sample) {
    && x.raw.powerup && !x.raw.link
    && ((s.state == Lost && LongEnough(cfg, now - s.lostTime)) || (s.state == Up && LongEnough(cfg, 0)))
  }

  lemma {:induction false} PrepareGivesUp(clock: Clock, cfg: LinkConfig, s: Phy, now: int, x: Sample)
    requires s.state != Thrashing && LossInRange(clock, cfg, s, now)
    ensures
      var r := Prepare(clock, cfg, s, now, x);
      && LossInRange(clock, cfg, r.phy, now) && r.phy.lostTime == s.lostTime && (r.phy.state == Failed ==> r.raw.link)
      && (!x.raw.link ==> !r.raw.link)
      && (r.phy.state == Lost <==> s.state == Lost && x.raw.powerup && r.phy.state != Failed)
      && (r.phy.state == Up <==> s.state == Up && x.raw.powerup && r.phy.state != Failed)
      && (r.raw.link <==> !r.reset && x.raw.link)
  {
  }

  lemma {:induction false} ConcludeGivesUp(clock: Clock, cfg: LinkConfig, r: Ready, now: int, x: Sample)
    requires LossInRange(clock, cfg, r.phy, now) && (r.phy.state == Failed ==> r.raw.link)
    ensures Conclude(clock, cfg, r, now, x).entry.failure.DownTooLong? <==>
            !r.raw.link && ((r.phy.state == Lost && LongEnough(cfg, now - r.phy.lostTime)) ||
                            (r.phy.state == Up && LongEnough(cfg, 0)))
  {
    TrackInRange(clock, cfg, r.phy, now, r.raw, x);
  }

  lemma {:induction false} PollGivesUp(clock: Clock, cfg: LinkConfig, s: Phy, now: int, x: Sample)
    requires Executed(cfg, s, Poll(now, x)) && s.state != Thrashing && LossInRange(clock, cfg, s, now)
    ensures Step(clock, cfg, s, Poll(now, x)).entry.failure.DownTooLong? <==> GivesUp(cfg, s, now, x)
  {
    PrepareGivesUp(clock, cfg, s, now, x);
    ConcludeGivesUp(clock, cfg, Prepare(clock, cfg, s, now, x), now, x);
  }

  /** The loss that is under watch at event i began at event m, at which the link was up last. */
  predicate WatchedSince(clock: Clock, cfg: LinkConfig, t0: int, j0: int, es: seq<Event>, m: nat, i: nat)
    requires m <= i < |es|
  {
    && Timed(es[m]) && StateAt(clock, cfg, Fresh(t0, j0), es, m).state == Up
    && forall k :: m < k <= i ==> StateAt(clock, cfg, Fresh(t0, j0), es, k).state == Lost
  }

  /** A loss begins out of the state UP. */
  lemma {:induction false} LossFromUp(clock: Clock, cfg: LinkConfig, s: Phy, e: Event)
    requires Step(clock, cfg, s, e).phy.state == Lost
    ensures s.state == Lost ==> Step(clock, cfg, s, e).phy.lostTime == s.lostTime
    ensures s.state != Lost ==> s.state == Up && Timed(e) && Step(clock, cfg, s, e).phy.lostTime == e.now
  {
    if e.Poll? && !s.powerdown && cfg.FixUps() {
      var r := Prepare(clock, cfg, s, e.now, e.x);
      PrepareLoss(clock, cfg, s, e.now, e.x);
      PrepareUp(clock, cfg, s, e.now, e.x);
      ConcludeFromUp(clock, cfg, r, e.now, e.x);
    }
  }

  lemma {:induction false} PrepareUp(clock: Clock, cfg: LinkConfig, s: Phy, now: int, x: Sample)
    ensures Prepare(clock, cfg, s, now, x).phy.state == Up ==> s.state == Up
  {
  }

  lemma {:induction false} ConcludeFromUp(clock: Clock, cfg: LinkConfig, r: Ready, now: int, x: Sample)
    requires Conclude(clock, cfg, r, now, x).phy.state == Lost
    ensures
      var s := Conclude(clock, cfg, r, now, x).phy;
      (r.phy.state == Lost && s.lostTime == r.phy.lostTime) || (r.phy.state == Up && s.lostTime == now)
  {
  }

  lemma {:induction false} WatchTime(clock: Clock, cfg: LinkConfig, t0: int, j0: int, es: seq<Event>, m: nat, i: nat)
    requires m < i < |es| && WatchedSince(clock, cfg, t0, j0, es, m, i)
    ensures StateAt(clock, cfg, Fresh(t0, j0), es, i).lostTime == es[m].now
  {
    StateNext(clock, cfg, Fresh(t0, j0), es, i - 1);
    LossFromUp(clock, cfg, StateAt(clock, cfg, Fresh(t0, j0), es, i - 1), es[i - 1]);
    if m + 1 == i {
    } else {
      WatchTime(clock, cfg, t0, j0, es, m, i - 1);
    }
  }

  lemma {:induction false} WatchExists(clock: Clock, cfg: LinkConfig, t0: int, j0: int, es: seq<Event>, i: nat)
    requires i < |es| && StateAt(clock, cfg, Fresh(t0, j0), es, i).state == Lost
    ensures exists m :: 0 <= m < i && WatchedSince(clock, cfg, t0, j0, es, m, i)
  {
    if i == 0 {
    } else {
      var s := StateAt(clock, cfg, Fresh(t0, j0), es, i - 1);
      StateNext(clock, cfg, Fresh(t0, j0), es, i - 1);
      LossFromUp(clock, cfg, s, es[i - 1]);
      if s.state == Lost {
        WatchExists(clock, cfg, t0, j0, es, i - 1);
        var m :| 0 <= m < i - 1 && WatchedSince(clock, cfg, t0, j0, es, m, i - 1);
        assert WatchedSince(clock, cfg, t0, j0, es, m, i);
      } else {
        assert WatchedSince(clock, cfg, t0, j0, es, i - 1, i);
      }
    }
  }

  /** Event i gives up a loss under watch, once it is old enough. */
  predicate GivesUpSince(clock: Clock, cfg: LinkConfig, t0: int, j0: int, es: seq<Event>, m: nat, i: nat)
    requires m <= i < |es| && Timed(es[i])
  {
    WatchedSince(clock, cfg, t0, j0, es, m, i) && LongEnough(cfg, es[i].now - es[m].now)
  }

  predicate GivesUpAt(clock: Clock, cfg: LinkConfig, t0: int, j0: int, es: seq<Event>, i: nat)
    requires i < |es| && es[i].Poll?
  {
    && es[i].x.raw.powerup && !es[i].x.raw.link
    && exists m :: 0 <= m <= i && GivesUpSince(clock, cfg, t0, j0, es, m, i)
  }

  /** A poll fails the link for being down exactly if it reads a powered PHY without link, and the loss
      under watch began long enough ago - the time for which losses are hidden, and on boards that reset
      on link failure 5 seconds. */
  lemma {:induction false} DownFailure(clock: Clock, cfg: LinkConfig, t0: int, j0: int, es: seq<Event>, g: nat,
      i: nat)
    requires cfg.FixUps() && ClockFits(clock, cfg, g) && Orderly(clock, t0, es, g) && i < |es| && PollsAt(es, i)
    ensures EntryAt(clock, cfg, Fresh(t0, j0), es, i).failure.DownTooLong? <==> GivesUpAt(clock, cfg, t0, j0, es, i)
  {
    var s := StateAt(clock, cfg, Fresh(t0, j0), es, i);
    PoweredMeans(clock, cfg, t0, j0, es[..i]);
    InvariantHolds(clock, cfg, t0, j0, es[..i]);
    LossesInRange(clock, cfg, t0, j0, es, g, i);
    PollGivesUp(clock, cfg, s, es[i].now, es[i].x);
    WatchesAt(clock, cfg, t0, j0, es, i);
  }

  lemma {:induction false} WatchesAt(clock: Clock, cfg: LinkConfig, t0: int, j0: int, es: seq<Event>, i: nat)
    requires i < |es| && es[i].Poll?
    ensures
      var s := StateAt(clock, cfg, Fresh(t0, j0), es, i);
      (exists m :: 0 <= m <= i && GivesUpSince(clock, cfg, t0, j0, es, m, i)) <==>
      (s.state == Lost && LongEnough(cfg, es[i].now - s.lostTime)) || (s.state == Up && LongEnough(cfg, 0))
  {
    var s := StateAt(clock, cfg, Fresh(t0, j0), es, i);
    if m :| 0 <= m <= i && GivesUpSince(clock, cfg, t0, j0, es, m, i) {
      if m < i {
        WatchTime(clock, cfg, t0, j0, es, m, i);
      }
    }
    if s.state == Lost {
      WatchExists(clock, cfg, t0, j0, es, i);
      var m :| 0 <= m < i && WatchedSince(clock, cfg, t0, j0, es, m, i);
      WatchTime(clock, cfg, t0, j0, es, m, i);
      assert LongEnough(cfg, es[i].now - s.lostTime) ==> GivesUpSince(clock, cfg, t0, j0, es, m, i);
    } else if s.state == Up {
      assert WatchedSince(clock, cfg, t0, j0, es, i, i);
      assert LongEnough(cfg, 0) ==> GivesUpSince(clock, cfg, t0, j0, es, i, i);
    }
  }

  // ---- what the filter means in terms of the run --------------------------------------------

  /** The event shows the link gone: a linkless reading, or a latched link loss in a dump. */
  predicate ShowsLoss(e: Event) {
    (e.Poll? && !e.x.raw.link) || (e.Dump? && !e.latchedLink)
  }

  /** Event m is where the loss began that the driver is still waiting out after i events. */
  predicate LossBegan(clock: Clock, cfg: LinkConfig, t0: int, j0: int, es: seq<Event>, m: nat, i: nat)
    requires m < i <= |es|
  {
    && ShowsLoss(es[m])
    && (forall k :: m < k <= i ==> StateAt(clock, cfg, Fresh(t0, j0), es, k).state == Lost)
    && StateAt(clock, cfg, Fresh(t0, j0), es, i).lostTime == es[m].now
  }

  lemma {:induction false} ConcludeLost(clock: Clock, cfg: LinkConfig, r: Ready, now: int, x: Sample)
    ensures
      var s := Conclude(clock, cfg, r, now, x).phy;
      s.state == Lost ==>
        && !r.raw.link && s.lastStatus == r.phy.lastStatus
        && (s.lostTime == now || (r.phy.state == Lost && s.lostTime == r.phy.lostTime))
  {
  }

  lemma {:induction false} PrepareLost(clock: Clock, cfg: LinkConfig, s: Phy, now: int, x: Sample)
    ensures
      var r := Prepare(clock, cfg, s, now, x);
      && (r.reset ==> r.phy.state == Down)
      && (!r.reset ==> r.raw == x.raw && r.phy.lastStatus == s.lastStatus)
  {
  }

  /** A state of loss began with this event or goes on, and keeps the last good status either way. */
  lemma {:induction false} LostStep(clock: Clock, cfg: LinkConfig, s: Phy, e: Event)
    ensures
      var s' := Step(clock, cfg, s, e).phy;
      s'.state == Lost ==>
        && ((ShowsLoss(e) && s'.lostTime == e.now) || (s.state == Lost && s'.lostTime == s.lostTime))
        && s'.lastStatus == s.lastStatus
  {
    if e.Poll? {
      var r := Prepare(clock, cfg, s, e.now, e.x);
      PrepareLoss(clock, cfg, s, e.now, e.x);
      PrepareLost(clock, cfg, s, e.now, e.x);
      ConcludeLost(clock, cfg, r, e.now, e.x);
      if r.reset {
        NoLossAfterReset(clock, cfg, r, e.now, e.x);
      }
    }
  }

  lemma {:induction false} NoLossAfterReset(clock: Clock, cfg: LinkConfig, r: Ready, now: int, x: Sample)
    requires r.phy.state == Down && !r.raw.link
    ensures Conclude(clock, cfg, r, now, x).phy.state == Down
  {
  }

  lemma {:induction false} LossWitness(clock: Clock, cfg: LinkConfig, t0: int, j0: int, es: seq<Event>,
      i: nat) returns (m: nat)
    requires i <= |es| && StateAt(clock, cfg, Fresh(t0, j0), es, i).state == Lost
    ensures m < i && LossBegan(clock, cfg, t0, j0, es, m, i)
  {
    m := i - 1;
    StateNext(clock, cfg, Fresh(t0, j0), es, m);
    LostStep(clock, cfg, StateAt(clock, cfg, Fresh(t0, j0), es, m), es[m]);
    if !(ShowsLoss(es[m]) && StateAt(clock, cfg, Fresh(t0, j0), es, i).lostTime == es[m].now) {
      m := LossWitness(clock, cfg, t0, j0, es, i - 1);
    }
  }

  lemma {:induction false} HeldSinceLoss(clock: Clock, cfg: LinkConfig, t0: int, j0: int, es: seq<Event>, m: nat,
      i: nat)
    requires m < i <= |es|
    requires forall k :: m < k <= i ==> StateAt(clock, cfg, Fresh(t0, j0), es, k).state == Lost
    ensures StateAt(clock, cfg, Fresh(t0, j0), es, i).lastStatus == StateAt(clock, cfg, Fresh(t0, j0), es, m).lastStatus
  {
    StateNext(clock, cfg, Fresh(t0, j0), es, i - 1);
    LostStep(clock, cfg, StateAt(clock, cfg, Fresh(t0, j0), es, i - 1), es[i - 1]);
    if m + 1 == i {
    } else {
      HeldSinceLoss(clock, cfg, t0, j0, es, m, i - 1);
    }
  }

  lemma {:induction false} ConcludeUpOverDown(clock: Clock, cfg: LinkConfig, r: Ready, now: int, x: Sample)
    requires LossInRange(clock, cfg, r.phy, now) && !r.raw.link && r.phy.state != Failed
    ensures
      var o := Conclude(clock, cfg, r, now, x);
      o.entry.report.link ==>
        o.phy.state == Lost && now < o.phy.lostTime + cfg.LinkfTime() && o.entry.report == o.phy.lastStatus
  {
    TrackInRange(clock, cfg, r.phy, now, r.raw, x);
  }

  lemma {:induction false} UpOverDown(clock: Clock, cfg: LinkConfig, s: Phy, now: int, x: Sample)
    requires Executed(cfg, s, Poll(now, x)) && !x.raw.link && LossInRange(clock, cfg, s, now)
    ensures
      var o := Step(clock, cfg, s, Poll(now, x));
      o.entry.report.link ==>
        o.phy.state == Lost && now < o.phy.lostTime + cfg.LinkfTime() && o.entry.report == o.phy.lastStatus
  {
    PrepareLinkless(clock, cfg, s, now, x);
    ConcludeUpOverDown(clock, cfg, Prepare(clock, cfg, s, now, x), now, x);
  }

  lemma {:induction false} PrepareLinkless(clock: Clock, cfg: LinkConfig, s: Phy, now: int, x: Sample)
    requires !x.raw.link && LossInRange(clock, cfg, s, now)
    ensures
      var r := Prepare(clock, cfg, s, now, x);
      !r.raw.link && r.phy.state != Failed && LossInRange(clock, cfg, r.phy, now)
  {
  }

  /** Link up is reported over a reading without link only while the loss is younger than
      linkf_time, and the status reported is the last good one. Holds on every board. */
  lemma {:induction false} StalenessIsBounded(clock: Clock, cfg: LinkConfig, t0: int, j0: int, es: seq<Event>,
      g: nat, i: nat)
    returns (m: nat)
    requires cfg.FixUps() && ClockFits(clock, cfg, g) && Orderly(clock, t0, es, g)
    requires i < |es| && PollsAt(es, i)
    requires EntryAt(clock, cfg, Fresh(t0, j0), es, i).report.link && !es[i].x.raw.link
    ensures m <= i && LossBegan(clock, cfg, t0, j0, es, m, i + 1)
    ensures es[i].now < es[m].now + cfg.LinkfTime()
    ensures EntryAt(clock, cfg, Fresh(t0, j0), es, i).report == StateAt(clock, cfg, Fresh(t0, j0), es, m).lastStatus
  {
    PoweredMeans(clock, cfg, t0, j0, es[..i]);
    LossesInRange(clock, cfg, t0, j0, es, g, i);
    UpOverDown(clock, cfg, StateAt(clock, cfg, Fresh(t0, j0), es, i), es[i].now, es[i].x);
    StateNext(clock, cfg, Fresh(t0, j0), es, i);
    m := LossWitness(clock, cfg, t0, j0, es, i + 1);
    HeldSinceLoss(clock, cfg, t0, j0, es, m, i + 1);
  }

  // ---- short losses -------------------------------------------------------------------------

  /** A poll or dump inside the window that starts at w and lasts linkf_time; a poll reads the PHY as
      powered, and neither jabber nor a drop to 10 Mbit/s is due. */
  predicate Undisturbed(clock: Clock, cfg: LinkConfig, t0: int, j0: int, es: seq<Event>, k: nat, w: int)
    requires k < |es|
  {
    var s := StateAt(clock, cfg, Fresh(t0, j0), es, k);
    Timed(es[k]) && w <= es[k].now < w + cfg.LinkfTime() &&
    (es[k].Poll? ==>
       es[k].x.raw.powerup && !JabberDue(clock, cfg, s, es[k].now, es[k].x) && !SpeedDropDue(cfg, s, es[k].x))
  }

  predicate Waiting(s: Phy, since: int, now: int) {
    !s.powerdown && (s.state == Up || (s.state == Lost && since <= s.lostTime <= now))
  }

  lemma {:induction false} PrepareRidesOut(clock: Clock, cfg: LinkConfig, s: Phy, now: int, x: Sample, w: int)
    requires Waiting(s, w, now) && x.raw.powerup && !JabberDue(clock, cfg, s, now, x)
    ensures
      var r := Prepare(clock, cfg, s, now, x);
      && !r.reset && r.raw == x.raw && r.phy.lastStatus == s.lastStatus && r.phy.powerdown == s.powerdown
      && r.phy.state == s.state && r.phy.lostTime == s.lostTime
  {
  }

  lemma {:induction false} ConcludeRidesOut(clock: Clock, cfg: LinkConfig, r: Ready, now: int, x: Sample, w: int)
    requires Waiting(r.phy, w, now) && r.phy.lastStatus.link && w <= now < w + cfg.LinkfTime()
    requires Measures(clock, cfg.LinkdownDelay()) && r.raw == x.raw && !SpeedDropDue(cfg, r.phy, x)
    ensures Waiting(Conclude(clock, cfg, r, now, x).phy, w, now)
    ensures Conclude(clock, cfg, r, now, x).entry.report.link
  {
    var t := TrackLink(r.phy, now, r.raw, x);
    if t.state == Lost {
      NotYetReached(clock, now, t.lostTime, cfg.LinkfTime());
      NotYetReached(clock, now, t.lostTime, cfg.LinkdownDelay());
    }
  }

  lemma {:induction false} PollRidesOut(clock: Clock, cfg: LinkConfig, s: Phy, now: int, x: Sample, w: int)
    requires cfg.FixUps() && Inv(s) && Waiting(s, w, now) && w <= now < w + cfg.LinkfTime()
    requires Measures(clock, cfg.LinkdownDelay())
    requires x.raw.powerup && !JabberDue(clock, cfg, s, now, x) && !SpeedDropDue(cfg, s, x)
    ensures Waiting(Step(clock, cfg, s, Poll(now, x)).phy, w, now)
    ensures Step(clock, cfg, s, Poll(now, x)).entry.report.link
  {
    PrepareRidesOut(clock, cfg, s, now, x, w);
    ConcludeRidesOut(clock, cfg, Prepare(clock, cfg, s, now, x), now, x, w);
  }

  predicate WaitingAt(clock: Clock, cfg: LinkConfig, t0: int, j0: int, es: seq<Event>, k: nat, w: int)
    requires k < |es|
  {
    Timed(es[k]) && Waiting(StateAt(clock, cfg, Fresh(t0, j0), es, k), w, es[k].now)
  }

  lemma {:induction false} WaitingSince(clock: Clock, cfg: LinkConfig, t0: int, j0: int, es: seq<Event>, i: nat,
      k: nat, w: int)
    requires cfg.FixUps() && Measures(clock, cfg.LinkdownDelay()) && Monotone(t0, es) && i <= k < |es|
    requires StateAt(clock, cfg, Fresh(t0, j0), es, i).state == Up
    requires !StateAt(clock, cfg, Fresh(t0, j0), es, i).powerdown
    requires forall m :: i <= m <= k ==> Undisturbed(clock, cfg, t0, j0, es, m, w)
    ensures WaitingAt(clock, cfg, t0, j0, es, k, w)
  {
    assert Undisturbed(clock, cfg, t0, j0, es, k, w);
    if i == k {
    } else {
      WaitingSince(clock, cfg, t0, j0, es, i, k - 1, w);
      assert Undisturbed(clock, cfg, t0, j0, es, k - 1, w);
      WaitingNext(clock, cfg, t0, j0, es, k - 1, w);
    }
  }

  lemma {:induction false} WaitingNext(clock: Clock, cfg: LinkConfig, t0: int, j0: int, es: seq<Event>, k: nat, w: int)
    requires cfg.FixUps() && Measures(clock, cfg.LinkdownDelay()) && Monotone(t0, es)
    requires k + 1 < |es| && Timed(es[k + 1])
    requires Undisturbed(clock, cfg, t0, j0, es, k, w) && WaitingAt(clock, cfg, t0, j0, es, k, w)
    ensures WaitingAt(clock, cfg, t0, j0, es, k + 1, w)
  {
    InvariantHolds(clock, cfg, t0, j0, es[..k]);
    StateNext(clock, cfg, Fresh(t0, j0), es, k);
    if es[k].Poll? {
      PollRidesOut(clock, cfg, StateAt(clock, cfg, Fresh(t0, j0), es, k), es[k].now, es[k].x, w);
    }
  }

  /** A working link before event i; whatever the link does in the events i..j-1, if these fit into
      one window of linkf_time then none of them reports it down. */
  lemma {:induction false} GlitchesAreHidden(clock: Clock, cfg: LinkConfig, t0: int, j0: int, es: seq<Event>,
      i: nat, j: nat, w: int, k: nat)
    requires cfg.FixUps() && Measures(clock, cfg.LinkdownDelay()) && Monotone(t0, es) && i <= k < j <= |es|
    requires StateAt(clock, cfg, Fresh(t0, j0), es, i).state == Up
    requires !StateAt(clock, cfg, Fresh(t0, j0), es, i).powerdown
    requires forall m :: i <= m < j ==> Undisturbed(clock, cfg, t0, j0, es, m, w)
    requires es[k].Poll?
    ensures EntryAt(clock, cfg, Fresh(t0, j0), es, k).report.link
  {
    InvariantHolds(clock, cfg, t0, j0, es[..k]);
    WaitingSince(clock, cfg, t0, j0, es, i, k, w);
    assert Undisturbed(clock, cfg, t0, j0, es, k, w);
    PollRidesOut(clock, cfg, StateAt(clock, cfg, Fresh(t0, j0), es, k), es[k].now, es[k].x, w);
  }
}
