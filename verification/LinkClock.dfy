/**
 The 32-bit jiffies. A run of the 32-bit machine is the image of one in true time that compares times
 by the wrapped difference (`RunWraps`), so theorems about either clock in true time hold of it. It is
 also compared, entry by entry, with the run in unbounded time. The two agree as long as polls come
 often enough - except for the jabber stamp, which a power-up can leave unrefreshed for any length of
 time.
 */
module LinkClock {
  import opened LinkModel
  import opened LinkTime
  import opened LinkRuns

  function WrapPhy(s: Phy): Phy {
    s.(lostTime := s.lostTime % TWO32, thrashTime := s.thrashTime % TWO32, jabberTime := s.jabberTime % TWO32)
  }

  function WrapEvent(e: Event): Event {
    if Timed(e) then e.(now := e.now % TWO32) else e
  }

  function WrapAll(es: seq<Event>): (ws: seq<Event>)
    ensures |ws| == |es|
    ensures forall i :: 0 <= i < |es| ==> ws[i] == WrapEvent(es[i])
  {
    seq(|es|, i requires 0 <= i < |es| => WrapEvent(es[i]))
  }

  lemma {:induction false} ModShift(a: int, k: int)
    ensures (a + k * TWO32) % TWO32 == a % TWO32
    decreases if k < 0 then -k else k
  {
    if k > 0 {
      ModShift(a, k - 1);
      assert (a + (k - 1) * TWO32 + TWO32) % TWO32 == (a + (k - 1) * TWO32) % TWO32;
    } else if k < 0 {
      ModShift(a, k + 1);
      assert (a + (k + 1) * TWO32 - TWO32) % TWO32 == (a + (k + 1) * TWO32) % TWO32;
    }
  }

  // ---- wrapping commutes with a step --------------------------------------------------------

  lemma {:induction false} ReachedWraps(now: int, stamp: int, delay: int)
    ensures Reached(Wrapped32, now % TWO32, stamp % TWO32, delay) <==> Reached(Wrapped32, now, stamp, delay)
  {
    var k := now / TWO32 - stamp / TWO32;
    assert now % TWO32 - (stamp % TWO32 + delay) == now - (stamp + delay) - k * TWO32;
    ModShift(now - (stamp + delay), -k);
  }

  lemma {:induction false} PrepareWraps(cfg: LinkConfig, s: Phy, now: int, x: Sample)
    ensures
      var r := Prepare(Wrapped32, cfg, s, now, x);
      Prepare(Wrapped32, cfg, WrapPhy(s), now % TWO32, x) == r.(phy := WrapPhy(r.phy))
  {
    ReachedWraps(now, s.thrashTime, cfg.ThrashTime());
    ReachedWraps(now, s.jabberTime, cfg.hz);
    ReachedWraps(now, now, cfg.hz);
  }

  lemma {:induction false} SettleWraps(cfg: LinkConfig, s: Phy, jabbered: bool, reset: bool, raw: Status, now: int)
    ensures
      var o := Settle(Wrapped32, cfg, s, jabbered, reset, raw, now);
      Settle(Wrapped32, cfg, WrapPhy(s), jabbered, reset, raw, now % TWO32) == o.(phy := WrapPhy(o.phy))
  {
    ReachedWraps(now, s.lostTime, cfg.LinkfTime());
    ReachedWraps(now, s.lostTime, cfg.LinkdownDelay());
  }

  lemma {:induction false} ConcludeWraps(cfg: LinkConfig, r: Ready, now: int, x: Sample)
    ensures
      var o := Conclude(Wrapped32, cfg, r, now, x);
      Conclude(Wrapped32, cfg, r.(phy := WrapPhy(r.phy)), now % TWO32, x) == o.(phy := WrapPhy(o.phy))
  {
    SettleWraps(cfg, TrackLink(r.phy, now, r.raw, x), r.phy.state == Failed, r.reset, r.raw, now);
  }

  lemma {:induction false} PollWraps(cfg: LinkConfig, s: Phy, now: int, x: Sample)
    requires !s.powerdown
    ensures
      var o := CheckLinkfail(Wrapped32, cfg, s, now, x);
      CheckLinkfail(Wrapped32, cfg, WrapPhy(s), now % TWO32, x) == o.(phy := WrapPhy(o.phy))
  {
    PrepareWraps(cfg, s, now, x);
    ConcludeWraps(cfg, Prepare(Wrapped32, cfg, s, now, x), now, x);
    ReachedWraps(now, s.thrashTime, cfg.ThrashTime());
  }

  lemma {:induction false} StepWraps(cfg: LinkConfig, s: Phy, e: Event)
    ensures
      var o := Step(Wrapped32, cfg, s, e);
      Step(Wrapped32, cfg, WrapPhy(s), WrapEvent(e)) == o.(phy := WrapPhy(o.phy))
  {
    if e.Poll? && !s.powerdown {
      PollWraps(cfg, s, e.now, e.x);
    }
  }

  lemma {:induction false} RunWraps(cfg: LinkConfig, s: Phy, es: seq<Event>, n: nat)
    requires n <= |es|
    ensures StateAt(Wrapped32, cfg, WrapPhy(s), WrapAll(es), n) == WrapPhy(StateAt(Wrapped32, cfg, s, es, n))
  {
    if n == 0 {
    } else {
      RunWraps(cfg, s, es, n - 1);
      StateNext(Wrapped32, cfg, s, es, n - 1);
      StateNext(Wrapped32, cfg, WrapPhy(s), WrapAll(es), n - 1);
      StepWraps(cfg, StateAt(Wrapped32, cfg, s, es, n - 1), es[n - 1]);
    }
  }

  /** The 32-bit machine shows the same entries as the run in true time that compares wrapped
      differences, however far apart polls are. */
  lemma {:induction false} EntryWraps(cfg: LinkConfig, s: Phy, es: seq<Event>, i: nat)
    requires i < |es|
    ensures EntryAt(Wrapped32, cfg, WrapPhy(s), WrapAll(es), i) == EntryAt(Wrapped32, cfg, s, es, i)
  {
    RunWraps(cfg, s, es, i);
    StepWraps(cfg, StateAt(Wrapped32, cfg, s, es, i), es[i]);
  }

  lemma {:induction false} ResetsWrap(cfg: LinkConfig, s: Phy, es: seq<Event>, i: nat, j: nat)
    requires i <= j <= |es|
    ensures ResetsBetween(Wrapped32, cfg, WrapPhy(s), WrapAll(es), i, j) == ResetsBetween(Wrapped32, cfg, s, es, i, j)
  {
    if i == j {
    } else {
      ResetsWrap(cfg, s, es, i, j - 1);
      EntryWraps(cfg, s, es, j - 1);
    }
  }

  // ---- when the 32-bit comparison is exact --------------------------------------------------

  /** How far past its deadline the jabber stamp is. */
  function JabberLate(cfg: LinkConfig, s: Phy, now: int): int {
    now - (s.jabberTime + cfg.hz)
  }

  /** The poll consults a jabber stamp so old that the sign of the wrapped difference has turned. */
  predicate StaleJabber(cfg: LinkConfig, s: Phy, e: Event) {
    && Executed(cfg, s, e)
    && s.state != Failed
    && Jabbering(cfg, e.x.raw, e.x.jabber)
    && JabberLate(cfg, s, e.now) >= HALF
    && JabberLate(cfg, s, e.now) % TWO32 >= HALF
  }

  /** Every other stamp still in use has bounded age; p is the time of the last executed poll,
      q that of the last timed event. */
  predicate Young(cfg: LinkConfig, s: Phy, p: int, q: int) {
    && p <= q
    && 0 <= p - s.thrashTime < cfg.ThrashTime()
    && cfg.hz - HALF <= p - s.jabberTime
    && (s.state == Lost ==> s.lostTime <= q && p - s.lostTime <= cfg.LinkdownDelay())
  }

  /** Two executed polls at most g ticks apart leave room for the longest delay in half the range. */
  predicate GapFits(cfg: LinkConfig, g: nat) {
    g + cfg.ThrashTime() < HALF && g + cfg.LinkdownDelay() < HALF
  }

  lemma {:induction false} PrepareAgrees(cfg: LinkConfig, s: Phy, p: int, q: int, now: int, x: Sample, g: nat)
    requires Young(cfg, s, p, q) && q <= now && now - p <= g && GapFits(cfg, g)
    requires Executed(cfg, s, Poll(now, x)) && !StaleJabber(cfg, s, Poll(now, x))
    ensures Prepare(Wrapped32, cfg, s, now, x) == Prepare(Unbounded, cfg, s, now, x)
    ensures Reached(Wrapped32, now, s.thrashTime, cfg.ThrashTime()) <==>
            Reached(Unbounded, now, s.thrashTime, cfg.ThrashTime())
  {
    ReachedExact(now, s.thrashTime, cfg.ThrashTime());
    ReachedExact(now, now, cfg.hz);
    var late := JabberLate(cfg, s, now);
    if late < HALF {
      ReachedExact(now, s.jabberTime, cfg.hz);
    }
  }

  lemma {:induction false} PrepareYoung(cfg: LinkConfig, s: Phy, p: int, q: int, now: int, x: Sample)
    requires Young(cfg, s, p, q) && q <= now && cfg.hz <= HALF
    ensures
      var r := Prepare(Unbounded, cfg, s, now, x);
      && 0 <= now - r.phy.thrashTime < cfg.ThrashTime()
      && cfg.hz - HALF <= now - r.phy.jabberTime
      && r.phy.lostTime == s.lostTime && (r.phy.state == Lost ==> s.state == Lost)
  {
  }

  lemma {:induction false} ConcludeAgrees(cfg: LinkConfig, r: Ready, now: int, x: Sample)
    requires cfg.LinkdownDelay() < HALF && (r.phy.state == Lost ==> 0 <= now - r.phy.lostTime < HALF)
    ensures Conclude(Wrapped32, cfg, r, now, x) == Conclude(Unbounded, cfg, r, now, x)
  {
    var t := TrackLink(r.phy, now, r.raw, x);
    if t.state == Lost {
      ReachedExact(now, t.lostTime, cfg.LinkfTime());
      ReachedExact(now, t.lostTime, cfg.LinkdownDelay());
    }
  }

  lemma {:induction false} ConcludeYoung(cfg: LinkConfig, r: Ready, now: int, x: Sample)
    requires r.phy.state == Lost ==> 0 <= now - r.phy.lostTime
    requires 0 <= now - r.phy.thrashTime < cfg.ThrashTime() && cfg.hz - HALF <= now - r.phy.jabberTime
    ensures Young(cfg, Conclude(Unbounded, cfg, r, now, x).phy, now, now)
  {
  }

  lemma {:induction false} PollAgrees(cfg: LinkConfig, s: Phy, p: int, q: int, now: int, x: Sample, g: nat)
    requires Young(cfg, s, p, q) && q <= now && now - p <= g && GapFits(cfg, g)
    requires Executed(cfg, s, Poll(now, x)) && !StaleJabber(cfg, s, Poll(now, x))
    ensures CheckLinkfail(Wrapped32, cfg, s, now, x) == CheckLinkfail(Unbounded, cfg, s, now, x)
    ensures Young(cfg, CheckLinkfail(Unbounded, cfg, s, now, x).phy, now, now)
  {
    PrepareAgrees(cfg, s, p, q, now, x, g);
    PrepareYoung(cfg, s, p, q, now, x);
    ConcludeAgrees(cfg, Prepare(Unbounded, cfg, s, now, x), now, x);
    ConcludeYoung(cfg, Prepare(Unbounded, cfg, s, now, x), now, x);
  }

  /** A turned jabber stamp makes the wrapped poll miss a jabber failure. */
  lemma {:induction false} StalePollDiffers(cfg: LinkConfig, s: Phy, now: int, x: Sample)
    requires StaleJabber(cfg, s, Poll(now, x))
    ensures CheckLinkfail(Unbounded, cfg, s, now, x).entry.failure == Jabber
    ensures CheckLinkfail(Wrapped32, cfg, s, now, x).entry.failure != Jabber
  {
  }

  // ---- whole runs ---------------------------------------------------------------------------

  /** The zeroed jabber stamp of a fresh context is at most half the range away from the start. */
  predicate JabberStart(cfg: LinkConfig, t0: int, j0: int) {
    cfg.hz - HALF <= t0 - j0
  }

  /** What the 32-bit machine shows at event i is what the machine with unbounded time shows. */
  predicate SameAt(cfg: LinkConfig, t0: int, j0: int, es: seq<Event>, i: nat)
    requires i < |es|
  {
    EntryAt(Wrapped32, cfg, WrapPhy(Fresh(t0, j0)), WrapAll(es), i) == EntryAt(Unbounded, cfg, Fresh(t0, j0), es, i)
  }

  predicate StaleAt(cfg: LinkConfig, t0: int, j0: int, es: seq<Event>, i: nat)
    requires i < |es|
  {
    StaleJabber(cfg, StateAt(Unbounded, cfg, Fresh(t0, j0), es, i), es[i])
  }

  lemma {:induction false} QuietAgrees(cfg: LinkConfig, s: Phy, p: int, q: int, e: Event)
    requires cfg.FixUps() && Young(cfg, s, p, q) && !Executed(cfg, s, e) && (Timed(e) ==> q <= e.now)
    ensures Step(Wrapped32, cfg, s, e) == Step(Unbounded, cfg, s, e)
    ensures Young(cfg, Step(Unbounded, cfg, s, e).phy, p, if Timed(e) then e.now else q)
  {
  }

  /** After n events both clocks led to the same state, whose stamps are young. */
  predicate TracksAt(cfg: LinkConfig, t0: int, j0: int, es: seq<Event>, n: nat)
    requires n <= |es|
  {
    && StateAt(Wrapped32, cfg, Fresh(t0, j0), es, n) == StateAt(Unbounded, cfg, Fresh(t0, j0), es, n)
    && Young(cfg, StateAt(Unbounded, cfg, Fresh(t0, j0), es, n), PollTime(t0, es[..n]), LatestTime(t0, es[..n]))
  }

  lemma {:induction false} EventTracks(cfg: LinkConfig, t0: int, j0: int, es: seq<Event>, g: nat, n: nat)
    requires cfg.FixUps() && GapFits(cfg, g) && Paced(t0, es, g) && n < |es|
    requires TracksAt(cfg, t0, j0, es, n)
    ensures SameAt(cfg, t0, j0, es, n) <==> !StaleAt(cfg, t0, j0, es, n)
    ensures !StaleAt(cfg, t0, j0, es, n) ==> TracksAt(cfg, t0, j0, es, n + 1)
  {
    var s := StateAt(Unbounded, cfg, Fresh(t0, j0), es, n);
    EntryWraps(cfg, Fresh(t0, j0), es, n);
    StateNext(Unbounded, cfg, Fresh(t0, j0), es, n);
    StateNext(Wrapped32, cfg, Fresh(t0, j0), es, n);
    PoweredMeans(Unbounded, cfg, t0, j0, es[..n]);
    TimesNext(t0, es, n);
    if Timed(es[n]) {
      LatestTimeBound(t0, es, n);
    }
    if StaleAt(cfg, t0, j0, es, n) {
      StalePollDiffers(cfg, s, es[n].now, es[n].x);
    } else if PollsAt(es, n) {
      PollAgrees(cfg, s, PollTime(t0, es[..n]), LatestTime(t0, es[..n]), es[n].now, es[n].x, g);
    } else {
      QuietAgrees(cfg, s, PollTime(t0, es[..n]), LatestTime(t0, es[..n]), es[n]);
    }
  }

  lemma {:induction false} TracksUpTo(cfg: LinkConfig, t0: int, j0: int, es: seq<Event>, g: nat, n: nat)
    requires cfg.FixUps() && GapFits(cfg, g) && JabberStart(cfg, t0, j0) && Paced(t0, es, g) && n <= |es|
    requires forall i :: 0 <= i < n ==> !StaleAt(cfg, t0, j0, es, i)
    ensures TracksAt(cfg, t0, j0, es, n)
  {
    if n == 0 {
    } else {
      TracksUpTo(cfg, t0, j0, es, g, n - 1);
      EventTracks(cfg, t0, j0, es, g, n - 1);
    }
  }

  /** The wrapped run shows the same entries as the unbounded one if and only if no poll consults a
      jabber stamp whose wrapped sign has turned. */
  lemma {:induction false} WrapIsExact(cfg: LinkConfig, t0: int, j0: int, es: seq<Event>, g: nat)
    requires cfg.FixUps() && GapFits(cfg, g) && JabberStart(cfg, t0, j0) && Paced(t0, es, g)
    ensures (forall i :: 0 <= i < |es| ==> SameAt(cfg, t0, j0, es, i)) <==>
            (forall i :: 0 <= i < |es| ==> !StaleAt(cfg, t0, j0, es, i))
  {
    var stale := (i: nat) => i < |es| && StaleAt(cfg, t0, j0, es, i);
    var n := First(stale, 0, |es|);
    forall i | 0 <= i < n ensures !StaleAt(cfg, t0, j0, es, i) {
      assert !stale(i);
    }
    if n < |es| {
      TracksUpTo(cfg, t0, j0, es, g, n);
      EventTracks(cfg, t0, j0, es, g, n);
      assert !SameAt(cfg, t0, j0, es, n);
    } else {
      forall i | 0 <= i < |es| ensures SameAt(cfg, t0, j0, es, i) {
        TracksUpTo(cfg, t0, j0, es, g, i);
        EventTracks(cfg, t0, j0, es, g, i);
      }
    }
  }

  // ---- when no stamp turns ------------------------------------------------------------------

  predicate JabberYoung(cfg: LinkConfig, s: Phy, p: int) {
    s.state == Failed || p - s.jabberTime < cfg.hz
  }

  lemma {:induction false} PrepareJabber(cfg: LinkConfig, s: Phy, now: int, x: Sample)
    ensures JabberYoung(cfg, Prepare(Unbounded, cfg, s, now, x).phy, now)
  {
  }

  lemma {:induction false} ConcludeJabber(cfg: LinkConfig, r: Ready, now: int, x: Sample)
    requires JabberYoung(cfg, r.phy, now)
    ensures JabberYoung(cfg, Conclude(Unbounded, cfg, r, now, x).phy, now)
  {
  }

  lemma {:induction false} JabberStaysYoung(cfg: LinkConfig, t0: int, j0: int, es: seq<Event>, n: nat)
    requires cfg.FixUps() && n <= |es| && t0 - j0 < cfg.hz
    requires forall i :: 0 <= i < |es| ==> !InterruptsFailure(Unbounded, cfg, Fresh(t0, j0), es, i)
    ensures JabberYoung(cfg, StateAt(Unbounded, cfg, Fresh(t0, j0), es, n), PollTime(t0, es[..n]))
  {
    if n == 0 {
    } else {
      JabberStaysYoung(cfg, t0, j0, es, n - 1);
      assert !InterruptsFailure(Unbounded, cfg, Fresh(t0, j0), es, n - 1);
      JabberNext(cfg, t0, j0, es, n - 1);
    }
  }

  lemma {:induction false} JabberNext(cfg: LinkConfig, t0: int, j0: int, es: seq<Event>, n: nat)
    requires cfg.FixUps() && n < |es| && !InterruptsFailure(Unbounded, cfg, Fresh(t0, j0), es, n)
    requires JabberYoung(cfg, StateAt(Unbounded, cfg, Fresh(t0, j0), es, n), PollTime(t0, es[..n]))
    ensures JabberYoung(cfg, StateAt(Unbounded, cfg, Fresh(t0, j0), es, n + 1), PollTime(t0, es[..n + 1]))
  {
    var s := StateAt(Unbounded, cfg, Fresh(t0, j0), es, n);
    StateNext(Unbounded, cfg, Fresh(t0, j0), es, n);
    PoweredMeans(Unbounded, cfg, t0, j0, es[..n]);
    TimesNext(t0, es, n);
    if PollsAt(es, n) {
      PrepareJabber(cfg, s, es[n].now, es[n].x);
      ConcludeJabber(cfg, Prepare(Unbounded, cfg, s, es[n].now, es[n].x), es[n].now, es[n].x);
    }
  }

  /** With jabber_time initialised near the start and no power-up out of a pending failure, the
      32-bit machine reports, resets and calls exactly as the one with unbounded time. */
  lemma {:induction false} WrapRefines(cfg: LinkConfig, t0: int, j0: int, es: seq<Event>, g: nat, i: nat)
    requires cfg.FixUps() && GapFits(cfg, g) && Paced(t0, es, g) && i < |es|
    requires cfg.hz - HALF <= t0 - j0 < cfg.hz
    requires forall k :: 0 <= k < |es| ==> !InterruptsFailure(Unbounded, cfg, Fresh(t0, j0), es, k)
    ensures SameAt(cfg, t0, j0, es, i)
  {
    forall k | 0 <= k < |es| ensures !StaleAt(cfg, t0, j0, es, k) {
      NeverStale(cfg, t0, j0, es, g, k);
    }
    WrapIsExact(cfg, t0, j0, es, g);
  }

  lemma {:induction false} NeverStale(cfg: LinkConfig, t0: int, j0: int, es: seq<Event>, g: nat, n: nat)
    requires cfg.FixUps() && GapFits(cfg, g) && Paced(t0, es, g) && n < |es| && t0 - j0 < cfg.hz
    requires forall k :: 0 <= k < |es| ==> !InterruptsFailure(Unbounded, cfg, Fresh(t0, j0), es, k)
    ensures !StaleAt(cfg, t0, j0, es, n)
  {
    JabberStaysYoung(cfg, t0, j0, es, n);
    PoweredMeans(Unbounded, cfg, t0, j0, es[..n]);
  }

  // ---- and when one does --------------------------------------------------------------------

  const BOARD := LinkConfig(true, false, 0, 1000)
  const GAP: nat := HALF - 60_001

  /** Jabber failures, each interrupted by a power-up, with polls a gap apart. */
  const TURNING: seq<Event> :=
    [PowerUp(true), LinkPoll(1, false), LinkPoll(1001, true), PowerUp(true),
     LinkPoll(1001 + GAP, true), PowerUp(true), LinkPoll(1001 + 2 * GAP, true)]

  /** The state the run has before event n. */
  predicate TurningAt(n: nat)
    requires n < |TURNING|
  {
    var s := StateAt(Unbounded, BOARD, Fresh(0, 0), TURNING, n);
    && s.powerdown == (n == 0)
    && (n >= 2 ==> s.jabberTime == 1)
    && s.state == (if n == 2 then Up else if n == 3 || n == 5 then Failed else Down)
    && PollTime(0, TURNING[..n]) == LatestTime(0, TURNING[..n])
    && LatestTime(0, TURNING[..n]) == (if n < 2 then 0 else if n == 2 then 1 else if n < 5 then 1001 else 1001 + GAP)
  }

  lemma {:induction false} TurningStep(n: nat)
    requires n + 1 < |TURNING| && TurningAt(n)
    ensures TurningAt(n + 1)
  {
    StateNext(Unbounded, BOARD, Fresh(0, 0), TURNING, n);
    TimesNext(0, TURNING, n);
    PoweredMeans(Unbounded, BOARD, 0, 0, TURNING[..n]);
    TurningEvent(StateAt(Unbounded, BOARD, Fresh(0, 0), TURNING, n), TURNING[n], n);
  }

  lemma {:induction false} TurningEvent(s: Phy, e: Event, n: nat)
    requires n < |TURNING| - 1 && e == TURNING[n] && s.powerdown == (n == 0) && (n >= 2 ==> s.jabberTime == 1)
    requires s.state == (if n == 2 then Up else if n == 3 || n == 5 then Failed else Down)
    ensures
      var s' := Step(Unbounded, BOARD, s, e).phy;
      && !s'.powerdown && (n >= 1 ==> s'.jabberTime == 1)
      && s'.state == (if n == 1 then Up else if n == 2 || n == 4 then Failed else Down)
  {
  }

  lemma {:induction false} TurningRun(n: nat)
    requires n < |TURNING|
    ensures TurningAt(n)
  {
    if n == 0 {
      assert TURNING[..0] == [];
    } else {
      TurningRun(n - 1);
      TurningStep(n - 1);
    }
  }

  lemma {:induction false} TurningPaced()
    ensures Paced(0, TURNING, GAP)
  {
    forall i | 0 <= i < |TURNING| && PollsAt(TURNING, i)
      ensures TURNING[i].now - PollTime(0, TURNING[..i]) <= GAP
    {
      TurningRun(i);
    }
  }

  lemma {:induction false} TurningFresh(i: nat)
    requires i < 6
    ensures !StaleAt(BOARD, 0, 0, TURNING, i)
  {
    TurningRun(i);
  }

  /** The restriction on power-ups is needed: this run keeps the pace and starts with a fresh
      jabber stamp, yet its last poll differs between the two clocks. */
  lemma {:induction false} PowerUpsCanTurnTheClock()
    ensures GapFits(BOARD, GAP) && JabberStart(BOARD, 0, 0) && Paced(0, TURNING, GAP)
    ensures !SameAt(BOARD, 0, 0, TURNING, 6)
  {
    TurningPaced();
    TurningRun(6);
    assert StaleAt(BOARD, 0, 0, TURNING, 6);
    forall i | 0 <= i < 6 ensures !StaleAt(BOARD, 0, 0, TURNING, i) {
      TurningFresh(i);
    }
    TracksUpTo(BOARD, 0, 0, TURNING, GAP, 6);
    EventTracks(BOARD, 0, 0, TURNING, GAP, 6);
  }
}
