/**
 The driver object: the link fields of the PHY context, updated in place statement by statement as
 the C functions do, with jiffies as 32-bit values. `Valid` ties the object to the `Wrapped32` run of
 the specification machine that its method calls spell out. Theorems that hold on either clock hold of
 it directly; where they speak of true times, these are any times that wrap to the ones the object saw
 (`Saw`), and the lemmas at the end carry them over.
 */
module LinkDriver {
  import opened LinkModel
  import opened LinkTime
  import opened LinkRuns
  import opened LinkDebounce
  import opened LinkClock

  type Jiffies = t: int | 0 <= t < TWO32

  class Supervisor {
    const cfg: LinkConfig
    var state: LinkState
    var lostTime: Jiffies
    var thrashTime: Jiffies
    var thrashCount: nat
    var jabberTime: Jiffies
    var lastStatus: Status
    var powerdown: bool
    var calls: seq<ParentCall>    // requests sent to the parent, oldest first
    var resets: nat               // PHY resets issued by polls
    ghost var started: Jiffies
    ghost var history: seq<Event>

    ghost function Snapshot(): Phy
      reads this
    {
      Phy(state, lostTime, thrashTime, thrashCount, jabberTime, lastStatus, powerdown)
    }

    ghost predicate Valid()
      reads this
    {
      && Snapshot() == After(Wrapped32, cfg, Fresh(started, 0), history)
      && calls == Calls(Wrapped32, cfg, Fresh(started, 0), history)
      && resets == Resets(Wrapped32, cfg, Fresh(started, 0), history)
    }

    /** The object made one more step of its run. */
    twostate predicate Stepped(e: Event, entry: Entry)
      reads this
    {
      && history == old(history) + [e] && started == old(started)
      && Outcome(Snapshot(), entry) == Step(Wrapped32, cfg, old(Snapshot()), e)
      && calls == old(calls) + entry.calls
      && resets == old(resets) + (if entry.reset then 1 else 0)
    }

    /** avmnet_ar803x_init and the part of avmnet_ar803x_setup that concerns the link. */
    constructor (cfg: LinkConfig, now: Jiffies)
      ensures Valid() && this.cfg == cfg && Snapshot() == Fresh(now, 0)
      ensures history == [] && started == now && calls == [] && resets == 0
    {
      this.cfg := cfg;
      lostTime, jabberTime, thrashCount := 0, 0, 0;
      lastStatus := NO_STATUS;
      thrashTime := now;
      state := Down;
      powerdown := true;
      calls, resets := [], 0;
      started, history := now, [];
    }

    static method ReadStatus(control: bv16, hw: bv16, autonegOff: bool, rxOnly: bool) returns (status: Status)
      ensures status == DecodeStatus(control, hw, autonegOff, rxOnly)
    {
      status := NO_STATUS;
      if control & CONTROL_POWERDOWN == 0 {
        status := status.(powerup := true);
        if hw & SPEC_LINK_PASS != 0 && (autonegOff || hw & SPEC_RESOLVED != 0) {
          status := status.(link := true);
          if hw & SPEC_FULL_DUPLEX != 0 {
            status := status.(fullduplex := true);
          }
          status := status.(speed := DecodeSpeed(hw));
          if hw & SPEC_MDIX != 0 {
            status := status.(mdix := MdiCrossed);
          } else {
            status := status.(mdix := MdiStraight);
          }
          if hw & SPEC_RXPAUSE != 0 {
            status := status.(rxPause := true);
          }
          if hw & SPEC_TXPAUSE != 0 && !rxOnly {
            status := status.(txPause := true);
          }
        }
      }
    }

    method GetStatus(now: Jiffies, control: bv16, phyStatus: bv16, hw: bv16, intr: bv16, hw2: bv16,
                     autonegOff: bool, rxOnly: bool)
      returns (status: Status, ghost e: Event, ghost entry: Entry)
      requires Valid()
      modifies this
      ensures Valid()
      ensures e == Poll(now, ReadSample(control, phyStatus, hw, intr, hw2, autonegOff, rxOnly))
      ensures Stepped(e, entry) && status == entry.report == Reported(this, |history| - 1)
    {
      e := Poll(now, ReadSample(control, phyStatus, hw, intr, hw2, autonegOff, rxOnly));
      entry := Step(Wrapped32, cfg, Snapshot(), e).entry;
      status := NO_STATUS;
      if !powerdown {
        var raw := ReadStatus(control, hw, autonegOff, rxOnly);
        var x := Sample(raw, phyStatus & STATUS_LINK != 0,
                        intr & (INT_LINK_UP | INT_LINK_DOWN | INT_SPEED) != 0, hw2 & SPEC_JABBER != 0);
        status := CheckLinkfail(now, x);
      }
      history := history + [e];
      assert history[..|history| - 1] == old(history);
    }

    /** check_linkfail, in its three parts. */
    method CheckLinkfail(now: Jiffies, x: Sample) returns (status: Status)
      requires !powerdown
      modifies this
      ensures history == old(history) && started == old(started)
      ensures
        var o := Step(Wrapped32, cfg, old(Snapshot()), Poll(now, x));
        && Snapshot() == o.phy && status == o.entry.report
        && calls == old(calls) + o.entry.calls
        && resets == old(resets) + (if o.entry.reset then 1 else 0)
    {
      if !cfg.rstOnLinkfail && !cfg.linkfailTime {
        return x.raw;
      }
      status := HandleFailure(now, x);
      ghost var r := Prepare(Wrapped32, cfg, old(Snapshot()), now, x);
      WatchLink(now, status, x);
      status := SettleLink(now, status, r.phy.state == Failed, r.reset);
    }

    /** Thrash window, reset of a failed PHY, power, jabber. */
    method HandleFailure(now: Jiffies, x: Sample) returns (status: Status)
      requires !powerdown
      modifies this
      ensures history == old(history) && started == old(started)
      ensures
        var r := Prepare(Wrapped32, cfg, old(Snapshot()), now, x);
        && Snapshot() == r.phy && status == r.raw
        && resets == old(resets) + (if r.reset then 1 else 0)
      ensures calls == old(calls) + if old(state) == Failed && cfg.rstOnLinkfail then [Resume] else []
    {
      if Reached(Wrapped32, now, thrashTime, LINK_THRASH_TIME * cfg.hz) {
        thrashTime := now;
        thrashCount := 0;
      }
      status := ResetFailed(now, x.raw);
      if !status.powerup {
        state := PwrDown;
      }
      if status.link && x.jabber && cfg.rstOnLinkfail {
        if Reached(Wrapped32, now, jabberTime, cfg.hz) {
          state := Failed;
        }
      } else {
        jabberTime := now;
      }
    }

    method ResetFailed(now: Jiffies, raw: Status) returns (status: Status)
      requires !powerdown
      modifies this
      ensures history == old(history) && started == old(started)
      ensures
        var s := old(Snapshot());
        && Snapshot() == LeaveFailed(cfg, s, now)
        && status == (if WillReset(cfg, s) then NO_STATUS.(powerup := true) else raw)
        && resets == old(resets) + (if WillReset(cfg, s) then 1 else 0)
      ensures calls == old(calls) + if old(state) == Failed && cfg.rstOnLinkfail then [Resume] else []
    {
      status := raw;
      if state == Failed {
        if cfg.rstOnLinkfail {
          if thrashCount < LINK_THRASH_LIMIT {
            resets := resets + 1;
            lastStatus := NO_STATUS;
            status := NO_STATUS.(powerup := !powerdown);
          }
          calls := calls + [Resume];
        }
        state := Down;
        jabberTime := now;
      }
    }

    /** Link up, link lost. */
    method WatchLink(now: Jiffies, status: Status, x: Sample)
      modifies this
      ensures history == old(history) && started == old(started) && calls == old(calls) && resets == old(resets)
      ensures Snapshot() == TrackLink(old(Snapshot()), now, status, x)
    {
      if status.link && state == Down {
        state := Up;
      }
      var linkLost := !(x.latchedLink && status.link);
      linkLost := linkLost || x.linkIrq;
      if linkLost && state == Up {
        lostTime := now;
        state := Lost;
      }
    }

    method SettleLink(now: Jiffies, raw: Status, ghost jabbered: bool, ghost reset: bool) returns (status: Status)
      requires jabbered <==> state == Failed
      modifies this
      ensures history == old(history) && started == old(started) && resets == old(resets)
      ensures
        var o := Settle(Wrapped32, cfg, old(Snapshot()), jabbered, reset, raw, now);
        && Snapshot() == o.phy && status == o.entry.report && calls == old(calls) + o.entry.calls
    {
      status := JudgeLink(now, raw, jabbered);
      if state == Failed {
        status := FailLink(now, status);
      }
      if state == Up {
        lastStatus := status;
      }
    }

    /** The link is reported down, the parent suspended, and the failure counted. */
    method FailLink(now: Jiffies, status: Status) returns (report: Status)
      requires state == Failed
      modifies `lastStatus, `calls, `thrashTime, `thrashCount
      ensures Snapshot() == EnterFailed(old(Snapshot()), now, status) && report == status.(link := false)
      ensures calls == old(calls) + if cfg.rstOnLinkfail then [Suspend] else []
    {
      report := status.(link := false);
      lastStatus := report;
      if cfg.rstOnLinkfail {
        calls := calls + [Suspend];
      }
      if thrashCount == 0 {
        thrashTime := now;
      }
      thrashCount := thrashCount + 1;
    }

    /** Speed drop and lost link; a failed or recovered link only changes its state here. */
    method JudgeLink(now: Jiffies, raw: Status, ghost jabbered: bool) returns (status: Status)
      requires jabbered <==> state == Failed
      modifies `state
      ensures
        var s := old(Snapshot());
        var failure := Verdict(Wrapped32, cfg, s, jabbered, raw, now);
        && status == Shown(Wrapped32, cfg, s, failure, raw, now)
        && state == (if !failure.NoFailure? then Failed else if s.state == Lost && raw.link then Up else s.state)
    {
      status := raw;
      if state == Lost && cfg.rstOnLinkfail && status.link && status.speed == Speed10
         && status.speed != lastStatus.speed {
        state := Failed;
      }
      if state == Lost {
        if !status.link {
          if !Reached(Wrapped32, now, lostTime, cfg.LinkfTime()) {
            status := lastStatus;
          }
          if Reached(Wrapped32, now, lostTime, cfg.LinkdownDelay()) {
            state := Failed;
          }
        } else {
          state := Up;
        }
      }
    }

    /** The part of a register dump that touches the link state. */
    method RegisterDump(now: Jiffies, regStatus: bv16)
      requires Valid()
      modifies this
      ensures Valid() && Stepped(Dump(now, regStatus & STATUS_LINK != 0), QUIET)
    {
      if state == Up && regStatus & STATUS_LINK == 0 {
        state := Lost;
        lostTime := now;
      }
      ghost var e := Dump(now, regStatus & STATUS_LINK != 0);
      history := history + [e];
      assert history[..|history| - 1] == old(history);
    }

    method PowerDownPhy()
      requires Valid()
      modifies this
      ensures Valid() && Stepped(PowerDown, QUIET)
    {
      powerdown := true;
      history := history + [PowerDown];
      assert history[..|history| - 1] == old(history);
    }

    /** `setupOk` says whether set-up, on boards that reset on link failure, got past the reset of the
        PHY, which is where it sets the state. */
    method PowerUpPhy(setupOk: bool)
      requires Valid()
      modifies this
      ensures Valid() && Stepped(PowerUp(setupOk), QUIET.(calls := if cfg.rstOnLinkfail then [Suspend, Resume] else []))
    {
      powerdown := false;
      if cfg.rstOnLinkfail {
        calls := calls + [Suspend];
        if setupOk {
          state := Down;
        }
        calls := calls + [Resume];
      } else {
        state := Down;
      }
      history := history + [PowerUp(setupOk)];
      assert history[..|history| - 1] == old(history);
    }
  }

  // ---- theorems about the object ------------------------------------------------------------

  /** On a board that resets on link failure the last request to the parent is a suspend exactly
      while the driver is in the failed state, unless a power-up of a failed PHY could not set it up. */
  lemma {:induction false} SuspendedWithFailure(d: Supervisor)
    requires d.Valid() && d.cfg.rstOnLinkfail
    requires forall i :: 0 <= i < |d.history| ==> !StrandsAt(Wrapped32, d.cfg, Fresh(d.started, 0), d.history, i)
    ensures Suspended(d.calls) <==> d.state == Failed
  {
    SuspendedUpTo(Wrapped32, d.cfg, d.started, 0, d.history, |d.history|);
    assert d.history[..|d.history|] == d.history;
  }

  /** The events at their true times, of which the object saw the low 32 bits. */
  ghost predicate Saw(d: Supervisor, t0: int, es: seq<Event>)
    reads d
  {
    d.history == WrapAll(es) && d.started == t0 % TWO32 && Monotone(t0, es)
  }

  /** What the object showed at its i-th call, and the status it reported. */
  ghost function Showed(d: Supervisor, i: nat): Entry
    requires i < |d.history|
    reads d
  {
    EntryAt(Wrapped32, d.cfg, Fresh(d.started, 0), d.history, i)
  }

  ghost function Reported(d: Supervisor, i: nat): Status
    requires i < |d.history|
    reads d
  {
    Showed(d, i).report
  }

  lemma {:induction false} ShowedInTrueTime(d: Supervisor, t0: int, es: seq<Event>, i: nat)
    requires Saw(d, t0, es) && i < |es|
    ensures Showed(d, i) == EntryAt(Wrapped32, d.cfg, Fresh(t0, 0), es, i)
  {
    EntryWraps(d.cfg, Fresh(t0, 0), es, i);
    assert WrapPhy(Fresh(t0, 0)) == Fresh(d.started, 0);
  }

  /** The resets issued since the i-th call: at most 9 if the calls since then took less than
      LINK_THRASH_TIME seconds. */
  lemma {:induction false} ResetLimit(d: Supervisor, t0: int, es: seq<Event>, i: nat, w: int)
    requires d.Valid() && Saw(d, t0, es) && d.cfg.ThrashTime() <= HALF
    requires i <= |es| && InWindow(d.cfg, es, i, |es|, w)
    ensures d.resets - Resets(Wrapped32, d.cfg, Fresh(d.started, 0), d.history[..i]) <= 2 * LINK_THRASH_LIMIT - 1
  {
    var s, n := Fresh(d.started, 0), |es|;
    ResetsPerWindow(Wrapped32, d.cfg, t0, 0, es, i, n, w);
    assert WrapPhy(Fresh(t0, 0)) == s;
    ResetsWrap(d.cfg, Fresh(t0, 0), es, i, n);
    ResetsAre(Wrapped32, d.cfg, s, d.history, n);
    ResetsAre(Wrapped32, d.cfg, s, d.history, i);
    ResetsSplit(Wrapped32, d.cfg, s, d.history, 0, i, n);
    assert d.history[..n] == d.history;
  }

  /** Between two zeroings of the thrash counter the object issues at most 5 resets, whatever the
      times are. */
  lemma {:induction false} ResetLimitPerEpoch(d: Supervisor, i: nat, j: nat)
    requires d.Valid() && i < j <= |d.history|
    requires ZeroedAt(Wrapped32, d.cfg, Fresh(d.started, 0), d.history, i)
    requires forall k :: i < k < j ==> !ZeroedAt(Wrapped32, d.cfg, Fresh(d.started, 0), d.history, k)
    ensures Resets(Wrapped32, d.cfg, Fresh(d.started, 0), d.history[..j])
         <= Resets(Wrapped32, d.cfg, Fresh(d.started, 0), d.history[..i]) + LINK_THRASH_LIMIT
  {
    var s := Fresh(d.started, 0);
    ResetsPerEpoch(Wrapped32, d.cfg, s, d.history, i, j);
    ResetsAre(Wrapped32, d.cfg, s, d.history, i);
    ResetsAre(Wrapped32, d.cfg, s, d.history, j);
    ResetsSplit(Wrapped32, d.cfg, s, d.history, 0, i, j);
  }

  /** Reports of an object polled often enough are those of the debounce filter in true time, iff no
      poll masks a working link. */
  lemma {:induction false} DriverFilters(d: Supervisor, t0: int, es: seq<Event>, g: nat)
    requires d.Valid() && Saw(d, t0, es) && d.cfg.FixUps() && ClockFits(Wrapped32, d.cfg, g) && Paced(t0, es, g)
    ensures (forall i :: 0 <= i < |es| && es[i].Poll? ==>
               Reported(d, i) == FilterReport(d.cfg, FilterAfter(d.cfg, IDLE, es[..i]), es[i].now, es[i].x)) <==>
            (forall i :: 0 <= i < |es| ==> !MasksAt(Wrapped32, d.cfg, t0, 0, es, i))
  {
    ReportsAreFiltered(Wrapped32, d.cfg, t0, 0, es, g);
    forall i | 0 <= i < |es| && es[i].Poll?
      ensures FilteredAt(Wrapped32, d.cfg, t0, 0, es, i) <==>
              Reported(d, i) == FilterReport(d.cfg, FilterAfter(d.cfg, IDLE, es[..i]), es[i].now, es[i].x)
    {
      ShowedInTrueTime(d, t0, es, i);
    }
  }

  /** A link the object reports over a reading without link was lost less than linkf_time ago. */
  lemma {:induction false} DriverStaleness(d: Supervisor, t0: int, es: seq<Event>, g: nat, i: nat) returns (m: nat)
    requires d.Valid() && Saw(d, t0, es) && d.cfg.FixUps() && ClockFits(Wrapped32, d.cfg, g) && Paced(t0, es, g)
    requires i < |es| && PollsAt(es, i) && Reported(d, i).link && !es[i].x.raw.link
    ensures m <= i && ShowsLoss(es[m]) && es[i].now < es[m].now + d.cfg.LinkfTime()
  {
    ShowedInTrueTime(d, t0, es, i);
    m := StalenessIsBounded(Wrapped32, d.cfg, t0, 0, es, g, i);
  }

  /** Losses that fit into one window of linkf_time are never reported by the object. */
  lemma {:induction false} DriverHidesGlitches(d: Supervisor, t0: int, es: seq<Event>, i: nat, j: nat, w: int, k: nat)
    requires d.Valid() && Saw(d, t0, es) && d.cfg.FixUps() && d.cfg.LinkdownDelay() <= HALF
    requires i <= k < j <= |es| && es[k].Poll?
    requires
      var s := StateAt(Wrapped32, d.cfg, Fresh(t0, 0), es, i);
      s.state == Up && !s.powerdown
    requires forall m :: i <= m < j ==> Undisturbed(Wrapped32, d.cfg, t0, 0, es, m, w)
    ensures Reported(d, k).link
  {
    ShowedInTrueTime(d, t0, es, k);
    GlitchesAreHidden(Wrapped32, d.cfg, t0, 0, es, i, j, w, k);
  }

  // A zeroed jabber stamp stands for any true time that wraps to zero.
  lemma {:induction false} SameStart(d: Supervisor, t0: int, j0: int, es: seq<Event>, i: nat)
    requires Saw(d, t0, es) && j0 % TWO32 == 0 && i < |es|
    ensures (Showed(d, i) == EntryAt(Unbounded, d.cfg, Fresh(t0, j0), es, i)) <==> SameAt(d.cfg, t0, j0, es, i)
  {
    assert WrapPhy(Fresh(t0, j0)) == Fresh(d.started, 0);
  }

  /** An object polled often enough shows what the machine with unbounded time shows, report, resets,
      failures and parent calls, iff no poll consults a jabber stamp whose sign has turned. */
  lemma {:induction false} DriverIsExact(d: Supervisor, t0: int, j0: int, es: seq<Event>, g: nat)
    requires d.Valid() && Saw(d, t0, es) && j0 % TWO32 == 0
    requires d.cfg.FixUps() && GapFits(d.cfg, g) && JabberStart(d.cfg, t0, j0) && Paced(t0, es, g)
    ensures (forall i :: 0 <= i < |es| ==> Showed(d, i) == EntryAt(Unbounded, d.cfg, Fresh(t0, j0), es, i)) <==>
            (forall i :: 0 <= i < |es| ==> !StaleAt(d.cfg, t0, j0, es, i))
  {
    WrapIsExact(d.cfg, t0, j0, es, g);
    forall i | 0 <= i < |es|
      ensures (Showed(d, i) == EntryAt(Unbounded, d.cfg, Fresh(t0, j0), es, i)) <==> SameAt(d.cfg, t0, j0, es, i)
    {
      SameStart(d, t0, j0, es, i);
    }
  }

  /** It does so in particular while no power-up comes out of a pending failure. */
  lemma {:induction false} DriverRefines(d: Supervisor, t0: int, j0: int, es: seq<Event>, g: nat, i: nat)
    requires d.Valid() && Saw(d, t0, es) && j0 % TWO32 == 0 && i < |es|
    requires d.cfg.FixUps() && GapFits(d.cfg, g) && Paced(t0, es, g) && d.cfg.hz - HALF <= t0 - j0 < d.cfg.hz
    requires forall k :: 0 <= k < |es| ==> !InterruptsFailure(Unbounded, d.cfg, Fresh(t0, j0), es, k)
    ensures Showed(d, i) == EntryAt(Unbounded, d.cfg, Fresh(t0, j0), es, i)
  {
    WrapRefines(d.cfg, t0, j0, es, g, i);
    SameStart(d, t0, j0, es, i);
  }

  /** When an object polled often enough fails a link for being down. */
  lemma {:induction false} DriverGivesUp(d: Supervisor, t0: int, es: seq<Event>, g: nat, i: nat)
    requires d.Valid() && Saw(d, t0, es) && d.cfg.FixUps() && ClockFits(Wrapped32, d.cfg, g) && Paced(t0, es, g)
    requires i < |es| && PollsAt(es, i)
    ensures Showed(d, i).failure.DownTooLong? <==> GivesUpAt(Wrapped32, d.cfg, t0, 0, es, i)
  {
    ShowedInTrueTime(d, t0, es, i);
    DownFailure(Wrapped32, d.cfg, t0, 0, es, g, i);
  }
}
