/**
 What every run of the link supervision keeps: the link-state invariant, the rate limit on PHY
 resets, and the suspend/resume discipline towards the parent module.
 Runs start from the context that setup leaves (`Fresh`) unless a lemma says otherwise.
 */
module LinkRuns {
  import opened LinkModel
  import opened LinkTime

  // ---- the link-state invariant -------------------------------------------------------------

  predicate Inv(s: Phy) {
    && s.state != Thrashing
    && (s.state == Up || s.state == Lost ==> s.lastStatus.link)
    && (s.state == Failed ==> s.thrashCount >= 1)
  }

  /** The poll was not skipped and the board configured fix-ups. */
  predicate Executed(cfg: LinkConfig, s: Phy, e: Event) {
    e.Poll? && !s.powerdown && cfg.FixUps()
  }

  lemma {:induction false} PollKeepsInv(clock: Clock, cfg: LinkConfig, s: Phy, now: int, x: Sample)
    requires Inv(s) && !s.powerdown
    ensures Inv(CheckLinkfail(clock, cfg, s, now, x).phy)
  {
    PrepareInv(clock, cfg, s, now, x);
    ConcludeInv(clock, cfg, Prepare(clock, cfg, s, now, x), now, x);
  }

  predicate ReadyInv(r: Ready) {
    r.phy.state != Thrashing && (r.phy.state == Up || r.phy.state == Lost ==> r.phy.lastStatus.link)
  }

  lemma {:induction false} PrepareInv(clock: Clock, cfg: LinkConfig, s: Phy, now: int, x: Sample)
    requires Inv(s)
    ensures ReadyInv(Prepare(clock, cfg, s, now, x))
  {
  }

  lemma {:induction false} ConcludeInv(clock: Clock, cfg: LinkConfig, r: Ready, now: int, x: Sample)
    requires ReadyInv(r)
    ensures Inv(Conclude(clock, cfg, r, now, x).phy)
  {
  }

  lemma {:induction false} InvariantHolds(clock: Clock, cfg: LinkConfig, t0: int, j0: int, es: seq<Event>)
    ensures Inv(After(clock, cfg, Fresh(t0, j0), es))
  {
    if es == [] {
    } else {
      var n := |es| - 1;
      InvariantHolds(clock, cfg, t0, j0, es[..n]);
      var s := After(clock, cfg, Fresh(t0, j0), es[..n]);
      if Executed(cfg, s, es[n]) {
        PollKeepsInv(clock, cfg, s, es[n].now, es[n].x);
      }
    }
  }

  /** What the state after an executed poll says about what the poll reported. */
  lemma {:induction false} PollReport(clock: Clock, cfg: LinkConfig, t0: int, j0: int, es: seq<Event>, now: int,
      x: Sample)
    requires Executed(cfg, After(clock, cfg, Fresh(t0, j0), es), Poll(now, x))
    ensures
      var o := Step(clock, cfg, After(clock, cfg, Fresh(t0, j0), es), Poll(now, x));
      && (o.phy.state == Up ==> o.entry.report == x.raw && x.raw.link)
      && (o.phy.state == Lost ==> o.phy.lastStatus.link && !x.raw.link)
      && (o.phy.state == Failed <==> !o.entry.failure.NoFailure?)
      && (o.phy.state == Failed ==> !o.entry.report.link)
      && (o.entry.reset ==> o.phy.state == Down && o.phy.lastStatus == NO_STATUS && !o.entry.report.link)
      && (o.phy.state == Down ==> !o.entry.report.link)
      && o.phy.state != Thrashing
  {
    InvariantHolds(clock, cfg, t0, j0, es);
    PollKeepsInv(clock, cfg, After(clock, cfg, Fresh(t0, j0), es), now, x);
  }

  // ---- the reset rate limit -----------------------------------------------------------------

  /** Resets issued by the polls among events i..j-1 of the run. */
  function ResetsBetween(clock: Clock, cfg: LinkConfig, s: Phy, es: seq<Event>, i: nat, j: nat): nat
    requires i <= j <= |es|
  {
    if i == j then 0
    else ResetsBetween(clock, cfg, s, es, i, j - 1) + if EntryAt(clock, cfg, s, es, j - 1).reset then 1 else 0
  }

  /** Resets issued in the whole run. */
  function Resets(clock: Clock, cfg: LinkConfig, s: Phy, es: seq<Event>): nat {
    if es == [] then 0
    else
      var n := |es| - 1;
      var o := Step(clock, cfg, After(clock, cfg, s, es[..n]), es[n]);
      Resets(clock, cfg, s, es[..n]) + if o.entry.reset then 1 else 0
  }

  lemma {:induction false} ResetsAre(clock: Clock, cfg: LinkConfig, s: Phy, es: seq<Event>, j: nat)
    requires j <= |es|
    ensures ResetsBetween(clock, cfg, s, es, 0, j) == Resets(clock, cfg, s, es[..j])
  {
    if j == 0 {
    } else {
      ResetsAre(clock, cfg, s, es, j - 1);
      assert es[..j][..j - 1] == es[..j - 1];
    }
  }

  predicate ZeroedAt(clock: Clock, cfg: LinkConfig, s: Phy, es: seq<Event>, i: nat)
    requires i < |es|
  {
    EntryAt(clock, cfg, s, es, i).zeroed
  }

  function StateAt(clock: Clock, cfg: LinkConfig, s: Phy, es: seq<Event>, i: nat): Phy
    requires i <= |es|
  {
    After(clock, cfg, s, es[..i])
  }

  lemma {:induction false} StateNext(clock: Clock, cfg: LinkConfig, s: Phy, es: seq<Event>, i: nat)
    requires i < |es|
    ensures StateAt(clock, cfg, s, es, i + 1) == Step(clock, cfg, StateAt(clock, cfg, s, es, i), es[i]).phy
  {
    assert es[..i + 1][..i] == es[..i];
  }

  /** Failures counted and already left. */
  function Left(s: Phy): int {
    s.thrashCount - if s.state == Failed then 1 else 0
  }

  lemma {:induction false} PrepareCounts(clock: Clock, cfg: LinkConfig, s: Phy, now: int, x: Sample)
    ensures
      var r, zeroed := Prepare(clock, cfg, s, now, x), Reached(clock, now, s.thrashTime, cfg.ThrashTime());
      && (zeroed ==> r.phy.thrashCount == 0)
      && (!zeroed ==> r.phy.thrashCount == s.thrashCount)
      && (r.reset <==> cfg.rstOnLinkfail && s.state == Failed && r.phy.thrashCount < LINK_THRASH_LIMIT)
  {
  }

  lemma {:induction false} ConcludeCounts(clock: Clock, cfg: LinkConfig, r: Ready, now: int, x: Sample)
    ensures
      var o := Conclude(clock, cfg, r, now, x);
      Left(o.phy) == r.phy.thrashCount && o.entry.reset == r.reset
  {
  }

  lemma {:induction false} ResetStep(clock: Clock, cfg: LinkConfig, s: Phy, e: Event)
    ensures
      var o := Step(clock, cfg, s, e);
      && (!o.entry.zeroed ==> Left(o.phy) >= Left(s) + if o.entry.reset then 1 else 0)
      && (!o.entry.zeroed && o.entry.reset ==> s.state == Failed && s.thrashCount < LINK_THRASH_LIMIT)
      && (o.entry.zeroed ==> Left(o.phy) == 0)
  {
    if e.Poll? {
      PrepareCounts(clock, cfg, s, e.now, e.x);
      ConcludeCounts(clock, cfg, Prepare(clock, cfg, s, e.now, e.x), e.now, e.x);
    }
  }

  lemma {:induction false} ResetAt(clock: Clock, cfg: LinkConfig, s: Phy, es: seq<Event>, i: nat)
    requires i < |es|
    ensures
      var en := EntryAt(clock, cfg, s, es, i);
      var was, now := Left(StateAt(clock, cfg, s, es, i)), Left(StateAt(clock, cfg, s, es, i + 1));
      && (!en.zeroed ==> now >= was + if en.reset then 1 else 0)
      && (!en.zeroed && en.reset ==> was < LINK_THRASH_LIMIT - 1)
      && (en.zeroed ==> now == 0)
  {
    ResetStep(clock, cfg, StateAt(clock, cfg, s, es, i), es[i]);
    StateNext(clock, cfg, s, es, i);
  }

  lemma {:induction false} QuietEpoch(clock: Clock, cfg: LinkConfig, s: Phy, es: seq<Event>, i: nat, j: nat)
    requires i <= j <= |es|
    requires forall k :: i <= k < j ==> !ZeroedAt(clock, cfg, s, es, k)
    ensures ResetsBetween(clock, cfg, s, es, i, j) + Left(StateAt(clock, cfg, s, es, i))
         <= Left(StateAt(clock, cfg, s, es, j))
    ensures ResetsBetween(clock, cfg, s, es, i, j) > 0 ==>
              ResetsBetween(clock, cfg, s, es, i, j) + Left(StateAt(clock, cfg, s, es, i)) <= LINK_THRASH_LIMIT - 1
  {
    if i == j {
    } else {
      QuietEpoch(clock, cfg, s, es, i, j - 1);
      assert !ZeroedAt(clock, cfg, s, es, j - 1);
      ResetAt(clock, cfg, s, es, j - 1);
    }
  }

  lemma {:induction false} ResetsSplit(clock: Clock, cfg: LinkConfig, s: Phy, es: seq<Event>, i: nat, k: nat, j: nat)
    requires i <= k <= j <= |es|
    ensures ResetsBetween(clock, cfg, s, es, i, j)
         == ResetsBetween(clock, cfg, s, es, i, k) + ResetsBetween(clock, cfg, s, es, k, j)
  {
    if k == j {
    } else {
      ResetsSplit(clock, cfg, s, es, i, k, j - 1);
    }
  }

  /** From one zeroing of the thrash counter (inclusive) to the next (exclusive), at most
      LINK_THRASH_LIMIT resets are issued, whatever else happens in between. */
  lemma {:induction false} ResetsPerEpoch(clock: Clock, cfg: LinkConfig, s: Phy, es: seq<Event>, i: nat, j: nat)
    requires i < j <= |es|
    requires ZeroedAt(clock, cfg, s, es, i)
    requires forall k :: i < k < j ==> !ZeroedAt(clock, cfg, s, es, k)
    ensures ResetsBetween(clock, cfg, s, es, i, j) <= LINK_THRASH_LIMIT
  {
    ResetAt(clock, cfg, s, es, i);
    QuietEpoch(clock, cfg, s, es, i + 1, j);
    ResetsSplit(clock, cfg, s, es, i, i + 1, j);
    assert ResetsBetween(clock, cfg, s, es, i, i) == 0;
  }

  /** Before the first zeroing a run has at most LINK_THRASH_LIMIT - 1 resets. */
  lemma {:induction false} ResetsBeforeZeroing(clock: Clock, cfg: LinkConfig, t0: int, j0: int, es: seq<Event>,
      i: nat, j: nat)
    requires i <= j <= |es|
    requires forall k :: i <= k < j ==> !ZeroedAt(clock, cfg, Fresh(t0, j0), es, k)
    ensures ResetsBetween(clock, cfg, Fresh(t0, j0), es, i, j) <= LINK_THRASH_LIMIT - 1
  {
    QuietEpoch(clock, cfg, Fresh(t0, j0), es, i, j);
    InvariantHolds(clock, cfg, t0, j0, es[..i]);
  }

  lemma {:induction false} PrepareThrashTime(clock: Clock, cfg: LinkConfig, s: Phy, now: int, x: Sample)
    ensures
      var t := Prepare(clock, cfg, s, now, x).phy.thrashTime;
      t == if Reached(clock, now, s.thrashTime, cfg.ThrashTime()) then now else s.thrashTime
  {
  }

  lemma {:induction false} ConcludeThrashTime(clock: Clock, cfg: LinkConfig, r: Ready, now: int, x: Sample)
    ensures
      var t := Conclude(clock, cfg, r, now, x).phy.thrashTime;
      t == r.phy.thrashTime || t == now
  {
  }

  lemma {:induction false} ThrashTimeNext(clock: Clock, cfg: LinkConfig, s: Phy, es: seq<Event>, i: nat)
    requires i < |es|
    ensures
      var was, now := StateAt(clock, cfg, s, es, i).thrashTime, StateAt(clock, cfg, s, es, i + 1).thrashTime;
      && (ZeroedAt(clock, cfg, s, es, i) ==>
            es[i].Poll? && now == es[i].now && Reached(clock, es[i].now, was, cfg.ThrashTime()))
      && (now == was || (es[i].Poll? && now == es[i].now))
  {
    StateNext(clock, cfg, s, es, i);
    if es[i].Poll? {
      var s', e := StateAt(clock, cfg, s, es, i), es[i];
      PrepareThrashTime(clock, cfg, s', e.now, e.x);
      ConcludeThrashTime(clock, cfg, Prepare(clock, cfg, s', e.now, e.x), e.now, e.x);
    }
  }

  lemma {:induction false} ThrashTimeGrows(clock: Clock, cfg: LinkConfig, s: Phy, es: seq<Event>, start: int,
      k: nat, m: nat)
    requires Monotone(start, es)
    requires k < m < |es| && Timed(es[m])
    requires Timed(es[k]) && StateAt(clock, cfg, s, es, k + 1).thrashTime == es[k].now
    ensures es[k].now <= StateAt(clock, cfg, s, es, m).thrashTime <= es[m].now
  {
    ThrashTimeRange(clock, cfg, s, es, k, m, es[m].now);
  }

  lemma {:induction false} ThrashTimeRange(clock: Clock, cfg: LinkConfig, s: Phy, es: seq<Event>, k: nat, m: nat,
      max: int)
    requires k < m <= |es| && Timed(es[k]) && StateAt(clock, cfg, s, es, k + 1).thrashTime == es[k].now
    requires forall i :: k <= i < m && Timed(es[i]) ==> es[k].now <= es[i].now <= max
    ensures es[k].now <= StateAt(clock, cfg, s, es, m).thrashTime <= max
  {
    if k + 1 < m {
      ThrashTimeRange(clock, cfg, s, es, k, m - 1, max);
      ThrashTimeNext(clock, cfg, s, es, m - 1);
    }
  }

  /** All timed events among i..j-1 fall into one half-open window of LINK_THRASH_TIME seconds. */
  predicate InWindow(cfg: LinkConfig, es: seq<Event>, i: nat, j: nat, w: int)
    requires i <= j <= |es|
  {
    forall k :: i <= k < j && Timed(es[k]) ==> w <= es[k].now < w + cfg.ThrashTime()
  }

  lemma {:induction false} OneZeroingPerWindow(clock: Clock, cfg: LinkConfig, s: Phy, es: seq<Event>, start: int,
      i: nat, j: nat, w: int, k: nat, m: nat)
    requires Measures(clock, cfg.ThrashTime())
    requires Monotone(start, es) && i <= k < m < j <= |es| && InWindow(cfg, es, i, j, w)
    requires ZeroedAt(clock, cfg, s, es, k)
    ensures !ZeroedAt(clock, cfg, s, es, m)
  {
    ThrashTimeNext(clock, cfg, s, es, k);
    ThrashTimeNext(clock, cfg, s, es, m);
    if Timed(es[m]) {
      ThrashTimeGrows(clock, cfg, s, es, start, k, m);
      NotYetReached(clock, es[m].now, StateAt(clock, cfg, s, es, m).thrashTime, cfg.ThrashTime());
    }
  }

  /** Any window of LINK_THRASH_TIME seconds of any run sees at most 2 * LINK_THRASH_LIMIT - 1 resets,
      at whatever pace polls come. The wrapping clock only has to measure the window. */
  lemma {:induction false} ResetsPerWindow(clock: Clock, cfg: LinkConfig, t0: int, j0: int, es: seq<Event>, i: nat,
      j: nat, w: int)
    requires Measures(clock, cfg.ThrashTime())
    requires Monotone(t0, es) && i <= j <= |es| && InWindow(cfg, es, i, j, w)
    ensures ResetsBetween(clock, cfg, Fresh(t0, j0), es, i, j) <= 2 * LINK_THRASH_LIMIT - 1
  {
    var s := Fresh(t0, j0);
    var zeroed := (m: nat) => m < |es| && ZeroedAt(clock, cfg, s, es, m);
    var k := First(zeroed, i, j);
    forall m | i <= m < k ensures !ZeroedAt(clock, cfg, s, es, m) {
      assert !zeroed(m);
    }
    ResetsBeforeZeroing(clock, cfg, t0, j0, es, i, k);
    ResetsSplit(clock, cfg, s, es, i, k, j);
    if k < j {
      forall m | k < m < j ensures !ZeroedAt(clock, cfg, s, es, m) {
        OneZeroingPerWindow(clock, cfg, s, es, t0, i, j, w, k, m);
      }
      ResetsPerEpoch(clock, cfg, s, es, k, j);
    }
  }

  // ---- what the thrash monitor counts -------------------------------------------------------

  /** The last event of the run fails the link. */
  predicate FailsLast(clock: Clock, cfg: LinkConfig, s: Phy, es: seq<Event>)
    requires es != []
  {
    !EntryAt(clock, cfg, s, es, |es| - 1).failure.NoFailure?
  }

  /** Failures since the counter was zeroed last. */
  function FailuresSince(clock: Clock, cfg: LinkConfig, s: Phy, es: seq<Event>): nat {
    if es == [] then 0
    else
      var n := |es| - 1;
      (if EntryAt(clock, cfg, s, es, n).zeroed then 0 else FailuresSince(clock, cfg, s, es[..n]))
      + if FailsLast(clock, cfg, s, es) then 1 else 0
  }

  /** When the count in force was begun: at its first failure, or else at its zeroing, or else at the start. */
  function CountedFrom(clock: Clock, cfg: LinkConfig, s: Phy, es: seq<Event>): int {
    if es == [] then s.thrashTime
    else
      var n := |es| - 1;
      if es[n].Poll? && (EntryAt(clock, cfg, s, es, n).zeroed ||
                         (FailsLast(clock, cfg, s, es) && FailuresSince(clock, cfg, s, es[..n]) == 0)) then es[n].now
      else CountedFrom(clock, cfg, s, es[..n])
  }

  /** The last poll that was not skipped failed the link, and no power-up set the PHY up since. */
  predicate FailurePending(clock: Clock, cfg: LinkConfig, s: Phy, es: seq<Event>) {
    es != [] &&
    var n := |es| - 1;
    if PollsAt(es, n) then FailsLast(clock, cfg, s, es)
    else FailurePending(clock, cfg, s, es[..n]) && (es[n].PowerUp? ==> cfg.rstOnLinkfail && !es[n].setupOk)
  }

  lemma {:induction false} PollCounts(clock: Clock, cfg: LinkConfig, s: Phy, now: int, x: Sample)
    requires Executed(cfg, s, Poll(now, x)) && s.state != Thrashing
    ensures
      var o := Step(clock, cfg, s, Poll(now, x));
      var count := if o.entry.zeroed then 0 else s.thrashCount;
      && (o.entry.zeroed <==> Reached(clock, now, s.thrashTime, 60 * cfg.hz))
      && (o.entry.reset <==> s.state == Failed && cfg.rstOnLinkfail && count < 5)
      && (o.phy.state == Failed <==> !o.entry.failure.NoFailure?)
      && o.phy.thrashCount == count + (if o.entry.failure.NoFailure? then 0 else 1)
      && o.phy.thrashTime ==
         (if o.entry.zeroed || (!o.entry.failure.NoFailure? && count == 0) then now else s.thrashTime)
  {
    var r := Prepare(clock, cfg, s, now, x);
    PrepareCounts(clock, cfg, s, now, x);
    PrepareThrashTime(clock, cfg, s, now, x);
    ConcludeFailure(clock, cfg, r, now, x);
  }

  lemma {:induction false} ConcludeFailure(clock: Clock, cfg: LinkConfig, r: Ready, now: int, x: Sample)
    ensures
      var o := Conclude(clock, cfg, r, now, x);
      && o.entry.reset == r.reset
      && (o.phy.state == Failed <==> !o.entry.failure.NoFailure?)
      && o.phy.thrashCount == r.phy.thrashCount + (if o.entry.failure.NoFailure? then 0 else 1)
      && o.phy.thrashTime == (if !o.entry.failure.NoFailure? && r.phy.thrashCount == 0 then now else r.phy.thrashTime)
  {
  }

  lemma {:induction false} QuietCounts(clock: Clock, cfg: LinkConfig, s: Phy, e: Event)
    requires cfg.FixUps() && !Executed(cfg, s, e)
    ensures
      var o := Step(clock, cfg, s, e);
      && !o.entry.zeroed && !o.entry.reset && o.entry.failure.NoFailure?
      && o.phy.thrashCount == s.thrashCount && o.phy.thrashTime == s.thrashTime
      && (o.phy.state == Failed <==> s.state == Failed && (e.PowerUp? ==> cfg.rstOnLinkfail && !e.setupOk))
  {
  }

  /** The fields of the thrash monitor over all runs: the failures of the count in force, when it was
      begun, and whether a failure is pending. */
  lemma {:induction false} ThrashMeaning(clock: Clock, cfg: LinkConfig, t0: int, j0: int, es: seq<Event>)
    requires cfg.FixUps()
    ensures
      var s := Fresh(t0, j0);
      && After(clock, cfg, s, es).thrashCount == FailuresSince(clock, cfg, s, es)
      && After(clock, cfg, s, es).thrashTime == CountedFrom(clock, cfg, s, es)
      && (After(clock, cfg, s, es).state == Failed <==> FailurePending(clock, cfg, s, es))
  {
    if es == [] {
    } else {
      var s, n := After(clock, cfg, Fresh(t0, j0), es[..|es| - 1]), |es| - 1;
      ThrashMeaning(clock, cfg, t0, j0, es[..n]);
      PoweredMeans(clock, cfg, t0, j0, es[..n]);
      InvariantHolds(clock, cfg, t0, j0, es[..n]);
      if PollsAt(es, n) {
        PollCounts(clock, cfg, s, es[n].now, es[n].x);
      } else {
        QuietCounts(clock, cfg, s, es[n]);
      }
    }
  }

  /** Exactly when the counter is zeroed and when a poll resets the PHY: a failure is pending on a board
      that resets, and the count in force is 60 seconds old or below 5. */
  lemma {:induction false} ResetMeans(clock: Clock, cfg: LinkConfig, t0: int, j0: int, es: seq<Event>, i: nat)
    requires cfg.FixUps() && i < |es|
    ensures
      var s, before := Fresh(t0, j0), es[..i];
      && (ZeroedAt(clock, cfg, s, es, i) <==>
            PollsAt(es, i) && Reached(clock, es[i].now, CountedFrom(clock, cfg, s, before), 60 * cfg.hz))
      && (EntryAt(clock, cfg, s, es, i).reset <==>
            PollsAt(es, i) && cfg.rstOnLinkfail && FailurePending(clock, cfg, s, before) &&
            (ZeroedAt(clock, cfg, s, es, i) || FailuresSince(clock, cfg, s, before) < 5))
  {
    var s := StateAt(clock, cfg, Fresh(t0, j0), es, i);
    ThrashMeaning(clock, cfg, t0, j0, es[..i]);
    PoweredMeans(clock, cfg, t0, j0, es[..i]);
    InvariantHolds(clock, cfg, t0, j0, es[..i]);
    if PollsAt(es, i) {
      PollCounts(clock, cfg, s, es[i].now, es[i].x);
    } else {
      QuietCounts(clock, cfg, s, es[i]);
    }
  }

  // ---- what the jabber stamp means ----------------------------------------------------------

  /** The poll reads jabber on a link, on a board that cares. */
  predicate Jabbered(cfg: LinkConfig, x: Sample) {
    cfg.rstOnLinkfail && x.raw.link && x.jabber
  }

  /** The last poll that found no jabber, or a failure pending. */
  function QuietSince(clock: Clock, cfg: LinkConfig, s: Phy, es: seq<Event>): int {
    if es == [] then s.jabberTime
    else
      var n := |es| - 1;
      if PollsAt(es, n) && (FailurePending(clock, cfg, s, es[..n]) || !Jabbered(cfg, es[n].x)) then es[n].now
      else QuietSince(clock, cfg, s, es[..n])
  }

  lemma {:induction false} PrepareJabberTime(clock: Clock, cfg: LinkConfig, s: Phy, now: int, x: Sample)
    requires Measures(clock, cfg.hz)
    ensures
      var r := Prepare(clock, cfg, s, now, x);
      && r.phy.jabberTime == (if s.state == Failed || !Jabbered(cfg, x) then now else s.jabberTime)
      && (r.phy.state == Failed <==>
            s.state != Failed && Jabbered(cfg, x) && Reached(clock, now, s.jabberTime, cfg.hz))
  {
    NotYetReached(clock, now, now, cfg.hz);
  }

  lemma {:induction false} ConcludeJabberTime(clock: Clock, cfg: LinkConfig, r: Ready, now: int, x: Sample)
    ensures Conclude(clock, cfg, r, now, x).phy.jabberTime == r.phy.jabberTime
    ensures Conclude(clock, cfg, r, now, x).entry.failure.Jabber? <==> r.phy.state == Failed
  {
  }

  lemma {:induction false} PollJabbers(clock: Clock, cfg: LinkConfig, s: Phy, now: int, x: Sample)
    requires Measures(clock, cfg.hz) && Executed(cfg, s, Poll(now, x))
    ensures
      var o := Step(clock, cfg, s, Poll(now, x));
      && o.phy.jabberTime == (if s.state == Failed || !Jabbered(cfg, x) then now else s.jabberTime)
      && (o.entry.failure.Jabber? <==>
            s.state != Failed && Jabbered(cfg, x) && Reached(clock, now, s.jabberTime, cfg.hz))
  {
    PrepareJabberTime(clock, cfg, s, now, x);
    ConcludeJabberTime(clock, cfg, Prepare(clock, cfg, s, now, x), now, x);
  }

  lemma {:induction false} StampMeaning(clock: Clock, cfg: LinkConfig, t0: int, j0: int, es: seq<Event>)
    requires cfg.FixUps() && Measures(clock, cfg.hz)
    ensures After(clock, cfg, Fresh(t0, j0), es).jabberTime == QuietSince(clock, cfg, Fresh(t0, j0), es)
  {
    if es == [] {
    } else {
      var n := |es| - 1;
      StampMeaning(clock, cfg, t0, j0, es[..n]);
      ThrashMeaning(clock, cfg, t0, j0, es[..n]);
      PoweredMeans(clock, cfg, t0, j0, es[..n]);
      if PollsAt(es, n) {
        PollJabbers(clock, cfg, After(clock, cfg, Fresh(t0, j0), es[..n]), es[n].now, es[n].x);
      }
    }
  }

  /** A poll fails the link for jabber exactly if it reads jabber, no failure is pending, and the last
      quiet poll is a second old. */
  lemma {:induction false} JabberMeans(clock: Clock, cfg: LinkConfig, t0: int, j0: int, es: seq<Event>, i: nat)
    requires cfg.FixUps() && Measures(clock, cfg.hz) && i < |es| && PollsAt(es, i)
    ensures
      var s, before := Fresh(t0, j0), es[..i];
      EntryAt(clock, cfg, s, es, i).failure.Jabber? <==>
      Jabbered(cfg, es[i].x) && !FailurePending(clock, cfg, s, before) &&
      Reached(clock, es[i].now, QuietSince(clock, cfg, s, before), cfg.hz)
  {
    StampMeaning(clock, cfg, t0, j0, es[..i]);
    ThrashMeaning(clock, cfg, t0, j0, es[..i]);
    PoweredMeans(clock, cfg, t0, j0, es[..i]);
    PollJabbers(clock, cfg, StateAt(clock, cfg, Fresh(t0, j0), es, i), es[i].now, es[i].x);
  }

  // ---- what is remembered -------------------------------------------------------------------

  /** The status of the last poll that found the link up, failed it or reset the PHY - a reset leaves an
      empty one. */
  function Remembered(clock: Clock, cfg: LinkConfig, s: Phy, es: seq<Event>): Status {
    if es == [] then s.lastStatus
    else
      var n := |es| - 1;
      var en := EntryAt(clock, cfg, s, es, n);
      if !PollsAt(es, n) then Remembered(clock, cfg, s, es[..n])
      else if FailsLast(clock, cfg, s, es) then en.report
      else if After(clock, cfg, s, es).state == Up then es[n].x.raw
      else if en.reset then NO_STATUS
      else Remembered(clock, cfg, s, es[..n])
  }

  lemma {:induction false} PrepareRemembers(clock: Clock, cfg: LinkConfig, s: Phy, now: int, x: Sample)
    ensures
      var r := Prepare(clock, cfg, s, now, x);
      && r.phy.lastStatus == (if r.reset then NO_STATUS else s.lastStatus)
      && (r.reset ==> r.phy.state == Down && !r.raw.link) && (!r.reset ==> r.raw == x.raw)
  {
  }

  lemma {:induction false} ConcludeRemembers(clock: Clock, cfg: LinkConfig, r: Ready, now: int, x: Sample)
    ensures
      var o := Conclude(clock, cfg, r, now, x);
      && o.entry.reset == r.reset
      && (r.phy.state == Down && !r.raw.link ==> o.phy.state == Down && o.entry.failure.NoFailure?)
      && o.phy.lastStatus == (if !o.entry.failure.NoFailure? then o.entry.report
                              else if o.phy.state == Up then r.raw else r.phy.lastStatus)
  {
  }

  lemma {:induction false} PollRemembers(clock: Clock, cfg: LinkConfig, s: Phy, now: int, x: Sample)
    requires Executed(cfg, s, Poll(now, x))
    ensures
      var o := Step(clock, cfg, s, Poll(now, x));
      o.phy.lastStatus == (if !o.entry.failure.NoFailure? then o.entry.report
                           else if o.phy.state == Up then x.raw
                           else if o.entry.reset then NO_STATUS else s.lastStatus)
  {
    PrepareRemembers(clock, cfg, s, now, x);
    ConcludeRemembers(clock, cfg, Prepare(clock, cfg, s, now, x), now, x);
  }

  lemma {:induction false} QuietRemembers(clock: Clock, cfg: LinkConfig, s: Phy, e: Event)
    requires cfg.FixUps() && !Executed(cfg, s, e)
    ensures Step(clock, cfg, s, e).phy.lastStatus == s.lastStatus
  {
  }

  lemma {:induction false} RememberMeans(clock: Clock, cfg: LinkConfig, t0: int, j0: int, es: seq<Event>)
    requires cfg.FixUps()
    ensures After(clock, cfg, Fresh(t0, j0), es).lastStatus == Remembered(clock, cfg, Fresh(t0, j0), es)
  {
    if es == [] {
    } else {
      var n := |es| - 1;
      var s := After(clock, cfg, Fresh(t0, j0), es[..n]);
      RememberMeans(clock, cfg, t0, j0, es[..n]);
      PoweredMeans(clock, cfg, t0, j0, es[..n]);
      if PollsAt(es, n) {
        PollRemembers(clock, cfg, s, es[n].now, es[n].x);
      } else {
        QuietRemembers(clock, cfg, s, es[n]);
      }
    }
  }

  // ---- suspend and resume -------------------------------------------------------------------

  /** The suspend and resume requests sent to the parent so far. */
  function Calls(clock: Clock, cfg: LinkConfig, s: Phy, es: seq<Event>): seq<ParentCall> {
    if es == [] then []
    else
      var n := |es| - 1;
      Calls(clock, cfg, s, es[..n]) + Step(clock, cfg, After(clock, cfg, s, es[..n]), es[n]).entry.calls
  }

  predicate Suspended(log: seq<ParentCall>) {
    log != [] && log[|log| - 1] == Suspend
  }

  predicate Alternates(log: seq<ParentCall>) {
    forall k :: 0 <= k < |log| ==> (log[k] == Suspend <==> k % 2 == 0)
  }

  /** Event i powers up a PHY whose failure has not been handled yet. */
  predicate InterruptsFailure(clock: Clock, cfg: LinkConfig, s: Phy, es: seq<Event>, i: nat)
    requires i < |es|
  {
    es[i].PowerUp? && After(clock, cfg, s, es[..i]).state == Failed
  }

  function PollCalls(before: Phy, after: Phy): seq<ParentCall> {
    (if before.state == Failed && !before.powerdown then [Resume] else []) +
    (if after.state == Failed && !before.powerdown then [Suspend] else [])
  }

  lemma {:induction false} StepCalls(clock: Clock, cfg: LinkConfig, s: Phy, e: Event)
    requires cfg.rstOnLinkfail && Inv(s)
    ensures
      var o := Step(clock, cfg, s, e);
      && (e.Poll? ==> o.entry.calls == PollCalls(s, o.phy))
      && (e.PowerUp? ==> o.entry.calls == [Suspend, Resume])
      && (e.Dump? || e.PowerDown? ==> o.entry.calls == [])
      && (!e.Poll? && !e.PowerUp? ==> (o.phy.state == Failed <==> s.state == Failed))
      && (e.Poll? && s.powerdown ==> o.phy == s)
      && (e.PowerUp? ==> (o.phy.state == Failed <==> s.state == Failed && !e.setupOk))
  {
  }

  /** Event i is a power-up of a failed PHY that ends in a failing set-up. */
  predicate StrandsAt(clock: Clock, cfg: LinkConfig, s: Phy, es: seq<Event>, i: nat)
    requires i < |es|
  {
    InterruptsFailure(clock, cfg, s, es, i) && !es[i].setupOk
  }

  /** After n events the parent is suspended iff a failure is pending. */
  predicate DisciplinedAt(clock: Clock, cfg: LinkConfig, s: Phy, es: seq<Event>, n: nat)
    requires n <= |es|
  {
    Suspended(Calls(clock, cfg, s, es[..n])) <==> StateAt(clock, cfg, s, es, n).state == Failed
  }

  /** The parent is left suspended exactly while a failure is pending - at every point of a run,
      if and only if no power-up of a failed PHY ends in a failing setup. */
  lemma {:induction false} SuspendedWhileFailed(clock: Clock, cfg: LinkConfig, t0: int, j0: int, es: seq<Event>)
    requires cfg.rstOnLinkfail
    ensures (forall n :: 0 <= n <= |es| ==> DisciplinedAt(clock, cfg, Fresh(t0, j0), es, n)) <==>
            (forall i :: 0 <= i < |es| ==> !StrandsAt(clock, cfg, Fresh(t0, j0), es, i))
  {
    var s := Fresh(t0, j0);
    if forall i :: 0 <= i < |es| ==> !StrandsAt(clock, cfg, s, es, i) {
      forall n | 0 <= n <= |es| ensures DisciplinedAt(clock, cfg, s, es, n) {
        SuspendedUpTo(clock, cfg, t0, j0, es, n);
      }
    } else {
      var i :| 0 <= i < |es| && StrandsAt(clock, cfg, s, es, i);
      StrandedAfter(clock, cfg, s, es, i);
      assert !DisciplinedAt(clock, cfg, s, es, i + 1);
    }
  }

  lemma {:induction false} StrandedAfter(clock: Clock, cfg: LinkConfig, s: Phy, es: seq<Event>, i: nat)
    requires cfg.rstOnLinkfail && i < |es| && StrandsAt(clock, cfg, s, es, i)
    ensures !DisciplinedAt(clock, cfg, s, es, i + 1)
  {
    RunNext(clock, cfg, s, es, i);
    FailedPowerUp(clock, cfg, StateAt(clock, cfg, s, es, i));
    EndsResumed(Calls(clock, cfg, s, es[..i]));
  }

  lemma {:induction false} EndsResumed(log: seq<ParentCall>)
    ensures !Suspended(log + [Suspend, Resume])
  {
    assert (log + [Suspend, Resume])[|log| + 1] == Resume;
  }

  lemma {:induction false} FailedPowerUp(clock: Clock, cfg: LinkConfig, s: Phy)
    requires cfg.rstOnLinkfail && s.state == Failed
    ensures Step(clock, cfg, s, PowerUp(false)).phy.state == Failed
    ensures Step(clock, cfg, s, PowerUp(false)).entry.calls == [Suspend, Resume]
  {
  }

  lemma {:induction false} RunNext(clock: Clock, cfg: LinkConfig, s: Phy, es: seq<Event>, n: nat)
    requires n < |es|
    ensures
      var o := Step(clock, cfg, StateAt(clock, cfg, s, es, n), es[n]);
      && StateAt(clock, cfg, s, es, n + 1) == o.phy
      && Calls(clock, cfg, s, es[..n + 1]) == Calls(clock, cfg, s, es[..n]) + o.entry.calls
  {
    assert es[..n + 1][..n] == es[..n];
  }

  lemma {:induction false} SuspendedUpTo(clock: Clock, cfg: LinkConfig, t0: int, j0: int, es: seq<Event>, n: nat)
    requires cfg.rstOnLinkfail && n <= |es|
    requires forall i :: 0 <= i < |es| ==> !StrandsAt(clock, cfg, Fresh(t0, j0), es, i)
    ensures DisciplinedAt(clock, cfg, Fresh(t0, j0), es, n)
  {
    if n == 0 {
    } else {
      SuspendedUpTo(clock, cfg, t0, j0, es, n - 1);
      InvariantHolds(clock, cfg, t0, j0, es[..n - 1]);
      assert !StrandsAt(clock, cfg, Fresh(t0, j0), es, n - 1);
      DisciplineGoesOn(clock, cfg, Fresh(t0, j0), es, n - 1);
    }
  }

  lemma {:induction false} DisciplineGoesOn(clock: Clock, cfg: LinkConfig, s: Phy, es: seq<Event>, i: nat)
    requires cfg.rstOnLinkfail && i < |es| && Inv(StateAt(clock, cfg, s, es, i))
    requires DisciplinedAt(clock, cfg, s, es, i) && !StrandsAt(clock, cfg, s, es, i)
    ensures DisciplinedAt(clock, cfg, s, es, i + 1)
  {
    RunNext(clock, cfg, s, es, i);
    SuspendedStep(clock, cfg, StateAt(clock, cfg, s, es, i), es[i], Calls(clock, cfg, s, es[..i]));
  }

  lemma {:induction false} SuspendedStep(clock: Clock, cfg: LinkConfig, s: Phy, e: Event, log: seq<ParentCall>)
    requires cfg.rstOnLinkfail && Inv(s) && !(e.PowerUp? && s.state == Failed && !e.setupOk)
    requires Suspended(log) <==> s.state == Failed
    ensures Suspended(log + Step(clock, cfg, s, e).entry.calls) <==> Step(clock, cfg, s, e).phy.state == Failed
  {
    StepCalls(clock, cfg, s, e);
    assert log + [] == log;
  }

  /** Requests to the parent strictly alternate, starting with a suspend, if and only if no
      power-up interrupts a pending failure. Poll-only runs are the special case. */
  lemma {:induction false} CallsAlternate(clock: Clock, cfg: LinkConfig, t0: int, j0: int, es: seq<Event>)
    requires cfg.rstOnLinkfail
    ensures Alternates(Calls(clock, cfg, Fresh(t0, j0), es)) <==>
            forall i :: 0 <= i < |es| ==> !InterruptsFailure(clock, cfg, Fresh(t0, j0), es, i)
    ensures Alternates(Calls(clock, cfg, Fresh(t0, j0), es)) ==>
              (|Calls(clock, cfg, Fresh(t0, j0), es)| % 2 == 1 <==>
               After(clock, cfg, Fresh(t0, j0), es).state == Failed)
  {
    if es == [] {
    } else {
      var s, n := Fresh(t0, j0), |es| - 1;
      CallsAlternate(clock, cfg, t0, j0, es[..n]);
      InvariantHolds(clock, cfg, t0, j0, es[..n]);
      InterruptionsSplit(clock, cfg, s, es);
      AlternatesStep(clock, cfg, After(clock, cfg, s, es[..n]), es[n], Calls(clock, cfg, s, es[..n]));
    }
  }

  lemma {:induction false} InterruptionsSplit(clock: Clock, cfg: LinkConfig, s: Phy, es: seq<Event>)
    requires es != []
    ensures
      var n := |es| - 1;
      (forall i :: 0 <= i < |es| ==> !InterruptsFailure(clock, cfg, s, es, i)) <==>
      (forall i :: 0 <= i < n ==> !InterruptsFailure(clock, cfg, s, es[..n], i)) &&
      !(es[n].PowerUp? && After(clock, cfg, s, es[..n]).state == Failed)
  {
    var n := |es| - 1;
    forall i | 0 <= i < n
      ensures InterruptsFailure(clock, cfg, s, es, i) <==> InterruptsFailure(clock, cfg, s, es[..n], i)
    {
      assert es[..n][..i] == es[..i];
    }
    assert InterruptsFailure(clock, cfg, s, es, n) <==>
           es[n].PowerUp? && After(clock, cfg, s, es[..n]).state == Failed;
  }

  lemma {:induction false} AlternatesStep(clock: Clock, cfg: LinkConfig, s: Phy, e: Event, log: seq<ParentCall>)
    requires cfg.rstOnLinkfail && Inv(s)
    requires Alternates(log) ==> (|log| % 2 == 1 <==> s.state == Failed)
    ensures
      var o := Step(clock, cfg, s, e);
      && (Alternates(log + o.entry.calls) <==> Alternates(log) && !(e.PowerUp? && s.state == Failed))
      && (Alternates(log + o.entry.calls) ==>
            (|log + o.entry.calls| % 2 == 1 <==> o.phy.state == Failed))
  {
    StepCalls(clock, cfg, s, e);
    AlternatesAppend(log, Step(clock, cfg, s, e).entry.calls);
  }

  lemma {:induction false} AlternatesAppend(log: seq<ParentCall>, more: seq<ParentCall>)
    requires |more| <= 2
    ensures Alternates(log + more) <==>
            && Alternates(log)
            && (|more| >= 1 ==> (more[0] == Suspend <==> |log| % 2 == 0))
            && (|more| == 2 ==> (more[1] == Suspend <==> |log| % 2 == 1))
  {
    var all := log + more;
    assert forall k :: 0 <= k < |log| ==> all[k] == log[k];
    assert |more| >= 1 ==> all[|log|] == more[0];
    assert |more| == 2 ==> all[|log| + 1] == more[1];
  }

  // ---- a run that breaks the discipline -----------------------------------------------------

  const WORKING := Status(true, Speed100, true, true, false, false, MdiStraight)

  /** A poll that finds the link working, jabbering or not. */
  function LinkPoll(now: int, jabber: bool): Event {
    Poll(now, Sample(WORKING, true, false, jabber))
  }

  /** Jabber makes the link fail; a power-up then cannot set up the PHY. */
  function Interrupted(hz: pos): seq<Event> {
    [PowerUp(true), LinkPoll(0, false), LinkPoll(hz, true), PowerUp(false)]
  }

  /** From event i on: power-up, a working link, and jabber on it for long enough. */
  predicate Begins(cfg: LinkConfig, es: seq<Event>, i: nat) {
    i + 3 <= |es| && es[i] == PowerUp(true) && es[i + 1] == LinkPoll(0, false) && es[i + 2] == LinkPoll(cfg.hz, true)
  }

  lemma {:induction false} PowersUp(clock: Clock, cfg: LinkConfig, s: Phy, es: seq<Event>, i: nat)
    requires cfg.rstOnLinkfail && i < |es| && es[i] == PowerUp(true)
    ensures StateAt(clock, cfg, s, es, i + 1).state == Down && !StateAt(clock, cfg, s, es, i + 1).powerdown
    ensures Calls(clock, cfg, s, es[..i + 1]) == Calls(clock, cfg, s, es[..i]) + [Suspend, Resume]
  {
    RunNext(clock, cfg, s, es, i);
  }

  lemma {:induction false} ComesUp(clock: Clock, cfg: LinkConfig, s: Phy, es: seq<Event>, i: nat)
    requires cfg.rstOnLinkfail && i < |es| && es[i] == LinkPoll(0, false)
    requires StateAt(clock, cfg, s, es, i).state == Down && !StateAt(clock, cfg, s, es, i).powerdown
    ensures
      var s' := StateAt(clock, cfg, s, es, i + 1);
      && s'.state == Up && s'.jabberTime == 0 && !s'.powerdown
      && Calls(clock, cfg, s, es[..i + 1]) == Calls(clock, cfg, s, es[..i])
  {
    RunNext(clock, cfg, s, es, i);
    FirstPoll(clock, cfg, StateAt(clock, cfg, s, es, i));
  }

  lemma {:induction false} Jabbers(clock: Clock, cfg: LinkConfig, s: Phy, es: seq<Event>, i: nat)
    requires cfg.rstOnLinkfail && i < |es| && es[i] == LinkPoll(cfg.hz, true)
    requires
      var s' := StateAt(clock, cfg, s, es, i);
      s'.state == Up && s'.jabberTime == 0 && !s'.powerdown
    ensures StateAt(clock, cfg, s, es, i + 1).state == Failed
    ensures Calls(clock, cfg, s, es[..i + 1]) == Calls(clock, cfg, s, es[..i]) + [Suspend]
    ensures !EntryAt(clock, cfg, s, es, i).report.link
  {
    RunNext(clock, cfg, s, es, i);
    JabberPoll(clock, cfg, StateAt(clock, cfg, s, es, i));
  }

  lemma {:induction false} LinkJabbers(clock: Clock, cfg: LinkConfig, s: Phy, es: seq<Event>, i: nat)
    requires cfg.rstOnLinkfail && Begins(cfg, es, i)
    ensures StateAt(clock, cfg, s, es, i + 3).state == Failed
    ensures Calls(clock, cfg, s, es[..i + 3]) == Calls(clock, cfg, s, es[..i]) + [Suspend, Resume] + [Suspend]
    ensures !EntryAt(clock, cfg, s, es, i + 2).report.link
  {
    PowersUp(clock, cfg, s, es, i);
    ComesUp(clock, cfg, s, es, i + 1);
    Jabbers(clock, cfg, s, es, i + 2);
  }

  lemma {:induction false} FirstPoll(clock: Clock, cfg: LinkConfig, s: Phy)
    requires cfg.rstOnLinkfail && s.state == Down && !s.powerdown
    ensures
      var o := Step(clock, cfg, s, LinkPoll(0, false));
      o.phy.state == Up && o.phy.jabberTime == 0 && !o.phy.powerdown && o.entry.calls == []
  {
  }

  lemma {:induction false} JabberPoll(clock: Clock, cfg: LinkConfig, s: Phy)
    requires cfg.rstOnLinkfail && s.state == Up && !s.powerdown && s.jabberTime == 0
    ensures
      var o := Step(clock, cfg, s, LinkPoll(cfg.hz, true));
      o.phy.state == Failed && o.entry.calls == [Suspend] && !o.entry.report.link
  {
  }

  lemma {:induction false} FailsAgain(clock: Clock, cfg: LinkConfig, s: Phy, es: seq<Event>, i: nat)
    requires cfg.rstOnLinkfail && i < |es| && es[i] == PowerUp(false) && StateAt(clock, cfg, s, es, i).state == Failed
    ensures StateAt(clock, cfg, s, es, i + 1).state == Failed
    ensures Calls(clock, cfg, s, es[..i + 1]) == Calls(clock, cfg, s, es[..i]) + [Suspend, Resume]
  {
    RunNext(clock, cfg, s, es, i);
    FailedPowerUp(clock, cfg, StateAt(clock, cfg, s, es, i));
  }

  /** After the run the PHY has failed, its parent is running, and the calls do not alternate. */
  predicate Stranded(clock: Clock, cfg: LinkConfig, es: seq<Event>) {
    && After(clock, cfg, Fresh(0, 0), es).state == Failed
    && !Suspended(Calls(clock, cfg, Fresh(0, 0), es))
    && !Alternates(Calls(clock, cfg, Fresh(0, 0), es))
  }

  lemma {:induction false} Interrupts(clock: Clock, cfg: LinkConfig, s: Phy, es: seq<Event>, i: nat)
    requires cfg.rstOnLinkfail && Begins(cfg, es, i) && i + 3 < |es| && es[i + 3] == PowerUp(false)
    ensures StateAt(clock, cfg, s, es, i + 4).state == Failed
    ensures Calls(clock, cfg, s, es[..i + 4])
         == Calls(clock, cfg, s, es[..i]) + [Suspend, Resume, Suspend, Suspend, Resume]
  {
    LinkJabbers(clock, cfg, s, es, i);
    FailsAgain(clock, cfg, s, es, i + 3);
    JoinCalls(Calls(clock, cfg, s, es[..i]));
  }

  lemma {:induction false} JoinCalls(log: seq<ParentCall>)
    ensures log + [Suspend, Resume] + [Suspend] + [Suspend, Resume] == log + [Suspend, Resume, Suspend, Suspend, Resume]
  {
  }

  lemma {:induction false} InterruptedStrands(clock: Clock, cfg: LinkConfig, es: seq<Event>, i: nat)
    requires cfg.rstOnLinkfail && i == 0 && |es| == 4 && Begins(cfg, es, i) && es[i + 3] == PowerUp(false)
    ensures Stranded(clock, cfg, es)
  {
    Interrupts(clock, cfg, Fresh(0, 0), es, i);
    assert es[..i + 4] == es && es[..i] == [];
    LogBreaks([] + [Suspend, Resume, Suspend, Suspend, Resume]);
  }

  /** Such a run, for every board that resets on link failure. */
  lemma {:induction false} FailedWithParentRunning(clock: Clock, cfg: LinkConfig)
    requires cfg.rstOnLinkfail
    ensures Monotone(0, Interrupted(cfg.hz)) && Stranded(clock, cfg, Interrupted(cfg.hz))
  {
    InterruptedStrands(clock, cfg, Interrupted(cfg.hz), 0);
  }

  lemma {:induction false} LogBreaks(log: seq<ParentCall>)
    requires log == [Suspend, Resume, Suspend, Suspend, Resume]
    ensures !Suspended(log) && !Alternates(log)
  {
    assert log[3] == Suspend;
  }
}
