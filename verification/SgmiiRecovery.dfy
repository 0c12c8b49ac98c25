/**
 Recovery of the AR8033's SGMII link. Every poll reads the SGMII debug register; a counter decides
 when a bad reading is worth a recovery, and the value it takes after a recovery that failed makes
 the next poll set up the whole PHY again, or stop the kernel when that fails too.
 */
module SgmiiRecovery {

  const MAX_TRY: nat := 10

  // ---- the readings -------------------------------------------------------------------------

  predicate Powersave(debug: bv32) {
    (debug >> 24) & 0xF == 3
  }

  predicate LinkGood(debug: bv32) {
    debug & 0xFF == 0x10 || debug & 0xFF == 0xF || debug & 0xFF == 0x14
  }

  predicate Synced(debug: bv32) {
    debug & 0xFF == 0xF || debug & 0xFF == 0x10
  }

  /** Bits 24-27 of the reading are 3 in powersave; the low byte is 0xF or 0x10 in sync, and 0x14 is good
      as well. */
  lemma {:induction false} ReadingBits(debug: bv32)
    ensures Powersave(debug) <==> debug & 0x0F00_0000 == 0x0300_0000
    ensures Synced(debug) <==> (debug & 0xFE == 0x0E && debug & 1 == 1) || debug & 0xFF == 0x10
    ensures LinkGood(debug) <==> Synced(debug) || debug & 0xFF == 0x14
  {
  }

  /** What the registers answer during one poll. */
  datatype Poll = Poll(
    off: bool,             // phy->powerdown, or the lock was not taken
    debug: bv32,           // SGMII_DEBUG, first reading
    complete: bool,        // MR_AN_STATUS: auto-negotiation complete
    debug2: bv32,          // SGMII_DEBUG, second reading
    ids: nat -> bv16,      // PHY_ID1, reading by reading, while the PHY is set up
    othersOk: bool,        // set-up of interrupt and configuration succeed
    setupReads: nat -> bv32,     // SGMII_DEBUG during the SGMII bring-up within that
    recoveryReads: nat -> bv32)  // SGMII_DEBUG during a recovery of this poll

  /** One of the ten readings a bring-up takes shows the link in sync. */
  predicate Recovers(read: nat -> bv32) {
    exists k :: 0 <= k < MAX_TRY && Synced(read(k))
  }

  /** The PHY is done hanging at identifier reading k. */
  predicate AnswersAt(ids: nat -> bv16, k: nat) {
    ids(k) != 0xFFFF && forall j :: 0 <= j < k ==> ids(j) == 0xFFFF
  }

  /** The PHY identifies itself within ten readings, and the next one is not zero. */
  predicate Answers(ids: nat -> bv16) {
    exists k :: 0 <= k < 10 && AnswersAt(ids, k) && ids(k + 1) != 0
  }

  predicate SetUpWorks(p: Poll) {
    Answers(p.ids) && p.othersOk && Recovers(p.setupReads)
  }

  /** Reading k is the first in sync: bring-up works iff it is one of the first ten. */
  lemma {:induction false} FirstInSync(read: nat -> bv32, k: nat)
    requires Synced(read(k)) && forall j :: 0 <= j < k ==> !Synced(read(j))
    ensures Recovers(read) <==> k <= 9
  {
  }

  /** Reading k is the first good identifier: the PHY is accepted iff it is one of the first ten and the
      reading after it is not zero. */
  lemma {:induction false} FirstAnswer(ids: nat -> bv16, k: nat)
    requires ids(k) != 0xFFFF && forall j :: 0 <= j < k ==> ids(j) == 0xFFFF
    ensures Answers(ids) <==> k <= 9 && ids(k + 1) != 0
  {
    assert AnswersAt(ids, k);
  }

  // ---- what the counter means ---------------------------------------------------------------

  predicate Bad(p: Poll) {
    !p.off && !Powersave(p.debug) && p.complete && !LinkGood(p.debug2)
  }

  predicate Clears(p: Poll) {
    !p.off && (Powersave(p.debug) || (p.complete && LinkGood(p.debug2)))
  }

  /** Bad polls since the last good one or the last powersave. */
  function Streak(ps: seq<Poll>): nat {
    if ps == [] then 0
    else
      var p := ps[|ps| - 1];
      if Clears(p) then 0 else Streak(ps[..|ps| - 1]) + if Bad(p) then 1 else 0
  }

  /** The last poll recovers the SGMII link: in powersave, and at every tenth bad poll of a streak. */
  predicate Recovering(ps: seq<Poll>)
    requires ps != []
  {
    var p := ps[|ps| - 1];
    !p.off && (Powersave(p.debug) || (Bad(p) && Streak(ps) % 10 == 0))
  }

  /** The last executed poll recovered the link, in vain. */
  predicate LeftBroken(ps: seq<Poll>) {
    ps != [] &&
    var p := ps[|ps| - 1];
    if p.off then LeftBroken(ps[..|ps| - 1]) else Recovering(ps) && !Recovers(p.recoveryReads)
  }

  /** Poll i comes after a recovery in vain and cannot set up the PHY. */
  predicate GivesUpAt(ps: seq<Poll>, i: nat)
    requires i < |ps|
  {
    LeftBroken(ps[..i]) && !ps[i].off && !SetUpWorks(ps[i])
  }

  // ---- the machine --------------------------------------------------------------------------

  datatype State = Running(count: nat) | Halted

  function Judge(count: nat, p: Poll): nat {
    if Powersave(p.debug) then (if Recovers(p.recoveryReads) then 0 else MAX_TRY)
    else if p.complete then
      if LinkGood(p.debug2) then 0
      else if count > 8 then (if Recovers(p.recoveryReads) then 0 else MAX_TRY)
      else count + 1
    else count
  }

  function Step(s: State, p: Poll): State {
    match s
    case Halted => Halted
    case Running(count) =>
      if p.off then s
      else if count != MAX_TRY then Running(Judge(count, p))
      else if SetUpWorks(p) then Running(Judge(0, p))
      else Halted
  }

  function Run(ps: seq<Poll>): State {
    if ps == [] then Running(0) else Step(Run(ps[..|ps| - 1]), ps[|ps| - 1])
  }

  // ---- theorems -----------------------------------------------------------------------------

  /** The counter over all runs: the streak modulo ten, or ten exactly when the last executed poll
      left the link broken; and the kernel stops iff a later poll then fails to set up the PHY. */
  lemma {:induction false} CounterMeaning(ps: seq<Poll>)
    ensures Run(ps).Halted? <==> exists i :: 0 <= i < |ps| && GivesUpAt(ps, i)
    ensures Run(ps).Running? ==> Run(ps).count == if LeftBroken(ps) then MAX_TRY else Streak(ps) % 10
  {
    if ps == [] {
    } else {
      var n := |ps| - 1;
      CounterMeaning(ps[..n]);
      assert forall i :: 0 <= i < n ==> ps[..n][..i] == ps[..i];
      assert forall i :: 0 <= i < n ==> (GivesUpAt(ps, i) <==> GivesUpAt(ps[..n], i));
      BrokenStreak(ps[..n]);
      if Run(ps[..n]).Running? {
        assert GivesUpAt(ps, n) <==> Run(ps).Halted?;
        if !ps[n].off {
          OneMore(ps, Streak(ps[..n]));
        }
      }
    }
  }

  lemma {:induction false} BrokenStreak(ps: seq<Poll>)
    ensures LeftBroken(ps) ==> Streak(ps) % 10 == 0
  {
    if ps != [] && ps[|ps| - 1].off {
      BrokenStreak(ps[..|ps| - 1]);
    }
  }

  lemma {:induction false} OneMore(ps: seq<Poll>, k: nat)
    requires ps != [] && k == Streak(ps[..|ps| - 1])
    requires !ps[|ps| - 1].off
    ensures Judge(k % 10, ps[|ps| - 1]) == if LeftBroken(ps) then MAX_TRY else Streak(ps) % 10
  {
    var p := ps[|ps| - 1];
    NextOfTen(k);
    if Bad(p) {
      assert Streak(ps) == k + 1;
    } else if Clears(p) {
      assert Streak(ps) == 0;
    } else {
      assert Streak(ps) == k;
    }
  }

  lemma {:induction false} NextOfTen(k: nat)
    ensures (k + 1) % 10 == if k % 10 == 9 then 0 else k % 10 + 1
    ensures k % 10 > 8 <==> k % 10 == 9
  {
  }

  /** Bad polls i..j-1 in a row lengthen the streak one by one. */
  lemma {:induction false} StreakGrows(ps: seq<Poll>, i: nat, j: nat)
    requires i <= j <= |ps|
    requires forall k :: i <= k < j ==> Bad(ps[k])
    ensures Streak(ps[..j]) == Streak(ps[..i]) + (j - i)
  {
    if i == j {
    } else {
      assert ps[..j][..j - 1] == ps[..j - 1];
      assert Bad(ps[j - 1]);
      StreakGrows(ps, i, j - 1);
    }
  }

  /** Poll k recovers the SGMII link. */
  predicate RecoversAt(ps: seq<Poll>, k: nat)
    requires k < |ps|
  {
    Recovering(ps[..k + 1])
  }

  /** Any ten bad polls in a row hold exactly one recovery, where the streak before them says. */
  lemma {:induction false} OneRecoveryInTen(ps: seq<Poll>, i: nat)
    requires i + 10 <= |ps|
    requires forall k :: i <= k < i + 10 ==> Bad(ps[k])
    ensures forall k :: i <= k < i + 10 ==> (RecoversAt(ps, k) <==> k == i + 9 - Streak(ps[..i]) % 10)
  {
    forall k | i <= k < i + 10 ensures RecoversAt(ps, k) <==> k == i + 9 - Streak(ps[..i]) % 10 {
      StreakGrows(ps, i, k + 1);
      assert Bad(ps[k]);
    }
  }

  /** A recovery in vain is never passed over: whatever polls come next, the first executed one sets
      up the PHY and goes on from a cleared counter, or stops. */
  lemma {:induction false} BrokenIsNoticed(ps: seq<Poll>, skipped: seq<Poll>, p: Poll)
    requires Run(ps).Running? && LeftBroken(ps)
    requires (forall q :: q in skipped ==> q.off) && !p.off
    ensures Run(ps + skipped + [p]) == if SetUpWorks(p) then Running(Judge(0, p)) else Halted
  {
    assert (ps + skipped + [p])[..|ps + skipped|] == ps + skipped;
    if skipped == [] {
      assert ps + skipped == ps;
      CounterMeaning(ps);
    } else {
      var m := |skipped| - 1;
      assert (ps + skipped)[..|ps| + m] == ps + skipped[..m];
      assert (ps + skipped[..m] + [p])[..|ps| + m] == ps + skipped[..m];
      assert skipped[m].off;
      SkippedPolls(ps, skipped);
      CounterMeaning(ps);
    }
  }

  lemma {:induction false} SkippedPolls(ps: seq<Poll>, skipped: seq<Poll>)
    requires forall q :: q in skipped ==> q.off
    ensures Run(ps + skipped) == Run(ps)
  {
    if skipped == [] {
      assert ps + skipped == ps;
    } else {
      var m := |skipped| - 1;
      assert (ps + skipped)[..|ps| + m] == ps + skipped[..m];
      assert skipped[m].off;
      SkippedPolls(ps, skipped[..m]);
    }
  }

  // ---- the driver ---------------------------------------------------------------------------

  /** setup_sgmii: pulse the SGMII reset and look, until in sync or out of tries. */
  method SetupSgmii(read: nat -> bv32) returns (status: nat, pulses: nat)
    ensures status == if Recovers(read) then 0 else 10
    ensures Recovers(read) ==> 1 <= pulses <= 10 && Synced(read(pulses - 1))
    ensures !Recovers(read) ==> pulses == 11
    ensures forall k :: 0 <= k < pulses - 1 && k < 10 ==> !Synced(read(k))
  {
    pulses := 0;
    var count := 0;
    var synced := false;
    while !synced
      invariant count == pulses <= MAX_TRY
      invariant synced <==> count > 0 && Synced(read(count - 1))
      invariant forall k :: 0 <= k < count - 1 ==> !Synced(read(k))
      decreases MAX_TRY - count, !synced
    {
      pulses := pulses + 1;
      if count == MAX_TRY {
        return MAX_TRY, pulses;
      }
      count := count + 1;
      synced := Synced(read(count - 1));
    }
    assert Synced(read(count - 1));
    status := 0;
  }

  /** The part of setup_phy that waits for the PHY to identify itself. */
  method AwaitPhy(ids: nat -> bv16) returns (ok: bool)
    ensures ok <==> Answers(ids)
  {
    var i := 0;
    while i < 10 && ids(i) == 0xFFFF
      invariant 0 <= i <= 10
      invariant forall j :: 0 <= j < i ==> ids(j) == 0xFFFF
    {
      i := i + 1;
    }
    if i >= 10 {
      return false;
    }
    assert AnswersAt(ids, i);
    ok := ids(i + 1) != 0;
  }

  /** setup_phy, as far as its result goes. */
  method SetUpPhy(p: Poll) returns (status: nat)
    ensures status == 0 <==> SetUpWorks(p)
  {
    var answers := AwaitPhy(p.ids);
    if !answers {
      return 1;
    }
    status := if p.othersOk then 0 else 1;
    var sgmii, pulses := SetupSgmii(p.setupReads);
    status := if sgmii != 0 then sgmii else status;
  }

  class Sgmii {
    var resetCount: nat
    var halted: bool
    var led: bv16              // the LED_OVERRIDE register
    ghost var history: seq<Poll>

    ghost predicate Valid()
      reads this
    {
      Run(history) == if halted then Halted else Running(resetCount)
    }

    constructor (led: bv16)
      ensures Valid() && history == [] && !halted && this.led == led
    {
      resetCount, halted, history := 0, false, [];
      this.led := led;
    }

    /** The recovery part of get_status. `scrambled` is what set-up leaves in LED_OVERRIDE. */
    method GetStatus(p: Poll, scrambled: bv16) returns (recovered: bool)
      requires Valid() && !halted
      modifies this
      ensures Valid() && history == old(history) + [p]
      ensures halted <==> GivesUpAt(history, |history| - 1)
      ensures !halted ==> led == old(led)
      ensures !halted ==> recovered == Recovering(history)
      ensures !halted ==> resetCount == if LeftBroken(history) then MAX_TRY else Streak(history) % 10
    {
      ghost var before := history;
      history := history + [p];
      assert history[..|history| - 1] == before;
      CounterMeaning(before);
      CounterMeaning(history);
      recovered := false;
      if p.off {
        return;
      }
      if resetCount == MAX_TRY {
        var saved := led;
        led := scrambled;
        var status := SetUpPhy(p);
        if status != 0 {
          halted := true;
          return;
        }
        led := saved;
        resetCount := 0;
      }
      recovered := JudgeReadings(p);
    }

    method JudgeReadings(p: Poll) returns (recovered: bool)
      modifies `resetCount
      ensures resetCount == Judge(old(resetCount), p)
      ensures recovered <==> Powersave(p.debug) || (p.complete && !LinkGood(p.debug2) && old(resetCount) > 8)
    {
      recovered := false;
      var pulses;
      if Powersave(p.debug) {
        resetCount, pulses := SetupSgmii(p.recoveryReads);
        recovered := true;
      } else if p.complete {
        if !LinkGood(p.debug2) {
          resetCount := resetCount + 1;
          if resetCount - 1 > 8 {
            resetCount, pulses := SetupSgmii(p.recoveryReads);
            recovered := true;
          }
        } else {
          resetCount := 0;
        }
      }
    }
  }
}
