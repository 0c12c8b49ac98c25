/**
 The link supervision of the AR803x PHY driver: what one poll, one register dump, one power-up and
 one power-down do to the link fields of the PHY context, and the runs made of those steps.

 Time is read through a `Clock`. `Unbounded` compares times as integers; `Wrapped32` is what the
 kernel does on a 32-bit target: jiffies modulo 2^32, compared by the sign of the difference.
 */
module LinkModel {

  type pos = x: int | x > 0 witness 1

  const TWO32: int := 0x1_0000_0000
  const HALF: int := 0x8000_0000

  const LINK_THRASH_TIME: int := 60
  const LINK_THRASH_LIMIT: int := 5
  const LINK_DOWN_DELAY: int := 5

  datatype LinkState = Down | Up | Lost | Failed | PwrDown | Thrashing

  datatype Mdi = MdiInvalid | MdiStraight | MdiCrossed

  datatype Speed = Speed10 | Speed100 | Speed1000 | SpeedUndefined

  datatype Status = Status(link: bool, speed: Speed, fullduplex: bool, powerup: bool,
                           rxPause: bool, txPause: bool, mdix: Mdi)

  const NO_STATUS := Status(false, Speed10, false, false, false, false, MdiInvalid)

  // What a status decoded from the PHY registers looks like: link is only set on a PHY that is
  // powered up, and without link no other detail is filled in.
  predicate Decoded(s: Status) {
    if s.link then s.powerup else s == NO_STATUS.(powerup := s.powerup)
  }

  type RawStatus = s: Status | Decoded(s) witness NO_STATUS

  // Bits of CONTROL and of the vendor's specific-status and interrupt-status registers.
  const CONTROL_POWERDOWN: bv16 := 0x800
  const STATUS_LINK: bv16 := 0x4
  const SPEC_FULL_DUPLEX: bv16 := 0x2000
  const SPEC_RESOLVED: bv16 := 0x800
  const SPEC_LINK_PASS: bv16 := 0x400
  const SPEC_MDIX: bv16 := 0x40
  const SPEC_TXPAUSE: bv16 := 0x8
  const SPEC_RXPAUSE: bv16 := 0x4
  const SPEC_JABBER: bv16 := 0x1
  const INT_LINK_UP: bv16 := 0x400
  const INT_LINK_DOWN: bv16 := 0x800
  const INT_SPEED: bv16 := 0x4000

  function DecodeSpeed(hw: bv16): Speed {
    match hw >> 14
    case 0 => Speed10
    case 1 => Speed100
    case 2 => Speed1000
    case _ => SpeedUndefined
  }

  /** What a poll concludes from CONTROL and the specific-status register. */
  function DecodeStatus(control: bv16, hw: bv16, autonegOff: bool, rxOnly: bool): (s: Status)
    ensures Decoded(s)
    ensures s.powerup <==> control & CONTROL_POWERDOWN == 0
    ensures s.txPause ==> s.link && !rxOnly
  {
    if control & CONTROL_POWERDOWN != 0 then NO_STATUS
    else if hw & SPEC_LINK_PASS != 0 && (autonegOff || hw & SPEC_RESOLVED != 0) then
      Status(true, DecodeSpeed(hw), hw & SPEC_FULL_DUPLEX != 0, true,
             hw & SPEC_RXPAUSE != 0, hw & SPEC_TXPAUSE != 0 && !rxOnly,
             if hw & SPEC_MDIX != 0 then MdiCrossed else MdiStraight)
    else NO_STATUS.(powerup := true)
  }

  /** The status bit by bit: link on a powered PHY (CONTROL bit 11 clear) with link-pass (10), once
      resolved (11) or without autonegotiation; speed in bits 14-15, full duplex 13, crossed 6,
      transmit pause 3 and not in rx-only mode, receive pause 2. */
  lemma {:induction false} StatusBits(control: bv16, hw: bv16, autonegOff: bool, rxOnly: bool)
    ensures
      var s := DecodeStatus(control, hw, autonegOff, rxOnly);
      && (s.powerup <==> control & 0x0800 == 0)
      && (s.link <==> s.powerup && hw & 0x0400 != 0 && (autonegOff || hw & 0x0800 != 0))
      && (s.link ==> DetailBits(s, hw, rxOnly))
      && (!s.link ==> s == NO_STATUS.(powerup := s.powerup))
  {
    SpeedBits(hw);
  }

  predicate DetailBits(s: Status, hw: bv16, rxOnly: bool) {
    && (s.speed == Speed10 <==> hw & 0xC000 == 0)
    && (s.speed == Speed100 <==> hw & 0xC000 == 0x4000)
    && (s.speed == Speed1000 <==> hw & 0xC000 == 0x8000)
    && (s.fullduplex <==> hw & 0x2000 != 0)
    && (s.mdix == MdiCrossed <==> hw & 0x0040 != 0) && s.mdix != MdiInvalid
    && (s.txPause <==> hw & 0x0008 != 0 && !rxOnly)
    && (s.rxPause <==> hw & 0x0004 != 0)
  }

  lemma {:induction false} SpeedBits(hw: bv16)
    ensures DecodeSpeed(hw) == Speed10 <==> hw & 0xC000 == 0
    ensures DecodeSpeed(hw) == Speed100 <==> hw & 0xC000 == 0x4000
    ensures DecodeSpeed(hw) == Speed1000 <==> hw & 0xC000 == 0x8000
  {
  }

  /** Board configuration of one PHY; `lnkfTime` counts only when `linkfailTime` is set. */
  datatype LinkConfig = LinkConfig(rstOnLinkfail: bool, linkfailTime: bool, lnkfTime: nat, hz: pos) {
    predicate FixUps() {
      rstOnLinkfail || linkfailTime
    }

    function LinkfTime(): nat {
      if linkfailTime then lnkfTime else hz
    }

    function LinkdownDelay(): (d: nat)
      ensures d >= LinkfTime()
    {
      if rstOnLinkfail && LINK_DOWN_DELAY * hz > LinkfTime() then LINK_DOWN_DELAY * hz else LinkfTime()
    }

    function ThrashTime(): nat {
      LINK_THRASH_TIME * hz
    }
  }

  /** The link fields of the PHY context. */
  datatype Phy = Phy(state: LinkState, lostTime: int, thrashTime: int, thrashCount: nat,
                     jabberTime: int, lastStatus: Status, powerdown: bool)

  /** The context as init and setup leave it: zeroed, thrash window open, powered down. */
  function Fresh(thrashTime: int, jabberTime: int): Phy {
    Phy(Down, 0, thrashTime, 0, jabberTime, NO_STATUS, true)
  }

  /** What one poll reads: the decoded status, the latched link bit of MDIO_STATUS, whether a
      link interrupt is pending, and the jabber bit. */
  datatype Sample = Sample(raw: RawStatus, latchedLink: bool, linkIrq: bool, jabber: bool)

  function ReadSample(control: bv16, status: bv16, hw: bv16, intr: bv16, hw2: bv16,
                      autonegOff: bool, rxOnly: bool): Sample
  {
    Sample(DecodeStatus(control, hw, autonegOff, rxOnly), status & STATUS_LINK != 0,
           intr & (INT_LINK_UP | INT_LINK_DOWN | INT_SPEED) != 0, hw2 & SPEC_JABBER != 0)
  }

  /** What else a poll reads: MDIO_STATUS bit 2 low latches a link loss; interrupt bits 10, 11 and 14
      are link up, link down and speed; bit 0 of the second status reading is jabber. */
  lemma {:induction false} SampleBits(control: bv16, status: bv16, hw: bv16, intr: bv16, hw2: bv16,
                                      autonegOff: bool, rxOnly: bool)
    ensures
      var x := ReadSample(control, status, hw, intr, hw2, autonegOff, rxOnly);
      && x.raw == DecodeStatus(control, hw, autonegOff, rxOnly)
      && (x.latchedLink <==> status & 0x0004 != 0)
      && (x.linkIrq <==> intr & 0x0400 != 0 || intr & 0x0800 != 0 || intr & 0x4000 != 0)
      && (x.jabber <==> hw2 & 0x0001 != 0)
  {
    InterruptBits(intr);
  }

  lemma {:induction false} InterruptBits(intr: bv16)
    ensures intr & (INT_LINK_UP | INT_LINK_DOWN | INT_SPEED) != 0 <==>
            intr & 0x0400 != 0 || intr & 0x0800 != 0 || intr & 0x4000 != 0
  {
  }

  datatype Event =
    | Poll(now: int, x: Sample)
    | Dump(now: int, latchedLink: bool)
    | PowerUp(setupOk: bool)
    | PowerDown

  datatype ParentCall = Suspend | Resume

  datatype Failure = NoFailure | Jabber | SpeedDrop | DownTooLong

  /** What one step shows to the outside. */
  datatype Entry = Entry(report: Status, reset: bool, zeroed: bool, failure: Failure, calls: seq<ParentCall>)

  const QUIET := Entry(NO_STATUS, false, false, NoFailure, [])

  datatype Outcome = Outcome(phy: Phy, entry: Entry)

  datatype Clock = Unbounded | Wrapped32

  /** `stamp + delay` lies at or before `now`. */
  predicate Reached(clock: Clock, now: int, stamp: int, delay: int) {
    match clock
    case Unbounded => stamp + delay <= now
    case Wrapped32 => (now - (stamp + delay)) % TWO32 < HALF
  }

  // ---- one poll, stage by stage -------------------------------------------------------------

  function RefreshThrash(clock: Clock, cfg: LinkConfig, s: Phy, now: int): Phy {
    if Reached(clock, now, s.thrashTime, cfg.ThrashTime()) then s.(thrashTime := now, thrashCount := 0) else s
  }

  predicate WillReset(cfg: LinkConfig, s: Phy) {
    s.state == Failed && cfg.rstOnLinkfail && s.thrashCount < LINK_THRASH_LIMIT
  }

  function LeaveFailed(cfg: LinkConfig, s: Phy, now: int): Phy {
    if s.state != Failed then s
    else s.(state := Down, jabberTime := now, lastStatus := if WillReset(cfg, s) then NO_STATUS else s.lastStatus)
  }

  predicate Jabbering(cfg: LinkConfig, raw: Status, jabber: bool) {
    raw.link && jabber && cfg.rstOnLinkfail
  }

  predicate JabberFails(clock: Clock, cfg: LinkConfig, s: Phy, now: int, raw: Status, jabber: bool) {
    Jabbering(cfg, raw, jabber) && Reached(clock, now, s.jabberTime, cfg.hz)
  }

  function WatchJabber(clock: Clock, cfg: LinkConfig, s: Phy, now: int, raw: Status, jabber: bool): Phy {
    if JabberFails(clock, cfg, s, now, raw, jabber) then s.(state := Failed)
    else if Jabbering(cfg, raw, jabber) then s
    else s.(jabberTime := now)
  }

  function TrackLink(s: Phy, now: int, raw: Status, x: Sample): Phy {
    var up := if raw.link && s.state == Down then s.(state := Up) else s;
    if up.state == Up && (!(x.latchedLink && raw.link) || x.linkIrq) then up.(state := Lost, lostTime := now) else up
  }

  predicate SpeedDropped(cfg: LinkConfig, s: Phy, raw: Status) {
    s.state == Lost && cfg.rstOnLinkfail && raw.link && raw.speed == Speed10 && raw.speed != s.lastStatus.speed
  }

  predicate DownExpired(clock: Clock, cfg: LinkConfig, s: Phy, now: int, raw: Status) {
    s.state == Lost && !raw.link && Reached(clock, now, s.lostTime, cfg.LinkdownDelay())
  }

  function Held(clock: Clock, cfg: LinkConfig, s: Phy, now: int, raw: Status): Status {
    if s.state == Lost && !raw.link && !Reached(clock, now, s.lostTime, cfg.LinkfTime()) then s.lastStatus else raw
  }

  function EnterFailed(s: Phy, now: int, report: Status): Phy {
    s.(state := Failed, lastStatus := report.(link := false), thrashCount := s.thrashCount + 1,
       thrashTime := if s.thrashCount == 0 then now else s.thrashTime)
  }

  /** The poll half done: failures left, power and jabber looked at. `raw` is the status to go on with. */
  datatype Ready = Ready(phy: Phy, raw: Status, reset: bool)

  function Prepare(clock: Clock, cfg: LinkConfig, s: Phy, now: int, x: Sample): Ready {
    var s0 := RefreshThrash(clock, cfg, s, now);
    var reset := WillReset(cfg, s0);
    var raw: Status := if reset then NO_STATUS.(powerup := true) else x.raw;
    var s1 := LeaveFailed(cfg, s0, now);
    var s2 := if raw.powerup then s1 else s1.(state := PwrDown);
    Ready(WatchJabber(clock, cfg, s2, now, raw, x.jabber), raw, reset)
  }

  /** The link has been tracked; does it count as failed? */
  function Verdict(clock: Clock, cfg: LinkConfig, s: Phy, jabbered: bool, raw: Status, now: int): Failure {
    if jabbered then Jabber
    else if SpeedDropped(cfg, s, raw) then SpeedDrop
    else if DownExpired(clock, cfg, s, now, raw) then DownTooLong
    else NoFailure
  }

  function Shown(clock: Clock, cfg: LinkConfig, s: Phy, failure: Failure, raw: Status, now: int): Status {
    if failure.Jabber? || failure.SpeedDrop? then raw else Held(clock, cfg, s, now, raw)
  }

  function Settle(clock: Clock, cfg: LinkConfig, s: Phy, jabbered: bool, reset: bool, raw: Status, now: int): Outcome {
    var failure := Verdict(clock, cfg, s, jabbered, raw, now);
    var report := Shown(clock, cfg, s, failure, raw, now);
    if failure.NoFailure? then
      var up := s.state == Up || (s.state == Lost && raw.link);
      Outcome(if up then s.(state := Up, lastStatus := report) else s, Entry(report, reset, false, failure, []))
    else
      Outcome(EnterFailed(s, now, report),
              Entry(report.(link := false), reset, false, failure, if cfg.rstOnLinkfail then [Suspend] else []))
  }

  function Conclude(clock: Clock, cfg: LinkConfig, r: Ready, now: int, x: Sample): Outcome {
    Settle(clock, cfg, TrackLink(r.phy, now, r.raw, x), r.phy.state == Failed, r.reset, r.raw, now)
  }

  /** The body of a poll once fix-ups are known to be configured. */
  function CheckLinkfail(clock: Clock, cfg: LinkConfig, s: Phy, now: int, x: Sample): Outcome
    requires !s.powerdown
  {
    var o := Conclude(clock, cfg, Prepare(clock, cfg, s, now, x), now, x);
    var resumed := if s.state == Failed && cfg.rstOnLinkfail then [Resume] else [];
    o.(entry := o.entry.(zeroed := Reached(clock, now, s.thrashTime, cfg.ThrashTime()),
                         calls := resumed + o.entry.calls))
  }

  /** One step of the driver. A poll of a powered-down PHY reads nothing and reports an empty status. */
  function Step(clock: Clock, cfg: LinkConfig, s: Phy, e: Event): Outcome {
    match e
    case Poll(now, x) =>
      if s.powerdown then Outcome(s, QUIET)
      else if !cfg.FixUps() then Outcome(s, QUIET.(report := x.raw))
      else CheckLinkfail(clock, cfg, s, now, x)
    case Dump(now, latchedLink) =>
      Outcome(if s.state == Up && !latchedLink then s.(state := Lost, lostTime := now) else s, QUIET)
    case PowerDown =>
      Outcome(s.(powerdown := true), QUIET)
    case PowerUp(setupOk) =>
      var on := s.(powerdown := false);
      if cfg.rstOnLinkfail then
        Outcome(if setupOk then on.(state := Down) else on, QUIET.(calls := [Suspend, Resume]))
      else
        Outcome(on.(state := Down), QUIET)
  }

  // ---- runs ---------------------------------------------------------------------------------

  function After(clock: Clock, cfg: LinkConfig, s: Phy, es: seq<Event>): Phy {
    if es == [] then s
    else Step(clock, cfg, After(clock, cfg, s, es[..|es| - 1]), es[|es| - 1]).phy
  }

  /** The entry that event `i` of the run produces. */
  function EntryAt(clock: Clock, cfg: LinkConfig, s: Phy, es: seq<Event>, i: nat): Entry
    requires i < |es|
  {
    Step(clock, cfg, After(clock, cfg, s, es[..i]), es[i]).entry
  }

  predicate Timed(e: Event) {
    e.Poll? || e.Dump?
  }

  /** Time never runs backwards, counted from `start`. */
  predicate Monotone(start: int, es: seq<Event>) {
    && (forall i :: 0 <= i < |es| && Timed(es[i]) ==> start <= es[i].now)
    && (forall i, j :: 0 <= i < j < |es| && Timed(es[i]) && Timed(es[j]) ==> es[i].now <= es[j].now)
  }

  /** The first k among i..n-1 with p, or n. */
  function First(p: nat -> bool, i: nat, n: nat): (k: nat)
    requires i <= n
    ensures i <= k <= n
    ensures k < n ==> p(k)
    ensures forall j: nat :: i <= j < k ==> !p(j)
    decreases n - i
  {
    if i == n || p(i) then i else First(p, i + 1, n)
  }
}
