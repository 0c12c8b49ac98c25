/**
 The gigabit throttle of the power management: read the settings through ethtool, drop or restore
 the 1000 Mbit/s modes, and write them back when they changed.
 */
module PowerThrottle {
  import opened PhyConfig
  import opened PhyModel
  import opened PhyRuns
  import opened PhyDriver

  function Throttled(read: bv32): bv32 {
    read & !GBIT_MODES
  }

  function AddModes(kept: bv32, supported: bv32): bv32 {
    kept | Flag(supported & M1000_HALF != 0, M1000_HALF) | Flag(supported & M1000_FULL != 0, M1000_FULL)
  }

  /** The modes the power management asks for, given those it read. */
  function Wanted(throttle: bool, read: bv32, supported: bv32): bv32 {
    if throttle then Throttled(read) else AddModes(Throttled(read), supported)
  }

  /** The request sent back for what was read. */
  function Back(c: Config, read: bv32, autoneg: bool, throttle: bool, speed: nat, duplex: nat): Cmd {
    Cmd(c.supported, Wanted(throttle, read, c.supported), if autoneg then 1 else 0, speed, duplex)
  }

  datatype Request = Nothing | Send(cmd: Cmd)

  function Needed(c: Config, read: bv32, autoneg: bool, throttle: bool, speed: nat, duplex: nat): Request {
    if Wanted(throttle, read, c.supported) == read then Nothing
    else Send(Back(c, read, autoneg, throttle, speed, duplex))
  }

  function Carry(b: Board, s: Phy, r: Request): Phy {
    match r
    case Nothing => s
    case Send(cmd) => Apply(b, s, SetSettings(cmd))
  }

  predicate CarriedOk(c: Config, r: Request) {
    r.Nothing? || Accepts(c, r.cmd)
  }

  function ThrottleFrom(b: Board, s: Phy, read: bv32, autoneg: bool, throttle: bool, speed: nat, duplex: nat): Phy {
    Carry(b, s, Needed(s.config, read, autoneg, throttle, speed, duplex))
  }

  function Throttle(b: Board, s: Phy, throttle: bool, speed: nat, duplex: nat): Phy {
    ThrottleFrom(b, s, ReadModes(b, s), ReadAutoneg(s), throttle, speed, duplex)
  }

  predicate ThrottleFromOk(s: Phy, read: bv32, autoneg: bool, throttle: bool, speed: nat, duplex: nat) {
    CarriedOk(s.config, Needed(s.config, read, autoneg, throttle, speed, duplex))
  }

  predicate ThrottleOk(b: Board, s: Phy, throttle: bool, speed: nat, duplex: nat) {
    ThrottleFromOk(s, ReadModes(b, s), ReadAutoneg(s), throttle, speed, duplex)
  }

  class PowerManager {
    const ports: seq<Device>
    var throttleOn: seq<bool>

    constructor (ports: seq<Device>)
      ensures this.ports == ports && throttleOn == seq(|ports|, i => false)
    {
      this.ports := ports;
      throttleOn := seq(|ports|, i => false);
    }

    /** avmnet_power_config. The status poll inside get_settings may reset the PHY and finds speed
        and duplex of the link. */
    method PowerConfig(port: nat, throttle: bool, reset: Option<Reset>, speed: nat, duplex: nat) returns (ok: bool)
      requires |throttleOn| == |ports|
      requires port < |ports| ==> ports[port].Valid()
      modifies this, if port < |ports| then {ports[port]} else {}
      ensures port >= |ports| ==> !ok && throttleOn == old(throttleOn)
      ensures port < |ports| ==>
                var d := ports[port];
                var s := Apply(d.board, old(d.Snapshot()), Poll(reset));
                && d.Valid()
                && d.Snapshot() == Throttle(d.board, s, throttle, speed, duplex)
                && ok == ThrottleOk(d.board, s, throttle, speed, duplex)
                && throttleOn == old(throttleOn)[port := throttle]
    {
      if port >= |ports| {
        return false;
      }
      throttleOn := throttleOn[port := throttle];
      ok := Adjust(ports[port], throttle, reset, speed, duplex);
    }

    static method Adjust(d: Device, throttle: bool, reset: Option<Reset>, speed: nat, duplex: nat) returns (ok: bool)
      requires d.Valid()
      modifies d
      ensures d.Valid()
      ensures d.Snapshot() == Throttle(d.board, Apply(d.board, old(d.Snapshot()), Poll(reset)), throttle, speed, duplex)
      ensures ok == ThrottleOk(d.board, Apply(d.board, old(d.Snapshot()), Poll(reset)), throttle, speed, duplex)
    {
      var cmd := d.GetSettings(reset, speed, duplex);
      ghost var s := d.Snapshot();
      var current := cmd.advertising;
      var wanted := SelectModes(throttle, current, cmd.supported);
      var r := if wanted == current then Nothing else Send(cmd.(advertising := wanted));
      assert r == Needed(s.config, ReadModes(d.board, s), ReadAutoneg(s), throttle, speed, duplex);
      ok := CarryOut(d, r);
    }

    static method CarryOut(d: Device, r: Request) returns (ok: bool)
      requires d.Valid()
      modifies d
      ensures d.Valid()
      ensures d.Snapshot() == Carry(d.board, old(d.Snapshot()), r)
      ensures ok == CarriedOk(old(d.config), r)
    {
      match r
      case Nothing => ok := true;
      case Send(cmd) => ok := d.SetSettingsOf(cmd);
    }

    static method SelectModes(throttle: bool, read: bv32, supported: bv32) returns (want: bv32)
      ensures want == Wanted(throttle, read, supported)
    {
      want := Throttled(read);
      if !throttle {
        want := AddSupported(want, supported);
      }
    }

    static method AddSupported(kept: bv32, supported: bv32) returns (want: bv32)
      ensures want == AddModes(kept, supported)
    {
      want := kept;
      if supported & M1000_HALF != 0 {
        want := want | M1000_HALF;
      }
      if supported & M1000_FULL != 0 {
        want := want | M1000_FULL;
      }
    }
  }

  // ---- the round trip -----------------------------------------------------------------------

  /** A powered gigabit copper PHY that autonegotiates, its registers in step. */
  predicate Ready(b: Board, s: Phy) {
    InStep(b, s) && WithinSupported(s.config) && !s.powerdown && b.gbit && s.config.port.PortTp? && s.config.autoneg
  }

  /** A gigabit copper device is ready whenever it is powered and autonegotiates, unless its last reset
      could not be set up. */
  lemma {:induction false} DeviceReady(d: Device)
    requires d.Valid() && !d.powerdown && !Stale(d.board, d.left, d.history)
    requires d.board.gbit && d.config.port.PortTp? && d.config.autoneg
    ensures Ready(d.board, d.Snapshot())
  {
    RunReady(d.board, d.left, d.history);
  }

  lemma {:induction false} RunReady(b: Board, left: Regs, ops: seq<Op>)
    requires !Stale(b, left, ops) && !Run(b, left, ops).powerdown
    requires b.gbit && Run(b, left, ops).config.port.PortTp? && Run(b, left, ops).config.autoneg
    ensures Ready(b, Run(b, left, ops))
  {
    RegistersMirrorConfig(b, left, ops);
    AdvertiseWithinSupported(b, left, ops);
  }

  /** The first power-up gets it there. */
  lemma {:induction false} ReadyAfterPowerUp(b: Board, left: Regs, after: Regs, setup: Reset)
    requires b.gbit && SetupConfig(b).port.PortTp? && SetupConfig(b).autoneg && (b.rstOnLinkfail ==> setup.configured)
    ensures Run(b, left, [PowerUp(after, setup)]).config == SetupConfig(b)
    ensures Ready(b, Run(b, left, [PowerUp(after, setup)]))
  {
    var ops := [PowerUp(after, setup)];
    assert ops[..0] == [];
    PoweredUp(b, Setup(b, left), after, setup);
    RunReady(b, left, ops);
  }

  lemma {:induction false} PoweredUp(b: Board, s: Phy, after: Regs, setup: Reset)
    requires s.config.port.PortTp? && (b.rstOnLinkfail ==> setup.configured)
    ensures !Apply(b, s, PowerUp(after, setup)).powerdown && Apply(b, s, PowerUp(after, setup)).config == s.config
  {
  }

  /** TP, Autoneg and the advertised pause bits are among the supported ones. */
  predicate Requestable(supported: bv32, advertise: bv32) {
    Fits(supported, TP | AUTONEG) && advertise & PAUSE_BITS & !supported == 0
  }

  predicate HasGigabit(m: bv32) {
    m & M1000_FULL != 0
  }

  /** What throttling stores: the readable part of the mask without gigabit. */
  function Slow(m: bv32): bv32 {
    Throttled(Visible(true, m))
  }

  lemma {:induction false} SlowFits(supported: bv32, adv: bv32)
    requires Covers(supported, adv)
    ensures Fits(supported, Slow(adv)) <==> Requestable(supported, adv)
  {
  }

  lemma {:induction false} SlowDiffers(adv: bv32)
    ensures Slow(adv) == Visible(true, adv) <==> !HasGigabit(adv)
  {
  }

  lemma {:induction false} SlowStored(adv: bv32)
    ensures Stored(adv, Slow(adv)) == Slow(adv)
  {
  }

  lemma {:induction false} SlowReads(adv: bv32)
    ensures Visible(true, Slow(adv)) == Slow(adv)
  {
  }

  lemma {:induction false} SlowIsSlow(adv: bv32)
    ensures !HasGigabit(Slow(adv)) && Slow(Slow(adv)) == Slow(adv)
  {
  }

  lemma {:induction false} SlowFacts(adv: bv32)
    ensures Slow(adv) == Visible(true, adv) <==> !HasGigabit(adv)
    ensures Stored(adv, Slow(adv)) == Slow(adv)
    ensures Visible(true, Slow(adv)) == Slow(adv) && !HasGigabit(Slow(adv))
    ensures Slow(Slow(adv)) == Slow(adv)
  {
    SlowDiffers(adv);
    SlowStored(adv);
    SlowReads(adv);
    SlowIsSlow(adv);
  }

  lemma {:induction false} ReadyReads(b: Board, s: Phy, throttle: bool, speed: nat, duplex: nat)
    requires Ready(b, s)
    ensures ReadModes(b, s) == Visible(true, s.config.advertise) && ReadAutoneg(s)
    ensures Throttle(b, s, throttle, speed, duplex) ==
            ThrottleFrom(b, s, Visible(true, s.config.advertise), true, throttle, speed, duplex)
    ensures ThrottleOk(b, s, throttle, speed, duplex) ==
            ThrottleFromOk(s, Visible(true, s.config.advertise), true, throttle, speed, duplex)
  {
    ReadsConfig(b, s);
  }

  /** When throttling a ready PHY succeeds: there is nothing to drop, or the board's mode mask lets
      TP, Autoneg and the advertised pause bits through the check of set_settings. */
  lemma {:induction false} ThrottleSucceeds(b: Board, s: Phy, speed: nat, duplex: nat)
    requires Ready(b, s)
    ensures ThrottleOk(b, s, true, speed, duplex) <==>
            !HasGigabit(s.config.advertise) || Requestable(s.config.supported, s.config.advertise)
  {
    ReadyReads(b, s, true, speed, duplex);
    SlowFits(s.config.supported, s.config.advertise);
    SlowFacts(s.config.advertise);
  }

  /** From s the PHY got to s' by storing `want` as its advertisement. */
  predicate StepsTo(b: Board, s: Phy, s': Phy, want: bv32) {
    && Ready(b, s')
    && s'.config == s.config.(advertise := want)
    && ForeignFieldsKept(s.config, s.regs, s'.regs)
  }

  lemma {:induction false} FromSteps(b: Board, s: Phy, read: bv32, throttle: bool, speed: nat, duplex: nat, want: bv32)
    requires Ready(b, s) && want != read && want == Wanted(throttle, read, s.config.supported)
    requires Fits(s.config.supported, want) && Stored(s.config.advertise, want) == want
    ensures ThrottleFromOk(s, read, true, throttle, speed, duplex)
    ensures StepsTo(b, s, ThrottleFrom(b, s, read, true, throttle, speed, duplex), want)
  {
    var cmd := Back(s.config, read, true, throttle, speed, duplex);
    RequestSteps(b, s, cmd);
  }

  lemma {:induction false} RequestSteps(b: Board, s: Phy, cmd: Cmd)
    requires Ready(b, s) && cmd.autoneg == 1 && Accepts(s.config, cmd)
    ensures StepsTo(b, s, Apply(b, s, SetSettings(cmd)), Stored(s.config.advertise, cmd.advertising))
  {
    var c := Requested(s.config, cmd);
    RequestWithin(s.config, cmd);
    ConfigureInStep(b, s, c);
    SetConfigMirrors(b.variant, b.gbit, c, s.regs);
  }

  lemma {:induction false} ThrottleSteps(b: Board, s: Phy, speed: nat, duplex: nat)
    requires Ready(b, s) && Requestable(s.config.supported, s.config.advertise) && HasGigabit(s.config.advertise)
    ensures StepsTo(b, s, Throttle(b, s, true, speed, duplex), Slow(s.config.advertise))
  {
    ReadyReads(b, s, true, speed, duplex);
    SlowFits(s.config.supported, s.config.advertise);
    SlowFacts(s.config.advertise);
    FromSteps(b, s, Visible(true, s.config.advertise), true, speed, duplex, Slow(s.config.advertise));
  }

  lemma {:induction false} NothingToDrop(b: Board, s: Phy, speed: nat, duplex: nat)
    requires Ready(b, s) && !HasGigabit(s.config.advertise)
    ensures Throttle(b, s, true, speed, duplex) == s && ThrottleOk(b, s, true, speed, duplex)
  {
    ReadyReads(b, s, true, speed, duplex);
    SlowFacts(s.config.advertise);
  }

  /** Throttling again changes nothing, not even the registers, and has the outcome of the first time. */
  lemma {:induction false} ThrottleTwice(b: Board, s: Phy, speed: nat, duplex: nat)
    requires Ready(b, s)
    ensures
      var s' := Throttle(b, s, true, speed, duplex);
      && Throttle(b, s', true, speed, duplex) == s'
      && ThrottleOk(b, s', true, speed, duplex) == ThrottleOk(b, s, true, speed, duplex)
  {
    ThrottleSucceeds(b, s, speed, duplex);
    if !HasGigabit(s.config.advertise) {
      NothingToDrop(b, s, speed, duplex);
    } else if Requestable(s.config.supported, s.config.advertise) {
      ThrottleSteps(b, s, speed, duplex);
      SlowFacts(s.config.advertise);
      NothingToDrop(b, Throttle(b, s, true, speed, duplex), speed, duplex);
    } else {
      ThrottleChangesNothing(b, s, true, speed, duplex);
    }
  }

  /** Where TP, Autoneg or a pause bit does not get through, the throttle leaves everything as it is. */
  lemma {:induction false} ThrottleChangesNothing(b: Board, s: Phy, throttle: bool, speed: nat, duplex: nat)
    requires Ready(b, s) && !Requestable(s.config.supported, s.config.advertise)
    ensures Throttle(b, s, throttle, speed, duplex) == s
  {
    ReadyReads(b, s, throttle, speed, duplex);
    SlowFits(s.config.supported, s.config.advertise);
    FullFits(s.config.supported, s.config.advertise);
    OffWants(s.config.supported, s.config.advertise);
  }

  // ---- on and off again ---------------------------------------------------------------------

  /** What unthrottling asks for: the readable part of the mask, with the supported gigabit modes. */
  function Full(supported: bv32, m: bv32): bv32 {
    Slow(m) | (supported & GBIT_MODES)
  }

  lemma {:induction false} OffWants(supported: bv32, m: bv32)
    ensures Wanted(false, Visible(true, m), supported) == Full(supported, m)
  {
  }

  lemma {:induction false} FullFits(supported: bv32, m: bv32)
    requires Covers(supported, m)
    ensures Fits(supported, Full(supported, m)) <==> Requestable(supported, m)
  {
  }

  lemma {:induction false} FullStored(supported: bv32, m: bv32)
    ensures Stored(m, Full(supported, m)) == Full(supported, m)
  {
  }

  lemma {:induction false} FullDiffers(supported: bv32, m: bv32)
    requires !HasGigabit(m)
    ensures Full(supported, m) == Visible(true, m) <==> supported & GBIT_MODES == 0
  {
  }

  lemma {:induction false} FullIsMask(supported: bv32, m: bv32)
    ensures Full(supported, m) == m <==> m & GBIT_MODES == supported & GBIT_MODES && ReadableBut1000Half(m)
  {
  }

  lemma {:induction false} FullParts(supported: bv32, m: bv32)
    ensures FastPart(Full(supported, m)) == FastPart(m)
    ensures HasGigabit(Full(supported, m)) <==> HasGigabit(supported)
  {
  }

  lemma {:induction false} SlowRequestable(supported: bv32, m: bv32)
    ensures Requestable(supported, Slow(m)) <==> Requestable(supported, m)
  {
  }

  lemma {:induction false} NoGigabitCovered(supported: bv32, m: bv32)
    requires Covers(supported, m) && supported & GBIT_MODES == 0
    ensures m & GBIT_MODES == 0 && !HasGigabit(m) && !HasGigabit(supported)
  {
  }

  /** The part of a mode mask that AUTONEG_ADV carries. */
  function FastPart(m: bv32): bv32 {
    m & (FAST_MODES | PAUSE_BITS)
  }

  lemma {:induction false} SameAdv(m: bv32, m': bv32, x: bv16, y: bv16)
    requires x & 0xF01F == y & 0xF01F && FastPart(m) == FastPart(m') && AdvMirrors(m, x) && AdvMirrors(m', y)
    ensures x == y
  {
  }

  lemma {:induction false} SameGigabit(x: bv16, y: bv16, full: bool, full': bool)
    requires x & 0xFCFF == y & 0xFCFF && GigabitMirrors(full, x) && GigabitMirrors(full', y)
    ensures full == full' <==> y == x
    ensures !full' ==> y == x & !GCTRL_FD
  {
  }

  /** AUTONEG_ADV unchanged; MASTER_SLAVE_CTRL differs in the gigabit bit at most. */
  predicate RegsStep(r: Regs, r': Regs, full: bool, full': bool) {
    && r'.adv == r.adv && r'.gctrl & 0xFCFF == r.gctrl & 0xFCFF
    && GigabitMirrors(full, r.gctrl) && GigabitMirrors(full', r'.gctrl)
  }

  /** Masks that agree below 1000 Mbit/s. */
  lemma {:induction false} StepRegs(b: Board, s: Phy, s': Phy, want: bv32)
    requires Ready(b, s) && StepsTo(b, s, s', want) && FastPart(want) == FastPart(s.config.advertise)
    ensures RegsStep(s.regs, s'.regs, HasGigabit(s.config.advertise), HasGigabit(want))
  {
    SameAdv(s.config.advertise, want, s.regs.adv, s'.regs.adv);
  }

  predicate DropsGigabit(r: Regs, r': Regs) {
    r'.adv == r.adv && r'.gctrl == r.gctrl & !GCTRL_FD
  }

  lemma {:induction false} DropRegs(r: Regs, r': Regs)
    requires RegsStep(r, r', true, false)
    ensures DropsGigabit(r, r')
  {
    SameGigabit(r.gctrl, r'.gctrl, true, false);
  }

  lemma {:induction false} BackRegs(r: Regs, r': Regs, r'': Regs, full: bool, full'': bool)
    requires RegsStep(r, r', full, false) && RegsStep(r', r'', false, full'')
    ensures r''.adv == r.adv && (r''.gctrl == r.gctrl <==> full == full'')
  {
    SameGigabit(r.gctrl, r''.gctrl, full, full'');
  }

  lemma {:induction false} SlowParts(adv: bv32)
    ensures FastPart(Slow(adv)) == FastPart(adv) && FastPart(Visible(true, adv)) == FastPart(adv)
    ensures FastPart(Visible(true, adv)) == FastPart(Slow(adv))
    ensures HasGigabit(adv) ==> HasGigabit(Visible(true, adv))
  {
  }

  predicate OnlyGigabitGone(m: bv32, m': bv32) {
    m' == m & !GBIT_MODES
  }

  predicate ReadableBut1000Half(m: bv32) {
    Readable(true, m & !M1000_HALF)
  }

  lemma {:induction false} SlowIsDrop(adv: bv32)
    requires HasGigabit(adv)
    ensures OnlyGigabitGone(adv, Slow(adv)) <==> ReadableBut1000Half(adv)
  {
  }

  lemma {:induction false} SlowRegs(b: Board, s: Phy, on: Phy)
    requires Ready(b, s) && HasGigabit(s.config.advertise) && StepsTo(b, s, on, Slow(s.config.advertise))
    ensures RegsStep(s.regs, on.regs, true, false)
  {
    SlowParts(s.config.advertise);
    SlowFacts(s.config.advertise);
    StepRegs(b, s, on, Slow(s.config.advertise));
  }

  /** Throttling drops the gigabit modes from config.advertise and nothing else, if and only if the
      mask is readable apart from them; the registers lose exactly the gigabit advertisement. */
  lemma {:induction false} ThrottleDropsGigabit(b: Board, s: Phy, speed: nat, duplex: nat)
    requires Ready(b, s) && Requestable(s.config.supported, s.config.advertise) && HasGigabit(s.config.advertise)
    ensures Throttle(b, s, true, speed, duplex).config == s.config.(advertise := Slow(s.config.advertise))
    ensures OnlyGigabitGone(s.config.advertise, Throttle(b, s, true, speed, duplex).config.advertise) <==>
            ReadableBut1000Half(s.config.advertise)
    ensures DropsGigabit(s.regs, Throttle(b, s, true, speed, duplex).regs)
  {
    ThrottleSteps(b, s, speed, duplex);
    SlowRegs(b, s, Throttle(b, s, true, speed, duplex));
    DropRegs(s.regs, Throttle(b, s, true, speed, duplex).regs);
    SlowIsDrop(s.config.advertise);
  }

  /** A throttled PHY, reached from s: no gigabit, and all else as it can be read. */
  predicate ThrottledFrom(b: Board, s: Phy, on: Phy) {
    && Ready(b, on) && !HasGigabit(on.config.advertise)
    && on.config == s.config.(advertise := on.config.advertise)
    && Slow(on.config.advertise) == Slow(s.config.advertise)
    && FastPart(on.config.advertise) == FastPart(s.config.advertise)
    && Requestable(on.config.supported, on.config.advertise)
    && RegsStep(s.regs, on.regs, HasGigabit(s.config.advertise), false)
  }

  lemma {:induction false} ThrottleReaches(b: Board, s: Phy, speed: nat, duplex: nat)
    requires Ready(b, s) && Requestable(s.config.supported, s.config.advertise)
    ensures ThrottledFrom(b, s, Throttle(b, s, true, speed, duplex))
    ensures !HasGigabit(s.config.advertise) ==> Throttle(b, s, true, speed, duplex) == s
  {
    if HasGigabit(s.config.advertise) {
      ThrottleSteps(b, s, speed, duplex);
      SlowFacts(s.config.advertise);
      SlowParts(s.config.advertise);
      SlowRequestable(s.config.supported, s.config.advertise);
      SlowRegs(b, s, Throttle(b, s, true, speed, duplex));
    } else {
      NothingToDrop(b, s, speed, duplex);
    }
  }

  /** Unthrottling a throttled PHY. */
  lemma {:induction false} UnthrottleSteps(b: Board, s: Phy, on: Phy, speed: nat, duplex: nat)
    requires ThrottledFrom(b, s, on) && s.config.supported & GBIT_MODES != 0
    ensures ThrottleOk(b, on, false, speed, duplex)
    ensures StepsTo(b, on, Throttle(b, on, false, speed, duplex), Full(s.config.supported, s.config.advertise))
  {
    var supported, m := on.config.supported, on.config.advertise;
    ReadyReads(b, on, false, speed, duplex);
    OffWants(supported, m);
    FullFits(supported, m);
    FullStored(supported, m);
    FullDiffers(supported, m);
    FromSteps(b, on, Visible(true, m), false, speed, duplex, Full(supported, m));
  }

  lemma {:induction false} NothingToRestore(b: Board, s: Phy, speed: nat, duplex: nat)
    requires Ready(b, s) && s.config.supported & GBIT_MODES == 0
    ensures Throttle(b, s, false, speed, duplex) == s && ThrottleOk(b, s, false, speed, duplex)
    ensures !HasGigabit(s.config.advertise)
  {
    NoGigabitCovered(s.config.supported, s.config.advertise);
    ReadyReads(b, s, false, speed, duplex);
    OffWants(s.config.supported, s.config.advertise);
    FullDiffers(s.config.supported, s.config.advertise);
  }

  /** The mask that throttling on and off leaves. */
  function Returned(supported: bv32, advertise: bv32): bv32 {
    if !Requestable(supported, advertise) || supported & GBIT_MODES == 0 then advertise
    else Full(supported, advertise)
  }

  /** Exactly when that is the mask of before. */
  predicate Returns(supported: bv32, advertise: bv32) {
    || !Requestable(supported, advertise)
    || (advertise & GBIT_MODES == supported & GBIT_MODES &&
        (supported & GBIT_MODES == 0 || ReadableBut1000Half(advertise)))
  }

  lemma {:induction false} ReturnedIff(supported: bv32, advertise: bv32)
    requires Covers(supported, advertise)
    ensures Returned(supported, advertise) == advertise <==> Returns(supported, advertise)
  {
    FullIsMask(supported, advertise);
    if supported & GBIT_MODES == 0 {
      NoGigabitCovered(supported, advertise);
    }
  }

  predicate GctrlReturns(supported: bv32, advertise: bv32) {
    Requestable(supported, advertise) && HasGigabit(supported) ==> HasGigabit(advertise)
  }

  /** Throttle on, then off, for every ready PHY: the mask is left with the gigabit modes the board
      supports and otherwise as the registers can carry it. So the configuration is restored exactly if
      the PHY advertised just the gigabit modes supported, in a mask readable apart from 1000-half - or
      if there is no gigabit to restore, or the requests are refused. AUTONEG_ADV always is restored;
      the gigabit advertisement is unless the PHY supported 1000-full and did not advertise it. */
  lemma {:induction false} ThrottleRoundTrip(b: Board, s: Phy, speed: nat, duplex: nat)
    requires Ready(b, s)
    ensures
      var c, on := s.config, Throttle(b, s, true, speed, duplex);
      var off := Throttle(b, on, false, speed, duplex);
      && off.config == c.(advertise := Returned(c.supported, c.advertise))
      && (off.config == c <==> Returns(c.supported, c.advertise))
      && off.regs.adv == s.regs.adv
      && (off.regs.gctrl == s.regs.gctrl <==> GctrlReturns(c.supported, c.advertise))
      && (Requestable(c.supported, c.advertise) ==>
            ThrottleOk(b, s, true, speed, duplex) && ThrottleOk(b, on, false, speed, duplex))
  {
    var c := s.config;
    var on := Throttle(b, s, true, speed, duplex);
    ReturnedIff(c.supported, c.advertise);
    ThrottleSucceeds(b, s, speed, duplex);
    if !Requestable(c.supported, c.advertise) {
      ThrottleChangesNothing(b, s, true, speed, duplex);
      ThrottleChangesNothing(b, s, false, speed, duplex);
    } else if c.supported & GBIT_MODES == 0 {
      NothingToRestore(b, s, speed, duplex);
      NothingToDrop(b, s, speed, duplex);
      NoGigabitCovered(c.supported, c.advertise);
    } else {
      ThrottleReaches(b, s, speed, duplex);
      UnthrottleSteps(b, s, on, speed, duplex);
      UnthrottleRegs(b, s, on, Throttle(b, on, false, speed, duplex));
    }
  }

  lemma {:induction false} UnthrottleRegs(b: Board, s: Phy, on: Phy, off: Phy)
    requires Ready(b, s) && Requestable(s.config.supported, s.config.advertise)
    requires ThrottledFrom(b, s, on) && StepsTo(b, on, off, Full(s.config.supported, s.config.advertise))
    ensures off.regs.adv == s.regs.adv
    ensures off.regs.gctrl == s.regs.gctrl <==> GctrlReturns(s.config.supported, s.config.advertise)
  {
    var supported, adv := s.config.supported, s.config.advertise;
    FullParts(supported, adv);
    StepRegs(b, on, off, Full(supported, adv));
    BackRegs(s.regs, on.regs, off.regs, HasGigabit(adv), HasGigabit(supported));
    CoveredGigabit(supported, adv);
  }

  lemma {:induction false} CoveredGigabit(supported: bv32, adv: bv32)
    requires Covers(supported, adv)
    ensures HasGigabit(adv) ==> HasGigabit(supported)
  {
  }

  // ---- gigabit the user had turned off ------------------------------------------------------

  // A gigabit board with the default mode mask.
  const PLAIN := Board(Ar803x, false, true, NoModes, false, false, false, false)

  /** Power-up, and a request for 100 Mbit/s full duplex alone. */
  function SlowedDown(after: Regs, setup: Reset, speed: nat, duplex: nat): seq<Op> {
    [PowerUp(after, setup), SetSettings(Cmd(0xEF, 0xC8, 1, speed, duplex))]
  }

  lemma {:induction false} PlainModes()
    ensures SetupConfig(PLAIN).advertise == SetupConfig(PLAIN).supported == 0xEF
    ensures SetupConfig(PLAIN).port.PortTp? && SetupConfig(PLAIN).autoneg
  {
    assert TP | AUTONEG | FAST_MODES | M1000_FULL == 0xEF;
    assert 0xEF & FIBRE == 0 && 0xEF & AUTONEG != 0;
    assert BoardModes(PLAIN) == 0xEF && Calc(PLAIN, BoardPause(PLAIN)) == 0;
  }

  lemma {:induction false} SlowRequest()
    ensures Fits(0xEF, 0xC8) && Stored(0xEF, 0xC8) == 0xC8
    ensures Readable(true, 0xC8) && Requestable(0xEF, 0xC8) && !HasGigabit(0xC8) && HasGigabit(0xEF)
    ensures !Returns(0xEF, 0xC8) && Returned(0xEF, 0xC8) == 0xC8 | M1000_FULL
  {
  }

  /** On that board throttling on and off turns on the gigabit advertisement that the user had turned
      off, in configuration and registers, though the mask is readable. */
  lemma {:induction false} ThrottleTurnsGigabitOn(left: Regs, after: Regs, setup: Reset, speed: nat, duplex: nat)
    ensures
      var s := Run(PLAIN, left, SlowedDown(after, setup, speed, duplex));
      var off := Throttle(PLAIN, Throttle(PLAIN, s, true, speed, duplex), false, speed, duplex);
      && s.config.advertise == 0xC8 && Readable(true, s.config.advertise) && Ready(PLAIN, s)
      && off.config.advertise == 0xC8 | M1000_FULL && off.regs.gctrl != s.regs.gctrl
  {
    var ops := SlowedDown(after, setup, speed, duplex);
    assert ops[..1] == [PowerUp(after, setup)];
    PlainModes();
    SlowRequest();
    ReadyAfterPowerUp(PLAIN, left, after, setup);
    var up := Run(PLAIN, left, ops[..1]);
    RequestSteps(PLAIN, up, ops[1].cmd);
    ThrottleRoundTrip(PLAIN, Run(PLAIN, left, ops), speed, duplex);
  }

  // ---- a board that cannot be throttled -----------------------------------------------------

  // A gigabit board whose mode mask lacks TP.
  const NO_TP := Board(Ar803x, false, true, Modes(0x6F), false, false, false, false)

  lemma {:induction false} NoTpModes()
    ensures SetupConfig(NO_TP).advertise == SetupConfig(NO_TP).supported == 0x6F
    ensures SetupConfig(NO_TP).port.PortTp? && SetupConfig(NO_TP).autoneg
  {
    assert 0x6F & M1000_FULL != 0 && 0x6F & FIBRE == 0 && 0x6F & AUTONEG != 0;
    assert BoardModes(NO_TP) == 0x6F && Calc(NO_TP, BoardPause(NO_TP)) == 0;
  }

  /** On that board throttling a powered PHY is refused. */
  lemma {:induction false} ThrottleRefused(left: Regs, after: Regs, setup: Reset, speed: nat, duplex: nat)
    ensures !ThrottleOk(NO_TP, Run(NO_TP, left, [PowerUp(after, setup)]), true, speed, duplex)
  {
    var s := Run(NO_TP, left, [PowerUp(after, setup)]);
    NoTpModes();
    ReadyAfterPowerUp(NO_TP, left, after, setup);
    NotRequestable();
    ThrottleSucceeds(NO_TP, s, speed, duplex);
  }

  lemma {:induction false} NotRequestable()
    ensures HasGigabit(0x6F) && !Requestable(0x6F, 0x6F)
  {
    assert 0x6F & (TP | AUTONEG) != TP | AUTONEG;
  }
}
