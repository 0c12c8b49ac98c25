/**
 From a request to its effect: what set-up, set_settings and set_pauseparam make of what the board or
 the user asked for, down to the bits in the registers and the pause directions on the wire.
 */
module PhyRequests {
  import opened PhyConfig
  import opened PhyModel
  import opened PhyRuns

  // ---- set-up -------------------------------------------------------------------------------

  /** A mode mask without its pause bits. */
  function ModesOf(m: bv32): bv32 {
    m & 0xFFFF9FFF
  }

  lemma {:induction false} CalcValues(b: Board, setup: PauseSetup)
    ensures Calc(b, setup) == 0 || Calc(b, setup) == 0x2000 || Calc(b, setup) == 0x4000 || Calc(b, setup) == 0x6000
  {
  }

  /** Without a mode mask of the board: all 10 and 100 Mbit/s modes, TP and Autoneg, and 1000-full on a
      gigabit PHY, besides the pause bits. */
  lemma {:induction false} DefaultModes(b: Board)
    requires b.modeConf.NoModes?
    ensures ModesOf(SetupConfig(b).supported) == if b.gbit then 0xEF else 0xCF
  {
    CalcValues(b, BoardPause(b));
    DefaultMask(b);
    PauseApart(BoardModes(b), Calc(b, BoardPause(b)));
  }

  lemma {:induction false} DefaultMask(b: Board)
    requires b.modeConf.NoModes?
    ensures ModesOf(BoardModes(b)) == if b.gbit then 0xEF else 0xCF
  {
  }

  lemma {:induction false} PauseApart(m: bv32, p: bv32)
    requires p == 0 || p == 0x2000 || p == 0x4000 || p == 0x6000
    ensures ModesOf(m | p) == ModesOf(m)
  {
    if p == 0 {
      NoneApart(m);
    } else if p == 0x2000 {
      SymApart(m);
    } else if p == 0x4000 {
      AsymApart(m);
    } else {
      BothApart(m);
    }
  }

  lemma {:induction false} NoneApart(m: bv32)
    ensures (m | 0) & 0xFFFF9FFF == m & 0xFFFF9FFF
  {
  }

  lemma {:induction false} SymApart(m: bv32)
    ensures (m | 0x2000) & 0xFFFF9FFF == m & 0xFFFF9FFF
  {
  }

  lemma {:induction false} AsymApart(m: bv32)
    ensures (m | 0x4000) & 0xFFFF9FFF == m & 0xFFFF9FFF
  {
  }

  lemma {:induction false} BothApart(m: bv32)
    ensures (m | 0x6000) & 0xFFFF9FFF == m & 0xFFFF9FFF
  {
  }

  /** What a board's mask comes to: the mask, without the gigabit modes if it has 1000-full and the PHY is
      not gigabit. */
  function Narrowed(m: bv32, gbit: bool): bv32 {
    if m & 0x20 != 0 && !gbit then m & !0x30 else m
  }

  lemma {:induction false} GivenMask(b: Board)
    requires b.modeConf.Modes?
    ensures BoardModes(b) == Narrowed(b.modeConf.mask, b.gbit)
  {
  }

  lemma {:induction false} GivenModes(b: Board)
    requires b.modeConf.Modes?
    ensures ModesOf(SetupConfig(b).supported) == ModesOf(Narrowed(b.modeConf.mask, b.gbit))
  {
    CalcValues(b, BoardPause(b));
    GivenMask(b);
    PauseApart(BoardModes(b), Calc(b, BoardPause(b)));
  }

  /** Everything supported is advertised, at the highest speed with a full-duplex mode at 1000 Mbit/s or
      any mode at 100; half duplex unless autonegotiation settles it; a fibre port only on the AR803x. */
  lemma {:induction false} SetupChoices(b: Board)
    ensures
      var c := SetupConfig(b);
      && c.advertise == c.supported && (c.autoneg <==> c.supported & 0x40 != 0) && c.duplex == 0
      && (c.speed == 1000 <==> c.supported & 0x20 != 0)
      && (c.speed == 100 <==> c.supported & 0x20 == 0 && c.supported & 0xC != 0)
      && (c.speed == 10 <==> c.supported & 0x2C == 0)
      && (c.port.PortFibre? <==> b.variant.Ar803x? && c.supported & 0x400 != 0)
  {
    SpeedModes(SetupConfig(b).supported);
  }

  lemma {:induction false} SpeedModes(m: bv32)
    ensures m & 0x2C == 0 <==> m & 0x20 == 0 && m & 0xC == 0
    ensures m & (M100_FULL | M100_HALF) == m & 0xC
  {
  }

  // ---- forced settings ----------------------------------------------------------------------

  /** The mode bit of a forced speed: any duplex but full counts as half. */
  function ForcedMode(speed: nat, duplex: nat): bv32 {
    if speed == 10 then (if duplex == 1 then 0x2 else 0x1)
    else if speed == 100 then (if duplex == 1 then 0x8 else 0x4)
    else (if duplex == 1 then 0x20 else 0x10)
  }

  predicate Inside(supported: bv32, modes: bv32) {
    modes & !supported == 0
  }

  lemma {:induction false} FitsInside(s: bv32, m: bv32)
    ensures Fits(s, m) <==> Inside(s, m)
  {
    Parts(s, m);
    if Inside(s, m) {
      NoRest(s & m);
    }
  }

  lemma {:induction false} Parts(s: bv32, m: bv32)
    ensures m == (s & m) | (m & !s)
    ensures (s & m) & !s == 0
  {
  }

  lemma {:induction false} NoRest(x: bv32)
    ensures x | 0 == x
  {
  }

  /** Requests for autonegotiation are accepted if all modes asked for are supported. */
  lemma {:induction false} AcceptedAutoneg(c: Config, cmd: Cmd)
    requires cmd.autoneg != 0
    ensures Accepts(c, cmd) <==> Inside(c.supported, cmd.advertising)
  {
    FitsInside(c.supported, cmd.advertising);
  }

  predicate Meets(supported: bv32, mode: bv32) {
    supported & mode != 0
  }

  lemma {:induction false} OneBit(s: bv32, bit: bv32)
    requires bit == 0x1 || bit == 0x2 || bit == 0x4 || bit == 0x8 || bit == 0x10 || bit == 0x20
    ensures Fits(s, bit) <==> Meets(s, bit)
  {
    if bit == 0x1 {
    } else if bit == 0x2 {
    } else if bit == 0x4 {
    } else if bit == 0x8 {
    } else if bit == 0x10 {
    } else {
    }
  }

  predicate KnownSpeed(speed: nat) {
    speed == 10 || speed == 100 || speed == 1000
  }

  lemma {:induction false} ForcedRequest(cmd: Cmd)
    requires cmd.autoneg == 0
    ensures RequestedModes(cmd) == if KnownSpeed(cmd.speed) then Modes(ForcedMode(cmd.speed, cmd.duplex)) else NoModes
  {
  }

  /** Forced requests are accepted at 10, 100 or 1000 Mbit/s if the one mode is supported. */
  lemma {:induction false} AcceptedForced(c: Config, cmd: Cmd)
    requires cmd.autoneg == 0
    ensures Accepts(c, cmd) <==> KnownSpeed(cmd.speed) && Meets(c.supported, ForcedMode(cmd.speed, cmd.duplex))
  {
    ForcedRequest(cmd);
    OneBit(c.supported, ForcedMode(cmd.speed, cmd.duplex));
  }

  /** Set, then get, of an accepted request that does not enable autonegotiation: speed and duplex are those
      asked for, the rest of the configuration stays, CONTROL selects them with autonegotiation off, and
      a powered PHY reads back no autonegotiation and no modes. */
  lemma {:induction false} SetThenGetForced(b: Board, s: Phy, cmd: Cmd)
    requires cmd.autoneg != 1 && Accepts(s.config, cmd)
    ensures
      var s' := Apply(b, s, SetSettings(cmd));
      && !s'.config.autoneg && s'.config.speed == cmd.speed && s'.config.duplex == cmd.duplex
      && s'.config.advertise == s.config.advertise && s'.config.supported == s.config.supported
      && s'.config.port == s.config.port && s'.config.pause == s.config.pause && s'.powerdown == s.powerdown
      && ModeSays(b.variant, false, cmd.duplex, s'.regs.control) && SpeedSays(b.gbit, cmd.speed, s'.regs.control)
      && !(s'.regs.control & 0x0200 != 0)
      && (!s.powerdown ==> !ReadAutoneg(s') && ReadModes(b, s') == 0)
  {
    SetConfigMirrors(b.variant, b.gbit, Requested(s.config, cmd), s.regs);
  }

  /** The mode that CONTROL forces: speed by bits 13 and 6, full duplex by bit 8. */
  function ControlMode(control: bv16): bv32 {
    ForcedMode(if control & 0x0040 != 0 then 1000 else if control & 0x2000 != 0 then 100 else 10,
               if control & 0x0100 != 0 then 1 else 0)
  }

  /** The mode forced is the one that was checked, exactly for the duplex values 0 and 1 and, at 1000
      Mbit/s, on a gigabit PHY. Any other duplex value is checked as half duplex and forces full. */
  lemma {:induction false} ForcedIsChecked(b: Board, s: Phy, cmd: Cmd)
    requires cmd.autoneg == 0 && Accepts(s.config, cmd)
    ensures ControlMode(Apply(b, s, SetSettings(cmd)).regs.control) == ForcedMode(cmd.speed, cmd.duplex) <==>
            cmd.duplex <= 1 && (cmd.speed == 1000 ==> b.gbit)
  {
    SetThenGetForced(b, s, cmd);
    AcceptedForced(s.config, cmd);
  }

  // ---- pause --------------------------------------------------------------------------------

  /** Receive and transmit pause as asked for. */
  datatype Wish = Wish(rx: bool, tx: bool)

  /** The directions to expect: with asymmetric pause both kinds of single direction are possible, with
      symmetric pause both directions or none. */
  function Expected(b: Board, w: Wish, partner: bv32): FlowControl {
    var lp, la := partner & 0x2000 != 0, partner & 0x4000 != 0;
    FlowControl(
      (b.macAsym && w.rx && (lp || la)) || (!b.macAsym && b.macSym && w.rx && w.tx && lp),
      (b.macAsym && w.tx && !w.rx && lp && la) || ((b.macAsym || b.macSym) && w.rx && w.tx && lp))
  }

  /** What Table 28B-3 resolves from the advertised bits, less transmit pause in rx-only mode. */
  function Resolved(c: Config, partner: bv32): FlowControl {
    var fc := ResolvePause(c.advertise, partner);
    FlowControl(fc.rx, fc.tx && !c.pause.PauseRx?)
  }

  lemma {:induction false} SameBitsResolve(local: bv32, bits: bv32, partner: bv32)
    requires local & PAUSE_BITS == bits & PAUSE_BITS
    ensures ResolvePause(local, partner) == ResolvePause(bits, partner)
  {
    assert local & PAUSE == bits & PAUSE && local & ASYM_PAUSE == bits & ASYM_PAUSE;
  }

  lemma {:induction false} OnlyPause(p: bv32)
    requires p & !PAUSE_BITS == 0
    ensures p & PAUSE_BITS == p
  {
  }

  lemma {:induction false} SetupResolves(b: Board, c: Config, partner: bv32)
    requires PauseInStep(b, c)
    ensures
      var fc := ResolvePause(Calc(b, c.pause), partner);
      Resolved(c, partner) == FlowControl(fc.rx, fc.tx && !c.pause.PauseRx?)
  {
    CalcIsPause(b, c.pause);
    OnlyPause(Calc(b, c.pause));
    SameBitsResolve(c.advertise, Calc(b, c.pause), partner);
  }

  lemma {:induction false} RequestResolves(b: Board, w: Wish, partner: bv32)
    ensures
      var setup := RequestedPause(b, w.rx, w.tx);
      var fc := ResolvePause(Calc(b, setup), partner);
      FlowControl(fc.rx, fc.tx && !setup.PauseRx?) == Expected(b, w, partner)
  {
    PauseResolves(b.macSym, b.macAsym, RequestedPause(b, w.rx, w.tx), partner);
  }

  lemma {:induction false} BoardResolves(b: Board, partner: bv32)
    ensures
      var setup := BoardPause(b);
      var fc := ResolvePause(Calc(b, setup), partner);
      FlowControl(fc.rx, fc.tx && !setup.PauseRx?) == Expected(b, Wish(b.fcRx, b.fcTx), partner)
  {
    PauseResolves(b.macSym, b.macAsym, BoardPause(b), partner);
  }

  predicate Receives(setup: PauseSetup) {
    setup.PauseRx? || setup.PauseRxTx?
  }

  predicate Sends(setup: PauseSetup) {
    setup.PauseTx? || setup.PauseRxTx?
  }

  /** The set-up stored: single directions need a MAC with asymmetric pause, both together one with some
      pause. The board's own is what its tables say. */
  lemma {:induction false} SetupMeans(b: Board, rx: bool, tx: bool)
    ensures Receives(RequestedPause(b, rx, tx)) <==> rx && (b.macAsym || (b.macSym && tx))
    ensures Sends(RequestedPause(b, rx, tx)) <==> tx && (b.macAsym || (b.macSym && rx))
    ensures (Receives(BoardPause(b)) <==> b.fcRx) && (Sends(BoardPause(b)) <==> b.fcTx)
  {
  }

  function NextWish(w: Wish, op: Op): Wish {
    if op.SetPause? && op.autoneg then Wish(op.rx, op.tx) else w
  }

  /** What was asked for last: by the last pause request with autonegotiation, or by the board. */
  function LastWish(b: Board, ops: seq<Op>): Wish {
    if ops == [] then Wish(b.fcRx, b.fcTx) else NextWish(LastWish(b, ops[..|ops| - 1]), ops[|ops| - 1])
  }

  lemma {:induction false} PauseUntouched(b: Board, s: Phy, op: Op)
    requires PauseInStep(b, s.config) && !(op.SetPause? && op.autoneg)
    ensures Apply(b, s, op).config.pause == s.config.pause
  {
  }

  lemma {:induction false} SamePauseResolves(b: Board, c: Config, c': Config, partner: bv32)
    requires PauseInStep(b, c) && PauseInStep(b, c') && c.pause == c'.pause
    ensures Resolved(c, partner) == Resolved(c', partner)
  {
    SetupResolves(b, c, partner);
    SetupResolves(b, c', partner);
  }

  lemma {:induction false} PauseRequested(b: Board, s: Phy, w: Wish)
    ensures Apply(b, s, SetPause(true, w.rx, w.tx)).config.pause == RequestedPause(b, w.rx, w.tx)
  {
    ConfigureKeeps(b, s, WithPause(b, s.config, RequestedPause(b, w.rx, w.tx)));
  }

  /** The directions that resolve with this partner are those to expect from the wish. */
  predicate Granted(b: Board, c: Config, w: Wish, partner: bv32) {
    Resolved(c, partner) == Expected(b, w, partner)
  }

  lemma {:induction false} BoardGranted(b: Board, c: Config, partner: bv32)
    requires PauseInStep(b, c) && c.pause == BoardPause(b)
    ensures Granted(b, c, Wish(b.fcRx, b.fcTx), partner)
  {
    SetupResolves(b, c, partner);
    BoardResolves(b, partner);
  }

  lemma {:induction false} RequestGranted(b: Board, c: Config, w: Wish, partner: bv32)
    requires PauseInStep(b, c) && c.pause == RequestedPause(b, w.rx, w.tx)
    ensures Granted(b, c, w, partner)
  {
    SetupResolves(b, c, partner);
    RequestResolves(b, w, partner);
  }

  lemma {:induction false} GrantedStep(b: Board, s: Phy, op: Op, w: Wish, partner: bv32)
    requires PauseInStep(b, s.config) && Granted(b, s.config, w, partner)
    ensures Granted(b, Apply(b, s, op).config, NextWish(w, op), partner)
  {
    ApplyPause(b, s, op);
    if op.SetPause? && op.autoneg {
      PauseRequested(b, s, Wish(op.rx, op.tx));
      RequestGranted(b, Apply(b, s, op).config, Wish(op.rx, op.tx), partner);
    } else {
      PauseUntouched(b, s, op);
      SamePauseResolves(b, s.config, Apply(b, s, op).config, partner);
    }
  }

  /** At every point of a run the pause directions that resolve, with every partner, are those to expect
      from what was asked for last - on boards whose mode mask brings no pause bits of its own. */
  lemma {:induction false} PauseAsWished(b: Board, left: Regs, ops: seq<Op>, partner: bv32)
    requires NoForeignPause(b)
    ensures Granted(b, Run(b, left, ops).config, LastWish(b, ops), partner)
  {
    if ops == [] {
      PauseStays(b, left, []);
      BoardGranted(b, Run(b, left, []).config, partner);
    } else {
      var n := |ops| - 1;
      PauseStays(b, left, ops[..n]);
      PauseAsWished(b, left, ops[..n], partner);
      GrantedStep(b, Run(b, left, ops[..n]), ops[n], LastWish(b, ops[..n]), partner);
    }
  }

  /** On an asymmetric MAC with a partner that advertises both bits: exactly the directions asked for. */
  lemma {:induction false} FullPartner(b: Board, w: Wish, partner: bv32)
    requires b.macAsym && partner & 0x6000 == 0x6000
    ensures Expected(b, w, partner) == FlowControl(w.rx, w.tx)
  {
    assert partner & 0x2000 != 0 && partner & 0x4000 != 0 by {
      BothBits(partner);
    }
  }

  lemma {:induction false} BothBits(m: bv32)
    requires m & 0x6000 == 0x6000
    ensures m & 0x2000 != 0 && m & 0x4000 != 0
  {
  }

  lemma {:induction false} PauseSwap(adv: bv32, p: bv32)
    requires p == 0 || p == 0x2000 || p == 0x4000 || p == 0x6000
    ensures ModesOf(ReplacePause(adv, p)) == ModesOf(adv)
  {
    PauseApart(adv & !PAUSE_BITS, p);
    WithoutPause(adv);
  }

  lemma {:induction false} WithoutPause(adv: bv32)
    ensures ModesOf(adv & !PAUSE_BITS) == ModesOf(adv)
  {
  }

  lemma {:induction false} WithPauseChanges(b: Board, c: Config, setup: PauseSetup)
    ensures ModesOf(WithPause(b, c, setup).advertise) == ModesOf(c.advertise)
    ensures WithPause(b, c, setup) == c.(advertise := WithPause(b, c, setup).advertise, pause := setup)
  {
    CalcValues(b, setup);
    PauseSwap(c.advertise, Calc(b, setup));
  }

  /** A pause request without autonegotiation succeeds iff it asks for nothing, and changes nothing. */
  lemma {:induction false} ForcedPauseEffect(b: Board, s: Phy, rx: bool, tx: bool)
    ensures Succeeds(b, s, SetPause(false, rx, tx)) <==> !rx && !tx
    ensures Apply(b, s, SetPause(false, rx, tx)) == s
  {
  }

  lemma {:induction false} PauseTakes(b: Board, s: Phy, rx: bool, tx: bool, wish: Config)
    requires wish == WithPause(b, s.config, RequestedPause(b, rx, tx)) && Settled(wish) == wish
    ensures Apply(b, s, SetPause(true, rx, tx)).config == wish
    ensures Succeeds(b, s, SetPause(true, rx, tx)) <==> wish != s.config
  {
  }

  /** With autonegotiation it succeeds iff it changes the configuration, and of that it changes only the
      pause set-up - to the directions asked for, as far as the MAC has them - and the pause bits, on a
      port whose speed set_config has settled. */
  lemma {:induction false} PauseRequestEffect(b: Board, s: Phy, rx: bool, tx: bool)
    requires s.config == Settled(s.config)
    ensures
      var c := Apply(b, s, SetPause(true, rx, tx)).config;
      && (Succeeds(b, s, SetPause(true, rx, tx)) <==> c != s.config)
      && ModesOf(c.advertise) == ModesOf(s.config.advertise)
      && c == s.config.(advertise := c.advertise, pause := c.pause)
      && (Receives(c.pause) <==> rx && (b.macAsym || (b.macSym && tx)))
      && (Sends(c.pause) <==> tx && (b.macAsym || (b.macSym && rx)))
  {
    SetupMeans(b, rx, tx);
    PauseRequested(b, s, Wish(rx, tx));
    var wish := WithPause(b, s.config, RequestedPause(b, rx, tx));
    WithPauseChanges(b, s.config, RequestedPause(b, rx, tx));
    StaysSettled(s.config, wish);
    PauseTakes(b, s, rx, tx, wish);
  }

  lemma {:induction false} StaysSettled(c: Config, c': Config)
    requires c == Settled(c) && c' == c.(advertise := c'.advertise, pause := c'.pause)
    ensures Settled(c') == c'
  {
  }

  // ---- power --------------------------------------------------------------------------------

  /** Whether CONTROL holds the PHY powered down after an operation. */
  predicate OffAfter(b: Board, s: Phy, op: Op, was: bool) {
    match op
    case PowerDown => true
    case PowerUp(_, _) => false
    case SetSettings(cmd) => was && !Accepts(s.config, cmd)
    case SetPause(autoneg, _, _) => was && (!autoneg || PauseRefused(b, s.config, op))
    case Poll(reset) => was && (reset.None? || s.powerdown)
    case RestartDone => was
  }

  /** The last operation that wrote CONTROL was a power-down, or set-up. */
  predicate OffByLast(b: Board, left: Regs, ops: seq<Op>) {
    ops == [] ||
    var n := |ops| - 1;
    OffAfter(b, Run(b, left, ops[..n]), ops[n], OffByLast(b, left, ops[..n]))
  }

  predicate PoweredOff(control: bv16) {
    control & 0x0800 != 0
  }

  lemma {:induction false} OffBits(x: bv16)
    ensures PoweredOff(CTRL_POWERDOWN | CTRL_ISOLATE)
    ensures x & 0xC8BF == 0 ==> !PoweredOff(x)
    ensures PoweredOff(x & !CTRL_RESTART) <==> PoweredOff(x)
  {
  }

  lemma {:induction false} ConfiguredIsOn(b: Board, s: Phy, c: Config)
    ensures !PoweredOff(Configure(b, s, c).regs.control)
  {
    SetConfigMirrors(b.variant, b.gbit, c, s.regs);
    OffBits(Configure(b, s, c).regs.control);
  }

  lemma {:induction false} PowerUpIsOn(b: Board, s: Phy, after: Regs, setup: Reset)
    requires b.rstOnLinkfail ==> setup.configured
    ensures !PoweredOff(Apply(b, s, PowerUp(after, setup)).regs.control)
  {
    ConfiguredIsOn(b, Phy(s.config, after, false), s.config);
    ConfiguredIsOn(b, Phy(s.config, setup.regs, false), s.config);
  }

  lemma {:induction false} PollPower(b: Board, s: Phy, reset: Option<Reset>)
    requires reset.Some? && !s.powerdown ==> reset.value.configured
    ensures PoweredOff(Apply(b, s, Poll(reset)).regs.control) <==>
            (reset.None? || s.powerdown) && PoweredOff(s.regs.control)
  {
    if reset.Some? {
      ConfiguredIsOn(b, s.(regs := reset.value.regs), s.config);
    }
  }

  lemma {:induction false} SettingsPower(b: Board, s: Phy, cmd: Cmd)
    ensures PoweredOff(Apply(b, s, SetSettings(cmd)).regs.control) <==>
            !Accepts(s.config, cmd) && PoweredOff(s.regs.control)
  {
    ConfiguredIsOn(b, s, Requested(s.config, cmd));
  }

  lemma {:induction false} PausePower(b: Board, s: Phy, op: Op)
    requires op.SetPause?
    ensures PoweredOff(Apply(b, s, op).regs.control) <==>
            (!op.autoneg || PauseRefused(b, s.config, op)) && PoweredOff(s.regs.control)
  {
    ConfiguredIsOn(b, s, WithPause(b, s.config, RequestedPause(b, op.rx, op.tx)));
  }

  lemma {:induction false} QuietPower(b: Board, s: Phy)
    ensures PoweredOff(Apply(b, s, PowerDown).regs.control)
    ensures PoweredOff(Apply(b, s, RestartDone).regs.control) <==> PoweredOff(s.regs.control)
  {
    OffBits(s.regs.control);
  }

  /** Power-down writes the power-down and isolate bits and no other. */
  lemma {:induction false} PowerDownWrites(b: Board, s: Phy)
    ensures Apply(b, s, PowerDown) == s.(regs := s.regs.(control := 0x0C00), powerdown := true)
  {
  }

  lemma {:induction false} PowerStep(b: Board, s: Phy, op: Op)
    requires op.PowerUp? && b.rstOnLinkfail ==> op.setup.configured
    requires op.Poll? && op.reset.Some? && !s.powerdown ==> op.reset.value.configured
    ensures PoweredOff(Apply(b, s, op).regs.control) <==> OffAfter(b, s, op, PoweredOff(s.regs.control))
  {
    match op
    case SetSettings(cmd) => SettingsPower(b, s, cmd);
    case SetPause(_, _, _) => PausePower(b, s, op);
    case PowerUp(after, setup) => PowerUpIsOn(b, s, after, setup);
    case Poll(reset) => PollPower(b, s, reset);
    case PowerDown => QuietPower(b, s);
    case RestartDone => QuietPower(b, s);
  }

  /** The power-down bit of CONTROL is set exactly while the last write of it was a power-down: a request
      accepted in between wakes the PHY, though the driver goes on taking it for powered down. */
  lemma {:induction false} PowerBit(b: Board, left: Regs, ops: seq<Op>)
    requires !Stale(b, left, ops)
    ensures PoweredOff(Run(b, left, ops).regs.control) <==> OffByLast(b, left, ops)
  {
    if ops == [] {
      OffBits(0);
    } else {
      var n := |ops| - 1;
      if !Stale(b, left, ops[..n]) {
        PowerBit(b, left, ops[..n]);
      }
      PowerStep(b, Run(b, left, ops[..n]), ops[n]);
    }
  }

  /** Such a request. */
  lemma {:induction false} RequestWakes(b: Board, s: Phy, cmd: Cmd)
    requires s.powerdown && PoweredOff(s.regs.control) && Accepts(s.config, cmd)
    ensures
      var s' := Apply(b, s, SetSettings(cmd));
      s'.powerdown && !PoweredOff(s'.regs.control)
  {
    ConfiguredIsOn(b, s, Requested(s.config, cmd));
  }
}
