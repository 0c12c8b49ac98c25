/**
 The configuration operations of the PHY drivers as steps on (configuration, registers, powerdown):
 setup, ethtool set/get settings, set pause parameters, power-up, power-down, and polls that may
 reset the PHY. A reset scrambles the registers arbitrarily.
 */
module PhyModel {
  import opened PhyConfig

  datatype Option<T> = None | Some(value: T)

  datatype Modes = NoModes | Modes(mask: bv32)

  /** What the board tables and the parent MAC fix for one PHY. */
  datatype Board = Board(variant: Variant, rstOnLinkfail: bool, gbit: bool, modeConf: Modes,
                         macSym: bool, macAsym: bool, fcRx: bool, fcTx: bool)

  datatype Phy = Phy(config: Config, regs: Regs, powerdown: bool)

  /** setup_phy: the registers its reset leaves behind, whether it then got as far as set_config, and
      whether all it does besides succeeded - setting up the interrupt, bringing up SGMII. */
  datatype Reset = Reset(regs: Regs, configured: bool, clean: bool) {
    predicate Succeeds() {
      configured && clean
    }
  }

  /** ethtool_cmd; autoneg is 0 for disable, 1 for enable, and whatever else a caller passes. */
  datatype Cmd = Cmd(supported: bv32, advertising: bv32, autoneg: nat, speed: nat, duplex: nat)

  datatype Op =
    | SetSettings(cmd: Cmd)
    | SetPause(autoneg: bool, rx: bool, tx: bool)
    | PowerUp(after: Regs, setup: Reset)
    | PowerDown
    | Poll(reset: Option<Reset>)
    | RestartDone                      // the PHY clears the self-clearing restart bit

  // ---- setup --------------------------------------------------------------------------------

  function BoardModes(b: Board): bv32 {
    match b.modeConf
    case Modes(m) => if m & M1000_FULL != 0 && !b.gbit then m & !GBIT_MODES else m
    case NoModes => TP | AUTONEG | FAST_MODES | if b.gbit then M1000_FULL else 0
  }

  function BoardPause(b: Board): PauseSetup {
    if b.fcRx then (if b.fcTx then PauseRxTx else PauseRx) else if b.fcTx then PauseTx else PauseNone
  }

  function Calc(b: Board, setup: PauseSetup): bv32 {
    CalcAdvertisePause(b.macSym, b.macAsym, setup)
  }

  function SetupConfig(b: Board): Config {
    ConfigFor(b, BoardModes(b) | Calc(b, BoardPause(b)), BoardPause(b))
  }

  /** Everything supported is advertised, at the fastest supported speed. */
  function ConfigFor(b: Board, supported: bv32, pause: PauseSetup): Config {
    Config(supported, supported, supported & AUTONEG != 0,
           if supported & M1000_FULL != 0 then 1000
           else if supported & (M100_FULL | M100_HALF) != 0 then 100 else 10,
           0, if b.variant.Ar803x? && supported & FIBRE != 0 then PortFibre else PortTp, pause)
  }

  function Configure(b: Board, s: Phy, c: Config): Phy {
    s.(config := Settled(c), regs := Written(b.variant, b.gbit, c, s.regs))
  }

  function PoweredDown(s: Phy): Phy {
    s.(regs := s.regs.(control := CTRL_POWERDOWN | CTRL_ISOLATE), powerdown := true)
  }

  /** Setup resets the PHY, configures it and powers it down; `left` is what the reset leaves. */
  function Setup(b: Board, left: Regs): Phy {
    PoweredDown(Configure(b, Phy(SetupConfig(b), left, false), SetupConfig(b)))
  }

  // ---- ethtool ------------------------------------------------------------------------------

  function RequestedModes(cmd: Cmd): Modes {
    if cmd.autoneg != 0 then Modes(cmd.advertising)
    else if cmd.speed == 10 then Modes(if cmd.duplex == DUPLEX_FULL then M10_FULL else M10_HALF)
    else if cmd.speed == 100 then Modes(if cmd.duplex == DUPLEX_FULL then M100_FULL else M100_HALF)
    else if cmd.speed == 1000 then Modes(if cmd.duplex == DUPLEX_FULL then M1000_FULL else M1000_HALF)
    else NoModes
  }

  predicate Fits(supported: bv32, modes: bv32) {
    supported & modes == modes
  }

  predicate Accepts(c: Config, cmd: Cmd) {
    RequestedModes(cmd).Modes? && Fits(c.supported, RequestedModes(cmd).mask)
  }

  /** Pause advertising is left to set_pauseparam: a request keeps the pause bits advertised so far. */
  function Stored(advertised: bv32, asked: bv32): bv32 {
    (asked & !PAUSE_BITS) | (advertised & PAUSE_BITS)
  }

  function Requested(c: Config, cmd: Cmd): Config {
    if cmd.autoneg == 1 then c.(advertise := Stored(c.advertise, cmd.advertising), autoneg := true)
    else c.(speed := cmd.speed, duplex := cmd.duplex, autoneg := false)
  }

  function RequestedPause(b: Board, rx: bool, tx: bool): PauseSetup {
    if rx && tx then (if b.macSym || b.macAsym then PauseRxTx else PauseNone)
    else if rx && b.macAsym then PauseRx
    else if tx && b.macAsym then PauseTx
    else PauseNone
  }

  function ReplacePause(advertised: bv32, bits: bv32): bv32 {
    (advertised & !PAUSE_BITS) | bits
  }

  function WithPause(b: Board, c: Config, setup: PauseSetup): Config {
    c.(pause := setup, advertise := ReplacePause(c.advertise, Calc(b, setup)))
  }

  /** The request is refused: forced pause, or nothing to change. */
  predicate PauseRefused(b: Board, c: Config, op: Op)
    requires op.SetPause?
  {
    if op.autoneg then WithPause(b, c, RequestedPause(b, op.rx, op.tx)) == c else op.rx || op.tx
  }

  predicate Succeeds(b: Board, s: Phy, op: Op) {
    match op
    case SetSettings(cmd) => Accepts(s.config, cmd)
    case SetPause(_, _, _) => !PauseRefused(b, s.config, op)
    case _ => true
  }

  function SetUpAgain(b: Board, s: Phy, r: Reset): Phy {
    var s' := s.(regs := r.regs);
    if r.configured then Configure(b, s', s'.config) else s'
  }

  function Apply(b: Board, s: Phy, op: Op): Phy {
    match op
    case SetSettings(cmd) => if Accepts(s.config, cmd) then Configure(b, s, Requested(s.config, cmd)) else s
    case SetPause(autoneg, rx, tx) =>
      if !autoneg || PauseRefused(b, s.config, op) then s
      else Configure(b, s, WithPause(b, s.config, RequestedPause(b, rx, tx)))
    case PowerUp(after, setup) =>
      var on := Phy(s.config, after, false);
      if b.rstOnLinkfail then SetUpAgain(b, on, setup) else Configure(b, on, on.config)
    case PowerDown => PoweredDown(s)
    case Poll(reset) => if reset.Some? && !s.powerdown then SetUpAgain(b, s, reset.value) else s
    case RestartDone => s.(regs := s.regs.(control := s.regs.control & !CTRL_RESTART))
  }

  function Run(b: Board, left: Regs, ops: seq<Op>): Phy {
    if ops == [] then Setup(b, left) else Apply(b, Run(b, left, ops[..|ops| - 1]), ops[|ops| - 1])
  }

  /** The last reset failed before set_config and nothing has been configured since. */
  predicate Stale(b: Board, left: Regs, ops: seq<Op>) {
    ops != [] &&
    var n := |ops| - 1;
    var s := Run(b, left, ops[..n]);
    match ops[n]
    case SetSettings(cmd) => !Accepts(s.config, cmd) && Stale(b, left, ops[..n])
    case SetPause(autoneg, _, _) => (!autoneg || PauseRefused(b, s.config, ops[n])) && Stale(b, left, ops[..n])
    case PowerUp(_, setup) => b.rstOnLinkfail && !setup.configured
    case Poll(reset) => if reset.Some? && !s.powerdown then !reset.value.configured else Stale(b, left, ops[..n])
    case PowerDown => Stale(b, left, ops[..n])
    case RestartDone => Stale(b, left, ops[..n])
  }

  // ---- reading back -------------------------------------------------------------------------

  function Flag(on: bool, m: bv32): bv32 {
    if on then m else 0
  }

  /** The mask with some bits added, if they are to be. */
  function Add(m: bv32, on: bool, bits: bv32): bv32 {
    if on then m | bits else m
  }

  function CopperModes(h10: bool, f10: bool, h100: bool, f100: bool, asym: bool, sym: bool, h1000: bool,
      f1000: bool): bv32 {
    Add(Add(SlowModes(h10, f10, h100, f100, asym, sym) | TP | AUTONEG, h1000, M1000_HALF), f1000, M1000_FULL)
  }

  function SlowModes(h10: bool, f10: bool, h100: bool, f100: bool, asym: bool, sym: bool): bv32 {
    var modes := Add(Add(Add(Add(0, h10, M10_HALF), f10, M10_FULL), h100, M100_HALF), f100, M100_FULL);
    Add(Add(modes, asym, ASYM_PAUSE), sym, PAUSE)
  }

  function DecodeCopper(gbit: bool, r: Regs): bv32 {
    CopperModes(r.adv & ADV_10HD != 0, r.adv & ADV_10FD != 0, r.adv & ADV_100HD != 0, r.adv & ADV_100FD != 0,
                r.adv & ADV_ASYM != 0, r.adv & ADV_SYM != 0,
                gbit && r.gctrl & GCTRL_HD != 0, gbit && r.gctrl & GCTRL_FD != 0)
  }

  function FibreModes(h1000: bool, f1000: bool, asym: bool, sym: bool): bv32 {
    var modes := Add(Add(0, h1000, M1000_HALF | M100_HALF), f1000, M1000_FULL | M100_FULL);
    Add(Add(modes, asym, ASYM_PAUSE), sym, PAUSE) | FIBRE | AUTONEG
  }

  function DecodeFibre(r: Regs): bv32 {
    FibreModes(r.adv & FADV_HD != 0, r.adv & FADV_FD != 0, r.adv & FADV_ASYM != 0, r.adv & FADV_SYM != 0)
  }

  /** What get_settings returns, apart from the link details, once its status poll is done. */
  function ReadModes(b: Board, s: Phy): bv32 {
    if s.powerdown then s.config.advertise
    else if s.regs.control & CTRL_AUTONEG == 0 then 0
    else if s.config.port.PortFibre? then DecodeFibre(s.regs)
    else DecodeCopper(b.gbit, s.regs)
  }

  predicate ReadAutoneg(s: Phy) {
    if s.powerdown then s.config.autoneg else s.regs.control & CTRL_AUTONEG != 0
  }
}
