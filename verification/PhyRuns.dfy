/**
 Theorems about every sequence of configuration operations: registers mirror the configuration, the
 configuration stays within what is supported, and what get_settings reads back is what was set.
 */
module PhyRuns {
  import opened PhyConfig
  import opened PhyModel

  predicate InStep(b: Board, s: Phy) {
    Mirrors(b.gbit, s.config, s.regs) && (!s.powerdown ==> ControlMirrors(b.variant, b.gbit, s.config, s.regs.control))
  }

  lemma {:induction false} ConfigureInStep(b: Board, s: Phy, c: Config)
    ensures InStep(b, Configure(b, s, c))
  {
    SetConfigMirrors(b.variant, b.gbit, c, s.regs);
  }

  lemma {:induction false} RestartBits(x: bv16)
    ensures
      var y := x & !CTRL_RESTART;
      && y & 0x1000 == x & 0x1000 && y & 0x0100 == x & 0x0100 && y & 0x0400 == x & 0x0400
      && y & 0xC8BF == x & 0xC8BF && y & 0x2000 == x & 0x2000 && y & 0x0040 == x & 0x0040
  {
  }

  lemma {:induction false} RestartKeepsControl(v: Variant, gbit: bool, c: Config, x: bv16)
    requires ControlMirrors(v, gbit, c, x)
    ensures ControlMirrors(v, gbit, c, x & !CTRL_RESTART)
  {
    RestartBits(x);
  }

  lemma {:induction false} RestartInStep(b: Board, s: Phy)
    requires InStep(b, s)
    ensures InStep(b, Apply(b, s, RestartDone))
  {
    if !s.powerdown {
      RestartKeepsControl(b.variant, b.gbit, s.config, s.regs.control);
    }
  }

  lemma {:induction false} PowerUpInStep(b: Board, s: Phy, after: Regs, setup: Reset)
    requires b.rstOnLinkfail ==> setup.configured
    ensures InStep(b, Apply(b, s, PowerUp(after, setup)))
  {
    ConfigureInStep(b, Phy(s.config, after, false), s.config);
    ConfigureInStep(b, Phy(s.config, setup.regs, false), s.config);
  }

  lemma {:induction false} PollInStep(b: Board, s: Phy, reset: Option<Reset>)
    requires reset.None? || s.powerdown ==> InStep(b, s)
    requires reset.Some? && !s.powerdown ==> reset.value.configured
    ensures InStep(b, Apply(b, s, Poll(reset)))
  {
    if reset.Some? {
      ConfigureInStep(b, s.(regs := reset.value.regs), s.config);
    }
  }

  lemma {:induction false} SettingsInStep(b: Board, s: Phy, cmd: Cmd)
    requires InStep(b, s)
    ensures InStep(b, Apply(b, s, SetSettings(cmd)))
  {
    ConfigureInStep(b, s, Requested(s.config, cmd));
  }

  lemma {:induction false} PauseParamInStep(b: Board, s: Phy, autoneg: bool, rx: bool, tx: bool)
    requires InStep(b, s)
    ensures InStep(b, Apply(b, s, SetPause(autoneg, rx, tx)))
  {
    ConfigureInStep(b, s, WithPause(b, s.config, RequestedPause(b, rx, tx)));
  }

  lemma {:induction false} ApplyInStep(b: Board, s: Phy, op: Op)
    requires !op.PowerUp? && !op.Poll? ==> InStep(b, s)
    requires op.Poll? && (op.reset.None? || s.powerdown) ==> InStep(b, s)
    requires op.PowerUp? && b.rstOnLinkfail ==> op.setup.configured
    requires op.Poll? && op.reset.Some? && !s.powerdown ==> op.reset.value.configured
    ensures InStep(b, Apply(b, s, op))
  {
    match op
    case SetSettings(cmd) => SettingsInStep(b, s, cmd);
    case SetPause(autoneg, rx, tx) => PauseParamInStep(b, s, autoneg, rx, tx);
    case PowerUp(after, setup) => PowerUpInStep(b, s, after, setup);
    case Poll(reset) => PollInStep(b, s, reset);
    case RestartDone => RestartInStep(b, s);
    case PowerDown =>
  }

  lemma {:induction false} ConfigureSteps(b: Board, s: Phy, op: Op)
    requires (op.SetSettings? && Accepts(s.config, op.cmd)) ||
             (op.SetPause? && op.autoneg && !PauseRefused(b, s.config, op))
    ensures InStep(b, Apply(b, s, op))
  {
    if op.SetSettings? {
      ConfigureInStep(b, s, Requested(s.config, op.cmd));
    } else {
      ConfigureInStep(b, s, WithPause(b, s.config, RequestedPause(b, op.rx, op.tx)));
    }
  }

  /** After any operations the advertisement registers encode exactly config.advertise, and on a PHY
      that is not powered down CONTROL has the autonegotiation, speed and duplex of the configuration -
      unless the last thing that happened to the registers was a reset whose setup failed. */
  lemma {:induction false} RegistersMirrorConfig(b: Board, left: Regs, ops: seq<Op>)
    requires !Stale(b, left, ops)
    ensures InStep(b, Run(b, left, ops))
  {
    if ops == [] {
      ConfigureInStep(b, Phy(SetupConfig(b), left, false), SetupConfig(b));
    } else {
      var n := |ops| - 1;
      var s := Run(b, left, ops[..n]);
      if Stale(b, left, ops[..n]) && (ops[n].SetSettings? || ops[n].SetPause?) {
        ConfigureSteps(b, s, ops[n]);
      } else {
        if !Stale(b, left, ops[..n]) {
          RegistersMirrorConfig(b, left, ops[..n]);
        }
        ApplyInStep(b, s, ops[n]);
      }
    }
  }

  // ---- after a failed reset -----------------------------------------------------------------

  /** The same operation, up to the registers that resets leave behind. */
  predicate SameButRegs(op: Op, op': Op) {
    match op
    case PowerUp(_, setup) => op'.PowerUp? && SameOutcome(setup, op'.setup)
    case Poll(reset) =>
      op'.Poll? && reset.Some? == op'.reset.Some? && (reset.Some? ==> SameOutcome(reset.value, op'.reset.value))
    case _ => op' == op
  }

  predicate SameOutcome(r: Reset, r': Reset) {
    r.configured == r'.configured && r.clean == r'.clean
  }

  predicate AllSameButRegs(ops: seq<Op>, ops': seq<Op>) {
    |ops| == |ops'| && forall i :: 0 <= i < |ops| ==> SameButRegs(ops[i], ops'[i])
  }

  lemma {:induction false} StepSame(b: Board, s: Phy, s': Phy, op: Op, op': Op)
    requires s.config == s'.config && s.powerdown == s'.powerdown && SameButRegs(op, op')
    ensures Apply(b, s, op).config == Apply(b, s', op').config
    ensures Apply(b, s, op).powerdown == Apply(b, s', op').powerdown
  {
  }

  /** The configuration does not depend on what resets leave behind. */
  lemma {:induction false} RunSame(b: Board, left: Regs, ops: seq<Op>, ops': seq<Op>)
    requires AllSameButRegs(ops, ops')
    ensures Run(b, left, ops).config == Run(b, left, ops').config
    ensures Run(b, left, ops).powerdown == Run(b, left, ops').powerdown
    ensures Stale(b, left, ops) == Stale(b, left, ops')
  {
    if ops == [] {
    } else {
      var n := |ops| - 1;
      assert SameButRegs(ops[n], ops'[n]);
      RunSame(b, left, ops[..n], ops'[..n]);
      StepSame(b, Run(b, left, ops[..n]), Run(b, left, ops'[..n]), ops[n], ops'[n]);
    }
  }

  /** An AUTONEG_ADV that does not say what the configuration says. */
  function WrongAdv(c: Config): bv16 {
    if c.port.PortTp? then ADV_100T4 else if c.advertise & M1000_FULL != 0 then 0 else FADV_FD
  }

  lemma {:induction false} WrongIsWrong(gbit: bool, c: Config, r: Regs)
    requires r.adv == WrongAdv(c)
    ensures !Mirrors(gbit, c, r)
  {
    assert ADV_100T4 & ADV_100T4 != 0 && FADV_FD & FADV_FD != 0 && 0 & FADV_FD == 0;
  }

  function WithWrongAdv(r: Reset, c: Config): Reset {
    r.(regs := r.regs.(adv := WrongAdv(c)))
  }

  /** The run with other registers left behind by the reset that failed last. */
  function Spoiled(b: Board, left: Regs, ops: seq<Op>): seq<Op>
    requires Stale(b, left, ops)
  {
    var n := |ops| - 1;
    var s, op := Run(b, left, ops[..n]), ops[n];
    if op.PowerUp? then ops[..n] + [op.(setup := WithWrongAdv(op.setup, s.config))]
    else if op.Poll? && op.reset.Some? && !s.powerdown then
      ops[..n] + [Poll(Some(WithWrongAdv(op.reset.value, s.config)))]
    else Spoiled(b, left, ops[..n]) + [op]
  }

  lemma {:induction false} SpoiledStep(b: Board, s: Phy, op: Op)
    requires match op
             case SetSettings(cmd) => !Accepts(s.config, cmd)
             case SetPause(autoneg, _, _) => !autoneg || PauseRefused(b, s.config, op)
             case PowerUp(_, _) => false
             case Poll(reset) => reset.None? || s.powerdown
             case PowerDown => true
             case RestartDone => true
    ensures Apply(b, s, op).config == s.config && Apply(b, s, op).regs.adv == s.regs.adv
  {
  }

  /** The last operation is the reset that failed. */
  predicate FailsLast(b: Board, left: Regs, ops: seq<Op>)
    requires ops != []
  {
    var n := |ops| - 1;
    ops[n].PowerUp? || (ops[n].Poll? && ops[n].reset.Some? && !Run(b, left, ops[..n]).powerdown)
  }

  lemma {:induction false} SpoiledReset(b: Board, left: Regs, ops: seq<Op>)
    requires Stale(b, left, ops) && FailsLast(b, left, ops)
    ensures AllSameButRegs(ops, Spoiled(b, left, ops))
    ensures Run(b, left, Spoiled(b, left, ops)).regs.adv == WrongAdv(Run(b, left, ops).config)
  {
    var n := |ops| - 1;
    assert Spoiled(b, left, ops)[..n] == ops[..n];
  }

  lemma {:induction false} SpoiledQuiet(b: Board, left: Regs, ops: seq<Op>, before: seq<Op>)
    requires Stale(b, left, ops) && !FailsLast(b, left, ops) && AllSameButRegs(ops[..|ops| - 1], before)
    requires Run(b, left, before).regs.adv == WrongAdv(Run(b, left, ops[..|ops| - 1]).config)
    ensures AllSameButRegs(ops, before + [ops[|ops| - 1]])
    ensures Run(b, left, before + [ops[|ops| - 1]]).regs.adv == WrongAdv(Run(b, left, ops).config)
  {
    var n := |ops| - 1;
    RunSame(b, left, ops[..n], before);
    assert (before + [ops[n]])[..n] == before;
    SpoiledStep(b, Run(b, left, before), ops[n]);
    SpoiledStep(b, Run(b, left, ops[..n]), ops[n]);
  }

  lemma {:induction false} SpoiledIsWrong(b: Board, left: Regs, ops: seq<Op>)
    requires Stale(b, left, ops)
    ensures AllSameButRegs(ops, Spoiled(b, left, ops))
    ensures Run(b, left, Spoiled(b, left, ops)).regs.adv == WrongAdv(Run(b, left, ops).config)
  {
    if FailsLast(b, left, ops) {
      SpoiledReset(b, left, ops);
    } else {
      var n := |ops| - 1;
      SpoiledIsWrong(b, left, ops[..n]);
      SpoiledQuiet(b, left, ops, Spoiled(b, left, ops[..n]));
    }
  }

  /** The registers are sure to mirror the configuration, whatever resets leave in them, exactly if the
      last reset could be configured or something was configured since. */
  lemma {:induction false} StaleIsExact(b: Board, left: Regs, ops: seq<Op>)
    ensures !Stale(b, left, ops) <==> forall ops' :: AllSameButRegs(ops, ops') ==> InStep(b, Run(b, left, ops'))
  {
    if Stale(b, left, ops) {
      var ops' := Spoiled(b, left, ops);
      SpoiledIsWrong(b, left, ops);
      RunSame(b, left, ops, ops');
      WrongIsWrong(b.gbit, Run(b, left, ops').config, Run(b, left, ops').regs);
    } else {
      forall ops' | AllSameButRegs(ops, ops') ensures InStep(b, Run(b, left, ops')) {
        RunSame(b, left, ops, ops');
        RegistersMirrorConfig(b, left, ops');
      }
    }
  }

  // ---- the configuration --------------------------------------------------------------------

  predicate Covers(supported: bv32, advertise: bv32) {
    (advertise & !PAUSE_BITS) & !supported == 0
  }

  predicate WithinSupported(c: Config) {
    Covers(c.supported, c.advertise)
  }

  lemma {:induction false} StoredWithin(adv: bv32, asked: bv32, supported: bv32)
    requires Fits(supported, asked)
    ensures Covers(supported, Stored(adv, asked))
  {
  }

  lemma {:induction false} PauseWithin(adv: bv32, bits: bv32, supported: bv32)
    requires Covers(supported, adv) && bits & !PAUSE_BITS == 0
    ensures Covers(supported, ReplacePause(adv, bits))
  {
  }

  lemma {:induction false} PauseMerge(adv: bv32, bits: bv32)
    requires bits & !PAUSE_BITS == 0
    ensures ReplacePause(adv, bits) & PAUSE_BITS == bits
  {
  }

  lemma {:induction false} PauseBitsOnly(m: bv32)
    requires m == 0 || m == 0x2000 || m == 0x4000 || m == 0x6000
    ensures m & !0x6000 == 0
  {
  }

  lemma {:induction false} CalcIsPause(b: Board, setup: PauseSetup)
    ensures Calc(b, setup) & !PAUSE_BITS == 0
  {
    var m := Calc(b, setup);
    assert m == 0 || m == PAUSE || m == ASYM_PAUSE || m == PAUSE_BITS;
    PauseBitsOnly(m);
  }

  lemma {:induction false} RequestWithin(c: Config, cmd: Cmd)
    requires WithinSupported(c) && Accepts(c, cmd)
    ensures WithinSupported(Requested(c, cmd))
  {
    if cmd.autoneg == 1 {
      StoredWithin(c.advertise, cmd.advertising, c.supported);
      assert Requested(c, cmd).advertise == Stored(c.advertise, cmd.advertising);
    } else {
      assert Requested(c, cmd).advertise == c.advertise;
    }
    assert Requested(c, cmd).supported == c.supported;
  }

  lemma {:induction false} PauseChangeWithin(b: Board, c: Config, setup: PauseSetup)
    requires WithinSupported(c)
    ensures WithinSupported(WithPause(b, c, setup))
  {
    CalcIsPause(b, setup);
    PauseWithin(c.advertise, Calc(b, setup), c.supported);
  }

  lemma {:induction false} ApplyWithin(b: Board, s: Phy, op: Op)
    requires WithinSupported(s.config)
    ensures WithinSupported(Apply(b, s, op).config)
    ensures Apply(b, s, op).config.supported == s.config.supported && Apply(b, s, op).config.port == s.config.port
  {
    match op
    case SetSettings(cmd) =>
      if Accepts(s.config, cmd) {
        RequestWithin(s.config, cmd);
      }
    case SetPause(_, rx, tx) => PauseChangeWithin(b, s.config, RequestedPause(b, rx, tx));
    case _ =>
  }

  lemma {:induction false} RequestKeepsPause(c: Config, cmd: Cmd)
    ensures Requested(c, cmd).advertise & PAUSE_BITS == c.advertise & PAUSE_BITS && Requested(c, cmd).pause == c.pause
  {
    StoredPause(c.advertise, cmd.advertising);
  }

  lemma {:induction false} StoredPause(adv: bv32, asked: bv32)
    ensures Stored(adv, asked) & PAUSE_BITS == adv & PAUSE_BITS
  {
  }

  lemma {:induction false} WithPauseInStep(b: Board, c: Config, setup: PauseSetup)
    ensures PauseInStep(b, WithPause(b, c, setup))
  {
    CalcIsPause(b, setup);
    PauseMerge(c.advertise, Calc(b, setup));
  }

  /** Writing the registers leaves the advertisement and the pause set-up alone. */
  lemma {:induction false} ConfigureKeeps(b: Board, s: Phy, c: Config)
    ensures Configure(b, s, c).config.advertise == c.advertise && Configure(b, s, c).config.pause == c.pause
  {
  }

  lemma {:induction false} RequestInStep(b: Board, c: Config, cmd: Cmd)
    requires PauseInStep(b, c)
    ensures PauseInStep(b, Requested(c, cmd))
  {
    RequestKeepsPause(c, cmd);
  }

  lemma {:induction false} ConfiguredPause(b: Board, s: Phy, c: Config)
    requires PauseInStep(b, c)
    ensures PauseInStep(b, Configure(b, s, c).config)
  {
    ConfigureKeeps(b, s, c);
  }

  lemma {:induction false} SettingsKeepPause(b: Board, s: Phy, cmd: Cmd)
    requires PauseInStep(b, s.config)
    ensures PauseInStep(b, Apply(b, s, SetSettings(cmd)).config)
  {
    RequestInStep(b, s.config, cmd);
    ConfiguredPause(b, s, Requested(s.config, cmd));
  }

  lemma {:induction false} PauseRequestInStep(b: Board, s: Phy, autoneg: bool, rx: bool, tx: bool)
    requires PauseInStep(b, s.config)
    ensures PauseInStep(b, Apply(b, s, SetPause(autoneg, rx, tx)).config)
  {
    WithPauseInStep(b, s.config, RequestedPause(b, rx, tx));
    ConfiguredPause(b, s, WithPause(b, s.config, RequestedPause(b, rx, tx)));
  }

  lemma {:induction false} ApplyPause(b: Board, s: Phy, op: Op)
    requires PauseInStep(b, s.config)
    ensures PauseInStep(b, Apply(b, s, op).config)
  {
    match op
    case SetSettings(cmd) => SettingsKeepPause(b, s, cmd);
    case SetPause(autoneg, rx, tx) => PauseRequestInStep(b, s, autoneg, rx, tx);
    case PowerUp(after, setup) => ConfiguredPause(b, s, s.config);
    case Poll(_) => ConfiguredPause(b, s, s.config);
    case PowerDown =>
    case RestartDone =>
  }

  lemma {:induction false} NothingOutside(x: bv32)
    ensures Covers(x, x)
  {
  }

  /** The non-pause bits of config.advertise stay within config.supported, and supported and port
      never change after setup. */
  lemma {:induction false} AdvertiseWithinSupported(b: Board, left: Regs, ops: seq<Op>)
    ensures
      var c := Run(b, left, ops).config;
      WithinSupported(c) && c.supported == SetupConfig(b).supported && c.port == SetupConfig(b).port
  {
    if ops == [] {
      NothingOutside(SetupConfig(b).supported);
    } else {
      AdvertiseWithinSupported(b, left, ops[..|ops| - 1]);
      ApplyWithin(b, Run(b, left, ops[..|ops| - 1]), ops[|ops| - 1]);
    }
  }

  predicate PauseInStep(b: Board, c: Config) {
    c.advertise & PAUSE_BITS == Calc(b, c.pause)
  }

  /** The board's mode mask brings no pause bit that the pause setup would not compute itself. */
  predicate NoForeignPause(b: Board) {
    BoardModes(b) & PAUSE_BITS & !Calc(b, BoardPause(b)) == 0
  }

  lemma {:induction false} SetupPause(b: Board)
    ensures PauseInStep(b, SetupConfig(b)) <==> NoForeignPause(b)
  {
    CalcIsPause(b, BoardPause(b));
    OrPause(BoardModes(b), Calc(b, BoardPause(b)));
  }

  lemma {:induction false} OrPause(m: bv32, p: bv32)
    requires p & !PAUSE_BITS == 0
    ensures (m | p) & PAUSE_BITS == p <==> m & PAUSE_BITS & !p == 0
  {
  }

  lemma {:induction false} PauseStays(b: Board, left: Regs, ops: seq<Op>)
    requires NoForeignPause(b)
    ensures PauseInStep(b, Run(b, left, ops).config)
  {
    if ops == [] {
      SetupPause(b);
    } else {
      PauseStays(b, left, ops[..|ops| - 1]);
      ApplyPause(b, Run(b, left, ops[..|ops| - 1]), ops[|ops| - 1]);
    }
  }

  /** In every run the advertised pause bits are those computed from the pause setup, if and only if
      the board's mode mask holds no other pause bits. */
  lemma {:induction false} PauseAlwaysComputed(b: Board, left: Regs)
    ensures (forall ops: seq<Op> :: PauseInStep(b, Run(b, left, ops).config)) <==> NoForeignPause(b)
  {
    if NoForeignPause(b) {
      forall ops: seq<Op> ensures PauseInStep(b, Run(b, left, ops).config) {
        PauseStays(b, left, ops);
      }
    } else {
      SetupPause(b);
      assert Run(b, left, []) == Setup(b, left);
      assert !PauseInStep(b, Run(b, left, []).config);
    }
  }

  // ---- reading back -------------------------------------------------------------------------

  /** The part of a mode mask that the copper registers can carry, with the bits that reading adds. */
  function Visible(gbit: bool, m: bv32): bv32 {
    (m & (FAST_MODES | PAUSE_BITS)) | Flag(gbit, m & M1000_FULL) | TP | AUTONEG
  }

  /** On fibre a duplex at 1000 Mbit/s reads back together with the same duplex at 100 Mbit/s. */
  function FibreClosure(m: bv32): bv32 {
    Flag(m & M1000_HALF != 0, M1000_HALF | M100_HALF) | Flag(m & M1000_FULL != 0, M1000_FULL | M100_FULL)
    | (m & PAUSE_BITS) | FIBRE | AUTONEG
  }

  lemma {:induction false} CopperCollect(m: bv32, g: bool)
    ensures CopperModes(m & M10_HALF != 0, m & M10_FULL != 0, m & M100_HALF != 0, m & M100_FULL != 0,
                        m & ASYM_PAUSE != 0, m & PAUSE != 0, false, g && m & M1000_FULL != 0)
         == Visible(g, m)
  {
  }

  lemma {:induction false} FibreCollect(m: bv32)
    ensures FibreModes(m & M1000_HALF != 0, m & M1000_FULL != 0, m & ASYM_PAUSE != 0, m & PAUSE != 0) == FibreClosure(m)
  {
  }

  lemma {:induction false} CopperReads(gbit: bool, c: Config, r: Regs)
    requires c.port.PortTp? && Mirrors(gbit, c, r)
    ensures DecodeCopper(gbit, r) == Visible(gbit, c.advertise)
  {
    CopperCollect(c.advertise, gbit);
  }

  lemma {:induction false} FibreReads(gbit: bool, c: Config, r: Regs)
    requires c.port.PortFibre? && Mirrors(gbit, c, r)
    ensures DecodeFibre(r) == FibreClosure(c.advertise)
  {
    FibreCollect(c.advertise);
  }

  /** What reading the settings returns, in terms of the configuration alone. */
  function ReadBack(b: Board, s: Phy): bv32 {
    if s.powerdown then s.config.advertise
    else if !s.config.autoneg then 0
    else if s.config.port.PortFibre? then FibreClosure(s.config.advertise)
    else Visible(b.gbit, s.config.advertise)
  }

  lemma {:induction false} ReadsConfig(b: Board, s: Phy)
    requires InStep(b, s)
    ensures ReadModes(b, s) == ReadBack(b, s) && ReadAutoneg(s) == s.config.autoneg
  {
    if s.config.port.PortFibre? {
      FibreReads(b.gbit, s.config, s.regs);
    } else {
      CopperReads(b.gbit, s.config, s.regs);
    }
  }

  /** At any point of a run, reading the settings gives the configured ones. */
  lemma {:induction false} SettingsReadBack(b: Board, left: Regs, ops: seq<Op>)
    requires !Stale(b, left, ops)
    ensures ReadModes(b, Run(b, left, ops)) == ReadBack(b, Run(b, left, ops))
    ensures ReadAutoneg(Run(b, left, ops)) == Run(b, left, ops).config.autoneg
  {
    RegistersMirrorConfig(b, left, ops);
    ReadsConfig(b, Run(b, left, ops));
  }

  /** The mask reads back unchanged: TP and Autoneg are in it, gigabit full only on a gigabit PHY,
      and nothing the copper registers cannot carry - 1000BASE-T half duplex for one. */
  predicate Readable(gbit: bool, m: bv32) {
    && m & (TP | AUTONEG) == TP | AUTONEG
    && m & !(FAST_MODES | PAUSE_BITS | M1000_FULL | TP | AUTONEG) == 0
    && (m & M1000_FULL != 0 ==> gbit)
  }

  lemma {:induction false} ReadableIffFixed(gbit: bool, m: bv32)
    ensures Visible(gbit, m) == m <==> Readable(gbit, m)
  {
  }

  /** The stored mask, seen through the registers: the requested 10/100 modes, 1000-full iff asked
      for on a gigabit PHY, never 1000-half, and the pause bits of before the request. */
  predicate ReadsAs(gbit: bool, read: bv32, asked: bv32, before: bv32) {
    && read & FAST_MODES == asked & FAST_MODES
    && (read & M1000_FULL != 0 <==> gbit && asked & M1000_FULL != 0)
    && read & M1000_HALF == 0
    && read & PAUSE_BITS == before & PAUSE_BITS
    && read & !(FAST_MODES | M1000_FULL | PAUSE_BITS) == TP | AUTONEG
  }

  /** Set, then get: what an accepted autoneg request on a powered copper PHY reads back as - and it
      is the very mask stored iff that mask is readable. */
  lemma {:induction false} SetThenGet(b: Board, s: Phy, cmd: Cmd)
    requires s.config.port.PortTp? && !s.powerdown && cmd.autoneg == 1 && Accepts(s.config, cmd)
    ensures ReadAutoneg(Apply(b, s, SetSettings(cmd)))
    ensures ReadsAs(b.gbit, ReadModes(b, Apply(b, s, SetSettings(cmd))), cmd.advertising, s.config.advertise)
    ensures ReadModes(b, Apply(b, s, SetSettings(cmd))) == Stored(s.config.advertise, cmd.advertising) <==>
            Readable(b.gbit, Stored(s.config.advertise, cmd.advertising))
  {
    ConfigureInStep(b, s, Requested(s.config, cmd));
    ReadsConfig(b, Apply(b, s, SetSettings(cmd)));
    ReadableIffFixed(b.gbit, Stored(s.config.advertise, cmd.advertising));
    VisibleParts(b.gbit, cmd.advertising, s.config.advertise);
  }

  lemma {:induction false} VisibleParts(gbit: bool, asked: bv32, adv: bv32)
    ensures ReadsAs(gbit, Visible(gbit, Stored(adv, asked)), asked, adv)
  {
  }

  lemma {:induction false} SetThenGetFibre(b: Board, s: Phy, cmd: Cmd)
    requires s.config.port.PortFibre? && !s.powerdown && cmd.autoneg == 1 && Accepts(s.config, cmd)
    ensures
      var s' := Apply(b, s, SetSettings(cmd));
      && ReadAutoneg(s') && s'.config.speed == 1000
      && ReadModes(b, s') == FibreClosure(Stored(s.config.advertise, cmd.advertising))
  {
    ConfigureInStep(b, s, Requested(s.config, cmd));
    ReadsConfig(b, Apply(b, s, SetSettings(cmd)));
  }
}
