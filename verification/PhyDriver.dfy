/**
 The configuration side of the driver object: configuration fields and MDIO registers changed in
 place as the C functions change them. `Valid` ties the object to a run of the model's operations.
 */
module PhyDriver {
  import opened PhyConfig
  import opened PhyModel
  import opened PhyRuns

  class Device {
    const board: Board
    var config: Config
    var regs: Regs
    var powerdown: bool
    ghost var left: Regs           // the registers the reset in setup left behind
    ghost var history: seq<Op>

    ghost function Snapshot(): Phy
      reads this
    {
      Phy(config, regs, powerdown)
    }

    ghost predicate Valid()
      reads this
    {
      Snapshot() == Run(board, left, history)
    }

    /** avmnet_ar803x_setup and avmnet_ar8033_setup. */
    constructor (board: Board, afterReset: Regs)
      ensures Valid() && this.board == board && history == [] && left == afterReset && powerdown
      ensures Snapshot() == Setup(board, afterReset)
    {
      var c := DefaultConfig(board);
      this.board := board;
      config := c;
      regs := afterReset;
      powerdown := false;
      left, history := afterReset, [];
      new;
      WriteConfig();
      regs := regs.(control := CTRL_POWERDOWN | CTRL_ISOLATE);
      powerdown := true;
    }

    static method DefaultConfig(board: Board) returns (c: Config)
      ensures c == SetupConfig(board)
    {
      var modes := SupportedModes(board);
      var pause := DefaultPause(board);
      c := FullConfig(board, modes | Calc(board, pause), pause);
    }

    static method DefaultPause(board: Board) returns (pause: PauseSetup)
      ensures pause == BoardPause(board)
    {
      pause := PauseNone;
      if board.fcRx {
        pause := if board.fcTx then PauseRxTx else PauseRx;
      } else if board.fcTx {
        pause := PauseTx;
      }
    }

    static method FullConfig(board: Board, supported: bv32, pause: PauseSetup) returns (c: Config)
      ensures c == ConfigFor(board, supported, pause)
    {
      var speed := FastestSpeed(supported);
      var port := if board.variant.Ar803x? && supported & FIBRE != 0 then PortFibre else PortTp;
      c := Config(supported, supported, supported & AUTONEG != 0, speed, 0, port, pause);
    }

    static method SupportedModes(board: Board) returns (supported: bv32)
      ensures supported == BoardModes(board)
    {
      if board.modeConf.Modes? {
        supported := board.modeConf.mask;
        if supported & M1000_FULL != 0 && !board.gbit {
          supported := supported & !GBIT_MODES;
        }
      } else {
        supported := TP | AUTONEG | FAST_MODES;
        if board.gbit {
          supported := supported | M1000_FULL;
        }
      }
    }

    static method FastestSpeed(supported: bv32) returns (speed: nat)
      ensures speed == if supported & M1000_FULL != 0 then 1000
                       else if supported & (M100_FULL | M100_HALF) != 0 then 100 else 10
    {
      if supported & M1000_FULL != 0 {
        speed := 1000;
      } else if supported & (M100_FULL | M100_HALF) != 0 {
        speed := 100;
      } else {
        speed := 10;
      }
    }

    /** set_config. */
    method WriteConfig()
      modifies `config, `regs
      ensures regs == Written(board.variant, board.gbit, old(config), old(regs))
      ensures config == Settled(old(config))
    {
      var phyCtrl := ComposeControl(board, config);
      if config.port.PortFibre? {
        var phyAdv := ComposeFibre(regs.adv, config.advertise);
        var chip := ChooseChip(board.gbit, config, regs.chip);
        if config.autoneg {
          config := config.(speed := 1000);
        }
        regs := Regs(phyCtrl, phyAdv, regs.gctrl, chip);
      } else {
        var phyAdv := ComposeCopper(regs.adv, config.advertise);
        var phyGCtrl := ComposeGigabit(regs.gctrl, board.gbit, config.advertise);
        regs := Regs(phyCtrl, phyAdv, phyGCtrl, regs.chip);
      }
    }

    /** The chip configuration of a fibre port; autonegotiation overrides the speed. */
    static method ChooseChip(gbit: bool, config: Config, was: bv16) returns (chip: bv16)
      requires config.port.PortFibre?
      ensures chip == EncodeChip(gbit, config, was)
    {
      chip := was;
      if config.speed == 100 {
        chip := CHIP_FX100;
      } else if config.speed == 1000 {
        if gbit { chip := CHIP_BX1000; }
      }
      if config.autoneg {
        chip := CHIP_BX1000;
      }
    }

    static method ComposeCopper(was: bv16, advertise: bv32) returns (adv: bv16)
      ensures adv == EncodeCopper(was, advertise)
    {
      adv := was & !ADV_COPPER_FIELDS;
      adv := SetIf(adv, advertise & M10_HALF != 0, ADV_10HD);
      adv := SetIf(adv, advertise & M10_FULL != 0, ADV_10FD);
      adv := SetIf(adv, advertise & M100_HALF != 0, ADV_100HD);
      adv := SetIf(adv, advertise & M100_FULL != 0, ADV_100FD);
      adv := SetIf(adv, advertise & ASYM_PAUSE != 0, ADV_ASYM);
      adv := SetIf(adv, advertise & PAUSE != 0, ADV_SYM);
    }

    static method ComposeFibre(was: bv16, advertise: bv32) returns (adv: bv16)
      ensures adv == EncodeFibre(was, advertise)
    {
      adv := was & !ADV_FIBRE_FIELDS;
      adv := SetIf(adv, advertise & M1000_FULL != 0, FADV_FD);
      adv := SetIf(adv, advertise & M1000_HALF != 0, FADV_HD);
      adv := SetIf(adv, advertise & ASYM_PAUSE != 0, FADV_ASYM);
      adv := SetIf(adv, advertise & PAUSE != 0, FADV_SYM);
    }

    static method ComposeGigabit(was: bv16, gbit: bool, advertise: bv32) returns (gctrl: bv16)
      ensures gctrl == EncodeGigabit(was, gbit && advertise & M1000_FULL != 0)
    {
      gctrl := was & !(GCTRL_FD | GCTRL_HD);
      gctrl := SetIf(gctrl, gbit && advertise & M1000_FULL != 0, GCTRL_FD);
    }

    static method ComposeControl(board: Board, config: Config) returns (ctrl: bv16)
      ensures ctrl == EncodeControl(board.variant, board.gbit, config)
    {
      ctrl := SetIf(0, board.variant.Ar8033?, CTRL_ISOLATE);
      ctrl := SetIf(ctrl, config.autoneg, CTRL_AUTONEG);
      ctrl := SetIf(ctrl, config.speed == 100, CTRL_SPEED_LSB);
      ctrl := SetIf(ctrl, config.speed == 1000 && board.gbit, CTRL_SPEED_MSB);
      ctrl := SetIf(ctrl, config.duplex != 0, CTRL_DUPLEX);
      ctrl := SetIf(ctrl, config.autoneg, CTRL_RESTART);
    }

    /** One conditional `|=` of the C code, on a register and on a mode mask. */
    static method SetIf(x: bv16, on: bool, bit: bv16) returns (y: bv16)
      ensures y == Put(x, on, bit)
    {
      y := x;
      if on {
        y := y | bit;
      }
    }

    static method AddIf(m: bv32, on: bool, bits: bv32) returns (r: bv32)
      ensures r == Add(m, on, bits)
    {
      r := m;
      if on {
        r := r | bits;
      }
    }

    /** The operation was carried out: the object is where the model says, one step further. */
    twostate predicate Did(op: Op)
      reads this
    {
      && history == old(history) + [op] && left == old(left)
      && Snapshot() == Apply(board, old(Snapshot()), op)
    }

    /** ethtool set_settings. A refused command changes nothing. */
    method SetSettingsOf(cmd: Cmd) returns (ok: bool)
      requires Valid()
      modifies this
      ensures Valid() && Did(SetSettings(cmd))
      ensures ok <==> old(Accepts(config, cmd))
      ensures !ok ==> Snapshot() == old(Snapshot())
    {
      ok := ChangeSettings(cmd);
      history := history + [SetSettings(cmd)];
      assert history[..|history| - 1] == old(history);
    }

    method ChangeSettings(cmd: Cmd) returns (ok: bool)
      modifies `config, `regs
      ensures ok <==> Accepts(old(config), cmd)
      ensures Snapshot() == if ok then Configure(board, old(Snapshot()), Requested(old(config), cmd))
                            else old(Snapshot())
    {
      var dummyAdv, known := ModesAsked(cmd);
      if !known || !Fits(config.supported, dummyAdv) {
        return false;
      }
      if cmd.autoneg == 1 {
        config := config.(advertise := Stored(config.advertise, cmd.advertising), autoneg := true);
      } else {
        config := config.(speed := cmd.speed, duplex := cmd.duplex, autoneg := false);
      }
      assert config == Requested(old(config), cmd);
      WriteConfig();
      ok := true;
    }

    static method ModesAsked(cmd: Cmd) returns (dummyAdv: bv32, known: bool)
      ensures RequestedModes(cmd) == if known then Modes(dummyAdv) else NoModes
    {
      dummyAdv, known := cmd.advertising, true;
      if cmd.autoneg == 0 {
        if cmd.speed == 10 {
          dummyAdv := if cmd.duplex == DUPLEX_FULL then M10_FULL else M10_HALF;
        } else if cmd.speed == 100 {
          dummyAdv := if cmd.duplex == DUPLEX_FULL then M100_FULL else M100_HALF;
        } else if cmd.speed == 1000 {
          dummyAdv := if cmd.duplex == DUPLEX_FULL then M1000_FULL else M1000_HALF;
        } else {
          known := false;
        }
      }
    }

    /** ethtool set_pauseparam. A refused request changes nothing. */
    method SetPauseParam(autoneg: bool, rx: bool, tx: bool) returns (ok: bool)
      requires Valid()
      modifies this
      ensures Valid() && Did(SetPause(autoneg, rx, tx))
      ensures ok <==> old(Succeeds(board, Snapshot(), SetPause(autoneg, rx, tx)))
      ensures !ok ==> Snapshot() == old(Snapshot())
    {
      ok := true;
      if !autoneg && (rx || tx) {
        ok := false;
      } else if autoneg {
        ok := ChangePause(rx, tx);
      }
      history := history + [SetPause(autoneg, rx, tx)];
      assert history[..|history| - 1] == old(history);
    }

    method ChangePause(rx: bool, tx: bool) returns (ok: bool)
      modifies `config, `regs
      ensures ok <==> WithPause(board, old(config), RequestedPause(board, rx, tx)) != old(config)
      ensures
        var asked := WithPause(board, old(config), RequestedPause(board, rx, tx));
        Snapshot() == if ok then Configure(board, old(Snapshot()), asked) else old(Snapshot())
    {
      var setup := PauseAsked(rx, tx);
      var newAdv := ReplacePause(config.advertise, Calc(board, setup));
      if config.advertise == newAdv && config.pause == setup {
        return false;
      }
      config := config.(pause := setup, advertise := newAdv);
      WriteConfig();
      ok := true;
    }

    method PauseAsked(rx: bool, tx: bool) returns (setup: PauseSetup)
      ensures setup == RequestedPause(board, rx, tx)
    {
      setup := PauseNone;
      if board.macAsym {
        if !rx && tx {
          setup := PauseTx;
        }
        if rx && !tx {
          setup := PauseRx;
        }
      }
      if board.macSym || board.macAsym {
        if rx && tx {
          setup := PauseRxTx;
        }
      }
    }

    method PowerDownPhy()
      requires Valid()
      modifies this
      ensures Valid() && Did(PowerDown)
    {
      regs := regs.(control := CTRL_POWERDOWN | CTRL_ISOLATE);
      powerdown := true;
      history := history + [PowerDown];
      assert history[..|history| - 1] == old(history);
    }

    /** Power-up; `after` is what the reset through CONTROL leaves, `setup` the hard reset of boards
        that reset on link failure. */
    method PowerUpPhy(after: Regs, setup: Reset) returns (ok: bool)
      requires Valid()
      modifies this
      ensures Valid() && Did(PowerUp(after, setup))
      ensures ok <==> !board.rstOnLinkfail || setup.Succeeds()
    {
      regs := after;
      powerdown := false;
      if board.rstOnLinkfail {
        ok := SetUpPhy(setup);
      } else {
        WriteConfig();
        ok := true;
      }
      history := history + [PowerUp(after, setup)];
      assert history[..|history| - 1] == old(history);
    }

    /** setup_phy of a PHY that is not powered down. */
    method SetUpPhy(r: Reset) returns (ok: bool)
      requires !powerdown
      modifies `config, `regs
      ensures Snapshot() == SetUpAgain(board, old(Snapshot()), r) && ok == r.Succeeds()
    {
      regs := r.regs;
      if !r.configured {
        return false;
      }
      WriteConfig();
      ok := r.clean;
    }

    /** A status poll; `reset` is there if the link supervision decides to reset the PHY. */
    method StatusPoll(reset: Option<Reset>)
      requires Valid()
      modifies this
      ensures Valid() && Did(Poll(reset))
    {
      if !powerdown && reset.Some? {
        var _ := SetUpPhy(reset.value);
      }
      history := history + [Poll(reset)];
      assert history[..|history| - 1] == old(history);
    }

    /** ethtool get_settings: first a status poll, which finds speed and duplex of the link, then the
        registers. */
    method GetSettings(reset: Option<Reset>, speed: nat, duplex: nat) returns (cmd: Cmd)
      requires Valid()
      modifies this
      ensures Valid() && Did(Poll(reset))
      ensures cmd.supported == config.supported
      ensures cmd.advertising == ReadModes(board, Snapshot())
      ensures cmd.autoneg == if ReadAutoneg(Snapshot()) then 1 else 0
      ensures cmd.speed == speed && cmd.duplex == duplex
      ensures !Stale(board, left, history) ==>
                cmd.advertising == ReadBack(board, Snapshot()) && (cmd.autoneg == 1 <==> config.autoneg)
    {
      StatusPoll(reset);
      var advertising: bv32 := 0;
      var autoneg := 0;
      if powerdown {
        advertising := config.advertise;
        autoneg := if config.autoneg then 1 else 0;
      } else if regs.control & CTRL_AUTONEG != 0 {
        autoneg := 1;
        if config.port.PortFibre? {
          advertising := CollectFibre(regs);
        } else {
          advertising := CollectCopper(board.gbit, regs);
        }
      }
      cmd := Cmd(config.supported, advertising, autoneg, speed, duplex);
      if !Stale(board, left, history) {
        SettingsReadBack(board, left, history);
      }
    }

    static method CollectCopper(gbit: bool, r: Regs) returns (m: bv32)
      ensures m == DecodeCopper(gbit, r)
    {
      m := CollectSlow(r.adv & ADV_10HD != 0, r.adv & ADV_10FD != 0, r.adv & ADV_100HD != 0, r.adv & ADV_100FD != 0,
                       r.adv & ADV_ASYM != 0, r.adv & ADV_SYM != 0);
      m := m | TP | AUTONEG;
      m := AddIf(m, gbit && r.gctrl & GCTRL_HD != 0, M1000_HALF);
      m := AddIf(m, gbit && r.gctrl & GCTRL_FD != 0, M1000_FULL);
    }

    static method CollectSlow(h10: bool, f10: bool, h100: bool, f100: bool, asym: bool, sym: bool) returns (m: bv32)
      ensures m == SlowModes(h10, f10, h100, f100, asym, sym)
    {
      m := AddIf(0, h10, M10_HALF);
      m := AddIf(m, f10, M10_FULL);
      m := AddIf(m, h100, M100_HALF);
      m := AddIf(m, f100, M100_FULL);
      m := AddIf(m, asym, ASYM_PAUSE);
      m := AddIf(m, sym, PAUSE);
    }

    static method CollectFibre(r: Regs) returns (m: bv32)
      ensures m == DecodeFibre(r)
    {
      m := AddIf(0, r.adv & FADV_HD != 0, M1000_HALF | M100_HALF);
      m := AddIf(m, r.adv & FADV_FD != 0, M1000_FULL | M100_FULL);
      m := AddIf(m, r.adv & FADV_ASYM != 0, ASYM_PAUSE);
      m := AddIf(m, r.adv & FADV_SYM != 0, PAUSE);
      m := m | FIBRE | AUTONEG;
    }
  }
}
