/**
 Configuration of an AR803x or AR8033 PHY and its encoding in the MDIO registers.
 Mode masks are those of the ethtool interface; the registers are CONTROL, AUTONEG_ADV and
 MASTER_SLAVE_CTRL of section 22.2.4 of IEEE 802.3, and the vendor's chip configuration register.
 On a fibre port register 4 has the 1000BASE-X layout of the same clause.
 */
module PhyConfig {

  // ethtool mode bits
  const M10_HALF: bv32 := 0x1
  const M10_FULL: bv32 := 0x2
  const M100_HALF: bv32 := 0x4
  const M100_FULL: bv32 := 0x8
  const M1000_HALF: bv32 := 0x10
  const M1000_FULL: bv32 := 0x20
  const AUTONEG: bv32 := 0x40
  const TP: bv32 := 0x80
  const FIBRE: bv32 := 0x400
  const PAUSE: bv32 := 0x2000
  const ASYM_PAUSE: bv32 := 0x4000
  const PAUSE_BITS: bv32 := 0x6000     // PAUSE | ASYM_PAUSE
  const GBIT_MODES: bv32 := 0x30       // M1000_FULL | M1000_HALF
  const FAST_MODES: bv32 := 0xF        // the four modes below 1000 Mbit/s

  // CONTROL
  const CTRL_RESET: bv16 := 0x8000
  const CTRL_SPEED_LSB: bv16 := 0x2000
  const CTRL_AUTONEG: bv16 := 0x1000
  const CTRL_POWERDOWN: bv16 := 0x800
  const CTRL_ISOLATE: bv16 := 0x400
  const CTRL_RESTART: bv16 := 0x200
  const CTRL_DUPLEX: bv16 := 0x100
  const CTRL_SPEED_MSB: bv16 := 0x40

  // AUTONEG_ADV, copper
  const ADV_ASYM: bv16 := 0x800
  const ADV_SYM: bv16 := 0x400
  const ADV_100T4: bv16 := 0x200
  const ADV_100FD: bv16 := 0x100
  const ADV_100HD: bv16 := 0x80
  const ADV_10FD: bv16 := 0x40
  const ADV_10HD: bv16 := 0x20
  const ADV_COPPER_FIELDS: bv16 := 0xFE0   // the mode bits, ADV_SYM and ADV_ASYM

  // AUTONEG_ADV, fibre
  const FADV_ASYM: bv16 := 0x100
  const FADV_SYM: bv16 := 0x80
  const FADV_HD: bv16 := 0x40
  const FADV_FD: bv16 := 0x20
  const ADV_FIBRE_FIELDS: bv16 := 0x1E0

  // MASTER_SLAVE_CTRL
  const GCTRL_FD: bv16 := 0x200
  const GCTRL_HD: bv16 := 0x100

  const CHIP_FX100: bv16 := 6
  const CHIP_BX1000: bv16 := 2

  const DUPLEX_FULL: nat := 1

  // ---- pause --------------------------------------------------------------------------------

  datatype PauseSetup = PauseNone | PauseRx | PauseTx | PauseRxTx

  function CalcAdvertisePause(sym: bool, asym: bool, setup: PauseSetup): bv32 {
    match setup
    case PauseRx => if asym then PAUSE_BITS else 0
    case PauseTx => if asym then ASYM_PAUSE else 0
    case PauseRxTx => if asym then PAUSE_BITS else if sym then PAUSE else 0
    case PauseNone => 0
  }

  datatype FlowControl = FlowControl(rx: bool, tx: bool)

  /** Table 28B-3 of Annex 28B of IEEE 802.3, seen from the local device. */
  function ResolvePause(local: bv32, partner: bv32): FlowControl {
    var (p, a) := (local & PAUSE != 0, local & ASYM_PAUSE != 0);
    var (lp, la) := (partner & PAUSE != 0, partner & ASYM_PAUSE != 0);
    if p && lp then FlowControl(true, true)
    else if p && a && la then FlowControl(true, false)
    else if a && lp && la then FlowControl(false, true)
    else FlowControl(false, false)
  }

  predicate Has(mask: bv32, bit: bv32) {
    mask & bit != 0
  }

  lemma {:induction false} CalcBits(sym: bool, asym: bool, setup: PauseSetup)
    ensures
      var m := CalcAdvertisePause(sym, asym, setup);
      && (Has(m, PAUSE) <==> (asym && (setup.PauseRx? || setup.PauseRxTx?)) || (!asym && sym && setup.PauseRxTx?))
      && (Has(m, ASYM_PAUSE) <==> asym && !setup.PauseNone?)
  {
    match setup
    case PauseNone =>
    case PauseTx =>
      if asym {
      }
    case PauseRx =>
      if asym {
      }
    case PauseRxTx =>
      if asym {
      } else if sym {
      }
  }

  /** The pause directions that Table 28B-3 resolves when calc_advertise_pause_param chose the bits and
      the status poll drops transmit pause in rx-only mode, for every MAC, set-up and partner. */
  lemma {:induction false} PauseResolves(sym: bool, asym: bool, setup: PauseSetup, partner: bv32)
    ensures
      var fc := ResolvePause(CalcAdvertisePause(sym, asym, setup), partner);
      var both, tx := Has(partner, PAUSE) && Has(partner, ASYM_PAUSE), fc.tx && !setup.PauseRx?;
      && (fc.rx <==>
            || (asym && (setup.PauseRx? || setup.PauseRxTx?) && (Has(partner, PAUSE) || Has(partner, ASYM_PAUSE)))
            || (!asym && sym && setup.PauseRxTx? && Has(partner, PAUSE)))
      && (tx <==>
            || (asym && setup.PauseTx? && both)
            || ((asym || sym) && setup.PauseRxTx? && Has(partner, PAUSE)))
  {
    CalcBits(sym, asym, setup);
    ResolveBits(CalcAdvertisePause(sym, asym, setup), partner);
  }

  lemma {:induction false} ResolveBits(local: bv32, partner: bv32)
    ensures
      var fc := ResolvePause(local, partner);
      && (fc.rx <==> Has(local, PAUSE) && (Has(partner, PAUSE) || (Has(local, ASYM_PAUSE) && Has(partner, ASYM_PAUSE))))
      && (fc.tx <==>
            || (Has(local, PAUSE) && Has(partner, PAUSE))
            || (!(Has(local, PAUSE) && Has(partner, ASYM_PAUSE)) &&
                Has(local, ASYM_PAUSE) && Has(partner, PAUSE) && Has(partner, ASYM_PAUSE)))
  {
  }

  /** So no direction is ever resolved that was not set up. All that were are resolved when the MAC
      supports asymmetric pause and the partner advertises both bits; a MAC with symmetric pause only
      gets both directions or none. */
  lemma {:induction false} PauseNeverExceedsSetup(sym: bool, asym: bool, setup: PauseSetup, partner: bv32)
    ensures
      var fc := ResolvePause(CalcAdvertisePause(sym, asym, setup), partner);
      var tx := fc.tx && !setup.PauseRx?;
      && (fc.rx ==> setup.PauseRx? || setup.PauseRxTx?)
      && (tx ==> setup.PauseTx? || setup.PauseRxTx?)
      && (asym && Has(partner, PAUSE) && Has(partner, ASYM_PAUSE) ==>
            (fc.rx <==> setup.PauseRx? || setup.PauseRxTx?) && (tx <==> setup.PauseTx? || setup.PauseRxTx?))
      && (!asym ==> fc.rx == tx == (sym && setup.PauseRxTx? && Has(partner, PAUSE)))
  {
    PauseResolves(sym, asym, setup, partner);
  }

  // ---- configuration and registers ----------------------------------------------------------

  datatype Port = PortTp | PortFibre

  datatype Config = Config(supported: bv32, advertise: bv32, autoneg: bool, speed: nat, duplex: nat,
                           port: Port, pause: PauseSetup)

  datatype Regs = Regs(control: bv16, adv: bv16, gctrl: bv16, chip: bv16)

  /** The AR8033 driver isolates the RGMII interface whenever it writes CONTROL; it has no fibre port. */
  datatype Variant = Ar803x | Ar8033

  /** The register with a bit set, if it is to be. */
  function Put(x: bv16, on: bool, bit: bv16): bv16 {
    if on then x | bit else x
  }

  function EncodeCopper(was: bv16, m: bv32): bv16 {
    CopperAdv(was, m & M10_HALF != 0, m & M10_FULL != 0, m & M100_HALF != 0, m & M100_FULL != 0,
              m & ASYM_PAUSE != 0, m & PAUSE != 0)
  }

  function CopperAdv(was: bv16, h10: bool, f10: bool, h100: bool, f100: bool, asym: bool, sym: bool): bv16 {
    var slow := Put(Put(was & !ADV_COPPER_FIELDS, h10, ADV_10HD), f10, ADV_10FD);
    var modes := Put(Put(slow, h100, ADV_100HD), f100, ADV_100FD);
    Put(Put(modes, asym, ADV_ASYM), sym, ADV_SYM)
  }

  function EncodeFibre(was: bv16, m: bv32): bv16 {
    FibreAdv(was, m & M1000_FULL != 0, m & M1000_HALF != 0, m & ASYM_PAUSE != 0, m & PAUSE != 0)
  }

  function FibreAdv(was: bv16, full: bool, half: bool, asym: bool, sym: bool): bv16 {
    Put(Put(Put(Put(was & !ADV_FIBRE_FIELDS, full, FADV_FD), half, FADV_HD), asym, FADV_ASYM), sym, FADV_SYM)
  }

  function EncodeControl(v: Variant, gbit: bool, c: Config): bv16 {
    Control(v.Ar8033?, c.autoneg, c.speed == 100, c.speed == 1000 && gbit, c.duplex != 0)
  }

  function Control(isolate: bool, autoneg: bool, fast: bool, gigabit: bool, full: bool): bv16 {
    var mode := Put(Put(0, isolate, CTRL_ISOLATE), autoneg, CTRL_AUTONEG);
    var speed := Put(Put(mode, fast, CTRL_SPEED_LSB), gigabit, CTRL_SPEED_MSB);
    Put(Put(speed, full, CTRL_DUPLEX), autoneg, CTRL_RESTART)
  }

  function EncodeChip(gbit: bool, c: Config, chip: bv16): bv16 {
    if !c.port.PortFibre? then chip
    else if c.autoneg || (c.speed == 1000 && gbit) then CHIP_BX1000
    else if c.speed == 100 then CHIP_FX100
    else chip
  }

  /** The registers set_config writes. */
  function Written(v: Variant, gbit: bool, c: Config, r: Regs): Regs {
    Regs(EncodeControl(v, gbit, c),
         if c.port.PortFibre? then EncodeFibre(r.adv, c.advertise) else EncodeCopper(r.adv, c.advertise),
         if c.port.PortFibre? then r.gctrl else EncodeGigabit(r.gctrl, gbit && c.advertise & M1000_FULL != 0),
         EncodeChip(gbit, c, r.chip))
  }

  /** set_config also forces the speed of an autonegotiating fibre port. */
  function Settled(c: Config): Config {
    c.(speed := if c.port.PortFibre? && c.autoneg then 1000 else c.speed)
  }

  // ---- what the encoding means --------------------------------------------------------------

  // The predicates of this section give bits by number, apart from the names used to write them.

  /** Bit by bit: AUTONEG_ADV of a copper port says what the mask says. */
  predicate AdvMirrors(m: bv32, adv: bv16) {
    AdvSays(adv, m & 0x1 != 0, m & 0x2 != 0, m & 0x4 != 0, m & 0x8 != 0, m & 0x4000 != 0, m & 0x2000 != 0)
  }

  predicate AdvSays(adv: bv16, h10: bool, f10: bool, h100: bool, f100: bool, asym: bool, sym: bool) {
    && (adv & 0x0020 != 0 <==> h10) && (adv & 0x0040 != 0 <==> f10)
    && (adv & 0x0080 != 0 <==> h100) && (adv & 0x0100 != 0 <==> f100)
    && (adv & 0x0400 != 0 <==> sym) && (adv & 0x0800 != 0 <==> asym)
    && adv & 0x0200 == 0
  }

  predicate FibreAdvMirrors(m: bv32, adv: bv16) {
    FibreSays(adv, m & 0x20 != 0, m & 0x10 != 0, m & 0x4000 != 0, m & 0x2000 != 0)
  }

  predicate FibreSays(adv: bv16, full: bool, half: bool, asym: bool, sym: bool) {
    && (adv & 0x0020 != 0 <==> full) && (adv & 0x0040 != 0 <==> half)
    && (adv & 0x0080 != 0 <==> sym) && (adv & 0x0100 != 0 <==> asym)
  }

  predicate GigabitMirrors(full: bool, gctrl: bv16) {
    (gctrl & 0x0200 != 0 <==> full) && gctrl & 0x0100 == 0
  }

  /** The vendor's chip configuration selects 1000BASE-X or 100BASE-FX on a fibre port. */
  predicate ChipMirrors(gbit: bool, c: Config, chip: bv16) {
    && (c.autoneg || (c.speed == 1000 && gbit) ==> chip == 2)
    && (!c.autoneg && c.speed == 100 ==> chip == 6)
  }

  /** The registers say what the configuration advertises, and on fibre which medium it drives. */
  predicate Mirrors(gbit: bool, c: Config, r: Regs) {
    match c.port
    case PortTp => AdvMirrors(c.advertise, r.adv) && GigabitMirrors(gbit && c.advertise & 0x20 != 0, r.gctrl)
    case PortFibre => FibreAdvMirrors(c.advertise, r.adv) && ChipMirrors(gbit, c, r.chip)
  }

  /** Bits 13 and 6 of CONTROL select the speed. */
  predicate SpeedSays(gbit: bool, speed: nat, control: bv16) {
    (control & 0x2000 != 0 <==> speed == 100) && (control & 0x0040 != 0 <==> speed == 1000 && gbit)
  }

  /** Bits 12, 8 and 10 of CONTROL: autonegotiation, full duplex, and isolate on the AR8033; all others,
      but the speed and the restart bit 9, are clear - reset and power-down too. */
  predicate ModeSays(v: Variant, autoneg: bool, duplex: nat, control: bv16) {
    && (control & 0x1000 != 0 <==> autoneg) && (control & 0x0100 != 0 <==> duplex != 0)
    && (control & 0x0400 != 0 <==> v.Ar8033?) && control & 0xC8BF == 0
  }

  /** CONTROL says what the configuration says. An autonegotiating fibre port has its speed forced only
      after CONTROL was put together. */
  predicate ControlMirrors(v: Variant, gbit: bool, c: Config, control: bv16) {
    ModeSays(v, c.autoneg, c.duplex, control) && (c.port.PortTp? || !c.autoneg ==> SpeedSays(gbit, c.speed, control))
  }

  lemma {:induction false} CopperBits(x: bv16, h10: bool, f10: bool, h100: bool, f100: bool, asym: bool, sym: bool)
    ensures AdvSays(CopperAdv(x, h10, f10, h100, f100, asym, sym), h10, f10, h100, f100, asym, sym)
    ensures CopperAdv(x, h10, f10, h100, f100, asym, sym) & 0xF01F == x & 0xF01F
  {
  }

  lemma {:induction false} CopperEncodes(x: bv16, m: bv32)
    ensures AdvMirrors(m, EncodeCopper(x, m)) && EncodeCopper(x, m) & 0xF01F == x & 0xF01F
  {
    CopperBits(x, m & M10_HALF != 0, m & M10_FULL != 0, m & M100_HALF != 0, m & M100_FULL != 0,
               m & ASYM_PAUSE != 0, m & PAUSE != 0);
  }

  lemma {:induction false} FibreBits(x: bv16, full: bool, half: bool, asym: bool, sym: bool)
    ensures FibreSays(FibreAdv(x, full, half, asym, sym), full, half, asym, sym)
    ensures FibreAdv(x, full, half, asym, sym) & 0xFE1F == x & 0xFE1F
    ensures FibreAdv(x, full, half, asym, sym) & 0xF01F == x & 0xF01F
  {
  }

  lemma {:induction false} FibreEncodes(x: bv16, m: bv32)
    ensures FibreAdvMirrors(m, EncodeFibre(x, m))
    ensures EncodeFibre(x, m) & 0xFE1F == x & 0xFE1F && EncodeFibre(x, m) & 0xF01F == x & 0xF01F
  {
    FibreBits(x, m & M1000_FULL != 0, m & M1000_HALF != 0, m & ASYM_PAUSE != 0, m & PAUSE != 0);
  }

  lemma {:induction false} ControlBits(isolate: bool, autoneg: bool, fast: bool, gigabit: bool, full: bool)
    ensures
      var y := Control(isolate, autoneg, fast, gigabit, full);
      && (y & 0x2000 != 0 <==> fast) && (y & 0x0040 != 0 <==> gigabit)
      && (y & 0x1000 != 0 <==> autoneg) && (y & 0x0200 != 0 <==> autoneg)
      && (y & 0x0100 != 0 <==> full) && (y & 0x0400 != 0 <==> isolate) && y & 0xC8BF == 0
  {
  }

  lemma {:induction false} ControlEncodes(v: Variant, gbit: bool, c: Config)
    ensures ModeSays(v, c.autoneg, c.duplex, EncodeControl(v, gbit, c))
    ensures SpeedSays(gbit, c.speed, EncodeControl(v, gbit, c))
    ensures EncodeControl(v, gbit, c) & 0x0200 != 0 <==> c.autoneg
  {
    ControlBits(v.Ar8033?, c.autoneg, c.speed == 100, c.speed == 1000 && gbit, c.duplex != 0);
  }

  function EncodeGigabit(gctrl: bv16, full: bool): bv16 {
    Put(gctrl & !(GCTRL_FD | GCTRL_HD), full, GCTRL_FD)
  }

  lemma {:induction false} GigabitBits(gctrl: bv16, full: bool)
    ensures GigabitMirrors(full, EncodeGigabit(gctrl, full)) && EncodeGigabit(gctrl, full) & 0xFCFF == gctrl & 0xFCFF
  {
  }

  /** Fields outside the ones set_config owns: the selector field (bits 0-4) and bits 12-15 of
      AUTONEG_ADV, all but the advertised modes on fibre, the master/slave bits, and the chip
      configuration unless a fibre port selects a medium. */
  predicate ForeignFieldsKept(c: Config, r: Regs, w: Regs) {
    && w.adv & 0xF01F == r.adv & 0xF01F
    && w.gctrl & 0xFCFF == r.gctrl & 0xFCFF
    && (c.port.PortFibre? ==> w.adv & 0xFE1F == r.adv & 0xFE1F && w.gctrl == r.gctrl)
    && (c.port.PortTp? || (!c.autoneg && c.speed != 100 && c.speed != 1000) ==> w.chip == r.chip)
  }

  /** Whatever the registers held, set_config makes them mirror the configuration, restarts
      autonegotiation iff it is on, and touches no foreign field. */
  lemma {:induction false} SetConfigMirrors(v: Variant, gbit: bool, c: Config, r: Regs)
    ensures Mirrors(gbit, Settled(c), Written(v, gbit, c, r))
    ensures ControlMirrors(v, gbit, Settled(c), Written(v, gbit, c, r).control)
    ensures SpeedSays(gbit, c.speed, Written(v, gbit, c, r).control)
    ensures Written(v, gbit, c, r).control & 0x0200 != 0 <==> c.autoneg
    ensures ForeignFieldsKept(c, r, Written(v, gbit, c, r))
  {
    ControlEncodes(v, gbit, c);
    if c.port.PortFibre? {
      FibreMirrors(v, gbit, c, r);
    } else {
      CopperMirrors(v, gbit, c, r);
    }
  }

  lemma {:induction false} CopperMirrors(v: Variant, gbit: bool, c: Config, r: Regs)
    requires c.port.PortTp?
    ensures Mirrors(gbit, c, Written(v, gbit, c, r)) && ForeignFieldsKept(c, r, Written(v, gbit, c, r))
  {
    CopperEncodes(r.adv, c.advertise);
    GigabitBits(r.gctrl, gbit && c.advertise & M1000_FULL != 0);
  }

  lemma {:induction false} FibreMirrors(v: Variant, gbit: bool, c: Config, r: Regs)
    requires c.port.PortFibre?
    ensures Mirrors(gbit, Settled(c), Written(v, gbit, c, r)) && ForeignFieldsKept(c, r, Written(v, gbit, c, r))
  {
    FibreEncodes(r.adv, c.advertise);
    assert Settled(c).advertise == c.advertise && Settled(c).port == c.port;
  }
}
