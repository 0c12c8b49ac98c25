/**
 The table of external ports: each device of the board names the external port it drives, and set-up
 accepts the board only when the ports come out numbered from zero without a gap.
 */
module PortTable {
  import opened PhyConfig

  const NO_PORT: nat := 255

  datatype Speed = NoLink | Speed10 | Speed100 | Speed1000

  datatype Owner = Free | Dev(i: nat)

  datatype Slot = Slot(owner: Owner, maxspeed: Speed)

  /** A device: the port it names, and what its ethtool handler answers. */
  datatype Device = Device(port: nat, settingsOk: bool, supported: bv32)

  type Board = ds: seq<Device> | |ds| <= 255 && forall d :: d in ds ==> d.port <= 255

  predicate Supports(supported: bv32, modes: bv32) {
    supported & modes != 0
  }

  const MODES_100: bv32 := 0xC
  const MODES_10: bv32 := 0x3

  /** The fastest of the supported modes. */
  function Fastest(supported: bv32, before: Speed): Speed {
    if Supports(supported, GBIT_MODES) then Speed1000
    else if Supports(supported, MODES_100) then Speed100
    else if Supports(supported, MODES_10) then Speed10
    else before
  }

  function Rank(s: Speed): nat {
    match s
    case NoLink => 0
    case Speed10 => 1
    case Speed100 => 2
    case Speed1000 => 3
  }

  /** The speed of each of the six modes: bits 0 and 1, 2 and 3, 4 and 5, half and full duplex. */
  predicate HasModeAt(supported: bv32, s: Speed) {
    match s
    case NoLink => true
    case Speed10 => supported & 0x1 != 0 || supported & 0x2 != 0
    case Speed100 => supported & 0x4 != 0 || supported & 0x8 != 0
    case Speed1000 => supported & 0x10 != 0 || supported & 0x20 != 0
  }

  /** The maximum speed is one of the supported ones, and no supported one is faster. */
  lemma {:induction false} FastestIsMaximum(supported: bv32, s: Speed)
    ensures HasModeAt(supported, Fastest(supported, NoLink))
    ensures HasModeAt(supported, s) ==> Rank(s) <= Rank(Fastest(supported, NoLink))
  {
    EitherMode(supported);
  }

  lemma {:induction false} EitherMode(m: bv32)
    ensures Supports(m, GBIT_MODES) <==> m & 0x10 != 0 || m & 0x20 != 0
    ensures Supports(m, MODES_100) <==> m & 0x4 != 0 || m & 0x8 != 0
    ensures Supports(m, MODES_10) <==> m & 0x1 != 0 || m & 0x2 != 0
  {
  }

  // ---- the conditions on a board ------------------------------------------------------------

  predicate External(ds: Board, i: nat)
    requires i < |ds|
  {
    ds[i].port != 255
  }

  /** The external ports named by the first n devices. */
  function Used(ds: Board, n: nat): set<nat>
    requires n <= |ds|
  {
    set i | 0 <= i < n && External(ds, i) :: ds[i].port
  }

  function Externals(ds: Board, n: nat): (k: nat)
    requires n <= |ds|
    ensures k <= n
  {
    if n == 0 then 0 else Externals(ds, n - 1) + if External(ds, n - 1) then 1 else 0
  }

  predicate Separate(ds: Board, n: nat)
    requires n <= |ds|
  {
    forall i, j :: 0 <= i < j < n && External(ds, i) ==> ds[i].port != ds[j].port
  }

  predicate Below(ds: Board, n: nat, k: nat)
    requires n <= |ds|
  {
    forall i :: 0 <= i < n && External(ds, i) ==> ds[i].port < k
  }

  predicate SettingsWork(ds: Board) {
    forall i :: 0 <= i < |ds| && External(ds, i) ==> ds[i].settingsOk
  }

  // ---- pigeons ------------------------------------------------------------------------------

  function Numbers(k: nat): (s: set<nat>)
    ensures |s| == k && forall p :: p in s <==> 0 <= p < k
  {
    if k == 0 then {} else Numbers(k - 1) + {k - 1}
  }

  lemma {:induction false} UsedCount(ds: Board, n: nat)
    requires n <= |ds| && Separate(ds, n)
    ensures |Used(ds, n)| == Externals(ds, n)
  {
    if n == 0 {
    } else {
      UsedCount(ds, n - 1);
      UsedNext(ds, n - 1);
    }
  }

  lemma {:induction false} UsedNext(ds: Board, n: nat)
    requires n < |ds| && Separate(ds, n + 1)
    ensures |Used(ds, n + 1)| == |Used(ds, n)| + if External(ds, n) then 1 else 0
  {
    if External(ds, n) {
      assert ds[n].port !in Used(ds, n);
      assert Used(ds, n + 1) == Used(ds, n) + {ds[n].port};
    } else {
      assert Used(ds, n + 1) == Used(ds, n);
    }
  }

  lemma {:induction false} SameSize(a: set<nat>, b: set<nat>)
    requires a <= b && |a| == |b|
    ensures a == b
    decreases |a|
  {
    if x :| x in a {
      SameSize(a - {x}, b - {x});
      assert a == (a - {x}) + {x} && b == (b - {x}) + {x};
    }
  }

  /** As many separate ports as there are numbers below k, all below k, are all of them. */
  lemma {:induction false} NoGap(ds: Board, k: nat)
    requires Separate(ds, |ds|) && Externals(ds, |ds|) == k
    ensures Below(ds, |ds|, k) <==> forall p :: 0 <= p < k ==> p in Used(ds, |ds|)
  {
    UsedCount(ds, |ds|);
    if Below(ds, |ds|, k) {
      SameSize(Used(ds, |ds|), Numbers(k));
    }
    if forall p :: 0 <= p < k ==> p in Used(ds, |ds|) {
      SameSize(Numbers(k), Used(ds, |ds|));
      forall i | 0 <= i < |ds| && External(ds, i) ensures ds[i].port < k {
        assert ds[i].port in Used(ds, |ds|);
      }
    }
  }

  // ---- the driver ---------------------------------------------------------------------------

  /** What the table says after the first n devices are entered. */
  predicate Entered(slots: seq<Slot>, ds: Board, n: nat)
    requires n <= |ds|
  {
    && (forall i :: 0 <= i < n && External(ds, i) ==> ds[i].port < |slots| && slots[ds[i].port].owner == Dev(i))
    && (forall p :: 0 <= p < |slots| && slots[p].owner.Dev? ==>
         slots[p].owner.i < n && External(ds, slots[p].owner.i) && ds[slots[p].owner.i].port == p)
  }

  predicate Zeroed(slots: seq<Slot>) {
    forall p :: 0 <= p < |slots| ==> slots[p] == Slot(Free, NoLink)
  }

  /** Devices and slots below k correspond one to one, each slot knows the fastest mode of its
      device, and the other slots are empty. */
  predicate Bijection(slots: seq<Slot>, ds: Board, k: nat)
  {
    && k <= |slots| && k == Externals(ds, |ds|)
    && Entered(slots, ds, |ds|)
    && (forall p :: 0 <= p < |slots| ==> (slots[p].owner.Dev? <==> p < k))
    && (forall p :: 0 <= p < k ==> slots[p].maxspeed == Fastest(ds[slots[p].owner.i].supported, NoLink))
    && (forall p :: k <= p < |slots| ==> slots[p].maxspeed == NoLink)
  }

  predicate NoSpeeds(slots: seq<Slot>) {
    forall p :: 0 <= p < |slots| ==> slots[p].maxspeed == NoLink
  }

  lemma {:induction false} NoneEntered(slots: seq<Slot>, ds: Board)
    requires Zeroed(slots)
    ensures Entered(slots, ds, 0) && NoSpeeds(slots)
    ensures Separate(ds, 0) && Below(ds, 0, |slots|) && Externals(ds, 0) == 0
  {
  }

  class Management {
    const ports: array<Slot>       // as many as the event system has
    var numberOfPorts: nat

    constructor (maxPorts: nat)
      requires maxPorts <= 255
      ensures ports.Length == maxPorts && Zeroed(ports[..]) && numberOfPorts == 0 && fresh(ports)
    {
      ports := new Slot[maxPorts](_ => Slot(Free, NoLink));
      numberOfPorts := 0;
    }

    /** avmnet_mgmt_init_ports */
    method InitPorts(ds: Board) returns (result: int)
      requires ports.Length <= 255 && Zeroed(ports[..])
      modifies this, ports
      ensures result == 0 || result == -1
      ensures result == 0 <==>
              var k := Externals(ds, |ds|);
              k <= ports.Length && Separate(ds, |ds|) && Below(ds, |ds|, k) && SettingsWork(ds)
      ensures result == 0 ==> numberOfPorts == Externals(ds, |ds|) && Bijection(ports[..], ds, numberOfPorts)
    {
      result := EnterDevices(ds);
      if result == 0 {
        ghost var slots := ports[..];
        PortsComplete(slots, ds, numberOfPorts);
        result := ReadSpeeds(ds);
        if result == 0 {
          SpeedsRead(slots, ports[..], ds, numberOfPorts);
        }
      }
    }

    /** The first n devices are entered. */
    ghost predicate Progress(ds: Board, n: nat)
      requires n <= |ds|
      reads this, ports
    {
      && Entered(ports[..], ds, n) && Separate(ds, n) && Below(ds, n, ports.Length)
      && numberOfPorts == Externals(ds, n) && NoSpeeds(ports[..])
    }

    /** The first loop: each device takes the slot it names. */
    method EnterDevices(ds: Board) returns (result: int)
      requires ports.Length <= 255 && Zeroed(ports[..])
      modifies this, ports
      ensures result == 0 || result == -1
      ensures result == 0 <==> Below(ds, |ds|, ports.Length) && Separate(ds, |ds|)
      ensures result == 0 ==> Progress(ds, |ds|) && numberOfPorts <= ports.Length
    {
      numberOfPorts := 0;
      NoneEntered(ports[..], ds);
      var devNr := 0;
      while devNr < |ds|
        invariant 0 <= devNr <= |ds| && Progress(ds, devNr)
      {
        var ok := EnterDevice(ds, devNr);
        if !ok {
          return -1;
        }
        devNr := devNr + 1;
      }
      Fits(ports[..], ds);
      result := 0;
    }

    method EnterDevice(ds: Board, devNr: nat) returns (ok: bool)
      requires devNr < |ds| && Progress(ds, devNr)
      modifies ports, `numberOfPorts
      ensures !ok ==> !(Below(ds, |ds|, ports.Length) && Separate(ds, |ds|))
      ensures ok ==> Progress(ds, devNr + 1)
    {
      var port := ds[devNr].port;
      if port == NO_PORT {
        EnterNone(ports[..], ds, devNr);
        return true;
      }
      if port > ports.Length - 1 {
        assert External(ds, devNr);
        return false;
      }
      if ports[port].owner.Dev? {
        Clash(ports[..], ds, devNr);
        return false;
      }
      Enter(ds, devNr);
      ok := true;
    }

    method Enter(ds: Board, devNr: nat)
      requires devNr < |ds| && External(ds, devNr) && ds[devNr].port < ports.Length
      requires Progress(ds, devNr) && ports[ds[devNr].port].owner.Free?
      modifies ports, `numberOfPorts
      ensures Progress(ds, devNr + 1)
    {
      var port := ds[devNr].port;
      ghost var was := ports[..];
      EnterOne(was, ds, devNr);
      ports[port] := ports[port].(owner := Dev(devNr));
      numberOfPorts := numberOfPorts + 1;
      assert ports[..] == was[port := Slot(Dev(devNr), was[port].maxspeed)];
    }

    /** The second loop: each port below the count must have a device that tells its modes. */
    method ReadSpeeds(ds: Board) returns (result: int)
      requires numberOfPorts <= ports.Length && Owned(ports[..], ds)
      modifies ports
      ensures result == 0 || result == -1
      ensures Owned(ports[..], ds) && forall p :: 0 <= p < ports.Length ==> ports[p].owner == old(ports[p].owner)
      ensures result == 0 <==> Complete(old(ports[..]), ds, numberOfPorts)
      ensures forall p :: numberOfPorts <= p < ports.Length ==> ports[p].maxspeed == old(ports[p].maxspeed)
      ensures result == 0 ==> forall p :: 0 <= p < numberOfPorts ==>
                ports[p].maxspeed == Fastest(ds[ports[p].owner.i].supported, old(ports[p].maxspeed))
    {
      for port := 0 to numberOfPorts
        invariant forall p :: 0 <= p < ports.Length ==> ports[p].owner == old(ports[p].owner)
        invariant forall p :: 0 <= p < port ==> Tells(ports[p], ds)
        invariant forall p :: 0 <= p < port ==>
                    ports[p].maxspeed == Fastest(ds[ports[p].owner.i].supported, old(ports[p].maxspeed))
        invariant forall p :: port <= p < ports.Length ==> ports[p].maxspeed == old(ports[p].maxspeed)
      {
        if ports[port].owner.Free? {
          return -1;
        }
        assert old(ports[..])[port] == old(ports[port]);
        var i := ports[port].owner.i;
        if !ds[i].settingsOk {
          return -1;
        }
        SetSpeed(port, ds[i].supported);
      }
      result := 0;
    }

    method SetSpeed(port: nat, supported: bv32)
      requires port < ports.Length
      modifies ports
      ensures ports[port] == Slot(old(ports[port].owner), Fastest(supported, old(ports[port].maxspeed)))
      ensures forall p :: 0 <= p < ports.Length && p != port ==> ports[p] == old(ports[p])
    {
      if Supports(supported, M1000_FULL) || Supports(supported, M1000_HALF) {
        ports[port] := ports[port].(maxspeed := Speed1000);
      } else if Supports(supported, M100_FULL) || Supports(supported, M100_HALF) {
        ports[port] := ports[port].(maxspeed := Speed100);
      } else if Supports(supported, M10_FULL) || Supports(supported, M10_HALF) {
        ports[port] := ports[port].(maxspeed := Speed10);
      }
      SupportsEither(supported);
    }
  }

  lemma {:induction false} SupportsEither(s: bv32)
    ensures Supports(s, M1000_FULL) || Supports(s, M1000_HALF) <==> Supports(s, GBIT_MODES)
    ensures Supports(s, M100_FULL) || Supports(s, M100_HALF) <==> Supports(s, MODES_100)
    ensures Supports(s, M10_FULL) || Supports(s, M10_HALF) <==> Supports(s, MODES_10)
  {
  }

  lemma {:induction false} Clash(slots: seq<Slot>, ds: Board, n: nat)
    requires n < |ds| && External(ds, n) && Entered(slots, ds, n)
    requires ds[n].port < |slots| && slots[ds[n].port].owner.Dev?
    ensures !Separate(ds, |ds|)
  {
    var i := slots[ds[n].port].owner.i;
    assert External(ds, i) && ds[i].port == ds[n].port;
  }

  lemma {:induction false} EnterOne(slots: seq<Slot>, ds: Board, n: nat)
    requires n < |ds| && External(ds, n) && Entered(slots, ds, n) && Separate(ds, n)
    requires ds[n].port < |slots| && slots[ds[n].port].owner.Free?
    ensures Separate(ds, n + 1)
    ensures Entered(slots[ds[n].port := Slot(Dev(n), slots[ds[n].port].maxspeed)], ds, n + 1)
  {
  }

  lemma {:induction false} EnterNone(slots: seq<Slot>, ds: Board, n: nat)
    requires n < |ds| && !External(ds, n) && Entered(slots, ds, n) && Separate(ds, n)
    ensures Separate(ds, n + 1) && Entered(slots, ds, n + 1)
  {
    forall i | 0 <= i < n && External(ds, i) ensures ds[i].port != ds[n].port {
    }
  }

  // Separate ports fit the table.
  lemma {:induction false} Fits(slots: seq<Slot>, ds: Board)
    requires Separate(ds, |ds|) && Entered(slots, ds, |ds|)
    ensures Externals(ds, |ds|) <= |slots|
  {
    UsedCount(ds, |ds|);
    SubsetSize(Used(ds, |ds|), Numbers(|slots|));
  }

  lemma {:induction false} SubsetSize(a: set<nat>, b: set<nat>)
    requires a <= b
    ensures |a| <= |b|
    decreases |a|
  {
    if x :| x in a {
      SubsetSize(a - {x}, b - {x});
    }
  }

  /** The devices in the slots are devices of the board. */
  predicate Owned(slots: seq<Slot>, ds: Board) {
    forall p :: 0 <= p < |slots| && slots[p].owner.Dev? ==> slots[p].owner.i < |ds|
  }

  predicate Tells(s: Slot, ds: Board) {
    s.owner.Dev? && s.owner.i < |ds| && ds[s.owner.i].settingsOk
  }

  // The table after the second loop.
  lemma {:induction false} SpeedsRead(was: seq<Slot>, now: seq<Slot>, ds: Board, k: nat)
    requires |was| == |now| && Entered(was, ds, |ds|) && NoSpeeds(was) && k == Externals(ds, |ds|) <= |was|
    requires Complete(was, ds, k) && forall p :: k <= p < |was| ==> was[p].owner.Free?
    requires forall p :: 0 <= p < |was| ==> now[p].owner == was[p].owner
    requires forall p :: 0 <= p < k ==> now[p].maxspeed == Fastest(ds[now[p].owner.i].supported, was[p].maxspeed)
    requires forall p :: k <= p < |was| ==> now[p].maxspeed == was[p].maxspeed
    ensures Bijection(now, ds, k)
  {
    forall i | 0 <= i < |ds| && External(ds, i) ensures ds[i].port < |now| && now[ds[i].port].owner == Dev(i) {
      assert was[ds[i].port].owner == Dev(i);
    }
    forall p | 0 <= p < k ensures now[p].owner.Dev? {
      assert Tells(was[p], ds);
    }
  }

  predicate Complete(slots: seq<Slot>, ds: Board, k: nat)
    requires k <= |slots|
  {
    forall p :: 0 <= p < k ==> Tells(slots[p], ds)
  }

  // What the second loop looks at, in terms of the board.
  lemma {:induction false} PortsComplete(slots: seq<Slot>, ds: Board, k: nat)
    requires Separate(ds, |ds|) && Entered(slots, ds, |ds|) && k == Externals(ds, |ds|) <= |slots|
    ensures Complete(slots, ds, k) <==> Below(ds, |ds|, k) && SettingsWork(ds)
    ensures Below(ds, |ds|, k) ==> forall p :: k <= p < |slots| ==> slots[p].owner.Free?
  {
    NoGap(ds, k);
    if Complete(slots, ds, k) {
      AllTell(slots, ds, k);
    }
    if Below(ds, |ds|, k) && SettingsWork(ds) {
      TellAll(slots, ds, k);
    }
  }

  lemma {:induction false} AllTell(slots: seq<Slot>, ds: Board, k: nat)
    requires Entered(slots, ds, |ds|) && k <= |slots| && Complete(slots, ds, k)
    ensures forall p :: 0 <= p < k ==> p in Used(ds, |ds|)
    ensures Below(ds, |ds|, k) ==> SettingsWork(ds)
  {
    forall p | 0 <= p < k ensures p in Used(ds, |ds|) {
      assert Tells(slots[p], ds) && External(ds, slots[p].owner.i);
    }
    if Below(ds, |ds|, k) {
      forall i | 0 <= i < |ds| && External(ds, i) ensures ds[i].settingsOk {
        assert Tells(slots[ds[i].port], ds);
      }
    }
  }

  lemma {:induction false} TellAll(slots: seq<Slot>, ds: Board, k: nat)
    requires Entered(slots, ds, |ds|) && k <= |slots| && SettingsWork(ds)
    requires forall p :: 0 <= p < k ==> p in Used(ds, |ds|)
    ensures Complete(slots, ds, k)
  {
    forall p | 0 <= p < k ensures Tells(slots[p], ds) {
      assert p in Used(ds, |ds|);
      var i :| 0 <= i < |ds| && External(ds, i) && ds[i].port == p;
      assert slots[p].owner == Dev(i);
    }
  }
}
