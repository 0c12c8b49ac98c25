/**
 Multicast fast forwarding: packets that arrive with interrupts disabled wait in a queue for a
 tasklet, which sends up to 32 of them a run; the others are sent at once.
 */
module MulticastQueue {

  const BUDGET: nat := 32

  datatype Packet = Packet(id: nat, source: nat, dev: nat)

  /** The net device: hardware address and identity, stamped on every packet. */
  datatype Device = Device(address: nat, number: nat)

  function Stamp(d: Device, p: Packet): Packet {
    Packet(p.id, d.address, d.number)
  }

  datatype Event =
    | Init(device: bool, noMcfw: bool)
    | Enable(error: bool)
    | Disable
    | Exit(device: bool)
    | Transmit(p: Packet, irqsOff: bool)
    | Tasklet

  datatype Flags = Flags(scheduled: bool, initDone: bool, used: bool, registered: bool)

  /** The packets waiting, those that left the queue, those that never were in it, and all that left
      the driver, each in order; and those among the last that were sent and that were freed. */
  datatype Packets = Packets(queue: seq<Packet>, left: seq<Packet>, direct: seq<Packet>, gone: seq<Packet>,
                             sent: seq<Packet>, freed: seq<Packet>)

  datatype State = State(flags: Flags, packets: Packets)

  const START := State(Flags(false, false, false, false), Packets([], [], [], [], [], []))

  function Min(a: nat, b: nat): nat {
    if a < b then a else b
  }

  function StepFlags(f: Flags, waiting: nat, e: Event): Flags {
    match e
    case Init(device, noMcfw) =>
      if !device || noMcfw || f.initDone then f else f.(scheduled := false, initDone := true)
    case Enable(error) => if f.initDone && !f.used && !error then f.(registered := true, used := true) else f
    case Disable => if f.initDone && f.used then f.(registered := false, used := false) else f
    case Exit(device) => if device && f.initDone then Flags(false, false, false, f.registered && !f.used) else f
    case Transmit(_, irqsOff) => if irqsOff then f.(scheduled := true) else f
    case Tasklet => f.(scheduled := waiting > BUDGET)
  }

  function StepPackets(d: Device, f: Flags, s: Packets, e: Event): Packets {
    match e
    case Init(device, noMcfw) => if !device || noMcfw || f.initDone then s else s.(queue := [])
    case Enable(_) => s
    case Disable => s
    case Exit(device) =>
      if device && f.initDone then
        Packets([], s.left + s.queue, s.direct, s.gone + s.queue, s.sent, s.freed + s.queue)
      else s
    case Transmit(p, irqsOff) =>
      if irqsOff then s.(queue := s.queue + [Stamp(d, p)])
      else s.(direct := s.direct + [Stamp(d, p)], gone := s.gone + [Stamp(d, p)], sent := s.sent + [Stamp(d, p)])
    case Tasklet => Drain(s, Min(BUDGET, |s.queue|))
  }

  function Drain(s: Packets, k: nat): Packets
    requires k <= |s.queue|
  {
    var out := s.queue[..k];
    Packets(s.queue[k..], s.left + out, s.direct, s.gone + out, s.sent + out, s.freed)
  }

  function Step(d: Device, s: State, e: Event): State {
    State(StepFlags(s.flags, |s.packets.queue|, e), StepPackets(d, s.flags, s.packets, e))
  }

  /** The framework transmits through registered drivers only, and the kernel runs scheduled tasklets. */
  predicate Possible(f: Flags, e: Event) {
    (e.Transmit? ==> f.registered) && (e.Tasklet? ==> f.scheduled)
  }

  function Run(d: Device, es: seq<Event>): State {
    if es == [] then START else Step(d, Run(d, es[..|es| - 1]), es[|es| - 1])
  }

  predicate Legal(d: Device, es: seq<Event>) {
    es != [] ==>
      Legal(d, es[..|es| - 1]) && Possible(Run(d, es[..|es| - 1]).flags, es[|es| - 1])
  }

  lemma {:induction false} LegalPrefix(d: Device, es: seq<Event>, n: nat)
    requires n <= |es| && Legal(d, es)
    ensures Legal(d, es[..n])
  {
    if n == |es| {
      assert es[..n] == es;
    } else {
      assert es[..|es| - 1][..n] == es[..n];
      LegalPrefix(d, es[..|es| - 1], n);
    }
  }

  // ---- flags --------------------------------------------------------------------------------

  predicate Inv(s: State) {
    && (s.packets.queue != [] ==> s.flags.scheduled)
    && (s.flags.registered <==> s.flags.used)
    && (s.flags.used ==> s.flags.initDone)
    && (!s.flags.initDone ==> s.packets.queue == [])
  }

  lemma {:induction false} StepKeepsInv(d: Device, s: State, e: Event)
    requires Inv(s) && Possible(s.flags, e)
    ensures Inv(Step(d, s, e))
  {
  }

  /** In every legal run: a packet never waits without a tasklet on its way, and the driver is
      registered exactly while it is used, which it is only when initialised. */
  lemma {:induction false} InvariantHolds(d: Device, es: seq<Event>)
    requires Legal(d, es)
    ensures Inv(Run(d, es))
  {
    if es == [] {
    } else {
      var n := |es| - 1;
      InvariantHolds(d, es[..n]);
      assert Possible(Run(d, es[..n]).flags, es[n]);
      StepKeepsInv(d, Run(d, es[..n]), es[n]);
    }
  }

  /** Initialising empties a queue that is empty already. */
  lemma {:induction false} InitKeepsPackets(d: Device, s: State, e: Event)
    requires Inv(s) && e.Init?
    ensures Step(d, s, e).packets == s.packets
    ensures !s.flags.initDone ==> s.packets.queue == []
  {
  }

  /** Some initialisation of a device that wants forwarding, and no exit since. */
  predicate Initialised(es: seq<Event>) {
    es != [] &&
    var e := es[|es| - 1];
    e == Init(true, false) || (e != Exit(true) && Initialised(es[..|es| - 1]))
  }

  /** Some successful enabling while initialised, and neither disabling nor exit since. */
  predicate InUse(es: seq<Event>) {
    es != [] &&
    var e, before := es[|es| - 1], es[..|es| - 1];
    (e == Enable(false) && Initialised(before)) || (e != Disable && e != Exit(true) && InUse(before))
  }

  lemma {:induction false} InUseInitialised(es: seq<Event>)
    ensures InUse(es) ==> Initialised(es)
  {
    if es == [] {
    } else {
      InUseInitialised(es[..|es| - 1]);
    }
  }

  /** What the calls so far make of the flags. */
  lemma {:induction false} FlagsMean(d: Device, es: seq<Event>)
    requires Legal(d, es)
    ensures Run(d, es).flags.initDone <==> Initialised(es)
    ensures Run(d, es).flags.registered <==> InUse(es)
    ensures Run(d, es).flags.used <==> InUse(es)
  {
    if es == [] {
    } else {
      var n := |es| - 1;
      FlagsMean(d, es[..n]);
      InUseInitialised(es[..n]);
      FlagStep(d, Run(d, es[..n]), es[n]);
    }
  }

  lemma {:induction false} FlagStep(d: Device, s: State, e: Event)
    requires s.flags.registered == s.flags.used && (s.flags.used ==> s.flags.initDone)
    ensures
      var f, f' := s.flags, Step(d, s, e).flags;
      && (f'.initDone <==> e == Init(true, false) || (e != Exit(true) && f.initDone))
      && (f'.used <==> (e == Enable(false) && f.initDone) || (e != Disable && e != Exit(true) && f.used))
      && f'.registered == f'.used
  {
  }

  // ---- packets ------------------------------------------------------------------------------

  /** What an event hands to the driver, of the packets that have to wait and of those that do not. */
  function Arriving(d: Device, e: Event, waiting: bool, direct: bool): seq<Packet> {
    if e.Transmit? && (if e.irqsOff then waiting else direct) then [Stamp(d, e.p)] else []
  }

  function Arrivals(d: Device, es: seq<Event>, waiting: bool, direct: bool): seq<Packet> {
    if es == [] then []
    else Arrivals(d, es[..|es| - 1], waiting, direct) + Arriving(d, es[|es| - 1], waiting, direct)
  }

  lemma {:induction false} QueueStep(d: Device, s: State, e: Event)
    requires Inv(s)
    ensures
      var was, now := s.packets, Step(d, s, e).packets;
      && now.left + now.queue == was.left + was.queue + Arriving(d, e, true, false)
      && now.direct == was.direct + Arriving(d, e, false, true)
  {
    var was, now := s.packets, Step(d, s, e).packets;
    if e.Tasklet? {
      var k := Min(BUDGET, |was.queue|);
      assert was.queue == was.queue[..k] + was.queue[k..];
    }
  }

  /** No packet is lost, invented or altered, and those that wait leave in the order in which they
      came, whatever the order of calls. */
  lemma {:induction false} QueueIsFifo(d: Device, es: seq<Event>)
    requires Legal(d, es)
    ensures Run(d, es).packets.left + Run(d, es).packets.queue == Arrivals(d, es, true, false)
    ensures Run(d, es).packets.direct == Arrivals(d, es, false, true)
  {
    if es == [] {
    } else {
      var n := |es| - 1;
      QueueIsFifo(d, es[..n]);
      InvariantHolds(d, es[..n]);
      QueueStep(d, Run(d, es[..n]), es[n]);
    }
  }

  predicate Accounted(s: Packets) {
    && multiset(s.gone) == multiset(s.left) + multiset(s.direct)
    && multiset(s.gone) == multiset(s.sent) + multiset(s.freed)
  }

  lemma {:induction false} StepAccounts(d: Device, s: State, e: Event)
    requires Accounted(s.packets)
    ensures Accounted(Step(d, s, e).packets)
  {
  }

  /** Every packet that reached the driver is exactly one of sent, freed and waiting. */
  lemma {:induction false} Conservation(d: Device, es: seq<Event>)
    requires Legal(d, es)
    ensures
      var s := Run(d, es).packets;
      && multiset(Arrivals(d, es, true, true)) == multiset(s.sent) + multiset(s.freed) + multiset(s.queue)
      && multiset(s.gone) == multiset(s.sent) + multiset(s.freed)
  {
    AccountedAll(d, es);
    QueueIsFifo(d, es);
    BothKinds(d, es);
    var s := Run(d, es).packets;
    assert multiset(s.left + s.queue) == multiset(s.left) + multiset(s.queue);
  }

  lemma {:induction false} AccountedAll(d: Device, es: seq<Event>)
    ensures Accounted(Run(d, es).packets)
  {
    if es == [] {
    } else {
      AccountedAll(d, es[..|es| - 1]);
      StepAccounts(d, Run(d, es[..|es| - 1]), es[|es| - 1]);
    }
  }

  lemma {:induction false} BothKinds(d: Device, es: seq<Event>)
    ensures multiset(Arrivals(d, es, true, true)) ==
            multiset(Arrivals(d, es, true, false)) + multiset(Arrivals(d, es, false, true))
  {
    if es == [] {
    } else {
      BothKinds(d, es[..|es| - 1]);
    }
  }

  /** Only exit frees packets, those that wait; everything else that leaves is sent. */
  lemma {:induction false} StepSends(d: Device, s: State, e: Event)
    ensures
      var was, now := s.packets, Step(d, s, e).packets;
      && was.gone <= now.gone
      && (e.Exit? ==> now.sent == was.sent && now.freed == was.freed + now.gone[|was.gone|..])
      && (!e.Exit? ==> now.freed == was.freed && now.sent == was.sent + now.gone[|was.gone|..])
  {
  }

  /** Without an exit nothing is freed, and what left the driver was sent, in that order. */
  lemma {:induction false} NoExitNoLoss(d: Device, es: seq<Event>)
    requires forall e :: e in es ==> !e.Exit?
    ensures Run(d, es).packets.freed == [] && Run(d, es).packets.sent == Run(d, es).packets.gone
  {
    if es == [] {
    } else {
      var n := |es| - 1;
      NoExitNoLoss(d, es[..n]);
      assert es[n] in es;
      StepSends(d, Run(d, es[..n]), es[n]);
    }
  }

  predicate AllFrom(d: Device, ps: seq<Packet>) {
    forall i :: 0 <= i < |ps| ==> ps[i].source == d.address && ps[i].dev == d.number
  }

  /** Every packet in the driver's hands, or out of them, bears the device's address and identity. */
  lemma {:induction false} AllStamped(d: Device, es: seq<Event>)
    ensures
      var s := Run(d, es).packets;
      AllFrom(d, s.queue) && AllFrom(d, s.sent) && AllFrom(d, s.freed)
  {
    if es == [] {
    } else {
      AllStamped(d, es[..|es| - 1]);
      StampStep(d, Run(d, es[..|es| - 1]), es[|es| - 1]);
    }
  }

  lemma {:induction false} StampStep(d: Device, s: State, e: Event)
    requires AllFrom(d, s.packets.queue) && AllFrom(d, s.packets.sent) && AllFrom(d, s.packets.freed)
    ensures
      var s' := Step(d, s, e).packets;
      AllFrom(d, s'.queue) && AllFrom(d, s'.sent) && AllFrom(d, s'.freed)
  {
  }

  // ---- order over all packets ---------------------------------------------------------------

  /** A packet is sent at once while others wait. */
  predicate Overtakes(s: State, e: Event) {
    e.Transmit? && !e.irqsOff && s.packets.queue != []
  }

  predicate OvertakesAt(d: Device, es: seq<Event>, i: nat)
    requires i < |es|
  {
    Overtakes(Run(d, es[..i]), es[i])
  }

  predicate Distinct(ps: seq<Packet>) {
    forall i, j :: 0 <= i < j < |ps| ==> ps[i] != ps[j]
  }

  lemma {:induction false} OrderStep(d: Device, s: State, e: Event)
    requires Inv(s)
    ensures
      var was, now := s.packets, Step(d, s, e).packets;
      && was.gone <= now.gone
      && |now.gone + now.queue| == |was.gone + was.queue| + |Arriving(d, e, true, true)|
      && (!Overtakes(s, e) ==> now.gone + now.queue == was.gone + was.queue + Arriving(d, e, true, true))
      && (Overtakes(s, e) ==> now.gone == was.gone + [Stamp(d, e.p)] && now.queue == was.queue)
  {
    var was := s.packets;
    if e.Tasklet? {
      var k := Min(BUDGET, |was.queue|);
      assert was.queue == was.queue[..k] + was.queue[k..];
    }
  }

  lemma {:induction false} LengthsAgree(d: Device, es: seq<Event>)
    requires Legal(d, es)
    ensures |Run(d, es).packets.gone + Run(d, es).packets.queue| == |Arrivals(d, es, true, true)|
  {
    if es == [] {
    } else {
      var n := |es| - 1;
      InvariantHolds(d, es[..n]);
      LengthsAgree(d, es[..n]);
      OrderStep(d, Run(d, es[..n]), es[n]);
    }
  }

  lemma {:induction false} InOrder(d: Device, es: seq<Event>)
    requires Legal(d, es) && forall i :: 0 <= i < |es| ==> !OvertakesAt(d, es, i)
    ensures Run(d, es).packets.gone + Run(d, es).packets.queue == Arrivals(d, es, true, true)
  {
    if es == [] {
    } else {
      var n := |es| - 1;
      InvariantHolds(d, es[..n]);
      forall i | 0 <= i < n ensures !OvertakesAt(d, es[..n], i) {
        assert es[..n][..i] == es[..i];
        assert !OvertakesAt(d, es, i);
      }
      InOrder(d, es[..n]);
      assert !OvertakesAt(d, es, n);
      OrderStep(d, Run(d, es[..n]), es[n]);
    }
  }

  // What a prefix of the run took in and gave out stays in place.
  lemma {:induction false} GoneGrows(d: Device, es: seq<Event>, i: nat)
    requires i <= |es| && Legal(d, es)
    ensures Run(d, es[..i]).packets.gone <= Run(d, es).packets.gone
  {
    if i == |es| {
      assert es[..i] == es;
    } else {
      var n := |es| - 1;
      assert es[..n][..i] == es[..i];
      GoneGrows(d, es[..n], i);
      InvariantHolds(d, es[..n]);
      OrderStep(d, Run(d, es[..n]), es[n]);
    }
  }

  lemma {:induction false} ArrivalsGrow(d: Device, es: seq<Event>, i: nat, waiting: bool, direct: bool)
    requires i <= |es|
    ensures Arrivals(d, es[..i], waiting, direct) <= Arrivals(d, es, waiting, direct)
  {
    if i == |es| {
      assert es[..i] == es;
    } else {
      assert es[..|es| - 1][..i] == es[..i];
      ArrivalsGrow(d, es[..|es| - 1], i, waiting, direct);
    }
  }

  /** Packets that can be told apart leave the driver in the order in which they reached it exactly
      when none was sent at once while others waited. */
  lemma {:induction false} InOrderIff(d: Device, es: seq<Event>)
    requires Legal(d, es) && Distinct(Arrivals(d, es, true, true))
    ensures Run(d, es).packets.gone + Run(d, es).packets.queue == Arrivals(d, es, true, true) <==>
            forall i :: 0 <= i < |es| ==> !OvertakesAt(d, es, i)
  {
    if i :| 0 <= i < |es| && OvertakesAt(d, es, i) {
      Overtaken(d, es, i);
    } else {
      InOrder(d, es);
    }
  }

  lemma {:induction false} Overtaken(d: Device, es: seq<Event>, i: nat)
    requires Legal(d, es) && Distinct(Arrivals(d, es, true, true))
    requires i < |es| && OvertakesAt(d, es, i)
    ensures Run(d, es).packets.gone + Run(d, es).packets.queue != Arrivals(d, es, true, true)
  {
    var s, all := Run(d, es[..i]), Arrivals(d, es, true, true);
    var at, p := |s.packets.gone|, Stamp(d, es[i].p);
    LegalPrefix(d, es, i);
    InvariantHolds(d, es[..i]);
    LengthsAgree(d, es[..i]);
    OrderStep(d, s, es[i]);
    assert es[..i + 1][..i] == es[..i];
    GoneGrows(d, es, i + 1);
    ArrivalsGrow(d, es, i + 1, true, true);
    assert Run(d, es).packets.gone[at] == p;
    assert all[at + |s.packets.queue|] == p;
    assert all[at] != all[at + |s.packets.queue|];
  }

  /** A packet that waits, and one sent at once behind it. */
  function Overtaking(p: Packet, q: Packet): seq<Event> {
    [Init(true, false), Enable(false), Transmit(p, true), Transmit(q, false)]
  }

  /** After n events: a legal run so far, its state, and what arrived. */
  predicate Reaches(d: Device, es: seq<Event>, n: nat, s: State, arrived: seq<Packet>) {
    n <= |es| && Legal(d, es[..n]) && Run(d, es[..n]) == s && Arrivals(d, es[..n], true, true) == arrived
  }

  lemma {:induction false} ReachesNext(d: Device, es: seq<Event>, n: nat, s: State, arrived: seq<Packet>)
    requires n < |es| && Reaches(d, es, n, s, arrived) && Possible(s.flags, es[n])
    ensures Reaches(d, es, n + 1, Step(d, s, es[n]), arrived + Arriving(d, es[n], true, true))
  {
    assert es[..n + 1][..n] == es[..n];
  }

  const IDLE := State(Flags(false, true, false, false), Packets([], [], [], [], [], []))
  const USED := State(Flags(false, true, true, true), Packets([], [], [], [], [], []))

  function Holding(p: Packet): State {
    State(Flags(true, true, true, true), Packets([p], [], [], [], [], []))
  }

  lemma {:induction false} OvertakingStarts(d: Device, es: seq<Event>, i: nat)
    requires i + 2 <= |es| && es[i] == Init(true, false) && es[i + 1] == Enable(false)
    requires Reaches(d, es, i, START, [])
    ensures Reaches(d, es, i + 2, USED, [])
  {
    ReachesNext(d, es, i, START, []);
    assert Step(d, START, Init(true, false)) == IDLE;
    ReachesNext(d, es, i + 1, IDLE, []);
    assert Step(d, IDLE, Enable(false)) == USED;
  }

  lemma {:induction false} OvertakingEnds(d: Device, es: seq<Event>, i: nat, p: Packet, q: Packet)
    requires i + 2 <= |es| && es[i] == Transmit(p, true) && es[i + 1] == Transmit(q, false)
    requires Reaches(d, es, i, USED, [])
    ensures Reaches(d, es, i + 2, Step(d, Holding(Stamp(d, p)), es[i + 1]), [Stamp(d, p), Stamp(d, q)])
  {
    ReachesNext(d, es, i, USED, []);
    assert Step(d, USED, Transmit(p, true)) == Holding(Stamp(d, p));
    assert [] + [Stamp(d, p)] == [Stamp(d, p)];
    ReachesNext(d, es, i + 1, Holding(Stamp(d, p)), [Stamp(d, p)]);
    assert [Stamp(d, p)] + [Stamp(d, q)] == [Stamp(d, p), Stamp(d, q)];
  }

  /** In that run the later packet leaves first. */
  lemma {:induction false} LaterLeavesFirst(d: Device, p: Packet, q: Packet)
    requires p.id != q.id
    ensures Legal(d, Overtaking(p, q))
    ensures Arrivals(d, Overtaking(p, q), true, true) == [Stamp(d, p), Stamp(d, q)]
    ensures Run(d, Overtaking(p, q)).packets.gone + Run(d, Overtaking(p, q)).packets.queue == [Stamp(d, q), Stamp(d, p)]
  {
    var es := Overtaking(p, q);
    assert es[..0] == [];
    OvertakingStarts(d, es, 0);
    OvertakingEnds(d, es, 2, p, q);
    assert es[..4] == es;
  }

  // ---- how long a packet waits --------------------------------------------------------------

  function TaskletRuns(es: seq<Event>): nat {
    if es == [] then 0 else TaskletRuns(es[..|es| - 1]) + if es[|es| - 1].Tasklet? then 1 else 0
  }

  lemma {:induction false} RunsSplit(es: seq<Event>, n: nat)
    requires n < |es|
    ensures TaskletRuns(es[n..]) == TaskletRuns(es[..|es| - 1][n..]) + if es[|es| - 1].Tasklet? then 1 else 0
  {
    assert es[n..][..|es| - 1 - n] == es[..|es| - 1][n..];
  }

  /** How many packets left the queue, and how many came to wait in it. */
  function Left(d: Device, es: seq<Event>): nat {
    |Run(d, es).packets.left|
  }

  function Waiting(d: Device, es: seq<Event>): nat {
    |Arrivals(d, es, true, false)|
  }

  lemma {:induction false} Progress(d: Device, es: seq<Event>)
    requires es != [] && Legal(d, es)
    ensures
      var was := es[..|es| - 1];
      Left(d, es) >= if es[|es| - 1].Tasklet? then Min(Waiting(d, was), Left(d, was) + BUDGET) else Left(d, was)
  {
    LegalPrefix(d, es, |es| - 1);
    QueueIsFifo(d, es[..|es| - 1]);
  }

  lemma {:induction false} Grown(d: Device, es: seq<Event>, n: nat)
    requires n <= |es|
    ensures Waiting(d, es[..n]) <= Waiting(d, es)
  {
    ArrivalsGrow(d, es, n, true, false);
  }

  lemma {:induction false} Combine(d: Device, es: seq<Event>, was: seq<Event>, start: seq<Event>, k: nat)
    requires Left(d, was) >= Min(Waiting(d, start), Left(d, start) + 32 * k)
    requires Waiting(d, start) <= Waiting(d, was)
    requires es != []
    requires Left(d, es) >=
             if es[|es| - 1].Tasklet? then Min(Waiting(d, was), Left(d, was) + BUDGET) else Left(d, was)
    ensures Left(d, es) >= Min(Waiting(d, start), Left(d, start) + 32 * (k + if es[|es| - 1].Tasklet? then 1 else 0))
  {
  }

  /** Each tasklet run takes 32 more packets off the queue, or all there are: of the packets that came
      in the first n events, no later event delays one. */
  lemma {:induction false} BoundedWait(d: Device, es: seq<Event>, n: nat)
    requires n <= |es| && Legal(d, es)
    ensures Left(d, es) >= Min(Waiting(d, es[..n]), Left(d, es[..n]) + 32 * TaskletRuns(es[n..]))
  {
    if n == |es| {
      assert es[..n] == es && TaskletRuns(es[n..]) == 0;
    } else {
      var m := |es| - 1;
      var was, start := es[..m], es[..n];
      assert was[..n] == start;
      BoundedWait(d, was, n);
      Grown(d, was, n);
      Progress(d, es);
      Combine(d, es, was, start, TaskletRuns(was[n..]));
      RunsSplit(es, n);
    }
  }

  function Tasklets(k: nat): (es: seq<Event>)
    ensures |es| == k
  {
    if k == 0 then [] else Tasklets(k - 1) + [Tasklet]
  }

  /** With no other event, n waiting packets keep the tasklet scheduled for ceil(n / 32) runs and no
      longer; after k runs all but the first 32 * k are left. */
  lemma {:induction false} DrainTime(d: Device, es: seq<Event>, k: nat)
    ensures
      var q := Run(d, es).packets.queue;
      var out := Run(d, es + Tasklets(k));
      && out.packets.queue == q[Min(BUDGET * k, |q|)..]
      && (k > 0 ==> (out.flags.scheduled <==> k < (|q| + BUDGET - 1) / BUDGET))
  {
    if k == 0 {
      assert es + Tasklets(0) == es;
    } else {
      DrainTime(d, es, k - 1);
      assert (es + Tasklets(k))[..|es| + k - 1] == es + Tasklets(k - 1);
    }
  }

  // ---- the driver ---------------------------------------------------------------------------

  class Forwarder {
    const d: Device
    var queue: seq<Packet>         // mcfw_queue, oldest first
    var flags: Flags
    var sent: seq<Packet>          // handed to the network stack
    var freed: seq<Packet>
    ghost var history: seq<Event>

    ghost predicate Valid()
      reads this
    {
      Legal(d, history) && Matches(Run(d, history))
    }

    ghost predicate Matches(s: State)
      reads this
    {
      flags == s.flags && queue == s.packets.queue && sent == s.packets.sent && freed == s.packets.freed
    }

    constructor (d: Device)
      ensures Valid() && history == [] && this.d == d && !flags.initDone && queue == sent == freed == []
    {
      this.d := d;
      queue, sent, freed, history := [], [], [], [];
      flags := Flags(false, false, false, false);
    }

    /** avmnet_dev_queue_xmit, called by the framework through avmnet_mc_transmit_single. */
    method TransmitSingle(p: Packet, irqsOff: bool)
      requires Valid() && flags.registered
      modifies this
      ensures Valid() && history == old(history) + [Transmit(p, irqsOff)]
    {
      Extend(Transmit(p, irqsOff));
      var skb := p.(source := d.address);
      skb := skb.(dev := d.number);
      if irqsOff {
        queue := queue + [skb];
        flags := flags.(scheduled := true);
      } else {
        sent := sent + [skb];
      }
    }

    /** avmnet_mcfw_handle_tasklet */
    method HandleTasklet()
      requires Valid() && flags.scheduled
      modifies this
      ensures Valid() && history == old(history) + [Tasklet]
    {
      Extend(Tasklet);
      flags := flags.(scheduled := false);
      SendSome();
      if |queue| > 0 {
        flags := flags.(scheduled := true);
      }
    }

    method SendSome()
      modifies `queue, `sent
      ensures
        var k := Min(BUDGET, |old(queue)|);
        queue == old(queue)[k..] && sent == old(sent) + old(queue)[..k]
    {
      ghost var all := queue;
      var i := BUDGET;
      while i > 0 && queue != []
        invariant 0 <= i <= BUDGET && BUDGET - i <= |all| && queue == all[BUDGET - i..]
        invariant sent == old(sent) + all[..BUDGET - i]
      {
        sent := sent + [queue[0]];
        queue := queue[1..];
        i := i - 1;
      }
    }

    /** avmnet_mcfw_enable. `error` is the framework's answer to the registration. */
    method EnableDriver(error: bool)
      requires Valid()
      modifies this
      ensures Valid() && history == old(history) + [Enable(error)]
    {
      Extend(Enable(error));
      if flags.initDone {
        if !flags.used {
          if !error {
            flags := flags.(registered := true);
            flags := flags.(used := true);
          }
        }
      }
    }

    /** avmnet_mcfw_disable */
    method DisableDriver()
      requires Valid()
      modifies this
      ensures Valid() && history == old(history) + [Disable]
    {
      Extend(Disable);
      if flags.initDone {
        if flags.used {
          flags := flags.(used := false);
          flags := flags.(registered := false);
        }
      }
    }

    /** avmnet_mcfw_init */
    method InitDriver(device: bool, noMcfw: bool)
      requires Valid()
      modifies this
      ensures Valid() && history == old(history) + [Init(device, noMcfw)]
    {
      InvariantHolds(d, history);
      InitKeepsPackets(d, Run(d, history), Init(device, noMcfw));
      Extend(Init(device, noMcfw));
      if !device || noMcfw {
        return;
      }
      if !flags.initDone {
        queue := [];
        flags := Flags(false, true, flags.used, flags.registered);
      }
    }

    /** avmnet_mcfw_exit. What the kernel does while it waits for the tasklet to end comes before. */
    method ExitDriver(device: bool)
      requires Valid()
      modifies this
      ensures Valid() && history == old(history) + [Exit(device)]
    {
      Extend(Exit(device));
      if !device {
        return;
      }
      if flags.initDone {
        if flags.used {
          flags := flags.(used := false);
          flags := flags.(registered := false);
        }
        flags := flags.(scheduled := false);
        FreeQueue();
        flags := flags.(initDone := false);
      }
    }

    method FreeQueue()
      modifies `queue, `freed
      ensures queue == [] && freed == old(freed) + old(queue)
    {
      while queue != []
        invariant freed + queue == old(freed) + old(queue)
        decreases |queue|
      {
        freed := freed + [queue[0]];
        queue := queue[1..];
      }
    }

    // Records the call and states where it has to lead.
    ghost method Extend(e: Event)
      requires Valid() && Possible(flags, e)
      modifies `history
      ensures history == old(history) + [e] && Legal(d, history)
      ensures Inv(Run(d, old(history))) && Run(d, history) == Step(d, Run(d, old(history)), e)
    {
      InvariantHolds(d, history);
      history := history + [e];
      assert history[..|history| - 1] == old(history);
    }
  }
}
