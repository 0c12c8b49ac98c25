/**
 The link records behind the Ethernet status event. A status update of a device overwrites the record
 of its port; when that changes anything, the power management is told a percentage and whoever
 listens is sent a copy of all records.
 */
module LinkEvents {
  import opened PortTable

  /** Milliwatts per port, by speed. */
  function Power(s: Speed): nat {
    match s
    case NoLink => 0
    case Speed10 => 50
    case Speed100 => 100
    case Speed1000 => 550
  }

  datatype Record = Record(link: bool, speed: Speed, fullduplex: bool, maxspeed: Speed)

  /** A status update: the port of the device, its status, and whether an event can be sent. */
  datatype Update = Update(port: nat, link: bool, speedCode: nat, fullduplex: bool, heard: bool)

  predicate Legal(n: nat, u: Update) {
    u.port != 255 && u.port < n && u.speedCode <= 2
  }

  function SpeedOf(code: nat): Speed {
    if code == 0 then Speed10 else if code == 1 then Speed100 else Speed1000
  }

  function Written(r: Record, u: Update): Record {
    Record(u.link, SpeedOf(u.speedCode), u.fullduplex, r.maxspeed)
  }

  predicate Changes(t: seq<Record>, u: Update) {
    Legal(|t|, u) && Written(t[u.port], u) != t[u.port]
  }

  function Step(t: seq<Record>, u: Update): (t': seq<Record>)
    ensures |t'| == |t|
  {
    if Changes(t, u) then t[u.port := Written(t[u.port], u)] else t
  }

  function Run(t: seq<Record>, us: seq<Update>): (t': seq<Record>)
    ensures |t'| == |t|
  {
    if us == [] then t else Step(Run(t, us[..|us| - 1]), us[|us| - 1])
  }

  /** The events sent. */
  function Events(t: seq<Record>, us: seq<Update>): seq<seq<Record>> {
    if us == [] then []
    else
      var before, u := us[..|us| - 1], us[|us| - 1];
      Events(t, before) + if Changes(Run(t, before), u) && u.heard then [Run(t, us)] else []
  }

  /** The records after event_init: everything zero but the maximum speeds of the ports in use. */
  function Initial(maxspeeds: seq<Speed>, n: nat): (t: seq<Record>)
    requires |maxspeeds| <= n
    ensures |t| == n
  {
    seq(n, p requires 0 <= p => Record(false, NoLink, false, if p < |maxspeeds| then maxspeeds[p] else NoLink))
  }

  // ---- records ------------------------------------------------------------------------------

  datatype Latest = Never | Was(u: Update)

  /** The last update of a port with a legal speed. */
  function LatestFor(us: seq<Update>, n: nat, p: nat): (l: Latest)
    ensures l.Was? ==> Legal(n, l.u) && l.u.port == p
  {
    if us == [] then Never
    else
      var u := us[|us| - 1];
      if Legal(n, u) && u.port == p then Was(u) else LatestFor(us[..|us| - 1], n, p)
  }

  /** The record holds the update: link and duplex as they are, speed codes 0, 1 and 2 as 10, 100 and 1000
      Mbit/s, and the maximum speed it had before. */
  predicate Holds(r: Record, before: Record, u: Update) {
    && r.link == u.link && r.fullduplex == u.fullduplex && r.maxspeed == before.maxspeed
    && (u.speedCode == 0 ==> r.speed == Speed10) && (u.speedCode == 1 ==> r.speed == Speed100)
    && (u.speedCode == 2 ==> r.speed == Speed1000)
  }

  /** A record always is its port's last legal update. */
  lemma {:induction false} RecordIsLatest(t: seq<Record>, us: seq<Update>, p: nat)
    requires p < |t|
    ensures match LatestFor(us, |t|, p)
            case Never => Run(t, us)[p] == t[p]
            case Was(u) => Holds(Run(t, us)[p], t[p], u)
  {
    if us == [] {
    } else {
      RecordIsLatest(t, us[..|us| - 1], p);
    }
  }

  /** Records start without speed and never go back to that: the power of a port that lost its link
      again is that of its last speed. */
  lemma {:induction false} SpeedStays(maxspeeds: seq<Speed>, n: nat, us: seq<Update>, p: nat)
    requires |maxspeeds| <= n && p < n
    ensures Power(Run(Initial(maxspeeds, n), us)[p].speed) == 0 <==>
            forall i :: 0 <= i < |us| ==> !(Legal(n, us[i]) && us[i].port == p)
  {
    RecordIsLatest(Initial(maxspeeds, n), us, p);
    LatestExists(us, n, p);
  }

  /** Port 255 is no port: updates of a device without one are ignored, however long the table. */
  lemma {:induction false} NoPortIgnored(t: seq<Record>, us: seq<Update>, p: nat)
    requires p < |t| && p == 255
    ensures Run(t, us)[p] == t[p]
  {
    if us == [] {
    } else {
      NoPortIgnored(t, us[..|us| - 1], p);
    }
  }

  lemma {:induction false} LatestExists(us: seq<Update>, n: nat, p: nat)
    ensures LatestFor(us, n, p) == Never <==> forall i :: 0 <= i < |us| ==> !(Legal(n, us[i]) && us[i].port == p)
  {
    if us == [] {
    } else {
      LatestExists(us[..|us| - 1], n, p);
    }
  }

  // ---- events -------------------------------------------------------------------------------

  /** Update i changes a record and an event is sent, or is not. */
  predicate SendsAt(t: seq<Record>, us: seq<Update>, i: nat)
    requires i < |us|
  {
    Changes(Run(t, us[..i]), us[i]) && us[i].heard
  }

  predicate WithheldAt(t: seq<Record>, us: seq<Update>, i: nat)
    requires i < |us|
  {
    Changes(Run(t, us[..i]), us[i]) && !us[i].heard
  }

  lemma {:induction false} Unchanged(t: seq<Record>, us: seq<Update>, i: nat, j: nat)
    requires i <= j <= |us|
    requires forall k :: i <= k < j ==> !SendsAt(t, us, k) && !WithheldAt(t, us, k)
    ensures Run(t, us[..j]) == Run(t, us[..i])
  {
    if i == j {
    } else {
      Unchanged(t, us, i, j - 1);
      assert us[..j][..j - 1] == us[..j - 1];
      assert !SendsAt(t, us, j - 1) && !WithheldAt(t, us, j - 1);
    }
  }

  /** Every event says something new: it differs from the records before it, and so from the event
      before it, unless a change between the two was withheld. */
  lemma {:induction false} EventsAreNews(t: seq<Record>, us: seq<Update>, i: nat, j: nat)
    requires i < j < |us| && SendsAt(t, us, i) && SendsAt(t, us, j)
    requires forall k :: i < k < j ==> !SendsAt(t, us, k)
    ensures Run(t, us[..j + 1]) != Run(t, us[..j])
    ensures Run(t, us[..j + 1]) == Run(t, us[..i + 1]) ==> exists k :: i < k < j && WithheldAt(t, us, k)
  {
    assert us[..j + 1][..j] == us[..j];
    assert Run(t, us[..j + 1])[us[j].port] != Run(t, us[..j])[us[j].port];
    if forall k :: i < k < j ==> !WithheldAt(t, us, k) {
      Unchanged(t, us, i + 1, j);
    }
  }

  lemma {:induction false} EventsStep(t: seq<Record>, us: seq<Update>)
    requires us != [] && us[|us| - 1].heard
    ensures
      var before := us[..|us| - 1];
      Events(t, us) == Events(t, before) + if Run(t, us) != Run(t, before) then [Run(t, us)] else []
  {
    var n := |us| - 1;
    if Changes(Run(t, us[..n]), us[n]) {
      assert Run(t, us)[us[n].port] != Run(t, us[..n])[us[n].port];
    }
  }

  /** What a listener knows: the records of the last event, or the first ones. */
  function Known(t: seq<Record>, events: seq<seq<Record>>): seq<Record> {
    if events == [] then t else events[|events| - 1]
  }

  /** A listener who is sent every event always knows the records as they are, and no event tells what the
      one before it told. */
  lemma {:induction false} ListenerKnows(t: seq<Record>, us: seq<Update>)
    requires forall u :: u in us ==> u.heard
    ensures Known(t, Events(t, us)) == Run(t, us)
    ensures forall k :: 0 <= k < |Events(t, us)| ==> Events(t, us)[k] != Known(t, Events(t, us)[..k])
  {
    if us == [] {
    } else {
      var n := |us| - 1;
      var es, es' := Events(t, us[..n]), Events(t, us);
      assert us[n] in us;
      ListenerKnows(t, us[..n]);
      EventsStep(t, us);
      forall k | 0 <= k < |es'| ensures es'[k] != Known(t, es'[..k]) {
        if k < |es| {
          assert es'[..k] == es[..k];
        } else {
          assert es'[..k] == es;
        }
      }
    }
  }

  // ---- the percentage -----------------------------------------------------------------------

  function Sum(t: seq<Record>, n: nat, max: bool): (sum: nat)
    requires n <= |t|
    ensures sum <= 550 * n
  {
    if n == 0 then 0 else Sum(t, n - 1, max) + Power(if max then t[n - 1].maxspeed else t[n - 1].speed)
  }

  function Divisor(t: seq<Record>, n: nat): (d: nat)
    requires n <= |t|
    ensures d > 0
  {
    if Sum(t, n, true) == 0 then Power(Speed1000) else Sum(t, n, true)
  }

  function Percent(power: nat, of: nat): nat
    requires of > 0
  {
    100 * power / of
  }

  function Percentage(t: seq<Record>, n: nat): nat
    requires n <= |t|
  {
    Percent(Sum(t, n, false), Divisor(t, n))
  }

  /** No speed of the first n ports exceeds what its port can do. */
  predicate WithinMax(t: seq<Record>, n: nat)
    requires n <= |t|
  {
    forall p :: 0 <= p < n ==> Power(t[p].speed) <= Power(t[p].maxspeed)
  }

  lemma {:induction false} SumBounded(t: seq<Record>, n: nat)
    requires n <= |t| && WithinMax(t, n)
    ensures Sum(t, n, false) <= Sum(t, n, true)
  {
    if n == 0 {
    } else {
      SumBounded(t, n - 1);
    }
  }

  /** The percentages of a single gigabit port: 9 at 10 Mbit/s, 18 at 100, 100 at full speed. */
  lemma {:induction false} SinglePort(r: Record)
    requires r.maxspeed == Speed1000
    ensures Percentage([r], 1) == match r.speed
                                  case NoLink => 0
                                  case Speed10 => 9
                                  case Speed100 => 18
                                  case Speed1000 => 100
  {
    assert Sum([r], 1, true) == Sum([r], 0, true) + 550;
    assert Sum([r], 1, false) == Sum([r], 0, false) + Power(r.speed);
  }

  lemma {:induction false} Times(a: nat, b: nat, c: nat)
    requires a <= b
    ensures a * c <= b * c
  {
  }

  lemma {:induction false} PercentAtMost100(power: nat, of: nat)
    requires of > 0
    ensures Percent(power, of) <= 100 <==> 100 * power < 101 * of
  {
    Divide(100 * power, of, Percent(power, of));
  }

  lemma {:induction false} Divide(a: nat, b: nat, q: nat)
    requires b > 0 && q == a / b
    ensures q * b <= a < q * b + b
    ensures q <= 100 <==> a < 101 * b
  {
    if q <= 100 {
      Times(q, 100, b);
    } else {
      Times(101, q, b);
    }
  }

  predicate Respected(maxspeeds: seq<Speed>, n: nat, u: Update) {
    Legal(n, u) && u.port < |maxspeeds| ==> Power(SpeedOf(u.speedCode)) <= Power(maxspeeds[u.port])
  }

  lemma {:induction false} SpeedWithin(maxspeeds: seq<Speed>, n: nat, us: seq<Update>, p: nat)
    requires p < |maxspeeds| <= n && forall u :: u in us ==> Respected(maxspeeds, n, u)
    ensures Power(Run(Initial(maxspeeds, n), us)[p].speed) <= Power(Run(Initial(maxspeeds, n), us)[p].maxspeed)
  {
    RecordIsLatest(Initial(maxspeeds, n), us, p);
    LatestIn(us, n, p);
  }

  /** Updates that respect the maximum speeds, which each port in use has: the percentage is one. */
  lemma {:induction false} PercentageBounded(maxspeeds: seq<Speed>, n: nat, us: seq<Update>)
    requires |maxspeeds| <= n && forall u :: u in us ==> Respected(maxspeeds, n, u)
    ensures Percentage(Run(Initial(maxspeeds, n), us), |maxspeeds|) <= 100
  {
    var t := Run(Initial(maxspeeds, n), us);
    forall p | 0 <= p < |maxspeeds| {
      SpeedWithin(maxspeeds, n, us, p);
    }
    SumBounded(t, |maxspeeds|);
    PercentAtMost100(Sum(t, |maxspeeds|, false), Divisor(t, |maxspeeds|));
  }

  lemma {:induction false} LatestIn(us: seq<Update>, n: nat, p: nat)
    ensures LatestFor(us, n, p).Was? ==> LatestFor(us, n, p).u in us
  {
    if us == [] {
    } else {
      LatestIn(us[..|us| - 1], n, p);
    }
  }

  // Every port below k at full speed.
  function FullSpeed(k: nat): seq<Update> {
    if k == 0 then [] else FullSpeed(k - 1) + [Update(k - 1, true, 2, true, true)]
  }

  lemma {:induction false} FullSpeedSum(maxspeeds: seq<Speed>, n: nat, k: nat, i: nat)
    requires |maxspeeds| <= n && i <= k <= n && k < NO_PORT
    ensures Sum(Run(Initial(maxspeeds, n), FullSpeed(k)), i, false) == 550 * i
    decreases i
  {
    if i == 0 {
    } else {
      FullSpeedSum(maxspeeds, n, k, i - 1);
      RecordIsLatest(Initial(maxspeeds, n), FullSpeed(k), i - 1);
      LatestFull(n, k, i - 1);
    }
  }

  lemma {:induction false} LatestFull(n: nat, k: nat, p: nat)
    requires p < k <= n && k < NO_PORT
    ensures LatestFor(FullSpeed(k), n, p) == Was(Update(p, true, 2, true, true))
  {
    var us := FullSpeed(k);
    assert us[..|us| - 1] == FullSpeed(k - 1);
    if p < k - 1 {
      LatestFull(n, k - 1, p);
    }
  }

  /** The ports' maximum powers together, and the divisor made of them. */
  function MaxPower(maxspeeds: seq<Speed>, k: nat): nat
    requires k <= |maxspeeds|
  {
    if k == 0 then 0 else MaxPower(maxspeeds, k - 1) + Power(maxspeeds[k - 1])
  }

  function BoardDivisor(maxspeeds: seq<Speed>): (d: nat)
    ensures d > 0
  {
    var max := MaxPower(maxspeeds, |maxspeeds|);
    if max == 0 then Power(Speed1000) else max
  }

  lemma {:induction false} MaxSum(maxspeeds: seq<Speed>, n: nat, us: seq<Update>, k: nat)
    requires k <= |maxspeeds| <= n
    ensures Sum(Run(Initial(maxspeeds, n), us), k, true) == MaxPower(maxspeeds, k)
  {
    if k == 0 {
    } else {
      MaxSum(maxspeeds, n, us, k - 1);
      RecordIsLatest(Initial(maxspeeds, n), us, k - 1);
    }
  }

  /** Where updates may report any speed: no run reports more than 100 percent, exactly when all ports
      at full speed stay below 101 percent of the board's divisor. */
  lemma {:induction false} AnyRunBounded(maxspeeds: seq<Speed>, n: nat)
    requires |maxspeeds| <= n && |maxspeeds| < NO_PORT
    ensures (forall us :: Percentage(Run(Initial(maxspeeds, n), us), |maxspeeds|) <= 100) <==>
            55000 * |maxspeeds| < 101 * BoardDivisor(maxspeeds)
  {
    var k := |maxspeeds|;
    if 55000 * k < 101 * BoardDivisor(maxspeeds) {
      forall us ensures Percentage(Run(Initial(maxspeeds, n), us), k) <= 100 {
        MaxSum(maxspeeds, n, us, k);
        PercentAtMost100(Sum(Run(Initial(maxspeeds, n), us), k, false), BoardDivisor(maxspeeds));
      }
    } else {
      TooMuch(maxspeeds, n);
    }
  }

  lemma {:induction false} TooMuch(maxspeeds: seq<Speed>, n: nat)
    requires |maxspeeds| <= n && |maxspeeds| < NO_PORT && 55000 * |maxspeeds| >= 101 * BoardDivisor(maxspeeds)
    ensures Percentage(Run(Initial(maxspeeds, n), FullSpeed(|maxspeeds|)), |maxspeeds|) > 100
  {
    var k, us := |maxspeeds|, FullSpeed(|maxspeeds|);
    FullSpeedSum(maxspeeds, n, k, k);
    MaxSum(maxspeeds, n, us, k);
    PercentAtMost100(550 * k, BoardDivisor(maxspeeds));
  }

  lemma {:induction false} MaxPowerRange(maxspeeds: seq<Speed>, k: nat)
    requires k <= |maxspeeds|
    ensures
      if forall p :: 0 <= p < k ==> maxspeeds[p] == Speed1000 then MaxPower(maxspeeds, k) == 550 * k
      else MaxPower(maxspeeds, k) <= 550 * k - 450
  {
    if k == 0 {
    } else {
      MaxPowerRange(maxspeeds, k - 1);
    }
  }

  /** On a board of up to 82 ports that means: all ports are gigabit ports, or there is a single port
      with no speed known. */
  lemma {:induction false} SmallBoardBounded(maxspeeds: seq<Speed>, n: nat)
    requires |maxspeeds| <= n && |maxspeeds| <= 82
    ensures (forall us :: Percentage(Run(Initial(maxspeeds, n), us), |maxspeeds|) <= 100) <==>
            (forall p :: 0 <= p < |maxspeeds| ==> maxspeeds[p] == Speed1000) || maxspeeds == [NoLink]
  {
    AnyRunBounded(maxspeeds, n);
    MaxPowerRange(maxspeeds, |maxspeeds|);
    if |maxspeeds| == 1 {
      assert maxspeeds == [maxspeeds[0]];
      assert MaxPower(maxspeeds, 1) == MaxPower(maxspeeds, 0) + Power(maxspeeds[0]);
    }
  }

  // ---- the driver ---------------------------------------------------------------------------

  /** What the power management is told: the ports with link, and the percentage. */
  datatype PowerReport = PowerReport(linked: set<nat>, percentage: nat)

  function Linked(t: seq<Record>, n: nat): set<nat>
    requires n <= |t|
  {
    set p | 0 <= p < n && t[p].link
  }

  function Report(t: seq<Record>, n: nat): PowerReport
    requires n <= |t|
  {
    PowerReport(Linked(t, n), Percentage(t, n))
  }

  /** The reports made. */
  function Reports(t: seq<Record>, n: nat, us: seq<Update>): seq<PowerReport>
    requires n <= |t|
  {
    if us == [] then []
    else
      var before, u := us[..|us| - 1], us[|us| - 1];
      Reports(t, n, before) + if Changes(Run(t, before), u) then [Report(Run(t, us), n)] else []
  }

  /** Updates within the maximum speeds of the ports never make a report above 100 percent. */
  lemma {:induction false} ReportsBounded(maxspeeds: seq<Speed>, n: nat, us: seq<Update>, i: nat)
    requires |maxspeeds| <= n && forall u :: u in us ==> Respected(maxspeeds, n, u)
    requires i < |Reports(Initial(maxspeeds, n), |maxspeeds|, us)|
    ensures Reports(Initial(maxspeeds, n), |maxspeeds|, us)[i].percentage <= 100
  {
    var before := us[..|us| - 1];
    if i < |Reports(Initial(maxspeeds, n), |maxspeeds|, before)| {
      ReportsBounded(maxspeeds, n, before, i);
    } else {
      PercentageBounded(maxspeeds, n, us);
    }
  }

  /** A report names the ports whose last legal update had link, of those in use. */
  lemma {:induction false} ReportNames(maxspeeds: seq<Speed>, n: nat, us: seq<Update>, p: nat)
    requires |maxspeeds| <= n
    ensures p in Report(Run(Initial(maxspeeds, n), us), |maxspeeds|).linked <==>
            p < |maxspeeds| && LatestFor(us, n, p).Was? && LatestFor(us, n, p).u.link
  {
    if p < |maxspeeds| {
      RecordIsLatest(Initial(maxspeeds, n), us, p);
    }
  }

  class Links {
    const ports: nat                     // event_data.ports
    const records: array<Record>         // event_data.port[]
    var events: seq<seq<Record>>         // events sent
    var reports: seq<PowerReport>        // reports to the power management
    ghost var start: seq<Record>
    ghost var history: seq<Update>

    ghost predicate Valid()
      reads this, records
    {
      && ports <= |start| == records.Length
      && records[..] == Run(start, history)
      && events == Events(start, history)
      && reports == Reports(start, ports, history)
    }

    /** avmnet_links_event_init, for a table of that many slots. */
    constructor (maxspeeds: seq<Speed>, maxPorts: nat)
      requires |maxspeeds| <= maxPorts
      ensures Valid() && start == Initial(maxspeeds, maxPorts) && history == [] && ports == |maxspeeds|
      ensures events == [] && reports == []
    {
      ports := |maxspeeds|;
      records := new Record[maxPorts](p requires 0 <= p < maxPorts =>
        Record(false, NoLink, false, if p < |maxspeeds| then maxspeeds[p] else NoLink));
      events, reports, history := [], [], [];
      start := Initial(maxspeeds, maxPorts);
      new;
      assert records[..] == start;
    }

    /** avmnet_links_port_update */
    method PortUpdate(u: Update)
      requires Valid()
      modifies this, records
      ensures Valid() && start == old(start) && history == old(history) + [u]
      ensures reports == old(reports) +
                         if Changes(old(records[..]), u) then [Report(records[..], ports)] else []
    {
      Note(u);
      if u.port == NO_PORT || u.port >= records.Length || u.speedCode > 2 {
        return;
      }
      var speed := if u.speedCode == 0 then Speed10 else if u.speedCode == 1 then Speed100 else Speed1000;
      var r := records[u.port];
      if r.link == u.link && r.speed == speed && r.fullduplex == u.fullduplex {
        return;
      }
      Overwrite(u, Record(u.link, speed, u.fullduplex, r.maxspeed));
      UpdatePercentage();
      if u.heard {
        events := events + [records[..]];
      }
    }

    method Overwrite(u: Update, r: Record)
      requires u.port < records.Length
      modifies records
      ensures records[..] == old(records[..])[u.port := r]
    {
      records[u.port] := r;
    }

    // Records the call and states where it has to lead.
    ghost method Note(u: Update)
      requires Valid()
      modifies `history
      ensures history == old(history) + [u] && Run(start, history) == Step(records[..], u)
      ensures Events(start, history) == events +
              if Changes(records[..], u) && u.heard then [Step(records[..], u)] else []
      ensures Reports(start, ports, history) == reports +
              if Changes(records[..], u) then [Report(Step(records[..], u), ports)] else []
    {
      history := history + [u];
      assert history[..|history| - 1] == old(history);
    }

    /** avmnet_power_update_percentage */
    method UpdatePercentage()
      requires ports <= records.Length
      modifies `reports
      ensures reports == old(reports) + [Report(records[..], ports)]
    {
      var power, maxpower, linked := 0, 0, {};
      ghost var t := records[..];
      for port := 0 to ports
        invariant power == Sum(t, port, false) && maxpower == Sum(t, port, true)
        invariant linked == Linked(t, port)
      {
        assert t[port] == records[port];
        maxpower := maxpower + Power(records[port].maxspeed);
        power := power + Power(records[port].speed);
        if records[port].link {
          linked := linked + {port};
        }
      }
      if maxpower == 0 {
        maxpower := Power(Speed1000);
      }
      reports := reports + [PowerReport(linked, Percent(power, maxpower))];
    }
  }

  /** The same of an object: while no update exceeds the maximum speed of its port, no report
      exceeds 100 percent. */
  lemma {:induction false} ObjectReportsBounded(l: Links, maxspeeds: seq<Speed>, i: nat)
    requires l.Valid() && |maxspeeds| == l.ports && l.start == Initial(maxspeeds, |l.start|)
    requires forall u :: u in l.history ==> Respected(maxspeeds, |l.start|, u)
    requires i < |l.reports|
    ensures l.reports[i].percentage <= 100
  {
    ReportsBounded(maxspeeds, |l.start|, l.history, i);
  }
}
