/**
 The AR8033 LED queue: requests go into a ring of eight slots and a work item applies them to the
 LED_OVERRIDE register. The ring holds seven requests; the eighth makes it look empty.
 */
module GpioQueue {

  const QUEUELEN: nat := 8

  // LED_OVERRIDE: two bits each for rx (0-1), tx (2-3) and link (6-7).
  const LED_RX_TX: bv16 := 0x000F
  const LED_LINK: bv16 := 0x00C0
  const RX_TX_OFF: bv16 := 0x000A
  const RX_TX_ON: bv16 := 0x000F
  const LINK_OFF: bv16 := 0x0080
  const LINK_ON: bv16 := 0x00C0

  /** The queued half-word: LED number in the low byte, the low byte of on_off above it. */
  function Encode(gpio: nat, onOff: bv32): bv16
    requires gpio <= 2
  {
    (((1 << gpio) | (onOff << 8)) & 0xFFFF) as bv16
  }

  predicate IsOn(e: bv16) {
    e >> 8 != 0
  }

  predicate Selects(e: bv16, bit: bv16) {
    e & 0xFF & bit != 0
  }

  const SEL_RX_TX: bv16 := 1
  const SEL_LINK: bv16 := 2

  function SetField(led: bv16, mask: bv16, value: bv16): bv16 {
    (led & !mask) | value
  }

  /** One request applied to the register. */
  function ApplyOne(led: bv16, e: bv16): bv16 {
    var rxTx := if IsOn(e) then RX_TX_ON else RX_TX_OFF;
    var led1 := if Selects(e, SEL_RX_TX) then SetField(led, LED_RX_TX, rxTx) else led;
    if Selects(e, SEL_LINK) then SetField(led1, LED_LINK, if IsOn(e) then LINK_ON else LINK_OFF) else led1
  }

  function ApplyAll(led: bv16, es: seq<bv16>): bv16 {
    if es == [] then led else ApplyOne(ApplyAll(led, es[..|es| - 1]), es[|es| - 1])
  }

  lemma {:induction false} ApplyConcat(led: bv16, es: seq<bv16>, fs: seq<bv16>)
    ensures ApplyAll(led, es + fs) == ApplyAll(ApplyAll(led, es), fs)
  {
    if fs == [] {
      assert es + fs == es;
    } else {
      var all, n := es + fs, |fs| - 1;
      assert all[..|all| - 1] == es + fs[..n];
      ApplyConcat(led, es, fs[..n]);
    }
  }

  lemma {:induction false} ApplySnoc(led: bv16, es: seq<bv16>, e: bv16)
    ensures ApplyAll(led, es + [e]) == ApplyOne(ApplyAll(led, es), e)
  {
    assert (es + [e])[..|es|] == es;
  }

  class LedQueue {
    const queue: array<bv16>
    var read: nat
    var write: nat
    var led: bv16      // the LED_OVERRIDE register
    ghost var start: bv16
    ghost var history: seq<Op>

    ghost predicate InShape()
      reads this
    {
      queue.Length == QUEUELEN && read < QUEUELEN && write < QUEUELEN
    }

    /** Ring and register are where the calls so far lead. */
    ghost predicate Valid()
      reads this, queue
    {
      InShape() && Pending() == Run(start, history).pending && led == Run(start, history).led
    }

    /** The requests in the ring, oldest first. */
    ghost function Pending(): (p: seq<bv16>)
      requires InShape()
      reads this, queue
      ensures |p| < QUEUELEN
    {
      if read <= write then queue[read..write] else queue[read..] + queue[..write]
    }

    constructor (led: bv16)
      ensures Valid() && start == this.led == led && history == [] && fresh(queue)
    {
      queue := new bv16[QUEUELEN];
      read, write := 0, 0;
      this.led, start, history := led, led, [];
    }

    /** avmnet_ar8033_gpio_set. A request for an unknown LED is refused; the eighth outstanding
        request empties the ring. */
    method GpioSet(gpio: nat, onOff: bv32) returns (ok: bool)
      requires Valid()
      modifies this, queue
      ensures Valid() && start == old(start) && history == old(history) + [Set(gpio, onOff)]
      ensures led == old(led) && ok == (gpio <= 2)
      ensures Pending() == if ok then Pushed(old(Pending()), Encode(gpio, onOff)) else old(Pending())
    {
      history := history + [Set(gpio, onOff)];
      assert history[..|history| - 1] == old(history);
      if gpio > 2 {
        return false;
      }
      Enqueue(Encode(gpio, onOff));
      ok := true;
    }

    method Enqueue(e: bv16)
      requires InShape()
      modifies `write, queue
      ensures InShape() && Pending() == Pushed(old(Pending()), e)
    {
      queue[write] := e;
      write := write + 1;
      if write == QUEUELEN {
        write := 0;
      }
    }

    /** gpio_work_handler: everything pending is applied, in order. */
    method GpioWork()
      requires Valid()
      modifies this
      ensures Valid() && start == old(start) && history == old(history) + [Work]
      ensures Pending() == [] && led == ApplyAll(old(led), old(Pending()))
    {
      Drain();
      history := history + [Work];
      assert history[..|history| - 1] == old(history);
    }

    method Drain()
      requires InShape()
      modifies `read, `led
      ensures InShape() && Pending() == [] && led == ApplyAll(old(led), old(Pending()))
    {
      ghost var done, was, all := [], led, Pending();
      while read != write
        invariant InShape() && done + Pending() == all
        invariant led == ApplyAll(was, done)
        decreases |Pending()|
      {
        done := ApplyNext(was, done);
      }
      assert done == all;
    }

    method ApplyNext(ghost was: bv16, ghost before: seq<bv16>) returns (ghost done: seq<bv16>)
      requires InShape() && read != write && led == ApplyAll(was, before)
      modifies `read, `led
      ensures InShape() && |Pending()| < |old(Pending())| && done + Pending() == before + old(Pending())
      ensures led == ApplyAll(was, done)
    {
      var value := led;
      var e := TakeNext();
      ApplySnoc(was, before, e);
      led := Override(value, e);
      done := before + [e];
    }

    method TakeNext() returns (e: bv16)
      requires InShape() && read != write
      modifies `read
      ensures InShape() && old(Pending()) == [e] + Pending()
    {
      e := queue[read];
      read := read + 1;
      if read == QUEUELEN {
        read := 0;
      }
    }

    static method Override(led: bv16, e: bv16) returns (value: bv16)
      ensures value == ApplyOne(led, e)
    {
      value := led;
      var gpio := e & 0xFF;
      var on := e >> 8;
      if gpio & SEL_RX_TX != 0 {
        value := SetField(value, LED_RX_TX, if on != 0 then RX_TX_ON else RX_TX_OFF);
      }
      if gpio & SEL_LINK != 0 {
        value := SetField(value, LED_LINK, if on != 0 then LINK_ON else LINK_OFF);
      }
    }
  }

  function Pushed(pending: seq<bv16>, e: bv16): seq<bv16> {
    if |pending| == QUEUELEN - 1 then [] else pending + [e]
  }

  // ---- what requests mean -------------------------------------------------------------------

  /** on_off is cut to its low byte on the way into the queue. */
  lemma {:induction false} EncodeMeans(gpio: nat, onOff: bv32)
    requires gpio <= 2
    ensures IsOn(Encode(gpio, onOff)) <==> onOff & 0xFF != 0
    ensures Selects(Encode(gpio, onOff), SEL_RX_TX) <==> gpio == 0
    ensures Selects(Encode(gpio, onOff), SEL_LINK) <==> gpio == 1
  {
    if gpio == 0 {
      EncodeBits(1, onOff);
    } else if gpio == 1 {
      EncodeBits(2, onOff);
    } else {
      EncodeBits(4, onOff);
    }
  }

  lemma {:induction false} EncodeBits(sel: bv32, onOff: bv32)
    requires sel == 1 || sel == 2 || sel == 4
    ensures
      var e := ((sel | (onOff << 8)) & 0xFFFF) as bv16;
      && (IsOn(e) <==> onOff & 0xFF != 0)
      && (Selects(e, SEL_RX_TX) <==> sel == 1) && (Selects(e, SEL_LINK) <==> sel == 2)
  {
  }

  datatype Last = Untouched | Switched(on: bool)

  /** The last request among es that selects the LED. */
  function LastFor(es: seq<bv16>, bit: bv16): Last {
    if es == [] then Untouched
    else if Selects(es[|es| - 1], bit) then Switched(IsOn(es[|es| - 1]))
    else LastFor(es[..|es| - 1], bit)
  }

  /** The field as the last request for it says, or as it was. */
  predicate FieldIs(led: bv16, was: bv16, mask: bv16, last: Last, on: bv16, off: bv16) {
    led & mask == (match last case Untouched => was & mask case Switched(b) => if b then on else off)
  }

  lemma {:induction false} OneField(led: bv16, e: bv16)
    ensures ApplyOne(led, e) & LED_RX_TX ==
            if Selects(e, SEL_RX_TX) then (if IsOn(e) then RX_TX_ON else RX_TX_OFF) else led & LED_RX_TX
    ensures ApplyOne(led, e) & LED_LINK ==
            if Selects(e, SEL_LINK) then (if IsOn(e) then LINK_ON else LINK_OFF) else led & LED_LINK
    ensures ApplyOne(led, e) & 0xFF30 == led & 0xFF30
  {
  }

  lemma {:induction false} RxTxStep(led: bv16, mid: bv16, last: Last, e: bv16)
    requires FieldIs(mid, led, LED_RX_TX, last, RX_TX_ON, RX_TX_OFF)
    ensures FieldIs(ApplyOne(mid, e), led, LED_RX_TX,
                    if Selects(e, SEL_RX_TX) then Switched(IsOn(e)) else last, RX_TX_ON, RX_TX_OFF)
  {
    OneField(mid, e);
  }

  lemma {:induction false} LinkStep(led: bv16, mid: bv16, last: Last, e: bv16)
    requires FieldIs(mid, led, LED_LINK, last, LINK_ON, LINK_OFF)
    ensures FieldIs(ApplyOne(mid, e), led, LED_LINK,
                    if Selects(e, SEL_LINK) then Switched(IsOn(e)) else last, LINK_ON, LINK_OFF)
  {
    OneField(mid, e);
  }

  /** One request, bit by bit: a field of two bits is 3 for on and 2 for off. */
  lemma {:induction false} SwitchMeans(led: bv16, gpio: nat, onOff: bv32)
    requires gpio <= 2
    ensures
      var on, out := onOff & 0xFF != 0, ApplyOne(led, Encode(gpio, onOff));
      && (gpio == 0 ==> out & 0xFFF0 == led & 0xFFF0 && out & 0x000F == if on then 0x000F else 0x000A)
      && (gpio == 1 ==> out & 0xFF3F == led & 0xFF3F && out & 0x00C0 == if on then 0x00C0 else 0x0080)
      && (gpio == 2 ==> out == led)
  {
    EncodeMeans(gpio, onOff);
    OneLed(led, Encode(gpio, onOff));
  }

  lemma {:induction false} OneLed(led: bv16, e: bv16)
    ensures !Selects(e, SEL_LINK) ==> ApplyOne(led, e) & 0xFFF0 == led & 0xFFF0
    ensures !Selects(e, SEL_RX_TX) ==> ApplyOne(led, e) & 0xFF3F == led & 0xFF3F
    ensures !Selects(e, SEL_RX_TX) && !Selects(e, SEL_LINK) ==> ApplyOne(led, e) == led
    ensures Selects(e, SEL_RX_TX) ==> ApplyOne(led, e) & 0x000F == if IsOn(e) then 0x000F else 0x000A
    ensures Selects(e, SEL_LINK) ==> ApplyOne(led, e) & 0x00C0 == if IsOn(e) then 0x00C0 else 0x0080
  {
  }

  /** Last writer wins, LED by LED, and nothing else in the register changes. */
  lemma {:induction false} LastWriterWins(led: bv16, es: seq<bv16>)
    ensures FieldIs(ApplyAll(led, es), led, 0x000F, LastFor(es, SEL_RX_TX), 0x000F, 0x000A)
    ensures FieldIs(ApplyAll(led, es), led, 0x00C0, LastFor(es, SEL_LINK), 0x00C0, 0x0080)
    ensures ApplyAll(led, es) & 0xFF30 == led & 0xFF30
  {
    if es == [] {
    } else {
      var n := |es| - 1;
      var mid := ApplyAll(led, es[..n]);
      LastWriterWins(led, es[..n]);
      RxTxStep(led, mid, LastFor(es[..n], SEL_RX_TX), es[n]);
      LinkStep(led, mid, LastFor(es[..n], SEL_LINK), es[n]);
      OneField(mid, es[n]);
    }
  }

  // ---- runs ---------------------------------------------------------------------------------

  datatype Op = Set(gpio: nat, onOff: bv32) | Work

  /** The ring and the register, and the requests applied so far. */
  datatype Leds = Leds(pending: seq<bv16>, led: bv16, applied: seq<bv16>)

  function Step(s: Leds, op: Op): Leds {
    match op
    case Set(gpio, onOff) => if gpio > 2 then s else s.(pending := Pushed(s.pending, Encode(gpio, onOff)))
    case Work => Leds([], ApplyAll(s.led, s.pending), s.applied + s.pending)
  }

  function Run(led: bv16, ops: seq<Op>): Leds {
    if ops == [] then Leds([], led, []) else Step(Run(led, ops[..|ops| - 1]), ops[|ops| - 1])
  }

  function Request(op: Op): seq<bv16> {
    if op.Set? && op.gpio <= 2 then [Encode(op.gpio, op.onOff)] else []
  }

  /** The requests of a run, in order. */
  function Asked(ops: seq<Op>): seq<bv16> {
    if ops == [] then [] else Asked(ops[..|ops| - 1]) + Request(ops[|ops| - 1])
  }

  /** A request finds the ring full. */
  predicate Overflow(s: Leds, op: Op) {
    Request(op) != [] && |s.pending| == QUEUELEN - 1
  }

  predicate Overflows(led: bv16, ops: seq<Op>, i: nat)
    requires i < |ops|
  {
    Overflow(Run(led, ops[..i]), ops[i])
  }

  lemma {:induction false} StepCarries(s: Leds, op: Op)
    ensures !Overflow(s, op) ==> Step(s, op).applied + Step(s, op).pending == s.applied + s.pending + Request(op)
    ensures Overflow(s, op) ==>
              |Step(s, op).applied + Step(s, op).pending| == |s.applied + s.pending + Request(op)| - QUEUELEN
  {
  }

  lemma {:induction false} NothingInvented(led: bv16, ops: seq<Op>)
    ensures |Run(led, ops).applied + Run(led, ops).pending| <= |Asked(ops)|
  {
    if ops == [] {
    } else {
      NothingInvented(led, ops[..|ops| - 1]);
      StepCarries(Run(led, ops[..|ops| - 1]), ops[|ops| - 1]);
    }
  }

  /** The requests applied and those still pending are all requests so far, in order, exactly when
      none ever found seven others pending. */
  lemma {:induction false} NothingLostIff(led: bv16, ops: seq<Op>)
    ensures Run(led, ops).applied + Run(led, ops).pending == Asked(ops) <==>
            forall i :: 0 <= i < |ops| ==> !Overflows(led, ops, i)
  {
    if ops == [] {
    } else {
      var n := |ops| - 1;
      var s := Run(led, ops[..n]);
      NothingLostIff(led, ops[..n]);
      NothingInvented(led, ops[..n]);
      OverflowsSplit(led, ops);
      StepCarries(s, ops[n]);
      if |s.applied + s.pending| == |Asked(ops[..n])| && !Overflow(s, ops[n]) {
        SameEnd(s.applied + s.pending, Asked(ops[..n]), Request(ops[n]));
      }
    }
  }

  lemma {:induction false} SameEnd(a: seq<bv16>, b: seq<bv16>, c: seq<bv16>)
    requires |a| == |b|
    ensures a + c == b + c <==> a == b
  {
    if a + c == b + c {
      assert (a + c)[..|a|] == a && (b + c)[..|b|] == b;
    }
  }

  lemma {:induction false} OverflowsSplit(led: bv16, ops: seq<Op>)
    requires ops != []
    ensures
      var n := |ops| - 1;
      (forall i :: 0 <= i < |ops| ==> !Overflows(led, ops, i)) <==>
      (forall i :: 0 <= i < n ==> !Overflows(led, ops[..n], i)) && !Overflow(Run(led, ops[..n]), ops[n])
  {
    var n := |ops| - 1;
    forall i | 0 <= i < n ensures Overflows(led, ops, i) <==> Overflows(led, ops[..n], i) {
      assert ops[..n][..i] == ops[..i];
    }
    assert Overflows(led, ops, n) <==> Overflow(Run(led, ops[..n]), ops[n]);
  }

  lemma {:induction false} RegisterIsApplied(led: bv16, ops: seq<Op>)
    ensures Run(led, ops).led == ApplyAll(led, Run(led, ops).applied)
  {
    if ops == [] {
    } else {
      var s := Run(led, ops[..|ops| - 1]);
      RegisterIsApplied(led, ops[..|ops| - 1]);
      ApplyConcat(led, s.applied, s.pending);
    }
  }

  /** After a drain the register is the outcome of all requests, each LED as last asked for. */
  lemma {:induction false} DrainedRegister(led: bv16, ops: seq<Op>)
    requires forall i :: 0 <= i < |ops| ==> !Overflows(led, ops, i)
    requires ops != [] && ops[|ops| - 1].Work?
    ensures
      var out := Run(led, ops).led;
      && FieldIs(out, led, 0x000F, LastFor(Asked(ops), SEL_RX_TX), 0x000F, 0x000A)
      && FieldIs(out, led, 0x00C0, LastFor(Asked(ops), SEL_LINK), 0x00C0, 0x0080)
      && out & 0xFF30 == led & 0xFF30
  {
    NothingLostIff(led, ops);
    RegisterIsApplied(led, ops);
    assert Run(led, ops).applied == Asked(ops);
    LastWriterWins(led, Asked(ops));
  }

  // The same request, k times.
  function Requests(op: Op, k: nat): (ops: seq<Op>)
    ensures |ops| == k
  {
    if k == 0 then [] else Requests(op, k - 1) + [op]
  }

  lemma {:induction false} StepLengths(s: Leds, op: Op)
    requires Request(op) != []
    ensures |Request(op)| == 1 && Step(s, op).applied == s.applied
    ensures |Step(s, op).pending| == if |s.pending| == QUEUELEN - 1 then 0 else |s.pending| + 1
  {
  }

  lemma {:induction false} RingFills(led: bv16, op: Op, k: nat)
    requires Request(op) != [] && k < 8
    ensures |Run(led, Requests(op, k)).pending| == k && Run(led, Requests(op, k)).applied == []
  {
    if k == 0 {
    } else {
      RingFills(led, op, k - 1);
      assert Requests(op, k)[..k - 1] == Requests(op, k - 1);
      StepLengths(Run(led, Requests(op, k - 1)), op);
    }
  }

  lemma {:induction false} AskedFor(op: Op, k: nat)
    requires |Request(op)| == 1
    ensures |Asked(Requests(op, k))| == k
  {
    if k == 0 {
    } else {
      AskedFor(op, k - 1);
      assert Requests(op, k)[..k - 1] == Requests(op, k - 1);
    }
  }

  /** Seven requests wait for the work item; with an eighth before it runs all are lost. */
  lemma {:induction false} EightAreLost(led: bv16, op: Op)
    requires op.Set? && op.gpio <= 2
    ensures |Asked(Requests(op, 8))| == 8
    ensures Run(led, Requests(op, 8)).applied + Run(led, Requests(op, 8)).pending == []
    ensures |Run(led, Requests(op, 7)).pending| == 7
  {
    RingOverflows(led, op, 8);
    RingFills(led, op, 7);
  }

  lemma {:induction false} RingOverflows(led: bv16, op: Op, k: nat)
    requires Request(op) != [] && k == 8
    ensures |Asked(Requests(op, k))| == k
    ensures Run(led, Requests(op, k)).applied + Run(led, Requests(op, k)).pending == []
  {
    StepLengths(Run(led, Requests(op, k - 1)), op);
    AskedFor(op, k);
    RingFills(led, op, k - 1);
    assert Requests(op, k)[..k - 1] == Requests(op, k - 1);
  }
}
