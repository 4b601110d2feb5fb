/**
 The data path of the layer-2 forwarder. A batch of packets received on one device is handed to the transmit queue of
 the other; the packet array travels along as user data of the send tasks and is freed when they complete.
 */
module L2Forward {
  datatype Device = Dev1 | Dev2

  /** A stranded batch was not taken by the transmit queue, and nobody was told. */
  datatype Status = Dropped | Pending | Transmitted | Failed | Stranded

  /** A receive batch and what has become of it. Batches are numbered in the order in which they arrive. */
  datatype Batch = Batch(from: Device, pkts: nat, status: Status)

  datatype Stats = Stats(rxPkts: nat, rxDropped: nat, txPkts: nat)

  function Share(b: Batch, from: Device, status: Status): nat {
    if b.from == from && b.status == status then b.pkts else 0
  }

  /** The packets of all batches from number `i` on that came from a device and are in a given state. */
  function Total(batches: seq<Batch>, from: Device, status: Status, i: nat): nat
    decreases |batches| - i
  {
    if i >= |batches| then 0 else Share(batches[i], from, status) + Total(batches, from, status, i + 1)
  }

  lemma NoBatches()
    ensures forall from, status :: Total([], from, status, 0) == 0
  {}

  lemma {:induction false} TotalAppend(batches: seq<Batch>, b: Batch, from: Device, status: Status, i: nat)
    requires i <= |batches|
    ensures Total(batches + [b], from, status, i) == Total(batches, from, status, i) + Share(b, from, status)
    decreases |batches| - i
  {
    hide Share;
    if i < |batches| {
      TotalAppend(batches, b, from, status, i + 1);
      assert (batches + [b])[i] == batches[i];
    } else {
      assert Total(batches + [b], from, status, i + 1) == 0;
    }
  }

  lemma {:induction false} TotalFrame(a: seq<Batch>, b: seq<Batch>, from: Device, status: Status, i: nat)
    requires |a| == |b| && forall j :: i <= j < |a| ==> a[j] == b[j]
    ensures Total(a, from, status, i) == Total(b, from, status, i)
    decreases |a| - i
  {
    if i < |a| {
      TotalFrame(a, b, from, status, i + 1);
    }
  }

  lemma {:induction false} TotalUpdate(batches: seq<Batch>, k: nat, b: Batch, from: Device, status: Status, i: nat)
    requires i <= k < |batches|
    ensures Total(batches[k := b], from, status, i) + Share(batches[k], from, status)
         == Total(batches, from, status, i) + Share(b, from, status)
    decreases k - i
  {
    hide Share;
    if i == k {
      TotalFrame(batches[k := b], batches, from, status, k + 1);
    } else {
      TotalUpdate(batches, k, b, from, status, i + 1);
    }
  }

  /** Packets taken over from a device for forwarding. */
  ghost function Forwarded(batches: seq<Batch>, from: Device): nat {
    Total(batches, from, Pending, 0) + Total(batches, from, Transmitted, 0) + Total(batches, from, Failed, 0)
    + Total(batches, from, Stranded, 0)
  }

  ghost function Received(batches: seq<Batch>, from: Device): nat {
    Forwarded(batches, from) + Total(batches, from, Dropped, 0)
  }

  /** What the statistics of both devices mean. All drops are charged to device 1. */
  ghost predicate Balanced(batches: seq<Batch>, stats1: Stats, stats2: Stats) {
    && stats1.rxPkts == Forwarded(batches, Dev1) && stats2.rxPkts == Forwarded(batches, Dev2)
    && stats2.txPkts == Total(batches, Dev1, Transmitted, 0) && stats1.txPkts == Total(batches, Dev2, Transmitted, 0)
    && stats1.rxDropped == Total(batches, Dev1, Dropped, 0) + Total(batches, Dev2, Dropped, 0)
    && stats2.rxDropped == 0
  }

  predicate Settled(status: Status) {
    status != Pending && status != Stranded
  }

  /** Every batch is freed once its fate is settled, and never before or again. */
  ghost predicate FreedOnce(batches: seq<Batch>, freed: seq<nat>) {
    |freed| == |batches| && forall i :: 0 <= i < |batches| ==> freed[i] == if Settled(batches[i].status) then 1 else 0
  }

  lemma Arrives(batches: seq<Batch>, b: Batch, d: Device)
    ensures forall st :: Total(batches + [b], d, st, 0) == Total(batches, d, st, 0) + Share(b, d, st)
  {
    forall st
      ensures Total(batches + [b], d, st, 0) == Total(batches, d, st, 0) + Share(b, d, st)
    {
      TotalAppend(batches, b, d, st, 0);
    }
  }

  lemma Settles(batches: seq<Batch>, k: nat, status: Status, d: Device)
    requires k < |batches|
    ensures var b := batches[k].(status := status);
            forall st ::
              Total(batches[k := b], d, st, 0) + Share(batches[k], d, st) == Total(batches, d, st, 0) + Share(b, d, st)
  {
    var b := batches[k].(status := status);
    forall st
      ensures Total(batches[k := b], d, st, 0) + Share(batches[k], d, st) == Total(batches, d, st, 0) + Share(b, d, st)
    {
      TotalUpdate(batches, k, b, d, st, 0);
    }
  }

  /**
   Summed over both devices, everything received is forwarded or counted as dropped, and every forwarded packet is
   transmitted on the other device, in flight, failed, or stranded. For a single device the first holds if and only if
   device 2 dropped nothing.
   */
  lemma Conservation(batches: seq<Batch>, stats1: Stats, stats2: Stats)
    requires Balanced(batches, stats1, stats2)
    ensures Received(batches, Dev1) + Received(batches, Dev2)
         == stats1.rxPkts + stats2.rxPkts + stats1.rxDropped + stats2.rxDropped
    ensures stats1.rxPkts == stats2.txPkts + Total(batches, Dev1, Pending, 0) + Total(batches, Dev1, Failed, 0)
                               + Total(batches, Dev1, Stranded, 0)
    ensures stats2.rxPkts == stats1.txPkts + Total(batches, Dev2, Pending, 0) + Total(batches, Dev2, Failed, 0)
                               + Total(batches, Dev2, Stranded, 0)
    ensures Received(batches, Dev1) == stats1.rxPkts + stats1.rxDropped <==> Total(batches, Dev2, Dropped, 0) == 0
    ensures Received(batches, Dev2) == stats2.rxPkts + stats2.rxDropped <==> Total(batches, Dev2, Dropped, 0) == 0
  {}

  // ---------------------------------------------------------------- events

  /** What came of handing a batch on: there was no task for it, the task was submitted, or submitting it failed. */
  datatype Handoff = NoTask | Submitted | Refused

  /** What the queues report: a batch arrived; or a transmit queue is done with a batch, successfully or not. */
  datatype Event = Rx(from: Device, pkts: nat, handoff: Handoff) | Tx(batch: nat, ok: bool)

  function StatusOf(handoff: Handoff): Status {
    match handoff case NoTask => Dropped case Submitted => Pending case Refused => Stranded
  }

  /** A transmit queue reports a batch that was handed to it and not reported yet. */
  predicate Enabled(batches: seq<Batch>, e: Event) {
    e.Tx? ==> e.batch < |batches| && batches[e.batch].status == Pending
  }

  function Next(batches: seq<Batch>, e: Event): seq<Batch> {
    match e
    case Rx(from, pkts, handoff) => batches + [Batch(from, pkts, StatusOf(handoff))]
    case Tx(k, ok) =>
      if k < |batches| then batches[k := batches[k].(status := if ok then Transmitted else Failed)] else batches
  }

  function Frees(freed: seq<nat>, e: Event): seq<nat> {
    match e
    case Rx(from, pkts, handoff) => freed + [if handoff == NoTask then 1 else 0]
    case Tx(k, ok) => if k < |freed| then freed[k := freed[k] + 1] else freed
  }

  /** The batches after the first `n` events. */
  function BatchesAfter(events: seq<Event>, n: nat): seq<Batch>
    requires n <= |events|
  {
    if n == 0 then [] else Next(BatchesAfter(events, n - 1), events[n - 1])
  }

  function FreedAfter(events: seq<Event>, n: nat): seq<nat>
    requires n <= |events|
  {
    if n == 0 then [] else Frees(FreedAfter(events, n - 1), events[n - 1])
  }

  ghost predicate Possible(events: seq<Event>) {
    forall n :: 0 <= n < |events| ==> Enabled(BatchesAfter(events, n), events[n])
  }

  /** The packets that arrived on a device and got a task to hand them on, or did not. */
  function Arrivals(events: seq<Event>, from: Device, task: bool, n: nat): nat
    requires n <= |events|
  {
    if n == 0 then 0 else
    var e := events[n - 1];
    Arrivals(events, from, task, n - 1) + if e.Rx? && e.from == from && (e.handoff != NoTask) == task then e.pkts else 0
  }

  lemma NextBooks(batches: seq<Batch>, e: Event, d: Device)
    requires Enabled(batches, e)
    ensures Forwarded(Next(batches, e), d)
            == Forwarded(batches, d) + if e.Rx? && e.from == d && e.handoff != NoTask then e.pkts else 0
    ensures Total(Next(batches, e), d, Dropped, 0)
            == Total(batches, d, Dropped, 0) + if e.Rx? && e.from == d && e.handoff == NoTask then e.pkts else 0
  {
    hide Total;
    match e
    case Rx(from, pkts, handoff) => Arrives(batches, Batch(from, pkts, StatusOf(handoff)), d);
    case Tx(k, ok) => Settles(batches, k, if ok then Transmitted else Failed, d);
  }

  /** What was handed on and what was dropped, batch by batch, is what arrived, event by event. */
  lemma {:induction false} ArrivalsAreBooked(events: seq<Event>, d: Device, n: nat)
    requires Possible(events) && n <= |events|
    ensures Forwarded(BatchesAfter(events, n), d) == Arrivals(events, d, true, n)
    ensures Total(BatchesAfter(events, n), d, Dropped, 0) == Arrivals(events, d, false, n)
  {
    hide Total, Next, Forwarded, Enabled;
    if n > 0 {
      ArrivalsAreBooked(events, d, n - 1);
      NextBooks(BatchesAfter(events, n - 1), events[n - 1], d);
    } else {
      NothingBooked(d);
    }
  }

  lemma NothingBooked(d: Device)
    ensures Forwarded([], d) == 0 && Total([], d, Dropped, 0) == 0
  {}

  /** The counters of both devices after a run, in terms of what happened. */
  ghost predicate Conserves(events: seq<Event>, batches: seq<Batch>, stats1: Stats, stats2: Stats) {
    var n := |events|;
    && stats1.rxPkts == Arrivals(events, Dev1, true, n) && stats2.rxPkts == Arrivals(events, Dev2, true, n)
    && stats1.rxDropped == Arrivals(events, Dev1, false, n) + Arrivals(events, Dev2, false, n) && stats2.rxDropped == 0
    && stats1.rxPkts == stats2.txPkts + Total(batches, Dev1, Pending, 0) + Total(batches, Dev1, Failed, 0)
                        + Total(batches, Dev1, Stranded, 0)
    && stats2.rxPkts == stats1.txPkts + Total(batches, Dev2, Pending, 0) + Total(batches, Dev2, Failed, 0)
                        + Total(batches, Dev2, Stranded, 0)
  }

  class Forwarder {
    var stats1: Stats
    var stats2: Stats
    var forceStop: bool
    var batches: seq<Batch>
    /** How often the packet array of each batch has been freed. */
    ghost var freed: seq<nat>

    ghost predicate Valid()
      reads this
    {
      Balanced(batches, stats1, stats2) && FreedOnce(batches, freed)
    }

    constructor ()
      ensures Valid() && batches == [] && freed == [] && !forceStop
      ensures stats1 == stats2 == Stats(0, 0, 0)
    {
      hide Total;
      NoBatches();
      stats1, stats2, forceStop := Stats(0, 0, 0), Stats(0, 0, 0), false;
      batches, freed := [], [];
    }

    /**
     rx_success_cb1: a batch from device 1, to be sent on device 2 if there is a task for it. Whether the task could be
     submitted is not looked at.
     */
    method RxSuccess1(pkts: nat, handoff: Handoff)
      requires Valid()
      modifies this`batches, this`freed, this`stats1
      ensures var e := Rx(Dev1, pkts, handoff);
              Valid() && batches == Next(old(batches), e) && freed == Frees(old(freed), e)
      ensures stats1 == if handoff == NoTask then old(stats1).(rxDropped := old(stats1).rxDropped + pkts)
                        else old(stats1).(rxPkts := old(stats1).rxPkts + pkts)
    {
      hide Total;
      Arrives(batches, Batch(Dev1, pkts, StatusOf(handoff)), Dev1);
      Arrives(batches, Batch(Dev1, pkts, StatusOf(handoff)), Dev2);
      if handoff == NoTask {
        stats1 := stats1.(rxDropped := stats1.rxDropped + pkts);
        batches, freed := batches + [Batch(Dev1, pkts, Dropped)], freed + [1];
        return;
      }
      batches, freed := batches + [Batch(Dev1, pkts, StatusOf(handoff))], freed + [0];
      stats1 := stats1.(rxPkts := stats1.rxPkts + pkts);
    }

    /** rx_success_cb2: a batch from device 2, to be sent on device 1; a drop is charged to device 1. */
    method RxSuccess2(pkts: nat, handoff: Handoff)
      requires Valid()
      modifies this`batches, this`freed, this`stats1, this`stats2
      ensures var e := Rx(Dev2, pkts, handoff);
              Valid() && batches == Next(old(batches), e) && freed == Frees(old(freed), e)
      ensures stats1 == if handoff == NoTask then old(stats1).(rxDropped := old(stats1).rxDropped + pkts) else old(stats1)
      ensures stats2 == if handoff == NoTask then old(stats2) else old(stats2).(rxPkts := old(stats2).rxPkts + pkts)
    {
      hide Total;
      Arrives(batches, Batch(Dev2, pkts, StatusOf(handoff)), Dev1);
      Arrives(batches, Batch(Dev2, pkts, StatusOf(handoff)), Dev2);
      if handoff == NoTask {
        stats1 := stats1.(rxDropped := stats1.rxDropped + pkts);
        batches, freed := batches + [Batch(Dev2, pkts, Dropped)], freed + [1];
        return;
      }
      batches, freed := batches + [Batch(Dev2, pkts, StatusOf(handoff))], freed + [0];
      stats2 := stats2.(rxPkts := stats2.rxPkts + pkts);
    }

    /** tx_success_cb1: the transmit queue of device 1 has sent a batch, which came from device 2. */
    method TxSuccess1(k: nat)
      requires Valid() && Enabled(batches, Tx(k, true)) && batches[k].from == Dev2
      modifies this`batches, this`freed, this`stats1
      ensures Valid() && batches == Next(old(batches), Tx(k, true)) && freed == Frees(old(freed), Tx(k, true))
      ensures stats1 == old(stats1).(txPkts := old(stats1).txPkts + old(batches)[k].pkts)
    {
      hide Total;
      Settles(batches, k, Transmitted, Dev1);
      Settles(batches, k, Transmitted, Dev2);
      freed := freed[k := freed[k] + 1];
      stats1 := stats1.(txPkts := stats1.txPkts + batches[k].pkts);
      batches := batches[k := batches[k].(status := Transmitted)];
    }

    /** tx_success_cb2: the transmit queue of device 2 has sent a batch, which came from device 1. */
    method TxSuccess2(k: nat)
      requires Valid() && Enabled(batches, Tx(k, true)) && batches[k].from == Dev1
      modifies this`batches, this`freed, this`stats2
      ensures Valid() && batches == Next(old(batches), Tx(k, true)) && freed == Frees(old(freed), Tx(k, true))
      ensures stats2 == old(stats2).(txPkts := old(stats2).txPkts + old(batches)[k].pkts)
    {
      hide Total;
      Settles(batches, k, Transmitted, Dev1);
      Settles(batches, k, Transmitted, Dev2);
      freed := freed[k := freed[k] + 1];
      stats2 := stats2.(txPkts := stats2.txPkts + batches[k].pkts);
      batches := batches[k := batches[k].(status := Transmitted)];
    }

    /** tx_error_cb: sending a batch failed, or was cut short because the queue is being stopped. */
    method TxError(k: nat)
      requires Valid() && Enabled(batches, Tx(k, false))
      modifies this`batches, this`freed, this`forceStop
      ensures Valid() && forceStop
      ensures batches == Next(old(batches), Tx(k, false)) && freed == Frees(old(freed), Tx(k, false))
    {
      hide Total;
      Settles(batches, k, Failed, Dev1);
      Settles(batches, k, Failed, Dev2);
      freed := freed[k := freed[k] + 1];
      batches := batches[k := batches[k].(status := Failed)];
      forceStop := true;
    }

    /** The callback that an event leads to. */
    method Handle(e: Event)
      requires Valid() && Enabled(batches, e)
      modifies this
      ensures Valid() && batches == Next(old(batches), e) && freed == Frees(old(freed), e)
      ensures forceStop <==> old(forceStop) || (e.Tx? && !e.ok)
    {
      match e
      case Rx(from, pkts, handoff) =>
        if from == Dev1 {
          RxSuccess1(pkts, handoff);
        } else {
          RxSuccess2(pkts, handoff);
        }
      case Tx(k, ok) =>
        if !ok {
          TxError(k);
        } else if batches[k].from == Dev1 {
          TxSuccess2(k);
        } else {
          TxSuccess1(k);
        }
    }

    /**
     Any sequence of events, in any order, on either device, from an empty forwarder. The batches and how often each
     was freed are the fold of the events; every batch is freed once its fate is settled; the counters tell what
     arrived; and every packet that got a task is transmitted by the other device, in flight, failed, or stranded. For
     device 1 or device 2 alone, what arrived is what got a task or was counted as dropped if and only if device 2
     dropped nothing.
     */
    method Run(events: seq<Event>)
      requires Valid() && batches == [] && freed == [] && !forceStop && Possible(events)
      modifies this
      ensures batches == BatchesAfter(events, |events|) && freed == FreedAfter(events, |events|)
      ensures FreedOnce(batches, freed) && Conserves(events, batches, stats1, stats2)
      ensures forceStop <==> exists i :: 0 <= i < |events| && events[i].Tx? && !events[i].ok
      ensures var n := |events|;
              forall d :: var stats := if d == Dev1 then stats1 else stats2;
                          Arrivals(events, d, true, n) + Arrivals(events, d, false, n) == stats.rxPkts + stats.rxDropped
                          <==> Arrivals(events, Dev2, false, n) == 0
    {
      hide Total, Balanced, Next, Frees, FreedOnce, Enabled;
      for i := 0 to |events|
        invariant Valid()
        invariant batches == BatchesAfter(events, i) && freed == FreedAfter(events, i)
        invariant forceStop <==> exists j :: 0 <= j < i && events[j].Tx? && !events[j].ok
      {
        Handle(events[i]);
      }
      RunConserves(events, stats1, stats2);
    }
  }

  lemma RunConserves(events: seq<Event>, stats1: Stats, stats2: Stats)
    requires Possible(events) && Balanced(BatchesAfter(events, |events|), stats1, stats2)
    ensures Conserves(events, BatchesAfter(events, |events|), stats1, stats2)
  {
    hide Total, BatchesAfter, Arrivals, Possible;
    ArrivalsAreBooked(events, Dev1, |events|);
    ArrivalsAreBooked(events, Dev2, |events|);
    Conservation(BatchesAfter(events, |events|), stats1, stats2);
  }

  // ---------------------------------------------------------------- batches that are never settled

  predicate IsStranded(batches: seq<Batch>, k: nat) {
    k < |batches| && batches[k].status == Stranded
  }

  lemma StrandedStep(batches: seq<Batch>, e: Event, k: nat)
    requires Enabled(batches, e) && k < |batches|
    ensures k < |Next(batches, e)| && (IsStranded(Next(batches, e), k) <==> IsStranded(batches, k))
  {}

  /** Over the rest of a run a batch is stranded if and only if it was. */
  lemma {:induction false} StrandedForEver(events: seq<Event>, k: nat, m: nat, n: nat)
    requires Possible(events) && m <= n <= |events| && k < |BatchesAfter(events, m)|
    ensures k < |BatchesAfter(events, n)|
    ensures IsStranded(BatchesAfter(events, n), k) <==> IsStranded(BatchesAfter(events, m), k)
    decreases n - m
  {
    hide Next, Enabled, IsStranded;
    if m < n {
      StrandedForEver(events, k, m, n - 1);
      StrandedStep(BatchesAfter(events, n - 1), events[n - 1], k);
    }
  }

  lemma FreesStep(batches: seq<Batch>, freed: seq<nat>, e: Event)
    requires Enabled(batches, e) && FreedOnce(batches, freed)
    ensures FreedOnce(Next(batches, e), Frees(freed, e))
  {}

  /** In every possible run exactly the settled batches have been freed, each once. */
  lemma {:induction false} RunFreesOnce(events: seq<Event>, n: nat)
    requires Possible(events) && n <= |events|
    ensures FreedOnce(BatchesAfter(events, n), FreedAfter(events, n))
  {
    hide Next, Enabled, Frees, FreedOnce;
    if n > 0 {
      RunFreesOnce(events, n - 1);
      FreesStep(BatchesAfter(events, n - 1), FreedAfter(events, n - 1), events[n - 1]);
    } else {
      NoneFreed();
    }
  }

  lemma NoneFreed()
    ensures FreedOnce([], [])
  {}

  lemma {:induction false} SamePrefix(events: seq<Event>, more: seq<Event>, n: nat)
    requires n <= |events|
    ensures BatchesAfter(events + more, n) == BatchesAfter(events, n)
  {
    hide Next;
    if n > 0 {
      SamePrefix(events, more, n - 1);
    }
  }

  lemma PossibleMore(events: seq<Event>, e: Event)
    requires Possible(events) && Enabled(BatchesAfter(events, |events|), e)
    ensures Possible(events + [e])
    ensures BatchesAfter(events + [e], |events| + 1) == Next(BatchesAfter(events, |events|), e)
  {
    hide Enabled, Next, BatchesAfter;
    forall n | 0 <= n < |events| + 1
      ensures Enabled(BatchesAfter(events + [e], n), (events + [e])[n])
    {
      SamePrefix(events, [e], n);
    }
    SamePrefix(events, [e], |events|);
    LastStep(events + [e], |events| + 1);
  }

  lemma LastStep(events: seq<Event>, n: nat)
    requires 0 < n <= |events|
    ensures BatchesAfter(events, n) == Next(BatchesAfter(events, n - 1), events[n - 1])
  {}

  /** In this possible run the packet array of batch `k` has been freed. */
  ghost predicate FreesIn(events: seq<Event>, k: nat) {
    Possible(events) && k < |FreedAfter(events, |events|)| && FreedAfter(events, |events|)[k] > 0
  }

  lemma FreesSettled(events: seq<Event>, k: nat)
    requires Possible(events)
    ensures var batches := BatchesAfter(events, |events|);
            FreesIn(events, k) <==> k < |batches| && Settled(batches[k].status)
  {
    hide Possible, BatchesAfter, FreedAfter;
    RunFreesOnce(events, |events|);
  }

  /** Now or in some continuation of the run. */
  ghost predicate CanBeFreed(events: seq<Event>, k: nat) {
    exists more: seq<Event> :: FreesIn(events + more, k)
  }

  /** The batch that arrives with event `i`, and what it is at first. */
  lemma ArrivesAs(events: seq<Event>, i: nat)
    requires i < |events| && events[i].Rx?
    ensures var k := |BatchesAfter(events, i)|;
            k < |BatchesAfter(events, i + 1)| && BatchesAfter(events, i + 1)[k].status == StatusOf(events[i].handoff)
  {}

  /**
   The batch that arrives with event `i` can be freed in some continuation of the run if and only if submitting its task
   did not fail; after a failure, of which the code takes no notice, it never is.
   */
  lemma NeverFreedIffRefused(events: seq<Event>, i: nat)
    requires Possible(events) && i < |events| && events[i].Rx?
    ensures CanBeFreed(events, |BatchesAfter(events, i)|) <==> events[i].handoff != Refused
  {
    hide Possible, BatchesAfter, FreesIn;
    var k := |BatchesAfter(events, i)|;
    ArrivesAs(events, i);
    StrandedForEver(events, k, i + 1, |events|);
    if events[i].handoff == Refused {
      forall more: seq<Event>
        ensures !FreesIn(events + more, k)
      {
        StrandedStays(events, more, i, k);
      }
    } else {
      SettledNext(events, k);
    }
  }

  lemma StrandedStays(events: seq<Event>, more: seq<Event>, i: nat, k: nat)
    requires i < |events| && IsStranded(BatchesAfter(events, i + 1), k)
    ensures !FreesIn(events + more, k)
  {
    hide BatchesAfter, FreedAfter;
    var all := events + more;
    if Possible(all) {
      hide Possible;
      SamePrefix(events, more, i + 1);
      StrandedForEver(all, k, i + 1, |all|);
      FreesSettled(all, k);
    }
  }

  lemma SettledNext(events: seq<Event>, k: nat)
    requires Possible(events) && k < |BatchesAfter(events, |events|)| && !IsStranded(BatchesAfter(events, |events|), k)
    ensures CanBeFreed(events, k)
  {
    hide Possible, BatchesAfter, FreesIn;
    if BatchesAfter(events, |events|)[k].status == Pending {
      PossibleMore(events, Tx(k, true));
      FreesSettled(events + [Tx(k, true)], k);
      assert FreesIn(events + [Tx(k, true)], k);
    } else {
      FreesSettled(events, k);
      assert events + [] == events;
      assert FreesIn(events + [], k);
    }
  }

  /** One packet from device 1 whose task is not taken: it counts as forwarded, and is never freed. */
  lemma StrandedWitness()
    ensures !CanBeFreed([Rx(Dev1, 1, Refused)], 0) && Arrivals([Rx(Dev1, 1, Refused)], Dev1, true, 1) == 1
  {
    hide CanBeFreed;
    var events := [Rx(Dev1, 1, Refused)];
    assert Enabled(BatchesAfter(events, 0), events[0]);
    NeverFreedIffRefused(events, 0);
  }

  /** One packet that arrives on device 2 and cannot be sent is counted as dropped on device 1. */
  method DropOnDevice2() returns (stats1: Stats, stats2: Stats)
    ensures stats1 == Stats(0, 1, 0) && stats2 == Stats(0, 0, 0)
  {
    var forwarder := new Forwarder();
    forwarder.RxSuccess2(1, NoTask);
    stats1, stats2 := forwarder.stats1, forwarder.stats2;
  }
}

/** Shutting a forwarder thread down: stop its queue contexts, wait until they are idle, then destroy the queues. */
module L2Cleanup {
  datatype CtxState = Idle | Running | Stopping

  datatype StopResult = Stopped | InProgress | StopFailed

  datatype Code = Success | Failure

  /** The four contexts, in the order in which they are stopped. */
  const RXQ1: nat := 0
  const RXQ2: nat := 1
  const TXQ1: nat := 2
  const TXQ2: nat := 3

  function One(b: bool): nat {
    if b then 1 else 0
  }

  /** How many of the first `n` context pointers are set. */
  function Count(ctx: seq<bool>, n: nat): nat
    requires |ctx| == 4
  {
    (if n > 0 then One(ctx[0]) else 0) + (if n > 1 then One(ctx[1]) else 0)
    + (if n > 2 then One(ctx[2]) else 0) + (if n > 3 then One(ctx[3]) else 0)
  }

  /** A context to which no pointer is left is idle. */
  ghost predicate NullIsIdle(ctx: seq<bool>, sdk: seq<CtxState>)
    requires |ctx| == 4 && |sdk| == 4
  {
    forall i :: 0 <= i < 4 && !ctx[i] ==> sdk[i] == Idle
  }

  ghost predicate NoneRunning(sdk: seq<CtxState>, n: nat) {
    forall i :: 0 <= i < n && i < |sdk| ==> sdk[i] != Running
  }

  ghost predicate AllIdle(sdk: seq<CtxState>) {
    forall i :: 0 <= i < |sdk| ==> sdk[i] == Idle
  }

  lemma NoneLeft(ctx: seq<bool>, sdk: seq<CtxState>)
    requires |ctx| == 4 && |sdk| == 4 && NullIsIdle(ctx, sdk) && Count(ctx, 4) == 0
    ensures AllIdle(sdk)
  {
    assert !ctx[0] && !ctx[1] && !ctx[2] && !ctx[3];
  }

  class Resources {
    /** Whether the context pointers and the queue pointers are set. */
    var ctx: seq<bool>
    var queue: seq<bool>
    /** The contexts themselves. */
    var sdk: seq<CtxState>
    var destroyed: seq<bool>
    /** How often progressing the engine may leave a stopping context as it is: any number, but not for ever. */
    var patience: nat
    /** How many calls into the SDK have failed. */
    ghost var failures: nat

    ghost predicate Valid()
      reads this
    {
      |ctx| == 4 && |queue| == 4 && |sdk| == 4 && |destroyed| == 4 && NullIsIdle(ctx, sdk)
    }

    constructor (ctx: seq<bool>, queue: seq<bool>, patience: nat)
      requires |ctx| == 4 && |queue| == 4
      ensures Valid() && this.ctx == ctx && this.queue == queue && destroyed == [false, false, false, false]
      ensures failures == 0
    {
      this.ctx, this.queue, this.patience, failures := ctx, queue, patience, 0;
      sdk := seq(4, i requires 0 <= i < 4 => if ctx[i] then Running else Idle);
      destroyed := [false, false, false, false];
    }

    /** Stop one context: it is counted if it takes time, and loses its pointer if it is idle at once. */
    method StopOne(i: nat, inProgress: nat) returns (ok: bool, count: nat)
      requires Valid() && i < 4 && inProgress == Count(ctx, i) && NoneRunning(sdk, i)
      modifies this`ctx, this`sdk, this`failures
      ensures Valid() && (ok ==> count == Count(ctx, i + 1) && NoneRunning(sdk, i + 1))
      ensures failures == old(failures) + One(!ok)
    {
      ok, count := true, inProgress;
      if ctx[i] {
        var result: StopResult := *;
        match result
        case InProgress =>
          sdk := sdk[i := Stopping];
          count := count + 1;
        case StopFailed =>
          ok, failures := false, failures + 1;
        case Stopped =>
          sdk := sdk[i := Idle];
          ctx := ctx[i := false];
      }
    }

    /** doca_pe_progress: some of the stopping contexts become idle. */
    method Progress()
      requires Valid() && NoneRunning(sdk, 4)
      modifies this`sdk, this`patience
      ensures Valid() && NoneRunning(sdk, 4)
      ensures if old(patience) == 0 then patience == 0 && AllIdle(sdk) else patience < old(patience)
    {
      var finished: seq<bool> := *;
      if patience == 0 || |finished| != 4 {
        finished := [true, true, true, true];
      }
      var before, done := sdk, finished;
      sdk := seq(4, i requires 0 <= i < 4 => if done[i] then Idle else before[i]);
      if patience > 0 {
        patience := patience - 1;
      }
    }

    /** One context looked at in a round of the drain loop. */
    method DrainOne(i: nat, inProgress: nat) returns (ok: bool, count: nat)
      requires Valid() && i < 4 && inProgress == Count(ctx, 4)
      modifies this`ctx, this`failures
      ensures Valid() && count == Count(ctx, 4) && count <= inProgress
      ensures failures == old(failures) + One(!ok)
      ensures ok && old(sdk)[i] == Idle ==> !ctx[i]
      ensures forall j :: 0 <= j < 4 && j != i ==> ctx[j] == old(ctx)[j]
    {
      ok, count := true, inProgress;
      if ctx[i] {
        var known: bool := *;
        if !known {
          failures := failures + 1;
          return false, count;
        }
        if sdk[i] == Idle {
          ctx := ctx[i := false];
          count := count - 1;
        }
      }
    }

    /** One round of the drain loop. */
    method DrainRound(inProgress: nat) returns (ok: bool, count: nat)
      requires Valid() && inProgress == Count(ctx, 4) && NoneRunning(sdk, 4)
      modifies this`ctx, this`sdk, this`patience, this`failures
      ensures failures == old(failures) + One(!ok)
      ensures Valid() && NoneRunning(sdk, 4) && count == Count(ctx, 4) && count <= inProgress
      ensures ok ==> if old(patience) == 0 then patience == 0 && count == 0 else patience < old(patience)
    {
      hide Count;
      Progress();
      ok, count := DrainOne(RXQ1, inProgress);
      if !ok {
        return;
      }
      ok, count := DrainOne(RXQ2, count);
      if !ok {
        return;
      }
      ok, count := DrainOne(TXQ1, count);
      if !ok {
        return;
      }
      ok, count := DrainOne(TXQ2, count);
      NoneSet(ctx);
    }

    /** A queue is destroyed only when every context is idle. */
    method DestroyOne(i: nat) returns (ok: bool)
      requires Valid() && i < 4 && AllIdle(sdk)
      modifies this`destroyed, this`failures
      ensures Valid() && destroyed == if ok && queue[i] then old(destroyed)[i := true] else old(destroyed)
      ensures failures == old(failures) + One(!ok)
    {
      ok := true;
      if queue[i] {
        ok := *;
        if ok {
          destroyed := destroyed[i := true];
        } else {
          failures := failures + 1;
        }
      }
    }

    method DestroyAll() returns (ok: bool)
      requires Valid() && AllIdle(sdk)
      modifies this`destroyed, this`failures
      ensures Valid() && failures == old(failures) + One(!ok)
      ensures forall i :: 0 <= i < 4 && destroyed[i] ==> old(destroyed)[i] || queue[i]
      ensures ok ==> forall i :: 0 <= i < 4 && queue[i] ==> destroyed[i]
    {
      ok := DestroyOne(TXQ1);
      if !ok {
        return;
      }
      ok := DestroyOne(TXQ2);
      if !ok {
        return;
      }
      ok := DestroyOne(RXQ1);
      if !ok {
        return;
      }
      ok := DestroyOne(RXQ2);
    }

    /**
     eth_l2_fwd_per_thread_cleanup. The counter is always the number of contexts that are not known to be idle, so the
     loop ends exactly when all are; whatever fails, no queue is destroyed while a context is still active. It fails
     exactly when one of its calls fails.
     */
    method Cleanup() returns (ret: Code)
      requires Valid() && destroyed == [false, false, false, false]
      modifies this`ctx, this`sdk, this`patience, this`destroyed, this`failures
      ensures Valid() && failures == old(failures) + One(ret == Failure)
      ensures AllIdle(sdk) || destroyed == [false, false, false, false]
      ensures ret == Success ==> AllIdle(sdk) && Count(ctx, 4) == 0
      ensures forall i :: 0 <= i < 4 && destroyed[i] ==> queue[i]
      ensures ret == Success ==> forall i :: 0 <= i < 4 && queue[i] ==> destroyed[i]
    {
      hide Count, NullIsIdle;
      NothingCounted(ctx);
      ret := Failure;
      var ok, inProgress := StopOne(RXQ1, 0);
      if !ok {
        return;
      }
      ok, inProgress := StopOne(RXQ2, inProgress);
      if !ok {
        return;
      }
      ok, inProgress := StopOne(TXQ1, inProgress);
      if !ok {
        return;
      }
      ok, inProgress := StopOne(TXQ2, inProgress);
      if !ok {
        return;
      }
      while inProgress > 0
        invariant Valid() && NoneRunning(sdk, 4) && inProgress == Count(ctx, 4)
        invariant destroyed == [false, false, false, false] && failures == old(failures)
        decreases patience, inProgress
      {
        ok, inProgress := DrainRound(inProgress);
        if !ok {
          return;
        }
      }
      NoneLeft(ctx, sdk);
      ok := DestroyAll();
      if ok {
        ret := Success;
      }
    }
  }

  lemma NoneSet(ctx: seq<bool>)
    requires |ctx| == 4
    ensures !ctx[0] && !ctx[1] && !ctx[2] && !ctx[3] <==> Count(ctx, 4) == 0
  {}

  lemma NothingCounted(ctx: seq<bool>)
    requires |ctx| == 4
    ensures Count(ctx, 0) == 0
  {}
}
