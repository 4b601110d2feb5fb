/**
 The Netflow exporter: worker threads put records into preallocated slots and queue them, the main thread sends them
 and gives the slots back. Both queues are bounded FIFO rings whose operations are atomic; between any two operations
 of one thread the others may take any number of steps.
 */
module NetflowRing {
  import opened Environment

  const QUEUE_SIZE: nat := 1024
  /** A ring of this size holds one element less, and so many slots are put into the free list. */
  const CAPACITY: nat := QUEUE_SIZE - 1

  type Slot = int
  datatype Record = Record(fields: seq<int>)

  /** Where a producer is in enqueue_netflow_record_to_ring. */
  datatype Producer = Idle | Taken(slot: Slot, record: Record) | Written(slot: Slot, record: Record)

  /** Where the consumer is in send_netflow_record. */
  datatype Consumer = Resting | Counted(n: nat) | Sending(slots: seq<Slot>, sent: nat)

  /** A record that was sent: its number in the order of enqueueing, and the value that was sent. */
  datatype Sent = Sent(index: int, value: Record)

  datatype State = State(
    memory: seq<Record>,
    free: seq<Slot>, pending: seq<Slot>,
    producers: seq<Producer>, consumer: Consumer,
    kept: seq<Slot>,                  // slots that a failed send never returned
    full: bool, mismatch: bool,       // the two branches that report a full ring
    enqueued: seq<Record>,            // the records passed in, in the order in which they got into the pending ring
    dequeued: nat,                    // how many of them have left it
    log: seq<Sent>)

  datatype Action =
    | Take(p: nat, record: Record) | Write(p: nat) | Enqueue(p: nat)
    | Count | Dequeue | Send(ok: bool, n: nat) | Return

  // ---------------------------------------------------------------- steps

  function Initial(memory: seq<Record>, threads: nat): State {
    State(memory, seq(CAPACITY, i => i), [], seq(threads, _ => Idle), Resting, [], false, false, [], 0, [])
  }

  function ProducerStep(s: State, p: nat, record: Record): State
    requires p < |s.producers| && s.producers[p].Idle?
  {
    if s.free == [] then s
    else s.(free := s.free[1..], producers := s.producers[p := Taken(s.free[0], record)])
  }

  function WriteStep(s: State, p: nat): State
    requires p < |s.producers| && s.producers[p].Taken? && 0 <= s.producers[p].slot < |s.memory|
  {
    var h := s.producers[p];
    s.(memory := s.memory[h.slot := h.record], producers := s.producers[p := Written(h.slot, h.record)])
  }

  function EnqueueStep(s: State, p: nat): State
    requires p < |s.producers| && s.producers[p].Written?
  {
    var h := s.producers[p];
    if |s.pending| >= CAPACITY then s.(full := true, kept := s.kept + [h.slot], producers := s.producers[p := Idle])
    else s.(pending := s.pending + [h.slot], enqueued := s.enqueued + [h.record], producers := s.producers[p := Idle])
  }

  function CountStep(s: State): State
    requires s.consumer.Resting?
  {
    if |s.pending| == 0 then s else s.(consumer := Counted(|s.pending|))
  }

  /** A bulk dequeue takes all that was asked for, or nothing. */
  function DequeueStep(s: State): State
    requires s.consumer.Counted?
  {
    var n := s.consumer.n;
    if |s.pending| < n then s.(consumer := Sending([], 0))
    else s.(consumer := Sending(s.pending[..n], 0), pending := s.pending[n..], dequeued := s.dequeued + n)
  }

  function SentRecords(memory: seq<Record>, slots: seq<Slot>, from: nat, n: nat, first: int): (r: seq<Sent>)
    requires from + n <= |slots| && forall j :: 0 <= j < |slots| ==> 0 <= slots[j] < |memory|
    ensures |r| == n
    ensures forall j :: 0 <= j < n ==> r[j] == Sent(first + from + j, memory[slots[from + j]])
  {
    seq(n, j requires 0 <= j < n => Sent(first + from + j, memory[slots[from + j]]))
  }

  /** The exporter library sends the next `n` records, or fails; after a failure the slots are not returned. */
  function SendStep(s: State, ok: bool, n: nat): State
    requires s.consumer.Sending? && s.consumer.sent + n <= |s.consumer.slots|
    requires forall j :: 0 <= j < |s.consumer.slots| ==> 0 <= s.consumer.slots[j] < |s.memory|
  {
    var c := s.consumer;
    if ok then
      s.(log := s.log + SentRecords(s.memory, c.slots, c.sent, n, s.dequeued - |c.slots|),
         consumer := Sending(c.slots, c.sent + n))
    else s.(kept := s.kept + c.slots, consumer := Resting)
  }

  function ReturnStep(s: State): State
    requires s.consumer.Sending? && s.consumer.sent == |s.consumer.slots|
  {
    if |s.free| + |s.consumer.slots| > CAPACITY
    then s.(mismatch := true, kept := s.kept + s.consumer.slots, consumer := Resting)
    else s.(free := s.free + s.consumer.slots, consumer := Resting)
  }

  // ---------------------------------------------------------------- the invariant

  function Hand(p: Producer): multiset<Slot> {
    if p.Idle? then multiset{} else multiset{p.slot}
  }

  function Hands(producers: seq<Producer>, i: nat): multiset<Slot>
    decreases |producers| - i
  {
    if i >= |producers| then multiset{} else Hand(producers[i]) + Hands(producers, i + 1)
  }

  function InSending(c: Consumer): seq<Slot> {
    if c.Sending? then c.slots else []
  }

  /** Every place where a slot can be. */
  function Places(free: seq<Slot>, pending: seq<Slot>, producers: seq<Producer>, sending: seq<Slot>, kept: seq<Slot>)
    : multiset<Slot>
  {
    multiset(free) + multiset(pending) + Hands(producers, 0) + multiset(sending) + multiset(kept)
  }

  function AllSlots(): multiset<Slot> {
    multiset(seq(CAPACITY, i => i))
  }

  /** The slots are partitioned among the free list, the pending ring, the hands of the threads, and the kept ones. */
  ghost predicate Partitioned(s: State) {
    Places(s.free, s.pending, s.producers, InSending(s.consumer), s.kept) == AllSlots()
  }

  /** Slots hold the records they were queued with. */
  ghost predicate Hold(memory: seq<Record>, slots: seq<Slot>, enqueued: seq<Record>, first: int) {
    && 0 <= first && first + |slots| <= |enqueued|
    && forall j :: 0 <= j < |slots| ==> 0 <= slots[j] < |memory| && memory[slots[j]] == enqueued[first + j]
  }

  ghost predicate HandHolds(memory: seq<Record>, p: Producer) {
    && (!p.Idle? ==> 0 <= p.slot < |memory|)
    && (p.Written? ==> memory[p.slot] == p.record)
  }

  ghost predicate HandsHold(memory: seq<Record>, producers: seq<Producer>) {
    forall p :: 0 <= p < |producers| ==> HandHolds(memory, producers[p])
  }

  /** Sent records are in order, so none twice, each with the value it was enqueued with, all before `next`. */
  ghost predicate InOrder(log: seq<Sent>, enqueued: seq<Record>, next: int) {
    && next <= |enqueued|
    && (forall i :: 0 <= i < |log| ==> 0 <= log[i].index < next && log[i].value == enqueued[log[i].index])
    && (forall i, j :: 0 <= i < j < |log| ==> log[i].index < log[j].index)
  }

  function Next(s: State): int {
    if s.consumer.Sending? then s.dequeued - |s.consumer.slots| + s.consumer.sent else s.dequeued
  }

  ghost predicate Inv(s: State) {
    && |s.memory| == QUEUE_SIZE && !s.full && !s.mismatch
    && Partitioned(s)
    && s.dequeued + |s.pending| == |s.enqueued|
    && Hold(s.memory, s.pending, s.enqueued, s.dequeued)
    && Hold(s.memory, InSending(s.consumer), s.enqueued, s.dequeued - |InSending(s.consumer)|)
    && HandsHold(s.memory, s.producers)
    && (s.consumer.Sending? ==> s.consumer.sent <= |s.consumer.slots|)
    && InOrder(s.log, s.enqueued, Next(s))
  }

  /** The step that an action takes, when it is that thread's turn to take it. */
  predicate Enabled(s: State, a: Action) {
    match a
    case Take(p, _) => p < |s.producers| && s.producers[p].Idle?
    case Write(p) => p < |s.producers| && s.producers[p].Taken?
    case Enqueue(p) => p < |s.producers| && s.producers[p].Written?
    case Count => s.consumer.Resting?
    case Dequeue => s.consumer.Counted?
    case Send(_, n) =>
      && s.consumer.Sending? && s.consumer.sent < |s.consumer.slots|
      && s.consumer.sent + n <= |s.consumer.slots|
    case Return => s.consumer.Sending? && s.consumer.sent == |s.consumer.slots|
  }

  function Step(s: State, a: Action): State
    requires Inv(s) && Enabled(s, a)
  {
    match a
    case Take(p, record) => ProducerStep(s, p, record)
    case Write(p) => assert HandHolds(s.memory, s.producers[p]); WriteStep(s, p)
    case Enqueue(p) => EnqueueStep(s, p)
    case Count => CountStep(s)
    case Dequeue => DequeueStep(s)
    case Send(ok, n) => SendStep(s, ok, n)
    case Return => ReturnStep(s)
  }

  // ---------------------------------------------------------------- slots

  lemma {:induction false} CountUpTo(n: nat, x: int)
    ensures multiset(seq(n, i => i))[x] == if 0 <= x < n then 1 else 0
  {
    if n > 0 {
      CountUpTo(n - 1, x);
      assert seq(n, i => i) == seq(n - 1, i => i) + [n - 1];
    }
  }

  lemma {:induction false} HandsUpdate(producers: seq<Producer>, i: nat, k: nat, h: Producer)
    requires i <= k < |producers|
    ensures Hands(producers[k := h], i) + Hand(producers[k]) == Hands(producers, i) + Hand(h)
    decreases k - i
  {
    hide Hand;
    var updated := producers[k := h];
    if i == k {
      HandsFrame(producers, updated, k + 1);
      HandsShift(Hand(h), Hands(producers, k + 1), Hand(producers[k]));
    } else {
      HandsUpdate(producers, i + 1, k, h);
      HandsSwap(Hand(producers[i]), Hands(updated, i + 1), Hand(producers[k]), Hands(producers, i + 1), Hand(h));
    }
  }

  lemma HandsShift(a: multiset<Slot>, b: multiset<Slot>, c: multiset<Slot>)
    ensures (a + b) + c == (c + b) + a
  {}

  lemma HandsSwap(a: multiset<Slot>, b: multiset<Slot>, c: multiset<Slot>, d: multiset<Slot>, e: multiset<Slot>)
    requires b + c == d + e
    ensures (a + b) + c == (a + d) + e
  {
    assert (a + b) + c == a + (b + c);
    assert (a + d) + e == a + (d + e);
  }

  lemma {:induction false} HandsFrame(a: seq<Producer>, b: seq<Producer>, i: nat)
    requires |a| == |b| && forall j :: i <= j < |a| ==> a[j] == b[j]
    ensures Hands(a, i) == Hands(b, i)
    decreases |a| - i
  {
    if i < |a| {
      HandsFrame(a, b, i + 1);
    }
  }

  lemma {:induction false} HandsContain(producers: seq<Producer>, i: nat, k: nat)
    requires i <= k < |producers| && !producers[k].Idle?
    ensures Hands(producers, i)[producers[k].slot] >= 1
    decreases k - i
  {
    hide Hand;
    if i < k {
      HandsContain(producers, i + 1, k);
    } else {
      HandHas(producers[k]);
    }
  }

  lemma HandHas(p: Producer)
    requires !p.Idle?
    ensures Hand(p)[p.slot] == 1
  {}

  /** No two producers hold the same slot. */
  lemma {:induction false} HandsDistinct(producers: seq<Producer>, i: nat, k: nat, l: nat)
    requires i <= k < l < |producers| && !producers[k].Idle? && !producers[l].Idle?
    requires Hands(producers, i)[producers[k].slot] <= 1
    ensures producers[k].slot != producers[l].slot
    decreases k - i
  {
    if i == k {
      HandsContain(producers, k + 1, l);
    } else {
      HandsDistinct(producers, i + 1, k, l);
    }
  }

  /** A slot in a producer's hand is nowhere else. */
  lemma Exclusive(s: State, k: nat)
    requires Partitioned(s) && k < |s.producers| && !s.producers[k].Idle?
    ensures var x := s.producers[k].slot;
            && 0 <= x < CAPACITY
            && x !in multiset(s.pending) && x !in multiset(InSending(s.consumer))
            && forall l :: 0 <= l < |s.producers| && l != k && !s.producers[l].Idle? ==> s.producers[l].slot != x
  {
    var x := s.producers[k].slot;
    CountUpTo(CAPACITY, x);
    HandsContain(s.producers, 0, k);
    assert AllSlots()[x] == multiset(s.free)[x] + multiset(s.pending)[x] + Hands(s.producers, 0)[x]
                            + multiset(InSending(s.consumer))[x] + multiset(s.kept)[x];
    forall l | 0 <= l < |s.producers| && l != k && !s.producers[l].Idle?
      ensures s.producers[l].slot != x
    {
      if s.producers[l].slot == x {
        HandsDistinct(s.producers, 0, if k < l then k else l, if k < l then l else k);
      }
    }
  }

  /** Between the parts of a partition, what one loses another gains. */
  lemma Moved(a: multiset<Slot>, b: multiset<Slot>, a': multiset<Slot>, b': multiset<Slot>, rest: multiset<Slot>,
              x: multiset<Slot>)
    requires a == a' + x && b' == b + x
    ensures a + b + rest == a' + b' + rest
  {
    assert a + b == a' + b';
  }

  lemma PlacesGrouped(free: seq<Slot>, pending: seq<Slot>, producers: seq<Producer>, sending: seq<Slot>, kept: seq<Slot>)
    ensures var f, p, h, c, k := multiset(free), multiset(pending), Hands(producers, 0), multiset(sending), multiset(kept);
            var all := Places(free, pending, producers, sending, kept);
            all == f + h + (p + c + k) && all == h + p + (f + c + k) && all == p + c + (f + h + k)
            && all == c + k + (f + p + h) && all == c + f + (p + h + k)
  {
    hide Hands;
  }

  lemma HandTaken(producers: seq<Producer>, p: nat, h: Producer)
    requires p < |producers| && producers[p].Idle? && !h.Idle?
    ensures Hands(producers[p := h], 0) == Hands(producers, 0) + multiset{h.slot}
  {
    HandsUpdate(producers, 0, p, h);
  }

  lemma HandGiven(producers: seq<Producer>, p: nat)
    requires p < |producers| && !producers[p].Idle?
    ensures Hands(producers, 0) == Hands(producers[p := Idle], 0) + multiset{producers[p].slot}
  {
    HandsUpdate(producers, 0, p, Idle);
  }

  lemma HandKept(producers: seq<Producer>, p: nat, h: Producer)
    requires p < |producers| && !producers[p].Idle? && !h.Idle? && h.slot == producers[p].slot
    ensures Hands(producers[p := h], 0) == Hands(producers, 0)
  {
    hide Hands;
    HandsUpdate(producers, 0, p, h);
    var a, b, x := Hands(producers[p := h], 0), Hands(producers, 0), multiset{h.slot};
    assert a == (a + x) - x && b == (b + x) - x;
  }

  lemma TakePartitions(s: State, p: nat, record: Record)
    requires Partitioned(s) && p < |s.producers| && s.producers[p].Idle?
    ensures Partitioned(ProducerStep(s, p, record))
  {
    hide Hands, Places;
    if s.free != [] {
      var s' := ProducerStep(s, p, record);
      HandTaken(s.producers, p, Taken(s.free[0], record));
      assert s.free == [s.free[0]] + s.free[1..];
      var rest := multiset(s.pending) + multiset(InSending(s.consumer)) + multiset(s.kept);
      Moved(multiset(s.free), Hands(s.producers, 0), multiset(s'.free), Hands(s'.producers, 0), rest, multiset{s.free[0]});
      PlacesGrouped(s.free, s.pending, s.producers, InSending(s.consumer), s.kept);
      PlacesGrouped(s'.free, s'.pending, s'.producers, InSending(s'.consumer), s'.kept);
    }
  }

  lemma EnqueuePartitions(s: State, p: nat)
    requires Partitioned(s) && p < |s.producers| && s.producers[p].Written? && |s.pending| < CAPACITY
    ensures Partitioned(EnqueueStep(s, p))
  {
    hide Hands, Places;
    var s' := EnqueueStep(s, p);
    HandGiven(s.producers, p);
    var rest := multiset(s.free) + multiset(InSending(s.consumer)) + multiset(s.kept);
    Moved(Hands(s.producers, 0), multiset(s.pending), Hands(s'.producers, 0), multiset(s'.pending), rest,
          multiset{s.producers[p].slot});
    PlacesGrouped(s.free, s.pending, s.producers, InSending(s.consumer), s.kept);
    PlacesGrouped(s'.free, s'.pending, s'.producers, InSending(s'.consumer), s'.kept);
  }

  lemma WritePartitions(s: State, p: nat)
    requires Partitioned(s) && p < |s.producers| && s.producers[p].Taken? && 0 <= s.producers[p].slot < |s.memory|
    ensures Partitioned(WriteStep(s, p))
  {
    HandKept(s.producers, p, Written(s.producers[p].slot, s.producers[p].record));
  }

  lemma DequeuePartitions(s: State)
    requires Partitioned(s) && s.consumer.Counted?
    ensures Partitioned(DequeueStep(s))
  {
    hide Hands, Places;
    var n := s.consumer.n;
    if |s.pending| >= n {
      var s' := DequeueStep(s);
      assert s.pending == s.pending[..n] + s.pending[n..];
      var rest := multiset(s.free) + Hands(s.producers, 0) + multiset(s.kept);
      Moved(multiset(s.pending), multiset(InSending(s.consumer)), multiset(s'.pending), multiset(InSending(s'.consumer)),
            rest, multiset(s.pending[..n]));
      PlacesGrouped(s.free, s.pending, s.producers, InSending(s.consumer), s.kept);
      PlacesGrouped(s'.free, s'.pending, s'.producers, InSending(s'.consumer), s'.kept);
    }
  }

  lemma SendPartitions(s: State, ok: bool, n: nat)
    requires Inv(s) && s.consumer.Sending? && s.consumer.sent + n <= |s.consumer.slots|
    ensures Partitioned(SendStep(s, ok, n))
  {
    hide Hands, Places, HandsHold, InOrder;
    if !ok {
      var s' := SendStep(s, ok, n);
      var rest := multiset(s.free) + multiset(s.pending) + Hands(s.producers, 0);
      Moved(multiset(s.consumer.slots), multiset(s.kept), multiset(InSending(s'.consumer)), multiset(s'.kept), rest,
            multiset(s.consumer.slots));
      PlacesGrouped(s.free, s.pending, s.producers, InSending(s.consumer), s.kept);
      PlacesGrouped(s'.free, s'.pending, s'.producers, InSending(s'.consumer), s'.kept);
    }
  }

  lemma ReturnPartitions(s: State)
    requires Partitioned(s) && s.consumer.Sending? && s.consumer.sent == |s.consumer.slots|
    requires |s.free| + |s.consumer.slots| <= CAPACITY
    ensures Partitioned(ReturnStep(s))
  {
    hide Hands, Places;
    var s' := ReturnStep(s);
    var rest := multiset(s.pending) + Hands(s.producers, 0) + multiset(s.kept);
    Moved(multiset(s.consumer.slots), multiset(s.free), multiset(InSending(s'.consumer)), multiset(s'.free), rest,
          multiset(s.consumer.slots));
    PlacesGrouped(s.free, s.pending, s.producers, InSending(s.consumer), s.kept);
    PlacesGrouped(s'.free, s'.pending, s'.producers, InSending(s'.consumer), s'.kept);
  }

  /** The parts of the partition never outgrow the rings. */
  lemma Sizes(s: State)
    requires Partitioned(s)
    ensures |s.free| + |s.pending| + |Hands(s.producers, 0)| + |InSending(s.consumer)| + |s.kept| == CAPACITY
  {
    hide Hands;
    var f, p, h := multiset(s.free), multiset(s.pending), Hands(s.producers, 0);
    var c, k := multiset(InSending(s.consumer)), multiset(s.kept);
    assert |f + p + h + c + k| == |f| + |p| + |h| + |c| + |k|;
    assert |AllSlots()| == CAPACITY;
  }

  /** A producer that holds a slot always finds room for it in the pending ring. */
  lemma NeverFull(s: State, p: nat)
    requires Partitioned(s) && p < |s.producers| && !s.producers[p].Idle?
    ensures |s.pending| < CAPACITY
  {
    Sizes(s);
    HandsContain(s.producers, 0, p);
  }

  /** The free list always has room for the slots that come back. */
  lemma NeverMismatched(s: State)
    requires Partitioned(s)
    ensures |s.free| + |InSending(s.consumer)| <= CAPACITY
  {
    Sizes(s);
  }

  // ---------------------------------------------------------------- records

  lemma HoldsElsewhere(memory: seq<Record>, x: Slot, record: Record, slots: seq<Slot>, enqueued: seq<Record>, first: int)
    requires 0 <= x < |memory| && x !in multiset(slots) && Hold(memory, slots, enqueued, first)
    ensures Hold(memory[x := record], slots, enqueued, first)
  {
    forall j | 0 <= j < |slots|
      ensures slots[j] != x
    {
      assert slots[j] in multiset(slots);
    }
  }

  lemma HoldAppended(memory: seq<Record>, slots: seq<Slot>, enqueued: seq<Record>, first: int, x: Slot)
    requires Hold(memory, slots, enqueued, first) && first + |slots| == |enqueued| && 0 <= x < |memory|
    ensures Hold(memory, slots + [x], enqueued + [memory[x]], first)
  {}

  lemma HoldLonger(memory: seq<Record>, slots: seq<Slot>, enqueued: seq<Record>, first: int, record: Record)
    requires Hold(memory, slots, enqueued, first)
    ensures Hold(memory, slots, enqueued + [record], first)
  {}

  lemma HoldSplit(memory: seq<Record>, slots: seq<Slot>, enqueued: seq<Record>, first: int, n: nat)
    requires Hold(memory, slots, enqueued, first) && n <= |slots|
    ensures Hold(memory, slots[..n], enqueued, first) && Hold(memory, slots[n..], enqueued, first + n)
  {}

  lemma HoldInMemory(memory: seq<Record>, slots: seq<Slot>, enqueued: seq<Record>, first: int)
    requires Hold(memory, slots, enqueued, first)
    ensures 0 <= first && forall j :: 0 <= j < |slots| ==> 0 <= slots[j] < |memory|
  {}

  lemma HandInMemory(memory: seq<Record>, producers: seq<Producer>, p: nat)
    requires HandsHold(memory, producers) && p < |producers|
    ensures HandHolds(memory, producers[p])
  {}

  lemma HandsHoldWith(memory: seq<Record>, producers: seq<Producer>, p: nat, h: Producer)
    requires HandsHold(memory, producers) && p < |producers| && HandHolds(memory, h)
    ensures HandsHold(memory, producers[p := h])
  {}

  lemma HandsHoldWritten(memory: seq<Record>, producers: seq<Producer>, p: nat)
    requires HandsHold(memory, producers) && p < |producers| && producers[p].Taken?
    requires 0 <= producers[p].slot < |memory|
    requires forall l :: 0 <= l < |producers| && l != p && !producers[l].Idle? ==> producers[l].slot != producers[p].slot
    ensures var h := producers[p];
            HandsHold(memory[h.slot := h.record], producers[p := Written(h.slot, h.record)])
  {
    var h := producers[p];
    var memory', producers' := memory[h.slot := h.record], producers[p := Written(h.slot, h.record)];
    forall l | 0 <= l < |producers'|
      ensures HandHolds(memory', producers'[l])
    {
      assert HandHolds(memory, producers[l]);
    }
  }

  lemma OrderLonger(log: seq<Sent>, enqueued: seq<Record>, next: int, record: Record)
    requires InOrder(log, enqueued, next)
    ensures InOrder(log, enqueued + [record], next)
  {}

  lemma OrderLater(log: seq<Sent>, enqueued: seq<Record>, next: int, later: int)
    requires InOrder(log, enqueued, next) && next <= later <= |enqueued|
    ensures InOrder(log, enqueued, later)
  {}

  lemma OrderSent(log: seq<Sent>, memory: seq<Record>, slots: seq<Slot>, enqueued: seq<Record>, first: int, from: nat, n: nat)
    requires Hold(memory, slots, enqueued, first) && from + n <= |slots| && InOrder(log, enqueued, first + from)
    ensures InOrder(log + SentRecords(memory, slots, from, n, first), enqueued, first + from + n)
  {}

  // ---------------------------------------------------------------- every step keeps the invariant

  lemma WriteHolds(s: State, p: nat, slots: seq<Slot>, first: int)
    requires Partitioned(s) && p < |s.producers| && s.producers[p].Taken? && HandHolds(s.memory, s.producers[p])
    requires slots == s.pending || slots == InSending(s.consumer)
    requires Hold(s.memory, slots, s.enqueued, first)
    ensures var h := s.producers[p]; Hold(s.memory[h.slot := h.record], slots, s.enqueued, first)
  {
    hide Partitioned, Hold, InSending;
    Exclusive(s, p);
    var h := s.producers[p];
    HoldsElsewhere(s.memory, h.slot, h.record, slots, s.enqueued, first);
  }

  lemma WriteHands(s: State, p: nat)
    requires Partitioned(s) && p < |s.producers| && s.producers[p].Taken? && HandsHold(s.memory, s.producers)
    ensures HandHolds(s.memory, s.producers[p])
    ensures var h := s.producers[p];
            HandsHold(s.memory[h.slot := h.record], s.producers[p := Written(h.slot, h.record)])
  {
    hide Partitioned, InSending;
    Exclusive(s, p);
    HandsHoldWritten(s.memory, s.producers, p);
  }

  lemma WriteKeeps(s: State, p: nat)
    requires Inv(s) && Enabled(s, Write(p))
    ensures Inv(Step(s, Write(p)))
  {
    hide Partitioned, Hold, HandsHold, InOrder, InSending, Hands;
    WriteHands(s, p);
    WriteHolds(s, p, s.pending, s.dequeued);
    WriteHolds(s, p, InSending(s.consumer), s.dequeued - |InSending(s.consumer)|);
    WritePartitions(s, p);
  }

  lemma EnqueueKeeps(s: State, p: nat)
    requires Inv(s) && Enabled(s, Enqueue(p))
    ensures Inv(Step(s, Enqueue(p)))
  {
    hide Partitioned, Hold, HandsHold, InOrder;
    HandInMemory(s.memory, s.producers, p);
    NeverFull(s, p);
    EnqueuePartitions(s, p);
    var h := s.producers[p];
    HoldAppended(s.memory, s.pending, s.enqueued, s.dequeued, h.slot);
    HoldLonger(s.memory, InSending(s.consumer), s.enqueued, s.dequeued - |InSending(s.consumer)|, h.record);
    HandsHoldWith(s.memory, s.producers, p, Idle);
    OrderLonger(s.log, s.enqueued, Next(s), h.record);
  }

  lemma TakeKeeps(s: State, p: nat, record: Record)
    requires Inv(s) && Enabled(s, Take(p, record))
    ensures Inv(Step(s, Take(p, record)))
  {
    hide Partitioned, Hold, HandsHold, InOrder;
    TakePartitions(s, p, record);
    if s.free != [] {
      Exclusive(ProducerStep(s, p, record), p);
      HandsHoldWith(s.memory, s.producers, p, Taken(s.free[0], record));
    }
  }

  lemma DequeueKeeps(s: State)
    requires Inv(s) && Enabled(s, Dequeue)
    ensures Inv(Step(s, Dequeue))
  {
    hide Partitioned, Hold, HandsHold, InOrder;
    var n := s.consumer.n;
    NothingHeld(s.memory, s.enqueued, s.dequeued);
    DequeuePartitions(s);
    if |s.pending| >= n {
      HoldSplit(s.memory, s.pending, s.enqueued, s.dequeued, n);
    }
  }

  lemma NothingHeld(memory: seq<Record>, enqueued: seq<Record>, first: int)
    requires 0 <= first <= |enqueued|
    ensures Hold(memory, [], enqueued, first)
  {}

  lemma SendKeeps(s: State, ok: bool, n: nat)
    requires Inv(s) && Enabled(s, Send(ok, n))
    ensures Inv(Step(s, Send(ok, n)))
  {
    hide Partitioned, Hold, HandsHold, InOrder, SentRecords;
    SendPartitions(s, ok, n);
    NothingHeld(s.memory, s.enqueued, s.dequeued);
    var slots := s.consumer.slots;
    HoldInMemory(s.memory, slots, s.enqueued, s.dequeued - |slots|);
    if ok {
      OrderSent(s.log, s.memory, slots, s.enqueued, s.dequeued - |slots|, s.consumer.sent, n);
    } else {
      OrderLater(s.log, s.enqueued, Next(s), s.dequeued);
    }
  }

  lemma ReturnKeeps(s: State)
    requires Inv(s) && Enabled(s, Return)
    ensures Inv(Step(s, Return))
  {
    hide Partitioned, Hold, HandsHold, InOrder;
    NothingHeld(s.memory, s.enqueued, s.dequeued);
    NeverMismatched(s);
    ReturnPartitions(s);
  }

  /** Whatever any thread does next, the invariant is kept. */
  lemma StepKeeps(s: State, a: Action)
    requires Inv(s) && Enabled(s, a)
    ensures Inv(Step(s, a))
  {
    match a
    case Take(p, record) => TakeKeeps(s, p, record);
    case Write(p) => WriteKeeps(s, p);
    case Enqueue(p) => EnqueueKeeps(s, p);
    case Count =>
    case Dequeue => DequeueKeeps(s);
    case Send(ok, n) => SendKeeps(s, ok, n);
    case Return => ReturnKeeps(s);
  }

  lemma InitialHolds(memory: seq<Record>, threads: nat)
    requires |memory| == QUEUE_SIZE
    ensures Inv(Initial(memory, threads))
  {
    NoHands(threads, 0);
  }

  lemma {:induction false} NoHands(threads: nat, i: nat)
    ensures Hands(seq(threads, _ => Idle), i) == multiset{}
    decreases threads - i
  {
    if i < threads {
      NoHands(threads, i + 1);
    }
  }

  /** A schedule says whose turn it is; a thread that cannot take the step skips its turn. */
  ghost function Execute(s: State, schedule: seq<Action>): (r: State)
    requires Inv(s)
    ensures Inv(r)
    decreases |schedule|
  {
    if schedule == [] then s
    else if Enabled(s, schedule[0]) then
      StepKeeps(s, schedule[0]);
      Execute(Step(s, schedule[0]), schedule[1..])
    else Execute(s, schedule[1..])
  }

  /** How often a slot occurs anywhere. */
  ghost function Occurrences(s: State, x: Slot): nat {
    multiset(s.free)[x] + multiset(s.pending)[x] + Hands(s.producers, 0)[x]
    + multiset(InSending(s.consumer))[x] + multiset(s.kept)[x]
  }

  /**
   In every interleaving, from the moment the rings are set up: each slot is in exactly one place, neither ring ever
   overflows, and the records sent are among those enqueued, in that order, none twice, with their original values.
   */
  lemma EveryInterleaving(memory: seq<Record>, threads: nat, schedule: seq<Action>)
    requires |memory| == QUEUE_SIZE
    ensures Inv(Initial(memory, threads))
    ensures var s := Execute(Initial(memory, threads), schedule);
            && !s.full && !s.mismatch
            && (forall x :: 0 <= x < CAPACITY ==> Occurrences(s, x) == 1)
            && (forall i :: 0 <= i < |s.log| ==>
                  0 <= s.log[i].index < |s.enqueued| && s.log[i].value == s.enqueued[s.log[i].index])
            && (forall i, j :: 0 <= i < j < |s.log| ==> s.log[i].index < s.log[j].index)
  {
    hide Execute, Hands;
    InitialHolds(memory, threads);
    var s := Execute(Initial(memory, threads), schedule);
    forall x | 0 <= x < CAPACITY
      ensures Occurrences(s, x) == 1
    {
      CountUpTo(CAPACITY, x);
      assert AllSlots()[x] == Places(s.free, s.pending, s.producers, InSending(s.consumer), s.kept)[x];
    }
  }

  // ---------------------------------------------------------------- the code

  /** The thread that takes a step: a producer, or -1 for the consumer. */
  function Thread(a: Action): int {
    match a
    case Take(p, _) => p
    case Write(p) => p
    case Enqueue(p) => p
    case _ => -1
  }

  /** What the producers cannot disturb. */
  ghost predicate ProducersOnly(s: State, s': State) {
    && s'.consumer == s.consumer && s'.log == s.log && s'.dequeued == s.dequeued && s'.kept == s.kept
    && |s.pending| <= |s'.pending| && s.enqueued <= s'.enqueued
  }

  /** What the other threads cannot disturb for producer `p`. */
  ghost predicate NotProducer(s: State, s': State, p: nat) {
    && |s'.producers| == |s.producers| && p < |s.producers| && s'.producers[p] == s.producers[p]
    && s.enqueued <= s'.enqueued
  }

  lemma OthersStep(s: State, a: Action, me: int)
    requires Inv(s) && Enabled(s, a) && Thread(a) != me && -1 <= me < |s.producers|
    ensures if me == -1 then ProducersOnly(s, Step(s, a)) else NotProducer(s, Step(s, a), me)
  {
    hide Partitioned, Hold, InOrder;
    if a.Enqueue? {
      NeverFull(s, a.p);
    }
  }

  class Exporter {
    var s: State
    /** How many sends have failed. */
    ghost var failures: nat

    constructor (memory: seq<Record>, threads: nat)
      requires |memory| == QUEUE_SIZE
      ensures Inv(s) && s.consumer.Resting? && |s.producers| == threads && failures == 0
    {
      s, failures := Initial(memory, threads), 0;
      InitialHolds(memory, threads);
    }

    /** Any number of steps by every thread but `me`. */
    method Others(me: int)
      requires Inv(s) && -1 <= me < |s.producers|
      modifies this`s
      ensures Inv(s) && |s.producers| == |old(s).producers|
      ensures me == -1 ==> ProducersOnly(old(s), s)
      ensures me >= 0 ==> NotProducer(old(s), s, me)
    {
      hide Inv, Enabled, Step;
      var schedule: seq<Action> := *;
      for i := 0 to |schedule|
        invariant Inv(s) && |s.producers| == |old(s).producers|
        invariant me == -1 ==> ProducersOnly(old(s), s)
        invariant me >= 0 ==> NotProducer(old(s), s, me)
      {
        var a := schedule[i];
        if Thread(a) != me && Enabled(s, a) {
          OthersStep(s, a, me);
          StepKeeps(s, a);
          SameThreads(s, a);
          PrefixesCompose(old(s).enqueued, s.enqueued, Step(s, a).enqueued);
          s := Step(s, a);
        }
      }
    }

    /**
     enqueue_netflow_record_to_ring, by producer `p`. The record gets into the pending ring unless the free list is
     empty; the ring is never full.
     */
    method EnqueueRecord(p: nat, record: Record) returns (queued: bool, ghost index: nat)
      requires Inv(s) && p < |s.producers| && s.producers[p].Idle?
      modifies this`s
      ensures Inv(s) && |s.producers| == |old(s).producers| && s.producers[p].Idle?
      ensures queued ==> |old(s).enqueued| <= index < |s.enqueued| && s.enqueued[index] == record
      ensures !queued ==> s.free == [] && NotProducer(old(s), s, p)
    {
      hide Inv;
      index := 0;
      Others(p);
      if |s.free| == 0 {
        return false, index;
      }
      Took(s, p, record);
      s := Step(s, Take(p, record));
      Others(p);
      Wrote(s, p);
      s := Step(s, Write(p));
      Others(p);
      Enqueued(s, p);
      index := |s.enqueued|;
      s := Step(s, Enqueue(p));
      queued := true;
    }

    /** The telemetry call: it fails, or takes some of the `room` records; it takes none at most `idle` times. */
    method Send(room: nat, idle: nat) returns (ok: bool, taken: nat)
      requires room > 0
      modifies this`failures
      ensures taken <= room && (taken == 0 ==> idle > 0)
      ensures failures == old(failures) + if ok then 0 else 1
    {
      ok := *;
      taken := AnyNumber();
      if taken > room || (taken == 0 && idle == 0) {
        taken := 1;
      }
      if !ok {
        failures := failures + 1;
      }
    }

    /**
     send_netflow_record, by the consumer. On success all records that were in the pending ring at the start are
     sent, in order, each once, and their slots are free again; after a failed send, the only way to fail, their
     slots stay away. A send may succeed without sending anything, any number of times but not for ever.
     */
    method SendRecords() returns (ok: bool)
      requires Inv(s) && s.consumer.Resting?
      modifies this
      ensures Inv(s) && s.consumer.Resting? && |s.producers| == |old(s).producers|
      ensures failures == old(failures) + if ok then 0 else 1
      ensures |old(s).pending| <= s.dequeued - old(s).dequeued
      ensures ok ==> s.kept == old(s).kept && SentAll(old(s), s, s.dequeued)
      ensures !ok ==> |s.kept| == |old(s).kept| + (s.dequeued - old(s).dequeued)
    {
      hide Inv;
      Others(-1);
      if |s.pending| == 0 {
        return true;
      }
      ghost var n := |s.pending|;
      StepKeeps(s, Count);
      s := Step(s, Count);
      Others(-1);
      StepKeeps(s, Dequeue);
      s := Step(s, Dequeue);
      var idle := AnyNumber();
      while s.consumer.sent < |s.consumer.slots|
        invariant Inv(s) && s.consumer.Sending? && |s.consumer.slots| == n && s.consumer.sent <= n
        invariant |s.producers| == |old(s).producers| && s.kept == old(s).kept && s.dequeued == old(s).dequeued + n
        invariant SentAll(old(s), s, old(s).dequeued + s.consumer.sent) && failures == old(failures)
        decreases |s.consumer.slots| - s.consumer.sent, idle
      {
        Others(-1);
        var succeeded, k := Send(|s.consumer.slots| - s.consumer.sent, idle);
        if k == 0 {
          idle := idle - 1;
        }
        SentSome(old(s), s, succeeded, k);
        StepKeeps(s, Action.Send(succeeded, k));
        s := Step(s, Action.Send(succeeded, k));
        if !succeeded {
          return false;
        }
      }
      Others(-1);
      StepKeeps(s, Return);
      GaveBack(s);
      s := Step(s, Return);
      return true;
    }
  }

  /** The records sent since an earlier state are those numbered from there up to `upTo`. */
  ghost predicate SentAll(s: State, s': State, upTo: int) {
    && |s'.log| == |s.log| + (upTo - s.dequeued)
    && forall i :: |s.log| <= i < |s'.log| ==> s'.log[i].index == s.dequeued + (i - |s.log|)
  }

  lemma SentSome(s0: State, s: State, ok: bool, k: nat)
    requires Inv(s) && Enabled(s, Send(ok, k)) && SentAll(s0, s, s0.dequeued + s.consumer.sent)
    requires s.dequeued - |s.consumer.slots| == s0.dequeued
    ensures var s' := Step(s, Send(ok, k));
            && s'.producers == s.producers && s'.dequeued == s.dequeued
            && if ok then s'.kept == s.kept && s'.consumer == Sending(s.consumer.slots, s.consumer.sent + k)
                          && SentAll(s0, s', s0.dequeued + s.consumer.sent + k)
               else s'.consumer.Resting? && s'.kept == s.kept + s.consumer.slots
  {
    hide Partitioned, HandsHold, InOrder;
  }

  lemma GaveBack(s: State)
    requires Inv(s) && Enabled(s, Return)
    ensures var s' := Step(s, Return);
            s'.consumer.Resting? && s'.kept == s.kept && s'.log == s.log && s'.producers == s.producers
            && s'.dequeued == s.dequeued
  {
    hide Partitioned, HandsHold, InOrder, Hold;
    NeverMismatched(s);
  }

  lemma Took(s: State, p: nat, record: Record)
    requires Inv(s) && p < |s.producers| && s.producers[p].Idle? && s.free != []
    ensures var s' := Step(s, Take(p, record));
            && Inv(s') && |s'.producers| == |s.producers| && s'.producers[p] == Taken(s.free[0], record)
            && s'.enqueued == s.enqueued
  {
    StepKeeps(s, Take(p, record));
  }

  lemma Wrote(s: State, p: nat)
    requires Inv(s) && p < |s.producers| && s.producers[p].Taken?
    ensures var s' := Step(s, Write(p));
            && Inv(s') && |s'.producers| == |s.producers|
            && s'.producers[p] == Written(s.producers[p].slot, s.producers[p].record) && s'.enqueued == s.enqueued
  {
    hide Partitioned, Hold, InOrder;
    StepKeeps(s, Write(p));
  }

  lemma Enqueued(s: State, p: nat)
    requires Inv(s) && p < |s.producers| && s.producers[p].Written?
    ensures var s' := Step(s, Enqueue(p));
            && Inv(s') && |s'.producers| == |s.producers| && s'.producers[p].Idle?
            && s'.enqueued == s.enqueued + [s.producers[p].record]
  {
    hide Partitioned, Hold, InOrder, HandsHold;
    NeverFull(s, p);
    StepKeeps(s, Enqueue(p));
  }

  lemma PrefixesCompose<T>(a: seq<T>, b: seq<T>, c: seq<T>)
    requires a <= b <= c
    ensures a <= c
  {}

  lemma SameThreads(s: State, a: Action)
    requires Inv(s) && Enabled(s, a)
    ensures |Step(s, a).producers| == |s.producers|
  {
    hide Partitioned, Hold, InOrder, HandsHold;
  }
}
