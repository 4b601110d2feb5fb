/**
 A worker thread: it reassembles packets that arrive on some ports and fragments packets that arrive on others. All
 its outgoing traffic passes through one transmit buffer that does not know for which port a packet was meant.
 */
module IpFragWorker {
  import opened Bytes
  import opened ParserSpec
  import opened PacketParser
  import opened Environment
  import opened IpFragFixup
  import opened Frames
  import opened FragHistory
  import opened FragLaws

  const BURST: nat := 32
  const THRESHOLD: nat := 16
  const HEADROOM: nat := 128

  ghost predicate AllFor(port: Port, intended: seq<Port>, from: int) {
    forall i :: 0 <= from <= i < |intended| ==> intended[i] == port
  }

  /** The first `length` packets of the buffer are those of the log from number `start` on. */
  ghost predicate Buffered(pkts: seq<Frame>, length: nat, log: seq<Frame>, start: nat) {
    length <= |pkts| && |log| == start + length && forall i :: 0 <= i < length ==> pkts[i] == log[start + i]
  }

  lemma BufferedMore(pkts: seq<Frame>, longer: seq<Frame>, length: nat, log: seq<Frame>, start: nat, done: seq<Frame>)
    requires Buffered(pkts, length, log, start) && |pkts| == |longer| && length + |done| <= |pkts|
    requires forall i :: 0 <= i < length ==> longer[i] == pkts[i]
    requires forall k :: 0 <= k < |done| ==> longer[length + k] == done[k]
    ensures Buffered(longer, length + |done|, log + done, start)
  {
    forall i | 0 <= i < length + |done|
      ensures longer[i] == (log + done)[start + i]
    {
      if i >= length {
        assert longer[length + (i - length)] == done[i - length];
      }
    }
  }

  /** Behind what was in the buffer, the first `i` fragments have been completed and the others wait. */
  ghost predicate Laid(pkts: seq<Frame>, was: seq<Frame>, length: nat, done: seq<Frame>, pieces: seq<Frame>, i: nat) {
    && |pkts| == |was| && length + |pieces| <= |pkts| && |done| == i <= |pieces|
    && (forall j :: 0 <= j < length ==> pkts[j] == was[j])
    && (forall k :: 0 <= k < i ==> pkts[length + k] == done[k])
    && (forall k :: i <= k < |pieces| ==> pkts[length + k] == pieces[k])
  }

  lemma LaidStep(pkts: seq<Frame>, was: seq<Frame>, length: nat, done: seq<Frame>, pieces: seq<Frame>, i: nat, f: Frame)
    requires Laid(pkts, was, length, done, pieces, i) && i < |pieces|
    ensures pkts[length + i] == pieces[i]
    ensures Laid(pkts[length + i := f], was, length, done + [f], pieces, i + 1)
  {}

  /** How many packets the devices refused. */
  function Misses(taken: seq<bool>): nat {
    if taken == [] then 0 else Misses(taken[..|taken| - 1]) + if taken[|taken| - 1] then 0 else 1
  }

  /** The first `sent` of `length` packets are taken. */
  function First(sent: nat, length: nat): (r: seq<bool>)
    ensures |r| == length
    ensures forall i :: 0 <= i < length ==> r[i] == (i < sent)
  {
    if length == 0 then [] else First(sent, length - 1) + [length - 1 < sent]
  }

  lemma {:induction false} FirstMisses(taken: seq<bool>, sent: nat, length: nat)
    ensures Misses(taken + First(sent, length)) == Misses(taken) + if sent < length then length - sent else 0
  {
    if length == 0 {
      assert taken + First(sent, 0) == taken;
    } else {
      FirstMisses(taken, sent, length - 1);
      var longer := taken + First(sent, length);
      assert longer[..|longer| - 1] == taken + First(sent, length - 1);
    }
  }

  lemma CountedAgain(t: Totals, rx: Port, c: Counters, d: Counters)
    ensures Counted(Counted(t, rx, c), rx, d) == Counted(t, rx, d)
    ensures |t.counters| == 4 ==> CountersOf(Counted(t, rx, c), rx) == c
  {
    if |t.counters| == 4 {
      var i := PortId(rx);
      assert t.counters[i := c][i := d] == t.counters[i := d];
    }
  }

  /** The packet has been counted as one that exceeds the MTU before it is known what becomes of it. */
  /** A packet that does not parse, and one within the MTU. */
  lemma WithinExplained(cfg: Config, t: Totals, rx: Port, tx: Port, f: Frame)
    ensures var ok, c := Plain(Padded(f), |f.head.bytes|).0 == Success, CountersOf(t, rx);
            && (!ok ==>
                  && Explains(cfg, f, Refused(false)) && LibraryRefused(cfg, f, Refused(false)) == 0
                  && Dealt(t, rx, tx, f, Refused(false)) == Freed(Counted(t, rx, c.(err := c.err + 1)), Ids(f)))
            && (ok && Len(f) <= cfg.mtu ==>
                  && Explains(cfg, f, Passed) && LibraryRefused(cfg, f, Passed) == 0
                  && Dealt(t, rx, tx, f, Passed)
                     == Queued(Counted(t, rx, c.(mtuFits := c.mtuFits + 1)), rx, tx, [f]))
  {
    hide Plain, Len, Padded, Ids, Queued, Counted, CountersOf;
  }

  lemma ExceedExplained(cfg: Config, f: Frame, ctx: ConnCtx, o: Outcome)
    requires (Success, ctx) == Plain(Padded(f), |f.head.bytes|) && Len(f) > cfg.mtu && 14 <= |f.head.bytes|
    requires o == Refused(true) || o.Split?
    requires var ipv4 := ctx.network.ipVersion == PROTO_IPV4;
             o.Split? ==>
               && (ipv4 || cfg.chain)
               && ArePieces(o.pieces, f.head.bytes[..14], ipv4, cfg.hw, ctx.network.len / 4, cfg.mtu)
    ensures Explains(cfg, f, o)
    ensures LibraryRefused(cfg, f, o)
            == if o.Refused? && (ctx.network.ipVersion == PROTO_IPV4 || cfg.chain) then 1 else 0
  {
    hide Plain, ArePieces, Len, Padded;
  }

  lemma ExceedCounted(t: Totals, rx: Port, tx: Port, f: Frame, o: Outcome)
    requires |t.counters| == 4
    ensures var c := CountersOf(t, rx);
            var counted := Counted(t, rx, c.(mtuExceed := c.mtuExceed + 1));
            var d := CountersOf(counted, rx);
            && (o == Refused(true) ==>
                  Dealt(t, rx, tx, f, o) == Freed(Counted(counted, rx, d.(err := d.err + 1)), Ids(f)))
            && (o.Split? ==>
                  var replaced := counted.(created := counted.created + AllIds(o.pieces), freed := counted.freed + Ids(f));
                  Dealt(t, rx, tx, f, o)
                  == Queued(Counted(replaced, rx, d.(fragsGen := d.fragsGen + |o.pieces|)), rx, tx, o.pieces))
  {
    hide Ids, AllIds, Repeat;
    var c := CountersOf(t, rx);
    var d := c.(mtuExceed := c.mtuExceed + 1);
    CountedAgain(t, rx, d, d.(err := d.err + 1));
    if o.Split? {
      CountedAgain(t, rx, d, d.(fragsGen := d.fragsGen + |o.pieces|));
    }
  }

  /** Completing a packet leaves fewer buffers with the library. */
  lemma FewerHeld(held: multiset<int>, pkt: Frame, chained: Frame)
    requires Completes(held, pkt, chained)
    ensures |held + Ids(pkt) - Ids(chained)| < |held|
  {
    hide Ids;
    var all := held + Ids(pkt);
    assert (all - Ids(chained)) + Ids(chained) == all;
  }

  /** The tail passes the check of its size but does not fit. */
  predicate RunsOut(cfg: Config, chained: Frame) {
    !cfg.chain && chained.tail != [] && Overruns(chained)
  }

  function FragmentCounted(t: Totals, rx: Port): Totals {
    var c := CountersOf(t, rx);
    Counted(t, rx, c.(fragsRx := c.fragsRx + 1))
  }

  /** A fragment handed to the library, with what becomes of it there, after it has been counted. */
  lemma AfterFragment(t: Totals, cfg: Config, rx: Port, tx: Port, pkt: Frame, chained: Frame, released: multiset<int>)
    ensures var counted, taken := FragmentCounted(t, rx), t.held + Ids(pkt);
            && counted == t.(counters := counted.counters)
            && Pushed(t, cfg, rx, pkt, chained)
               == counted.(held := taken - Ids(chained), freed := t.freed + FlatReleases(cfg, chained))
            && Ended(t, rx, tx, pkt, Kept) == counted.(held := taken)
            && Ended(t, rx, tx, pkt, Aborted(chained, released))
               == counted.(held := taken - Ids(chained), freed := t.freed + released,
                           lost := t.lost + (Ids(chained) - released))
  {
    hide Ids, FlatReleases;
  }

  lemma FragmentEnds(cfg: Config, kind: PacketType, held: multiset<int>, pkt: Frame, chained: Frame,
                     after: multiset<int>, released: multiset<int>)
    requires ParseFrame(kind, pkt).0 == Again
    ensures EndOk(cfg, kind, held, pkt, Kept)
    ensures Completes(held, pkt, chained) && CanFlatten(cfg, chained) && MarkedFor(OuterFragment(kind, pkt), pkt, chained)
            ==> PushOk(cfg, kind, held, pkt, chained)
    ensures Completes(held, pkt, chained) && Ids(pkt) + after <= Ids(chained) && Refuses(cfg, chained) ==>
              EndOk(cfg, kind, held, pkt, Unflattened(chained, after))
    ensures Completes(held, pkt, chained) && released <= Ids(chained) && RunsOut(cfg, chained) ==>
              EndOk(cfg, kind, held, pkt, Aborted(chained, released))
  {
    hide Ids, ParseFrame, Completes, TooBig, Overruns, CanFlatten;
  }

  class Worker {
    const cfg: Config
    const pkts: array<Frame>
    var length: nat
    var txErr: nat
    var counters: seq<Counters>
    /** Buffers in the hands of the reassembly library: waiting for more fragments, or waiting to be released. */
    var held: multiset<int>
    /** The process has stopped at a failed assertion. */
    var aborted: bool
    /** How often the fragmentation library returned an error. */
    ghost var fragErrors: nat

    /** What has happened so far, and the bursts in which it did. */
    ghost var t: Totals
    ghost var history: seq<Phase>
    /** The ports to which the packets flushed so far went, and whether the device took each of them. */
    ghost var ports: seq<Port>
    ghost var taken: seq<bool>

    ghost predicate Valid()
      reads this, pkts
    {
      && pkts.Length == BURST && length <= BURST && 68 <= cfg.mtu
      && |counters| == 4 && counters == t.counters && held == t.held
      && |t.log| == |t.intended| == |t.origin| == |ports| + length
      && Buffered(pkts[..], length, t.log, |ports|)
      && ports <= t.intended && |taken| == |ports| && txErr == Misses(taken)
    }

    /** Whatever waits in the transmit buffer is meant for `port`. */
    ghost predicate PendingFor(port: Port)
      reads this`t, this`ports
    {
      AllFor(port, t.intended, |ports|)
    }

    /**
     All that has happened is the fold of the history, burst by burst, and the bursts kept to the schedule. The process
     has stopped if and only if it did so in the last burst.
     */
    ghost predicate Explained()
      reads this`t, this`history, this`aborted
    {
      && HistoryOk(cfg, history) && OnSchedule(cfg.mode, history) && t == After(cfg, history, |history|)
      && OnlyLastHalts(history) && (aborted <==> Halts(history))
    }

    constructor (cfg: Config)
      requires 68 <= cfg.mtu
      ensures Valid() && Explained() && length == 0 && history == [] && !aborted && fresh(pkts)
      ensures this.cfg == cfg
    {
      this.cfg := cfg;
      var empty := Frame(Segment(0, []), [], 0, false, false);
      pkts := new Frame[BURST](_ => empty);
      length, txErr, held, aborted := 0, 0, multiset{}, false;
      counters := [NO_COUNTERS, NO_COUNTERS, NO_COUNTERS, NO_COUNTERS];
      t, history, ports, taken, fragErrors := Nothing(), [], [], [], 0;
    }

    // -------------------------------------------------------------- the transmit buffer and the counters

    /** rte_eth_tx_buffer_flush: the device may accept fewer packets than offered; the rest is dropped and counted. */
    method Flush(port: Port)
      requires Valid() && PendingFor(port)
      modifies this`length, this`txErr, this`taken, this`ports
      ensures Valid() && length == 0 && ports == t.intended
    {
      var sent := AnyNumber();
      if sent < length {
        txErr := txErr + (length - sent);
      }
      FirstMisses(taken, sent, length);
      taken := taken + First(sent, length);
      ports := ports + Repeat(port, length);
      length := 0;
      assert ports == t.intended;
    }

    /** rte_eth_tx_buffer: a full buffer is flushed at once. */
    method TxBuffer(rx: Port, port: Port, f: Frame)
      requires Valid() && length < BURST && PendingFor(port)
      modifies this`length, this`txErr, this`taken, this`t, this`ports, pkts
      ensures Valid() && length < BURST && length <= old(length) + 1 && PendingFor(port)
      ensures t == Queued(old(t), rx, port, [f])
    {
      hide Buffered;
      ghost var before := pkts[..];
      pkts[length] := f;
      BufferedMore(before, pkts[..], length, t.log, |ports|, [f]);
      length := length + 1;
      t := Queued(t, rx, port, [f]);
      if length < BURST {
        return;
      }
      Flush(port);
    }

    method Count(rx: Port, c: Counters)
      requires Valid()
      modifies this`counters, this`t
      ensures Valid() && t == Counted(old(t), rx, c)
    {
      counters := counters[PortId(rx) := c];
      t := Counted(t, rx, c);
    }

    /** ip_frag_pkt_err_drop; `ids` are the buffers of the packet. */
    method ErrDrop(rx: Port, ghost ids: multiset<int>)
      requires Valid()
      modifies this`counters, this`t
      ensures Valid()
      ensures var c := CountersOf(old(t), rx); t == Freed(Counted(old(t), rx, c.(err := c.err + 1)), ids)
    {
      var c := counters[PortId(rx)];
      Count(rx, c.(err := c.err + 1));
      t := Freed(t, ids);
    }

    // -------------------------------------------------------------- fragmentation

    /** The fragmentation library: any list of fragments that fits the buffer and the limit, or an error. */
    method FragmentLibrary(ipv4: bool, ihl: nat, max: nat, limit: nat) returns (ok: bool, pieces: seq<Frame>)
      modifies this`fragErrors
      ensures fragErrors == old(fragErrors) + if ok then 0 else 1
      ensures ok ==> |pieces| <= max && forall i :: 0 <= i < |pieces| ==> IsFragment(pieces[i], ipv4, ihl, limit)
    {
      ok, pieces := *, *;
      if !(ok && |pieces| <= max && forall i :: 0 <= i < |pieces| ==> IsFragment(pieces[i], ipv4, ihl, limit)) {
        ok, pieces := false, [];
      }
      fragErrors := fragErrors + if ok then 0 else 1;
    }

    /** ip_frag_mbuf_fragment: without chained buffers there is no way to fragment IPv6. */
    method MbufFragment(ipv4: bool, ihl: nat, max: nat, limit: nat) returns (ok: bool, pieces: seq<Frame>)
      modifies this`fragErrors
      ensures ok <==> (ipv4 || cfg.chain) && fragErrors == old(fragErrors)
      ensures fragErrors == old(fragErrors) + if ok || !(ipv4 || cfg.chain) then 0 else 1
      ensures ok ==> |pieces| <= max && forall i :: 0 <= i < |pieces| ==> IsFragment(pieces[i], ipv4, ihl, limit)
    {
      ok, pieces := false, [];
      if ipv4 || cfg.chain {
        ok, pieces := FragmentLibrary(ipv4, ihl, max, limit);
      }
    }

    method PlacePieces(pieces: seq<Frame>)
      requires pkts.Length == BURST && length + |pieces| <= BURST
      modifies pkts
      ensures Laid(pkts[..], old(pkts[..]), length, [], pieces, 0)
    {
      for i := 0 to |pieces|
        invariant forall j :: 0 <= j < length ==> pkts[j] == old(pkts[j])
        invariant forall k :: 0 <= k < i ==> pkts[length + k] == pieces[k]
      {
        pkts[length + i] := pieces[i];
      }
    }

    method FinishAt(i: nat, eth: seq<Byte>, ipv4: bool, ihl: nat, limit: nat)
      requires i < pkts.Length && IsFragment(pkts[i], ipv4, ihl, limit)
      modifies pkts
      ensures pkts[..] == old(pkts[..])[i := Finished(old(pkts[i]), eth, ipv4, cfg.hw, ihl, limit)]
    {
      hide IsFragment, Finished;
      pkts[i] := Finished(pkts[i], eth, ipv4, cfg.hw, ihl, limit);
    }

    /** The fragments in place at the end of the transmit buffer, each completed there. */
    method FinishPieces(pieces: seq<Frame>, eth: seq<Byte>, ipv4: bool, ihl: nat, limit: nat)
      returns (ghost done: seq<Frame>)
      requires pkts.Length == BURST && length + |pieces| <= BURST
      requires forall i :: 0 <= i < |pieces| ==> IsFragment(pieces[i], ipv4, ihl, limit)
      modifies pkts
      ensures |done| == |pieces| && ArePieces(done, eth, ipv4, cfg.hw, ihl, limit + |eth|)
      ensures Laid(pkts[..], old(pkts[..]), length, done, pieces, |pieces|)
    {
      hide IsFragment, IsPiece, Finished, Laid;
      PlacePieces(pieces);
      done := [];
      for i := 0 to |pieces|
        invariant |done| == i && ArePieces(done, eth, ipv4, cfg.hw, ihl, limit + |eth|)
        invariant Laid(pkts[..], old(pkts[..]), length, done, pieces, i)
      {
        FinishedIsPiece(pieces[i], eth, ipv4, cfg.hw, ihl, limit);
        ghost var f := Finished(pieces[i], eth, ipv4, cfg.hw, ihl, limit);
        LaidStep(pkts[..], old(pkts[..]), length, done, pieces, i, f);
        FinishAt(length + i, eth, ipv4, ihl, limit);
        done := done + [f];
      }
    }

    /**
     ip_frag_pkt_fragment: the packet is queued, replaced by fragments that fit the MTU, or dropped; nothing else
     changes.
     */
    method PktFragment(rx: Port, tx: Port, f: Frame) returns (ghost o: Outcome)
      requires Valid() && BURST - length >= THRESHOLD && PendingFor(tx)
      modifies this`length, this`txErr, this`taken, this`t, this`ports, this`counters, this`fragErrors, pkts
      ensures Valid() && PendingFor(tx) && fragErrors == old(fragErrors) + LibraryRefused(cfg, f, o)
      ensures Explains(cfg, f, o) && t == Dealt(old(t), rx, tx, f, o)
    {
      hide Ids, AllIds, Padded, Len, Plain, PlainLayout, ArePieces, Repeat, Queued, Buffered, Misses, Dealt, Explains,
           LibraryRefused;
      var ret, ctx := PlainParse(Padded(f), |f.head.bytes|);
      var c := counters[PortId(rx)];
      WithinExplained(cfg, old(t), rx, tx, f);
      if ret != Success {
        o := Refused(false);
        ErrDrop(rx, Ids(f));
      } else if Len(f) <= cfg.mtu {
        o := Passed;
        Count(rx, c.(mtuFits := c.mtuFits + 1));
        TxBuffer(rx, tx, f);
      } else {
        o := PktSplit(rx, tx, f, ctx);
      }
    }

    /** The rest of ip_frag_pkt_fragment, for a packet that exceeds the MTU. */
    method PktSplit(rx: Port, tx: Port, f: Frame, ctx: ConnCtx) returns (ghost o: Outcome)
      requires Valid() && PendingFor(tx) && Len(f) > cfg.mtu
      requires (Success, ctx) == Plain(Padded(f), |f.head.bytes|) && PlainLayout(Success, ctx, |f.head.bytes|)
      modifies this`length, this`t, this`counters, this`fragErrors, pkts
      ensures Valid() && PendingFor(tx) && fragErrors == old(fragErrors) + LibraryRefused(cfg, f, o)
      ensures Explains(cfg, f, o) && t == Dealt(old(t), rx, tx, f, o)
    {
      hide Ids, AllIds, Padded, Len, Plain, ArePieces, Repeat, Queued, Dealt, Buffered, Misses, Explains, LibraryRefused;
      var c := counters[PortId(rx)];
      Count(rx, c.(mtuExceed := c.mtuExceed + 1));
      var ethLen := ctx.link.len;
      assert ethLen <= HEADROOM;
      var eth := f.head.bytes[ctx.link.eth.off..ctx.link.eth.off + ethLen];
      var ipv4 := ctx.network.ipVersion == PROTO_IPV4;
      var ok, pieces := MbufFragment(ipv4, ctx.network.len / 4, BURST - length, cfg.mtu - ethLen);
      if !ok {
        o := Refused(true);
        ErrDrop(rx, Ids(f));
      } else {
        ghost var done := PktReplace(rx, tx, f, pieces, eth, ipv4, ctx.network.len / 4);
        o := Split(done);
      }
      ExceedCounted(old(t), rx, tx, f, o);
      ExceedExplained(cfg, f, ctx, o);
    }

    /** The packet gives way to its fragments. */
    method PktReplace(rx: Port, tx: Port, f: Frame, pieces: seq<Frame>, eth: seq<Byte>, ipv4: bool, ihl: nat)
      returns (ghost done: seq<Frame>)
      requires Valid() && PendingFor(tx) && length + |pieces| <= BURST && |eth| == 14
      requires forall i :: 0 <= i < |pieces| ==> IsFragment(pieces[i], ipv4, ihl, cfg.mtu - 14)
      modifies this`length, this`t, this`counters, pkts
      ensures Valid() && PendingFor(tx) && ArePieces(done, eth, ipv4, cfg.hw, ihl, cfg.mtu)
      ensures var c := CountersOf(old(t), rx);
              var replaced := old(t).(created := old(t).created + AllIds(done), freed := old(t).freed + Ids(f));
              t == Queued(Counted(replaced, rx, c.(fragsGen := c.fragsGen + |done|)), rx, tx, done)
    {
      hide Ids, AllIds, IsFragment, ArePieces, Queued, Buffered, Misses;
      t := t.(freed := t.freed + Ids(f));
      done := AppendPieces(rx, tx, pieces, eth, ipv4, ihl);
      t := t.(created := t.created + AllIds(done));
      var c := counters[PortId(rx)];
      Count(rx, c.(fragsGen := c.fragsGen + |pieces|));
      QueuedApart(old(t), rx, tx, f, done);
    }

    lemma QueuedApart(was: Totals, rx: Port, tx: Port, f: Frame, done: seq<Frame>)
      ensures var c := CountersOf(was, rx);
              var replaced := was.(created := was.created + AllIds(done), freed := was.freed + Ids(f));
              var queued := Queued(was.(freed := was.freed + Ids(f)), rx, tx, done);
              && Queued(Counted(replaced, rx, c.(fragsGen := c.fragsGen + |done|)), rx, tx, done)
                 == Counted(queued.(created := queued.created + AllIds(done)), rx, c.(fragsGen := c.fragsGen + |done|))
              && CountersOf(queued, rx) == c
    {
      hide Ids, AllIds, Repeat;
    }

    /** The completed fragments become part of the transmit buffer. */
    method AppendPieces(rx: Port, tx: Port, pieces: seq<Frame>, eth: seq<Byte>, ipv4: bool, ihl: nat)
      returns (ghost done: seq<Frame>)
      requires Valid() && PendingFor(tx) && length + |pieces| <= BURST && |eth| == 14
      requires forall i :: 0 <= i < |pieces| ==> IsFragment(pieces[i], ipv4, ihl, cfg.mtu - 14)
      modifies this`length, this`t, pkts
      ensures Valid() && PendingFor(tx) && |done| == |pieces| && ArePieces(done, eth, ipv4, cfg.hw, ihl, cfg.mtu)
      ensures t == Queued(old(t), rx, tx, done)
    {
      hide IsFragment, ArePieces, Buffered;
      ghost var before := pkts[..];
      done := FinishPieces(pieces, eth, ipv4, ihl, cfg.mtu - 14);
      BufferedMore(before, pkts[..], length, t.log, |ports|, done);
      length := length + |pieces|;
      t := Queued(t, rx, tx, done);
    }

    /** ip_frag_pkts_fragment: there is room for at least sixteen packets whenever one is taken up. */
    method PktsFragment(rx: Port, tx: Port, frames: seq<Frame>) returns (ghost outcomes: seq<Outcome>)
      requires Valid() && length == 0
      modifies this`length, this`txErr, this`taken, this`t, this`ports, this`counters, this`fragErrors, pkts
      ensures Valid() && PendingFor(tx) && BURST - length >= THRESHOLD
      ensures |outcomes| == |frames| && AllExplained(cfg, frames, outcomes)
      ensures fragErrors == old(fragErrors) + LibraryRefusals(cfg, frames, outcomes, |frames|)
      ensures t == BurstDealt(old(t), rx, tx, frames, outcomes, |frames|)
    {
      hide Explains, Dealt;
      outcomes := [];
      for i := 0 to |frames|
        invariant Valid() && PendingFor(tx) && BURST - length >= THRESHOLD
        invariant |outcomes| == i && AllExplained(cfg, frames, outcomes)
        invariant fragErrors == old(fragErrors) + LibraryRefusals(cfg, frames, outcomes, i)
        invariant t == BurstDealt(old(t), rx, tx, frames, outcomes, i)
      {
        hide Valid, AllExplained, PendingFor;
        ghost var o := TakeUp(rx, tx, frames[i]);
        DealtStep(cfg, old(t), rx, tx, frames, outcomes, o);
        RefusalsPrefix(cfg, frames, outcomes, o, i);
        outcomes := outcomes + [o];
      }
    }

    /** One packet of the burst, and the flush that follows it when the buffer gets full. */
    method TakeUp(rx: Port, tx: Port, f: Frame) returns (ghost o: Outcome)
      requires Valid() && PendingFor(tx) && BURST - length >= THRESHOLD
      modifies this`length, this`txErr, this`taken, this`t, this`ports, this`counters, this`fragErrors, pkts
      ensures Valid() && PendingFor(tx) && BURST - length >= THRESHOLD
      ensures fragErrors == old(fragErrors) + LibraryRefused(cfg, f, o)
      ensures Explains(cfg, f, o) && t == Dealt(old(t), rx, tx, f, o)
    {
      hide Explains, Dealt;
      o := PktFragment(rx, tx, f);
      if BURST - length < THRESHOLD {
        Flush(tx);
      }
    }

    // -------------------------------------------------------------- reassembly

    /** ip_frag_pkt_parse, from a zeroed context. */
    method PktParse(kind: PacketType, f: Frame) returns (ret: Code, inferred: PacketType, ctx: TunCtx)
      ensures (ret, inferred, ctx) == ParseFrame(kind, f)
      ensures ret == Success ==> Parsed(Padded(f), |f.head.bytes|, inferred, ctx)
      ensures ret == Again ==> (ctx.network.frag || ctx.inner.network.frag) && !inferred.UnknownType?
    {
      hide Plain, Tunnel;
      inferred := kind;
      TunnelIsLaidOut(Padded(f), |f.head.bytes|);
      PlainIsLaidOut(Padded(f), |f.head.bytes|);
      match kind
      case Tunneled =>
        ret, ctx := TunnelParse(Padded(f), |f.head.bytes|);
      case PlainPacket =>
        var inner;
        ret, inner := PlainParse(Padded(f), |f.head.bytes|);
        ctx := NO_TUN.(inner := inner);
      case UnknownType =>
        ret, ctx, inferred := UnknownParse(Padded(f), |f.head.bytes|);
    }

    /**
     The reassembly library takes a fragment in. Either it keeps it, or it hands out a packet made of this fragment
     and at least one that it kept earlier; `after` are the buffers it chained behind this fragment. Every fragment of
     a packet was handed in for the same header, with the mark of that header.
     */
    method FragTablePush(f: Frame, outer: bool) returns (complete: bool, chained: Frame, ghost after: multiset<int>)
      requires Valid() && (if outer then f.outerModified else f.innerModified)
      modifies this`held, this`t
      ensures Valid()
      ensures if complete then
                && Completes(old(t).held, f, chained) && Ids(f) + after <= Ids(chained) && MarkedFor(outer, f, chained)
                && t == old(t).(held := old(t).held + Ids(f) - Ids(chained))
              else t == old(t).(held := old(t).held + Ids(f))
    {
      hide Ids;
      complete, chained := *, *;
      after := *;
      var all := held + Ids(f);
      if && complete && Ids(f) <= Ids(chained) <= all && |Ids(f)| < |Ids(chained)|
         && MarkedFor(outer, f, chained) {
        held := all - Ids(chained);
        if !(Ids(f) + after <= Ids(chained)) {
          after := multiset{};
          assert Ids(f) + after == Ids(f);
        }
      } else {
        complete, chained, held := false, f, all;
      }
      t := t.(held := held);
    }

    /** How pushing a fragment ends. */
    ghost predicate PushedAs(was: Totals, rx: Port, f: Frame, outer: bool, ret: Code, whole: Frame, chained: Frame,
                             after: multiset<int>, released: multiset<int>)
      reads this`t, this`aborted
    {
      var kept := was.(held := was.held + Ids(f));
      var out := was.(held := was.held + Ids(f) - Ids(chained));
      var c := CountersOf(was, rx);
      match ret
      case Success =>
        && !aborted && Completes(was.held, f, chained) && CanFlatten(cfg, chained) && MarkedFor(outer, f, chained)
        && t == out.(freed := was.freed + FlatReleases(cfg, chained)) && whole == FlatOf(cfg, chained)
      case Again => !aborted && t == kept
      case Invalid =>
        && !aborted && Completes(was.held, f, chained) && Ids(f) + after <= Ids(chained) && Refuses(cfg, chained)
        && t == Freed(Counted(out, rx, c.(err := c.err + 1)), Ids(f) + after)
      case NotSupported =>
        && aborted && Completes(was.held, f, chained) && released <= Ids(chained)
        && RunsOut(cfg, chained) && t == out.(freed := was.freed + released)
    }

    /**
     ip_frag_pkt_reassemble_push. The parse that leads here found a fragmented header, so the source's third case
     does not arise. The fragment is kept, completes a packet, completes one that cannot be flattened, or the process
     stops (for which `NotSupported` stands here).
     */
    method ReassemblePush(rx: Port, kind: PacketType, f: Frame, ctx: TunCtx)
      returns (ret: Code, whole: Frame, ghost chained: Frame, ghost after: multiset<int>, ghost released: multiset<int>)
      requires Valid() && !aborted && (ctx.network.frag || ctx.inner.network.frag) && !kind.UnknownType?
      modifies this`held, this`t, this`counters, this`aborted
      ensures Valid() && PushedAs(old(t), rx, f, ctx.network.frag, ret, whole, chained, after, released)
    {
      hide Ids, Refuses, RunsOut, FlatOf, FlatReleases, CanFlatten, Counted;
      var marked := if ctx.network.frag then f.(outerModified := true) else f.(innerModified := true);
      assert Ids(marked) == Ids(f) by { SameBuffers(f, marked); }
      var complete, res;
      complete, res, after := FragTablePush(marked, ctx.network.frag);
      if complete {
        chained := res;
        ret, whole, released := Complete(rx, f, ctx.network.frag, res, after, old(t));
      } else {
        ret, whole, chained, released := Again, res, res, multiset{};
      }
    }

    /** The library has completed a packet: it is flattened if it has to be. */
    method Complete(rx: Port, ghost f: Frame, ghost outer: bool, res: Frame, ghost after: multiset<int>, ghost was: Totals)
      returns (ret: Code, whole: Frame, ghost released: multiset<int>)
      requires Valid() && !aborted && Completes(was.held, f, res) && Ids(f) + after <= Ids(res) && MarkedFor(outer, f, res)
      requires t == was.(held := was.held + Ids(f) - Ids(res))
      modifies this`t, this`counters, this`aborted
      ensures Valid() && ret != Again && PushedAs(was, rx, f, outer, ret, whole, res, after, released)
    {
      hide Ids, TooBig, Overruns, FlatOf, FlatReleases, CanFlatten, Completes, Counted;
      ret, whole, released := Success, res, multiset{};
      if !cfg.chain && res.tail != [] {
        ret, whole, released := FlattenWhole(rx, res, Ids(f) + after);
      } else {
        NotFlattened(res);
        assert t.freed == t.freed + multiset{};
      }
    }

    lemma NotFlattened(chained: Frame)
      requires cfg.chain || chained.tail == []
      ensures CanFlatten(cfg, chained) && FlatOf(cfg, chained) == chained && FlatReleases(cfg, chained) == multiset{}
    {}

    /** On failure the fragment that completed the packet is dropped, with what is chained behind it. */
    method FlattenWhole(rx: Port, chained: Frame, ghost dropped: multiset<int>)
      returns (ret: Code, whole: Frame, ghost released: multiset<int>)
      requires Valid() && !aborted && !cfg.chain && chained.tail != []
      modifies this`t, this`counters, this`aborted
      ensures Valid() && aborted == ret.NotSupported? && ret != Again
      ensures ret == Success ==>
        && CanFlatten(cfg, chained) && whole == FlatOf(cfg, chained)
        && t == old(t).(freed := old(t).freed + FlatReleases(cfg, chained))
      ensures ret == Invalid ==>
        && TooBig(chained)
        && var c := CountersOf(old(t), rx); t == Freed(Counted(old(t), rx, c.(err := c.err + 1)), dropped)
      ensures ret == NotSupported ==>
        Overruns(chained) && released <= Ids(chained) && t == old(t).(freed := old(t).freed + released)
    {
      hide TailBytes, SegmentIds, Content;
      var r;
      r, whole, released := Flatten(chained);
      match r
      case TailTooBig =>
        ErrDrop(rx, dropped);
        ret := Invalid;
      case OutOfRoom =>
        t := t.(freed := t.freed + released);
        aborted := true;
        ret := NotSupported;
      case Flat =>
        t := t.(freed := t.freed + released);
        ret := Success;
    }

    /**
     ip_frag_pkt_reassemble: parse, and reassemble and parse again for as long as a fragmented header turns up. The
     loop ends because each round takes fragments out of the library.
     */
    method PktReassemble(rx: Port, tx: Port, kind: PacketType, f: Frame) returns (ghost fate: Fate)
      requires Valid() && length < BURST && PendingFor(tx) && !aborted
      modifies this`length, this`txErr, this`taken, this`t, this`ports, this`counters, this`held, this`aborted, pkts
      ensures Valid() && length < BURST && PendingFor(tx) && aborted == fate.end.Aborted?
      ensures FateOk(cfg, kind, old(t), rx, f, fate) && t == Settled(old(t), cfg, rx, tx, f, fate)
    {
      hide Ids, EndOk, Ended, PushOk, Pushed, FlatOf, PendingFor, PushesOk;
      var pkt := f;
      var reparse := true;
      ghost var pushes, end := [], Kept;
      NoPushes(kind, old(t), rx, f);
      while reparse
        invariant Valid() && length < BURST && PendingFor(tx)
        invariant PushesOk(cfg, kind, old(t), rx, f, pushes)
        invariant reparse ==> t == AfterPushes(old(t), cfg, rx, f, pushes, |pushes|)
        invariant reparse ==> pkt == Current(cfg, f, pushes, |pushes|) && !aborted
        invariant !reparse ==>
          var before, last := AfterPushes(old(t), cfg, rx, f, pushes, |pushes|), Current(cfg, f, pushes, |pushes|);
          EndOk(cfg, kind, before.held, last, end) && t == Ended(before, rx, tx, last, end)
        invariant !reparse ==> aborted == end.Aborted?
        decreases reparse, |held|
      {
        hide Valid, Current, AfterPushes;
        ghost var chained;
        reparse, pkt, chained, end := ParseOnce(rx, tx, kind, pkt);
        if reparse {
          PushStep(cfg, kind, old(t), rx, f, pushes, chained);
          pushes := pushes + [chained];
        }
      }
      fate := Fate(pushes, end);
    }

    lemma NoPushes(kind: PacketType, was: Totals, rx: Port, f: Frame)
      ensures PushesOk(cfg, kind, was, rx, f, [])
    {}

    /** One round of the loop: the packet is to be parsed again, or that was its end. */
    method ParseOnce(rx: Port, tx: Port, kind: PacketType, pkt: Frame)
      returns (reparse: bool, whole: Frame, ghost chained: Frame, ghost end: End)
      requires Valid() && length < BURST && PendingFor(tx) && !aborted
      modifies this`length, this`txErr, this`taken, this`t, this`ports, this`counters, this`held, this`aborted, pkts
      ensures Valid() && length < BURST && PendingFor(tx)
      ensures reparse ==> |held| < |old(held)| && !aborted && whole == FlatOf(cfg, chained)
      ensures reparse ==> PushOk(cfg, kind, old(t).held, pkt, chained) && t == Pushed(old(t), cfg, rx, pkt, chained)
      ensures !reparse ==> EndOk(cfg, kind, old(t).held, pkt, end) && t == Ended(old(t), rx, tx, pkt, end)
      ensures !reparse ==> aborted == end.Aborted?
    {
      hide Ids, Padded, Len, Parsed, FixFrame, FlatOf, ParseFrame, Pushed, Queued;
      reparse, whole, chained, end := false, pkt, pkt, Kept;
      var ret, inferred, ctx := PktParse(kind, pkt);
      if ret == Success {
        var c := counters[PortId(rx)];
        Count(rx, c.(whole := c.whole + 1));
        var fixed := FixFrame(pkt, inferred, ctx, cfg.hw);
        end := Sent(inferred, ctx, fixed);
        TxBuffer(rx, tx, fixed);
      } else if ret == Again {
        reparse, whole, chained, end := OnFragment(rx, tx, kind, inferred, pkt, ctx);
      } else {
        end := Dropped;
        ErrDrop(rx, Ids(pkt));
      }
    }

    /** A packet with a fragmented header: it is to be parsed again if that completes a packet. */
    method OnFragment(rx: Port, tx: Port, kind: PacketType, inferred: PacketType, pkt: Frame, ctx: TunCtx)
      returns (reparse: bool, whole: Frame, ghost chained: Frame, ghost end: End)
      requires Valid() && !aborted && (ctx.network.frag || ctx.inner.network.frag) && !inferred.UnknownType?
      requires ParseFrame(kind, pkt) == (Again, inferred, ctx)
      modifies this`t, this`counters, this`held, this`aborted
      ensures Valid() && t.intended == old(t).intended
      ensures reparse ==> |held| < |old(held)| && !aborted && whole == FlatOf(cfg, chained)
      ensures reparse ==> PushOk(cfg, kind, old(t).held, pkt, chained) && t == Pushed(old(t), cfg, rx, pkt, chained)
      ensures !reparse ==> EndOk(cfg, kind, old(t).held, pkt, end) && t == Ended(old(t), rx, tx, pkt, end)
      ensures !reparse ==> aborted == end.Aborted?
    {
      hide Ids, FlatOf, FlatReleases, CanFlatten, ParseFrame, TooBig, Overruns, CountersOf, Counted, Completes,
           FragmentCounted, Pushed, Ended, PushOk, EndOk, Refuses, RunsOut, Buffered, Misses, MarkedFor, Freed;
      CountFragment(rx);
      reparse, end := false, Kept;
      var pushed;
      ghost var after, released;
      ghost var counted := t;
      pushed, whole, chained, after, released := ReassemblePush(rx, inferred, pkt, ctx);
      AfterFragment(old(t), cfg, rx, tx, pkt, chained, released);
      FragmentEnds(cfg, kind, old(t).held, pkt, chained, after, released);
      assert OuterFragment(kind, pkt) == ctx.network.frag;
      match pushed
      case Success =>
        reparse := true;
        FewerHeld(old(t).held, pkt, chained);
      case Again =>
      case Invalid =>
        end := Unflattened(chained, after);
        DropAgain(rx, tx, pkt, chained, after, old(t), counted);
      case NotSupported =>
        t := t.(lost := t.lost + (Ids(chained) - released));
        end := Aborted(chained, released);
    }

    method CountFragment(rx: Port)
      requires Valid()
      modifies this`t, this`counters
      ensures Valid()
      ensures t == FragmentCounted(old(t), rx)
    {
      var c := counters[PortId(rx)];
      Count(rx, c.(fragsRx := c.fragsRx + 1));
    }

    /** The fragment that was dropped already, because its packet cannot be flattened, is dropped once more. */
    method DropAgain(rx: Port, tx: Port, ghost pkt: Frame, ghost chained: Frame, ghost after: multiset<int>,
                     ghost was: Totals, ghost counted: Totals)
      requires Valid() && |was.counters| == 4
      requires counted == FragmentCounted(was, rx)
      requires var c := CountersOf(counted, rx);
               var out := counted.(held := counted.held + Ids(pkt) - Ids(chained));
               t == Freed(Counted(out, rx, c.(err := c.err + 1)), Ids(pkt) + after)
      modifies this`t, this`counters
      ensures Valid() && t == Ended(was, rx, tx, pkt, Unflattened(chained, after)) && t.intended == was.intended
    {
      hide Ids, Buffered, Misses;
      ghost var twice := Ids(pkt) + after;
      ErrDrop(rx, twice);
      t := t.(doubled := t.doubled + twice, lost := t.lost + (Ids(chained) - twice));
      ghost var c := CountersOf(was, rx);
      ghost var again := c.(fragsRx := c.fragsRx + 1);
      CountedAgain(was, rx, again, again.(err := again.err + 1));
      CountedAgain(was, rx, again.(err := again.err + 1), again.(err := again.err + 2));
    }

    /** ip_frag_pkts_reassemble: the packets of a burst one after the other, until the process stops. */
    method PktsReassemble(rx: Port, tx: Port, kind: PacketType, frames: seq<Frame>) returns (ghost fates: seq<Fate>)
      requires Valid() && length == 0 && !aborted
      modifies this`length, this`txErr, this`taken, this`t, this`ports, this`counters, this`held, this`aborted, pkts
      ensures Valid() && length < BURST && PendingFor(tx)
      ensures AllFatesOk(cfg, kind, old(t), rx, tx, frames, fates)
      ensures t == BurstSettled(old(t), cfg, rx, tx, frames, fates, |fates|)
      ensures aborted == Aborts(fates) && (!aborted ==> |fates| == |frames|)
      ensures forall i :: 0 <= i < |fates| - 1 ==> !fates[i].end.Aborted?
    {
      hide FateOk, Settled;
      fates := [];
      var i := 0;
      while i < |frames| && !aborted
        invariant i == |fates| <= |frames|
        invariant Valid() && length < BURST && PendingFor(tx)
        invariant AllFatesOk(cfg, kind, old(t), rx, tx, frames, fates)
        invariant t == BurstSettled(old(t), cfg, rx, tx, frames, fates, i)
        invariant aborted == Aborts(fates)
        invariant forall i :: 0 <= i < |fates| - 1 ==> !fates[i].end.Aborted?
      {
        hide Valid, PendingFor, AllFatesOk;
        ghost var fate := PktReassemble(rx, tx, kind, frames[i]);
        SettledStep(cfg, kind, old(t), rx, tx, frames, fates, fate);
        fates := fates + [fate];
        i := i + 1;
      }
    }

    // -------------------------------------------------------------- the run loop

    /** rte_eth_rx_burst: at most one burst of packets. */
    method RxBurst() returns (frames: seq<Frame>)
      requires Valid()
      modifies this`t
      ensures Valid() && |frames| <= BURST && Unmarked(frames) && t == Arrived(old(t), frames)
    {
      frames := *;
      if |frames| > BURST || exists i :: 0 <= i < |frames| && (frames[i].innerModified || frames[i].outerModified) {
        frames := [];
      }
      t := Arrived(t, frames);
    }

    /** rte_ip_frag_free_death_row: some of the buffers that the library is done with are released. */
    method FreeDeathRow() returns (ghost dead: multiset<int>)
      requires Valid()
      modifies this`held, this`t
      ensures Valid() && dead <= old(t).held
      ensures t == old(t).(held := old(t).held - dead, freed := old(t).freed + dead)
    {
      var some: multiset<int> := *;
      if !(some <= held) {
        some := multiset{};
      }
      dead := some;
      held := held - some;
      t := t.(held := held, freed := t.freed + dead);
    }

    /** The burst that is due becomes part of the history. */
    ghost method Note(p: Phase, was: Totals)
      requires HistoryOk(cfg, history) && OnSchedule(cfg.mode, history) && was == After(cfg, history, |history|)
      requires Serves(p, Due(cfg.mode, |history|)) && PhaseOk(cfg, was, p) && t == PhaseDone(cfg, was, p)
      requires OnlyLastHalts(history) && !Halts(history) && (aborted <==> Halting(p))
      modifies this`history
      ensures Explained() && history == old(history) + [p]
    {
      hide PhaseOk, PhaseDone, Serves, Due, Halting;
      HistoryStep(cfg, history, p);
      history := history + [p];
    }

    ghost method NoteReassembled(rx: Port, tx: Port, kind: PacketType, frames: seq<Frame>, fates: seq<Fate>,
                                 dead: multiset<int>, was: Totals, settled: Totals)
      requires HistoryOk(cfg, history) && OnSchedule(cfg.mode, history) && was == After(cfg, history, |history|)
      requires tx == Route(cfg.mode, rx) && Due(cfg.mode, |history|) == Duty(rx, true, kind)
      requires OnlyLastHalts(history) && !Halts(history) && aborted == Aborts(fates)
      requires Unmarked(frames)
      requires AllFatesOk(cfg, kind, Arrived(was, frames), rx, tx, frames, fates) && |fates| <= |frames|
      requires settled == BurstSettled(Arrived(was, frames), cfg, rx, tx, frames, fates, |fates|)
      requires dead <= settled.held && forall i :: 0 <= i < |fates| - 1 ==> !fates[i].end.Aborted?
      requires if Aborts(fates) then dead == multiset{} && t == settled.(lost := settled.lost + RestIds(frames, |fates|))
               else |fates| == |frames| && t == settled.(held := settled.held - dead, freed := settled.freed + dead)
      modifies this`history
      ensures Explained() && history == old(history) + [Reassembling(rx, kind, frames, fates, dead)]
    {
      hide HistoryOk, OnSchedule, After, AllFatesOk, BurstSettled, RestIds, Due, Route;
      Note(Reassembling(rx, kind, frames, fates, dead), was);
    }

    /** ip_frag_wt_reassemble: one more burst, each of its packets with its fate. */
    method WtReassemble(rx: Port, tx: Port, kind: PacketType)
      requires Valid() && Explained() && length == 0 && !aborted
      requires tx == Route(cfg.mode, rx) && Due(cfg.mode, |history|) == Duty(rx, true, kind)
      modifies this`length, this`txErr, this`taken, this`t, this`ports, this`counters, this`held, this`aborted,
               this`history, pkts
      ensures Valid() && Explained() && |history| == |old(history)| + 1 && old(history) <= history
      ensures (aborted <==> Halts(history)) && (!aborted ==> length == 0)
    {
      hide HistoryOk, OnSchedule, After, AllFatesOk, BurstSettled, RestIds, Due, Route, Arrived, Aborts;
      ghost var frames, fates, dead, settled := ReassembleBurst(rx, tx, kind);
      NoteReassembled(rx, tx, kind, frames, fates, dead, old(t), settled);
    }

    method ReassembleBurst(rx: Port, tx: Port, kind: PacketType)
      returns (ghost frames: seq<Frame>, ghost fates: seq<Fate>, ghost dead: multiset<int>, ghost settled: Totals)
      requires Valid() && length == 0 && !aborted
      modifies this`length, this`txErr, this`taken, this`t, this`ports, this`counters, this`held, this`aborted, pkts
      ensures Valid() && Unmarked(frames) && aborted == Aborts(fates) && (!aborted ==> length == 0)
      ensures |fates| <= |frames| && AllFatesOk(cfg, kind, Arrived(old(t), frames), rx, tx, frames, fates)
      ensures settled == BurstSettled(Arrived(old(t), frames), cfg, rx, tx, frames, fates, |fates|)
      ensures dead <= settled.held && forall i :: 0 <= i < |fates| - 1 ==> !fates[i].end.Aborted?
      ensures if Aborts(fates) then dead == multiset{} && t == settled.(lost := settled.lost + RestIds(frames, |fates|))
              else |fates| == |frames| && t == settled.(held := settled.held - dead, freed := settled.freed + dead)
    {
      hide AllFatesOk, BurstSettled, RestIds, PendingFor, Arrived;
      var burst := RxBurst();
      ghost var arrived := t;
      frames, fates := burst, [];
      if |burst| > 0 {
        fates := PktsReassemble(rx, tx, kind, burst);
        FatesWithin(kind, arrived, rx, tx, frames, fates);
        if aborted {
          dead, settled := multiset{}, t;
          t := t.(lost := t.lost + RestIds(frames, |fates|));
          return;
        }
        Flush(tx);
      } else {
        NoFates(kind, arrived, rx, tx, frames);
      }
      settled := t;
      dead := FreeDeathRow();
    }

    lemma FatesWithin(kind: PacketType, was: Totals, rx: Port, tx: Port, frames: seq<Frame>, fates: seq<Fate>)
      requires AllFatesOk(cfg, kind, was, rx, tx, frames, fates)
      ensures |fates| <= |frames|
    {}

    lemma NoFates(kind: PacketType, was: Totals, rx: Port, tx: Port, frames: seq<Frame>)
      ensures AllFatesOk(cfg, kind, was, rx, tx, frames, []) && BurstSettled(was, cfg, rx, tx, frames, [], 0) == was
    {}

    /** ip_frag_wt_fragment: one more burst, each of its packets with its outcome. */
    method WtFragment(rx: Port, tx: Port)
      requires Valid() && Explained() && length == 0 && !aborted
      requires tx == Route(cfg.mode, rx) && Due(cfg.mode, |history|) == Duty(rx, false, PlainPacket)
      modifies this`length, this`txErr, this`taken, this`t, this`ports, this`counters, this`history, this`fragErrors, pkts
      ensures Valid() && Explained() && |history| == |old(history)| + 1 && old(history) <= history
      ensures length == 0 && !Halts(history)
    {
      hide HistoryOk, OnSchedule, After, AllExplained, BurstDealt, RestIds, Due, Route, PendingFor;
      ghost var was := t;
      var frames := RxBurst();
      ghost var outcomes := PktsFragment(rx, tx, frames);
      Flush(tx);
      Note(Fragmenting(rx, frames, outcomes), was);
    }

    /** One turn of the worker loop, unless the process stops in the middle of it. */
    method Round()
      requires Valid() && Explained() && length == 0 && !aborted && !cfg.mode.Unsupported?
      requires |history| % PerTurn(cfg.mode) == 0
      modifies this, pkts
      ensures Valid() && Explained() && old(history) < history && (aborted <==> Halts(history))
      ensures !aborted ==> length == 0 && |history| == |old(history)| + PerTurn(cfg.mode)
      ensures |history| <= |old(history)| + PerTurn(cfg.mode)
    {
      hide Explained, Valid;
      match cfg.mode
      case Bidir =>
        WtReassemble(Reassemble0, Fragment0, UnknownType);
        if !aborted {
          WtFragment(Fragment0, Reassemble0);
        }
      case Multiport =>
        WtReassemble(Reassemble0, Reassemble1, Tunneled);
        if !aborted {
          WtReassemble(Fragment0, Fragment1, PlainPacket);
          if !aborted {
            WtFragment(Reassemble1, Reassemble0);
            WtFragment(Fragment1, Fragment0);
          }
        }
    }

    /**
     ip_frag_wt_thread_main, for any number of turns before it is told to stop. What was queued, freed, kept and
     counted is the fold of the bursts, in the order of the schedule, each packet with what became of it. Every packet
     that was queued has been flushed, and to the port its port of arrival is routed to; packets from the fragmentation
     path fit the MTU; and every buffer that came in is accounted for. Every turn takes place, unless the process stops,
     which it does exactly in a burst whose last packet aborts.
     */
    method Run(turns: nat) returns (ok: bool)
      requires Valid() && Explained() && history == [] && length == 0 && !aborted
      modifies this, pkts
      ensures Valid() && Explained() && (aborted <==> Halts(history))
      ensures !aborted ==> length == 0 && ports == t.intended
      ensures !aborted ==> |history| == if ok then turns * PerTurn(cfg.mode) else 0
      ensures aborted ==> ok && |history| <= turns * PerTurn(cfg.mode)
      ensures ok <==> turns == 0 || !cfg.mode.Unsupported?
      ensures LogOk(cfg, t) && forall x: int :: Accounted(cfg, history, t, x)
    {
      hide HistoryOk, OnSchedule, After, Accounted, LogOk, PerTurn;
      HistoryLaws();
      var i := 0;
      while i < turns && !aborted
        invariant i <= turns && (i > 0 ==> !cfg.mode.Unsupported?) && (aborted ==> i > 0)
        invariant Valid() && Explained() && (aborted <==> Halts(history))
        invariant LogOk(cfg, t) && forall x: int :: Accounted(cfg, history, t, x)
        invariant !aborted ==> length == 0 && |history| == i * PerTurn(cfg.mode)
        invariant |history| <= i * PerTurn(cfg.mode) <= turns * PerTurn(cfg.mode)
      {
        hide Explained, Valid;
        if cfg.mode.Unsupported? {
          return false;
        }
        WholeTurns(i, turns);
        Round();
        HistoryLaws();
        i := i + 1;
      }
      return true;
    }

    /** The laws of histories, for the history of this worker. */
    lemma HistoryLaws()
      requires Explained()
      ensures LogOk(cfg, t) && forall x: int :: Accounted(cfg, history, t, x)
    {
      hide HistoryOk, OnSchedule, After, Accounted, LogOk;
      HistoryLogOk(cfg, history, |history|);
      forall x: int
        ensures Accounted(cfg, history, t, x)
      {
        HistoryAccounted(cfg, history, x);
      }
    }

    lemma WholeTurns(i: nat, turns: nat)
      requires i < turns
      ensures var per := PerTurn(cfg.mode);
              per > 0 && (i * per) % per == 0 && (i + 1) * per == i * per + per <= turns * per
    {}
  }
}
