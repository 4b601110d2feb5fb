/**
 What a fragmentation worker does, as a history of bursts: each packet of a burst with what became of it. The log of
 sent packets, the whereabouts of every buffer and the counters are the fold of the history.
 */
module FragHistory {
  import opened Bytes
  import opened ParserSpec
  import opened PacketParser
  import opened IpFragFixup
  import opened Frames

  datatype Port = Reassemble0 | Fragment0 | Reassemble1 | Fragment1
  datatype Mode = Bidir | Multiport | Unsupported

  datatype Config = Config(mode: Mode, mtu: nat, chain: bool, hw: bool)

  datatype Counters = Counters(fragsRx: nat, whole: nat, mtuFits: nat, mtuExceed: nat, fragsGen: nat, err: nat)

  function PortId(port: Port): (i: nat)
    ensures i < 4
  {
    match port case Reassemble0 => 0 case Fragment0 => 1 case Reassemble1 => 2 case Fragment1 => 3
  }

  /** Where packets that arrive on a port leave. */
  function Route(mode: Mode, rx: Port): Port {
    match rx
    case Reassemble0 => if mode == Bidir then Fragment0 else Reassemble1
    case Fragment0 => if mode == Bidir then Reassemble0 else Fragment1
    case Reassemble1 => Reassemble0
    case Fragment1 => Fragment0
  }

  /**
   What has happened so far. `log` holds every packet put into the transmit buffer, `intended` and `origin` the ports it
   was meant for and came from. Buffers have been received, created by fragmentation, are held by the reassembly
   library, have been freed; `doubled` counts the second time a buffer was freed, `lost` are buffers that nobody holds
   any more.
   */
  datatype Totals = Totals(
    log: seq<Frame>, intended: seq<Port>, origin: seq<Port>,
    received: multiset<int>, created: multiset<int>, held: multiset<int>,
    freed: multiset<int>, doubled: multiset<int>, lost: multiset<int>,
    counters: seq<Counters>)

  const NO_COUNTERS := Counters(0, 0, 0, 0, 0, 0)

  function Nothing(): Totals {
    Totals([], [], [], multiset{}, multiset{}, multiset{}, multiset{}, multiset{}, multiset{},
           [NO_COUNTERS, NO_COUNTERS, NO_COUNTERS, NO_COUNTERS])
  }

  // ---------------------------------------------------------------- primitive effects

  function CountersOf(t: Totals, rx: Port): Counters {
    if |t.counters| == 4 then t.counters[PortId(rx)] else NO_COUNTERS
  }

  function Counted(t: Totals, rx: Port, c: Counters): Totals {
    if |t.counters| == 4 then t.(counters := t.counters[PortId(rx) := c]) else t
  }

  function Repeat(port: Port, n: nat): (r: seq<Port>)
    ensures |r| == n
    ensures forall i :: 0 <= i < n ==> r[i] == port
  {
    if n == 0 then [] else Repeat(port, n - 1) + [port]
  }

  function Queued(t: Totals, rx: Port, tx: Port, fs: seq<Frame>): Totals {
    t.(log := t.log + fs, intended := t.intended + Repeat(tx, |fs|), origin := t.origin + Repeat(rx, |fs|))
  }

  function Freed(t: Totals, ids: multiset<int>): Totals {
    t.(freed := t.freed + ids)
  }

  function Arrived(t: Totals, frames: seq<Frame>): Totals {
    t.(received := t.received + RestIds(frames, 0))
  }

  // ---------------------------------------------------------------- the fragmentation path

  datatype Outcome = Passed | Split(pieces: seq<Frame>) | Refused(parsed: bool)

  ghost predicate Parses(f: Frame) {
    Plain(Padded(f), |f.head.bytes|).0 == Success
  }

  ghost predicate IsIpv4(f: Frame) {
    Plain(Padded(f), |f.head.bytes|).1.network.ipVersion == PROTO_IPV4
  }

  /** The IHL of the outer IPv4 header. */
  ghost function Ihl(f: Frame): nat {
    Plain(Padded(f), |f.head.bytes|).1.network.len / 4
  }

  ghost predicate ArePieces(pieces: seq<Frame>, eth: seq<Byte>, ipv4: bool, hw: bool, ihl: nat, mtu: nat) {
    forall i :: 0 <= i < |pieces| ==> IsPiece(pieces[i], eth, ipv4, hw, ihl, mtu)
  }

  /** Which outcomes a packet can have: it passes if it parses and fits, and is split only if it is too long. */
  ghost predicate Explains(cfg: Config, f: Frame, o: Outcome) {
    match o
    case Passed => Parses(f) && Len(f) <= cfg.mtu
    case Split(pieces) =>
      && Parses(f) && Len(f) > cfg.mtu && 14 <= |f.head.bytes| && (IsIpv4(f) || cfg.chain)
      && ArePieces(pieces, f.head.bytes[..14], IsIpv4(f), cfg.hw, Ihl(f), cfg.mtu)
    case Refused(parsed) => parsed == Parses(f) && (parsed ==> Len(f) > cfg.mtu)
  }

  /** One packet dealt with: queued, replaced by its pieces, or dropped. */
  function Dealt(t: Totals, rx: Port, tx: Port, f: Frame, o: Outcome): Totals {
    var c := CountersOf(t, rx);
    match o
    case Passed => Queued(Counted(t, rx, c.(mtuFits := c.mtuFits + 1)), rx, tx, [f])
    case Split(pieces) =>
      var replaced := t.(created := t.created + AllIds(pieces), freed := t.freed + Ids(f));
      Queued(Counted(replaced, rx, c.(mtuExceed := c.mtuExceed + 1, fragsGen := c.fragsGen + |pieces|)), rx, tx, pieces)
    case Refused(parsed) =>
      Freed(Counted(t, rx, c.(mtuExceed := c.mtuExceed + (if parsed then 1 else 0), err := c.err + 1)), Ids(f))
  }

  /** The first `n` packets of a burst dealt with, in order. */
  function BurstDealt(t: Totals, rx: Port, tx: Port, frames: seq<Frame>, outcomes: seq<Outcome>, n: nat): Totals
    requires n <= |outcomes| && n <= |frames|
  {
    if n == 0 then t
    else Dealt(BurstDealt(t, rx, tx, frames, outcomes, n - 1), rx, tx, frames[n - 1], outcomes[n - 1])
  }

  ghost predicate AllExplained(cfg: Config, frames: seq<Frame>, outcomes: seq<Outcome>) {
    |outcomes| <= |frames| && forall i :: 0 <= i < |outcomes| ==> Explains(cfg, frames[i], outcomes[i])
  }

  /** A packet that could have been fragmented is refused only because the library returned an error for it. */
  ghost function LibraryRefused(cfg: Config, f: Frame, o: Outcome): nat {
    if o == Refused(true) && (IsIpv4(f) || cfg.chain) then 1 else 0
  }

  ghost function LibraryRefusals(cfg: Config, frames: seq<Frame>, outcomes: seq<Outcome>, n: nat): nat
    requires n <= |outcomes| && n <= |frames|
  {
    if n == 0 then 0
    else LibraryRefusals(cfg, frames, outcomes, n - 1) + LibraryRefused(cfg, frames[n - 1], outcomes[n - 1])
  }

  lemma {:induction false} RefusalsPrefix(cfg: Config, frames: seq<Frame>, outcomes: seq<Outcome>, o: Outcome, n: nat)
    requires n <= |outcomes| && n <= |frames|
    ensures LibraryRefusals(cfg, frames, outcomes + [o], n) == LibraryRefusals(cfg, frames, outcomes, n)
  {
    hide LibraryRefused;
    if n > 0 {
      RefusalsPrefix(cfg, frames, outcomes, o, n - 1);
    }
  }

  lemma {:induction false} DealtPrefix(t: Totals, rx: Port, tx: Port, frames: seq<Frame>, outcomes: seq<Outcome>,
                                       o: Outcome, n: nat)
    requires n <= |outcomes| && n <= |frames|
    ensures BurstDealt(t, rx, tx, frames, outcomes + [o], n) == BurstDealt(t, rx, tx, frames, outcomes, n)
  {
    hide Dealt;
    if n > 0 {
      DealtPrefix(t, rx, tx, frames, outcomes, o, n - 1);
    }
  }

  lemma DealtStep(cfg: Config, t: Totals, rx: Port, tx: Port, frames: seq<Frame>, outcomes: seq<Outcome>, o: Outcome)
    requires |outcomes| < |frames| && AllExplained(cfg, frames, outcomes) && Explains(cfg, frames[|outcomes|], o)
    ensures AllExplained(cfg, frames, outcomes + [o])
    ensures var n := |outcomes|;
            BurstDealt(t, rx, tx, frames, outcomes + [o], n + 1)
            == Dealt(BurstDealt(t, rx, tx, frames, outcomes, n), rx, tx, frames[n], o)
  {
    hide Explains, Dealt;
    DealtPrefix(t, rx, tx, frames, outcomes, o, |outcomes|);
  }

  // ---------------------------------------------------------------- the reassembly path

  /** How a packet ends that is not pushed any further. */
  datatype End =
    | Sent(kind: PacketType, ctx: TunCtx, frame: Frame)
    | Kept
    | Dropped
    /** The completed packet cannot be flattened; `after` are the buffers chained behind the last fragment. */
    | Unflattened(chained: Frame, after: multiset<int>)
    /** Flattening runs out of room, after some buffers have been released: the process stops. */
    | Aborted(chained: Frame, released: multiset<int>)

  /** The completed packets that a packet turns into, one after the other, and how the last of them ends. */
  datatype Fate = Fate(pushes: seq<Frame>, end: End)

  /** ip_frag_pkt_fixup on the first buffer of the packet. */
  function FixFrame(f: Frame, kind: PacketType, ctx: TunCtx, hw: bool): (r: Frame)
    requires Parsed(Padded(f), |f.head.bytes|, kind, ctx)
    ensures Ids(r) == Ids(f) && Len(r) == Len(f)
  {
    var fixed := Fixed(Padded(f), |f.head.bytes|, Len(f), kind, ctx, hw, f.innerModified, f.outerModified);
    f.(head := Segment(f.head.id, fixed[..|f.head.bytes|]))
  }

  ghost function ParseFrame(kind: PacketType, f: Frame): (Code, PacketType, TunCtx) {
    Parse(kind, Padded(f), |f.head.bytes|)
  }

  predicate CanFlatten(cfg: Config, f: Frame) {
    cfg.chain || f.tail == [] || TailLen(f) <= f.tailroom
  }

  /** What a completed packet is parsed as next. */
  function FlatOf(cfg: Config, f: Frame): Frame {
    if cfg.chain || f.tail == [] || TailLen(f) > f.tailroom then f else Flattened(f)
  }

  function FlatReleases(cfg: Config, f: Frame): multiset<int> {
    if cfg.chain || f.tail == [] then multiset{} else SegmentIds(f.tail)
  }

  /** The packet in hand after `n` pushes. */
  function Current(cfg: Config, f: Frame, pushes: seq<Frame>, n: nat): Frame
    requires n <= |pushes|
  {
    if n == 0 then f else FlatOf(cfg, pushes[n - 1])
  }

  /** The library completes a packet out of the fragment handed in and at least one that it held. */
  ghost predicate Completes(held: multiset<int>, pkt: Frame, chained: Frame) {
    Ids(pkt) <= Ids(chained) <= held + Ids(pkt) && |Ids(pkt)| < |Ids(chained)|
  }

  /** The outer header of the packet is fragmented; otherwise a fragment has a fragmented inner header. */
  ghost predicate OuterFragment(kind: PacketType, pkt: Frame) {
    ParseFrame(kind, pkt).2.network.frag
  }

  /**
   The marks of a completed packet are those of its first fragment. All fragments of a packet are handed in for the same
   header, so it has the mark of that header, and the inner mark only if that is it or the fragment in hand had it.
   */
  predicate MarkedFor(outer: bool, pkt: Frame, chained: Frame) {
    if outer then chained.outerModified && chained.innerModified == pkt.innerModified else chained.innerModified
  }

  ghost predicate PushOk(cfg: Config, kind: PacketType, held: multiset<int>, pkt: Frame, chained: Frame) {
    && ParseFrame(kind, pkt).0 == Again && Completes(held, pkt, chained) && CanFlatten(cfg, chained)
    && MarkedFor(OuterFragment(kind, pkt), pkt, chained)
  }

  ghost predicate EndOk(cfg: Config, kind: PacketType, held: multiset<int>, pkt: Frame, e: End) {
    var (code, inferred, ctx) := ParseFrame(kind, pkt);
    match e
    case Sent(k, c, frame) =>
      && (code, inferred, ctx) == (Success, k, c) && Parsed(Padded(pkt), |pkt.head.bytes|, k, c)
      && frame == FixFrame(pkt, k, c, cfg.hw)
    case Kept => code == Again
    case Dropped => code != Success && code != Again
    case Unflattened(chained, after) =>
      && code == Again && Completes(held, pkt, chained) && Ids(pkt) + after <= Ids(chained)
      && !cfg.chain && chained.tail != [] && TooBig(chained)
    case Aborted(chained, released) =>
      && code == Again && Completes(held, pkt, chained) && released <= Ids(chained)
      && !cfg.chain && chained.tail != [] && Overruns(chained)
  }

  function Pushed(t: Totals, cfg: Config, rx: Port, pkt: Frame, chained: Frame): Totals {
    var c := CountersOf(t, rx);
    Counted(t, rx, c.(fragsRx := c.fragsRx + 1)).(held := t.held + Ids(pkt) - Ids(chained),
                                                  freed := t.freed + FlatReleases(cfg, chained))
  }

  function Ended(t: Totals, rx: Port, tx: Port, pkt: Frame, e: End): Totals {
    var c := CountersOf(t, rx);
    var again := c.(fragsRx := c.fragsRx + 1);
    match e
    case Sent(_, _, frame) => Queued(Counted(t, rx, c.(whole := c.whole + 1)), rx, tx, [frame])
    case Kept => Counted(t, rx, again).(held := t.held + Ids(pkt))
    case Dropped => Freed(Counted(t, rx, c.(err := c.err + 1)), Ids(pkt))
    case Unflattened(chained, after) =>
      var twice := Ids(pkt) + after;
      Counted(t, rx, again.(err := again.err + 2)).(
        held := t.held + Ids(pkt) - Ids(chained), freed := t.freed + twice + twice,
        doubled := t.doubled + twice, lost := t.lost + (Ids(chained) - twice))
    case Aborted(chained, released) =>
      Counted(t, rx, again).(
        held := t.held + Ids(pkt) - Ids(chained), freed := t.freed + released,
        lost := t.lost + (Ids(chained) - released))
  }

  function AfterPushes(t: Totals, cfg: Config, rx: Port, f: Frame, pushes: seq<Frame>, n: nat): Totals
    requires n <= |pushes|
  {
    if n == 0 then t
    else Pushed(AfterPushes(t, cfg, rx, f, pushes, n - 1), cfg, rx, Current(cfg, f, pushes, n - 1), pushes[n - 1])
  }

  ghost predicate PushesOk(cfg: Config, kind: PacketType, t: Totals, rx: Port, f: Frame, pushes: seq<Frame>) {
    forall n :: 0 <= n < |pushes| ==>
      PushOk(cfg, kind, AfterPushes(t, cfg, rx, f, pushes, n).held, Current(cfg, f, pushes, n), pushes[n])
  }

  ghost predicate FateOk(cfg: Config, kind: PacketType, t: Totals, rx: Port, f: Frame, fate: Fate) {
    var n := |fate.pushes|;
    && PushesOk(cfg, kind, t, rx, f, fate.pushes)
    && EndOk(cfg, kind, AfterPushes(t, cfg, rx, f, fate.pushes, n).held, Current(cfg, f, fate.pushes, n), fate.end)
  }

  function Settled(t: Totals, cfg: Config, rx: Port, tx: Port, f: Frame, fate: Fate): Totals {
    var n := |fate.pushes|;
    Ended(AfterPushes(t, cfg, rx, f, fate.pushes, n), rx, tx, Current(cfg, f, fate.pushes, n), fate.end)
  }

  lemma {:induction false} PushesPrefix(t: Totals, cfg: Config, rx: Port, f: Frame, pushes: seq<Frame>, p: Frame, n: nat)
    requires n <= |pushes|
    ensures AfterPushes(t, cfg, rx, f, pushes + [p], n) == AfterPushes(t, cfg, rx, f, pushes, n)
    ensures Current(cfg, f, pushes + [p], n) == Current(cfg, f, pushes, n)
  {
    hide Pushed;
    if n > 0 {
      PushesPrefix(t, cfg, rx, f, pushes, p, n - 1);
    }
  }

  lemma PushStep(cfg: Config, kind: PacketType, t: Totals, rx: Port, f: Frame, pushes: seq<Frame>, p: Frame)
    requires PushesOk(cfg, kind, t, rx, f, pushes)
    requires var n := |pushes|;
             PushOk(cfg, kind, AfterPushes(t, cfg, rx, f, pushes, n).held, Current(cfg, f, pushes, n), p)
    ensures PushesOk(cfg, kind, t, rx, f, pushes + [p])
    ensures var n := |pushes|;
            && AfterPushes(t, cfg, rx, f, pushes + [p], n + 1)
               == Pushed(AfterPushes(t, cfg, rx, f, pushes, n), cfg, rx, Current(cfg, f, pushes, n), p)
            && Current(cfg, f, pushes + [p], n + 1) == FlatOf(cfg, p)
  {
    hide Pushed, PushOk;
    var longer := pushes + [p];
    forall n | 0 <= n < |longer|
      ensures PushOk(cfg, kind, AfterPushes(t, cfg, rx, f, longer, n).held, Current(cfg, f, longer, n), longer[n])
    {
      PushesPrefix(t, cfg, rx, f, pushes, p, n);
    }
    PushesPrefix(t, cfg, rx, f, pushes, p, |pushes|);
  }

  /** The first `n` packets of a burst settled, in order. */
  function BurstSettled(t: Totals, cfg: Config, rx: Port, tx: Port, frames: seq<Frame>, fates: seq<Fate>, n: nat): Totals
    requires n <= |fates| && n <= |frames|
  {
    if n == 0 then t
    else Settled(BurstSettled(t, cfg, rx, tx, frames, fates, n - 1), cfg, rx, tx, frames[n - 1], fates[n - 1])
  }

  ghost predicate AllFatesOk(cfg: Config, kind: PacketType, t: Totals, rx: Port, tx: Port,
                             frames: seq<Frame>, fates: seq<Fate>) {
    && |fates| <= |frames|
    && forall n :: 0 <= n < |fates| ==>
         FateOk(cfg, kind, BurstSettled(t, cfg, rx, tx, frames, fates, n), rx, frames[n], fates[n])
  }

  lemma {:induction false} SettledPrefix(t: Totals, cfg: Config, rx: Port, tx: Port, frames: seq<Frame>, fates: seq<Fate>,
                                         fate: Fate, n: nat)
    requires n <= |fates| && n <= |frames|
    ensures BurstSettled(t, cfg, rx, tx, frames, fates + [fate], n) == BurstSettled(t, cfg, rx, tx, frames, fates, n)
  {
    hide Settled;
    if n > 0 {
      SettledPrefix(t, cfg, rx, tx, frames, fates, fate, n - 1);
    }
  }

  lemma SettledStep(cfg: Config, kind: PacketType, t: Totals, rx: Port, tx: Port, frames: seq<Frame>, fates: seq<Fate>,
                    fate: Fate)
    requires |fates| < |frames| && AllFatesOk(cfg, kind, t, rx, tx, frames, fates)
    requires FateOk(cfg, kind, BurstSettled(t, cfg, rx, tx, frames, fates, |fates|), rx, frames[|fates|], fate)
    ensures AllFatesOk(cfg, kind, t, rx, tx, frames, fates + [fate])
    ensures var n := |fates|;
            BurstSettled(t, cfg, rx, tx, frames, fates + [fate], n + 1)
            == Settled(BurstSettled(t, cfg, rx, tx, frames, fates, n), cfg, rx, tx, frames[n], fate)
  {
    hide Settled, FateOk;
    var longer := fates + [fate];
    forall n | 0 <= n < |longer|
      ensures FateOk(cfg, kind, BurstSettled(t, cfg, rx, tx, frames, longer, n), rx, frames[n], longer[n])
    {
      SettledPrefix(t, cfg, rx, tx, frames, fates, fate, n);
    }
    SettledPrefix(t, cfg, rx, tx, frames, fates, fate, |fates|);
  }

  // ---------------------------------------------------------------- phases and histories

  /** One burst: where it arrived, its packets and what became of each; `dead` are buffers the library let go of. */
  datatype Phase =
    | Fragmenting(rx: Port, frames: seq<Frame>, outcomes: seq<Outcome>)
    | Reassembling(rx: Port, kind: PacketType, frames: seq<Frame>, fates: seq<Fate>, dead: multiset<int>)

  /** A burst whose last fate is an abort is cut short. */
  predicate Aborts(fates: seq<Fate>) {
    fates != [] && fates[|fates| - 1].end.Aborted?
  }

  /** Packets come from the device without the marks of reassembly. */
  ghost predicate Unmarked(frames: seq<Frame>) {
    forall i :: 0 <= i < |frames| ==> !frames[i].innerModified && !frames[i].outerModified
  }

  /** The process stops in the middle of this burst. */
  predicate Halting(p: Phase) {
    p.Reassembling? && Aborts(p.fates)
  }

  /** The process stopped in the last burst. */
  predicate Halts(history: seq<Phase>) {
    history != [] && Halting(history[|history| - 1])
  }

  ghost predicate OnlyLastHalts(history: seq<Phase>) {
    forall n :: 0 <= n < |history| - 1 ==> !Halting(history[n])
  }

  ghost predicate PhaseOk(cfg: Config, t: Totals, p: Phase) {
    var tx := Route(cfg.mode, p.rx);
    match p
    case Fragmenting(rx, frames, outcomes) => |outcomes| == |frames| && AllExplained(cfg, frames, outcomes)
    case Reassembling(rx, kind, frames, fates, dead) =>
      var arrived := Arrived(t, frames);
      && Unmarked(frames) && AllFatesOk(cfg, kind, arrived, rx, tx, frames, fates)
      && (if Aborts(fates) then dead == multiset{} else |fates| == |frames|)
      && dead <= BurstSettled(arrived, cfg, rx, tx, frames, fates, |fates|).held
      && forall i :: 0 <= i < |fates| - 1 ==> !fates[i].end.Aborted?
  }

  /** Buffers of packets that a burst cut short leaves behind are lost. */
  function PhaseDone(cfg: Config, t: Totals, p: Phase): Totals
    requires p.Fragmenting? ==> |p.outcomes| == |p.frames|
    requires p.Reassembling? ==> |p.fates| <= |p.frames|
  {
    var tx := Route(cfg.mode, p.rx);
    match p
    case Fragmenting(rx, frames, outcomes) => BurstDealt(Arrived(t, frames), rx, tx, frames, outcomes, |frames|)
    case Reassembling(rx, kind, frames, fates, dead) =>
      var b := BurstSettled(Arrived(t, frames), cfg, rx, tx, frames, fates, |fates|);
      if Aborts(fates) then b.(lost := b.lost + RestIds(frames, |fates|))
      else b.(held := b.held - dead, freed := b.freed + dead)
  }

  ghost function After(cfg: Config, history: seq<Phase>, n: nat): Totals
    requires n <= |history|
  {
    if n == 0 then Nothing() else
    var t, p := After(cfg, history, n - 1), history[n - 1];
    if PhaseOk(cfg, t, p) then PhaseDone(cfg, t, p) else t
  }

  ghost predicate HistoryOk(cfg: Config, history: seq<Phase>) {
    forall n :: 0 <= n < |history| ==> PhaseOk(cfg, After(cfg, history, n), history[n])
  }

  lemma {:induction false} AfterPrefix(cfg: Config, history: seq<Phase>, p: Phase, n: nat)
    requires n <= |history|
    ensures After(cfg, history + [p], n) == After(cfg, history, n)
  {
    hide PhaseOk, PhaseDone;
    if n > 0 {
      AfterPrefix(cfg, history, p, n - 1);
    }
  }

  lemma HistoryStep(cfg: Config, history: seq<Phase>, p: Phase)
    requires HistoryOk(cfg, history) && PhaseOk(cfg, After(cfg, history, |history|), p)
    ensures HistoryOk(cfg, history + [p])
    ensures After(cfg, history + [p], |history| + 1) == PhaseDone(cfg, After(cfg, history, |history|), p)
  {
    hide PhaseOk, PhaseDone;
    forall n | 0 <= n < |history + [p]|
      ensures PhaseOk(cfg, After(cfg, history + [p], n), (history + [p])[n])
    {
      AfterPrefix(cfg, history, p, n);
    }
    AfterPrefix(cfg, history, p, |history|);
  }

  /** The phases of one turn of the worker loop, over and over. */
  function PerTurn(mode: Mode): nat {
    match mode case Bidir => 2 case Multiport => 4 case Unsupported => 1
  }

  /** Which phase is due: the port it serves, and whether and how it reassembles. */
  datatype Duty = Duty(rx: Port, reassembles: bool, kind: PacketType)

  function Due(mode: Mode, n: nat): Duty {
    match mode
    case Bidir => if n % 2 == 0 then Duty(Reassemble0, true, UnknownType) else Duty(Fragment0, false, PlainPacket)
    case _ =>
      if n % 4 == 0 then Duty(Reassemble0, true, Tunneled)
      else if n % 4 == 1 then Duty(Fragment0, true, PlainPacket)
      else if n % 4 == 2 then Duty(Reassemble1, false, PlainPacket)
      else Duty(Fragment1, false, PlainPacket)
  }

  predicate Serves(p: Phase, d: Duty) {
    p.rx == d.rx && p.Reassembling? == d.reassembles && (p.Reassembling? ==> p.kind == d.kind)
  }

  /** Every phase is the one that is due. */
  ghost predicate OnSchedule(mode: Mode, history: seq<Phase>) {
    forall n :: 0 <= n < |history| ==> Serves(history[n], Due(mode, n))
  }
}

/** What holds of every history: where the buffers are, which are freed twice, what the counters mean. */
module FragLaws {
  import opened Bytes
  import opened Checksum
  import opened ParserSpec
  import opened PacketParser
  import opened IpFragFixup
  import opened Frames
  import opened FragHistory

  // ---------------------------------------------------------------- every buffer is accounted for

  /**
   The account of one buffer. How often it came in, plus how often it was freed once too often, is how often it is held
   by the library, was freed, lost or queued, or is still in hand.
   */
  ghost predicate Balanced(t: Totals, hand: multiset<int>, x: int) {
    t.received[x] + t.created[x] + t.doubled[x] == t.held[x] + t.freed[x] + t.lost[x] + AllIds(t.log)[x] + hand[x]
  }

  lemma QueuedIds(t: Totals, rx: Port, tx: Port, fs: seq<Frame>, x: int)
    ensures AllIds(Queued(t, rx, tx, fs).log)[x] == AllIds(t.log)[x] + AllIds(fs)[x]
  {
    hide AllIds, Repeat;
    AllIdsConcat(t.log, fs);
  }

  lemma OneId(f: Frame, x: int)
    ensures AllIds([f])[x] == Ids(f)[x]
  {
    hide Ids;
    AllIdsNone();
    AllIdsAppend([], f);
    assert [] + [f] == [f];
  }

  /** A packet on the fragmentation path: its buffers and those of its pieces are queued or freed, nothing else moves. */
  lemma DealtConserves(t: Totals, rx: Port, tx: Port, f: Frame, o: Outcome, x: int)
    ensures var t' := Dealt(t, rx, tx, f, o);
            && t'.freed[x] + AllIds(t'.log)[x] + t.created[x]
               == t.freed[x] + AllIds(t.log)[x] + t'.created[x] + Ids(f)[x]
            && t'.received == t.received && t'.held == t.held && t'.doubled == t.doubled && t'.lost == t.lost
  {
    hide Ids, AllIds, Queued;
    match o
    case Passed => PassedConserves(t, rx, tx, f, x);
    case Split(pieces) => SplitConserves(t, rx, tx, f, pieces, x);
    case Refused(parsed) =>
  }

  lemma PassedConserves(t: Totals, rx: Port, tx: Port, f: Frame, x: int)
    ensures var t' := Dealt(t, rx, tx, f, Passed);
            && t'.freed == t.freed && t'.created == t.created
            && AllIds(t'.log)[x] == AllIds(t.log)[x] + Ids(f)[x]
            && t'.received == t.received && t'.held == t.held && t'.doubled == t.doubled && t'.lost == t.lost
  {
    hide Ids, AllIds, Queued;
    var c := CountersOf(t, rx);
    QueuedAll(Counted(t, rx, c.(mtuFits := c.mtuFits + 1)), rx, tx, [f], x);
    OneId(f, x);
  }

  lemma SplitConserves(t: Totals, rx: Port, tx: Port, f: Frame, pieces: seq<Frame>, x: int)
    ensures var t' := Dealt(t, rx, tx, f, Split(pieces));
            && t'.freed == t.freed + Ids(f) && t'.created == t.created + AllIds(pieces)
            && AllIds(t'.log)[x] == AllIds(t.log)[x] + AllIds(pieces)[x]
            && t'.received == t.received && t'.held == t.held && t'.doubled == t.doubled && t'.lost == t.lost
  {
    hide Ids, AllIds, Queued;
    var c := CountersOf(t, rx);
    var replaced := t.(created := t.created + AllIds(pieces), freed := t.freed + Ids(f));
    QueuedAll(Counted(replaced, rx, c.(mtuExceed := c.mtuExceed + 1, fragsGen := c.fragsGen + |pieces|)), rx, tx,
              pieces, x);
  }

  lemma QueuedAll(t: Totals, rx: Port, tx: Port, fs: seq<Frame>, x: int)
    ensures var t' := Queued(t, rx, tx, fs);
            && AllIds(t'.log)[x] == AllIds(t.log)[x] + AllIds(fs)[x]
            && t' == t.(log := t'.log, intended := t'.intended, origin := t'.origin)
  {
    QueuedIds(t, rx, tx, fs, x);
  }

  lemma {:induction false} BurstConserves(t: Totals, rx: Port, tx: Port, frames: seq<Frame>, outcomes: seq<Outcome>,
                                          n: nat, x: int)
    requires n <= |outcomes| && n <= |frames|
    ensures var t' := BurstDealt(t, rx, tx, frames, outcomes, n);
            && t'.freed[x] + AllIds(t'.log)[x] + t.created[x] + RestIds(frames, n)[x]
               == t.freed[x] + AllIds(t.log)[x] + t'.created[x] + RestIds(frames, 0)[x]
            && t'.received == t.received && t'.held == t.held && t'.doubled == t.doubled && t'.lost == t.lost
  {
    hide Dealt, Ids, AllIds;
    if n > 0 {
      BurstConserves(t, rx, tx, frames, outcomes, n - 1, x);
      DealtConserves(BurstDealt(t, rx, tx, frames, outcomes, n - 1), rx, tx, frames[n - 1], outcomes[n - 1], x);
    }
  }

  /**
   A whole burst on the fragmentation path: every buffer that arrives or is created is queued or freed exactly once,
   whatever happened on the other path before.
   */
  lemma FragmentingConserves(cfg: Config, t: Totals, p: Phase, x: int)
    requires p.Fragmenting? && |p.outcomes| == |p.frames|
    ensures var t' := PhaseDone(cfg, t, p);
            && t'.freed[x] + AllIds(t'.log)[x] + t.created[x]
               == t.freed[x] + AllIds(t.log)[x] + t'.created[x] + RestIds(p.frames, 0)[x]
            && t'.received[x] == t.received[x] + RestIds(p.frames, 0)[x]
            && t'.held == t.held && t'.doubled == t.doubled && t'.lost == t.lost
  {
    hide AllIds, BurstDealt;
    BurstConserves(Arrived(t, p.frames), p.rx, Route(cfg.mode, p.rx), p.frames, p.outcomes, |p.frames|, x);
  }

  lemma FlatKeepsIds(cfg: Config, chained: Frame, x: int)
    requires CanFlatten(cfg, chained)
    ensures Ids(FlatOf(cfg, chained))[x] + FlatReleases(cfg, chained)[x] == Ids(chained)[x]
  {
    NothingBehind();
  }

  lemma PushedBalance(t: Totals, cfg: Config, kind: PacketType, rx: Port, pkt: Frame, chained: Frame,
                      hand: multiset<int>, x: int)
    requires Balanced(t, hand + Ids(pkt), x) && PushOk(cfg, kind, t.held, pkt, chained)
    ensures Balanced(Pushed(t, cfg, rx, pkt, chained), hand + Ids(FlatOf(cfg, chained)), x)
  {
    hide Ids, AllIds, FlatOf, FlatReleases, ParseFrame, CanFlatten;
    FlatKeepsIds(cfg, chained, x);
    assert Ids(chained)[x] <= (t.held + Ids(pkt))[x];
  }

  lemma EndedBalance(t: Totals, cfg: Config, kind: PacketType, rx: Port, tx: Port, pkt: Frame, e: End,
                     hand: multiset<int>, x: int)
    requires Balanced(t, hand + Ids(pkt), x) && EndOk(cfg, kind, t.held, pkt, e)
    ensures Balanced(Ended(t, rx, tx, pkt, e), hand, x)
  {
    hide Balanced, Ended, Ids, ParseFrame, Parsed, FixFrame, TooBig, Overruns;
    match e
    case Sent(_, _, frame) => SentBalance(t, rx, tx, pkt, e, hand, x);
    case Unflattened(_, _) => UnflattenedBalance(t, rx, tx, pkt, e, hand, x);
    case Aborted(_, _) => AbortedBalance(t, rx, tx, pkt, e, hand, x);
    case _ => StayBalance(t, rx, tx, pkt, e, hand, x);
  }

  lemma SentBalance(t: Totals, rx: Port, tx: Port, pkt: Frame, e: End, hand: multiset<int>, x: int)
    requires Balanced(t, hand + Ids(pkt), x) && e.Sent? && Ids(e.frame) == Ids(pkt)
    ensures Balanced(Ended(t, rx, tx, pkt, e), hand, x)
  {
    hide Ids, AllIds, Queued;
    var c := CountersOf(t, rx);
    QueuedAll(Counted(t, rx, c.(whole := c.whole + 1)), rx, tx, [e.frame], x);
    OneId(e.frame, x);
  }

  lemma StayBalance(t: Totals, rx: Port, tx: Port, pkt: Frame, e: End, hand: multiset<int>, x: int)
    requires Balanced(t, hand + Ids(pkt), x) && (e.Kept? || e.Dropped?)
    ensures Balanced(Ended(t, rx, tx, pkt, e), hand, x)
  {
    hide Ids, AllIds, Queued;
  }

  lemma UnflattenedBalance(t: Totals, rx: Port, tx: Port, pkt: Frame, e: End, hand: multiset<int>, x: int)
    requires Balanced(t, hand + Ids(pkt), x) && e.Unflattened?
    requires Ids(e.chained) <= t.held + Ids(pkt) && Ids(pkt) + e.after <= Ids(e.chained)
    ensures Balanced(Ended(t, rx, tx, pkt, e), hand, x)
  {
    hide Ids, AllIds, Queued;
    assert Ids(e.chained)[x] <= (t.held + Ids(pkt))[x];
    assert (Ids(pkt) + e.after)[x] <= Ids(e.chained)[x];
  }

  lemma AbortedBalance(t: Totals, rx: Port, tx: Port, pkt: Frame, e: End, hand: multiset<int>, x: int)
    requires Balanced(t, hand + Ids(pkt), x) && e.Aborted?
    requires Ids(e.chained) <= t.held + Ids(pkt) && e.released <= Ids(e.chained)
    ensures Balanced(Ended(t, rx, tx, pkt, e), hand, x)
  {
    hide Ids, AllIds, Queued;
    assert Ids(e.chained)[x] <= (t.held + Ids(pkt))[x];
    assert e.released[x] <= Ids(e.chained)[x];
  }

  lemma {:induction false} PushesBalance(t: Totals, cfg: Config, kind: PacketType, rx: Port, f: Frame, pushes: seq<Frame>,
                                         n: nat, hand: multiset<int>, x: int)
    requires n <= |pushes| && Balanced(t, hand + Ids(f), x) && PushesOk(cfg, kind, t, rx, f, pushes)
    ensures Balanced(AfterPushes(t, cfg, rx, f, pushes, n), hand + Ids(Current(cfg, f, pushes, n)), x)
  {
    hide Balanced, Pushed, PushOk, Ids, FlatOf;
    if n > 0 {
      PushesBalance(t, cfg, kind, rx, f, pushes, n - 1, hand, x);
      PushedBalance(AfterPushes(t, cfg, rx, f, pushes, n - 1), cfg, kind, rx, Current(cfg, f, pushes, n - 1),
                    pushes[n - 1], hand, x);
    }
  }

  lemma SettledBalance(t: Totals, cfg: Config, kind: PacketType, rx: Port, tx: Port, f: Frame, fate: Fate,
                       hand: multiset<int>, x: int)
    requires Balanced(t, hand + Ids(f), x) && FateOk(cfg, kind, t, rx, f, fate)
    ensures Balanced(Settled(t, cfg, rx, tx, f, fate), hand, x)
  {
    hide Balanced, PushesOk, EndOk, Ended, Ids, Current, AfterPushes;
    var n := |fate.pushes|;
    PushesBalance(t, cfg, kind, rx, f, fate.pushes, n, hand, x);
    EndedBalance(AfterPushes(t, cfg, rx, f, fate.pushes, n), cfg, kind, rx, tx, Current(cfg, f, fate.pushes, n), fate.end,
                 hand, x);
  }

  lemma {:induction false} BurstSettledBalance(t: Totals, cfg: Config, kind: PacketType, rx: Port, tx: Port,
                                               frames: seq<Frame>, fates: seq<Fate>, n: nat, x: int)
    requires n <= |fates| && AllFatesOk(cfg, kind, t, rx, tx, frames, fates) && Balanced(t, RestIds(frames, 0), x)
    ensures Balanced(BurstSettled(t, cfg, rx, tx, frames, fates, n), RestIds(frames, n), x)
  {
    hide Balanced, Settled, FateOk, Ids;
    if n > 0 {
      BurstSettledBalance(t, cfg, kind, rx, tx, frames, fates, n - 1, x);
      SettledBalance(BurstSettled(t, cfg, rx, tx, frames, fates, n - 1), cfg, kind, rx, tx, frames[n - 1], fates[n - 1],
                     RestIds(frames, n), x);
    }
  }

  lemma PhaseBalance(cfg: Config, t: Totals, p: Phase, x: int)
    requires PhaseOk(cfg, t, p) && Balanced(t, multiset{}, x)
    ensures Balanced(PhaseDone(cfg, t, p), multiset{}, x)
  {
    hide AllIds, BurstDealt, BurstSettled, AllFatesOk, AllExplained;
    if p.Fragmenting? {
      FragmentingConserves(cfg, t, p, x);
    } else {
      var arrived, tx := Arrived(t, p.frames), Route(cfg.mode, p.rx);
      FatesFit(cfg, arrived, p, tx);
      BurstSettledBalance(arrived, cfg, p.kind, p.rx, tx, p.frames, p.fates, |p.fates|, x);
      NoneRest(p.frames);
      var b := BurstSettled(arrived, cfg, p.rx, tx, p.frames, p.fates, |p.fates|);
      assert p.dead[x] <= b.held[x];
    }
  }

  lemma FatesFit(cfg: Config, t: Totals, p: Phase, tx: Port)
    requires p.Reassembling? && AllFatesOk(cfg, p.kind, t, p.rx, tx, p.frames, p.fates)
    ensures |p.fates| <= |p.frames|
  {}

  lemma NoneRest(frames: seq<Frame>)
    ensures RestIds(frames, |frames|) == multiset{}
  {}

  /** Over every history, every buffer is accounted for. */
  lemma {:induction false} HistoryBalance(cfg: Config, history: seq<Phase>, n: nat, x: int)
    requires HistoryOk(cfg, history) && n <= |history|
    ensures Balanced(After(cfg, history, n), multiset{}, x)
  {
    hide Balanced, PhaseOk, PhaseDone;
    if n > 0 {
      HistoryBalance(cfg, history, n - 1, x);
      PhaseBalance(cfg, After(cfg, history, n - 1), history[n - 1], x);
    } else {
      NothingBalanced(x);
    }
  }

  lemma NothingBalanced(x: int)
    ensures Balanced(Nothing(), multiset{}, x)
  {}

  // ---------------------------------------------------------------- which buffers are freed twice

  /** A completed packet is passed on, refused or runs out of room; which of them, its tail and tailroom decide. */
  lemma FlattenDecides(cfg: Config, chained: Frame)
    ensures CanFlatten(cfg, chained) <==> !(!cfg.chain && chained.tail != [] && (TooBig(chained) || Overruns(chained)))
    ensures !(TooBig(chained) && Overruns(chained))
  {
    NothingBehind();
  }

  /** The buffers that a fate frees twice: those of a packet whose completion cannot be flattened, and what follows it. */
  function Twice(cfg: Config, f: Frame, fate: Fate): multiset<int> {
    if fate.end.Unflattened? then Ids(Current(cfg, f, fate.pushes, |fate.pushes|)) + fate.end.after else multiset{}
  }

  function BurstTwice(cfg: Config, frames: seq<Frame>, fates: seq<Fate>, n: nat): multiset<int>
    requires n <= |fates| && n <= |frames|
  {
    if n == 0 then multiset{} else BurstTwice(cfg, frames, fates, n - 1) + Twice(cfg, frames[n - 1], fates[n - 1])
  }

  function PhaseTwice(cfg: Config, p: Phase): multiset<int> {
    if p.Reassembling? && |p.fates| <= |p.frames| then BurstTwice(cfg, p.frames, p.fates, |p.fates|) else multiset{}
  }

  function HistoryTwice(cfg: Config, history: seq<Phase>, n: nat): multiset<int>
    requires n <= |history|
  {
    if n == 0 then multiset{} else HistoryTwice(cfg, history, n - 1) + PhaseTwice(cfg, history[n - 1])
  }

  lemma {:induction false} PushesKeepDoubled(t: Totals, cfg: Config, rx: Port, f: Frame, pushes: seq<Frame>, n: nat, x: int)
    requires n <= |pushes|
    ensures AfterPushes(t, cfg, rx, f, pushes, n).doubled == t.doubled
    ensures AfterPushes(t, cfg, rx, f, pushes, n).freed[x] >= t.freed[x]
  {
    hide Ids, FlatReleases;
    if n > 0 {
      PushesKeepDoubled(t, cfg, rx, f, pushes, n - 1, x);
    }
  }

  /** What is freed twice is counted twice among the freed buffers. */
  ghost predicate CountedTwice(t: Totals, x: int) {
    t.freed[x] >= 2 * t.doubled[x]
  }

  lemma SettledDoubles(t: Totals, cfg: Config, rx: Port, tx: Port, f: Frame, fate: Fate, x: int)
    ensures Settled(t, cfg, rx, tx, f, fate).doubled[x] == t.doubled[x] + Twice(cfg, f, fate)[x]
    ensures CountedTwice(t, x) ==> CountedTwice(Settled(t, cfg, rx, tx, f, fate), x)
  {
    hide Ids, Current, AfterPushes, Queued, Counted;
    var n := |fate.pushes|;
    PushesKeepDoubled(t, cfg, rx, f, fate.pushes, n, x);
    EndedDoubles(AfterPushes(t, cfg, rx, f, fate.pushes, n), rx, tx, Current(cfg, f, fate.pushes, n), fate.end, x);
  }

  lemma EndedDoubles(t: Totals, rx: Port, tx: Port, pkt: Frame, e: End, x: int)
    ensures var t' := Ended(t, rx, tx, pkt, e);
            var twice := if e.Unflattened? then (Ids(pkt) + e.after)[x] else 0;
            t'.doubled[x] == t.doubled[x] + twice && t'.freed[x] >= t.freed[x] + 2 * twice
  {
    hide Ids;
  }

  lemma {:induction false} BurstSettledDoubles(t: Totals, cfg: Config, rx: Port, tx: Port, frames: seq<Frame>,
                                               fates: seq<Fate>, n: nat, x: int)
    requires n <= |fates| && n <= |frames|
    ensures var t' := BurstSettled(t, cfg, rx, tx, frames, fates, n);
            && t'.doubled[x] == t.doubled[x] + BurstTwice(cfg, frames, fates, n)[x]
            && (CountedTwice(t, x) ==> CountedTwice(t', x))
  {
    hide Settled, Twice, CountedTwice;
    if n > 0 {
      BurstSettledDoubles(t, cfg, rx, tx, frames, fates, n - 1, x);
      SettledDoubles(BurstSettled(t, cfg, rx, tx, frames, fates, n - 1), cfg, rx, tx, frames[n - 1], fates[n - 1], x);
    }
  }

  lemma {:induction false} BurstDealtFrees(t: Totals, rx: Port, tx: Port, frames: seq<Frame>, outcomes: seq<Outcome>,
                                           n: nat, x: int)
    requires n <= |outcomes| && n <= |frames|
    ensures BurstDealt(t, rx, tx, frames, outcomes, n).freed[x] >= t.freed[x]
  {
    hide Dealt;
    if n > 0 {
      BurstDealtFrees(t, rx, tx, frames, outcomes, n - 1, x);
      DealtFrees(BurstDealt(t, rx, tx, frames, outcomes, n - 1), rx, tx, frames[n - 1], outcomes[n - 1], x);
    }
  }

  lemma DealtFrees(t: Totals, rx: Port, tx: Port, f: Frame, o: Outcome, x: int)
    ensures Dealt(t, rx, tx, f, o).freed[x] >= t.freed[x]
  {
    hide Ids, AllIds, Repeat;
  }

  lemma PhaseDoubles(cfg: Config, t: Totals, p: Phase, x: int)
    requires PhaseOk(cfg, t, p)
    ensures PhaseDone(cfg, t, p).doubled[x] == t.doubled[x] + PhaseTwice(cfg, p)[x]
    ensures CountedTwice(t, x) ==> CountedTwice(PhaseDone(cfg, t, p), x)
  {
    hide AllIds, BurstDealt, BurstSettled, BurstTwice, AllFatesOk, AllExplained;
    if p.Fragmenting? {
      FragmentingConserves(cfg, t, p, x);
      BurstDealtFrees(Arrived(t, p.frames), p.rx, Route(cfg.mode, p.rx), p.frames, p.outcomes, |p.frames|, x);
    } else {
      FatesFit(cfg, Arrived(t, p.frames), p, Route(cfg.mode, p.rx));
      BurstSettledDoubles(Arrived(t, p.frames), cfg, p.rx, Route(cfg.mode, p.rx), p.frames, p.fates, |p.fates|, x);
    }
  }

  lemma {:induction false} HistoryDoubles(cfg: Config, history: seq<Phase>, n: nat, x: int)
    requires HistoryOk(cfg, history) && n <= |history|
    ensures After(cfg, history, n).doubled[x] == HistoryTwice(cfg, history, n)[x]
    ensures CountedTwice(After(cfg, history, n), x)
  {
    hide PhaseOk, PhaseDone, PhaseTwice;
    if n > 0 {
      HistoryDoubles(cfg, history, n - 1, x);
      PhaseDoubles(cfg, After(cfg, history, n - 1), history[n - 1], x);
    }
  }

  /**
   A buffer that came in once is freed more than once if and only if it belongs to a packet whose completion could not
   be flattened, or was chained behind one; otherwise it is in exactly one place, and once: held by the library, freed,
   queued, or lost.
   */
  lemma FreedTwiceIff(cfg: Config, history: seq<Phase>, n: nat, x: int)
    requires HistoryOk(cfg, history) && n <= |history|
    requires var t := After(cfg, history, n); t.received[x] + t.created[x] == 1
    ensures var t := After(cfg, history, n);
            && (t.freed[x] > 1 <==> x in HistoryTwice(cfg, history, n))
            && (x !in HistoryTwice(cfg, history, n) ==> t.held[x] + t.freed[x] + t.lost[x] + AllIds(t.log)[x] == 1)
  {
    hide After, HistoryTwice, AllIds;
    HistoryBalance(cfg, history, n, x);
    HistoryDoubles(cfg, history, n, x);
  }

  /** Which buffers these are: some burst has a packet that ends unflattened, with the buffer in it or behind it. */
  lemma {:induction false} TwiceIsSome(cfg: Config, history: seq<Phase>, n: nat, x: int)
    requires n <= |history|
    ensures x in HistoryTwice(cfg, history, n)
            <==> exists k :: 0 <= k < n && x in PhaseTwice(cfg, history[k])
  {
    hide PhaseTwice;
    if n > 0 {
      TwiceIsSome(cfg, history, n - 1, x);
    }
  }

  lemma {:induction false} BurstTwiceIsSome(cfg: Config, frames: seq<Frame>, fates: seq<Fate>, n: nat, x: int)
    requires n <= |fates| && n <= |frames|
    ensures x in BurstTwice(cfg, frames, fates, n)
            <==> exists i :: 0 <= i < n && x in Twice(cfg, frames[i], fates[i])
  {
    hide Twice;
    if n > 0 {
      BurstTwiceIsSome(cfg, frames, fates, n - 1, x);
    }
  }

  /** With chained buffers nothing is flattened, so nothing is lost or freed twice. */
  lemma {:induction false} ChainedLosesNothing(cfg: Config, history: seq<Phase>, n: nat, x: int)
    requires HistoryOk(cfg, history) && n <= |history| && cfg.chain
    ensures After(cfg, history, n).lost[x] == 0 && After(cfg, history, n).doubled[x] == 0
  {
    hide PhaseOk, PhaseDone;
    if n > 0 {
      ChainedLosesNothing(cfg, history, n - 1, x);
      ChainedPhase(cfg, After(cfg, history, n - 1), history[n - 1], x);
    }
  }

  lemma ChainedPhase(cfg: Config, t: Totals, p: Phase, x: int)
    requires PhaseOk(cfg, t, p) && cfg.chain
    ensures PhaseDone(cfg, t, p).lost[x] == t.lost[x] && PhaseDone(cfg, t, p).doubled[x] == t.doubled[x]
  {
    hide AllIds, BurstDealt, BurstSettled, AllExplained, FateOk;
    if p.Fragmenting? {
      FragmentingConserves(cfg, t, p, x);
    } else {
      var tx := Route(cfg.mode, p.rx);
      ChainedBurst(cfg, p.kind, Arrived(t, p.frames), p.rx, tx, p.frames, p.fates, |p.fates|, x);
    }
  }

  lemma {:induction false} ChainedBurst(cfg: Config, kind: PacketType, t: Totals, rx: Port, tx: Port, frames: seq<Frame>,
                                        fates: seq<Fate>, n: nat, x: int)
    requires n <= |fates| && AllFatesOk(cfg, kind, t, rx, tx, frames, fates) && cfg.chain
    ensures var t' := BurstSettled(t, cfg, rx, tx, frames, fates, n);
            t'.lost[x] == t.lost[x] && t'.doubled[x] == t.doubled[x]
    ensures forall i :: 0 <= i < |fates| ==> !fates[i].end.Aborted?
  {
    hide FateOk, Settled;
    forall i | 0 <= i < |fates|
      ensures !fates[i].end.Aborted? && !fates[i].end.Unflattened?
    {
      ChainedFate(cfg, kind, BurstSettled(t, cfg, rx, tx, frames, fates, i), rx, frames[i], fates[i]);
    }
    if n > 0 {
      ChainedBurst(cfg, kind, t, rx, tx, frames, fates, n - 1, x);
      ChainedSettled(BurstSettled(t, cfg, rx, tx, frames, fates, n - 1), cfg, rx, tx, frames[n - 1], fates[n - 1], x);
    }
  }

  lemma ChainedFate(cfg: Config, kind: PacketType, t: Totals, rx: Port, f: Frame, fate: Fate)
    requires FateOk(cfg, kind, t, rx, f, fate) && cfg.chain
    ensures !fate.end.Aborted? && !fate.end.Unflattened?
  {
    hide Ids, Current, AfterPushes, PushesOk, ParseFrame, Completes;
  }

  lemma ChainedSettled(t: Totals, cfg: Config, rx: Port, tx: Port, f: Frame, fate: Fate, x: int)
    requires !fate.end.Unflattened? && !fate.end.Aborted?
    ensures var t' := Settled(t, cfg, rx, tx, f, fate); t'.lost[x] == t.lost[x] && t'.doubled[x] == t.doubled[x]
  {
    hide Ids, Current, AfterPushes, Repeat, CountersOf;
    PushesKeepLost(t, cfg, rx, f, fate.pushes, |fate.pushes|);
    PushesKeepDoubled(t, cfg, rx, f, fate.pushes, |fate.pushes|, x);
  }

  lemma {:induction false} PushesKeepLost(t: Totals, cfg: Config, rx: Port, f: Frame, pushes: seq<Frame>, n: nat)
    requires n <= |pushes|
    ensures AfterPushes(t, cfg, rx, f, pushes, n).lost == t.lost
  {
    hide Ids, FlatReleases;
    if n > 0 {
      PushesKeepLost(t, cfg, rx, f, pushes, n - 1);
    }
  }

  // ---------------------------------------------------------------- when flattening fails

  /** Every packet that the library completed on the way of one packet. */
  function Completed(fate: Fate): seq<Frame> {
    match fate.end
    case Unflattened(chained, _) => fate.pushes + [chained]
    case Aborted(chained, _) => fate.pushes + [chained]
    case _ => fate.pushes
  }

  /** The guard of the failing branch: the buffers are to be flattened, there are several, and the tail is too big. */
  predicate Refuses(cfg: Config, chained: Frame) {
    !cfg.chain && chained.tail != [] && TooBig(chained)
  }

  /** A packet has buffers freed twice if and only if one of the packets completed on its way is refused. */
  lemma TwiceIffRefused(cfg: Config, kind: PacketType, t: Totals, rx: Port, f: Frame, fate: Fate)
    requires FateOk(cfg, kind, t, rx, f, fate)
    ensures Twice(cfg, f, fate) != multiset{} <==> exists c :: c in Completed(fate) && Refuses(cfg, c)
  {
    hide Current, AfterPushes, ParseFrame, Completes, Parsed, FixFrame, TooBig, Overruns;
    forall n | 0 <= n < |fate.pushes|
      ensures !Refuses(cfg, fate.pushes[n])
    {
      FlattenDecides(cfg, fate.pushes[n]);
    }
    match fate.end
    case Unflattened(chained, after) =>
      assert chained in Completed(fate);
      assert Current(cfg, f, fate.pushes, |fate.pushes|).head.id in Twice(cfg, f, fate);
    case Aborted(chained, released) =>
      FlattenDecides(cfg, chained);
    case _ =>
  }

  /** The buffers of the last packet in hand, and what is chained behind it. */
  function LastInHand(cfg: Config, f: Frame, fate: Fate): multiset<int> {
    Ids(Current(cfg, f, fate.pushes, |fate.pushes|)) + if fate.end.Unflattened? then fate.end.after else multiset{}
  }

  /** Some packet completed on the way of packet `i` is refused, and the buffer is in the last packet in hand or behind. */
  ghost predicate RefusedWith(cfg: Config, p: Phase, i: int, x: int) {
    && p.Reassembling? && 0 <= i < |p.fates| <= |p.frames|
    && (exists c :: c in Completed(p.fates[i]) && Refuses(cfg, c)) && x in LastInHand(cfg, p.frames[i], p.fates[i])
  }

  /**
   The same over whole histories, for a buffer that came in once: it is freed more than once if and only if, on the way
   of some packet of some burst, a packet was completed that is to be flattened, has a tail and a 16-bit tail size above
   its tailroom, and the buffer is in the fragment that completed it or behind.
   */
  lemma FreedTwiceExactly(cfg: Config, history: seq<Phase>, x: int)
    requires HistoryOk(cfg, history)
    requires var t := After(cfg, history, |history|); t.received[x] + t.created[x] == 1
    ensures After(cfg, history, |history|).freed[x] > 1
            <==> exists k, i :: 0 <= k < |history| && RefusedWith(cfg, history[k], i, x)
  {
    hide After, HistoryTwice, PhaseOk, FreesTwice, RefusedWith;
    FreedTwiceIff(cfg, history, |history|, x);
    TwiceIsSome(cfg, history, |history|, x);
    forall k | 0 <= k < |history|
      ensures x in PhaseTwice(cfg, history[k]) <==> exists i :: RefusedWith(cfg, history[k], i, x)
    {
      PhaseTwiceIsSome(cfg, After(cfg, history, k), history[k], x);
      forall i
        ensures FreesTwice(cfg, history[k], i, x) <==> RefusedWith(cfg, history[k], i, x)
      {
        FreesTwiceIffRefused(cfg, After(cfg, history, k), history[k], i, x);
      }
    }
  }

  lemma FreesTwiceIffRefused(cfg: Config, t: Totals, p: Phase, i: int, x: int)
    requires PhaseOk(cfg, t, p)
    ensures FreesTwice(cfg, p, i, x) <==> RefusedWith(cfg, p, i, x)
  {
    hide FateOk, BurstSettled, AllExplained, Current, Ids, Completed, Refuses;
    if p.Reassembling? && 0 <= i < |p.fates| {
      var arrived := Arrived(t, p.frames);
      var before := BurstSettled(arrived, cfg, p.rx, Route(cfg.mode, p.rx), p.frames, p.fates, i);
      TwiceIffRefused(cfg, p.kind, before, p.rx, p.frames[i], p.fates[i]);
    }
  }

  predicate FreesTwice(cfg: Config, p: Phase, i: int, x: int) {
    p.Reassembling? && 0 <= i < |p.fates| <= |p.frames| && x in Twice(cfg, p.frames[i], p.fates[i])
  }

  lemma PhaseTwiceIsSome(cfg: Config, t: Totals, p: Phase, x: int)
    requires PhaseOk(cfg, t, p)
    ensures x in PhaseTwice(cfg, p) <==> exists i :: FreesTwice(cfg, p, i, x)
  {
    hide Twice, BurstTwice, FateOk, BurstSettled, AllExplained;
    if p.Reassembling? {
      BurstTwiceIsSome(cfg, p.frames, p.fates, |p.fates|, x);
      forall i | 0 <= i < |p.fates|
        ensures FreesTwice(cfg, p, i, x) <==> x in Twice(cfg, p.frames[i], p.fates[i])
      {}
    }
  }

  /** Half of an IPv4 datagram of 2960 bytes behind its header, which starts with `start`, at the given fragment word. */
  function HalfBytes(high: Byte, low: Byte, start: seq<Byte>): (r: seq<Byte>)
    requires |start| == 8
    ensures |r| == 1514
  {
    var header: seq<Byte> := [8, 0, 0x45, 0, 0x05, 0xDC, 0, 1, high, low, 64, 17];
    seq(12, _ => 0) + header + seq(10, _ => 0) + start + seq(1472, _ => 0)
  }

  /** The first half with a UDP header and more to follow, the second at an offset of 1480 bytes, each in a default buffer. */
  function Half(id: int): Frame {
    var bytes := if id == 1 then HalfBytes(0x20, 0, [0, 1, 0, 1, 0x0B, 0x90, 0, 0])
                 else HalfBytes(0, 185, [0, 0, 0, 0, 0, 0, 0, 0]);
    Frame(Segment(id, bytes), [], 2048 - |bytes|, false, false)
  }

  /** The datagram: the header of the first half says so, and what is behind the header of the second is chained. */
  function Whole(): Frame {
    var head := Half(1).head.bytes[16 := 0x0B][17 := 0xA4][20 := 0];
    Frame(Segment(1, head), [Segment(2, Half(2).head.bytes[34..])], 534, true, false)
  }

  /** They are the two halves of one datagram: same identification, true lengths, the second follows the first and is last. */
  lemma HalvesMatch()
    ensures forall id :: id == 1 || id == 2 ==>
              && |Half(id).head.bytes| == 1514 && Be16(Half(id).head.bytes, 16) == 1514 - 14
              && Be16(Half(id).head.bytes, 18) == 1
    ensures Be16(Half(1).head.bytes, 20) == 0x2000 && Be16(Half(2).head.bytes, 20) * 8 == 1514 - 34
    ensures Len(Whole()) == 34 + 2 * 1480 && Be16(Whole().head.bytes, 16) == Len(Whole()) - 14
    ensures Be16(Whole().head.bytes, 20) == 0 && Whole().tailroom == Half(1).tailroom
  {
    hide HalfBytes;
    HalfHeader(0x20, 0, [0, 1, 0, 1, 0x0B, 0x90, 0, 0]);
    HalfHeader(0, 185, [0, 0, 0, 0, 0, 0, 0, 0]);
    assert Whole().tail[1..] == [];
    assert TailBytes(Whole().tail) == Half(2).head.bytes[34..] + TailBytes([]);
  }

  lemma HalfHeader(high: Byte, low: Byte, start: seq<Byte>)
    requires |start| == 8
    ensures var r := HalfBytes(high, low, start);
            && Be16(r, 12) == ETHER_IPV4 && U8(r, 14) == 0x45
            && Be16(r, 16) == 1500 && Be16(r, 18) == 1 && Be16(r, 20) == high * 256 + low && r[21] == low
  {}

  function DoubleDrop(): seq<Phase> {
    [Reassembling(Reassemble0, UnknownType, [Half(1)], [Fate([], Kept)], multiset{}),
     Fragmenting(Fragment0, [], []),
     Reassembling(Reassemble0, UnknownType, [Half(2)], [Fate([], Unflattened(Whole(), multiset{}))], multiset{})]
  }

  lemma HalfIsFragment(id: int)
    ensures ParseFrame(UnknownType, Half(id)).0 == Again
  {
    hide Plain, Tunnel, HalfBytes;
    HalfHeader(0x20, 0, [0, 1, 0, 1, 0x0B, 0x90, 0, 0]);
    HalfHeader(0, 185, [0, 0, 0, 0, 0, 0, 0, 0]);
    FragmentOnWire(Padded(Half(id)), 1514);
  }

  lemma FragmentOnWire(buf: seq<Byte>, end: nat)
    requires Backed(buf, end) && 34 <= end && Be16(buf, 12) == ETHER_IPV4 && U8(buf, 14) == 0x45
    requires Be16(buf, 20) % 0x4000 != 0
    ensures Plain(buf, end).0 == Again
  {}

  function FirstKept(): Totals {
    Nothing().(received := multiset{1}, held := multiset{1},
               counters := [NO_COUNTERS.(fragsRx := 1), NO_COUNTERS, NO_COUNTERS, NO_COUNTERS])
  }

  lemma KeepsFirst(cfg: Config)
    requires cfg.mode == Bidir
    ensures PhaseOk(cfg, Nothing(), DoubleDrop()[0]) && PhaseDone(cfg, Nothing(), DoubleDrop()[0]) == FirstKept()
  {
    hide ParseFrame, Half;
    HalfIsFragment(1);
    HalfIds(1);
    var p := DoubleDrop()[0];
    var arrived := Arrived(Nothing(), p.frames);
    assert RestIds(p.frames, 1) == multiset{};
    assert arrived == Nothing().(received := multiset{1});
    var b := BurstSettled(arrived, cfg, p.rx, Fragment0, p.frames, p.fates, 1);
    assert BurstSettled(arrived, cfg, p.rx, Fragment0, p.frames, p.fates, 0) == arrived;
    assert b == FirstKept();
  }

  lemma HalfIds(id: int)
    ensures Ids(Half(id)) == multiset{id} && !Half(id).innerModified && !Half(id).outerModified
  {}

  lemma WholeIds()
    ensures Ids(Whole()) == multiset{1, 2} && |Ids(Whole())| == 2 && Refuses(Config(Bidir, 1500, false, false), Whole())
  {
    hide HalfBytes;
    assert Whole().tail[1..] == [];
    assert TailBytes(Whole().tail) == Half(2).head.bytes[34..] + TailBytes([]);
  }

  lemma IdlesBetween(cfg: Config, t: Totals)
    ensures PhaseOk(cfg, t, DoubleDrop()[1]) && PhaseDone(cfg, t, DoubleDrop()[1]) == t
  {
    assert RestIds([], 0) == multiset{};
  }

  function SecondFreedTwice(): Totals {
    FirstKept().(received := multiset{1, 2}, held := multiset{}, freed := multiset{2, 2}, doubled := multiset{2},
                 lost := multiset{1}, counters := [NO_COUNTERS.(fragsRx := 2, err := 2), NO_COUNTERS, NO_COUNTERS, NO_COUNTERS])
  }

  lemma SecondRefused(cfg: Config)
    requires cfg == Config(Bidir, 1500, false, false)
    ensures EndOk(cfg, UnknownType, multiset{1}, Half(2), Unflattened(Whole(), multiset{}))
  {
    hide ParseFrame, Half, Ids, TooBig;
    HalfIsFragment(2);
    HalfIds(2);
    WholeIds();
    assert multiset{2} + multiset{} == multiset{2};
  }

  lemma RefusedWhole(t: Totals, pkt: Frame, chained: Frame)
    requires |t.counters| == 4 && t.held + Ids(pkt) == Ids(chained)
    ensures var c := t.counters[0];
            Ended(t, Reassemble0, Fragment0, pkt, Unflattened(chained, multiset{}))
            == t.(counters := t.counters[0 := c.(fragsRx := c.fragsRx + 1, err := c.err + 2)], held := multiset{},
                  freed := t.freed + Ids(pkt) + Ids(pkt), doubled := t.doubled + Ids(pkt),
                  lost := t.lost + (Ids(chained) - Ids(pkt)))
  {
    hide Ids;
    assert Ids(pkt) + multiset{} == Ids(pkt);
    assert t.held + Ids(pkt) - Ids(chained) == multiset{};
  }

  lemma SecondEnds(arrived: Totals, e: End)
    requires e == Unflattened(Whole(), multiset{})
    requires arrived == FirstKept().(received := multiset{1, 2})
    ensures Ended(arrived, Reassemble0, Fragment0, Half(2), e) == SecondFreedTwice()
  {
    hide Half, Whole, Ids, Ended;
    HalfIds(2);
    WholeIds();
    RefusedWhole(arrived, Half(2), Whole());
    assert multiset{1, 2} - multiset{2} == multiset{1};
  }

  lemma FreesSecondTwice(cfg: Config)
    requires cfg == Config(Bidir, 1500, false, false)
    ensures var p := DoubleDrop()[2]; PhaseOk(cfg, FirstKept(), p) && PhaseDone(cfg, FirstKept(), p) == SecondFreedTwice()
  {
    hide EndOk, Ended, Half, Whole, Ids;
    HalfIds(2);
    var p := DoubleDrop()[2];
    var arrived := Arrived(FirstKept(), p.frames);
    assert RestIds(p.frames, 1) == multiset{};
    assert arrived == FirstKept().(received := multiset{1, 2});
    SecondRefused(cfg);
    SecondEnds(arrived, p.fates[0].end);
    assert BurstSettled(arrived, cfg, p.rx, Fragment0, p.frames, p.fates, 0) == arrived;
    var b := BurstSettled(arrived, cfg, p.rx, Fragment0, p.frames, p.fates, 1);
    assert b == SecondFreedTwice();
    assert b.(held := b.held - multiset{}, freed := b.freed + multiset{}) == b;
  }

  /**
   Two fragments of full length complete a datagram whose tail does not fit behind its head. The buffer of the second is
   freed twice, that of the first is never freed.
   */
  lemma DoubleDropWitness()
    ensures var cfg := Config(Bidir, 1500, false, false);
            && HistoryOk(cfg, DoubleDrop()) && OnSchedule(cfg.mode, DoubleDrop())
            && var t := After(cfg, DoubleDrop(), 3);
               && t.received == multiset{1, 2} && t.held == multiset{} && t.log == []
               && t.freed == multiset{2, 2} && t.lost == multiset{1}
  {
    hide PhaseOk, PhaseDone;
    var cfg := Config(Bidir, 1500, false, false);
    var h := DoubleDrop();
    KeepsFirst(cfg);
    IdlesBetween(cfg, FirstKept());
    FreesSecondTwice(cfg);
    HistoryStep(cfg, [], h[0]);
    assert [] + [h[0]] == [h[0]];
    HistoryStep(cfg, [h[0]], h[1]);
    assert [h[0]] + [h[1]] == [h[0], h[1]];
    HistoryStep(cfg, [h[0], h[1]], h[2]);
    assert [h[0], h[1]] + [h[2]] == h;
  }

  // ---------------------------------------------------------------- what the counters mean

  /** How many of the first `n` packets do not parse. */
  function Unparsed(outcomes: seq<Outcome>, n: nat): nat
    requires n <= |outcomes|
  {
    if n == 0 then 0 else Unparsed(outcomes, n - 1) + if outcomes[n - 1] == Refused(false) then 1 else 0
  }

  function Refusals(outcomes: seq<Outcome>, n: nat): nat
    requires n <= |outcomes|
  {
    if n == 0 then 0 else Refusals(outcomes, n - 1) + if outcomes[n - 1].Refused? then 1 else 0
  }

  function Generated(outcomes: seq<Outcome>, n: nat): nat
    requires n <= |outcomes|
  {
    if n == 0 then 0 else Generated(outcomes, n - 1) + if outcomes[n - 1].Split? then |outcomes[n - 1].pieces| else 0
  }

  lemma DealtCounts(t: Totals, rx: Port, tx: Port, f: Frame, o: Outcome)
    requires |t.counters| == 4
    ensures var t' := Dealt(t, rx, tx, f, o); var c, d := CountersOf(t, rx), CountersOf(t', rx);
            && |t'.counters| == 4
            && d.mtuFits == c.mtuFits + (if o.Passed? then 1 else 0)
            && d.mtuExceed == c.mtuExceed + (if o.Split? || o == Refused(true) then 1 else 0)
            && d.fragsGen == c.fragsGen + (if o.Split? then |o.pieces| else 0)
            && d.err == c.err + (if o.Refused? then 1 else 0)
            && d.fragsRx == c.fragsRx && d.whole == c.whole
            && forall p :: p != rx ==> CountersOf(t', p) == CountersOf(t, p)
  {
    hide Ids, AllIds, Repeat;
  }

  /**
   The counters of a port tell what happened to a burst: every packet is counted as one that fits, as one that exceeds
   the MTU, or as one that does not parse; refused packets and generated fragments are counted exactly.
   */
  lemma {:induction false} BurstIsCounted(t: Totals, rx: Port, tx: Port, frames: seq<Frame>, outcomes: seq<Outcome>, n: nat)
    requires n <= |outcomes| && n <= |frames| && |t.counters| == 4
    ensures var t' := BurstDealt(t, rx, tx, frames, outcomes, n);
            var c, d := CountersOf(t, rx), CountersOf(t', rx);
            && |t'.counters| == 4
            && d.mtuFits + d.mtuExceed + Unparsed(outcomes, n) == c.mtuFits + c.mtuExceed + n
            && d.err == c.err + Refusals(outcomes, n) && d.fragsGen == c.fragsGen + Generated(outcomes, n)
            && d.fragsRx == c.fragsRx && d.whole == c.whole
            && forall p :: p != rx ==> CountersOf(t', p) == CountersOf(t, p)
  {
    hide Dealt, CountersOf;
    if n > 0 {
      BurstIsCounted(t, rx, tx, frames, outcomes, n - 1);
      DealtCounts(BurstDealt(t, rx, tx, frames, outcomes, n - 1), rx, tx, frames[n - 1], outcomes[n - 1]);
    }
  }

  /** How many of the first `n` packets parse and are within the MTU, or parse and exceed it. */
  ghost function OfSize(cfg: Config, frames: seq<Frame>, within: bool, n: nat): nat
    requires n <= |frames|
  {
    if n == 0 then 0
    else OfSize(cfg, frames, within, n - 1)
         + if Parses(frames[n - 1]) && (Len(frames[n - 1]) <= cfg.mtu) == within then 1 else 0
  }

  /** The two counters of sizes, by what the packets are. */
  lemma {:induction false} SizesAreCounted(cfg: Config, t: Totals, rx: Port, tx: Port, frames: seq<Frame>,
                                           outcomes: seq<Outcome>, n: nat)
    requires AllExplained(cfg, frames, outcomes) && n <= |outcomes| && |t.counters| == 4
    ensures var t' := BurstDealt(t, rx, tx, frames, outcomes, n);
            var c, d := CountersOf(t, rx), CountersOf(t', rx);
            && |t'.counters| == 4
            && d.mtuFits == c.mtuFits + OfSize(cfg, frames, true, n)
            && d.mtuExceed == c.mtuExceed + OfSize(cfg, frames, false, n)
  {
    hide Dealt, CountersOf, Parses, IsIpv4, Ihl, ArePieces, Len;
    if n > 0 {
      SizesAreCounted(cfg, t, rx, tx, frames, outcomes, n - 1);
      DealtCounts(BurstDealt(t, rx, tx, frames, outcomes, n - 1), rx, tx, frames[n - 1], outcomes[n - 1]);
      assert Explains(cfg, frames[n - 1], outcomes[n - 1]);
    }
  }

  /** How often the packets of a burst turned out to be fragments. */
  function Fragmented(fate: Fate): nat {
    |fate.pushes| + if fate.end.Sent? || fate.end.Dropped? then 0 else 1
  }

  function Errors(fate: Fate): nat {
    match fate.end case Dropped => 1 case Unflattened(_, _) => 2 case _ => 0
  }

  function FragmentsSeen(fates: seq<Fate>, n: nat): nat
    requires n <= |fates|
  {
    if n == 0 then 0 else FragmentsSeen(fates, n - 1) + Fragmented(fates[n - 1])
  }

  function WholePackets(fates: seq<Fate>, n: nat): nat
    requires n <= |fates|
  {
    if n == 0 then 0 else WholePackets(fates, n - 1) + if fates[n - 1].end.Sent? then 1 else 0
  }

  function ErrorsSeen(fates: seq<Fate>, n: nat): nat
    requires n <= |fates|
  {
    if n == 0 then 0 else ErrorsSeen(fates, n - 1) + Errors(fates[n - 1])
  }

  lemma {:induction false} PushesCount(t: Totals, cfg: Config, rx: Port, f: Frame, pushes: seq<Frame>, n: nat)
    requires n <= |pushes| && |t.counters| == 4
    ensures var t' := AfterPushes(t, cfg, rx, f, pushes, n);
            && |t'.counters| == 4
            && CountersOf(t', rx) == CountersOf(t, rx).(fragsRx := CountersOf(t, rx).fragsRx + n)
            && forall p :: p != rx ==> CountersOf(t', p) == CountersOf(t, p)
  {
    hide Current, Pushed, CountersOf;
    if n > 0 {
      PushesCount(t, cfg, rx, f, pushes, n - 1);
      PushCounts(AfterPushes(t, cfg, rx, f, pushes, n - 1), cfg, rx, Current(cfg, f, pushes, n - 1), pushes[n - 1]);
    }
  }

  lemma PushCounts(t: Totals, cfg: Config, rx: Port, pkt: Frame, chained: Frame)
    requires |t.counters| == 4
    ensures var t' := Pushed(t, cfg, rx, pkt, chained);
            && |t'.counters| == 4
            && CountersOf(t', rx) == CountersOf(t, rx).(fragsRx := CountersOf(t, rx).fragsRx + 1)
            && forall p :: p != rx ==> CountersOf(t', p) == CountersOf(t, p)
  {
    hide Ids, FlatReleases;
  }

  lemma EndCounts(t: Totals, rx: Port, tx: Port, pkt: Frame, e: End)
    requires |t.counters| == 4
    ensures var t' := Ended(t, rx, tx, pkt, e); var c, d := CountersOf(t, rx), CountersOf(t', rx);
            && |t'.counters| == 4
            && d == c.(fragsRx := c.fragsRx + Fragmented(Fate([], e)), whole := c.whole + (if e.Sent? then 1 else 0),
                       err := c.err + Errors(Fate([], e)))
            && forall p :: p != rx ==> CountersOf(t', p) == CountersOf(t, p)
  {
    hide Ids, Repeat;
  }

  /** The counters of a port after a burst that was reassembled; the counters of fragmentation stay. */
  lemma {:induction false} ReassemblyIsCounted(t: Totals, cfg: Config, rx: Port, tx: Port, frames: seq<Frame>,
                                               fates: seq<Fate>, n: nat)
    requires n <= |fates| && n <= |frames| && |t.counters| == 4
    ensures var t' := BurstSettled(t, cfg, rx, tx, frames, fates, n); var c := CountersOf(t, rx);
            && |t'.counters| == 4
            && CountersOf(t', rx) == c.(fragsRx := c.fragsRx + FragmentsSeen(fates, n),
                                        whole := c.whole + WholePackets(fates, n), err := c.err + ErrorsSeen(fates, n))
            && forall p :: p != rx ==> CountersOf(t', p) == CountersOf(t, p)
  {
    hide AfterPushes, Current, Ended, CountersOf;
    if n > 0 {
      ReassemblyIsCounted(t, cfg, rx, tx, frames, fates, n - 1);
      var before, f, fate := BurstSettled(t, cfg, rx, tx, frames, fates, n - 1), frames[n - 1], fates[n - 1];
      PushesCount(before, cfg, rx, f, fate.pushes, |fate.pushes|);
      EndCounts(AfterPushes(before, cfg, rx, f, fate.pushes, |fate.pushes|), rx, tx,
                Current(cfg, f, fate.pushes, |fate.pushes|), fate.end);
    }
  }

  // ---------------------------------------------------------------- the modes

  /** In one turn on two ports, what arrives on one leaves on the other; only what comes from outside is reassembled. */
  lemma BidirSchedule(turn: nat)
    ensures Due(Bidir, 2 * turn) == Duty(Reassemble0, true, UnknownType) && Route(Bidir, Reassemble0) == Fragment0
    ensures Due(Bidir, 2 * turn + 1) == Duty(Fragment0, false, PlainPacket) && Route(Bidir, Fragment0) == Reassemble0
    ensures PerTurn(Bidir) == 2
  {}

  /** On four ports the first pair is reassembled towards the second, and the second fragmented towards the first. */
  lemma MultiportSchedule(turn: nat)
    ensures Due(Multiport, 4 * turn) == Duty(Reassemble0, true, Tunneled) && Route(Multiport, Reassemble0) == Reassemble1
    ensures Due(Multiport, 4 * turn + 1) == Duty(Fragment0, true, PlainPacket) && Route(Multiport, Fragment0) == Fragment1
    ensures Due(Multiport, 4 * turn + 2) == Duty(Reassemble1, false, PlainPacket)
            && Route(Multiport, Reassemble1) == Reassemble0
    ensures Due(Multiport, 4 * turn + 3) == Duty(Fragment1, false, PlainPacket) && Route(Multiport, Fragment1) == Fragment0
    ensures PerTurn(Multiport) == 4
  {}

  // ---------------------------------------------------------------- what comes in and what goes out

  /** How many buffers with this identity came in with the first `n` bursts. */
  function CameIn(history: seq<Phase>, n: nat, x: int): nat
    requires n <= |history|
  {
    if n == 0 then 0 else CameIn(history, n - 1, x) + RestIds(history[n - 1].frames, 0)[x]
  }

  lemma {:induction false} BurstKeepsReceived(t: Totals, rx: Port, tx: Port, frames: seq<Frame>, outcomes: seq<Outcome>,
                                              n: nat)
    requires n <= |outcomes| && n <= |frames|
    ensures BurstDealt(t, rx, tx, frames, outcomes, n).received == t.received
  {
    hide Ids, AllIds, Repeat;
    if n > 0 {
      BurstKeepsReceived(t, rx, tx, frames, outcomes, n - 1);
    }
  }

  lemma {:induction false} PushesKeepLog(t: Totals, cfg: Config, rx: Port, f: Frame, pushes: seq<Frame>, n: nat)
    requires n <= |pushes|
    ensures var t' := AfterPushes(t, cfg, rx, f, pushes, n);
            t'.received == t.received && t'.log == t.log && t'.intended == t.intended && t'.origin == t.origin
  {
    hide Current, Pushed;
    if n > 0 {
      PushesKeepLog(t, cfg, rx, f, pushes, n - 1);
      PushedKeepsLog(AfterPushes(t, cfg, rx, f, pushes, n - 1), cfg, rx, Current(cfg, f, pushes, n - 1), pushes[n - 1]);
    }
  }

  lemma PushedKeepsLog(t: Totals, cfg: Config, rx: Port, pkt: Frame, chained: Frame)
    ensures var t' := Pushed(t, cfg, rx, pkt, chained);
            t'.received == t.received && t'.log == t.log && t'.intended == t.intended && t'.origin == t.origin
  {}

  lemma SettledKeepsReceived(t: Totals, cfg: Config, rx: Port, tx: Port, f: Frame, fate: Fate)
    ensures Settled(t, cfg, rx, tx, f, fate).received == t.received
  {
    hide Ids, AfterPushes, Current, Repeat;
    PushesKeepLog(t, cfg, rx, f, fate.pushes, |fate.pushes|);
  }

  lemma {:induction false} SettlingKeepsReceived(t: Totals, cfg: Config, rx: Port, tx: Port, frames: seq<Frame>,
                                                 fates: seq<Fate>, n: nat)
    requires n <= |fates| && n <= |frames|
    ensures BurstSettled(t, cfg, rx, tx, frames, fates, n).received == t.received
  {
    hide Settled;
    if n > 0 {
      SettlingKeepsReceived(t, cfg, rx, tx, frames, fates, n - 1);
      SettledKeepsReceived(BurstSettled(t, cfg, rx, tx, frames, fates, n - 1), cfg, rx, tx, frames[n - 1], fates[n - 1]);
    }
  }

  lemma PhaseReceives(cfg: Config, t: Totals, p: Phase, x: int)
    requires PhaseOk(cfg, t, p)
    ensures PhaseDone(cfg, t, p).received[x] == t.received[x] + RestIds(p.frames, 0)[x]
  {
    hide BurstDealt, BurstSettled, AllFatesOk, AllExplained, RestIds;
    var arrived, tx := Arrived(t, p.frames), Route(cfg.mode, p.rx);
    if p.Fragmenting? {
      BurstKeepsReceived(arrived, p.rx, tx, p.frames, p.outcomes, |p.frames|);
    } else {
      FatesFit(cfg, arrived, p, tx);
      SettlingKeepsReceived(arrived, cfg, p.rx, tx, p.frames, p.fates, |p.fates|);
    }
  }

  /** What was received is the sum of the bursts. */
  lemma {:induction false} ReceivedIsSum(cfg: Config, history: seq<Phase>, n: nat, x: int)
    requires HistoryOk(cfg, history) && n <= |history|
    ensures After(cfg, history, n).received[x] == CameIn(history, n, x)
  {
    hide PhaseOk, PhaseDone, RestIds;
    if n > 0 {
      ReceivedIsSum(cfg, history, n - 1, x);
      PhaseReceives(cfg, After(cfg, history, n - 1), history[n - 1], x);
    }
  }

  /** What came in is the sum of the bursts, what was freed twice is known, and the account of the buffer balances. */
  ghost predicate Accounted(cfg: Config, history: seq<Phase>, t: Totals, x: int) {
    && t.received[x] == CameIn(history, |history|, x)
    && t.doubled[x] == HistoryTwice(cfg, history, |history|)[x]
    && Balanced(t, multiset{}, x)
  }

  lemma HistoryAccounted(cfg: Config, history: seq<Phase>, x: int)
    requires HistoryOk(cfg, history)
    ensures Accounted(cfg, history, After(cfg, history, |history|), x)
  {
    hide After, CameIn, HistoryTwice, Balanced;
    ReceivedIsSum(cfg, history, |history|, x);
    HistoryDoubles(cfg, history, |history|, x);
    HistoryBalance(cfg, history, |history|, x);
  }

  /** The ports whose packets are fragmented. */
  predicate Fragments(mode: Mode, rx: Port) {
    if mode == Bidir then rx == Fragment0 else rx == Reassemble1 || rx == Fragment1
  }

  /** Every queued packet is meant for the port it is routed to, and fits the MTU if it comes from fragmentation. */
  ghost predicate LogOk(cfg: Config, t: Totals) {
    && |t.log| == |t.intended| == |t.origin|
    && forall i :: 0 <= i < |t.log| ==>
         && t.intended[i] == Route(cfg.mode, t.origin[i])
         && (Fragments(cfg.mode, t.origin[i]) ==> Len(t.log[i]) <= cfg.mtu)
  }

  lemma QueuedLogOk(cfg: Config, t: Totals, rx: Port, fs: seq<Frame>)
    requires LogOk(cfg, t)
    requires Fragments(cfg.mode, rx) ==> forall i :: 0 <= i < |fs| ==> Len(fs[i]) <= cfg.mtu
    ensures LogOk(cfg, Queued(t, rx, Route(cfg.mode, rx), fs))
  {
    hide Len, Fragments, Route;
  }

  /** Only what a packet is replaced by, or the packet itself, is queued. */
  lemma DealtLogOk(cfg: Config, t: Totals, rx: Port, f: Frame, o: Outcome)
    requires LogOk(cfg, t) && Explains(cfg, f, o)
    ensures LogOk(cfg, Dealt(t, rx, Route(cfg.mode, rx), f, o))
  {
    hide LogOk, Len, Ids, AllIds, Parses, IsIpv4, Ihl, Queued;
    var c := CountersOf(t, rx);
    match o
    case Passed =>
      var counted := Counted(t, rx, c.(mtuFits := c.mtuFits + 1));
      SameLogOk(cfg, t, counted);
      QueuedLogOk(cfg, counted, rx, [f]);
    case Split(pieces) =>
      var replaced := t.(created := t.created + AllIds(pieces), freed := t.freed + Ids(f));
      var counted := Counted(replaced, rx, c.(mtuExceed := c.mtuExceed + 1, fragsGen := c.fragsGen + |pieces|));
      SameLogOk(cfg, t, counted);
      PiecesFit(pieces, f.head.bytes[..14], IsIpv4(f), cfg.hw, Ihl(f), cfg.mtu);
      QueuedLogOk(cfg, counted, rx, pieces);
    case Refused(parsed) =>
      SameLogOk(cfg, t, Dealt(t, rx, Route(cfg.mode, rx), f, o));
  }

  lemma PiecesFit(pieces: seq<Frame>, eth: seq<Byte>, ipv4: bool, hw: bool, ihl: nat, mtu: nat)
    requires ArePieces(pieces, eth, ipv4, hw, ihl, mtu)
    ensures forall i :: 0 <= i < |pieces| ==> Len(pieces[i]) <= mtu
  {
    forall i | 0 <= i < |pieces|
      ensures Len(pieces[i]) <= mtu
    {
      assert IsPiece(pieces[i], eth, ipv4, hw, ihl, mtu);
    }
  }

  lemma SameLogOk(cfg: Config, t: Totals, u: Totals)
    requires LogOk(cfg, t) && u.log == t.log && u.intended == t.intended && u.origin == t.origin
    ensures LogOk(cfg, u)
  {
    hide Len, Route, Fragments;
  }

  lemma SettledLogOk(cfg: Config, t: Totals, rx: Port, f: Frame, fate: Fate)
    requires LogOk(cfg, t) && !Fragments(cfg.mode, rx)
    ensures LogOk(cfg, Settled(t, cfg, rx, Route(cfg.mode, rx), f, fate))
  {
    hide LogOk, Len, Ids, AfterPushes, Current, Queued, Fragments, Route;
    var n := |fate.pushes|;
    PushesKeepLog(t, cfg, rx, f, fate.pushes, n);
    var pushed := AfterPushes(t, cfg, rx, f, fate.pushes, n);
    if fate.end.Sent? {
      var c := CountersOf(pushed, rx);
      var counted := Counted(pushed, rx, c.(whole := c.whole + 1));
      SameLogOk(cfg, t, counted);
      QueuedLogOk(cfg, counted, rx, [fate.end.frame]);
    } else {
      SameLogOk(cfg, t, Settled(t, cfg, rx, Route(cfg.mode, rx), f, fate));
    }
  }

  lemma {:induction false} BurstLogOk(cfg: Config, t: Totals, rx: Port, frames: seq<Frame>, outcomes: seq<Outcome>, n: nat)
    requires n <= |outcomes| && LogOk(cfg, t) && AllExplained(cfg, frames, outcomes)
    ensures LogOk(cfg, BurstDealt(t, rx, Route(cfg.mode, rx), frames, outcomes, n))
  {
    hide LogOk, Dealt, Explains, Route;
    if n > 0 {
      BurstLogOk(cfg, t, rx, frames, outcomes, n - 1);
      DealtLogOk(cfg, BurstDealt(t, rx, Route(cfg.mode, rx), frames, outcomes, n - 1), rx, frames[n - 1], outcomes[n - 1]);
    }
  }

  lemma {:induction false} SettlingLogOk(cfg: Config, t: Totals, rx: Port, frames: seq<Frame>, fates: seq<Fate>, n: nat)
    requires n <= |fates| && n <= |frames| && LogOk(cfg, t) && !Fragments(cfg.mode, rx)
    ensures LogOk(cfg, BurstSettled(t, cfg, rx, Route(cfg.mode, rx), frames, fates, n))
  {
    hide LogOk, Settled, Route, Fragments;
    if n > 0 {
      SettlingLogOk(cfg, t, rx, frames, fates, n - 1);
      SettledLogOk(cfg, BurstSettled(t, cfg, rx, Route(cfg.mode, rx), frames, fates, n - 1), rx, frames[n - 1], fates[n - 1]);
    }
  }

  lemma PhaseLogOk(cfg: Config, t: Totals, p: Phase, d: Duty)
    requires PhaseOk(cfg, t, p) && LogOk(cfg, t) && Serves(p, d) && d.reassembles != Fragments(cfg.mode, d.rx)
    ensures LogOk(cfg, PhaseDone(cfg, t, p))
  {
    hide LogOk, BurstDealt, BurstSettled, AllFatesOk, AllExplained, RestIds, Fragments;
    var arrived, tx := Arrived(t, p.frames), Route(cfg.mode, p.rx);
    SameLogOk(cfg, t, arrived);
    if p.Fragmenting? {
      BurstLogOk(cfg, arrived, p.rx, p.frames, p.outcomes, |p.frames|);
    } else {
      FatesFit(cfg, arrived, p, tx);
      SettlingLogOk(cfg, arrived, p.rx, p.frames, p.fates, |p.fates|);
      SameLogOk(cfg, BurstSettled(arrived, cfg, p.rx, tx, p.frames, p.fates, |p.fates|), PhaseDone(cfg, t, p));
    }
  }

  /** Over every history that keeps to the schedule, packets leave where they are routed to and fit the MTU. */
  lemma {:induction false} HistoryLogOk(cfg: Config, history: seq<Phase>, n: nat)
    requires HistoryOk(cfg, history) && OnSchedule(cfg.mode, history) && n <= |history|
    ensures LogOk(cfg, After(cfg, history, n))
  {
    hide LogOk, PhaseOk, PhaseDone, Serves;
    if n > 0 {
      HistoryLogOk(cfg, history, n - 1);
      assert Due(cfg.mode, n - 1).reassembles != Fragments(cfg.mode, Due(cfg.mode, n - 1).rx);
      PhaseLogOk(cfg, After(cfg, history, n - 1), history[n - 1], Due(cfg.mode, n - 1));
    } else {
      NothingLogOk(cfg);
    }
  }

  lemma NothingLogOk(cfg: Config)
    ensures LogOk(cfg, Nothing())
  {}

  /**
   A packet that is sent parses again exactly as it did, as a whole packet, if and only if the fix-up did not spoil the
   header it parses by.
   */
  lemma SentParsesAgain(f: Frame, kind: PacketType, ctx: TunCtx, hw: bool)
    requires Parsed(Padded(f), |f.head.bytes|, kind, ctx)
    ensures UdpAt(ctx) <= Len(f) || !kind.Tunneled?
    ensures var sent := FixFrame(f, kind, ctx, hw);
            && |sent.head.bytes| == |f.head.bytes|
            && (Parsed(Padded(sent), |sent.head.bytes|, kind, ctx)
                <==> !ParseSpoilt(Len(f), kind, ctx, f.innerModified))
  {
    hide Plain, Tunnel, Fixed, ParseSpoilt;
    var end := |f.head.bytes|;
    FixedKeepsParse(Padded(f), end, Len(f), kind, ctx, hw, f.innerModified, f.outerModified);
    var fixed := Fixed(Padded(f), end, Len(f), kind, ctx, hw, f.innerModified, f.outerModified);
    ParsersIgnoreSlack(fixed, Padded(FixFrame(f, kind, ctx, hw)), end);
  }

  // ---------------------------------------------------------------- how packets are sent

  /** Flattening keeps the marks. */
  lemma FlatKeepsMarks(cfg: Config, chained: Frame)
    ensures var flat := FlatOf(cfg, chained);
            flat.innerModified == chained.innerModified && flat.outerModified == chained.outerModified
  {}

  /** How a packet ended up in hand: as it arrived, or completed for its outer or for its inner header. */
  datatype Origin = AsArrived | ForOuter | ForInner

  ghost function OriginOf(cfg: Config, kind: PacketType, f: Frame, pushes: seq<Frame>): Origin {
    if pushes == [] then AsArrived
    else if OuterFragment(kind, Current(cfg, f, pushes, |pushes| - 1)) then ForOuter
    else ForInner
  }

  lemma PushMarks(cfg: Config, kind: PacketType, held: multiset<int>, pkt: Frame, chained: Frame)
    requires PushOk(cfg, kind, held, pkt, chained)
    ensures MarkedFor(OuterFragment(kind, pkt), pkt, chained)
  {
    hide ParseFrame, Completes, CanFlatten, MarkedFor, OuterFragment;
  }

  lemma MarksInHand(cfg: Config, kind: PacketType, t: Totals, rx: Port, f: Frame, pushes: seq<Frame>)
    requires PushesOk(cfg, kind, t, rx, f, pushes) && !f.innerModified && !f.outerModified
    ensures var pkt := Current(cfg, f, pushes, |pushes|);
            match OriginOf(cfg, kind, f, pushes)
            case AsArrived => !pkt.innerModified && !pkt.outerModified
            case ForOuter => pkt.outerModified
            case ForInner => pkt.innerModified
  {
    hide AfterPushes, OuterFragment, PushOk, FlatOf;
    if pushes != [] {
      var n := |pushes| - 1;
      PushMarks(cfg, kind, AfterPushes(t, cfg, rx, f, pushes, n).held, Current(cfg, f, pushes, n), pushes[n]);
      FlatKeepsMarks(cfg, pushes[n]);
    }
  }

  /** The bytes of the first buffer of a packet that is sent. */
  ghost predicate SentLengths(b: seq<Byte>, pktLen: nat, ctx: TunCtx, hw: bool)
    requires GtpAt(ctx) + 4 <= |b| && UdpAt(ctx) + 6 <= |b| && 20 <= |b| && UdpAt(ctx) <= pktLen && GtpAt(ctx) + 8 <= pktLen
  {
    && IpField(b, ctx) == IpLength(pktLen, ctx) % 65536 && Be16(b, UdpAt(ctx) + 4) == (pktLen - UdpAt(ctx)) % 65536
    && (!GtpLengthOverwritten(ctx, hw) ==> Be16(b, GtpAt(ctx) + 2) == (pktLen - GtpAt(ctx) - 8) % 65536)
  }

  lemma PrefixBe16(r: seq<Byte>, end: nat, at: nat)
    requires at + 2 <= end <= |r|
    ensures Be16(r[..end], at) == Be16(r, at)
  {}

  /**
   A tunnelled packet that is sent after its inner datagram was reassembled has new lengths: those of the packet as it
   is now, modulo 2^16, unless a checksum lands on the last of them.
   */
  lemma ReassembledLengthsNest(cfg: Config, kind: PacketType, t: Totals, rx: Port, f: Frame, fate: Fate)
    requires FateOk(cfg, kind, t, rx, f, fate) && !f.innerModified && !f.outerModified
    requires fate.end.Sent? && fate.end.kind.Tunneled? && OriginOf(cfg, kind, f, fate.pushes) == ForInner
    ensures var pkt, ctx, b := Current(cfg, f, fate.pushes, |fate.pushes|), fate.end.ctx, fate.end.frame.head.bytes;
            && GtpAt(ctx) + 4 <= |b| && UdpAt(ctx) + 6 <= |b| && 20 <= |b|
            && UdpAt(ctx) <= Len(pkt) && GtpAt(ctx) + 8 <= Len(pkt)
            && SentLengths(b, Len(pkt), ctx, cfg.hw)
  {
    hide Ids, AfterPushes, OuterFragment, Current, ParseFrame, Tunnel, Refitted, Plain, PushesOk, GtpField, HeaderWords, Be16;
    var pkt, ctx := Current(cfg, f, fate.pushes, |fate.pushes|), fate.end.ctx;
    MarksInHand(cfg, kind, t, rx, f, fate.pushes);
    var bytes, end := Padded(pkt), |pkt.head.bytes|;
    TunnelFits(bytes, end);
    var r := Refitted(bytes, end, Len(pkt), ctx, cfg.hw);
    RefitNestsLengths(bytes, end, Len(pkt), ctx, cfg.hw);
    if !GtpLengthOverwritten(ctx, cfg.hw) {
      GtpFieldIs(bytes, end, Len(pkt), ctx, cfg.hw);
    }
    PrefixBe16(r, end, GtpAt(ctx) + 2);
    PrefixBe16(r, end, UdpAt(ctx) + 4);
    PrefixBe16(r, end, if IsV4(ctx) then 16 else 18);
  }

  lemma GtpFieldIs(bytes: seq<Byte>, end: nat, pktLen: nat, ctx: TunCtx, hw: bool)
    requires Fits(bytes, end, ctx) && end <= pktLen && !GtpLengthOverwritten(ctx, hw)
    ensures GtpField(bytes, end, pktLen, ctx, hw) == (pktLen - GtpAt(ctx) - 8) % 65536
  {}

  /** A packet that needed no reassembly is sent as it arrived. */
  lemma WholePacketUnchanged(cfg: Config, kind: PacketType, t: Totals, rx: Port, f: Frame, fate: Fate)
    requires FateOk(cfg, kind, t, rx, f, fate) && !f.innerModified && !f.outerModified
    requires fate.end.Sent? && OriginOf(cfg, kind, f, fate.pushes) == AsArrived
    ensures fate.end.frame == f
  {
    hide Ids, ParseFrame, Tunnel, Plain, Refitted;
    var bytes, end := Padded(f), |f.head.bytes|;
    assert Fixed(bytes, end, Len(f), fate.end.kind, fate.end.ctx, cfg.hw, false, false) == bytes;
    assert bytes[..end] == f.head.bytes;
  }

  /** Only the checksum of the first IPv4 header is new, and it is valid if the header is long enough to hold it. */
  ghost predicate ChecksumRenewed(sent: seq<Byte>, was: seq<Byte>) {
    && |sent| == |was| && 34 <= |was| && 14 + 2 * HeaderWords(was, 14) <= |was|
    && (forall i :: 0 <= i < |was| && !(24 <= i < 26) ==> sent[i] == was[i])
    && Resummed(sent, was, 14)
  }

  lemma RenewedPrefix(sent: seq<Byte>, was: seq<Byte>, end: nat)
    requires ChecksumRenewed(sent, was) && 34 <= end <= |was| && 14 + 2 * HeaderWords(was, 14) <= end
    ensures ChecksumRenewed(sent[..end], was[..end])
  {
    hide Fold;
    var words := HeaderWords(was, 14);
    WordSumPrefix(sent[..end], sent, 14, words);
    WordSumPrefix(was[..end], was, 14, words);
  }

  lemma FixFrameRenews(pkt: Frame, kind: PacketType, ctx: TunCtx)
    requires Parsed(Padded(pkt), |pkt.head.bytes|, kind, ctx) && FirstIsV4(Padded(pkt))
    requires if kind.Tunneled? then pkt.outerModified && !pkt.innerModified else pkt.innerModified
    ensures ChecksumRenewed(FixFrame(pkt, kind, ctx, false).head.bytes, pkt.head.bytes)
  {
    hide Tunnel, Plain, Fixed, Resummed, HeaderWords;
    var bytes, end := Padded(pkt), |pkt.head.bytes|;
    FixedVerifies(bytes, end, Len(pkt), kind, ctx, false, pkt.innerModified, pkt.outerModified);
    RenewedPrefix(Fixed(bytes, end, Len(pkt), kind, ctx, false, pkt.innerModified, pkt.outerModified), bytes, end);
    assert bytes[..end] == pkt.head.bytes;
  }

  /**
   In software mode a plain packet that is sent after reassembly, and a tunnelled one reassembled by its outer header
   only, has its IPv4 checksum renewed, and is otherwise as the library completed it.
   */
  lemma ReassembledChecksum(cfg: Config, kind: PacketType, t: Totals, rx: Port, f: Frame, fate: Fate)
    requires FateOk(cfg, kind, t, rx, f, fate) && fate.end.Sent? && !cfg.hw
    requires var pkt := Current(cfg, f, fate.pushes, |fate.pushes|);
             && FirstIsV4(Padded(pkt))
             && if fate.end.kind.Tunneled? then pkt.outerModified && !pkt.innerModified else pkt.innerModified
    ensures var pkt := Current(cfg, f, fate.pushes, |fate.pushes|);
            && ChecksumRenewed(fate.end.frame.head.bytes, pkt.head.bytes)
            && fate.end.frame == pkt.(head := fate.end.frame.head) && fate.end.frame.head.id == pkt.head.id
  {
    hide Ids, AfterPushes, Current, ParseFrame, PushesOk, Parsed, ChecksumRenewed;
    FixFrameRenews(Current(cfg, f, fate.pushes, |fate.pushes|), fate.end.kind, fate.end.ctx);
  }

  /** Every packet of every burst of a history arrives unmarked and has a fate to which these laws apply. */
  lemma FatesOfHistory(cfg: Config, history: seq<Phase>, k: nat, i: nat) returns (t: Totals)
    requires HistoryOk(cfg, history) && k < |history| && history[k].Reassembling? && i < |history[k].fates|
    ensures var p := history[k];
            && |p.fates| <= |p.frames| && !p.frames[i].innerModified && !p.frames[i].outerModified
            && FateOk(cfg, p.kind, t, p.rx, p.frames[i], p.fates[i])
  {
    hide FateOk, BurstSettled, After;
    var p := history[k];
    var was := After(cfg, history, k);
    assert PhaseOk(cfg, was, p);
    t := BurstSettled(Arrived(was, p.frames), cfg, p.rx, Route(cfg.mode, p.rx), p.frames, p.fates, i);
  }
}
