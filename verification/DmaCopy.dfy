/** The messages that host and DPU exchange before and after a DMA copy, as they lie on the wire. */
module DmaWire {
  import opened Bytes

  type Message = seq<Byte>

  const MSG_DIRECTION: Byte := 1
  const MSG_EXPORT_DESCRIPTOR: Byte := 2
  const MSG_STATUS: Byte := 3

  /** sizeof of the message structs: the header fields are padded to eight bytes. */
  const DIRECTION_SIZE: nat := 16
  const EXPORT_HEADER_SIZE: nat := 24
  const STATUS_SIZE: nat := 8

  type UInt64 = n: int | 0 <= n < 0x1_0000_0000_0000_0000

  function Flag(b: bool): Byte {
    if b then 1 else 0
  }

  /** The enum is a little-endian 32-bit word; lengths, sizes and addresses pass through htonq. */
  function Direction(fileInHost: bool, fileSize: UInt64): (m: Message)
    ensures |m| == DIRECTION_SIZE
  {
    [MSG_DIRECTION, 0, 0, 0, Flag(fileInHost), 0, 0, 0] + BigEndian(fileSize, 8)
  }

  function Export(hostAddr: UInt64, descriptor: seq<Byte>): (m: Message)
    ensures |m| == EXPORT_HEADER_SIZE + |descriptor|
  {
    [MSG_EXPORT_DESCRIPTOR, 0, 0, 0, 0, 0, 0, 0] + BigEndian(hostAddr, 8) + BigEndian(|descriptor|, 8) + descriptor
  }

  function Status(ok: bool): (m: Message)
    ensures |m| == STATUS_SIZE
  {
    [MSG_STATUS, 0, 0, 0, Flag(ok), 0, 0, 0]
  }

  /** The message type, or 0 for a word that is none of the three. */
  function TypeOf(m: Message): Byte
    requires |m| >= 4
  {
    if m[1] == 0 && m[2] == 0 && m[3] == 0 then m[0] else 0
  }

  function FlagOf(m: Message): bool
    requires |m| > 4
  {
    m[4] != 0
  }

  function Quad(m: Message, at: nat): (v: UInt64)
    requires at + 8 <= |m|
  {
    FromBigEndianBound(m[at..at + 8]);
    Pow256Of8();
    FromBigEndian(m[at..at + 8])
  }

  lemma DirectionRoundTrip(fileInHost: bool, fileSize: UInt64)
    ensures var m := Direction(fileInHost, fileSize);
            TypeOf(m) == MSG_DIRECTION && FlagOf(m) == fileInHost && Quad(m, 8) == fileSize
  {
    Pow256Of8();
    BigEndianRoundTrip(fileSize, 8);
    assert Direction(fileInHost, fileSize)[8..16] == BigEndian(fileSize, 8);
  }

  /** `beyond` is whatever follows the message in the receive buffer. */
  lemma ExportRoundTrip(hostAddr: UInt64, descriptor: seq<Byte>, beyond: seq<Byte>)
    requires |descriptor| < 0x1_0000_0000_0000_0000
    ensures var m := Export(hostAddr, descriptor);
            && TypeOf(m) == MSG_EXPORT_DESCRIPTOR
            && Quad(m, 8) == hostAddr && Quad(m, 16) == |descriptor|
            && (m + beyond)[EXPORT_HEADER_SIZE..EXPORT_HEADER_SIZE + |descriptor|] == descriptor
  {
    Pow256Of8();
    BigEndianRoundTrip(hostAddr, 8);
    BigEndianRoundTrip(|descriptor|, 8);
    var m := Export(hostAddr, descriptor);
    assert m[8..16] == BigEndian(hostAddr, 8);
    assert m[16..24] == BigEndian(|descriptor|, 8);
  }

  lemma StatusRoundTrip(ok: bool)
    ensures TypeOf(Status(ok)) == MSG_STATUS && FlagOf(Status(ok)) == ok
  {}
}

/** How either end reacts to a message: the specification, and the callbacks that update the configuration in place. */
module DmaEndpoints {
  import opened Bytes
  import opened Wrappers
  import opened DmaWire

  datatype Phase = Negotiating | Complete | Error

  /** Host configuration. `descriptor` is what doca_mmap_export_pci yields for the file buffer. */
  datatype Host = Host(found: bool, fileSize: UInt64, buffer: UInt64, descriptor: seq<Byte>, maxMsg: nat, phase: Phase)

  /** DPU configuration. */
  datatype Dpu = Dpu(found: bool, fileSize: UInt64, maxDma: UInt64, hostAddr: UInt64, descriptor: seq<Byte>,
                     phase: Phase)

  /** What the SDK calls made from the host callback return: allocation, export and sends may each fail. */
  datatype HostEnv = HostEnv(buffer: Option<UInt64>, descriptor: Option<seq<Byte>>, exportSent: bool, statusSent: bool)

  /** The same for the DPU callback; `beyond` follows the message in the receive buffer. */
  datatype DpuEnv = DpuEnv(replySent: bool, statusSent: bool, descriptorStored: bool, beyond: seq<Byte>)

  /** `rejected` tells that the callback took one of its failure exits. */
  datatype Reaction<T> = Reaction(next: T, sent: seq<Message>, rejected: bool)

  function FailureNotice(sent: bool): seq<Message> {
    if sent then [Status(false)] else []
  }

  function HostRejects(h: Host, env: HostEnv): Reaction<Host> {
    Reaction(h.(phase := Error), FailureNotice(env.statusSent), true)
  }

  function HostOnDirection(h: Host, fileSize: UInt64, env: HostEnv): Reaction<Host> {
    var sized := if h.found then h else h.(fileSize := fileSize);
    if !h.found && env.buffer.None? then HostRejects(sized, env) else
    var ready := if h.found then sized else sized.(buffer := env.buffer.value);
    if env.descriptor.None? then HostRejects(ready, env) else
    var exported := ready.(descriptor := env.descriptor.value);
    if |exported.descriptor| + EXPORT_HEADER_SIZE > h.maxMsg || !env.exportSent then HostRejects(exported, env)
    else Reaction(exported, [Export(exported.buffer, exported.descriptor)], false)
  }

  function HostReact(h: Host, m: Message, env: HostEnv): Reaction<Host> {
    if |m| < 4 then HostRejects(h, env)
    else if TypeOf(m) == MSG_DIRECTION && |m| == DIRECTION_SIZE then HostOnDirection(h, Quad(m, 8), env)
    else if TypeOf(m) == MSG_STATUS && |m| == STATUS_SIZE then
      Reaction(h.(phase := if FlagOf(m) then Complete else Error), [], false)
    else HostRejects(h, env)
  }

  function DpuRejects(d: Dpu, env: DpuEnv): Reaction<Dpu> {
    Reaction(d.(phase := Error), FailureNotice(env.statusSent), true)
  }

  function DpuOnDirection(d: Dpu, fileInHost: bool, fileSize: UInt64, env: DpuEnv): Reaction<Dpu> {
    if d.found == fileInHost then DpuRejects(d, env) else
    var sized := if d.found then d else d.(fileSize := fileSize);
    if sized.fileSize > d.maxDma || !env.replySent then DpuRejects(sized, env)
    else Reaction(sized, [if d.found then Direction(false, sized.fileSize) else Direction(true, 0)], false)
  }

  function DpuOnExport(d: Dpu, m: Message, env: DpuEnv): Reaction<Dpu>
    requires |m| > EXPORT_HEADER_SIZE && |env.beyond| >= EXPORT_HEADER_SIZE
  {
    var length := Quad(m, 16);
    if length > |m| || !env.descriptorStored then DpuRejects(d, env)
    else Reaction(d.(descriptor := (m + env.beyond)[EXPORT_HEADER_SIZE..EXPORT_HEADER_SIZE + length],
                     hostAddr := Quad(m, 8), phase := Complete), [], false)
  }

  /**
   The check of the declared length leaves the header out of account. Whether the stored descriptor is part of the
   message, whatever lies behind it in the receive buffer, is decided by the length that remains after the header.
   */
  lemma DescriptorInside(d: Dpu, m: Message, env: DpuEnv)
    requires |m| > EXPORT_HEADER_SIZE && Quad(m, 16) <= |m| && env.descriptorStored
    ensures IgnoresBeyond(d, m, env) <==> Quad(m, 16) <= |m| - EXPORT_HEADER_SIZE
    ensures Quad(m, 16) <= |m| - EXPORT_HEADER_SIZE && |env.beyond| >= EXPORT_HEADER_SIZE ==>
              DpuOnExport(d, m, env).next.descriptor == m[EXPORT_HEADER_SIZE..EXPORT_HEADER_SIZE + Quad(m, 16)]
  {
    hide Quad;
    var length := Quad(m, 16);
    if length <= |m| - EXPORT_HEADER_SIZE {
      forall beyond: seq<Byte>
        ensures (m + beyond)[EXPORT_HEADER_SIZE..EXPORT_HEADER_SIZE + length]
             == m[EXPORT_HEADER_SIZE..EXPORT_HEADER_SIZE + length]
      {}
    } else {
      var zeros, ones := seq(EXPORT_HEADER_SIZE, _ => 0), seq(EXPORT_HEADER_SIZE, _ => 1);
      var a, b := DpuOnExport(d, m, env.(beyond := zeros)), DpuOnExport(d, m, env.(beyond := ones));
      var last := length - 1;
      assert a.next.descriptor[last] == 0 && b.next.descriptor[last] == 1;
    }
  }

  /** What is stored does not depend on the memory behind the message. */
  ghost predicate IgnoresBeyond(d: Dpu, m: Message, env: DpuEnv)
    requires |m| > EXPORT_HEADER_SIZE
  {
    forall a: seq<Byte>, b: seq<Byte> :: |a| >= EXPORT_HEADER_SIZE && |b| >= EXPORT_HEADER_SIZE ==>
      DpuOnExport(d, m, env.(beyond := a)) == DpuOnExport(d, m, env.(beyond := b))
  }

  /** A message of 25 bytes that declares two bytes of descriptor: the second is taken from behind the message. */
  lemma DescriptorOutsideWitness(d: Dpu, env: DpuEnv)
    requires env.descriptorStored
    ensures var m: Message := [MSG_EXPORT_DESCRIPTOR] + seq(22, _ => 0) + [2, 7];
            !IgnoresBeyond(d, m, env)
  {
    var m: Message := [MSG_EXPORT_DESCRIPTOR] + seq(22, _ => 0) + [2, 7];
    assert m[16..24] == BigEndian(2, 8) by {
      TwoInBytes();
    }
    Pow256Of8();
    BigEndianRoundTrip(2, 8);
    DescriptorInside(d, m, env);
  }

  lemma TwoInBytes()
    ensures BigEndian(2, 8) == [0, 0, 0, 0, 0, 0, 0, 2]
  {
    assert BigEndian(0, 1) == [0];
    assert BigEndian(0, 3) == [0, 0, 0];
    assert BigEndian(0, 5) == [0, 0, 0, 0, 0];
    assert BigEndian(0, 7) == [0, 0, 0, 0, 0, 0, 0];
  }

  function DpuReact(d: Dpu, m: Message, env: DpuEnv): Reaction<Dpu>
    requires |env.beyond| >= EXPORT_HEADER_SIZE
  {
    if |m| < 4 then DpuRejects(d, env)
    else if TypeOf(m) == MSG_DIRECTION && |m| == DIRECTION_SIZE then DpuOnDirection(d, FlagOf(m), Quad(m, 8), env)
    else if TypeOf(m) == MSG_EXPORT_DESCRIPTOR && |m| > EXPORT_HEADER_SIZE then DpuOnExport(d, m, env)
    else if TypeOf(m) == MSG_STATUS && |m| == STATUS_SIZE then
      Reaction(if FlagOf(m) then d else d.(phase := Error), [], false)
    else DpuRejects(d, env)
  }

  // ---------------------------------------------------------------- by the bytes

  ghost predicate IsDirection(m: Message) {
    |m| == 16 && m[..4] == [1, 0, 0, 0]
  }

  ghost predicate IsStatus(m: Message) {
    |m| == 8 && m[..4] == [3, 0, 0, 0]
  }

  ghost predicate IsExport(m: Message) {
    |m| > 24 && m[..4] == [2, 0, 0, 0]
  }

  lemma TypeByBytes(m: Message, t: Byte)
    requires |m| >= 4 && t > 0
    ensures TypeOf(m) == t <==> m[..4] == [t, 0, 0, 0]
  {
    assert m[..4] == [m[0], m[1], m[2], m[3]];
  }

  /** Whether the host can answer a direction message: it has or gets a buffer, and its export can be made and sent. */
  predicate HostCanExport(h: Host, env: HostEnv) {
    && (h.found || env.buffer.Some?) && env.descriptor.Some? && |env.descriptor.value| + 24 <= h.maxMsg
    && env.exportSent
  }

  /** What the host does with the bytes of any message: it takes two kinds, and everything else is a failure exit. */
  lemma HostByBytes(h: Host, m: Message, env: HostEnv)
    ensures var r := HostReact(h, m, env);
            && (r.rejected <==> !IsStatus(m) && !(IsDirection(m) && HostCanExport(h, env)))
            && (r.rejected ==> r.next.phase.Error? && r.sent == if env.statusSent then [Status(false)] else [])
            && (IsStatus(m) ==> r.next == h.(phase := if m[4] == 0 then Error else Complete) && r.sent == [])
            && (IsDirection(m) && HostCanExport(h, env) ==>
                  var size := if h.found then h.fileSize else FromBigEndian(m[8..16]);
                  var buffer := if h.found then h.buffer else env.buffer.value;
                  && r.next == h.(fileSize := size, buffer := buffer, descriptor := env.descriptor.value)
                  && r.sent == [Export(buffer, env.descriptor.value)])
  {
    hide FromBigEndian;
    if |m| >= 4 {
      TypeByBytes(m, MSG_DIRECTION);
      TypeByBytes(m, MSG_STATUS);
    }
  }

  /** Exactly one side has the file, it is not too long for the DMA engine, and the answer can be sent. */
  predicate DpuCanAgree(d: Dpu, fileInHost: bool, size: nat, env: DpuEnv) {
    d.found != fileInHost && (if d.found then d.fileSize else size) <= d.maxDma && env.replySent
  }

  /** The same for the DPU, which takes three kinds of messages. */
  lemma DpuByBytes(d: Dpu, m: Message, env: DpuEnv)
    requires |env.beyond| >= EXPORT_HEADER_SIZE
    ensures var r := DpuReact(d, m, env);
            var agrees := IsDirection(m) && DpuCanAgree(d, m[4] != 0, FromBigEndian(m[8..16]), env);
            var stores := IsExport(m) && FromBigEndian(m[16..24]) <= |m| && env.descriptorStored;
            && (r.rejected <==> !IsStatus(m) && !agrees && !stores)
            && (r.rejected ==> r.next.phase.Error? && r.sent == if env.statusSent then [Status(false)] else [])
            && (IsStatus(m) ==> r.next == (if m[4] == 0 then d.(phase := Error) else d) && r.sent == [])
            && (agrees ==>
                  && r.next == (if d.found then d else d.(fileSize := FromBigEndian(m[8..16])))
                  && r.sent == [if d.found then Direction(false, d.fileSize) else Direction(true, 0)])
            && (stores ==>
                  && r.next.phase.Complete? && r.next.hostAddr == FromBigEndian(m[8..16])
                  && r.next.descriptor == (m + env.beyond)[24..24 + FromBigEndian(m[16..24])] && r.sent == [])
  {
    hide FromBigEndian;
    if |m| >= 4 {
      TypeByBytes(m, MSG_DIRECTION);
      TypeByBytes(m, MSG_STATUS);
      TypeByBytes(m, MSG_EXPORT_DESCRIPTOR);
    }
  }

  // ---------------------------------------------------------------- the callbacks

  class HostEndpoint {
    var found: bool
    var fileSize: UInt64
    var fileBuffer: UInt64
    var descriptor: seq<Byte>
    var maxMsg: nat
    var phase: Phase
    var sent: seq<Message>

    function State(): Host
      reads this
    {
      Host(found, fileSize, fileBuffer, descriptor, maxMsg, phase)
    }

    method SendStatus(ok: bool, delivered: bool)
      modifies this`sent
      ensures sent == old(sent) + if delivered then [Status(ok)] else []
    {
      if delivered {
        sent := sent + [Status(ok)];
      }
    }

    /** host_process_dma_direction_and_size */
    method ProcessDirection(size: UInt64, env: HostEnv) returns (ok: bool)
      modifies this
      ensures maxMsg == old(maxMsg) && phase == old(phase) && found == old(found)
      ensures old(sent) <= sent && (!ok ==> sent == old(sent))
      ensures ok ==> Reaction(State(), sent[|old(sent)|..], false) == HostOnDirection(old(State()), size, env)
      ensures !ok ==> HostRejects(State(), env) == HostOnDirection(old(State()), size, env)
    {
      if !found {
        fileSize := size;
        if env.buffer.None? {
          return false;
        }
        fileBuffer := env.buffer.value;
      }
      if env.descriptor.None? {
        return false;
      }
      descriptor := env.descriptor.value;
      if |descriptor| + EXPORT_HEADER_SIZE > maxMsg {
        return false;
      }
      if !env.exportSent {
        return false;
      }
      sent := sent + [Export(fileBuffer, descriptor)];
      return true;
    }

    /** host_recv_event_cb */
    method RecvEvent(m: Message, env: HostEnv)
      modifies this
      ensures old(sent) <= sent
      ensures var r := HostReact(old(State()), m, env); State() == r.next && sent == old(sent) + r.sent
    {
      if |m| < 4 {
        SendStatus(false, env.statusSent);
        phase := Error;
        return;
      }
      if TypeOf(m) == MSG_DIRECTION {
        if |m| != DIRECTION_SIZE {
          SendStatus(false, env.statusSent);
          phase := Error;
          return;
        }
        var ok := ProcessDirection(Quad(m, 8), env);
        if !ok {
          SendStatus(false, env.statusSent);
          phase := Error;
        }
      } else if TypeOf(m) == MSG_STATUS {
        if |m| != STATUS_SIZE {
          SendStatus(false, env.statusSent);
          phase := Error;
          return;
        }
        phase := if FlagOf(m) then Complete else Error;
      } else {
        SendStatus(false, env.statusSent);
        phase := Error;
      }
    }
  }

  class DpuEndpoint {
    var found: bool
    var fileSize: UInt64
    var maxDma: UInt64
    var hostAddr: UInt64
    var exportedMmap: seq<Byte>
    var phase: Phase
    var sent: seq<Message>

    function State(): Dpu
      reads this
    {
      Dpu(found, fileSize, maxDma, hostAddr, exportedMmap, phase)
    }

    method SendStatus(ok: bool, delivered: bool)
      modifies this`sent
      ensures sent == old(sent) + if delivered then [Status(ok)] else []
    {
      if delivered {
        sent := sent + [Status(ok)];
      }
    }

    /** dpu_process_dma_direction_and_size */
    method ProcessDirection(fileInHost: bool, size: UInt64, env: DpuEnv) returns (ok: bool)
      modifies this
      ensures old(sent) <= sent && (!ok ==> sent == old(sent))
      ensures ok ==> Reaction(State(), sent[|old(sent)|..], false) == DpuOnDirection(old(State()), fileInHost, size, env)
      ensures !ok ==> DpuRejects(State(), env) == DpuOnDirection(old(State()), fileInHost, size, env)
    {
      if found && fileInHost {
        return false;
      } else if !found {
        if !fileInHost {
          return false;
        }
        fileSize := size;
      }
      if fileSize > maxDma {
        return false;
      }
      if !env.replySent {
        return false;
      }
      sent := sent + [if found then Direction(false, fileSize) else Direction(true, 0)];
      return true;
    }

    /** dpu_recv_event_cb */
    method RecvEvent(m: Message, env: DpuEnv)
      requires |env.beyond| >= EXPORT_HEADER_SIZE
      modifies this
      ensures old(sent) <= sent
      ensures var r := DpuReact(old(State()), m, env); State() == r.next && sent == old(sent) + r.sent
    {
      var ok := true;
      if |m| < 4 {
        ok := false;
      } else if TypeOf(m) == MSG_DIRECTION {
        if |m| != DIRECTION_SIZE {
          ok := false;
        } else {
          ok := ProcessDirection(FlagOf(m), Quad(m, 8), env);
        }
      } else if TypeOf(m) == MSG_EXPORT_DESCRIPTOR {
        if |m| <= EXPORT_HEADER_SIZE || Quad(m, 16) > |m| || !env.descriptorStored {
          ok := false;
        } else {
          exportedMmap := (m + env.beyond)[EXPORT_HEADER_SIZE..EXPORT_HEADER_SIZE + Quad(m, 16)];
          hostAddr := Quad(m, 8);
          phase := Complete;
        }
      } else if TypeOf(m) == MSG_STATUS {
        if |m| != STATUS_SIZE {
          ok := false;
        } else if !FlagOf(m) {
          phase := Error;
        }
      } else {
        ok := false;
      }
      if !ok {
        SendStatus(false, env.statusSent);
        phase := Error;
      }
    }
  }
}

/** Host and DPU side by side, joined by a FIFO channel in each direction. */
module DmaSystem {
  import opened Bytes
  import opened Wrappers
  import opened DmaWire
  import opened DmaEndpoints

  /** Where host_start_dma_copy stands. */
  datatype HostRun = NotStarted | Waiting | Returned(ok: bool)

  /** Where dpu_start_dma_copy stands; `Copied` records the DMA task that completed. */
  datatype DpuRun = Polling | Stopped | Abandoned | Copied(bytes: UInt64, fromHost: bool) | CopyFailed

  datatype System = System(
    host: Host, hostRun: HostRun,
    dpu: Dpu, dpuRun: DpuRun,
    toDpu: seq<Message>, toHost: seq<Message>,
    rejected: bool)

  ghost predicate Init(s: System) {
    && s.host.phase.Negotiating? && s.host.maxMsg < 0x1_0000_0000
    && s.dpu.phase.Negotiating?
    && s.hostRun.NotStarted? && s.dpuRun.Polling?
    && s.toDpu == [] && s.toHost == [] && !s.rejected
  }

  /** send_file_direction_request: the size is announced only by the side that has the file. */
  function Request(h: Host): Message {
    Direction(h.found, if h.found then h.fileSize else 0)
  }

  datatype Action =
    /** The host allocates its buffer if it has the file, and sends the request; any of it may fail. */
    | HostStarts(buffer: UInt64, sent: bool)
    | HostReceives(henv: HostEnv)
    /** The wait loop ends; the connection may have dropped, and writing the received file may fail. */
    | HostReturns(stored: bool)
    | DpuReceives(denv: DpuEnv)
    /** The wait loop ends on an error or because the connection dropped. */
    | DpuStops
    /** The exits that tell the host nothing. */
    | DpuAbandons
    | DpuCopies(ok: bool, statusSent: bool)

  predicate Enabled(s: System, a: Action) {
    match a
    case HostStarts(_, _) => s.hostRun.NotStarted?
    case HostReceives(_) => s.hostRun.Waiting? && s.toHost != []
    case HostReturns(_) => s.hostRun.Waiting?
    case DpuReceives(env) => s.dpuRun.Polling? && s.toDpu != [] && |env.beyond| >= EXPORT_HEADER_SIZE
    case DpuStops => s.dpuRun.Polling? && !s.dpu.phase.Complete?
    case DpuAbandons => s.dpuRun.Polling? && s.dpu.phase.Complete?
    case DpuCopies(_, _) => s.dpuRun.Polling? && s.dpu.phase.Complete?
  }

  function Next(s: System, a: Action): System
    requires Enabled(s, a)
  {
    match a
    case HostStarts(buffer, sent) =>
      if sent then
        s.(host := s.host.(buffer := if s.host.found then buffer else s.host.buffer),
           hostRun := Waiting, toDpu := s.toDpu + [Request(s.host)])
      else s.(hostRun := Returned(false))
    case HostReceives(env) =>
      var r := HostReact(s.host, s.toHost[0], env);
      s.(host := r.next, toHost := s.toHost[1..], toDpu := s.toDpu + r.sent, rejected := s.rejected || r.rejected)
    case HostReturns(stored) =>
      s.(hostRun := Returned(s.host.phase.Complete? && (s.host.found || stored)))
    case DpuReceives(env) =>
      var r := DpuReact(s.dpu, s.toDpu[0], env);
      s.(dpu := r.next, toDpu := s.toDpu[1..], toHost := s.toHost + r.sent, rejected := s.rejected || r.rejected)
    case DpuStops => s.(dpuRun := Stopped)
    case DpuAbandons => s.(dpuRun := Abandoned)
    case DpuCopies(ok, statusSent) =>
      s.(dpuRun := if ok then Copied(s.dpu.fileSize, !s.dpu.found) else CopyFailed,
         toHost := s.toHost + if statusSent then [Status(ok)] else [])
  }

  // ---------------------------------------------------------------- the invariant

  /** The side that has the file announces its size and keeps it; nobody forgets whether it has the file. */
  ghost predicate Owners(s0: System, s: System) {
    && s.host.found == s0.host.found && s.dpu.found == s0.dpu.found
    && s.host.maxMsg == s0.host.maxMsg < 0x1_0000_0000 && s.dpu.maxDma == s0.dpu.maxDma
    && (s.host.found ==> s.host.fileSize == s0.host.fileSize)
    && (s.dpu.found ==> s.dpu.fileSize == s0.dpu.fileSize)
  }

  /** The DPU has accepted the request. */
  ghost predicate Accepted(s: System) {
    && s.host.found != s.dpu.found
    && s.dpu.fileSize <= s.dpu.maxDma
    && (s.host.found ==> s.dpu.fileSize == s.host.fileSize)
  }

  /** Both sides hold the same size and the DPU has, or will be told, where the host's buffer is. */
  ghost predicate Agreed(s: System) {
    && Accepted(s) && s.host.fileSize == s.dpu.fileSize
  }

  ghost predicate Notice(q: seq<Message>) {
    q == [] || q == [Status(false)]
  }

  /** Nothing has happened yet. */
  ghost predicate Idle(s: System) {
    && !s.hostRun.Waiting? && s.host.phase.Negotiating? && s.dpu.phase.Negotiating?
    && s.toDpu == [] && s.toHost == [] && !s.rejected
  }

  ghost predicate Requested(s: System) {
    && s.host.phase.Negotiating? && s.dpu.phase.Negotiating?
    && s.toDpu == [Request(s.host)] && s.toHost == [] && !s.rejected
  }

  ghost predicate Answered(s: System) {
    && s.host.phase.Negotiating? && s.dpu.phase.Negotiating? && Accepted(s)
    && s.toDpu == [] && !s.rejected
    && s.toHost == [if s.dpu.found then Direction(false, s.dpu.fileSize) else Direction(true, 0)]
  }

  ghost predicate Exported(s: System) {
    && s.host.phase.Negotiating? && s.dpu.phase.Negotiating? && Agreed(s)
    && |s.host.descriptor| + EXPORT_HEADER_SIZE <= s.host.maxMsg
    && s.toDpu == [Export(s.host.buffer, s.host.descriptor)] && s.toHost == [] && !s.rejected
  }

  ghost predicate HostRejected(s: System) {
    && s.host.phase.Error? && !s.dpu.phase.Complete? && Notice(s.toDpu) && s.toHost == [] && s.rejected
  }

  ghost predicate DpuRejected(s: System) {
    && !s.host.phase.Complete? && s.dpu.phase.Error? && Notice(s.toHost) && s.toDpu == [] && s.rejected
  }

  ghost predicate Ready(s: System) {
    && s.dpu.phase.Complete? && Agreed(s) && s.toDpu == [] && !s.rejected
    && s.dpu.hostAddr == s.host.buffer && s.dpu.descriptor == s.host.descriptor
    && (s.dpuRun.Polling? || s.dpuRun.Abandoned? ==> s.host.phase.Negotiating? && s.toHost == [])
    && (s.dpuRun.CopyFailed? ==> !s.host.phase.Complete? && Notice(s.toHost))
    && (s.dpuRun.Copied? ==>
          && s.dpuRun == Copied(s.dpu.fileSize, !s.dpu.found)
          && (s.toHost == [] || (s.toHost == [Status(true)] && s.host.phase.Negotiating?)))
    && !s.dpuRun.Stopped?
  }

  ghost predicate Inv(s0: System, s: System) {
    && Owners(s0, s)
    && (Idle(s) || Requested(s) || Answered(s) || Exported(s) || HostRejected(s) || DpuRejected(s) || Ready(s))
    && (!s.dpu.phase.Complete? ==> s.dpuRun.Polling? || s.dpuRun.Stopped?)
    && (s.hostRun == Returned(true) ==> s.host.phase.Complete?)
    && (s.hostRun.NotStarted? ==> Idle(s))
  }

  // ---------------------------------------------------------------- how honest messages are understood

  lemma HostUnderstands(h: Host, fileInHost: bool, fileSize: UInt64, ok: bool, env: HostEnv)
    ensures HostReact(h, Direction(fileInHost, fileSize), env) == HostOnDirection(h, fileSize, env)
    ensures HostReact(h, Status(ok), env) == Reaction(h.(phase := if ok then Complete else Error), [], false)
  {
    DirectionRoundTrip(fileInHost, fileSize);
    StatusRoundTrip(ok);
  }

  lemma DpuUnderstands(d: Dpu, fileInHost: bool, fileSize: UInt64, env: DpuEnv)
    requires |env.beyond| >= EXPORT_HEADER_SIZE
    ensures DpuReact(d, Direction(fileInHost, fileSize), env) == DpuOnDirection(d, fileInHost, fileSize, env)
    ensures DpuReact(d, Status(false), env) == Reaction(d.(phase := Error), [], false)
  {
    DirectionRoundTrip(fileInHost, fileSize);
    StatusRoundTrip(false);
  }

  lemma DpuUnderstandsExport(d: Dpu, buffer: UInt64, descriptor: seq<Byte>, env: DpuEnv)
    requires |env.beyond| >= EXPORT_HEADER_SIZE && |descriptor| < 0x1_0000_0000
    ensures DpuReact(d, Export(buffer, descriptor), env)
         == if descriptor == [] || !env.descriptorStored then DpuRejects(d, env)
            else Reaction(d.(descriptor := descriptor, hostAddr := buffer, phase := Complete), [], false)
  {
    ExportRoundTrip(buffer, descriptor, env.beyond);
  }

  // ---------------------------------------------------------------- every action keeps the invariant

  lemma StatusesDiffer()
    ensures Status(true) != Status(false)
  {
    assert Status(true)[4] != Status(false)[4];
  }

  lemma HostReceivesKeeps(s0: System, s: System, env: HostEnv)
    requires Inv(s0, s) && Enabled(s, HostReceives(env))
    ensures Inv(s0, Next(s, HostReceives(env)))
  {
    hide HostReact, Direction, Export, Status, Request;
    StatusesDiffer();
    var m := s.toHost[0];
    if Answered(s) {
      var size: UInt64 := if s.dpu.found then s.dpu.fileSize else 0;
      HostUnderstands(s.host, !s.dpu.found, size, false, env);
    } else if m == Status(true) {
      HostUnderstands(s.host, false, 0, true, env);
    } else {
      HostUnderstands(s.host, false, 0, false, env);
    }
  }

  lemma DpuReceivesKeeps(s0: System, s: System, env: DpuEnv)
    requires Inv(s0, s) && Enabled(s, DpuReceives(env))
    ensures Inv(s0, Next(s, DpuReceives(env)))
  {
    hide DpuReact, Direction, Export, Status;
    if Requested(s) {
      DpuUnderstands(s.dpu, s.host.found, if s.host.found then s.host.fileSize else 0, env);
    } else if Exported(s) {
      DpuUnderstandsExport(s.dpu, s.host.buffer, s.host.descriptor, env);
    } else {
      DpuUnderstands(s.dpu, false, 0, env);
    }
  }

  lemma ActionKeeps(s0: System, s: System, a: Action)
    requires Inv(s0, s) && Enabled(s, a)
    ensures Inv(s0, Next(s, a))
  {
    match a
    case HostReceives(env) => HostReceivesKeeps(s0, s, env);
    case DpuReceives(env) => DpuReceivesKeeps(s0, s, env);
    case _ =>
  }

  /** A run: every state follows from the one before by an enabled action. */
  ghost predicate Run(states: seq<System>, actions: seq<Action>) {
    && |states| == |actions| + 1 && Init(states[0])
    && forall i :: 0 <= i < |actions| ==> Enabled(states[i], actions[i]) && states[i + 1] == Next(states[i], actions[i])
  }

  lemma {:induction false} RunKeeps(states: seq<System>, actions: seq<Action>, n: nat)
    requires Run(states, actions) && n < |states|
    ensures Inv(states[0], states[n])
  {
    if n > 0 {
      RunKeeps(states, actions, n - 1);
      ActionKeeps(states[0], states[n - 1], actions[n - 1]);
    }
  }

  // ---------------------------------------------------------------- the theorems

  /** The size of the file, as the side that has it knew it before the run. */
  function AgreedSize(s0: System): UInt64 {
    if s0.host.found then s0.host.fileSize else s0.dpu.fileSize
  }

  /** When the DPU's negotiation completes, both ends hold the same facts. */
  lemma NegotiationAgrees(states: seq<System>, actions: seq<Action>, n: nat)
    requires Run(states, actions) && n < |states| && states[n].dpu.phase.Complete?
    ensures var s0, s := states[0], states[n];
            && s0.host.found != s0.dpu.found
            && s.host.fileSize == s.dpu.fileSize == AgreedSize(s0) <= s0.dpu.maxDma
            && s.dpu.hostAddr == s.host.buffer && s.dpu.descriptor == s.host.descriptor
  {
    RunKeeps(states, actions, n);
  }

  /** The host reports success only for a DMA task that copied the whole file in the right direction. */
  lemma SuccessMeansCopied(states: seq<System>, actions: seq<Action>, n: nat)
    requires Run(states, actions) && n < |states|
    requires states[n].hostRun == Returned(true) || states[n].host.phase.Complete?
    ensures states[0].host.found != states[0].dpu.found
    ensures states[n].dpuRun == Copied(AgreedSize(states[0]), states[0].host.found)
  {
    RunKeeps(states, actions, n);
  }

  /** Once either callback has taken a failure exit, neither side is or ever gets COMPLETE. */
  lemma RejectionIsFinal(states: seq<System>, actions: seq<Action>, n: nat, k: nat)
    requires Run(states, actions) && n <= k < |states| && states[n].rejected
    ensures !states[k].host.phase.Complete? && !states[k].dpu.phase.Complete?
    ensures states[k].hostRun != Returned(true)
  {
    RejectedStays(states, actions, n, k);
    RunKeeps(states, actions, k);
  }

  lemma {:induction false} RejectedStays(states: seq<System>, actions: seq<Action>, n: nat, k: nat)
    requires Run(states, actions) && n <= k < |states| && states[n].rejected
    ensures states[k].rejected
  {
    if n < k {
      RejectedStays(states, actions, n, k - 1);
      assert states[k - 1 + 1] == Next(states[k - 1], actions[k - 1]);
    }
  }

  // ---------------------------------------------------------------- a rejection is told to the other side

  /** The host's callback takes a failure exit, and its status message gets through: the notice is all there is to read. */
  lemma HostTells(s0: System, s: System, env: HostEnv)
    requires Inv(s0, s) && Enabled(s, HostReceives(env)) && !s.rejected && Next(s, HostReceives(env)).rejected
    ensures var s' := Next(s, HostReceives(env));
            HostRejected(s') && s'.toDpu == if env.statusSent then [Status(false)] else []
  {
    hide HostReact, Direction, Export, Status, Request;
    StatusesDiffer();
    if Answered(s) {
      HostUnderstands(s.host, !s.dpu.found, if s.dpu.found then s.dpu.fileSize else 0, false, env);
    } else if s.toHost[0] == Status(true) {
      HostUnderstands(s.host, false, 0, true, env);
    } else {
      HostUnderstands(s.host, false, 0, false, env);
    }
  }

  lemma DpuTells(s0: System, s: System, env: DpuEnv)
    requires Inv(s0, s) && Enabled(s, DpuReceives(env)) && !s.rejected && Next(s, DpuReceives(env)).rejected
    ensures var s' := Next(s, DpuReceives(env));
            DpuRejected(s') && s'.toHost == if env.statusSent then [Status(false)] else []
  {
    hide DpuReact, Direction, Export, Status;
    if Requested(s) {
      DpuUnderstands(s.dpu, s.host.found, if s.host.found then s.host.fileSize else 0, env);
    } else {
      DpuUnderstandsExport(s.dpu, s.host.buffer, s.host.descriptor, env);
    }
  }

  /** The notice is still to be read by the DPU, or the DPU is in ERROR. */
  ghost predicate DpuWillKnow(s: System) {
    HostRejected(s) && (s.toDpu == [Status(false)] || s.dpu.phase.Error?)
  }

  ghost predicate HostWillKnow(s: System) {
    DpuRejected(s) && (s.toHost == [Status(false)] || s.host.phase.Error?)
  }

  lemma KnowledgeStays(s: System, a: Action)
    requires Enabled(s, a) && !s.hostRun.NotStarted?
    ensures DpuWillKnow(s) ==> DpuWillKnow(Next(s, a))
    ensures HostWillKnow(s) ==> HostWillKnow(Next(s, a))
  {
    hide HostReact, DpuReact, Status, Request;
    match a
    case HostReceives(env) => HostUnderstands(s.host, false, 0, false, env);
    case DpuReceives(env) => DpuUnderstands(s.dpu, false, 0, env);
    case _ =>
  }

  lemma {:induction false} KnowledgeLasts(states: seq<System>, actions: seq<Action>, n: nat, k: nat)
    requires Run(states, actions) && n <= k < |states| && (DpuWillKnow(states[n]) || HostWillKnow(states[n]))
    ensures DpuWillKnow(states[n]) ==> DpuWillKnow(states[k])
    ensures HostWillKnow(states[n]) ==> HostWillKnow(states[k])
  {
    hide Next, Enabled;
    if n < k {
      KnowledgeLasts(states, actions, n, k - 1);
      RunKeeps(states, actions, k - 1);
      KnowledgeStays(states[k - 1], actions[k - 1]);
      assert states[k - 1 + 1] == Next(states[k - 1], actions[k - 1]);
    }
  }

  /**
   In every run: a callback that takes a failure exit, and whose status message gets through, puts the notice of failure
   on the channel; from then on it is there to be read, or the other side has read it and is in ERROR.
   */
  lemma RejectionIsTold(states: seq<System>, actions: seq<Action>, n: nat, k: nat)
    requires Run(states, actions) && n < k < |states| && !states[n].rejected && states[n + 1].rejected
    ensures actions[n].HostReceives? || actions[n].DpuReceives?
    ensures actions[n].HostReceives? && actions[n].henv.statusSent ==>
              states[n + 1].toDpu == [Status(false)] && DpuWillKnow(states[k])
    ensures actions[n].DpuReceives? && actions[n].denv.statusSent ==>
              states[n + 1].toHost == [Status(false)] && HostWillKnow(states[k])
  {
    hide HostReact, DpuReact, Status, Request;
    RunKeeps(states, actions, n);
    assert Enabled(states[n], actions[n]) && states[n + 1] == Next(states[n], actions[n]);
    match actions[n]
    case HostReceives(env) =>
      HostTells(states[0], states[n], env);
      if env.statusSent {
        KnowledgeLasts(states, actions, n + 1, k);
      }
    case DpuReceives(env) =>
      DpuTells(states[0], states[n], env);
      if env.statusSent {
        KnowledgeLasts(states, actions, n + 1, k);
      }
    case _ =>
  }

  // ---------------------------------------------------------------- the copy can succeed

  /** What a run needs: exactly one side has the file, it fits the DMA limit, and the descriptor fits a message. */
  ghost predicate Feasible(s0: System, descriptor: seq<Byte>) {
    && Init(s0) && s0.host.found != s0.dpu.found && AgreedSize(s0) <= s0.dpu.maxDma
    && descriptor != [] && |descriptor| + EXPORT_HEADER_SIZE <= s0.host.maxMsg
  }

  ghost function Calm(): DpuEnv {
    DpuEnv(true, true, true, seq(EXPORT_HEADER_SIZE, _ => 0))
  }

  /** The actions of a run in which no call fails. */
  ghost function Smooth(buffer: UInt64, descriptor: seq<Byte>): seq<Action> {
    var env := HostEnv(Some(buffer), Some(descriptor), true, true);
    [HostStarts(buffer, true), DpuReceives(Calm()), HostReceives(env), DpuReceives(Calm()),
     DpuCopies(true, true), HostReceives(env), HostReturns(true)]
  }

  lemma RequestAccepted(s0: System, buffer: UInt64, descriptor: seq<Byte>) returns (s: System)
    requires Feasible(s0, descriptor)
    ensures Answered(s) && Owners(s0, s) && s.hostRun.Waiting? && s.dpuRun.Polling?
    ensures var s1 := Next(s0, HostStarts(buffer, true));
            Enabled(s1, DpuReceives(Calm())) && s == Next(s1, DpuReceives(Calm()))
  {
    var s1 := Next(s0, HostStarts(buffer, true));
    DpuUnderstands(s1.dpu, s1.host.found, if s1.host.found then s1.host.fileSize else 0, Calm());
    s := Next(s1, DpuReceives(Calm()));
  }

  lemma BufferExported(s: System, buffer: UInt64, descriptor: seq<Byte>) returns (s': System)
    requires Answered(s) && s.hostRun.Waiting? && s.dpuRun.Polling?
    requires descriptor != [] && |descriptor| + EXPORT_HEADER_SIZE <= s.host.maxMsg < 0x1_0000_0000
    ensures var env := HostEnv(Some(buffer), Some(descriptor), true, true);
            Enabled(s, HostReceives(env)) && s' == Next(s, HostReceives(env))
    ensures Exported(s') && s'.host.descriptor == descriptor && s'.host.maxMsg == s.host.maxMsg
    ensures s'.hostRun.Waiting? && s'.dpuRun.Polling?
  {
    var env := HostEnv(Some(buffer), Some(descriptor), true, true);
    var size: UInt64 := if s.dpu.found then s.dpu.fileSize else 0;
    HostUnderstands(s.host, !s.dpu.found, size, true, env);
    s' := Next(s, HostReceives(env));
  }

  lemma CopyReported(s: System, env: HostEnv) returns (s': System)
    requires Exported(s) && s.host.descriptor != [] && s.host.maxMsg < 0x1_0000_0000
    requires s.hostRun.Waiting? && s.dpuRun.Polling?
    ensures Enabled(s, DpuReceives(Calm()))
    ensures var s1 := Next(s, DpuReceives(Calm()));
            && Enabled(s1, DpuCopies(true, true))
            && var s2 := Next(s1, DpuCopies(true, true));
               Enabled(s2, HostReceives(env)) && s' == Next(s2, HostReceives(env))
    ensures s'.host.phase.Complete? && s'.hostRun.Waiting?
  {
    DpuUnderstandsExport(s.dpu, s.host.buffer, s.host.descriptor, Calm());
    var s1 := Next(s, DpuReceives(Calm()));
    var s2 := Next(s1, DpuCopies(true, true));
    HostUnderstands(s2.host, false, 0, true, env);
    s' := Next(s2, HostReceives(env));
  }

  /** When the conditions for an agreement hold and nothing fails, the run ends with the host reporting success. */
  lemma CopySucceeds(s0: System, buffer: UInt64, descriptor: seq<Byte>) returns (states: seq<System>)
    requires Feasible(s0, descriptor)
    ensures Run(states, Smooth(buffer, descriptor)) && states[0] == s0 && states[7].hostRun == Returned(true)
  {
    hide Feasible, Answered, Exported, Next, Enabled, Owners, Init;
    Starts(s0, buffer, descriptor);
    var env := HostEnv(Some(buffer), Some(descriptor), true, true);
    var s1 := Next(s0, HostStarts(buffer, true));
    var s2 := RequestAccepted(s0, buffer, descriptor);
    SameHost(s0, s2);
    var s3 := BufferExported(s2, buffer, descriptor);
    var s6 := CopyReported(s3, env);
    var s4 := Next(s3, DpuReceives(Calm()));
    var s5 := Next(s4, DpuCopies(true, true));
    Ends(s6);
    states := [s0, s1, s2, s3, s4, s5, s6, Next(s6, HostReturns(true))];
  }

  lemma Starts(s0: System, buffer: UInt64, descriptor: seq<Byte>)
    requires Feasible(s0, descriptor)
    ensures Init(s0) && Enabled(s0, HostStarts(buffer, true)) && s0.host.maxMsg < 0x1_0000_0000
    ensures descriptor != [] && |descriptor| + EXPORT_HEADER_SIZE <= s0.host.maxMsg
  {}

  lemma SameHost(s0: System, s: System)
    requires Owners(s0, s)
    ensures s.host.maxMsg == s0.host.maxMsg
  {}

  lemma Ends(s: System)
    requires s.host.phase.Complete? && s.hostRun.Waiting?
    ensures Enabled(s, HostReturns(true)) && Next(s, HostReturns(true)).hostRun == Returned(true)
  {}
}
