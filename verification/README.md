# Models of the DOCA sample applications

A Dafny 4.11 project that models the stateful cores of the DOCA reference applications and proves what they keep.
`dafny verify dfyconfig.toml` checks all of it.

| file | what it models |
|---|---|
| `Fnv.dfy`, `HashTable.dfy`, `PipesManager.dfy` | the flow pipes manager: three manager tables, one table per pipe and one per port, all changed in place, against one flat map |
| `DmaCopy.dfy` | the DMA copy negotiation: host and DPU callbacks, and every interleaving of both over FIFO channels |
| `PacketParser.dfy` | the layered packet parser, with its IPv6 extension walk |
| `IpFragFixup.dfy`, `IpFragOffload.dfy` | the header fix-up after reassembly: lengths and checksums rewritten in place, and what the device makes of those left to it |
| `IpFragFrames.dfy`, `IpFragHistory.dfy`, `IpFragWorker.dfy` | the reassembly and fragmentation worker, which shares one transmit buffer among several ports; what it does is the fold of a history of bursts, and the laws are about every history |
| `NetflowRing.dfy` | the Netflow exporter: producers and one consumer around two bounded rings |
| `FileChunks.dfy`, `FileIntegrity.dfy`, `FileCompression.dfy` | chunked file transfer with back-pressure, the receiving state machines, incremental hashing |
| `L2Forward.dfy` | ownership and statistics of the layer-2 forwarder, and the drain loop of its clean-up |
| `BufList.dfy`, `HexDump.dfy` | buffer-list splitting and hex dump of the shared sample code |
| `Bytes.dfy`, `Wrappers.dfy`, `Environment.dfy` | bytes and network order; optional values; what the surroundings of a program may choose |

How the model is built:

- Code that changes state is a class or a method with loops, each tied by its `ensures` to a function on values
  (`HostReact`, `Network`, `Fixed`, `Receive`, `Replay`, ...); the laws are lemmas about those functions and invariants
  that every operation keeps.
- What a library or device call answers is arbitrary: a value chosen with `*`, or a parameter that the theorems
  quantify over. So every allocation, insertion, submission, send and write may fail, at every point. A ghost counter or
  log of failed calls (`failed`, `failures`, `fragErrors`) says which did; an operation that its arguments allow fails
  only if one of them did.
- Concurrency is a state machine over the atomic steps of each thread or endpoint; theorems are about every schedule.
- Retry and drain loops get an arbitrary but finite amount of back-pressure (`patience`).
- Integers are unbounded except where a width matters: the 32-bit piece counts and byte counter of the file
  transfers, the 16-bit length fields and checksums, the 16-bit tail size in `Flatten`, and the 64-bit hash state are
  explicit.

Where a promise turned out not to hold of the code, the exact condition is proved:

- An entry whose id is already live in another pipe is accepted and breaks the link between the entry table and that
  pipe. `EntryAdded`, `AddEntry` and `Perform` state consistency if and only if that does not happen, `Run` that nothing
  else ever ends it; `DuplicateEntryWitness` is an instance with the ids of actual pointers.
- The DPU checks the declared length of an export descriptor against the whole message, header included. What it stores
  is part of the message if and only if the declared length is at most what remains behind the header
  (`DescriptorInside`, with `DescriptorOutsideWitness`).
- `unknown_parse` leaves no inner context where `plain_parse` leaves a partial one: exactly for packets that fail behind
  the link layer (`UnknownParse`, with `FailsLateWitness`).
- A stored IPv4 checksum verifies if and only if the IHL is at least three or the short header verified before
  (`StoredChecksumVerifies`, with `ShortHeaderFails`); the parser accepts any IHL.
- The IP and UDP length fields of a refitted packet are true if and only if the IP length fits 16 bits, and that of
  GTP-U, over UDP, if and only if moreover the outer checksum does not land on it, as it does under an IPv4 header of no
  length (`RefitNestsLengths`, with `IpLengthWitness` and `GtpLengthWitness`). Over TCP, which the tunnel parser accepts,
  the same writes replace the sequence number (`SequenceOverwritten`).
- A fixed-up packet parses as before if and only if no field that the parser reads was overwritten with another value:
  the protocol and the fragment bits under an IPv4 header of one word, the GTP-U flags behind a TCP header of one word
  (`RefitKeepsParse`, `FixedKeepsParse`, `SentParsesAgain`, with `ParseSpoiltWitness`).
- Over IPv6 the fix-up seeds the UDP checksum with the payload length and the next header of the IPv6 header. The
  checksum that the device completes from it verifies if and only if there are no extension headers, or 65492 bytes of
  them of which Destination Options come first (`DeviceChecksumVerifies`, with `DeviceChecksumWitness`).
- The size of the tail of a chain is kept in 16 bits. Flattening refuses a chain if and only if that number exceeds the
  tailroom, and runs out of room if and only if the number passes although the tail does not fit (`Flatten`, with
  `OverrunWitness`).
- A completed packet that flattening refuses has its last fragment dropped twice. A buffer that came in once is freed
  more than once if and only if it is in the fragment that completed such a packet, or chained behind
  (`FreedTwiceExactly`, `TwiceIffRefused`, with `DoubleDropWitness`); the account of every buffer balances over every
  history all the same (`HistoryBalance`).
- The number of pieces of a file is announced in 32 bits; the file arrives whole if and only if the number fits
  (`CompleteMeansWhole`, `PayloadArrives`, with a `CutOffWitness` each). The integrity client refuses files longer than
  the source buffer of its device (applications/file_integrity/file_integrity_core.c:432); such a limit rules the case
  out if and only if it is below 2^32 pieces (`LimitSuffices`).
- The integrity server copies an announced digest of any length into a buffer for one digest. In every run that starts
  with an announcement of pieces, the copies stay inside if and only if its digest is no longer (`AnnouncementFits`, `RecvEvent`
  of the server, with `DigestOverrunWitness`).
- The compression server adds two 32-bit lengths before it compares with a 64-bit maximum. One message makes a sound
  server unsound if and only if the sum wraps and passes (`WrapsIffUnsound`); the buffer is sound in every run if and
  only if messages are at most one byte or maximum plus message length is below 2^32 (`SoundIffSafe`, with
  `WrapsAround`).
- The forwarder ignores whether a send task could be submitted. A batch can be freed in some continuation of the run if
  and only if that did not fail (`NeverFreedIffRefused`, with `StrandedWitness`).
- Drops on device 2 of the forwarder are charged to device 1. Received packets are forwarded or dropped in the sum over
  both devices; for a single device if and only if device 2 dropped nothing (`Run` of the forwarder, `Conservation`,
  `DropOnDevice2`).

## Model

| member | source | states |
|---|---|---|
| Fnv.HashBytes | applications/common/flow_pipes_manager.c:48-59 | the loop over the bytes of the pointer computes the FNV-1a hash of the whole byte string |
| Fnv.HashSnoc | applications/common/flow_pipes_manager.c:48-59 | bytes are taken in order: one more byte is one more step |
| Fnv.PublishedValues | applications/common/flow_pipes_manager.c:48-59 | the hashes of the empty string and of "a" are the published 64-bit FNV-1a values |
| Fnv.Generate | applications/common/flow_pipes_manager.c:48-59 | generateID is the hash of the eight bytes of the pointer in memory order |
| Fnv.WordBytesRoundTrip | applications/common/flow_pipes_manager.c:48-59 | the eight bytes of a pointer in memory order, least significant first, stand for the pointer |
| Fnv.ScaleInjective | applications/common/flow_pipes_manager.c:48-59 | multiplication by the FNV prime loses nothing: it is injective on 64-bit states |
| Fnv.StepInjectiveInState | applications/common/flow_pipes_manager.c:48-59 | one hash step permutes the 2^64 states |
| Fnv.StepInjectiveInByte | applications/common/flow_pipes_manager.c:48-59 | from one state, different bytes lead to different states |
| Fnv.HashInjectiveInState | applications/common/flow_pipes_manager.c:48-59 | hashing any fixed bytes permutes the states |
| Fnv.DifferInOnePosition | applications/common/flow_pipes_manager.c:48-59 | equal-length strings that differ in exactly one position have different ids |
| Fnv.NearbyPointersDiffer | applications/common/flow_pipes_manager.c:48-59 | two different pointers that agree in all bytes but one never get the same id |
| Fnv.SameBlockDiffers | applications/common/flow_pipes_manager.c:48-59 | pointers into the same block of 256 bytes never get the same id |
| PipesWorld.PortOpened | applications/common/flow_pipes_manager.c:214-243 | a list for a port seen for the first time keeps all tables mutually consistent and shows as one more port |
| PipesWorld.PortClosed | applications/common/flow_pipes_manager.c:254-263 | taking an empty list off its port keeps consistency and undoes the opening |
| PipesWorld.PipeCreated | applications/common/flow_pipes_manager.c:254-282 | the three insertions of a new pipe keep consistency and are one insertion into the flat pipe map, under the port its list belongs to |
| PipesWorld.PipeDestroyed | applications/common/flow_pipes_manager.c:370-407 | removing a pipe with all its entries keeps consistency, slot by slot, and is one deletion in the flat map |
| PipesWorld.EntryAdded | applications/common/flow_pipes_manager.c:308-333 | both insertions of an entry keep consistency if and only if its id is not live already, and are then one insertion into the flat entry map |
| PipesWorld.EntryRemoved | applications/common/flow_pipes_manager.c:409-446 | both deletions of an entry keep consistency and are one deletion in the flat entry map |
| PipesWorld.LinksBrokenByDuplicate | applications/common/flow_pipes_manager.c:308-333 | an entry id that is live in another pipe makes that pipe's entry lead elsewhere, for every such state |
| PipesWorld.DuplicateEntryWitness | applications/common/flow_pipes_manager.c:308-333 | pipes 1 and 2 under their hashed ids: adding entry pointer 7 to both is accepted and breaks consistency |
| PipesWorld.StaleEntryKey | applications/common/flow_pipes_manager.c:322-329 | key bytes left behind in a freed slot of a pipe's entry table are invisible |
| PipesWorld.StaleListKey | applications/common/flow_pipes_manager.c:254-278 | key bytes left behind in a freed slot of a port's list are invisible |
| PipesManager.PipesManager.constructor | applications/common/flow_pipes_manager.c:106-155 | the tables of a new manager are consistent and empty |
| PipesManager.CreateManager | applications/common/flow_pipes_manager.c:106-155 | for every set of allocations that are granted: the manager is created, consistent and empty, if and only if all four are; otherwise nothing stays allocated and nothing is freed that was not |
| PipesManager.PipesManager.CreatePipe | applications/common/flow_pipes_manager.c:187-283 | succeeds if and only if the hashed id is not live and no insertion or allocation failed on the way; success is the flat insertion; every failing path restores the abstract state and leaves exactly the tables that existed before |
| PipesManager.PipesManager.Enlist | applications/common/flow_pipes_manager.c:214-252 | first half of creation, for a new port and for one that has a list: fails exactly when one of its calls fails; on failure the memory is what it was, on success only the list of the port has gained the id |
| PipesManager.PipesManager.PublishPipe | applications/common/flow_pipes_manager.c:254-282 | second half of creation with its two rollbacks, including the port opened for this pipe: fails exactly when one of its calls fails |
| PipesManager.PipesManager.RecordPipe | applications/common/flow_pipes_manager.c:254-282 | the pipe's own table and its record, or neither; neither exactly when a call failed |
| PipesManager.PipesManager.Delist | applications/common/flow_pipes_manager.c:257-261 | the rollback restores consistency, the abstract state and the set of lists |
| PipesManager.PipesManager.OpenPort | applications/common/flow_pipes_manager.c:217-243 | list, port table and ownership are all in place, or a call failed and nothing has changed |
| PipesManager.PipesManager.AddEntry | applications/common/flow_pipes_manager.c:285-334 | succeeds if and only if the pipe is live, its table has no such id and no insertion failed; consistency is kept if and only if the call does not succeed for a live id; success is the flat insertion, failure changes nothing |
| PipesManager.PipesManager.LinkEntry | applications/common/flow_pipes_manager.c:315-329 | the two insertions, the first undone when the second fails; fails exactly when one of them does |
| PipesManager.PipesManager.GetPipe | applications/common/flow_pipes_manager.c:336-346 | finds exactly the pipes of the flat map |
| PipesManager.PipesManager.GetEntry | applications/common/flow_pipes_manager.c:348-368 | the lookup through the stored key slot finds exactly the entries of the flat map, even after slots were freed and reused |
| PipesManager.PipesManager.RemoveEntry | applications/common/flow_pipes_manager.c:409-446 | succeeds exactly for live entries and is then the flat deletion |
| PipesManager.PipesManager.EraseEntries | applications/common/flow_pipes_manager.c:397-399 | the iterate-and-delete loop removes exactly the entries of the pipe, in whatever order the table yields them |
| PipesManager.PipesManager.DestroyPipe | applications/common/flow_pipes_manager.c:370-407 | succeeds exactly for live pipes and removes the pipe and its entries from the flat maps |
| PipesManager.PipesManager.DropPipe | applications/common/flow_pipes_manager.c:479-497 | one round of the flush loop keeps consistency up to the list that is about to be freed |
| PipesManager.PipesManager.FlushPort | applications/common/flow_pipes_manager.c:448-503 | succeeds exactly for known ports and removes all pipes of the port with their entries |
| PipesManager.PipesManager.Destroy | applications/common/flow_pipes_manager.c:157-185 | every per-pipe and per-port table is freed exactly once and none is left |
| PipesManager.Perform | applications/common/flow_pipes_manager.c:187-503 | one operation: it succeeds exactly when the flat map lets it and no call failed on its way; the tables stay consistent and it has the flat effect, if and only if it is not the accepted addition of a live entry id |
| PipesManager.Run | applications/common/flow_pipes_manager.c:106-503 | every run refines the flat map, whichever calls fail: each operation succeeds exactly when the flat map lets it and no call failed on its way, and the tables stay consistent and show the replay of those that did, up to the first accepted addition of a live entry id, where, and only where, consistency ends |
| DmaWire.DirectionRoundTrip | applications/dma_copy/dma_copy_core.c:824-838 | the direction message decodes to the flag and size it was made from |
| DmaWire.ExportRoundTrip | applications/dma_copy/dma_copy_core.c:1000-1017 | the export message decodes to address, length and descriptor, whatever follows it in the receive buffer |
| DmaWire.StatusRoundTrip | applications/dma_copy/dma_copy_core.c:663-674 | the status message decodes to its flag |
| DmaEndpoints.HostEndpoint.ProcessDirection | applications/dma_copy/dma_copy_core.c:684-733 | every exit of the host's handler for the direction message: what it keeps, and what it sends |
| DmaEndpoints.HostEndpoint.RecvEvent | applications/dma_copy/dma_copy_core.c:735-815 | the host callback implements `HostReact` for every message and every failure of the calls it makes |
| DmaEndpoints.HostByBytes | applications/dma_copy/dma_copy_core.c:735-815 | for every byte string: the host takes a status of eight bytes, and a direction of sixteen if it has a buffer and its export fits and is sent; anything else is a failure exit, with ERROR and a notice; what it stores and sends otherwise |
| DmaEndpoints.DpuEndpoint.ProcessDirection | applications/dma_copy/dma_copy_core.c:945-991 | every exit of the DPU's handler for the direction message |
| DmaEndpoints.DpuEndpoint.RecvEvent | applications/dma_copy/dma_copy_core.c:1019-1127 | the DPU callback implements `DpuReact` for every message and every failure |
| DmaEndpoints.DpuByBytes | applications/dma_copy/dma_copy_core.c:1019-1127 | the same for the DPU: a status, a direction on which it can agree, an export of more than 24 bytes whose declared length is at most that of the message |
| DmaEndpoints.DescriptorInside | applications/dma_copy/dma_copy_core.c:1000-1017 | the stored descriptor is part of the message, whatever follows it in the receive buffer, if and only if its declared length is at most what remains behind the header |
| DmaEndpoints.DescriptorOutsideWitness | applications/dma_copy/dma_copy_core.c:1000-1017 | a message of 25 bytes that passes the check and has the second byte of its descriptor taken from behind it |
| DmaSystem.HostReceivesKeeps | applications/dma_copy/dma_copy_core.c:735-815 | a message delivered to the host keeps the protocol invariant |
| DmaSystem.DpuReceivesKeeps | applications/dma_copy/dma_copy_core.c:1019-1127 | a message delivered to the DPU keeps the protocol invariant |
| DmaSystem.RunKeeps | applications/dma_copy/dma_copy_core.c:840-1289 | every state of every interleaving satisfies the invariant |
| DmaSystem.NegotiationAgrees | applications/dma_copy/dma_copy_core.c:945-1017 | when the DPU's negotiation completes, exactly one side had the file, both hold its size, the size is within the DMA limit, and the DPU holds the host's address and descriptor |
| DmaSystem.SuccessMeansCopied | applications/dma_copy/dma_copy_core.c:897-918 | the host completes or reports success only if the DMA task copied the agreed number of bytes in the right direction |
| DmaSystem.RejectionIsFinal | applications/dma_copy/dma_copy_core.c:1055-1127 | once either callback took a failure exit, neither side is or ever becomes COMPLETE |
| DmaSystem.RejectionIsTold | applications/dma_copy/dma_copy_core.c:1055-1127 | in every run: a failure exit whose status message gets through puts the notice of failure on the channel, and from then on it is there to be read or the other side is in ERROR |
| DmaSystem.CopySucceeds | applications/dma_copy/dma_copy_core.c:840-1289 | conversely, when exactly one side has a file within the limits and no call fails, the run ends with the host reporting success |
| ParserSpec.ChainFollowsHeaders | applications/common/packet_parser.c:72-110 | the extension walk ends at the first protocol that is no extension and reports the last Fragment header of the chain, or stops at a header that overruns the data (RFC 8200 section 4, RFC 4302 section 2.2) |
| ParserSpec.PlainIsLaidOut | applications/common/packet_parser.c:291-321 | a plain parse that succeeds or stops at a fragment stays within the data, its length is the sum of the layers, and each header sits at the sum of the preceding ones |
| ParserSpec.TunnelIsLaidOut | applications/common/packet_parser.c:226-354 | the same for tunnelled packets, down to the GTP-U options, the inner headers and the recorded inner and outer Fragment headers |
| ParserSpec.FragmentLocated | applications/common/packet_parser.c:72-110 | a recorded Fragment header lies among the extension headers of its IPv6 header |
| ParserSpec.GtpuAccepts | applications/common/packet_parser.c:226-289 | a GTP-U header is accepted if and only if it is of version 1, the length its flags announce fits the data, and an extension is a single one-word PDU session container; its length is the announced one (3GPP TS 29.281 section 5.1) |
| ParserSpec.ParsersIgnoreSlack | applications/common/packet_parser.c:72-110 | no result depends on the bytes that the walk may look at past the end of the data |
| PacketParser.Ipv6HdrParse | applications/common/packet_parser.c:72-110 | the loop terminates and equals the recursive chain walk |
| PacketParser.NetworkParse | applications/common/packet_parser.c:112-168 | code and context for both IP versions, on every byte string |
| PacketParser.ConnParse | applications/common/packet_parser.c:291-309 | code and context after network and transport layer, including the early stop at a fragment |
| PacketParser.PlainParse | applications/common/packet_parser.c:311-321 | the result of the plain parser, and its layout |
| PacketParser.PlainOnWireV4 | applications/common/packet_parser.c:311-321 | what the plain parser makes of every IPv4 frame, by its bytes: header length, protocol, fragment bits, and UDP or TCP behind it |
| PacketParser.PlainOnWireV6 | applications/common/packet_parser.c:311-321 | the same for every IPv6 frame without extension headers |
| PacketParser.OtherwiseInvalid | applications/common/packet_parser.c:42-168 | every frame that is neither is invalid: short ones, other EtherTypes, and those whose EtherType and IP version disagree |
| PacketParser.ExtensionOnWire | applications/common/packet_parser.c:72-110 | which protocols are extension headers, what follows them and how long they are (RFC 8200 section 4, RFC 4302 section 2.2) |
| PacketParser.TunnelParse | applications/common/packet_parser.c:323-354 | the result of the tunnel parser, and its layout |
| PacketParser.ParseEncapsulated | applications/common/packet_parser.c:345-353 | the GTP-U and inner part shared by two parsers |
| PacketParser.UnknownParse | applications/common/packet_parser.c:356-420 | unfragmented UDP to the GTP-U port, by its bytes as `TunnelByPort` says, is parsed exactly as by `tunnel_parse`; anything else gets the code of `plain_parse`, and another inner context if and only if the packet fails behind the link layer |
| PacketParser.TunnelByPort | applications/common/packet_parser.c:390-412 | unfragmented UDP over IPv4 of any header length, or over IPv6 without extensions, is taken for a tunnel if and only if the third and fourth byte of its UDP header are those of port 2152 |
| PacketParser.TunnelByPortWitness | applications/common/packet_parser.c:390-412 | a packet from port 12345 to port 2152 is taken for a tunnel and fails behind UDP; the reverse is a plain packet |
| PacketParser.FailsLateWitness | applications/common/packet_parser.c:356-420 | a packet of fifteen bytes for which the two parsers leave different contexts |
| Checksum.FoldComplement | applications/ip_frag/ip_frag_dp.c:135-139 | a sum plus the complement of its fold folds to all ones (RFC 1071) |
| Checksum.PublishedSum | applications/ip_frag/ip_frag_dp.c:135-139 | the numerical example of RFC 1071 section 3 |
| Checksum.StoredChecksumVerifies | applications/ip_frag/ip_frag_dp.c:135-139 | the stored IPv4 checksum verifies over the header as long as its IHL says, if and only if the IHL is at least three or the header verified before (RFC 791 section 3.1) |
| Checksum.ShortHeaderFails | applications/ip_frag/ip_frag_dp.c:135-139 | a header with an IHL of one, which the parser accepts, whose stored checksum does not verify |
| IpFragFixup.RefitNestsLengths | applications/ip_frag/ip_frag_dp.c:246-269 | for every tunnelled packet: what each length field holds; those of IP and UDP are true if and only if the IP length fits 16 bits; over UDP all are, and nest exactly, if and only if moreover no checksum lands on the GTP-U length |
| IpFragFixup.IpLengthWitness | applications/ip_frag/ip_frag_dp.c:258-259 | an inner datagram of 65535 bytes reassembled in a tunnel: the outer length of 65571 is stored as 35 |
| IpFragFixup.GtpLengthWitness | applications/ip_frag/ip_frag_dp.c:246-263 | a packet under an IPv4 header of no length, which the parser accepts: its GTP-U length of 28 becomes 65535 |
| IpFragFixup.SequenceOverwritten | applications/ip_frag/ip_frag_dp.c:252-275 | over TCP the segment length and the UDP checksum replace the sequence number, and the rest of a full TCP header behind an IP header of at least three words stays |
| IpFragFixup.RefitVerifies | applications/ip_frag/ip_frag_dp.c:255-279 | in software mode, whatever the transport: the outer IPv4 header checksum verifies over the final bytes if and only if its IHL is at least three or the short header with its new length happens to verify, the inner one if and only if its IHL is at least three or the short header verified before; the outer UDP checksum is zero (RFC 6935 section 5) |
| IpFragFixup.RefitKeepsTheRest | applications/ip_frag/ip_frag_dp.c:241-279 | no byte outside the length and checksum fields changes |
| IpFragFixup.TunnelFits | applications/ip_frag/ip_frag_dp.c:241-279 | whatever the tunnel parser accepts, every field that the fix-up writes lies inside the packet |
| IpFragFixup.RefitKeepsParse | applications/ip_frag/ip_frag_dp.c:234-289 | a refitted tunnelled packet, over UDP or TCP, parses exactly as before if and only if the protocol, fragment bits and GTP-U flags that a length is written over come out the same |
| IpFragFixup.FixedKeepsParse | applications/ip_frag/ip_frag_dp.c:234-289 | the same for every branch of the fix-up |
| IpFragFixup.FixedVerifies | applications/ip_frag/ip_frag_dp.c:234-289 | every branch but the refit: in software mode the first IPv4 header of a reassembled packet has a checksum that verifies if and only if its IHL is at least three or it verified before, and no other byte changes; otherwise no byte changes |
| IpFragFixup.FixedTunnelVerifies | applications/ip_frag/ip_frag_dp.c:234-289 | a tunnelled packet whose inner datagram was reassembled: the inner IPv4 checksum verifies under that condition in either mode, the outer one in software mode, and no byte outside the length and checksum fields changes |
| IpFragFixup.OffloadedIsFirst | applications/ip_frag/ip_frag_dp.c:161-174 | the device is handed the lengths of the first IP header of a reassembled packet, and asked for its checksum exactly if that is IPv4 |
| IpFragFixup.ParseSpoiltWitness | applications/ip_frag/ip_frag_dp.c:252-253 | a packet of 62 bytes under an IPv4 header of one word that parses differently after the fix-up |
| IpFragFixup.Ipv4CksumHandle | applications/ip_frag/ip_frag_dp.c:161-174 | computes the checksum in software, or leaves the bytes alone and asks the device |
| IpFragFixup.NetworkCksumHandle | applications/ip_frag/ip_frag_dp.c:184-192 | touches IPv4 headers only |
| IpFragFixup.UdpCksumHandle | applications/ip_frag/ip_frag_dp.c:203-223 | zero, or over IPv6 the sum of the pseudo-header of the final bytes with an offload request |
| UdpOffload.DeviceChecksumVerifies | applications/ip_frag/ip_frag_dp.c:203-223 | in hardware mode over IPv6 the device completes the seed to a UDP checksum that verifies (RFC 768, RFC 8200 section 8.1) if and only if the outer IPv6 header has no extension headers, or 65492 bytes of them beginning with Destination Options |
| UdpOffload.DeviceChecksumWitness | applications/ip_frag/ip_frag_dp.c:203-223 | a packet of 106 bytes with Hop-by-Hop Options whose completed checksum does not verify |
| IpFragFixup.RefitLengths | applications/ip_frag/ip_frag_dp.c:246-269 | the in-place length updates, from the inside out |
| IpFragFixup.Fixup | applications/ip_frag/ip_frag_dp.c:234-289 | the in-place rewrite yields the bytes of `Fixed` in every branch, whose checksums, lengths and untouched bytes the lemmas above state; it requests exactly the offloads that are needed and hands the device the header lengths they apply to |
| Frames.Flatten | applications/ip_frag/ip_frag_dp.c:297-328 | refuses, runs out of room or succeeds, each if and only if its condition on tail, 16-bit tail size and tailroom holds; success keeps the bytes in order and releases exactly the other buffers |
| Frames.OverrunWitness | applications/ip_frag/ip_frag_dp.c:299-319 | two buffers of 32768 bytes pass the check of a buffer without any room |
| Frames.FinishedIsPiece | applications/ip_frag/ip_frag_dp.c:657-669 | every fragment fits the MTU and starts with the link header of its packet; in software mode its IPv4 checksum verifies if and only if its IHL is at least three or its short header verified before |
| IpFragWorker.Worker.constructor | applications/ip_frag/ip_frag_dp.c:893-905 | a new worker has an empty transmit buffer and an empty history |
| IpFragWorker.Worker.TxBuffer | applications/ip_frag/ip_frag_dp.c:482 | a packet is queued for the port it is meant for; the buffer never stays full |
| IpFragWorker.Worker.Flush | applications/ip_frag/ip_frag_dp.c:562 | everything pending goes to the port it was meant for and the buffer is empty; the error counter is the number of packets the devices refused |
| IpFragWorker.Worker.PktFragment | applications/ip_frag/ip_frag_dp.c:600-673 | a packet is queued, replaced by its fragments, or dropped, as its contents and the errors of the library explain; buffers, counters and outputs change as that outcome says and in no other way |
| IpFragWorker.Worker.PktSplit | applications/ip_frag/ip_frag_dp.c:632-673 | the same for a packet that exceeds the MTU; the oversized link header case does not arise; a packet is refused exactly when its protocol cannot be fragmented or the library reports an error |
| IpFragWorker.Worker.MbufFragment | applications/ip_frag/ip_frag_dp.c:569-590 | succeeds exactly for IPv4, and for IPv6 with chained buffers, unless the library reports an error |
| IpFragWorker.Worker.PktsFragment | applications/ip_frag/ip_frag_dp.c:685-709 | for a whole burst: one explained outcome per packet, everything that happened is their fold in order, and at least sixteen slots are free before each packet |
| FragLaws.DealtConserves | applications/ip_frag/ip_frag_dp.c:600-673 | the buffers of a packet and of its fragments are queued or released exactly once, and nothing else moves |
| FragLaws.FragmentingConserves | applications/ip_frag/ip_frag_dp.c:718-726 | over a whole burst on the fragmentation path every buffer that arrives or is created is queued or freed exactly once, whatever happened on the other path |
| FragLaws.BurstIsCounted | applications/ip_frag/ip_frag_dp.c:620-672 | the counters of a port after a burst: fits, exceeds or does not parse; errors are exactly the refused packets and generated fragments exactly the pieces; no other port changes |
| FragLaws.SizesAreCounted | applications/ip_frag/ip_frag_dp.c:626-632 | by what the packets are: one counter grows by those that parse and are within the MTU, the other by those that parse and exceed it |
| FragLaws.ReassemblyIsCounted | applications/ip_frag/ip_frag_dp.c:413-505 | the counters of a port after a reassembly burst: fragments, whole packets and errors are exactly those of the fates; no other port changes |
| IpFragWorker.Worker.PktParse | applications/ip_frag/ip_frag_dp.c:95-113 | the result for every packet type; a parse that stops at a fragment has a fragmented header to push |
| IpFragWorker.Worker.ReassemblePush | applications/ip_frag/ip_frag_dp.c:413-446 | the fragment is pushed for its outer header if that is fragmented and for its inner one otherwise, the third case does not arise, and the completed packet has the mark of that header; the fragment is kept, completes a packet, completes one that is refused, or the process stops, each with where every buffer is then |
| IpFragWorker.Worker.PktReassemble | applications/ip_frag/ip_frag_dp.c:458-508 | the reparse loop terminates; the packet has a fate, the packets it was completed to one after the other and how the last of them ended, that the parses and tails explain, and everything that happened is what that fate says |
| IpFragWorker.Worker.PktsReassemble | applications/ip_frag/ip_frag_dp.c:521-541 | for a whole burst: one fate per packet, unless the process stops, and everything that happened is their fold in order |
| IpFragWorker.Worker.WtReassemble | applications/ip_frag/ip_frag_dp.c:551-567 | one more burst in the history, each packet with its fate; the process has stopped if and only if the last packet of the burst aborts, and otherwise the transmit buffer is empty |
| IpFragWorker.Worker.WtFragment | applications/ip_frag/ip_frag_dp.c:718-726 | one more burst in the history, each packet with its outcome; the process never stops here and the transmit buffer is empty |
| IpFragWorker.Worker.Round | applications/ip_frag/ip_frag_dp.c:739-763 | the bursts of one turn, in the order of the mode, all of them unless the last one in the history stopped the process |
| FragLaws.BidirSchedule | applications/ip_frag/ip_frag_dp.c:739-763 | on two ports: what each port does in a turn, with which packet type, and where its packets go |
| FragLaws.MultiportSchedule | applications/ip_frag/ip_frag_dp.c:748-757 | the same on four ports: the four pairs of ports and the packet type of each |
| IpFragWorker.Worker.Run | applications/ip_frag/ip_frag_dp.c:734-767 | after any number of turns in either mode the log, the buffers and the counters are the fold of a history of bursts that keeps to the schedule; all turns take place unless the process stopped, which is so if and only if the last burst, and no other, ends in an abort; every queued packet has been flushed, to the port that its port of arrival is routed to; fragmented output fits the MTU; what was received is the sum of the bursts and every buffer is accounted for |
| FragLaws.HistoryBalance | applications/ip_frag/ip_frag_dp.c:734-767 | over every history: received, created and freed once too often is held, freed, lost or queued, buffer by buffer and without any condition |
| FragLaws.ReceivedIsSum | applications/ip_frag/ip_frag_dp.c:556-722 | what was received is the sum of the bursts |
| FragLaws.HistoryLogOk | applications/ip_frag/ip_frag_dp.c:734-767 | over every history on schedule packets leave where their port of arrival is routed to, and those from fragmentation fit the MTU |
| FragLaws.FlattenDecides | applications/ip_frag/ip_frag_dp.c:297-307 | a completed packet is passed on, refused or runs out of room, and which of them is decided by chaining, tail and tailroom |
| FragLaws.TwiceIffRefused | applications/ip_frag/ip_frag_dp.c:435-500 | a packet has buffers freed twice if and only if one of the packets completed on its way is to be flattened, has a tail, and the 16-bit tail size exceeds the tailroom |
| FragLaws.FreedTwiceIff | applications/ip_frag/ip_frag_dp.c:435-500 | a buffer that came in once is freed more than once if and only if it is among those; otherwise it is in exactly one place, once |
| FragLaws.FreedTwiceExactly | applications/ip_frag/ip_frag_dp.c:435-500 | the same in terms of the guard: on the way of some packet of some burst a packet was completed that is to be flattened, has a tail and a 16-bit tail size above its tailroom, and the buffer is in the fragment that completed it or behind |
| FragLaws.DoubleDropWitness | applications/ip_frag/ip_frag_dp.c:435-500 | two fragments of full length in default buffers whose datagram does not fit one: the buffer of the second is freed twice and that of the first is lost |
| FragLaws.HalvesMatch | applications/ip_frag/ip_frag_dp.c:435-500 | those two fragments are the halves of one datagram: same identification, true lengths, the second follows the first and is last, and the chained packet is what they add up to |
| FragLaws.ChainedLosesNothing | applications/ip_frag/ip_frag_dp.c:435-441 | with chained buffers nothing is ever lost or freed twice |
| FragLaws.SentParsesAgain | applications/ip_frag/ip_frag_dp.c:479-483 | what is sent after fix-up parses again as the same whole packet if and only if the fix-up did not spoil a header it parses by |
| FragLaws.MarksInHand | applications/ip_frag/ip_frag_dp.c:340-387 | a packet completed last for its outer header has the outer mark, one completed for its inner header the inner mark, and one that needed no reassembly none |
| FragLaws.ReassembledLengthsNest | applications/ip_frag/ip_frag_dp.c:234-269 | a tunnelled packet that is sent after its inner datagram was reassembled has the length fields of the packet as it is now |
| FragLaws.ReassembledChecksum | applications/ip_frag/ip_frag_dp.c:281-288 | in software mode what is sent after any other reassembly has its IPv4 checksum renewed and is otherwise as the library completed it |
| FragLaws.WholePacketUnchanged | applications/ip_frag/ip_frag_dp.c:479-483 | a packet that needed no reassembly is sent as it arrived |
| FragLaws.FatesOfHistory | applications/ip_frag/ip_frag_dp.c:551-567 | every packet of every burst of a history arrives unmarked and has a fate to which these laws apply |
| NetflowRing.Exclusive | applications/common/telemetry_exporter.c:219-223 | a slot in a producer's hand is nowhere else |
| NetflowRing.NeverFull | applications/common/telemetry_exporter.c:224-227 | the "queue is full" branch is unreachable |
| NetflowRing.NeverMismatched | applications/common/telemetry_exporter.c:204-208 | the "mismatch" branch is unreachable |
| NetflowRing.InitialHolds | applications/common/telemetry_exporter.c:285-298 | the ring set-up establishes the invariant |
| NetflowRing.StepKeeps | applications/common/telemetry_exporter.c:173-228 | every step of every thread keeps the invariant |
| NetflowRing.EveryInterleaving | applications/common/telemetry_exporter.c:173-228 | in every interleaving each slot is in exactly one place, neither ring overflows, and the sent records are among the enqueued ones, in order, at most once, with their original values |
| NetflowRing.Exporter.EnqueueRecord | applications/common/telemetry_exporter.c:212-228 | with any interference between its steps, the record gets into the pending ring, or the free list is empty and the producer has left nothing behind |
| NetflowRing.Exporter.SendRecords | applications/common/telemetry_exporter.c:173-210 | with any interference, and any number of sends that succeed without sending, success sends all records that were pending at the start, in order and once each, and returns their slots; it fails exactly when a send fails, and then keeps the slots away |
| FileChunks.CountReachesEnd | applications/file_integrity/file_integrity_core.c:321-326 | the piece count is exact: fewer pieces do not reach the end of the file, and both source formulas agree |
| FileChunks.PieceSizes | applications/file_integrity/file_integrity_core.c:342-343 | no piece is empty, and every piece but the last has full size |
| FileChunks.PiecesJoin | applications/file_integrity/file_integrity_core.c:342-364 | the pieces concatenate to the file |
| FileChunks.Announced | applications/file_integrity/file_integrity_core.c:326-327 | the announced number is the number of pieces if and only if that fits 32 bits |
| FileChunks.LimitSuffices | applications/file_integrity/file_integrity_core.c:432 | a limit on the length of files makes every announced number exact if and only if it is below 2^32 pieces |
| Comch.Connection.SendRetrying | applications/file_integrity/file_integrity_core.c:349-356 | for every pattern of busy answers the message is sent, once, unless a call fails |
| FileIntegrityClient.SendFile | applications/file_integrity/file_integrity_core.c:306-366 | on success every announced piece was sent once and in order unless the server reported being done; after an error a prefix was; it fails exactly when a call fails, or the channel is too busy for the announcement, which is offered only once |
| FileIntegrityClient.PartialBlockFits | applications/file_integrity/file_integrity_core.c:315-319 | the piece size is the largest multiple of the engine's block that fits a message |
| FileIntegrityClient.PiecesSuitEngine | applications/file_integrity/file_integrity_core.c:315-343 | all pieces but the last are multiples of the engine's block, and all fit a message |
| Sha.AbsorbConcat | applications/file_integrity/file_integrity_core.c:578-602 | absorbing whole blocks piecewise equals absorbing the concatenation (FIPS 180-4 section 6.2) |
| Sha.FinalPiece | applications/file_integrity/file_integrity_core.c:590-599 | a running hash whose last piece is marked final yields the digest of the whole message |
| FileIntegrityServer.ServerSide.HashPiece | applications/file_integrity/file_integrity_core.c:568-626 | the hash task for a piece, whole or partial, whichever of its steps fails |
| FileIntegrityServer.ServerSide.CopyDigest | applications/file_integrity/file_integrity_core.c:548-549 | the digest is copied byte by byte to the start of the buffer, which has to hold it |
| FileIntegrityServer.ServerSide.RecvEvent | applications/file_integrity/file_integrity_core.c:508-640 | the server callback implements `Receive`, with the digest in a buffer of fixed size, for every message and every fault, if and only if an announced digest fits that buffer |
| FileIntegrity.FirstMessage | applications/file_integrity/file_integrity_core.c:533-553 | the first message, whatever it is: at least four bytes announce a number of pieces and a digest, fewer are an error; an announcement of no pieces is waited past |
| FileIntegrity.PieceReceived | applications/file_integrity/file_integrity_core.c:555-639 | a piece is hashed and written, or the transfer ends in ERROR; the final mark is set by the last piece only |
| FileIntegrity.PieceTaken | applications/file_integrity/file_integrity_core.c:555-639 | a piece that is whole blocks, or the last one, is hashed and written if and only if no fault hits a step that is taken for it |
| FileIntegrity.ServedProgress | applications/file_integrity/file_integrity_core.c:508-640 | after any number of messages, under any faults, the server is in ERROR or holds exactly the pieces so far with their hash state |
| FileIntegrity.ServedExactly | applications/file_integrity/file_integrity_core.c:508-640 | after n messages the server is in ERROR if and only if a fault among them hit a step that was taken; otherwise it holds exactly the pieces so far, and after the last one it is COMPLETE |
| FileIntegrity.ArrivesWithoutFaults | applications/file_integrity/file_integrity_core.c:306-640 | without faults, for every file and piece size: COMPLETE after exactly one message more than the announced pieces, not before, with the digest of what was written |
| FileIntegrity.CompleteMeansWhole | applications/file_integrity/file_integrity_core.c:529-639 | COMPLETE means that every announced piece arrived and the engine's digest is that of the written file; the file is the sent one, and the digest the announced one, if and only if the piece count fits 32 bits |
| FileIntegrity.CutOffWitness | applications/file_integrity/file_integrity_core.c:326-327 | any file of 2^32 pieces and one byte more is announced as one piece, with which the server is COMPLETE |
| FileIntegrity.AnnouncementFits | applications/file_integrity/file_integrity_core.c:547-549 | after an announcement of pieces, whatever messages follow and whatever faults there are, nothing is written behind the digest buffer if and only if the announced digest is no longer than the buffer |
| FileIntegrity.DigestOverrunWitness | applications/file_integrity/file_integrity_core.c:547-549 | an announcement with a digest of 33 bytes does not fit a buffer of 32 |
| FileCompressionClient.SendFile | applications/file_compression/file_compression_core.c:446-503 | success if and only if every announced piece was sent, once and in order; an error means a prefix: the server was done too early, a call failed, or the channel was too busy for the announcement |
| FileCompressionServer.FirstMessage | applications/file_compression/file_compression_core.c:620-638 | the first message, whatever it is: sixteen bytes announce checksum and number of pieces, anything else is an error; an announcement of no pieces is waited past |
| FileCompressionServer.DataReceived | applications/file_compression/file_compression_core.c:640-653 | as long as the 32-bit sum does not wrap, exactly what exceeds the maximum is refused |
| FileCompressionServer.ServedProgress | applications/file_compression/file_compression_core.c:616-653 | the buffer equals the concatenation received, COMPLETE comes exactly at the announced count, and too much data ends in ERROR |
| FileCompressionServer.FinalForEver | applications/file_compression/file_compression_core.c:616-618 | once COMPLETE or ERROR, the server stays exactly as it is for the rest of every run |
| FileCompressionServer.WrapsIffUnsound | applications/file_compression/file_compression_core.c:640-650 | one message makes a sound server unsound if and only if the 32-bit sum wraps around and passes the check |
| FileCompressionServer.WrapsAround | applications/file_compression/file_compression_core.c:640-650 | for all limits that allow it, a run in which the counter wraps to zero with 2^32 bytes stored |
| FileCompressionServer.SoundIffSafe | applications/file_compression/file_compression_core.c:640-653 | counter and buffer are sound in every run if and only if messages are at most one byte or maximum plus message length is below 2^32 |
| FileCompressionServer.PayloadArrives | applications/file_compression/file_compression_core.c:469-653 | a payload that fits arrives piece by piece, COMPLETE exactly after the last, and whole if and only if the piece count fits 32 bits |
| FileCompressionServer.CutOffWitness | applications/file_compression/file_compression_core.c:469-653 | a payload of 2^32 + 1 bytes sent byte by byte: the server is COMPLETE after the first |
| FileCompressionServer.ServerSide.RecvEvent | applications/file_compression/file_compression_core.c:601-654 | whatever the limits: the callback implements `Receive` on the fixed-size buffer without leaving it if and only if the 32-bit sum does not wrap around and pass |
| L2Forward.Forwarder.RxSuccess1 | applications/eth_l2_fwd/eth_l2_fwd_core.c:358-396 | a batch from device 1 is dropped and freed, in flight, or stranded because its task was not taken, which the counters do not show; the books stay balanced |
| L2Forward.Forwarder.RxSuccess2 | applications/eth_l2_fwd/eth_l2_fwd_core.c:408-446 | the same for device 2, whose drops are charged to device 1 |
| L2Forward.Forwarder.TxSuccess1 | applications/eth_l2_fwd/eth_l2_fwd_core.c:634-655 | a batch sent on device 1 is freed, once, and counted there |
| L2Forward.Forwarder.TxSuccess2 | applications/eth_l2_fwd/eth_l2_fwd_core.c:668-689 | a batch sent on device 2 is freed, once, and counted there |
| L2Forward.Forwarder.TxError | applications/eth_l2_fwd/eth_l2_fwd_core.c:772-801 | a failed batch is freed, once, and stops the application |
| L2Forward.Forwarder.Run | applications/eth_l2_fwd/eth_l2_fwd_core.c:358-801 | for any possible sequence of events from an empty forwarder: the batches and how often each was freed are the fold of the events, every settled batch is freed exactly once, the counters tell what arrived, forwarded packets are transmitted on the peer, in flight, failed or stranded, and per device what arrived is forwarded or dropped if and only if device 2 dropped nothing |
| L2Forward.ArrivalsAreBooked | applications/eth_l2_fwd/eth_l2_fwd_core.c:358-446 | what was forwarded and dropped, batch by batch, is what arrived, event by event |
| L2Forward.RunFreesOnce | applications/eth_l2_fwd/eth_l2_fwd_core.c:358-801 | in every possible run exactly the settled batches have been freed, each once |
| L2Forward.NeverFreedIffRefused | applications/eth_l2_fwd/eth_l2_fwd_core.c:391-393 | the batch that arrives with an event can be freed in some continuation of the run if and only if submitting its task did not fail |
| L2Forward.StrandedWitness | applications/eth_l2_fwd/eth_l2_fwd_core.c:391-395 | one packet whose task is not taken counts as forwarded and is never freed |
| L2Forward.Conservation | applications/eth_l2_fwd/eth_l2_fwd_core.c:358-801 | forwarded packets are transmitted on the peer, in flight, failed or stranded; received ones are forwarded or dropped in the sum, and per device if and only if device 2 dropped nothing |
| L2Forward.DropOnDevice2 | applications/eth_l2_fwd/eth_l2_fwd_core.c:433-436 | running the callback of device 2 for one packet that cannot be sent counts it as dropped on device 1 |
| L2Cleanup.Resources.StopOne | applications/eth_l2_fwd/eth_l2_fwd_core.c:1595-1604 | the counter counts exactly the contexts that are still to become idle |
| L2Cleanup.Resources.DrainRound | applications/eth_l2_fwd/eth_l2_fwd_core.c:1640-1698 | a round keeps the counter equal to the number of context pointers left |
| L2Cleanup.Resources.Cleanup | applications/eth_l2_fwd/eth_l2_fwd_core.c:1589-1730 | the drain loop ends exactly when all contexts are idle; whatever fails, no queue is destroyed before; on success every queue is; it fails exactly when one of its calls does |
| BufList.Allocate | samples/common.c:694-793 | success covers the range with the expected number of buffers; it fails exactly when a call fails, and then returns every buffer and leaves a null output; invalid arguments change nothing |
| BufList.Build | samples/common.c:741-792 | the loop and its rollback |
| BufList.NoOverlap | samples/common.c:741-774 | buffers of a cover stay inside the range and never overlap |
| BufList.EachByteCovered | samples/common.c:741-774 | every byte of the range is in some buffer of a cover |
| HexDump.CellInDump | samples/common.c:651-688 | where each byte of the input is found in the dump, as two upper-case hexadecimal digits |
| HexDump.OffsetInDump | samples/common.c:652-655 | every line starts with its offset in eight hexadecimal digits, a colon and a space, below 2^32 |
| HexDump.CharacterInDump | samples/common.c:659-685 | printable bytes appear as they are and all others as dots, in the last sixteen columns; the groups are apart and lines end |
| HexDump.DumpInjective | samples/common.c:618-692 | different inputs have different dumps: bytes and count can be recovered |
| HexDump.OffsetTextFits | samples/common.c:652-655 | the offset has eight digits below 2^32 and never more than eighteen characters |
| HexDump.PrintLine | samples/common.c:651-688 | one line of exactly 77 characters, every write with room for its text and terminator |
| HexDump.Format | samples/common.c:618-692 | null exactly for an empty input or without memory; otherwise the buffer holds the dump of 77 characters per line less the last newline, as a terminated string with no other terminator |

## Left out

- Command-line handling, `main` functions, signal handlers, logging, statistics output: plumbing.
- Device discovery, memory maps, context and pipe creation: thin wrappers over library calls that are not shown.
- DPDK, the DOCA libraries and the SHA compression function: contracts or parameters only (a keyed table with slots, a bounded FIFO ring, a FIFO channel, fragments within the MTU, RFC 1071 checksums, block-wise hashing). `HashTable.dfy` is the contract of the DPDK hash with its key slots.
- Wall-clock time: sleeping and timeouts appear only as loops that may end with an error.
- `pipe_info` records are values stored in the pipe table; their allocation is part of the allocation of the entries table, so a leaked record would go unnoticed.
- UdpOffload.DeviceChecksumVerifies: what the device does with a seed is the contract of the DPDK checksum offload.
- IpFragWorker.Worker.FragTablePush: a completed packet has the marks of its first fragment, and all fragments of a packet are handed in for the same header; packets arrive without marks. That is the contract of the DPDK reassembly library and driver.
- Packet contents in the reassembly library: a completed packet is made of buffers that were handed in, but that its bytes are those of the fragments is the library's contract.
- IpFragWorker.Worker.PktReplace: in hardware mode the offload flags and lengths of fragments are not recorded in the frame.
- IpFragWorker.Worker.FragmentLibrary: a fragment is not empty, no longer than asked for, and has the IHL of its packet or a smaller one of at least five when options are left out; that is the contract of the DPDK fragmentation library.
- IpFragWorker.Worker.ReassemblePush: after the failed assertion of an overrun the process stops; a build without assertions would go on with a null pointer.
- Prefetching, the burst timestamp and the statistics printer of the IP fragmentation worker.
- NetflowRing.Exporter.SendRecords: sends that succeed without sending anything happen any number of times but not for ever; otherwise the loop of the source would not end.
- The finish message of the file servers, the client's wait for it, the comparison that removes a file with a wrong digest, and the return code after a mismatch.
- FileCompressionServer.ServerSide.RecvEvent: stops in front of the copy that a wrapped sum lets through; what memory holds after such a copy is not modelled.
- FileIntegrityServer.ServerSide.RecvEvent: stops in front of the copy of a digest that is longer than its buffer.
- Compression and decompression themselves, and the checksum of the compressed file.
- The shared-mempool callbacks of the layer-2 forwarder: the same bookkeeping with a bulk free.
- 64-bit wrap-around of packet statistics.
- BufList.Inventory.Release: giving a buffer back always succeeds; the source only logs when it does not.
- HexDump.Format: requires that the size of the output fits the address space.
- `flow_parser.c`, the IPsec gateway, GPU packet processing and the remaining samples: long field-by-field dispatch, or code whose other half is not shown.
