/**
 What the layered packet parser computes. A packet lies in a backing buffer that extends a little past the end of
 the data (`end`): the IPv6 extension walk looks at a header before its bounds are checked. Header pointers are
 offsets into the buffer.
 */
module ParserSpec {
  import opened Bytes

  datatype Code = Success | Again | Invalid | NotSupported

  datatype Loc = Null | At(off: int)

  datatype LinkCtx = LinkCtx(len: nat, nextProto: nat, eth: Loc)
  datatype NetworkCtx = NetworkCtx(len: nat, ipVersion: nat, nextProto: nat, frag: bool, hdr: Loc, fragExt: Loc)
  datatype TransportCtx = TransportCtx(proto: nat, len: nat, hdr: Loc)
  datatype GtpCtx = GtpCtx(len: nat, gtp: Loc, opt: Loc, ext: Loc)
  datatype ConnCtx = ConnCtx(len: nat, link: LinkCtx, network: NetworkCtx, transport: TransportCtx)
  datatype TunCtx = TunCtx(len: nat, link: LinkCtx, network: NetworkCtx, transport: TransportCtx,
                           gtp: GtpCtx, inner: ConnCtx)

  const NO_LINK := LinkCtx(0, 0, Null)
  const NO_NETWORK := NetworkCtx(0, 0, 0, false, Null, Null)
  const NO_TRANSPORT := TransportCtx(0, 0, Null)
  const NO_GTP := GtpCtx(0, Null, Null, Null)
  const NO_CONN := ConnCtx(0, NO_LINK, NO_NETWORK, NO_TRANSPORT)
  const NO_TUN := TunCtx(0, NO_LINK, NO_NETWORK, NO_TRANSPORT, NO_GTP, NO_CONN)

  const ETHER_IPV4: nat := 0x0800
  const ETHER_IPV6: nat := 0x86DD
  const PROTO_IPV4: nat := 4
  const PROTO_IPV6: nat := 41
  const PROTO_TCP: nat := 6
  const PROTO_UDP: nat := 17
  const GTPU_PORT: nat := 2152

  const HOP_OPTIONS: nat := 0
  const ROUTING: nat := 43
  const FRAGMENT: nat := 44
  const AUTHENTICATION: nat := 51
  const DESTINATION_OPTIONS: nat := 60

  /** The data ends inside the buffer, with room for the two bytes an extension walk may look at past it. */
  predicate Backed(buf: seq<Byte>, end: nat) {
    end + 2 <= |buf|
  }

  function U8(buf: seq<Byte>, at: nat): (v: int)
    requires at < |buf|
    ensures 0 <= v < 256
  {
    buf[at]
  }

  function Be16(buf: seq<Byte>, at: nat): (v: int)
    requires at + 2 <= |buf|
    ensures 0 <= v < 65536
  {
    U8(buf, at) * 256 + U8(buf, at + 1)
  }

  // ---------------------------------------------------------------- one layer at a time

  function Link(buf: seq<Byte>, at: nat, end: nat, ctx: LinkCtx): (Code, LinkCtx)
    requires Backed(buf, end)
  {
    if at + 14 > end then (Invalid, ctx) else
    var proto := Be16(buf, at + 12);
    if proto != ETHER_IPV4 && proto != ETHER_IPV6 then (Invalid, ctx)
    else (Success, LinkCtx(14, proto, At(at)))
  }

  /** rte_ipv6_get_next_ext: the protocol that follows an extension header, and the length of that header. */
  datatype Extension = NotExtension | Extension(next: nat, len: nat)

  function NextExtension(buf: seq<Byte>, at: nat, proto: nat): (x: Extension)
    requires at + 2 <= |buf|
    ensures x.Extension? ==> x.len >= 8
  {
    if proto == AUTHENTICATION then Extension(U8(buf, at), (U8(buf, at + 1) + 2) * 4)
    else if proto == HOP_OPTIONS || proto == ROUTING || proto == DESTINATION_OPTIONS then
      Extension(U8(buf, at), (U8(buf, at + 1) + 1) * 8)
    else if proto == FRAGMENT then Extension(U8(buf, at), 8)
    else NotExtension
  }

  /** Where a chain of extension headers stops, what comes there, and the last Fragment header on the way. */
  datatype ChainEnd = Overrun | ChainEnd(at: nat, proto: nat, fragExt: Loc)

  function Chain(buf: seq<Byte>, at: nat, proto: nat, end: nat, fragExt: Loc): (c: ChainEnd)
    requires Backed(buf, end) && at <= end
    ensures c.ChainEnd? ==> at <= c.at <= end
    decreases end - at
  {
    match NextExtension(buf, at, proto)
    case NotExtension => ChainEnd(at, proto, fragExt)
    case Extension(next, len) =>
      if at + len > end then Overrun
      else Chain(buf, at + len, next, end, if proto == FRAGMENT then At(at) else fragExt)
  }

  function Ipv6(buf: seq<Byte>, at: nat, end: nat, ctx: NetworkCtx): (Code, NetworkCtx)
    requires Backed(buf, end) && at <= end
  {
    if at + 40 > end then (Invalid, ctx) else
    match Chain(buf, at + 40, U8(buf, at + 6), end, Null)
    case Overrun => (Invalid, ctx)
    case ChainEnd(stop, proto, fragExt) =>
      (Success, ctx.(nextProto := proto, hdr := At(at), len := stop - at,
                     frag := ctx.frag || fragExt.At?, fragExt := if fragExt.At? then fragExt else ctx.fragExt))
  }

  function Network(buf: seq<Byte>, at: nat, end: nat, expected: nat, ctx: NetworkCtx): (Code, NetworkCtx)
    requires Backed(buf, end) && at <= end
  {
    if at == end then (Invalid, ctx) else
    var version := U8(buf, at) / 16;
    if version == 4 then
      if expected != 0 && expected != ETHER_IPV4 then (Invalid, ctx) else
      var v4 := ctx.(ipVersion := PROTO_IPV4);
      var len := (U8(buf, at) % 16) * 4;
      if at + 20 > end || at + len > end then (Invalid, v4)
      else (Success, v4.(len := len, nextProto := U8(buf, at + 9), hdr := At(at),
                         frag := Be16(buf, at + 6) % 0x4000 != 0))
    else if version == 6 then
      if expected != 0 && expected != ETHER_IPV6 then (Invalid, ctx)
      else Ipv6(buf, at, end, ctx.(ipVersion := PROTO_IPV6))
    else (Invalid, ctx)
  }

  function Transport(buf: seq<Byte>, at: nat, end: nat, proto: nat, ctx: TransportCtx): (Code, TransportCtx)
    requires Backed(buf, end) && at <= end
  {
    if proto == PROTO_TCP then
      if at + 20 > end then (Invalid, ctx) else
      var len := (U8(buf, at + 12) / 16) * 4;
      if at + len > end then (Invalid, ctx) else (Success, TransportCtx(proto, len, At(at)))
    else if proto == PROTO_UDP then
      if at + 8 > end then (Invalid, ctx) else (Success, TransportCtx(proto, 8, At(at)))
    else (NotSupported, ctx)
  }

  /** A GTP-U header, its optional word when one of the E, S, PN flags is set, and one fixed-size extension. */
  function Gtpu(buf: seq<Byte>, at: nat, end: nat, ctx: GtpCtx): (Code, GtpCtx)
    requires Backed(buf, end) && at <= end
  {
    if at + 8 > end then (Invalid, ctx) else
    var flags := U8(buf, at);
    if flags / 32 != 1 then (NotSupported, ctx)
    else if flags % 8 == 0 then (Success, GtpCtx(8, At(at), Null, Null))
    else if at + 12 > end then (Invalid, ctx)
    else if flags / 4 % 2 == 0 then (Success, GtpCtx(12, At(at), At(at + 8), Null))
    else if U8(buf, at + 11) != 0x85 then (NotSupported, ctx)
    else if at + 16 > end then (Invalid, ctx)
    else if U8(buf, at + 12) != 1 || U8(buf, at + 15) != 0 then (NotSupported, ctx)
    else (Success, GtpCtx(16, At(at), At(at + 8), At(at + 12)))
  }

  // ---------------------------------------------------------------- whole packets

  /** Network and transport layers that follow the `ctx.len` bytes parsed so far. */
  function Conn(buf: seq<Byte>, data: nat, end: nat, ctx: ConnCtx): (r: (Code, ConnCtx))
    requires Backed(buf, end) && data + ctx.len <= end
  {
    var (c, network) := Network(buf, data + ctx.len, end, ctx.link.nextProto, ctx.network);
    var seen := ctx.(network := network);
    if c != Success then (c, seen) else
    NetworkFits(buf, data + ctx.len, end, ctx.link.nextProto, ctx.network);
    var upTo := seen.(len := ctx.len + network.len);
    if network.frag then (Again, upTo) else
    var (d, transport) := Transport(buf, data + upTo.len, end, network.nextProto, ctx.transport);
    if d != Success then (d, upTo) else (Success, upTo.(transport := transport, len := upTo.len + transport.len))
  }

  function Plain(buf: seq<Byte>, end: nat): (r: (Code, ConnCtx))
    requires Backed(buf, end)
  {
    var (c, link) := Link(buf, 0, end, NO_LINK);
    if c != Success then (c, NO_CONN) else Conn(buf, 0, end, NO_CONN.(link := link, len := 14))
  }

  /** What follows the outer transport header of a tunnelled packet. */
  function Encapsulated(buf: seq<Byte>, end: nat, outer: TunCtx): (r: (Code, TunCtx))
    requires Backed(buf, end) && outer.len <= end && outer.inner.len == 0
  {
    var (c, gtp) := Gtpu(buf, outer.len, end, outer.gtp);
    if c != Success then (c, outer) else
    var base := outer.len + gtp.len;
    var (d, inner) := Conn(buf, base, end, outer.inner);
    var whole := outer.(gtp := gtp, inner := inner, len := base);
    if d == Success || d == Again then (d, whole.(len := base + inner.len)) else (d, whole)
  }

  function Tunnel(buf: seq<Byte>, end: nat): (r: (Code, TunCtx))
    requires Backed(buf, end)
  {
    var (c, outer) := Plain(buf, end);
    ConnFits(buf, end);
    var seen := NO_TUN.(len := outer.len, link := outer.link, network := outer.network, transport := outer.transport);
    if c != Success then (c, seen) else Encapsulated(buf, end, seen)
  }

  /** Not fragmented, UDP, and sent to the GTP-U port. */
  predicate IsGtpu(buf: seq<Byte>, end: nat)
    requires Backed(buf, end)
  {
    var (c, ctx) := Plain(buf, end);
    ConnFits(buf, end);
    c == Success && ctx.transport.proto == PROTO_UDP && Be16(buf, ctx.transport.hdr.off + 2) == GTPU_PORT
  }

  // ---------------------------------------------------------------- bounds and layout

  lemma NetworkFits(buf: seq<Byte>, at: nat, end: nat, expected: nat, ctx: NetworkCtx)
    requires Backed(buf, end) && at <= end
    ensures var (c, network) := Network(buf, at, end, expected, ctx);
            c != Again && (c == Success ==> network.hdr == At(at) && at + network.len <= end)
  {}

  lemma ConnFits(buf: seq<Byte>, end: nat)
    requires Backed(buf, end)
    ensures var (c, ctx) := Plain(buf, end);
            && (c == Success || c == Again ==> ctx.len <= end)
            && (c == Success ==> ctx.transport.hdr.At? && 0 <= ctx.transport.hdr.off && ctx.transport.hdr.off + 8 <= end)
  {
    var (c, link) := Link(buf, 0, end, NO_LINK);
    if c == Success {
      NetworkFits(buf, 14, end, link.nextProto, NO_NETWORK);
    }
  }

  /** Where the headers of a packet without encapsulation lie, and how far the parse got. */
  predicate PlainLayout(c: Code, ctx: ConnCtx, end: nat) {
    && ctx.link.len == 14 && ctx.link.eth == At(0)
    && ctx.network.hdr == At(14)
    && ctx.len == 14 + ctx.network.len + ctx.transport.len <= end
    && FragmentInside(ctx.network, 14)
    && (c == Again ==> ctx.network.frag && ctx.transport == NO_TRANSPORT)
    && (c == Success ==> !ctx.network.frag && ctx.transport.hdr == At(14 + ctx.network.len))
  }

  /** A recorded Fragment header lies among the extension headers of the IPv6 header at `at`. */
  predicate FragmentInside(network: NetworkCtx, at: int) {
    network.fragExt.At? ==> at + 40 <= network.fragExt.off && network.fragExt.off + 8 <= at + network.len
  }

  lemma FragmentLocated(buf: seq<Byte>, at: nat, end: nat, expected: nat)
    requires Backed(buf, end) && at <= end
    ensures FragmentInside(Network(buf, at, end, expected, NO_NETWORK).1, at)
  {
    if at + 40 <= end {
      ChainFragment(buf, at + 40, U8(buf, at + 6), end, Null);
    }
  }

  lemma {:induction false} ChainFragment(buf: seq<Byte>, at: nat, proto: nat, end: nat, fragExt: Loc)
    requires Backed(buf, end) && at <= end
    ensures var c := Chain(buf, at, proto, end, fragExt);
            c.ChainEnd? && c.fragExt.At? ==> c.fragExt == fragExt || (at <= c.fragExt.off && c.fragExt.off + 8 <= c.at)
    decreases end - at
  {
    var x := NextExtension(buf, at, proto);
    if x.Extension? && at + x.len <= end {
      ChainFragment(buf, at + x.len, x.next, end, if proto == FRAGMENT then At(at) else fragExt);
    }
  }

  lemma PlainIsLaidOut(buf: seq<Byte>, end: nat)
    requires Backed(buf, end)
    ensures var (c, ctx) := Plain(buf, end); c == Success || c == Again ==> PlainLayout(c, ctx, end)
  {
    var (c, link) := Link(buf, 0, end, NO_LINK);
    if c == Success {
      NetworkFits(buf, 14, end, link.nextProto, NO_NETWORK);
      FragmentLocated(buf, 14, end, link.nextProto);
    }
  }

  lemma ConnLaidOut(buf: seq<Byte>, base: nat, end: nat)
    requires Backed(buf, end) && base <= end
    ensures var (c, ctx) := Conn(buf, base, end, NO_CONN);
            && (c == Success || c == Again ==>
                  && ctx.link == NO_LINK && ctx.network.hdr == At(base)
                  && ctx.len == ctx.network.len + ctx.transport.len && base + ctx.len <= end
                  && FragmentInside(ctx.network, base))
            && (c == Success ==> !ctx.network.frag && ctx.transport.hdr == At(base + ctx.network.len))
            && (c == Again ==> ctx.network.frag && ctx.transport == NO_TRANSPORT)
  {
    NetworkFits(buf, base, end, 0, NO_NETWORK);
    FragmentLocated(buf, base, end, 0);
  }

  /** Where the headers of a tunnelled packet lie: each starts where the preceding lengths add up to. */
  predicate TunnelLayout(c: Code, ctx: TunCtx, end: nat) {
    var udp := 14 + ctx.network.len;
    var gtp := udp + ctx.transport.len;
    var inner := gtp + ctx.gtp.len;
    && ctx.link.len == 14 && ctx.link.eth == At(0) && ctx.network.hdr == At(14)
    && ctx.inner.len == ctx.inner.network.len + ctx.inner.transport.len
    && ctx.len == inner + ctx.inner.len <= end
    && FragmentInside(ctx.network, 14) && FragmentInside(ctx.inner.network, inner)
    && if ctx.network.frag then
         c == Again && ctx.transport == NO_TRANSPORT && ctx.gtp == NO_GTP && ctx.inner == NO_CONN
       else
         && ctx.transport.hdr == At(udp)
         && ctx.gtp.gtp == At(gtp) && ctx.gtp.len in {8, 12, 16}
         && ctx.gtp.opt == (if ctx.gtp.len >= 12 then At(gtp + 8) else Null)
         && ctx.gtp.ext == (if ctx.gtp.len == 16 then At(gtp + 12) else Null)
         && ctx.inner.link == NO_LINK && ctx.inner.network.hdr == At(inner)
         && (c == Again ==> ctx.inner.network.frag && ctx.inner.transport == NO_TRANSPORT)
         && (c == Success ==> !ctx.inner.network.frag && ctx.inner.transport.hdr == At(inner + ctx.inner.network.len))
  }

  lemma TunnelIsLaidOut(buf: seq<Byte>, end: nat)
    requires Backed(buf, end)
    ensures var (c, ctx) := Tunnel(buf, end); c == Success || c == Again ==> TunnelLayout(c, ctx, end)
  {
    hide Plain, Gtpu, Conn;
    PlainIsLaidOut(buf, end);
    var (c, outer) := Plain(buf, end);
    if c == Success {
      EncapsulatedLaidOut(buf, outer.len, end);
    }
  }

  lemma EncapsulatedLaidOut(buf: seq<Byte>, at: nat, end: nat)
    requires Backed(buf, end) && at <= end
    ensures Gtpu(buf, at, end, NO_GTP).0 != Again
    ensures var (d, gtp) := Gtpu(buf, at, end, NO_GTP);
            d == Success ==>
              && gtp.gtp == At(at) && gtp.len in {8, 12, 16} && at + gtp.len <= end
              && gtp.opt == (if gtp.len >= 12 then At(at + 8) else Null)
              && gtp.ext == (if gtp.len == 16 then At(at + 12) else Null)
              && var (c, inner) := Conn(buf, at + gtp.len, end, NO_CONN);
                 && (c == Success || c == Again ==>
                       && inner.link == NO_LINK && inner.network.hdr == At(at + gtp.len)
                       && inner.len == inner.network.len + inner.transport.len && at + gtp.len + inner.len <= end
                       && FragmentInside(inner.network, at + gtp.len))
                 && (c == Success ==>
                       !inner.network.frag && inner.transport.hdr == At(at + gtp.len + inner.network.len))
                 && (c == Again ==> inner.network.frag && inner.transport == NO_TRANSPORT)
  {
    var (d, gtp) := Gtpu(buf, at, end, NO_GTP);
    if d == Success {
      ConnLaidOut(buf, at + gtp.len, end);
    }
  }

  /** The length that the flags of a GTP-U header announce (3GPP TS 29.281 section 5.1). */
  function GtpuAnnounced(flags: nat): nat {
    8 + (if flags % 8 == 0 then 0 else 4) + (if flags / 4 % 2 == 1 then 4 else 0)
  }

  /**
   A GTP-U header is accepted exactly if it is of version 1, what its flags announce fits the data, and an extension
   is a single PDU session container of one word with nothing chained to it.
   */
  lemma GtpuAccepts(buf: seq<Byte>, at: nat, end: nat)
    requires Backed(buf, end) && at + 8 <= end
    ensures var (c, gtp) := Gtpu(buf, at, end, NO_GTP);
            var flags := U8(buf, at);
            var len := GtpuAnnounced(flags);
            && (c == Success ==> gtp.len == len)
            && (c == Success <==>
                  && flags / 32 == 1 && at + len <= end
                  && (flags / 4 % 2 == 1 ==>
                        U8(buf, at + 11) == 0x85 && U8(buf, at + 12) == 1 && U8(buf, at + 15) == 0))
  {
    assert U8(buf, at) / 4 % 2 == 1 ==> U8(buf, at) % 8 >= 4;
  }

  // ---------------------------------------------------------------- the extension chain

  datatype Header = Header(proto: nat, at: nat)

  /**
   `hs` is the sequence of headers from (proto, at) on: each but the last is an extension that fits, and the next
   one starts where it ends and has the protocol it names.
   */
  ghost predicate IsChain(buf: seq<Byte>, hs: seq<Header>, proto: nat, at: nat, end: nat)
    requires Backed(buf, end)
    decreases |hs|
  {
    && at <= end && hs != [] && hs[0] == Header(proto, at)
    && (|hs| > 1 ==>
          var x := NextExtension(buf, at, proto);
          x.Extension? && IsChain(buf, hs[1..], x.next, at + x.len, end))
  }

  /** The position of the last Fragment header among `hs`, or `otherwise`. */
  function LastFragment(hs: seq<Header>, otherwise: Loc): Loc {
    if hs == [] then otherwise
    else LastFragment(hs[1..], if hs[0].proto == FRAGMENT then At(hs[0].at) else otherwise)
  }

  /** A chain that is followed to its end yields the first protocol that is no extension and the last Fragment header. */
  lemma {:induction false} ChainFollowsHeaders(buf: seq<Byte>, proto: nat, at: nat, end: nat, fragExt: Loc)
    returns (hs: seq<Header>)
    requires Backed(buf, end) && at <= end
    ensures IsChain(buf, hs, proto, at, end) && hs[|hs| - 1].at <= end
    ensures var c := Chain(buf, at, proto, end, fragExt);
            var last := hs[|hs| - 1];
            match c
            case ChainEnd(stop, p, f) =>
              && NextExtension(buf, last.at, last.proto).NotExtension?
              && last == Header(p, stop) && f == LastFragment(hs, fragExt)
            case Overrun =>
              var x := NextExtension(buf, last.at, last.proto);
              x.Extension? && last.at + x.len > end
    decreases end - at
  {
    var x := NextExtension(buf, at, proto);
    if x.Extension? && at + x.len <= end {
      var rest := ChainFollowsHeaders(buf, x.next, at + x.len, end, if proto == FRAGMENT then At(at) else fragExt);
      hs := [Header(proto, at)] + rest;
      assert hs[1..] == rest && hs[|hs| - 1] == rest[|rest| - 1];
    } else {
      hs := [Header(proto, at)];
      assert hs[1..] == [];
    }
  }

  // ---------------------------------------------------------------- bytes past the end do not matter

  ghost predicate SameData(a: seq<Byte>, b: seq<Byte>, end: nat) {
    Backed(a, end) && Backed(b, end) && forall i :: 0 <= i < end ==> a[i] == b[i]
  }

  lemma {:induction false} ChainIgnoresSlack(a: seq<Byte>, b: seq<Byte>, at: nat, proto: nat, end: nat, fragExt: Loc)
    requires SameData(a, b, end) && at <= end
    ensures Chain(a, at, proto, end, fragExt) == Chain(b, at, proto, end, fragExt)
    decreases end - at
  {
    hide NextExtension;
    ExtensionByProtocol(a, b, at, proto);
    var x := NextExtension(a, at, proto);
    if x.Extension? && at + x.len <= end {
      ChainIgnoresSlack(a, b, at + x.len, x.next, end, if proto == FRAGMENT then At(at) else fragExt);
    }
  }

  /** Whether a header is an extension depends on its protocol only, and what it says on its first two bytes. */
  lemma ExtensionByProtocol(a: seq<Byte>, b: seq<Byte>, at: nat, proto: nat)
    requires at + 2 <= |a| && at + 2 <= |b|
    ensures NextExtension(a, at, proto).Extension? == NextExtension(b, at, proto).Extension?
    ensures a[at] == b[at] && a[at + 1] == b[at + 1] ==> NextExtension(a, at, proto) == NextExtension(b, at, proto)
  {}

  lemma NetworkIgnoresSlack(a: seq<Byte>, b: seq<Byte>, at: nat, end: nat, expected: nat, ctx: NetworkCtx)
    requires SameData(a, b, end) && at <= end
    ensures Network(a, at, end, expected, ctx) == Network(b, at, end, expected, ctx)
  {
    if at + 40 <= end {
      ChainIgnoresSlack(a, b, at + 40, U8(a, at + 6), end, Null);
    }
  }

  lemma ConnIgnoresSlack(a: seq<Byte>, b: seq<Byte>, data: nat, end: nat, ctx: ConnCtx)
    requires SameData(a, b, end) && data + ctx.len <= end
    ensures Conn(a, data, end, ctx) == Conn(b, data, end, ctx)
  {
    NetworkIgnoresSlack(a, b, data + ctx.len, end, ctx.link.nextProto, ctx.network);
  }

  lemma GtpuIgnoresSlack(a: seq<Byte>, b: seq<Byte>, at: nat, end: nat)
    requires SameData(a, b, end) && at <= end
    ensures Gtpu(a, at, end, NO_GTP) == Gtpu(b, at, end, NO_GTP)
  {}

  lemma PlainIgnoresSlack(a: seq<Byte>, b: seq<Byte>, end: nat)
    requires SameData(a, b, end)
    ensures Plain(a, end) == Plain(b, end)
  {
    var (c, link) := Link(a, 0, end, NO_LINK);
    if c == Success {
      ConnIgnoresSlack(a, b, 0, end, NO_CONN.(link := link, len := 14));
    }
  }

  lemma EncapsulatedIgnoresSlack(a: seq<Byte>, b: seq<Byte>, end: nat, outer: TunCtx)
    requires SameData(a, b, end) && outer.len <= end && outer.gtp == NO_GTP && outer.inner == NO_CONN
    ensures Encapsulated(a, end, outer) == Encapsulated(b, end, outer)
  {
    hide Gtpu, Conn, Network, Transport;
    EncapsulatedLaidOut(a, outer.len, end);
    GtpuIgnoresSlack(a, b, outer.len, end);
    var (d, gtp) := Gtpu(a, outer.len, end, NO_GTP);
    if d == Success {
      ConnIgnoresSlack(a, b, outer.len + gtp.len, end, NO_CONN);
    }
  }

  /** The walk may look at bytes past the end of the data, but no result depends on them. */
  lemma ParsersIgnoreSlack(a: seq<Byte>, b: seq<Byte>, end: nat)
    requires SameData(a, b, end)
    ensures Plain(a, end) == Plain(b, end) && Tunnel(a, end) == Tunnel(b, end) && IsGtpu(a, end) == IsGtpu(b, end)
  {
    PlainIgnoresSlack(a, b, end);
    ConnFits(a, end);
    var (c, outer) := Plain(a, end);
    if c == Success {
      EncapsulatedIgnoresSlack(a, b, end, NO_TUN.(len := outer.len, link := outer.link, network := outer.network,
                                                  transport := outer.transport));
      assert IsGtpu(a, end) == IsGtpu(b, end) by {
        var port := outer.transport.hdr.off + 2;
        assert port + 2 <= end && a[port] == b[port] && a[port + 1] == b[port + 1];
      }
    }
  }
}

/** The parsers of packet_parser.c, which fill in their contexts step by step. */
module PacketParser {
  import opened Bytes
  import opened ParserSpec

  datatype PacketType = Tunneled | PlainPacket | UnknownType

  /** ipv6_hdr_parse */
  method Ipv6HdrParse(buf: seq<Byte>, data: nat, end: nat, ctx0: NetworkCtx) returns (ret: Code, ctx: NetworkCtx)
    requires Backed(buf, end) && data <= end
    ensures (ret, ctx) == Ipv6(buf, data, end, ctx0)
  {
    ctx := ctx0;
    var fragExt := Null;
    var totalLen: nat := 40;
    if data + totalLen > end {
      return Invalid, ctx;
    }
    var proto := Extension(U8(buf, data + 6), 0);
    var nextProto: nat := 59;
    ghost var whole := Chain(buf, data + 40, U8(buf, data + 6), end, Null);
    while proto.Extension?
      invariant data + totalLen <= end
      invariant proto.Extension? ==> Chain(buf, data + totalLen, proto.next, end, fragExt) == whole
      invariant proto.NotExtension? ==> whole == ChainEnd(data + totalLen, nextProto, fragExt)
      decreases proto.Extension?, end - totalLen
    {
      var at := data + totalLen;
      if proto.next == FRAGMENT {
        fragExt := At(at);
      }
      nextProto := proto.next;
      proto := NextExtension(buf, at, nextProto);
      totalLen := totalLen + if proto.Extension? then proto.len else 0;
      if data + totalLen > end {
        return Invalid, ctx;
      }
    }
    ctx := ctx.(nextProto := nextProto, hdr := At(data));
    if fragExt.At? {
      ctx := ctx.(frag := true, fragExt := fragExt);
    }
    ctx := ctx.(len := totalLen);
    return Success, ctx;
  }

  /** network_parse */
  method NetworkParse(buf: seq<Byte>, data: nat, end: nat, expected: nat, ctx0: NetworkCtx)
    returns (ret: Code, ctx: NetworkCtx)
    requires Backed(buf, end) && data <= end
    ensures (ret, ctx) == Network(buf, data, end, expected, ctx0)
  {
    ctx := ctx0;
    if data == end {
      return Invalid, ctx;
    }
    match U8(buf, data) / 16
    case 4 =>
      if expected != 0 && expected != ETHER_IPV4 {
        return Invalid, ctx;
      }
      ctx := ctx.(ipVersion := PROTO_IPV4);
      if data + 20 > end {
        return Invalid, ctx;
      }
      var hdrLen := (U8(buf, data) % 16) * 4;
      if data + hdrLen > end {
        return Invalid, ctx;
      }
      ctx := ctx.(len := hdrLen);
      ctx := ctx.(nextProto := U8(buf, data + 9));
      ctx := ctx.(frag := Be16(buf, data + 6) % 0x4000 != 0);
      ctx := ctx.(hdr := At(data));
      return Success, ctx;
    case 6 =>
      if expected != 0 && expected != ETHER_IPV6 {
        return Invalid, ctx;
      }
      ctx := ctx.(ipVersion := PROTO_IPV6);
      ret, ctx := Ipv6HdrParse(buf, data, end, ctx);
    case _ =>
      return Invalid, ctx;
  }

  /** conn_parse */
  method ConnParse(buf: seq<Byte>, data: nat, end: nat, ctx0: ConnCtx) returns (ret: Code, ctx: ConnCtx)
    requires Backed(buf, end) && data + ctx0.len <= end
    ensures (ret, ctx) == Conn(buf, data, end, ctx0)
  {
    ctx := ctx0;
    var network;
    NetworkFits(buf, data + ctx.len, end, ctx.link.nextProto, ctx.network);
    ret, network := NetworkParse(buf, data + ctx.len, end, ctx.link.nextProto, ctx.network);
    ctx := ctx.(network := network);
    if ret != Success {
      return;
    }
    ctx := ctx.(len := ctx.len + ctx.network.len);
    if ctx.network.frag {
      ret := Again;
      return;
    }
    var (c, transport) := Transport(buf, data + ctx.len, end, ctx.network.nextProto, ctx.transport);
    if c != Success {
      ret := c;
      return;
    }
    ctx := ctx.(transport := transport);
    ctx := ctx.(len := ctx.len + ctx.transport.len);
  }

  /** plain_parse, from a zeroed context */
  method PlainParse(buf: seq<Byte>, end: nat) returns (ret: Code, ctx: ConnCtx)
    requires Backed(buf, end)
    ensures (ret, ctx) == Plain(buf, end)
    ensures ret == Success || ret == Again ==> PlainLayout(ret, ctx, end)
  {
    PlainIsLaidOut(buf, end);
    ctx := NO_CONN;
    var (c, link) := Link(buf, ctx.len, end, ctx.link);
    if c != Success {
      return c, ctx;
    }
    ctx := ctx.(link := link);
    ctx := ctx.(len := ctx.len + ctx.link.len);
    ret, ctx := ConnParse(buf, 0, end, ctx);
  }

  /** tunnel_parse, from a zeroed context */
  method TunnelParse(buf: seq<Byte>, end: nat) returns (ret: Code, ctx: TunCtx)
    requires Backed(buf, end)
    ensures (ret, ctx) == Tunnel(buf, end)
    ensures ret == Success || ret == Again ==> TunnelLayout(ret, ctx, end)
  {
    hide TunnelLayout, Network, Transport, Encapsulated;
    TunnelIsLaidOut(buf, end);
    ConnFits(buf, end);
    ctx := NO_TUN;
    var (c, link) := Link(buf, ctx.len, end, ctx.link);
    if c != Success {
      return c, ctx;
    }
    ctx := ctx.(link := link);
    ctx := ctx.(len := ctx.len + ctx.link.len);
    NetworkFits(buf, ctx.len, end, ctx.link.nextProto, ctx.network);
    var network;
    ret, network := NetworkParse(buf, ctx.len, end, ctx.link.nextProto, ctx.network);
    ctx := ctx.(network := network);
    if ret != Success {
      return;
    }
    ctx := ctx.(len := ctx.len + ctx.network.len);
    if ctx.network.frag {
      return Again, ctx;
    }
    var (d, transport) := Transport(buf, ctx.len, end, ctx.network.nextProto, ctx.transport);
    if d != Success {
      return d, ctx;
    }
    ctx := ctx.(transport := transport);
    ctx := ctx.(len := ctx.len + ctx.transport.len);
    ret, ctx := ParseEncapsulated(buf, end, ctx);
  }

  /** The tail that tunnel_parse and unknown_parse share. */
  method ParseEncapsulated(buf: seq<Byte>, end: nat, ctx0: TunCtx) returns (ret: Code, ctx: TunCtx)
    requires Backed(buf, end) && ctx0.len <= end && ctx0.inner.len == 0
    ensures (ret, ctx) == Encapsulated(buf, end, ctx0)
  {
    ctx := ctx0;
    var (c, gtp) := Gtpu(buf, ctx.len, end, ctx.gtp);
    if c != Success {
      return c, ctx;
    }
    ctx := ctx.(gtp := gtp);
    ctx := ctx.(len := ctx.len + ctx.gtp.len);
    var inner;
    ret, inner := ConnParse(buf, ctx.len, end, ctx.inner);
    ctx := ctx.(inner := inner);
    if ret == Success || ret == Again {
      ctx := ctx.(len := ctx.len + ctx.inner.len);
    }
  }

  /** What each of the three parsers makes of a packet: code, type and context. */
  ghost function Parse(kind: PacketType, buf: seq<Byte>, end: nat): (Code, PacketType, TunCtx)
    requires Backed(buf, end)
  {
    var (c, plain) := Plain(buf, end);
    if kind.Tunneled? || (kind.UnknownType? && IsGtpu(buf, end)) then (Tunnel(buf, end).0, Tunneled, Tunnel(buf, end).1)
    else if kind.PlainPacket? then (c, PlainPacket, NO_TUN.(inner := plain))
    else if c == Success || c == Again then (c, PlainPacket, NO_TUN.(inner := plain, len := plain.len))
    else (c, UnknownType, NO_TUN)
  }

  /** Packets that fail behind the link layer: plain_parse has then filled in part of its context. */
  predicate FailsLate(buf: seq<Byte>, end: nat)
    requires Backed(buf, end)
  {
    var (c, link) := Link(buf, 0, end, NO_LINK);
    c == Success &&
    var (d, network) := Network(buf, 14, end, link.nextProto, NO_NETWORK);
    NetworkFits(buf, 14, end, link.nextProto, NO_NETWORK);
    d != Success || (!network.frag && Transport(buf, 14 + network.len, end, network.nextProto, NO_TRANSPORT).0 != Success)
  }

  // ---------------------------------------------------------------- on the wire

  /** An Ethernet frame with an IPv4 header of `ihl` words (RFC 791 section 3.1), all of it in the data. */
  predicate OnWireV4(buf: seq<Byte>, end: nat, ihl: nat) {
    && Backed(buf, end) && ihl < 16 && 34 <= end && 14 + 4 * ihl <= end
    && buf[12] == 0x08 && buf[13] == 0x00 && buf[14] == 0x40 + ihl
  }

  /** The More Fragments flag or any bit of the fragment offset is set. */
  predicate FragmentV4(buf: seq<Byte>)
    requires 22 <= |buf|
  {
    buf[20] % 64 != 0 || buf[21] != 0
  }

  /** An Ethernet frame with an IPv6 header and no extension header that the parser knows (RFC 8200 section 3). */
  predicate OnWireV6(buf: seq<Byte>, end: nat) {
    && Backed(buf, end) && 54 <= end && buf[12] == 0x86 && buf[13] == 0xDD && 0x60 <= buf[14] < 0x70
    && buf[20] !in {0, 43, 44, 51, 60}
  }

  /** What is parsed behind an unfragmented IP header at `at`: eight bytes of UDP, or TCP up to its data offset. */
  ghost predicate TransportOnWire(buf: seq<Byte>, at: nat, end: nat, proto: Byte, code: Code, transport: TransportCtx)
    requires Backed(buf, end) && at <= end
  {
    if proto == 17 then
      if at + 8 <= end then code == Success && transport == TransportCtx(17, 8, At(at)) else code == Invalid
    else if proto == 6 then
      if at + 20 <= end && at + buf[at + 12] / 16 * 4 <= end
      then code == Success && transport == TransportCtx(6, buf[at + 12] / 16 * 4, At(at)) else code == Invalid
    else code == NotSupported
  }

  /** plain_parse on IPv4, byte by byte. */
  lemma PlainOnWireV4(buf: seq<Byte>, end: nat, ihl: nat)
    requires OnWireV4(buf, end, ihl)
    ensures var (code, ctx) := Plain(buf, end);
            && ctx.link == LinkCtx(14, 0x0800, At(0))
            && ctx.network == NetworkCtx(4 * ihl, 4, buf[23], FragmentV4(buf), At(14), Null)
            && if FragmentV4(buf) then code == Again
               else TransportOnWire(buf, 14 + 4 * ihl, end, buf[23], code, ctx.transport)
  {
    hide Ipv6;
    assert Be16(buf, 20) % 0x4000 != 0 <==> FragmentV4(buf);
  }

  lemma PlainOnWireV6(buf: seq<Byte>, end: nat)
    requires OnWireV6(buf, end)
    ensures var (code, ctx) := Plain(buf, end);
            && ctx.link == LinkCtx(14, 0x86DD, At(0))
            && ctx.network == NetworkCtx(40, 41, buf[20], false, At(14), Null)
            && TransportOnWire(buf, 54, end, buf[20], code, ctx.transport)
  {
    hide Transport;
    assert Chain(buf, 54, U8(buf, 20), end, Null) == ChainEnd(54, U8(buf, 20), Null);
    TransportIs(buf, 54, end, buf[20]);
  }

  /** Anything else is malformed: what parses, or stops at a fragment, is one of the two IP versions on the wire. */
  lemma OtherwiseInvalid(buf: seq<Byte>, end: nat)
    requires Backed(buf, end)
    requires !(14 < end && OnWireV4(buf, end, buf[14] % 16))
    requires !(54 <= end && buf[12] == 0x86 && buf[13] == 0xDD && 0x60 <= buf[14] < 0x70)
    ensures Plain(buf, end).0 == Invalid
  {
    hide Chain;
  }

  lemma TransportIs(buf: seq<Byte>, at: nat, end: nat, proto: Byte)
    requires Backed(buf, end) && at <= end
    ensures var (code, transport) := Transport(buf, at, end, proto, NO_TRANSPORT);
            TransportOnWire(buf, at, end, proto, code, transport)
  {}

  /** The extension headers of RFC 8200 section 4 and RFC 4302 section 2.2: what follows them, and how long they are. */
  lemma ExtensionOnWire(buf: seq<Byte>, at: nat, proto: nat)
    requires at + 2 <= |buf|
    ensures NextExtension(buf, at, proto)
            == if proto in {0, 43, 60} then Extension(buf[at], 8 + 8 * U8(buf, at + 1))
               else if proto == 44 then Extension(buf[at], 8)
               else if proto == 51 then Extension(buf[at], 8 + 4 * U8(buf, at + 1))
               else NotExtension
  {}

  /** Unfragmented UDP over IPv4, or over IPv6 without extensions, at `at`. */
  predicate UdpOnWire(buf: seq<Byte>, end: nat, at: nat) {
    || (14 <= at && (at - 14) % 4 == 0 && OnWireV4(buf, end, (at - 14) / 4) && !FragmentV4(buf) && buf[23] == 17
        && at + 8 <= end)
    || (at == 54 && OnWireV6(buf, end) && buf[20] == 17 && at + 8 <= end)
  }

  /**
   Unfragmented UDP is taken for a tunnel if and only if the two bytes of its destination port are those of 2152, and
   for a plain packet otherwise.
   */
  lemma TunnelByPort(buf: seq<Byte>, end: nat, at: nat)
    requires UdpOnWire(buf, end, at)
    ensures Parse(UnknownType, buf, end).1 == if buf[at + 2] == 0x08 && buf[at + 3] == 0x68 then Tunneled else PlainPacket
  {
    hide Plain, Tunnel;
    if at == 54 && OnWireV6(buf, end) {
      PlainOnWireV6(buf, end);
    } else {
      PlainOnWireV4(buf, end, (at - 14) / 4);
    }
    assert Be16(buf, at + 2) == GTPU_PORT <==> buf[at + 2] == 0x08 && buf[at + 3] == 0x68;
  }

  /** UDP from port 12345 to port 2152 without room for GTP-U, and the other way round. */
  function UdpFrame(from: seq<Byte>, to: seq<Byte>): (buf: seq<Byte>)
    requires |from| == 2 && |to| == 2
    ensures |buf| == 44
  {
    seq(12, _ => 0) + [8, 0, 0x45, 0, 0, 28] + seq(4, _ => 0) + [64, 17] + seq(10, _ => 0) + from + to + seq(6, _ => 0)
  }

  lemma TunnelByPortWitness()
    ensures var there, back := UdpFrame([0x30, 0x39], [0x08, 0x68]), UdpFrame([0x08, 0x68], [0x30, 0x39]);
            && Parse(UnknownType, there, 42).0 == Invalid && Parse(UnknownType, there, 42).1 == Tunneled
            && Parse(UnknownType, back, 42).0 == Success && Parse(UnknownType, back, 42).1 == PlainPacket
  {
    hide Plain, Tunnel;
    var there, back := UdpFrame([0x30, 0x39], [0x08, 0x68]), UdpFrame([0x08, 0x68], [0x30, 0x39]);
    assert OnWireV4(there, 42, 5) && OnWireV4(back, 42, 5);
    PlainOnWireV4(there, 42, 5);
    PlainOnWireV4(back, 42, 5);
    TunnelByPort(there, 42, 34);
    TunnelByPort(back, 42, 34);
    PlainIsLaidOut(there, 42);
    NoRoomForGtp(there);
  }

  lemma NoRoomForGtp(buf: seq<Byte>)
    requires Backed(buf, 42) && Plain(buf, 42).0 == Success && Plain(buf, 42).1.len == 42
    ensures Tunnel(buf, 42).0 == Invalid
  {
    hide Plain;
  }

  /** An IPv4 packet of one byte: the contexts of plain_parse and unknown_parse differ. */
  lemma FailsLateWitness()
    ensures var buf: seq<Byte> := seq(12, _ => 0) + [8, 0, 0, 0, 0];
            && FailsLate(buf, 15) && !IsGtpu(buf, 15)
            && Parse(PlainPacket, buf, 15).0 == Parse(UnknownType, buf, 15).0 == Invalid
            && Parse(PlainPacket, buf, 15).2.inner != Parse(UnknownType, buf, 15).2.inner
  {}

  /**
   unknown_parse, from a zeroed context. Unfragmented UDP to the GTP-U port is parsed exactly as tunnel_parse does.
   Everything else gets the code of plain_parse; the inner contexts differ exactly for packets that fail behind the
   link layer, because plain_parse leaves a partial context behind then and unknown_parse leaves none.
   */
  method UnknownParse(buf: seq<Byte>, end: nat) returns (ret: Code, ctx: TunCtx, kind: PacketType)
    requires Backed(buf, end)
    ensures (ret, kind, ctx) == Parse(UnknownType, buf, end)
    ensures IsGtpu(buf, end) ==> (ret, ctx) == Tunnel(buf, end) && kind == Tunneled
    ensures !IsGtpu(buf, end) ==> ret == Plain(buf, end).0
    ensures !IsGtpu(buf, end) ==> (ctx.inner != Plain(buf, end).1 <==> FailsLate(buf, end))
  {
    ConnFits(buf, end);
    ctx, kind := NO_TUN, UnknownType;
    var len := 0;
    var (c, link) := Link(buf, len, end, NO_LINK);
    if c != Success {
      return c, ctx, kind;
    }
    len := len + link.len;
    NetworkFits(buf, len, end, link.nextProto, NO_NETWORK);
    var network;
    ret, network := NetworkParse(buf, len, end, link.nextProto, NO_NETWORK);
    if ret != Success {
      return;
    }
    len := len + network.len;
    if network.frag {
      kind := PlainPacket;
      ctx := ctx.(inner := ctx.inner.(link := link, network := network, len := ctx.inner.len + len));
      ctx := ctx.(len := ctx.len + len);
      return Again, ctx, kind;
    }
    var (d, transport) := Transport(buf, len, end, network.nextProto, NO_TRANSPORT);
    if d != Success {
      return d, ctx, kind;
    }
    len := len + transport.len;
    if transport.proto != PROTO_UDP || Be16(buf, transport.hdr.off + 2) != GTPU_PORT {
      kind := PlainPacket;
      ctx := ctx.(inner := ctx.inner.(link := link, network := network, transport := transport,
                                      len := ctx.inner.len + len));
      ctx := ctx.(len := ctx.len + len);
      return Success, ctx, kind;
    }
    kind := Tunneled;
    ctx := ctx.(link := link, network := network, transport := transport);
    ctx := ctx.(len := ctx.len + len);
    ret, ctx := ParseEncapsulated(buf, end, ctx);
  }
}
