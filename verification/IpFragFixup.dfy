/** One's complement arithmetic of the Internet checksum (RFC 1071), over big-endian 16-bit words. */
module Checksum {
  import opened Bytes
  import opened ParserSpec

  /** A 16-bit field overwritten with the low 16 bits of `v`, in network order. */
  function PutBe16(buf: seq<Byte>, at: nat, v: nat): (r: seq<Byte>)
    requires at + 2 <= |buf|
    ensures |r| == |buf|
  {
    buf[at := v / 256 % 256][at + 1 := v % 256]
  }

  lemma Be16OfPut(buf: seq<Byte>, at: nat, v: nat, q: nat)
    requires at + 2 <= |buf| && q + 2 <= |buf|
    ensures q == at ==> Be16(PutBe16(buf, at, v), q) == v % 65536
    ensures q + 2 <= at || at + 2 <= q ==> Be16(PutBe16(buf, at, v), q) == Be16(buf, q)
  {
    hide U8, PutBe16;
    U8OfPut(buf, at, v, q);
    U8OfPut(buf, at, v, q + 1);
    TwoBytes(v);
  }

  lemma TwoBytes(v: nat)
    ensures (v / 256 % 256) * 256 + v % 256 == v % 65536
    ensures v % 65536 % 256 == v % 256
  {
    var high, low := v / 65536, v % 65536;
    QuotientOf(high * 256, low / 256, low % 256, v);
    QuotientOf(0, low / 256, low % 256, low);
    RemainderOf(high, low / 256);
  }

  lemma QuotientOf(a: nat, b: nat, c: nat, v: nat)
    requires v == (a + b) * 256 + c && c < 256
    ensures v / 256 == a + b && v % 256 == c
  {}

  lemma RemainderOf(a: nat, b: nat)
    requires b < 256
    ensures (a * 256 + b) % 256 == b
  {}

  lemma U8OfPut(buf: seq<Byte>, at: nat, v: nat, q: nat)
    requires at + 2 <= |buf| && q < |buf|
    ensures U8(PutBe16(buf, at, v), q)
            == if q == at then v / 256 % 256 else if q == at + 1 then v % 256 else U8(buf, q)
  {}

  /** The sum of `words` consecutive 16-bit words. */
  function WordSum(buf: seq<Byte>, at: nat, words: nat): nat
    requires at + 2 * words <= |buf|
    decreases words
  {
    if words == 0 then 0 else Be16(buf, at) + WordSum(buf, at + 2, words - 1)
  }

  /** Adding the carries back in until the sum fits 16 bits. */
  function Fold(x: nat): (r: nat)
    ensures r < 65536
    ensures r % 65535 == x % 65535
    ensures r == 0 <==> x == 0
  {
    if x < 65536 then x else
    assert (x % 65536 + x / 65536) % 65535 == x % 65535 by {
      var q := x / 65536;
      assert x == x % 65536 + q + q * 65535;
    }
    Fold(x % 65536 + x / 65536)
  }

  lemma FoldOfMultiple(x: nat)
    requires x > 0 && x % 65535 == 0
    ensures Fold(x) == 65535
  {
    var r := Fold(x);
    assert r % 65535 == 0 && 0 < r < 65536;
  }

  lemma DifferenceIsMultiple(x: nat, r: nat)
    requires r <= x && r % 65535 == x % 65535
    ensures (x - r) % 65535 == 0
  {
    var q, k := x / 65535, r / 65535;
    assert x - r == (q - k) * 65535;
  }

  lemma {:induction false} FoldShrinks(x: nat)
    ensures Fold(x) <= x
    decreases x
  {
    if x >= 65536 {
      FoldShrinks(x % 65536 + x / 65536);
    }
  }

  /** A sum with the complement of its fold added to it folds to all ones. */
  lemma FoldComplement(x: nat)
    ensures Fold(x + (65535 - Fold(x))) == 65535
  {
    hide Fold;
    FoldShrinks(x);
    DifferenceIsMultiple(x, Fold(x));
    FoldOfMultiple(x - Fold(x) + 65535);
  }

  /** The numerical example of RFC 1071 section 3. */
  lemma PublishedSum()
    ensures Fold(WordSum([0x00, 0x01, 0xf2, 0x03, 0xf4, 0xf5, 0xf6, 0xf7], 0, 4)) == 0xddf2
  {
    var b: seq<Byte> := [0x00, 0x01, 0xf2, 0x03, 0xf4, 0xf5, 0xf6, 0xf7];
    assert WordSum(b, 6, 1) == Be16(b, 6) + WordSum(b, 8, 0);
    assert WordSum(b, 4, 2) == Be16(b, 4) + WordSum(b, 6, 1);
    assert WordSum(b, 2, 3) == Be16(b, 2) + WordSum(b, 4, 2);
  }

  lemma {:induction false} WordSumFrame(a: seq<Byte>, b: seq<Byte>, at: nat, words: nat)
    requires |a| == |b| && at + 2 * words <= |a|
    requires forall i :: at <= i < at + 2 * words ==> a[i] == b[i]
    ensures WordSum(a, at, words) == WordSum(b, at, words)
    decreases words
  {
    if words > 0 {
      WordSumFrame(a, b, at + 2, words - 1);
    }
  }

  lemma {:induction false} WordSumOfPut(buf: seq<Byte>, at: nat, words: nat, k: nat, v: nat)
    requires at + 2 * words <= |buf| && k < words
    ensures WordSum(PutBe16(buf, at + 2 * k, v), at, words) + Be16(buf, at + 2 * k)
         == WordSum(buf, at, words) + v % 65536
    decreases words
  {
    var put := PutBe16(buf, at + 2 * k, v);
    Be16OfPut(buf, at + 2 * k, v, at);
    if k == 0 {
      WordSumFrame(put, buf, at + 2, words - 1);
    } else {
      WordSumOfPut(buf, at + 2, words - 1, k - 1, v);
    }
  }

  /** Number of 16-bit words of an IPv4 header, from its IHL nibble. */
  function HeaderWords(buf: seq<Byte>, at: nat): (w: nat)
    requires at < |buf|
  {
    (U8(buf, at) % 16) * 2
  }

  /** rte_ipv4_cksum over the header as long as its IHL says, with the checksum field zeroed first. */
  function WithIpv4Checksum(buf: seq<Byte>, at: nat): (r: seq<Byte>)
    requires at + 20 <= |buf| && at + 2 * HeaderWords(buf, at) <= |buf|
    ensures |r| == |buf|
  {
    var zeroed := PutBe16(buf, at + 10, 0);
    PutBe16(zeroed, at + 10, 65535 - Fold(WordSum(zeroed, at, HeaderWords(buf, at))))
  }

  /** RFC 791 section 3.1: the one's complement sum over the header, checksum included, is all ones. */
  predicate ChecksumVerifies(buf: seq<Byte>, at: nat)
    requires at < |buf| && at + 2 * HeaderWords(buf, at) <= |buf|
  {
    Fold(WordSum(buf, at, HeaderWords(buf, at))) == 65535
  }

  /**
   The stored checksum verifies if and only if the checksum field lies within the header that the IHL declares, or the
   header without it, one or two words long, happened to verify before.
   */
  lemma StoredChecksumVerifies(buf: seq<Byte>, at: nat)
    requires at + 20 <= |buf| && at + 2 * HeaderWords(buf, at) <= |buf|
    ensures HeaderWords(WithIpv4Checksum(buf, at), at) == HeaderWords(buf, at)
    ensures ChecksumVerifies(WithIpv4Checksum(buf, at), at) <==> U8(buf, at) % 16 >= 3 || ChecksumVerifies(buf, at)
  {
    if U8(buf, at) % 16 >= 3 {
      FieldInsideVerifies(buf, at);
    } else {
      WordSumFrame(buf, WithIpv4Checksum(buf, at), at, HeaderWords(buf, at));
    }
  }

  lemma FieldInsideVerifies(buf: seq<Byte>, at: nat)
    requires at + 20 <= |buf| && at + 2 * HeaderWords(buf, at) <= |buf|
    requires U8(buf, at) % 16 >= 3
    ensures HeaderWords(WithIpv4Checksum(buf, at), at) == HeaderWords(buf, at)
    ensures ChecksumVerifies(WithIpv4Checksum(buf, at), at)
  {
    hide PutBe16, Be16, Fold, WordSum;
    var words := HeaderWords(buf, at);
    var zeroed := PutBe16(buf, at + 10, 0);
    var sum := WordSum(zeroed, at, words);
    Be16OfPut(buf, at + 10, 0, at + 10);
    WordSumOfPut(zeroed, at, words, 5, 65535 - Fold(sum));
    FirstByteKept(buf, at);
    FoldComplement(sum);
  }

  lemma FirstByteKept(buf: seq<Byte>, at: nat)
    requires at + 20 <= |buf| && at + 2 * HeaderWords(buf, at) <= |buf|
    ensures U8(WithIpv4Checksum(buf, at), at) == U8(buf, at)
  {}

  /** A header of one word, which the parser accepts: its stored checksum does not verify. */
  lemma ShortHeaderFails()
    ensures var buf: seq<Byte> := [0x41] + seq(19, _ => 0);
            HeaderWords(buf, 0) == 2 && !ChecksumVerifies(WithIpv4Checksum(buf, 0), 0)
  {
    var buf: seq<Byte> := [0x41] + seq(19, _ => 0);
    StoredChecksumVerifies(buf, 0);
    assert WordSum(buf, 0, 2) == Be16(buf, 0) + WordSum(buf, 2, 1);
    assert WordSum(buf, 2, 1) == Be16(buf, 2) + WordSum(buf, 4, 0);
  }
}

/** The headers of a reassembled packet, brought up to date in place before it is sent. */
module IpFragFixup {
  import opened Bytes
  import opened ParserSpec
  import opened PacketParser
  import opened Checksum

  /** The mbuf of a packet: `data` is its first segment, and the headers lie in its first `dataLen` bytes. */
  class Packet {
    const data: array<Byte>
    var dataLen: nat
    var pktLen: nat
    var innerModified: bool
    var outerModified: bool
    var l2Len: nat
    var l3Len: nat
    var txIpCksum: bool
    var txUdpCksum: bool

    ghost predicate Valid()
      reads this
    {
      dataLen + 2 <= data.Length && dataLen <= pktLen
    }

    constructor (bytes: array<Byte>, dataLen: nat, pktLen: nat, inner: bool, outer: bool)
      requires dataLen + 2 <= bytes.Length && dataLen <= pktLen
      ensures Valid() && data == bytes && this.dataLen == dataLen && this.pktLen == pktLen
      ensures innerModified == inner && outerModified == outer
    {
      data := bytes;
      this.dataLen, this.pktLen := dataLen, pktLen;
      innerModified, outerModified := inner, outer;
      l2Len, l3Len, txIpCksum, txUdpCksum := 0, 0, false, false;
    }
  }

  // ---------------------------------------------------------------- specification

  /** The parse that a fix-up relies on: the outcome of the parser on the packet as it is. */
  ghost predicate Parsed(bytes: seq<Byte>, end: nat, kind: PacketType, ctx: TunCtx) {
    && Backed(bytes, end)
    && (kind.Tunneled? ==> Tunnel(bytes, end) == (Success, ctx))
    && (kind.PlainPacket? ==> Plain(bytes, end) == (Success, ctx.inner) && ctx.network == NO_NETWORK)
    && !kind.UnknownType?
  }

  function UdpAt(ctx: TunCtx): nat { 14 + ctx.network.len }
  function GtpAt(ctx: TunCtx): nat { UdpAt(ctx) + ctx.transport.len }
  function InnerAt(ctx: TunCtx): nat { GtpAt(ctx) + ctx.gtp.len }

  /** What a successful parse of a tunnelled packet says about where its headers are. */
  ghost predicate Fits(bytes: seq<Byte>, end: nat, ctx: TunCtx) {
    && UdpAt(ctx) + 8 <= end && GtpAt(ctx) + 8 <= InnerAt(ctx) && UdpAt(ctx) + 8 <= InnerAt(ctx)
    && InnerAt(ctx) + ctx.inner.network.len <= end && InnerAt(ctx) < end <= |bytes| && 34 <= end
    && ctx.transport.len % 4 == 0
    && (if ctx.network.ipVersion == PROTO_IPV4
        then ctx.network.len == 2 * HeaderWords(bytes, 14) && 18 <= GtpAt(ctx)
        else 54 <= UdpAt(ctx))
    && (ctx.inner.network.ipVersion == PROTO_IPV4 ==>
          && InnerAt(ctx) + 20 <= end
          && ctx.inner.network.len == 2 * HeaderWords(bytes, InnerAt(ctx)))
  }

  lemma NetworkLength(bytes: seq<Byte>, at: nat, end: nat, expected: nat)
    requires Backed(bytes, end) && at <= end
    ensures var (c, network) := Network(bytes, at, end, expected, NO_NETWORK);
            c == Success ==>
              && at < end
              && if network.ipVersion == PROTO_IPV4
                 then network.len == 2 * HeaderWords(bytes, at) && at + 20 <= end && U8(bytes, at) / 16 == 4
                 else network.ipVersion == PROTO_IPV6 && network.len >= 40
  {}

  lemma PlainLengths(bytes: seq<Byte>, end: nat)
    requires Backed(bytes, end) && Plain(bytes, end).0 == Success
    ensures var ctx := Plain(bytes, end).1;
            && ctx.len == 14 + ctx.network.len + ctx.transport.len && 14 + ctx.network.len + 8 <= end
            && ctx.transport.len % 4 == 0
            && (ctx.transport.proto == PROTO_TCP || (ctx.transport.proto == PROTO_UDP && ctx.transport.len == 8))
            && (if ctx.network.ipVersion == PROTO_IPV4
                then ctx.network.len == 2 * HeaderWords(bytes, 14) && 34 <= end && U8(bytes, 14) / 16 == 4
                else ctx.network.ipVersion == PROTO_IPV6 && ctx.network.len >= 40)
  {
    PlainIsLaidOut(bytes, end);
    NetworkLength(bytes, 14, end, Link(bytes, 0, end, NO_LINK).1.nextProto);
  }

  lemma GtpuLength(bytes: seq<Byte>, at: nat, end: nat)
    requires Backed(bytes, end) && at <= end && Gtpu(bytes, at, end, NO_GTP).0 == Success
    ensures var gtp := Gtpu(bytes, at, end, NO_GTP).1;
            gtp.len >= 8 && at + gtp.len <= end && U8(bytes, at) / 32 == 1
  {}

  lemma InnerLengths(bytes: seq<Byte>, base: nat, end: nat)
    requires Backed(bytes, end) && base <= end && Conn(bytes, base, end, NO_CONN).0 == Success
    ensures var ctx := Conn(bytes, base, end, NO_CONN).1;
            && base < end && base + ctx.network.len <= end
            && if ctx.network.ipVersion == PROTO_IPV4
               then base + 20 <= end && ctx.network.len == 2 * HeaderWords(bytes, base)
               else ctx.network.len >= 40
  {
    NetworkFits(bytes, base, end, 0, NO_NETWORK);
    NetworkLength(bytes, base, end, 0);
  }

  lemma TunnelFits(bytes: seq<Byte>, end: nat)
    requires Backed(bytes, end) && Tunnel(bytes, end).0 == Success
    ensures Fits(bytes, end, Tunnel(bytes, end).1)
  {
    hide Plain, Gtpu, Conn, HeaderWords;
    PlainLengths(bytes, end);
    ConnFits(bytes, end);
    var (_, outer) := Plain(bytes, end);
    GtpuLength(bytes, outer.len, end);
    var (_, gtp) := Gtpu(bytes, outer.len, end, NO_GTP);
    if outer.network.ipVersion == PROTO_IPV4 {
      WholeWords(bytes, outer.network.len);
    }
    InnerLengths(bytes, outer.len + gtp.len, end);
  }

  lemma WholeWords(bytes: seq<Byte>, len: nat)
    requires 14 < |bytes| && len == 2 * HeaderWords(bytes, 14)
    ensures len % 4 == 0
  {}

  /** The lengths of the encapsulation, from the GTP-U header outwards. */
  function WithLengths(bytes: seq<Byte>, end: nat, pktLen: nat, ctx: TunCtx): (r: seq<Byte>)
    requires Fits(bytes, end, ctx) && end <= pktLen
    ensures |r| == |bytes| && Fits(r, end, ctx)
  {
    var b1 := PutBe16(bytes, GtpAt(ctx) + 2, pktLen - (GtpAt(ctx) + 8));
    var b2 := PutBe16(b1, UdpAt(ctx) + 4, pktLen - UdpAt(ctx));
    if ctx.network.ipVersion == PROTO_IPV4 then PutBe16(b2, 14 + 2, pktLen - 14) else PutBe16(b2, 14 + 4, pktLen - 54)
  }

  function WithOuterChecksum(bytes: seq<Byte>, end: nat, ctx: TunCtx, hw: bool): (r: seq<Byte>)
    requires Fits(bytes, end, ctx)
    ensures |r| == |bytes| && Fits(r, end, ctx)
  {
    if ctx.network.ipVersion == PROTO_IPV4 && !hw then WithIpv4Checksum(bytes, 14) else bytes
  }

  /** rte_ipv6_phdr_cksum: addresses, payload length and next header of the outer IPv6 header (RFC 8200 section 8.1). */
  function PseudoHeaderSum(bytes: seq<Byte>): (sum: nat)
    requires 54 <= |bytes|
    ensures sum < 65536
  {
    Fold(WordSum(bytes, 22, 16) + Be16(bytes, 18) + U8(bytes, 20))
  }

  /** Zero, or the pseudo-header sum that the device completes. */
  function WithUdpChecksum(bytes: seq<Byte>, end: nat, ctx: TunCtx, hw: bool): (r: seq<Byte>)
    requires Fits(bytes, end, ctx)
    ensures |r| == |bytes| && Fits(r, end, ctx)
  {
    PutBe16(bytes, UdpAt(ctx) + 6, if ctx.network.ipVersion != PROTO_IPV4 && hw then PseudoHeaderSum(bytes) else 0)
  }

  function WithInnerChecksum(bytes: seq<Byte>, end: nat, ctx: TunCtx): (r: seq<Byte>)
    requires Fits(bytes, end, ctx)
    ensures |r| == |bytes|
  {
    if ctx.inner.network.ipVersion == PROTO_IPV4 then WithIpv4Checksum(bytes, InnerAt(ctx)) else bytes
  }

  function Refitted(bytes: seq<Byte>, end: nat, pktLen: nat, ctx: TunCtx, hw: bool): (r: seq<Byte>)
    requires Fits(bytes, end, ctx) && end <= pktLen
    ensures |r| == |bytes|
  {
    var b1 := WithLengths(bytes, end, pktLen, ctx);
    var b2 := WithOuterChecksum(b1, end, ctx, hw);
    var b3 := WithUdpChecksum(b2, end, ctx, hw);
    WithInnerChecksum(b3, end, ctx)
  }

  // ---------------------------------------------------------------- what the specification achieves

  /** The tunnel runs over UDP, as GTP-U does; the parser also takes TCP, with a header of any number of words. */
  ghost predicate OverUdp(ctx: TunCtx) {
    ctx.transport.proto == PROTO_UDP && ctx.transport.len == 8
  }

  ghost predicate IsV4(ctx: TunCtx) {
    ctx.network.ipVersion == PROTO_IPV4
  }

  /** The UDP checksum field falls onto the GTP-U length behind a transport header of one word. */
  ghost predicate UdpChecksumLands(ctx: TunCtx) {
    ctx.transport.len == 4
  }

  /** The IPv4 checksum field falls onto the GTP-U length when the headers before it are two words long. */
  ghost predicate IpChecksumLands(ctx: TunCtx, hw: bool) {
    IsV4(ctx) && !hw && ctx.network.len + ctx.transport.len == 8 && !UdpChecksumLands(ctx)
  }

  ghost predicate GtpLengthOverwritten(ctx: TunCtx, hw: bool) {
    UdpChecksumLands(ctx) || IpChecksumLands(ctx, hw)
  }

  /** Everything but the length fields, the outer IPv4 and UDP checksums and the inner IPv4 checksum is kept. */
  ghost predicate IsRefitted(ctx: TunCtx, i: int) {
    || (GtpAt(ctx) + 2 <= i < GtpAt(ctx) + 4) || (UdpAt(ctx) + 4 <= i < UdpAt(ctx) + 8)
    || (if ctx.network.ipVersion == PROTO_IPV4 then 16 <= i < 18 || 24 <= i < 26 else 18 <= i < 20)
    || (ctx.inner.network.ipVersion == PROTO_IPV4 && InnerAt(ctx) + 10 <= i < InnerAt(ctx) + 12)
  }

  lemma RefitKeepsTheRest(bytes: seq<Byte>, end: nat, pktLen: nat, ctx: TunCtx, hw: bool, i: nat)
    requires Fits(bytes, end, ctx) && end <= pktLen && i < |bytes| && !IsRefitted(ctx, i)
    ensures Refitted(bytes, end, pktLen, ctx, hw)[i] == bytes[i]
  {}

  ghost function IpField(r: seq<Byte>, ctx: TunCtx): int
    requires 20 <= |r|
  {
    Be16(r, if IsV4(ctx) then 16 else 18)
  }

  /** What the IP length field should say: with the header for IPv4, without it for IPv6. */
  ghost function IpLength(pktLen: nat, ctx: TunCtx): int {
    if IsV4(ctx) then pktLen - 14 else pktLen - 54
  }

  /** The IPv4 header with its new length. */
  ghost function Sized(bytes: seq<Byte>, pktLen: nat): (r: seq<Byte>)
    requires 18 <= |bytes| && 14 <= pktLen
    ensures |r| == |bytes|
  {
    PutBe16(bytes, 16, pktLen - 14)
  }

  /** What the IPv4 checksum of a header shorter than three words is: it does not cover itself. */
  ghost function ShortChecksum(bytes: seq<Byte>, pktLen: nat): int
    requires 34 <= |bytes| && 14 <= pktLen && 14 + 2 * HeaderWords(bytes, 14) <= |bytes|
  {
    65535 - Fold(WordSum(Sized(bytes, pktLen), 14, HeaderWords(bytes, 14)))
  }

  ghost function UdpChecksum(bytes: seq<Byte>, pktLen: nat, ctx: TunCtx, hw: bool): int
    requires 54 <= |bytes| || IsV4(ctx)
    requires 54 <= pktLen || IsV4(ctx)
  {
    if IsV4(ctx) || !hw then 0 else PseudoHeaderSum(PutBe16(bytes, 18, pktLen - 54))
  }

  /** What ends up in the length field of the GTP-U header. */
  ghost function GtpField(bytes: seq<Byte>, end: nat, pktLen: nat, ctx: TunCtx, hw: bool): int
    requires Fits(bytes, end, ctx) && end <= pktLen
  {
    if UdpChecksumLands(ctx) then UdpChecksum(bytes, pktLen, ctx, hw)
    else if IpChecksumLands(ctx, hw) then ShortChecksum(bytes, pktLen)
    else (pktLen - GtpAt(ctx) - 8) % 65536
  }

  /**
   The length fields of the refitted packet, whatever the transport. Those of IP and UDP are the true lengths if and
   only if the IP packet is short enough for its 16-bit field, and so is that of GTP-U unless a checksum was written
   over it. Over UDP all are, and so nest exactly, if and only if both hold.
   */
  lemma RefitNestsLengths(bytes: seq<Byte>, end: nat, pktLen: nat, ctx: TunCtx, hw: bool)
    requires Fits(bytes, end, ctx) && end <= pktLen
    ensures var r := Refitted(bytes, end, pktLen, ctx, hw);
            var ip, udp, gtp := IpField(r, ctx), Be16(r, UdpAt(ctx) + 4), Be16(r, GtpAt(ctx) + 2);
            var ipHeader := if IsV4(ctx) then ctx.network.len else ctx.network.len - 40;
            var fits := IpLength(pktLen, ctx) < 65536;
            && ip == IpLength(pktLen, ctx) % 65536 && udp == (pktLen - UdpAt(ctx)) % 65536
            && gtp == GtpField(bytes, end, pktLen, ctx, hw)
            && (ip == IpLength(pktLen, ctx) && udp == pktLen - UdpAt(ctx) <==> fits)
            && (fits && !GtpLengthOverwritten(ctx, hw) ==> gtp == pktLen - GtpAt(ctx) - 8)
            && (OverUdp(ctx) ==>
                  var exact := fits && !GtpLengthOverwritten(ctx, hw);
                  && (ip == IpLength(pktLen, ctx) && udp == pktLen - UdpAt(ctx) && gtp == pktLen - GtpAt(ctx) - 8
                      <==> exact)
                  && (exact ==> ip == ipHeader + udp && udp == 8 + 8 + gtp))
  {
    hide PutBe16, Be16, WithIpv4Checksum, WithLengths, HeaderWords, Fold, ShortChecksum, UdpChecksum;
    LengthsAfterLengths(bytes, end, pktLen, ctx);
    ChecksumsKeepLengths(bytes, end, pktLen, ctx, hw);
    if OverUdp(ctx) && IpChecksumLands(ctx, hw) {
      EmptyChecksum(bytes, pktLen);
    }
  }

  lemma EmptyChecksum(bytes: seq<Byte>, pktLen: nat)
    requires 34 <= |bytes| && 14 <= pktLen && HeaderWords(bytes, 14) == 0
    ensures ShortChecksum(bytes, pktLen) == 65535
  {}

  lemma LengthsAfterLengths(bytes: seq<Byte>, end: nat, pktLen: nat, ctx: TunCtx)
    requires Fits(bytes, end, ctx) && end <= pktLen
    ensures var r := WithLengths(bytes, end, pktLen, ctx);
            && Be16(r, GtpAt(ctx) + 2) == (pktLen - GtpAt(ctx) - 8) % 65536
            && Be16(r, UdpAt(ctx) + 4) == (pktLen - UdpAt(ctx)) % 65536
            && IpField(r, ctx) == IpLength(pktLen, ctx) % 65536
  {
    hide PutBe16, Be16, HeaderWords;
    var gtp, udp, ip := GtpAt(ctx) + 2, UdpAt(ctx) + 4, if IsV4(ctx) then 16 else 18;
    var ipLen := IpLength(pktLen, ctx);
    var b1 := PutBe16(bytes, gtp, pktLen - GtpAt(ctx) - 8);
    var b2 := PutBe16(b1, udp, pktLen - UdpAt(ctx));
    Be16OfPut(bytes, gtp, pktLen - GtpAt(ctx) - 8, gtp);
    Be16OfPut(b1, udp, pktLen - UdpAt(ctx), gtp);
    Be16OfPut(b1, udp, pktLen - UdpAt(ctx), udp);
    Be16OfPut(b2, ip, ipLen, gtp);
    Be16OfPut(b2, ip, ipLen, udp);
    Be16OfPut(b2, ip, ipLen, ip);
  }

  /** The IPv4 checksum of the outer header leaves the lengths alone, unless it falls onto one. */
  lemma OuterChecksumKeepsLengths(bytes: seq<Byte>, end: nat, ctx: TunCtx, hw: bool)
    requires Fits(bytes, end, ctx)
    ensures var r := WithOuterChecksum(bytes, end, ctx, hw);
            && Be16(r, UdpAt(ctx) + 4) == Be16(bytes, UdpAt(ctx) + 4)
            && (!GtpLengthOverwritten(ctx, hw) ==> Be16(r, GtpAt(ctx) + 2) == Be16(bytes, GtpAt(ctx) + 2))
            && (IpChecksumLands(ctx, hw) ==>
                  Be16(r, GtpAt(ctx) + 2)
                  == 65535 - Fold(WordSum(PutBe16(bytes, 24, 0), 14, HeaderWords(bytes, 14))))
            && IpField(r, ctx) == IpField(bytes, ctx)
  {
    hide PutBe16, Be16, HeaderWords, Fold;
    if IsV4(ctx) && !hw {
      WholeWords(bytes, ctx.network.len);
      var zeroed := PutBe16(bytes, 24, 0);
      var v := 65535 - Fold(WordSum(zeroed, 14, HeaderWords(bytes, 14)));
      Be16OfPut(bytes, 24, 0, UdpAt(ctx) + 4);
      Be16OfPut(bytes, 24, 0, GtpAt(ctx) + 2);
      Be16OfPut(bytes, 24, 0, 16);
      Be16OfPut(zeroed, 24, v, UdpAt(ctx) + 4);
      Be16OfPut(zeroed, 24, v, GtpAt(ctx) + 2);
      Be16OfPut(zeroed, 24, v, 16);
    }
  }

  /** The checksum of a header that does not reach its own checksum field, after the lengths are in. */
  lemma ShortChecksumIs(bytes: seq<Byte>, end: nat, pktLen: nat, ctx: TunCtx)
    requires Fits(bytes, end, ctx) && end <= pktLen && IpChecksumLands(ctx, false)
    ensures var b := WithLengths(bytes, end, pktLen, ctx);
            && HeaderWords(b, 14) == HeaderWords(bytes, 14)
            && 65535 - Fold(WordSum(PutBe16(b, 24, 0), 14, HeaderWords(b, 14))) == ShortChecksum(bytes, pktLen)
  {
    hide Fold;
    var b := WithLengths(bytes, end, pktLen, ctx);
    WholeWords(bytes, ctx.network.len);
    WordSumFrame(PutBe16(b, 24, 0), Sized(bytes, pktLen), 14, HeaderWords(bytes, 14));
  }

  lemma UdpChecksumIs(bytes: seq<Byte>, end: nat, pktLen: nat, ctx: TunCtx)
    requires Fits(bytes, end, ctx) && end <= pktLen && !IsV4(ctx)
    ensures PseudoHeaderSum(WithLengths(bytes, end, pktLen, ctx)) == PseudoHeaderSum(PutBe16(bytes, 18, pktLen - 54))
  {
    hide HeaderWords, PseudoHeaderSum;
    var b1 := PutBe16(bytes, GtpAt(ctx) + 2, pktLen - (GtpAt(ctx) + 8));
    var b2 := PutBe16(b1, UdpAt(ctx) + 4, pktLen - UdpAt(ctx));
    assert forall i :: 0 <= i < 54 ==> b2[i] == bytes[i];
    SameSum(PutBe16(b2, 18, pktLen - 54), PutBe16(bytes, 18, pktLen - 54));
  }

  lemma SameSum(a: seq<Byte>, b: seq<Byte>)
    requires 54 <= |a| == |b| && forall i :: 0 <= i < 54 ==> a[i] == b[i]
    ensures PseudoHeaderSum(a) == PseudoHeaderSum(b)
  {
    hide Fold, WordSum;
    WordSumFrame(a, b, 22, 16);
  }

  lemma ChecksumsKeepLengths(bytes: seq<Byte>, end: nat, pktLen: nat, ctx: TunCtx, hw: bool)
    requires Fits(bytes, end, ctx) && end <= pktLen
    ensures var b := WithLengths(bytes, end, pktLen, ctx);
            var r := Refitted(bytes, end, pktLen, ctx, hw);
            && Be16(r, UdpAt(ctx) + 4) == Be16(b, UdpAt(ctx) + 4) && IpField(r, ctx) == IpField(b, ctx)
            && Be16(r, UdpAt(ctx) + 6) == UdpChecksum(bytes, pktLen, ctx, hw)
            && (!GtpLengthOverwritten(ctx, hw) ==> Be16(r, GtpAt(ctx) + 2) == Be16(b, GtpAt(ctx) + 2))
            && (IpChecksumLands(ctx, hw) ==> Be16(r, GtpAt(ctx) + 2) == ShortChecksum(bytes, pktLen))
  {
    hide PutBe16, Be16, HeaderWords, WithLengths, WithOuterChecksum, PseudoHeaderSum, ShortChecksum, Fold;
    var lengths := WithLengths(bytes, end, pktLen, ctx);
    OuterChecksumKeepsLengths(lengths, end, ctx, hw);
    if IpChecksumLands(ctx, hw) {
      ShortChecksumIs(bytes, end, pktLen, ctx);
    }
    var outer := WithOuterChecksum(lengths, end, ctx, hw);
    var v := if !IsV4(ctx) && hw then PseudoHeaderSum(outer) else 0;
    if !IsV4(ctx) {
      UdpChecksumIs(bytes, end, pktLen, ctx);
      NoOuterChecksum(lengths, end, ctx, hw);
    }
    UdpChecksumKeepsLengths(outer, end, ctx, hw, v);
  }

  lemma NoOuterChecksum(bytes: seq<Byte>, end: nat, ctx: TunCtx, hw: bool)
    requires Fits(bytes, end, ctx) && !IsV4(ctx)
    ensures WithOuterChecksum(bytes, end, ctx, hw) == bytes
  {}

  lemma UdpChecksumKeepsLengths(outer: seq<Byte>, end: nat, ctx: TunCtx, hw: bool, v: nat)
    requires Fits(outer, end, ctx) && v == if !IsV4(ctx) && hw then PseudoHeaderSum(outer) else 0
    ensures var r := WithInnerChecksum(WithUdpChecksum(outer, end, ctx, hw), end, ctx);
            && Be16(r, UdpAt(ctx) + 4) == Be16(outer, UdpAt(ctx) + 4) && IpField(r, ctx) == IpField(outer, ctx)
            && Be16(r, UdpAt(ctx) + 6) == v
            && (!UdpChecksumLands(ctx) ==> Be16(r, GtpAt(ctx) + 2) == Be16(outer, GtpAt(ctx) + 2))
  {
    hide PutBe16, Be16, HeaderWords, PseudoHeaderSum;
    var ip := if IsV4(ctx) then 16 else 18;
    Be16OfPut(outer, UdpAt(ctx) + 6, v, UdpAt(ctx) + 4);
    Be16OfPut(outer, UdpAt(ctx) + 6, v, UdpAt(ctx) + 6);
    Be16OfPut(outer, UdpAt(ctx) + 6, v, GtpAt(ctx) + 2);
    Be16OfPut(outer, UdpAt(ctx) + 6, v, ip);
    var b := WithUdpChecksum(outer, end, ctx, hw);
    if ctx.inner.network.ipVersion == PROTO_IPV4 {
      ChecksumKeepsEarlier(b, InnerAt(ctx), UdpAt(ctx) + 4);
      ChecksumKeepsEarlier(b, InnerAt(ctx), UdpAt(ctx) + 6);
      ChecksumKeepsEarlier(b, InnerAt(ctx), GtpAt(ctx) + 2);
      ChecksumKeepsEarlier(b, InnerAt(ctx), ip);
    }
  }

  lemma ChecksumKeepsEarlier(buf: seq<Byte>, at: nat, q: nat)
    requires at + 20 <= |buf| && at + 2 * HeaderWords(buf, at) <= |buf| && q + 2 <= at + 10
    ensures Be16(WithIpv4Checksum(buf, at), q) == Be16(buf, q)
  {
    hide PutBe16, Be16, HeaderWords;
    var zeroed := PutBe16(buf, at + 10, 0);
    Be16OfPut(buf, at + 10, 0, q);
    Be16OfPut(zeroed, at + 10, 65535 - Fold(WordSum(zeroed, at, HeaderWords(buf, at))), q);
  }

  /**
   In software mode the outer IPv4 header checksum verifies over the final bytes if and only if the IHL is at least
   three, or the shorter header with its new length happens to verify; the inner one if and only if its IHL is at least
   three or the shorter header verified before; and the outer UDP checksum is zero.
   */
  lemma RefitVerifies(bytes: seq<Byte>, end: nat, pktLen: nat, ctx: TunCtx)
    requires Fits(bytes, end, ctx) && end <= pktLen
    ensures var r := Refitted(bytes, end, pktLen, ctx, false);
            && (IsV4(ctx) ==>
                  && HeaderWords(r, 14) == HeaderWords(bytes, 14)
                  && (ChecksumVerifies(r, 14) <==>
                        ctx.network.len >= 12 || ChecksumVerifies(Sized(bytes, pktLen), 14)))
            && (ctx.inner.network.ipVersion == PROTO_IPV4 ==>
                  && HeaderWords(r, InnerAt(ctx)) == HeaderWords(bytes, InnerAt(ctx))
                  && (ChecksumVerifies(r, InnerAt(ctx)) <==>
                        ctx.inner.network.len >= 12 || ChecksumVerifies(bytes, InnerAt(ctx))))
            && Be16(r, UdpAt(ctx) + 6) == 0
  {
    hide Refitted, Be16, ChecksumVerifies, HeaderWords, WithLengths, PutBe16, ShortChecksum;
    ChecksumsKeepLengths(bytes, end, pktLen, ctx, false);
    if IsV4(ctx) {
      OuterVerifies(bytes, end, pktLen, ctx);
    }
    if ctx.inner.network.ipVersion == PROTO_IPV4 {
      InnerVerifies(bytes, end, pktLen, ctx, false);
    }
  }

  lemma OuterVerifies(bytes: seq<Byte>, end: nat, pktLen: nat, ctx: TunCtx)
    requires Fits(bytes, end, ctx) && end <= pktLen && IsV4(ctx)
    ensures var r := Refitted(bytes, end, pktLen, ctx, false);
            && HeaderWords(r, 14) == HeaderWords(bytes, 14)
            && (ChecksumVerifies(r, 14) <==> ctx.network.len >= 12 || ChecksumVerifies(Sized(bytes, pktLen), 14))
  {
    var b1 := WithLengths(bytes, end, pktLen, ctx);
    var b2 := WithOuterChecksum(b1, end, ctx, false);
    var r := Refitted(bytes, end, pktLen, ctx, false);
    StoredChecksumVerifies(b1, 14);
    WordSumFrame(b1, Sized(bytes, pktLen), 14, HeaderWords(bytes, 14));
    WordSumFrame(b2, r, 14, HeaderWords(bytes, 14));
  }

  /** The inner header gets its checksum in software, whatever the device does. */
  lemma InnerVerifies(bytes: seq<Byte>, end: nat, pktLen: nat, ctx: TunCtx, hw: bool)
    requires Fits(bytes, end, ctx) && end <= pktLen && ctx.inner.network.ipVersion == PROTO_IPV4
    ensures var r := Refitted(bytes, end, pktLen, ctx, hw);
            && HeaderWords(r, InnerAt(ctx)) == HeaderWords(bytes, InnerAt(ctx))
            && (ChecksumVerifies(r, InnerAt(ctx)) <==>
                  ctx.inner.network.len >= 12 || ChecksumVerifies(bytes, InnerAt(ctx)))
  {
    hide PseudoHeaderSum;
    var b1 := WithLengths(bytes, end, pktLen, ctx);
    var b2 := WithOuterChecksum(b1, end, ctx, hw);
    var b3 := WithUdpChecksum(b2, end, ctx, hw);
    StoredChecksumVerifies(b3, InnerAt(ctx));
    if ctx.inner.network.len < 12 {
      assert HeaderWords(bytes, InnerAt(ctx)) <= 4;
      WordSumFrame(bytes, b3, InnerAt(ctx), HeaderWords(bytes, InnerAt(ctx)));
    }
  }

  // ---------------------------------------------------------------- the fix-up leaves the parse alone

  lemma {:induction false} ChainSame(a: seq<Byte>, b: seq<Byte>, at: nat, proto: nat, end: nat, fragExt: Loc)
    requires |a| == |b| && Backed(a, end) && at <= end && Chain(a, at, proto, end, fragExt).ChainEnd?
    requires forall i :: at <= i < Chain(a, at, proto, end, fragExt).at ==> a[i] == b[i]
    ensures Chain(b, at, proto, end, fragExt) == Chain(a, at, proto, end, fragExt)
    decreases end - at
  {
    hide NextExtension;
    ExtensionByProtocol(a, b, at, proto);
    var x := NextExtension(a, at, proto);
    if x.Extension? {
      ChainSame(a, b, at + x.len, x.next, end, if proto == FRAGMENT then At(at) else fragExt);
    }
  }

  lemma Ipv6KeepsVersion(buf: seq<Byte>, at: nat, end: nat, ctx: NetworkCtx)
    requires Backed(buf, end) && at <= end
    ensures Ipv6(buf, at, end, ctx).1.ipVersion == ctx.ipVersion
  {
    hide Chain;
  }

  /** The bytes of a network header that its parse depends on. */
  ghost predicate NetworkAgrees(a: seq<Byte>, b: seq<Byte>, at: nat, network: NetworkCtx)
    requires |a| == |b| && at + 20 <= |a| && at + network.len <= |a|
  {
    && a[at] == b[at]
    && if network.ipVersion == PROTO_IPV4
       then Be16(a, at + 6) % 0x4000 == Be16(b, at + 6) % 0x4000 && a[at + 9] == b[at + 9]
       else a[at + 6] == b[at + 6] && forall i :: at + 40 <= i < at + network.len ==> a[i] == b[i]
  }

  lemma NetworkSame(a: seq<Byte>, b: seq<Byte>, at: nat, end: nat, expected: nat)
    requires |a| == |b| && Backed(a, end) && at + 20 <= end && Network(a, at, end, expected, NO_NETWORK).0 == Success
    requires at + Network(a, at, end, expected, NO_NETWORK).1.len <= end
    requires NetworkAgrees(a, b, at, Network(a, at, end, expected, NO_NETWORK).1)
    ensures Network(b, at, end, expected, NO_NETWORK) == Network(a, at, end, expected, NO_NETWORK)
  {
    hide Ipv6;
    if U8(a, at) / 16 == 6 {
      Ipv6KeepsVersion(a, at, end, NO_NETWORK.(ipVersion := PROTO_IPV6));
      Ipv6Same(a, b, at, end, NO_NETWORK.(ipVersion := PROTO_IPV6));
    }
  }

  lemma Ipv6Same(a: seq<Byte>, b: seq<Byte>, at: nat, end: nat, ctx: NetworkCtx)
    requires |a| == |b| && Backed(a, end) && at + 20 <= end && Ipv6(a, at, end, ctx).0 == Success
    requires at + Ipv6(a, at, end, ctx).1.len <= end && a[at + 6] == b[at + 6]
    requires forall i :: at + 40 <= i < at + Ipv6(a, at, end, ctx).1.len ==> a[i] == b[i]
    ensures Ipv6(b, at, end, ctx) == Ipv6(a, at, end, ctx)
  {
    hide Chain;
    ChainSame(a, b, at + 40, U8(a, at + 6), end, Null);
  }

  lemma TransportSame(a: seq<Byte>, b: seq<Byte>, at: nat, end: nat, proto: nat)
    requires |a| == |b| && Backed(a, end) && at <= end
    requires proto == PROTO_TCP && at + 20 <= end ==> a[at + 12] == b[at + 12]
    ensures Transport(b, at, end, proto, NO_TRANSPORT) == Transport(a, at, end, proto, NO_TRANSPORT)
  {}

  /** The bytes of network and transport header that their parse depends on. */
  ghost predicate ConnAgrees(a: seq<Byte>, b: seq<Byte>, at: nat, end: nat, network: NetworkCtx)
    requires |a| == |b| && end <= |a|
  {
    && at + 20 <= end && at + network.len <= end && NetworkAgrees(a, b, at, network)
    && (at + network.len + 20 <= end ==> a[at + network.len + 12] == b[at + network.len + 12])
  }

  lemma ConnSame(a: seq<Byte>, b: seq<Byte>, data: nat, end: nat, ctx: ConnCtx)
    requires |a| == |b| && Backed(a, end) && data + ctx.len <= end && Conn(a, data, end, ctx).0 == Success
    requires ctx.network == NO_NETWORK && ctx.transport == NO_TRANSPORT
    requires ConnAgrees(a, b, data + ctx.len, end, Conn(a, data, end, ctx).1.network)
    ensures Conn(b, data, end, ctx) == Conn(a, data, end, ctx)
  {
    hide Network, Transport, NetworkAgrees;
    var at := data + ctx.len;
    var (_, network) := Network(a, at, end, ctx.link.nextProto, NO_NETWORK);
    NetworkSame(a, b, at, end, ctx.link.nextProto);
    TransportSame(a, b, at + network.len, end, network.nextProto);
  }

  lemma PlainSame(a: seq<Byte>, b: seq<Byte>, end: nat)
    requires |a| == |b| && Backed(a, end) && Plain(a, end).0 == Success
    requires a[12] == b[12] && a[13] == b[13] && ConnAgrees(a, b, 14, end, Plain(a, end).1.network)
    ensures Plain(b, end) == Plain(a, end)
  {
    hide Conn, ConnAgrees;
    ConnSame(a, b, 0, end, NO_CONN.(link := Link(a, 0, end, NO_LINK).1, len := 14));
  }

  lemma GtpuSame(a: seq<Byte>, b: seq<Byte>, at: nat, end: nat)
    requires |a| == |b| && Backed(a, end) && at <= end && Gtpu(a, at, end, NO_GTP).0 == Success
    requires U8(b, at) / 32 == 1 && GtpuAnnounced(U8(b, at)) == Gtpu(a, at, end, NO_GTP).1.len
    requires forall i :: at + 11 <= i < at + Gtpu(a, at, end, NO_GTP).1.len ==> a[i] == b[i]
    ensures Gtpu(b, at, end, NO_GTP) == Gtpu(a, at, end, NO_GTP)
  {
    GtpuAccepts(a, at, end);
    GtpuAccepts(b, at, end);
  }

  /** A GTP-U header whose flags become unsupported, or announce another length, is another one. */
  lemma OtherFlags(a: seq<Byte>, b: seq<Byte>, end: nat)
    requires |a| == |b| && Backed(a, end) && Tunnel(a, end).0 == Success && Plain(b, end) == Plain(a, end)
    requires var at := Plain(a, end).1.len;
             at < |b| && !(U8(b, at) / 32 == 1 && GtpuAnnounced(U8(b, at)) == Tunnel(a, end).1.gtp.len)
    ensures Tunnel(b, end) != Tunnel(a, end)
  {
    hide Plain, Conn, Gtpu;
    ConnFits(a, end);
    var at := Plain(a, end).1.len;
    GtpuLength(a, at, end);
    GtpuAccepts(b, at, end);
  }

  /** What refitting a packet may not change of its outer headers, so that they parse as before. */
  lemma OuterSame(a: seq<Byte>, b: seq<Byte>, end: nat)
    requires |a| == |b| && Backed(a, end) && Tunnel(a, end).0 == Success
    requires forall i :: 0 <= i < |a| && !IsRefitted(Tunnel(a, end).1, i) ==> a[i] == b[i]
    requires IsV4(Tunnel(a, end).1) ==> a[23] == b[23] && Be16(b, 20) % 0x4000 == 0
    ensures Plain(b, end) == Plain(a, end)
  {
    hide Plain, Gtpu, Conn;
    ConnFits(a, end);
    PlainLengths(a, end);
    NotFragmented(a, end);
    TunnelFits(a, end);
    PlainSame(a, b, end);
  }

  /** A packet whose headers are only refitted parses as before, if what its outer headers say about it is the same. */
  lemma TunnelSame(a: seq<Byte>, b: seq<Byte>, end: nat)
    requires |a| == |b| && Backed(a, end) && Tunnel(a, end).0 == Success && Plain(b, end) == Plain(a, end)
    requires forall i :: 0 <= i < |a| && !IsRefitted(Tunnel(a, end).1, i) ==> a[i] == b[i]
    requires GtpAt(Tunnel(a, end).1) < |b|
    requires var flags := U8(b, GtpAt(Tunnel(a, end).1));
             flags / 32 == 1 && GtpuAnnounced(flags) == Tunnel(a, end).1.gtp.len
    ensures Tunnel(b, end) == Tunnel(a, end)
  {
    hide Plain, Gtpu, Conn;
    ConnFits(a, end);
    TunnelFits(a, end);
    PlainLengths(a, end);
    var (_, outer) := Plain(a, end);
    var (_, gtp) := Gtpu(a, outer.len, end, NO_GTP);
    GtpuSame(a, b, outer.len, end);
    InnerLengths(a, outer.len + gtp.len, end);
    ConnSame(a, b, outer.len + gtp.len, end, NO_CONN);
  }

  lemma NotFragmented(bytes: seq<Byte>, end: nat)
    requires Backed(bytes, end) && Plain(bytes, end).0 == Success
    ensures 22 <= end && 24 <= |bytes|
    ensures var network := Plain(bytes, end).1.network;
            network.ipVersion == PROTO_IPV4 ==>
              && Be16(bytes, 20) % 0x4000 == 0 && network.nextProto == U8(bytes, 23)
              && network.nextProto == Plain(bytes, end).1.transport.proto
  {
    NetworkLength(bytes, 14, end, Link(bytes, 0, end, NO_LINK).1.nextProto);
  }

  /** What the refit leaves of the fields of the outer headers that the parser reads. */
  lemma RefitOnHeader(bytes: seq<Byte>, end: nat, pktLen: nat, ctx: TunCtx, hw: bool)
    requires Fits(bytes, end, ctx) && end <= pktLen && IsV4(ctx) && Be16(bytes, 20) % 0x4000 == 0
    ensures var r := Refitted(bytes, end, pktLen, ctx, hw);
            && U8(r, 23) == (if ctx.network.len == 4 then (pktLen - 18) % 256 else U8(bytes, 23))
            && if ctx.network.len == 4 && ctx.transport.len == 0 then Be16(r, 20) == (pktLen - 26) % 65536
               else Be16(r, 20) % 0x4000 == 0
  {
    hide HeaderWords, Fits, Refitted, Be16, U8, GtpField;
    ProtocolAfterRefit(bytes, end, pktLen, ctx, hw);
    FragmentBitsAfterRefit(bytes, end, pktLen, ctx, hw);
  }

  lemma FragmentBitsAfterRefit(bytes: seq<Byte>, end: nat, pktLen: nat, ctx: TunCtx, hw: bool)
    requires Fits(bytes, end, ctx) && end <= pktLen && IsV4(ctx) && Be16(bytes, 20) % 0x4000 == 0
    ensures var r := Refitted(bytes, end, pktLen, ctx, hw);
            if ctx.network.len == 4 && ctx.transport.len == 0 then Be16(r, 20) == (pktLen - 26) % 65536
            else Be16(r, 20) % 0x4000 == 0
  {
    hide HeaderWords, Refitted, ShortChecksum;
    WholeWords(bytes, ctx.network.len);
    RefitNestsLengths(bytes, end, pktLen, ctx, hw);
    if ctx.network.len == 0 {
      UdpFieldsAre(bytes, end, pktLen, ctx, hw);
    } else if ctx.network.len + ctx.transport.len != 4 {
      RefitKeepsTheRest(bytes, end, pktLen, ctx, hw, 20);
      RefitKeepsTheRest(bytes, end, pktLen, ctx, hw, 21);
    }
  }

  lemma ProtocolAfterRefit(bytes: seq<Byte>, end: nat, pktLen: nat, ctx: TunCtx, hw: bool)
    requires Fits(bytes, end, ctx) && end <= pktLen && IsV4(ctx)
    ensures var r := Refitted(bytes, end, pktLen, ctx, hw);
            U8(r, 23) == if ctx.network.len == 4 then (pktLen - 18) % 256 else U8(bytes, 23)
  {
    hide HeaderWords, Refitted, GtpField;
    WholeWords(bytes, ctx.network.len);
    if ctx.network.len == 4 {
      UdpFieldsAre(bytes, end, pktLen, ctx, hw);
      LowByte(Refitted(bytes, end, pktLen, ctx, hw), 22, pktLen - 18);
    } else {
      RefitKeepsTheRest(bytes, end, pktLen, ctx, hw, 23);
    }
  }

  /** The flags of the GTP-U header stay, unless the UDP length falls onto them. */
  lemma FlagsAfterRefit(bytes: seq<Byte>, end: nat, pktLen: nat, ctx: TunCtx, hw: bool)
    requires Fits(bytes, end, ctx) && end <= pktLen
    ensures var r := Refitted(bytes, end, pktLen, ctx, hw);
            U8(r, GtpAt(ctx)) == if ctx.transport.len == 4 then (pktLen - UdpAt(ctx)) / 256 % 256 else U8(bytes, GtpAt(ctx))
  {
    hide HeaderWords, Refitted, GtpField;
    if IsV4(ctx) {
      WholeWords(bytes, ctx.network.len);
    }
    if ctx.transport.len == 4 {
      RefitNestsLengths(bytes, end, pktLen, ctx, hw);
      HighByte(Refitted(bytes, end, pktLen, ctx, hw), GtpAt(ctx), pktLen - UdpAt(ctx));
    } else {
      RefitKeepsTheRest(bytes, end, pktLen, ctx, hw, GtpAt(ctx));
    }
  }

  lemma HighByte(buf: seq<Byte>, at: nat, v: nat)
    requires at + 2 <= |buf| && Be16(buf, at) == v % 65536
    ensures U8(buf, at) == v / 256 % 256
  {
    TwoBytes(v);
  }

  lemma LowByte(buf: seq<Byte>, at: nat, v: nat)
    requires at + 2 <= |buf| && Be16(buf, at) == v % 65536
    ensures U8(buf, at + 1) == v % 256
  {
    TwoBytes(v);
  }

  lemma UdpFieldsAre(bytes: seq<Byte>, end: nat, pktLen: nat, ctx: TunCtx, hw: bool)
    requires Fits(bytes, end, ctx) && end <= pktLen && IsV4(ctx)
    ensures var r := Refitted(bytes, end, pktLen, ctx, hw);
            Be16(r, UdpAt(ctx) + 4) == (pktLen - UdpAt(ctx)) % 65536 && Be16(r, UdpAt(ctx) + 6) == 0
  {
    hide HeaderWords, PutBe16, Be16, WithLengths, Refitted, GtpField, ShortChecksum;
    LengthsAfterLengths(bytes, end, pktLen, ctx);
    ChecksumsKeepLengths(bytes, end, pktLen, ctx, hw);
  }

  /** A TCP header of its full length behind an IP header that reaches its own checksum. */
  ghost predicate RoomyTcp(ctx: TunCtx) {
    ctx.transport.len >= 20 && (IsV4(ctx) ==> ctx.network.len >= 12)
  }

  /**
   Over TCP the two fields are the sequence number: its upper half becomes the length of the segment, its lower half
   the UDP checksum. The rest of the TCP header stays, unless the encapsulation is so short that it lies on it.
   */
  lemma SequenceOverwritten(bytes: seq<Byte>, end: nat, pktLen: nat, hw: bool, i: nat)
    requires Backed(bytes, end) && end <= pktLen && Tunnel(bytes, end).0 == Success
    requires Tunnel(bytes, end).1.transport.proto == PROTO_TCP
    ensures Fits(bytes, end, Tunnel(bytes, end).1)
    ensures var ctx := Tunnel(bytes, end).1; var r := Refitted(bytes, end, pktLen, ctx, hw);
            && Be16(r, UdpAt(ctx) + 4) == (pktLen - UdpAt(ctx)) % 65536
            && Be16(r, UdpAt(ctx) + 6) == UdpChecksum(bytes, pktLen, ctx, hw)
            && (RoomyTcp(ctx) && i < ctx.transport.len && !(4 <= i < 8) ==>
                  r[UdpAt(ctx) + i] == bytes[UdpAt(ctx) + i])
  {
    hide HeaderWords, PutBe16, Be16, WithLengths, Refitted, GtpField, ShortChecksum, UdpChecksum, Tunnel;
    TunnelFits(bytes, end);
    var ctx := Tunnel(bytes, end).1;
    LengthsAfterLengths(bytes, end, pktLen, ctx);
    ChecksumsKeepLengths(bytes, end, pktLen, ctx, hw);
    if RoomyTcp(ctx) && i < ctx.transport.len && !(4 <= i < 8) {
      RefitKeepsTheRest(bytes, end, pktLen, ctx, hw, UdpAt(ctx) + i);
    }
  }

  lemma OtherProtocol(bytes: seq<Byte>, r: seq<Byte>, end: nat)
    requires |bytes| == |r| && Backed(bytes, end) && Tunnel(bytes, end).0 == Success && IsV4(Tunnel(bytes, end).1)
    requires forall i :: 0 <= i < 15 ==> r[i] == bytes[i]
    requires Be16(r, 20) % 0x4000 == 0 && r[23] != bytes[23]
    ensures Tunnel(r, end) != Tunnel(bytes, end)
  {
    hide Gtpu, Transport;
    NotFragmented(bytes, end);
    assert Tunnel(bytes, end).1.network.nextProto == U8(bytes, 23);
    assert Tunnel(r, end).1.network.nextProto == U8(r, 23);
  }

  /** A packet that looks fragmented after the refit. */
  lemma FragmentedNow(bytes: seq<Byte>, r: seq<Byte>, end: nat)
    requires |bytes| == |r| && Backed(bytes, end) && Tunnel(bytes, end).0 == Success && IsV4(Tunnel(bytes, end).1)
    requires forall i :: 0 <= i < 15 ==> r[i] == bytes[i]
    requires Be16(r, 20) % 0x4000 != 0
    ensures Tunnel(r, end) != Tunnel(bytes, end)
  {
    hide Gtpu, Transport;
    NotFragmented(bytes, end);
  }

  /**
   What has to hold for a refitted packet to parse as before. Under an outer IPv4 header of one word the UDP length
   falls onto the protocol field, which has to come out the same, and the GTP-U length onto the fragment bits behind a
   transport header of no length. Behind a transport header of one word the UDP length falls onto the GTP-U flags, which
   have to announce the same header.
   */
  ghost predicate ParseKept(pktLen: nat, ctx: TunCtx)
    requires UdpAt(ctx) <= pktLen
  {
    var flags := (pktLen - UdpAt(ctx)) / 256 % 256;
    && (IsV4(ctx) && ctx.network.len == 4 ==> ctx.transport.len != 0 && (pktLen - 18) % 256 == ctx.transport.proto)
    && (ctx.transport.len == 4 ==> flags / 32 == 1 && GtpuAnnounced(flags) == ctx.gtp.len)
  }

  /** The fix-up of a tunnelled packet changes nothing that the parser looks at, if and only if `ParseKept`. */
  lemma RefitKeepsParse(bytes: seq<Byte>, end: nat, pktLen: nat, hw: bool)
    requires Backed(bytes, end) && end <= pktLen && Tunnel(bytes, end).0 == Success
    ensures Fits(bytes, end, Tunnel(bytes, end).1)
    ensures var ctx := Tunnel(bytes, end).1;
            Tunnel(Refitted(bytes, end, pktLen, ctx, hw), end) == Tunnel(bytes, end) <==> ParseKept(pktLen, ctx)
  {
    hide Tunnel, Fits, Refitted, IsRefitted, Be16, U8, Plain;
    TunnelFits(bytes, end);
    var ctx := Tunnel(bytes, end).1;
    var r := Refitted(bytes, end, pktLen, ctx, hw);
    forall i | 0 <= i < |bytes| && !IsRefitted(ctx, i)
      ensures bytes[i] == r[i]
    {
      RefitKeepsTheRest(bytes, end, pktLen, ctx, hw, i);
    }
    OuterOfTunnel(bytes, end);
    FirstBytesKept(bytes, end, r);
    FlagsAfterRefit(bytes, end, pktLen, ctx, hw);
    if IsV4(ctx) {
      RefitOnHeader(bytes, end, pktLen, ctx, hw);
      LooksFragmented(pktLen);
      if Be16(r, 20) % 0x4000 != 0 {
        FragmentedNow(bytes, r, end);
        return;
      }
      if r[23] != bytes[23] {
        OtherProtocol(bytes, r, end);
        return;
      }
    }
    OuterSame(bytes, r, end);
    if U8(r, GtpAt(ctx)) / 32 == 1 && GtpuAnnounced(U8(r, GtpAt(ctx))) == ctx.gtp.len {
      TunnelSame(bytes, r, end);
    } else {
      OtherFlags(bytes, r, end);
    }
  }

  /** A UDP length that leaves TCP or UDP in the protocol field comes with a GTP-U length that has fragment bits set. */
  lemma LooksFragmented(pktLen: nat)
    requires 26 <= pktLen
    ensures (pktLen - 18) % 256 == PROTO_TCP || (pktLen - 18) % 256 == PROTO_UDP ==> (pktLen - 26) % 65536 % 0x4000 != 0
  {
    var low := (pktLen - 26) % 65536 % 0x4000;
    var k := (pktLen - 26) / 0x4000;
    assert (pktLen - 26) % 65536 % 0x4000 == (pktLen - 26) % 0x4000 by { QuarterOf(pktLen - 26); }
    if low == 0 {
      assert pktLen - 18 == (64 * k) * 256 + 8;
      RemainderOf(64 * k, 8);
    }
  }

  lemma QuarterOf(v: nat)
    ensures v % 65536 % 0x4000 == v % 0x4000
  {
    var q, r := v / 65536, v % 65536;
    assert v == (4 * q) * 0x4000 + r;
  }

  lemma OuterOfTunnel(bytes: seq<Byte>, end: nat)
    requires Backed(bytes, end) && Tunnel(bytes, end).0 == Success
    ensures 24 <= |bytes| && 34 <= end
    ensures var ctx := Tunnel(bytes, end).1;
            && (IsV4(ctx) ==> Be16(bytes, 20) % 0x4000 == 0 && bytes[23] == U8(bytes, 23) == ctx.transport.proto)
            && (ctx.transport.proto == PROTO_TCP || ctx.transport.proto == PROTO_UDP)
            && ctx.transport.len % 4 == 0 && Plain(bytes, end).1.len == GtpAt(ctx) < |bytes| && UdpAt(ctx) <= end
            && GtpAt(ctx) + 8 <= end
            && U8(bytes, GtpAt(ctx)) / 32 == 1 && GtpuAnnounced(U8(bytes, GtpAt(ctx))) == ctx.gtp.len
    ensures forall r: seq<Byte> :: |r| == |bytes| ==> r[23] == U8(r, 23)
  {
    hide Plain, Gtpu, Conn, Be16;
    NotFragmented(bytes, end);
    TunnelFits(bytes, end);
    PlainLengths(bytes, end);
    ConnFits(bytes, end);
    GtpuLength(bytes, Plain(bytes, end).1.len, end);
    GtpuAccepts(bytes, Plain(bytes, end).1.len, end);
  }

  lemma FirstBytesKept(bytes: seq<Byte>, end: nat, r: seq<Byte>)
    requires Backed(bytes, end) && Tunnel(bytes, end).0 == Success && |r| == |bytes|
    requires Fits(bytes, end, Tunnel(bytes, end).1)
    requires forall i :: 0 <= i < |bytes| && !IsRefitted(Tunnel(bytes, end).1, i) ==> bytes[i] == r[i]
    ensures forall i :: 0 <= i < 15 ==> r[i] == bytes[i]
  {
    hide Tunnel, HeaderWords;
  }

  // ---------------------------------------------------------------- packets for which it goes wrong

  /** GTP-U over UDP under an IPv4 header with this IHL, around an ordinary IPv4 header and UDP. */
  predicate IsSimpleTunnel(buf: seq<Byte>, end: nat, ihl: nat) {
    var udp := 14 + 4 * ihl;
    && ihl < 16 && end == udp + 44 && Backed(buf, end) && 34 <= end
    && Be16(buf, 12) == ETHER_IPV4 && U8(buf, 14) == 0x40 + ihl && Be16(buf, 20) % 0x4000 == 0 && U8(buf, 23) == PROTO_UDP
    && U8(buf, udp + 8) == 0x30
    && U8(buf, udp + 16) == 0x45 && Be16(buf, udp + 22) % 0x4000 == 0 && U8(buf, udp + 25) == PROTO_UDP
  }

  lemma SimpleTunnelParses(buf: seq<Byte>, end: nat, ihl: nat)
    requires IsSimpleTunnel(buf, end, ihl)
    ensures var (code, ctx) := Tunnel(buf, end);
            && code == Success && OverUdp(ctx) && IsV4(ctx) && ctx.network.len == 4 * ihl && Fits(buf, end, ctx)
  {
    hide Conn, Plain, Fits, Be16, U8, Gtpu;
    SimpleOuter(buf, end, ihl);
    var udp := 14 + 4 * ihl;
    SimpleGtp(buf, udp + 8, end);
    SimpleInner(buf, udp + 16, end);
    TunnelFits(buf, end);
  }

  lemma SimpleOuter(buf: seq<Byte>, end: nat, ihl: nat)
    requires IsSimpleTunnel(buf, end, ihl)
    ensures var (code, ctx) := Plain(buf, end);
            && code == Success && ctx.network.len == 4 * ihl && ctx.network.ipVersion == PROTO_IPV4
            && ctx.transport.proto == PROTO_UDP && ctx.transport.len == 8 && ctx.len == 14 + 4 * ihl + 8
  {
    hide Ipv6;
  }

  lemma SimpleGtp(buf: seq<Byte>, at: nat, end: nat)
    requires Backed(buf, end) && at + 8 <= end && U8(buf, at) == 0x30
    ensures Gtpu(buf, at, end, NO_GTP).0 == Success && Gtpu(buf, at, end, NO_GTP).1.len == 8
  {}

  lemma SimpleInner(buf: seq<Byte>, at: nat, end: nat)
    requires Backed(buf, end) && end == at + 28
    requires U8(buf, at) == 0x45 && Be16(buf, at + 6) % 0x4000 == 0 && U8(buf, at + 9) == PROTO_UDP
    ensures Conn(buf, at, end, NO_CONN).0 == Success
  {
    hide Ipv6;
  }

  /** A tunnelled packet under an IPv4 header of one word, which the parser accepts: its protocol becomes 44. */
  function OneWordPacket(): (buf: seq<Byte>)
    ensures |buf| == 64 && IsSimpleTunnel(buf, 62, 1)
  {
    seq(12, _ => 0) + [8, 0, 0x41] + seq(8, _ => 0) + [17, 0, 0, 0x30] + seq(7, _ => 0) + [0x45] + seq(8, _ => 0) + [17]
    + seq(20, _ => 0)
  }

  lemma ParseSpoiltWitness()
    ensures var buf := OneWordPacket(); var (code, ctx) := Tunnel(buf, 62);
            && code == Success && OverUdp(ctx) && Fits(buf, 62, ctx) && ParseSpoilt(62, Tunneled, ctx, true)
            && Tunnel(Refitted(buf, 62, 62, ctx, false), 62) != Tunnel(buf, 62)
  {
    hide Refitted, Fits, Tunnel, OneWordPacket, IsSimpleTunnel;
    SimpleTunnelParses(OneWordPacket(), 62, 1);
    RefitKeepsParse(OneWordPacket(), 62, 62, false);
  }

  /** Under an IPv4 header of no length the IPv4 checksum is written over the GTP-U length. */
  function NoWordPacket(): (buf: seq<Byte>)
    ensures |buf| == 60 && IsSimpleTunnel(buf, 58, 0)
  {
    seq(12, _ => 0) + [8, 0, 0x40] + seq(7, _ => 0) + [0x30, 17] + seq(6, _ => 0) + [0x45] + seq(8, _ => 0) + [17]
    + seq(20, _ => 0)
  }

  lemma GtpLengthWitness()
    ensures var buf := NoWordPacket(); var (code, ctx) := Tunnel(buf, 58);
            && code == Success && OverUdp(ctx) && Fits(buf, 58, ctx) && GtpLengthOverwritten(ctx, false)
            && Be16(Refitted(buf, 58, 58, ctx, false), GtpAt(ctx) + 2) == 65535 && 58 - GtpAt(ctx) - 8 == 28
  {
    hide Refitted, Fits, HeaderWords, ShortChecksum, Tunnel, NoWordPacket;
    var buf := NoWordPacket();
    SimpleTunnelParses(buf, 58, 0);
    RefitNestsLengths(buf, 58, 58, Tunnel(buf, 58).1, false);
    EmptyHeader(buf);
    EmptyChecksum(buf, 58);
  }

  lemma EmptyHeader(buf: seq<Byte>)
    requires 14 < |buf| && U8(buf, 14) == 0x40
    ensures HeaderWords(buf, 14) == 0
  {}

  /** The headers of an ordinary tunnelled packet. */
  function OrdinaryPacket(): (buf: seq<Byte>)
    ensures |buf| == 80 && IsSimpleTunnel(buf, 78, 5)
  {
    seq(12, _ => 0) + [8, 0, 0x45] + seq(8, _ => 0) + [17] + seq(18, _ => 0) + [0x30] + seq(7, _ => 0) + [0x45]
    + seq(8, _ => 0) + [17] + seq(20, _ => 0)
  }

  /** An inner datagram of the greatest length reassembled behind them: the outer length of 65571 is stored as 35. */
  lemma IpLengthWitness()
    ensures var buf, pktLen := OrdinaryPacket(), 14 + 20 + 8 + 8 + 65535; var (code, ctx) := Tunnel(buf, 78);
            && code == Success && OverUdp(ctx) && Fits(buf, 78, ctx) && IsV4(ctx) && IpLength(pktLen, ctx) == 65571
            && IpField(Refitted(buf, 78, pktLen, ctx, false), ctx) == 35
  {
    hide Refitted, Fits, HeaderWords, ShortChecksum, GtpField, Tunnel, OrdinaryPacket, IsSimpleTunnel;
    var buf := OrdinaryPacket();
    SimpleTunnelParses(buf, 78, 5);
    RefitNestsLengths(buf, 78, 65585, Tunnel(buf, 78).1, false);
  }

  // ---------------------------------------------------------------- the code

  /** The header whose checksum the last reassembly left outdated, when the packet has no encapsulation to refit. */
  function Outdated(kind: PacketType, ctx: TunCtx, inner: bool, outer: bool): NetworkCtx {
    if inner then ctx.inner.network else if outer then ctx.network else NO_NETWORK
  }

  function Fixed(bytes: seq<Byte>, end: nat, pktLen: nat, kind: PacketType, ctx: TunCtx, hw: bool,
                       inner: bool, outer: bool): (r: seq<Byte>)
    requires Parsed(bytes, end, kind, ctx) && end <= pktLen
    ensures |r| == |bytes|
  {
    if inner && kind.Tunneled? then
      TunnelFits(bytes, end);
      Refitted(bytes, end, pktLen, ctx, hw)
    else if Outdated(kind, ctx, inner, outer).ipVersion == PROTO_IPV4 && !hw then
      OutdatedFits(bytes, end, kind, ctx, inner, outer);
      WithIpv4Checksum(bytes, 14)
    else bytes
  }

  lemma OutdatedFits(bytes: seq<Byte>, end: nat, kind: PacketType, ctx: TunCtx, inner: bool, outer: bool)
    requires Parsed(bytes, end, kind, ctx) && !(inner && kind.Tunneled?)
    requires Outdated(kind, ctx, inner, outer).ipVersion == PROTO_IPV4
    ensures var network := Outdated(kind, ctx, inner, outer);
            && network.hdr == At(14) && network.len == 2 * HeaderWords(bytes, 14)
            && 34 <= end && 14 + network.len <= end
  {
    hide Plain, HeaderWords;
    PlainLengths(bytes, end);
    PlainIsLaidOut(bytes, end);
  }

  lemma OuterChecksumKeepsTunnel(a: seq<Byte>, b: seq<Byte>, end: nat)
    requires |a| == |b| && Backed(a, end) && Tunnel(a, end).0 == Success && IsV4(Tunnel(a, end).1)
    requires forall i :: 0 <= i < |a| && !(24 <= i < 26) ==> a[i] == b[i]
    ensures Tunnel(b, end) == Tunnel(a, end)
  {
    hide Plain, Gtpu, Conn;
    var (_, outer) := Plain(a, end);
    TunnelFits(a, end);
    ConnFits(a, end);
    PlainLengths(a, end);
    WholeWords(a, outer.network.len);
    OuterOfTunnel(a, end);
    GtpuLength(a, outer.len, end);
    var (_, gtp) := Gtpu(a, outer.len, end, NO_GTP);
    InnerLengths(a, outer.len + gtp.len, end);
    PlainSame(a, b, end);
    GtpuSame(a, b, outer.len, end);
    ConnSame(a, b, outer.len + gtp.len, end, NO_CONN);
  }

  lemma ChecksumKeepsPlain(a: seq<Byte>, b: seq<Byte>, end: nat)
    requires |a| == |b| && Backed(a, end)
    requires Plain(a, end).0 == Success && Plain(a, end).1.network.ipVersion == PROTO_IPV4
    requires forall i :: 0 <= i < |a| && !(24 <= i < 26) ==> a[i] == b[i]
    ensures Plain(b, end) == Plain(a, end)
  {
    hide Plain;
    PlainLengths(a, end);
    PlainIsLaidOut(a, end);
    PlainSame(a, b, end);
  }

  /** When the fix-up writes over a field that the parser reads, and writes something else there. */
  ghost predicate ParseSpoilt(pktLen: nat, kind: PacketType, ctx: TunCtx, inner: bool)
    requires UdpAt(ctx) <= pktLen || !kind.Tunneled?
  {
    kind.Tunneled? && inner && !ParseKept(pktLen, ctx)
  }

  /** The outer transport header of a tunnelled packet starts inside it. */
  lemma StartsInside(bytes: seq<Byte>, end: nat, kind: PacketType, ctx: TunCtx)
    requires Parsed(bytes, end, kind, ctx)
    ensures kind.Tunneled? ==> UdpAt(ctx) <= end
  {
    hide Tunnel, Plain;
    if kind.Tunneled? {
      TunnelFits(bytes, end);
    }
  }

  /** Whatever is fixed, the packet parses as it did before, with the one exception of `ParseSpoilt`. */
  lemma FixedKeepsParse(bytes: seq<Byte>, end: nat, pktLen: nat, kind: PacketType, ctx: TunCtx, hw: bool,
                        inner: bool, outer: bool)
    requires Parsed(bytes, end, kind, ctx) && end <= pktLen
    ensures UdpAt(ctx) <= pktLen || !kind.Tunneled?
    ensures Parsed(Fixed(bytes, end, pktLen, kind, ctx, hw, inner, outer), end, kind, ctx)
            <==> !ParseSpoilt(pktLen, kind, ctx, inner)
  {
    hide Plain, Tunnel, Refitted, HeaderWords, ParseKept;
    StartsInside(bytes, end, kind, ctx);
    var r := Fixed(bytes, end, pktLen, kind, ctx, hw, inner, outer);
    if inner && kind.Tunneled? {
      RefitKeepsParse(bytes, end, pktLen, hw);
    } else if Outdated(kind, ctx, inner, outer).ipVersion == PROTO_IPV4 && !hw {
      OutdatedFits(bytes, end, kind, ctx, inner, outer);
      if kind.Tunneled? {
        OuterChecksumKeepsTunnel(bytes, r, end);
      } else {
        ChecksumKeepsPlain(bytes, r, end);
      }
    }
  }

  /** The IPv4 header at `at` has a valid checksum, or is too short for one and is as valid as it was. */
  ghost predicate Resummed(r: seq<Byte>, bytes: seq<Byte>, at: nat)
    requires |r| == |bytes| && at < |r| && U8(r, at) == U8(bytes, at) && at + 2 * HeaderWords(bytes, at) <= |r|
  {
    ChecksumVerifies(r, at) <==> U8(bytes, at) % 16 >= 3 || ChecksumVerifies(bytes, at)
  }

  /** The only header of a packet that is not refitted, and the IP version it has. */
  ghost predicate FirstIsV4(bytes: seq<Byte>) {
    14 < |bytes| && U8(bytes, 14) / 16 == 4
  }

  /**
   What the fix-up achieves, in every branch, stated on the bytes. A reassembled packet without encapsulation, or one
   whose outer header was reassembled, has its IPv4 checksum renewed in software and nothing else changed; in hardware
   mode, and over IPv6, it stays as it is, as does a packet that was not reassembled.
   */
  lemma FixedVerifies(bytes: seq<Byte>, end: nat, pktLen: nat, kind: PacketType, ctx: TunCtx, hw: bool,
                      inner: bool, outer: bool)
    requires Parsed(bytes, end, kind, ctx) && end <= pktLen && !(inner && kind.Tunneled?)
    ensures var r := Fixed(bytes, end, pktLen, kind, ctx, hw, inner, outer);
            var renewed := !hw && FirstIsV4(bytes) && (if kind.Tunneled? then outer else inner);
            && (forall i :: 0 <= i < |bytes| && !(24 <= i < 26) ==> r[i] == bytes[i])
            && (renewed ==> 34 <= end && 14 + 2 * HeaderWords(bytes, 14) <= end && Resummed(r, bytes, 14))
            && (!renewed ==> r == bytes)
  {
    hide Plain, Tunnel, Fold, WordSum;
    FirstHeader(bytes, end, kind, ctx);
    if Outdated(kind, ctx, inner, outer).ipVersion == PROTO_IPV4 && !hw {
      OutdatedFits(bytes, end, kind, ctx, inner, outer);
      StoredChecksumVerifies(bytes, 14);
      FirstByteKept(bytes, 14);
    }
  }

  /** Which context holds the first IP header of a packet, and what its first byte says. */
  lemma FirstHeader(bytes: seq<Byte>, end: nat, kind: PacketType, ctx: TunCtx)
    requires Parsed(bytes, end, kind, ctx)
    ensures var network := if kind.Tunneled? then ctx.network else ctx.inner.network;
            network.ipVersion == PROTO_IPV4 <==> FirstIsV4(bytes)
    ensures kind.PlainPacket? ==> ctx.network.ipVersion != PROTO_IPV4
  {
    hide Plain, Gtpu, Conn;
    PlainLengths(bytes, end);
    FirstVersion(bytes, end);
  }

  lemma FirstVersion(bytes: seq<Byte>, end: nat)
    requires Backed(bytes, end) && Plain(bytes, end).0 == Success
    ensures Plain(bytes, end).1.network.ipVersion == PROTO_IPV4 <==> FirstIsV4(bytes)
  {
    NetworkLength(bytes, 14, end, Link(bytes, 0, end, NO_LINK).1.nextProto);
  }

  /**
   A tunnelled packet whose inner datagram was reassembled: the inner IPv4 checksum is renewed in either mode, the outer
   one in software, and no byte changes outside the length and checksum fields.
   */
  lemma FixedTunnelVerifies(bytes: seq<Byte>, end: nat, pktLen: nat, ctx: TunCtx, hw: bool, outer: bool)
    requires Parsed(bytes, end, Tunneled, ctx) && end <= pktLen
    ensures Fits(bytes, end, ctx)
    ensures var r := Fixed(bytes, end, pktLen, Tunneled, ctx, hw, true, outer);
            && (forall i :: 0 <= i < |bytes| && !IsRefitted(ctx, i) ==> r[i] == bytes[i])
            && (ctx.inner.network.ipVersion == PROTO_IPV4 ==>
                  (ChecksumVerifies(r, InnerAt(ctx)) <==>
                     ctx.inner.network.len >= 12 || ChecksumVerifies(bytes, InnerAt(ctx))))
            && (IsV4(ctx) && !hw ==>
                  (ChecksumVerifies(r, 14) <==> ctx.network.len >= 12 || ChecksumVerifies(Sized(bytes, pktLen), 14)))
  {
    hide Tunnel, Refitted, ChecksumVerifies, IsRefitted, HeaderWords;
    TunnelFits(bytes, end);
    forall i | 0 <= i < |bytes| && !IsRefitted(ctx, i)
      ensures Refitted(bytes, end, pktLen, ctx, hw)[i] == bytes[i]
    {
      RefitKeepsTheRest(bytes, end, pktLen, ctx, hw, i);
    }
    if ctx.inner.network.ipVersion == PROTO_IPV4 {
      InnerVerifies(bytes, end, pktLen, ctx, hw);
    }
    if IsV4(ctx) && !hw {
      OuterVerifies(bytes, end, pktLen, ctx);
    }
  }

  method PutNetworkOrder(data: array<Byte>, at: nat, v: nat)
    requires at + 2 <= data.Length
    modifies data
    ensures data[..] == PutBe16(old(data[..]), at, v)
  {
    data[at], data[at + 1] := v / 256 % 256, v % 256;
  }

  method Ipv4HdrCksum(data: array<Byte>, at: nat)
    requires at + 20 <= data.Length && at + 2 * HeaderWords(data[..], at) <= data.Length
    modifies data
    ensures data[..] == WithIpv4Checksum(old(data[..]), at)
  {
    PutNetworkOrder(data, at + 10, 0);
    var sum := WordSum(data[..], at, HeaderWords(data[..], at));
    PutNetworkOrder(data, at + 10, 65535 - Fold(sum));
  }

  method Ipv4CksumHandle(pkt: Packet, hw: bool, l2Len: nat, l3Len: nat, at: nat)
    requires at + 20 <= pkt.data.Length && at + 2 * HeaderWords(pkt.data[..], at) <= pkt.data.Length
    modifies pkt`l2Len, pkt`l3Len, pkt`txIpCksum, pkt.data
    ensures pkt.data[..] == if hw then old(pkt.data[..]) else WithIpv4Checksum(old(pkt.data[..]), at)
    ensures if hw then pkt.txIpCksum && pkt.l2Len == l2Len && pkt.l3Len == l3Len
            else unchanged(pkt)
  {
    if hw {
      pkt.l2Len, pkt.l3Len := l2Len, l3Len;
      pkt.txIpCksum := true;
    } else {
      Ipv4HdrCksum(pkt.data, at);
    }
  }

  method NetworkCksumHandle(pkt: Packet, hw: bool, link: LinkCtx, network: NetworkCtx)
    requires network.ipVersion == PROTO_IPV4 ==>
               && network.hdr.At? && 0 <= network.hdr.off && network.hdr.off + 20 <= pkt.data.Length
               && network.hdr.off + 2 * HeaderWords(pkt.data[..], network.hdr.off) <= pkt.data.Length
    modifies pkt`l2Len, pkt`l3Len, pkt`txIpCksum, pkt.data
    ensures pkt.data[..] == (if network.ipVersion == PROTO_IPV4 && !hw
                             then WithIpv4Checksum(old(pkt.data[..]), network.hdr.off) else old(pkt.data[..]))
    ensures if network.ipVersion == PROTO_IPV4 && hw
            then pkt.txIpCksum && pkt.l2Len == link.len && pkt.l3Len == network.len
            else unchanged(pkt)
  {
    if network.ipVersion != PROTO_IPV4 {
      return;
    }
    Ipv4CksumHandle(pkt, hw, link.len, network.len, network.hdr.off);
  }

  method UdpCksumHandle(pkt: Packet, hw: bool, ctx: TunCtx)
    requires ctx.transport.hdr == At(UdpAt(ctx)) && UdpAt(ctx) + 8 <= pkt.data.Length
    requires ctx.network.ipVersion != PROTO_IPV4 ==> 54 <= pkt.data.Length
    modifies pkt`l2Len, pkt`l3Len, pkt`txUdpCksum, pkt.data
    ensures pkt.data[..] == PutBe16(old(pkt.data[..]), UdpAt(ctx) + 6,
                                    if ctx.network.ipVersion != PROTO_IPV4 && hw
                                    then PseudoHeaderSum(old(pkt.data[..])) else 0)
    ensures if ctx.network.ipVersion != PROTO_IPV4 && hw
            then pkt.txUdpCksum && pkt.l2Len == ctx.link.len && pkt.l3Len == ctx.network.len
            else unchanged(pkt)
  {
    var at := ctx.transport.hdr.off;
    if ctx.network.ipVersion == PROTO_IPV4 {
      PutNetworkOrder(pkt.data, at + 6, 0);
    } else if hw {
      pkt.l2Len, pkt.l3Len := ctx.link.len, ctx.network.len;
      PutNetworkOrder(pkt.data, at + 6, PseudoHeaderSum(pkt.data[..]));
      pkt.txUdpCksum := true;
    } else {
      PutNetworkOrder(pkt.data, at + 6, 0);
    }
  }

  /** The length fields, from the GTP-U header outwards, and the outer IPv4 checksum. */
  method RefitLengths(pkt: Packet, ctx: TunCtx, hw: bool)
    requires pkt.Valid() && Fits(pkt.data[..], pkt.dataLen, ctx) && TunnelLayout(Success, ctx, pkt.dataLen)
    modifies pkt`l2Len, pkt`l3Len, pkt`txIpCksum, pkt.data
    ensures pkt.data[..] == WithOuterChecksum(WithLengths(old(pkt.data[..]), pkt.dataLen, pkt.pktLen, ctx),
                                              pkt.dataLen, ctx, hw)
    ensures if ctx.network.ipVersion == PROTO_IPV4 && hw
            then pkt.txIpCksum && pkt.l2Len == ctx.link.len && pkt.l3Len == ctx.network.len
            else unchanged(pkt)
  {
    hide PutBe16, WithIpv4Checksum, HeaderWords;
    PutNetworkOrder(pkt.data, ctx.gtp.gtp.off + 2,
                    pkt.pktLen - (ctx.link.len + ctx.network.len + ctx.transport.len + 8));
    PutNetworkOrder(pkt.data, ctx.transport.hdr.off + 4, pkt.pktLen - (ctx.link.len + ctx.network.len));
    if ctx.network.ipVersion == PROTO_IPV4 {
      PutNetworkOrder(pkt.data, ctx.network.hdr.off + 2, pkt.pktLen - ctx.link.len);
      assert pkt.data[..] == WithLengths(old(pkt.data[..]), pkt.dataLen, pkt.pktLen, ctx);
      NetworkCksumHandle(pkt, hw, ctx.link, ctx.network);
    } else {
      PutNetworkOrder(pkt.data, ctx.network.hdr.off + 4, pkt.pktLen - ctx.link.len - 40);
    }
  }

  /** The headers whose lengths the device is told when it is to compute a checksum. */
  function Offloaded(kind: PacketType, ctx: TunCtx, inner: bool, outer: bool): (LinkCtx, NetworkCtx) {
    if inner && kind.Tunneled? then (ctx.link, ctx.network)
    else if inner then (ctx.inner.link, ctx.inner.network)
    else if outer then (ctx.link, ctx.network)
    else (NO_LINK, NO_NETWORK)
  }

  /** They are the link header of fourteen bytes and the IP header behind it, of a packet that was reassembled. */
  lemma OffloadedIsFirst(bytes: seq<Byte>, end: nat, kind: PacketType, ctx: TunCtx, inner: bool, outer: bool)
    requires Parsed(bytes, end, kind, ctx)
    ensures var (link, network) := Offloaded(kind, ctx, inner, outer);
            var reassembled := inner || (kind.Tunneled? && outer);
            && (network.ipVersion == PROTO_IPV4 <==> reassembled && FirstIsV4(bytes))
            && (reassembled ==> link.len == 14)
            && (reassembled && FirstIsV4(bytes) ==> network.len == 4 * (U8(bytes, 14) % 16))
  {
    hide Plain, Tunnel;
    FirstHeader(bytes, end, kind, ctx);
    if kind.Tunneled? {
      TunnelIsLaidOut(bytes, end);
      TunnelFits(bytes, end);
    } else {
      PlainIsLaidOut(bytes, end);
      PlainLengths(bytes, end);
    }
  }

  /**
   The headers after reassembly. The new bytes are those of the specification; a device that computes checksums is
   asked to do so exactly for an outer IPv4 header that changed and for the UDP checksum over IPv6, and is then told
   the lengths of the headers concerned.
   */
  method Fixup(pkt: Packet, kind: PacketType, ctx: TunCtx, hw: bool)
    requires pkt.Valid() && Parsed(pkt.data[..], pkt.dataLen, kind, ctx)
    modifies pkt`l2Len, pkt`l3Len, pkt`txIpCksum, pkt`txUdpCksum, pkt.data
    ensures pkt.data[..] == Fixed(old(pkt.data[..]), pkt.dataLen, pkt.pktLen, kind, ctx, hw,
                                  pkt.innerModified, pkt.outerModified)
    ensures var first := Offloaded(kind, ctx, pkt.innerModified, pkt.outerModified).1;
            pkt.txIpCksum == (old(pkt.txIpCksum) || (hw && first.ipVersion == PROTO_IPV4))
    ensures pkt.txUdpCksum == (old(pkt.txUdpCksum) ||
                               (hw && pkt.innerModified && kind.Tunneled? && ctx.network.ipVersion != PROTO_IPV4))
    ensures var (link, network) := Offloaded(kind, ctx, pkt.innerModified, pkt.outerModified);
            if hw && (network.ipVersion == PROTO_IPV4 || (pkt.innerModified && kind.Tunneled?))
            then pkt.l2Len == link.len && pkt.l3Len == network.len
            else pkt.l2Len == old(pkt.l2Len) && pkt.l3Len == old(pkt.l3Len)
  {
    hide Plain, Tunnel, PutBe16, WithLengths, WithOuterChecksum, WithIpv4Checksum, HeaderWords;
    ghost var bytes := pkt.data[..];
    if pkt.innerModified {
      if kind.Tunneled? {
        TunnelFits(bytes, pkt.dataLen);
        TunnelIsLaidOut(bytes, pkt.dataLen);
        RefitLengths(pkt, ctx, hw);
        ghost var refit := pkt.data[..];
        UdpCksumHandle(pkt, hw, ctx);
        assert pkt.data[..] == WithUdpChecksum(refit, pkt.dataLen, ctx, hw);
        if ctx.inner.network.ipVersion == PROTO_IPV4 {
          Ipv4HdrCksum(pkt.data, ctx.inner.network.hdr.off);
        }
      } else {
        if ctx.inner.network.ipVersion == PROTO_IPV4 {
          OutdatedFits(bytes, pkt.dataLen, kind, ctx, true, pkt.outerModified);
        }
        NetworkCksumHandle(pkt, hw, ctx.inner.link, ctx.inner.network);
      }
    } else if pkt.outerModified {
      if ctx.network.ipVersion == PROTO_IPV4 {
        OutdatedFits(bytes, pkt.dataLen, kind, ctx, false, true);
      }
      NetworkCksumHandle(pkt, hw, ctx.link, ctx.network);
    }
  }
}
