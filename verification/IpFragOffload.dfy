/** What the device makes of the UDP checksum that the fix-up leaves to it. */
module UdpOffload {
  import opened Bytes
  import opened ParserSpec
  import opened PacketParser
  import opened Checksum
  import opened IpFragFixup

  // ---------------------------------------------------------------- sums of words

  lemma {:induction false} WordSumMoved(a: seq<Byte>, p: nat, b: seq<Byte>, q: nat, words: nat)
    requires p + 2 * words <= |a| && q + 2 * words <= |b| && a[p..p + 2 * words] == b[q..q + 2 * words]
    ensures WordSum(a, p, words) == WordSum(b, q, words)
    decreases words
  {
    if words > 0 {
      var x, y := a[p..p + 2 * words], b[q..q + 2 * words];
      assert a[p] == x[0] == y[0] == b[q] && a[p + 1] == x[1] == y[1] == b[q + 1];
      assert a[p + 2..p + 2 * words] == x[2..] && b[q + 2..q + 2 * words] == y[2..];
      WordSumMoved(a, p + 2, b, q + 2, words - 1);
    }
  }

  lemma {:induction false} WordSumSplit(a: seq<Byte>, p: nat, m: nat, n: nat)
    requires p + 2 * (m + n) <= |a|
    ensures WordSum(a, p, m + n) == WordSum(a, p, m) + WordSum(a, p + 2 * m, n)
    decreases m
  {
    if m > 0 {
      WordSumSplit(a, p + 2, m - 1, n);
    }
  }

  lemma FoldsToOnes(x: nat)
    ensures Fold(x) == 65535 <==> x > 0 && x % 65535 == 0
  {
    if x > 0 && x % 65535 == 0 {
      FoldOfMultiple(x);
    }
  }

  // ---------------------------------------------------------------- the checksum of a datagram

  /** The pseudo-header of a UDP datagram over IPv6 (RFC 8200 section 8.1); the IPv6 header follows the link header. */
  function PseudoHeader(packet: seq<Byte>, udpLength: nat): (p: seq<Byte>)
    requires 54 <= |packet|
    ensures |p| == 40
  {
    packet[22..54] + [0, 0, udpLength / 256 % 256, udpLength % 256] + [0, 0, 0, 17]
  }

  lemma PseudoHeaderWords(packet: seq<Byte>, udpLength: nat)
    requires 54 <= |packet| && udpLength < 65536
    ensures WordSum(PseudoHeader(packet, udpLength), 0, 20) == WordSum(packet, 22, 16) + udpLength + 17
  {
    hide WordSum;
    var p := PseudoHeader(packet, udpLength);
    WordSumSplit(p, 0, 16, 4);
    WordSumMoved(p, 0, packet, 22, 16);
    FourWords(p, 32);
    TwoBytes(udpLength);
  }

  lemma FourWords(p: seq<Byte>, at: nat)
    requires at + 8 <= |p|
    ensures WordSum(p, at, 4) == Be16(p, at) + Be16(p, at + 2) + Be16(p, at + 4) + Be16(p, at + 6)
  {
    assert WordSum(p, at + 6, 1) == Be16(p, at + 6) + WordSum(p, at + 8, 0);
    assert WordSum(p, at + 4, 2) == Be16(p, at + 4) + WordSum(p, at + 6, 1);
    assert WordSum(p, at + 2, 3) == Be16(p, at + 2) + WordSum(p, at + 4, 2);
  }

  /** A datagram as the sum is taken over it: with a zero behind an odd number of bytes. */
  function Padded(datagram: seq<Byte>): (r: seq<Byte>)
    ensures |r| % 2 == 0
  {
    if |datagram| % 2 == 0 then datagram else datagram + [0]
  }

  /** RFC 768: pseudo-header and datagram, checksum included, sum up to all ones. */
  predicate DatagramVerifies(packet: seq<Byte>, datagram: seq<Byte>)
    requires 54 <= |packet|
  {
    var padded := Padded(datagram);
    Fold(WordSum(PseudoHeader(packet, |datagram|), 0, 20) + WordSum(padded, 0, |padded| / 2)) == 65535
  }

  /** What the device does: the complement of the sum over the datagram replaces the seed; zero is sent as all ones. */
  function Completed(datagram: seq<Byte>): (r: seq<Byte>)
    requires 8 <= |datagram|
    ensures |r| == |datagram|
  {
    var padded := Padded(datagram);
    var sum := Fold(WordSum(padded, 0, |padded| / 2));
    PutBe16(datagram, 6, if sum == 65535 then 65535 else 65535 - sum)
  }

  /** The completed datagram verifies if and only if the seed is the sum of the pseudo-header. */
  lemma SeedDecides(packet: seq<Byte>, datagram: seq<Byte>)
    requires 54 <= |packet| && 8 <= |datagram| < 65536
    ensures DatagramVerifies(packet, Completed(datagram))
            <==> Be16(datagram, 6) % 65535 == WordSum(PseudoHeader(packet, |datagram|), 0, 20) % 65535
  {
    hide WordSum, PutBe16, Be16, PseudoHeader, Fold;
    var padded, done := Padded(datagram), Padded(Completed(datagram));
    var words := |padded| / 2;
    var sum := WordSum(padded, 0, words);
    var c := if Fold(sum) == 65535 then 65535 else 65535 - Fold(sum);
    var pseudo := WordSum(PseudoHeader(packet, |datagram|), 0, 20);
    PaddedPut(datagram, c);
    WordSumOfPut(padded, 0, words, 3, c);
    SameWord(datagram);
    PseudoHeaderWords(packet, |datagram|);
    FoldsToOnes(pseudo + WordSum(done, 0, words));
    ComplementCancels(sum, c);
    Congruent(pseudo, sum + c, Be16(datagram, 6), WordSum(done, 0, words));
  }

  lemma SameWord(datagram: seq<Byte>)
    requires 8 <= |datagram|
    ensures Be16(Padded(datagram), 6) == Be16(datagram, 6)
  {}

  lemma PaddedPut(datagram: seq<Byte>, v: nat)
    requires 8 <= |datagram|
    ensures Padded(PutBe16(datagram, 6, v)) == PutBe16(Padded(datagram), 6, v)
  {}

  lemma ComplementCancels(sum: nat, c: nat)
    requires c == if Fold(sum) == 65535 then 65535 else 65535 - Fold(sum)
    ensures (sum + c) % 65535 == 0
  {
    hide Fold;
    var f := Fold(sum);
    assert f % 65535 == sum % 65535;
  }

  lemma Congruent(pseudo: nat, whole: nat, seed: nat, rest: nat)
    requires whole % 65535 == 0 && rest + seed == whole
    ensures (pseudo + rest) % 65535 == 0 <==> seed % 65535 == pseudo % 65535
  {
    var k := whole / 65535;
    assert whole == k * 65535;
    var x, y := pseudo / 65535, seed / 65535;
    var a, b := pseudo % 65535, seed % 65535;
    assert pseudo + rest == (k + x - y) * 65535 + (a - b);
    Remainder(k + x - y, a - b, pseudo + rest);
  }

  lemma Remainder(k: int, d: int, n: int)
    requires n == k * 65535 + d && -65535 < d < 65535
    ensures n % 65535 == 0 <==> d == 0
  {}

  // ---------------------------------------------------------------- extension headers

  lemma ExtensionFacts(buf: seq<Byte>, at: nat, proto: nat)
    requires at + 2 <= |buf|
    ensures var x := NextExtension(buf, at, proto);
            x.Extension? ==> x.len % 4 == 0 && proto in {0, 43, 44, 51, 60}
  {}

  /** What an extension chain tells about the first header behind the IPv6 header. */
  lemma {:induction false} ChainStart(buf: seq<Byte>, at: nat, proto: nat, end: nat, fragExt: Loc)
    requires Backed(buf, end) && at <= end
    ensures var c := Chain(buf, at, proto, end, fragExt);
            c.ChainEnd? ==>
              && (c.at - at) % 4 == 0 && (c.at == at ==> c.proto == proto)
              && (c.at > at ==> proto in {0, 43, 44, 51, 60}) && (c.at > at && proto == 44 ==> c.fragExt.At?)
              && (fragExt.At? ==> c.fragExt.At?)
    decreases end - at
  {
    hide NextExtension;
    var x := NextExtension(buf, at, proto);
    ExtensionFacts(buf, at, proto);
    if x.Extension? && at + x.len <= end {
      ChainStart(buf, at + x.len, x.next, end, if proto == FRAGMENT then At(at) else fragExt);
    }
  }

  /** Unfragmented UDP over IPv6: its extension headers are whole words, and the first is no Fragment header. */
  lemma OuterHeader(bytes: seq<Byte>, end: nat, ctx: TunCtx)
    requires Backed(bytes, end) && Tunnel(bytes, end) == (Success, ctx) && !IsV4(ctx) && OverUdp(ctx)
    ensures 40 <= ctx.network.len && (ctx.network.len - 40) % 4 == 0 && 54 <= |bytes|
    ensures ctx.network.len == 40 <==> bytes[20] == 17
    ensures ctx.network.len > 40 ==> bytes[20] in {0, 43, 51, 60}
  {
    hide Tunnel, Chain;
    EncapsulatedKeepsOuter(bytes, end, ctx);
    ConnFits(bytes, end);
    assert 54 <= end;
    ChainStart(bytes, 54, U8(bytes, 20), end, Null);
  }

  lemma EncapsulatedKeepsOuter(bytes: seq<Byte>, end: nat, ctx: TunCtx)
    requires Backed(bytes, end) && Tunnel(bytes, end) == (Success, ctx)
    ensures Plain(bytes, end).0 == Success
    ensures Plain(bytes, end).1.network == ctx.network && Plain(bytes, end).1.transport == ctx.transport
  {
    hide Plain, Gtpu, Conn;
  }

  /** The extra that extension headers bring into the seed is a multiple of 65535 in one case only. */
  lemma ExtraVanishes(ext: nat, next: nat, payload: nat)
    requires ext % 4 == 0 && ext + 8 <= payload < 65536
    requires (ext == 0 <==> next == 17) && (ext > 0 ==> next in {0, 43, 51, 60})
    ensures (ext + next - 17) % 65535 == 0 <==> ext == 0 || (next == 60 && ext == 65492)
  {}

  lemma AddressesKept(bytes: seq<Byte>, end: nat, pktLen: nat, ctx: TunCtx)
    requires Fits(bytes, end, ctx) && end <= pktLen && !IsV4(ctx) && 40 <= ctx.network.len && 54 <= |bytes|
    ensures WordSum(Refitted(bytes, end, pktLen, ctx, true), 22, 16) == WordSum(bytes, 22, 16)
  {
    hide WordSum, Refitted;
    var r := Refitted(bytes, end, pktLen, ctx, true);
    forall i | 22 <= i < 54
      ensures r[i] == bytes[i]
    {
      RefitKeepsTheRest(bytes, end, pktLen, ctx, true, i);
    }
    WordSumFrame(r, bytes, 22, 16);
  }

  lemma SeedOf(bytes: seq<Byte>, payload: nat)
    requires 54 <= |bytes| && payload < 65536
    ensures PseudoHeaderSum(PutBe16(bytes, 18, payload)) % 65535
            == (WordSum(bytes, 22, 16) + payload + U8(bytes, 20)) % 65535
  {
    hide WordSum, PutBe16, Fold;
    var sized := PutBe16(bytes, 18, payload);
    Be16OfPut(bytes, 18, payload, 18);
    forall i | 20 <= i < 54
      ensures sized[i] == bytes[i]
    {
      U8OfPut(bytes, 18, payload, i);
    }
    WordSumFrame(sized, bytes, 22, 16);
  }

  lemma SeedStored(bytes: seq<Byte>, end: nat, pktLen: nat, ctx: TunCtx)
    requires Fits(bytes, end, ctx) && end <= pktLen && !IsV4(ctx) && 54 <= |bytes| && 54 <= pktLen
    ensures Be16(Refitted(bytes, end, pktLen, ctx, true), UdpAt(ctx) + 6)
            == PseudoHeaderSum(PutBe16(bytes, 18, pktLen - 54))
  {
    hide Refitted, PutBe16, PseudoHeaderSum, WithLengths, Be16, ShortChecksum;
    ChecksumsKeepLengths(bytes, end, pktLen, ctx, true);
  }

  lemma WordOfPrefix(r: seq<Byte>, at: nat, end: nat, datagram: seq<Byte>)
    requires at + 8 <= end <= |r| && r[at..end] <= datagram
    ensures Be16(datagram, 6) == Be16(r, at + 6)
  {
    assert r[at..end][6] == r[at + 6] && r[at..end][7] == r[at + 7];
  }

  lemma SameRemainder(a: nat, b: nat, d: int)
    requires a == b + d
    ensures a % 65535 == b % 65535 <==> d % 65535 == 0
  {
    var x, y := a / 65535, b / 65535;
    var e := a % 65535 - b % 65535;
    assert d == (x - y) * 65535 + e;
    Remainder(x - y, e, d);
  }

  /**
   In hardware mode over IPv6 the device completes the seed to a checksum that verifies if and only if there are no
   extension headers behind the outer IPv6 header, or 65492 bytes of them of which the first are Destination Options:
   the seed is taken from the payload length and the next header of the IPv6 header. `rest` are the other segments.
   */
  lemma DeviceChecksumVerifies(bytes: seq<Byte>, end: nat, ctx: TunCtx, rest: seq<Byte>)
    requires Backed(bytes, end) && Tunnel(bytes, end) == (Success, ctx) && !IsV4(ctx) && OverUdp(ctx)
    requires Fits(bytes, end, ctx) && end + |rest| < 65536 + 54 && 54 <= |bytes|
    ensures var r := Refitted(bytes, end, end + |rest|, ctx, true);
            DatagramVerifies(r, Completed(r[UdpAt(ctx)..end] + rest))
            <==> ctx.network.len == 40 || (ctx.network.len == 40 + 65492 && bytes[20] == 60)
  {
    hide WordSum, PutBe16, Be16, Tunnel, Refitted, Completed, DatagramVerifies, PseudoHeader, PseudoHeaderSum;
    var pktLen := end + |rest|;
    var r := Refitted(bytes, end, pktLen, ctx, true);
    var datagram := r[UdpAt(ctx)..end] + rest;
    OuterHeader(bytes, end, ctx);
    SeedDecides(r, datagram);
    PseudoHeaderWords(r, |datagram|);
    AddressesKept(bytes, end, pktLen, ctx);
    SeedStored(bytes, end, pktLen, ctx);
    SeedOf(bytes, pktLen - 54);
    WordOfPrefix(r, UdpAt(ctx), end, datagram);
    var addresses := WordSum(bytes, 22, 16);
    var ext := ctx.network.len - 40;
    SameRemainder(addresses + (pktLen - 54) + U8(bytes, 20), addresses + |datagram| + 17, ext + U8(bytes, 20) - 17);
    ExtraVanishes(ext, bytes[20], pktLen - 54);
  }

  // ---------------------------------------------------------------- an instance

  /** A tunnelled packet of 106 bytes with eight bytes of Hop-by-Hop Options behind its outer IPv6 header. */
  function HopPacket(): (buf: seq<Byte>)
    ensures |buf| == 108 && IsHopTunnel(buf)
  {
    seq(12, _ => 0) + [0x86, 0xDD, 0x60] + seq(39, _ => 0) + [17] + seq(15, _ => 0) + [0x30] + seq(7, _ => 0) + [0x45]
    + seq(8, _ => 0) + [17] + seq(20, _ => 0)
  }

  predicate IsHopTunnel(buf: seq<Byte>) {
    && |buf| == 108 && Be16(buf, 12) == ETHER_IPV6 && U8(buf, 14) == 0x60 && U8(buf, 20) == 0
    && U8(buf, 54) == 17 && U8(buf, 55) == 0 && U8(buf, 70) == 0x30
    && U8(buf, 78) == 0x45 && Be16(buf, 84) == 0 && U8(buf, 87) == 17
  }

  lemma HopOuter(buf: seq<Byte>)
    requires IsHopTunnel(buf)
    ensures var (code, ctx) := Plain(buf, 106);
            && code == Success && ctx.network.len == 48 && ctx.network.ipVersion == PROTO_IPV6
            && ctx.transport.proto == PROTO_UDP && ctx.transport.len == 8 && ctx.len == 70
  {
    assert NextExtension(buf, 54, 0) == Extension(17, 8);
    assert Chain(buf, 62, 17, 106, Null) == ChainEnd(62, 17, Null);
    assert Chain(buf, 54, 0, 106, Null) == ChainEnd(62, 17, Null);
  }

  lemma HopParses(buf: seq<Byte>)
    requires IsHopTunnel(buf)
    ensures var (code, ctx) := Tunnel(buf, 106);
            code == Success && !IsV4(ctx) && OverUdp(ctx) && Fits(buf, 106, ctx) && ctx.network.len == 48
  {
    hide Plain, Gtpu, Conn, Fits;
    HopOuter(buf);
    ConnFits(buf, 106);
    SimpleGtp(buf, 70, 106);
    SimpleInner(buf, 78, 106);
    TunnelFits(buf, 106);
  }

  lemma DeviceChecksumWitness()
    ensures var buf := HopPacket(); var (code, ctx) := Tunnel(buf, 106);
            && code == Success && Fits(buf, 106, ctx)
            && var r := Refitted(buf, 106, 106, ctx, true);
               !DatagramVerifies(r, Completed(r[UdpAt(ctx)..106] + []))
  {
    hide Refitted, Fits, Tunnel, HopPacket, IsHopTunnel, DatagramVerifies, Completed;
    HopParses(HopPacket());
    DeviceChecksumVerifies(HopPacket(), 106, Tunnel(HopPacket(), 106).1, []);
  }
}
