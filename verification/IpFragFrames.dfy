/** Packets as the worker sees them: chains of memory buffers, each buffer with an identity. */
module Frames {
  import opened Bytes
  import opened ParserSpec
  import opened Checksum

  datatype Segment = Segment(id: int, bytes: seq<Byte>)

  /** `tailroom` is the free memory behind the data of the first buffer. */
  datatype Frame = Frame(head: Segment, tail: seq<Segment>, tailroom: nat, innerModified: bool, outerModified: bool)

  function SegmentIds(segments: seq<Segment>): multiset<int> {
    if segments == [] then multiset{} else multiset{segments[0].id} + SegmentIds(segments[1..])
  }

  /** The buffers a packet is made of. */
  function Ids(f: Frame): multiset<int> {
    multiset{f.head.id} + SegmentIds(f.tail)
  }

  lemma SameBuffers(f: Frame, g: Frame)
    requires f.head == g.head && f.tail == g.tail
    ensures Ids(f) == Ids(g)
  {}

  function TailBytes(segments: seq<Segment>): seq<Byte> {
    if segments == [] then [] else segments[0].bytes + TailBytes(segments[1..])
  }

  function Content(f: Frame): seq<Byte> {
    f.head.bytes + TailBytes(f.tail)
  }

  function Len(f: Frame): nat {
    |Content(f)|
  }

  /** The parsers look at the first buffer only; its data is followed by memory whose contents do not matter. */
  function Padded(f: Frame): (r: seq<Byte>)
    ensures Backed(r, |f.head.bytes|)
  {
    f.head.bytes + [0, 0]
  }

  function AllIds(frames: seq<Frame>): multiset<int> {
    if frames == [] then multiset{} else AllIds(frames[..|frames| - 1]) + Ids(frames[|frames| - 1])
  }

  lemma AllIdsNone()
    ensures AllIds([]) == multiset{}
  {}

  lemma AllIdsAppend(a: seq<Frame>, f: Frame)
    ensures AllIds(a + [f]) == AllIds(a) + Ids(f)
  {
    assert (a + [f])[..|a|] == a;
  }

  lemma {:induction false} AllIdsConcat(a: seq<Frame>, b: seq<Frame>)
    ensures AllIds(a + b) == AllIds(a) + AllIds(b)
  {
    hide Ids;
    if b == [] {
      assert a + b == a;
    } else {
      var front := b[..|b| - 1];
      AllIdsConcat(a, front);
      assert (a + b)[..|a + b| - 1] == a + front;
    }
  }

  /** The buffers of the packets from the `i`th on. */
  function RestIds(frames: seq<Frame>, i: nat): multiset<int>
    decreases |frames| - i
  {
    if i >= |frames| then multiset{} else RestIds(frames, i + 1) + Ids(frames[i])
  }

  lemma NothingBehind()
    ensures TailBytes([]) == [] && SegmentIds([]) == multiset{}
  {}

  lemma CopiedBehind(bytes: seq<Byte>, tail: seq<Segment>)
    requires tail != []
    ensures (bytes + tail[0].bytes) + TailBytes(tail[1..]) == bytes + TailBytes(tail)
    ensures |TailBytes(tail)| == |tail[0].bytes| + |TailBytes(tail[1..])|
  {
    var rest := TailBytes(tail[1..]);
    assert (bytes + tail[0].bytes) + rest == bytes + (tail[0].bytes + rest);
  }

  lemma FirstBehind(tail: seq<Segment>)
    requires tail != []
    ensures SegmentIds(tail) == multiset{tail[0].id} + SegmentIds(tail[1..])
  {}

  // ---------------------------------------------------------------- flattening

  const U16: nat := 65536

  function TailLen(f: Frame): nat {
    |TailBytes(f.tail)|
  }

  /** The size of the tail, kept in 16 bits, exceeds the tailroom: the packet is refused. */
  predicate TooBig(f: Frame) {
    TailLen(f) % U16 > f.tailroom
  }

  /** The 16-bit size passes although the tail does not fit. */
  predicate Overruns(f: Frame) {
    TailLen(f) % U16 <= f.tailroom < TailLen(f)
  }

  /** All buffers of a chain in the first one. */
  function Flattened(f: Frame): Frame
    requires TailLen(f) <= f.tailroom
  {
    f.(head := Segment(f.head.id, Content(f)), tail := [], tailroom := f.tailroom - TailLen(f))
  }

  /** Two buffers that together hold 65536 bytes pass the check of a buffer without any room. */
  lemma OverrunWitness()
    ensures var half: seq<Byte> := seq(U16 / 2, _ => 0);
            Overruns(Frame(Segment(0, []), [Segment(1, half), Segment(2, half)], 0, true, false))
  {
    var half: seq<Byte> := seq(U16 / 2, _ => 0);
    var tail := [Segment(1, half), Segment(2, half)];
    CopiedBehind([], tail);
    CopiedBehind([], tail[1..]);
    assert tail[1..][1..] == [] && tail[1..][0] == tail[1];
  }

  datatype Flattening = Flat | TailTooBig | OutOfRoom

  /**
   ip_frag_pkt_flatten: the buffers of a chain copied behind the first one. The bytes of the packet are kept in order
   and exactly the other buffers are released. A tail whose size wraps around 16 bits can pass the check and run out
   of room while it is copied; the buffers copied until then have been released.
   */
  method Flatten(f: Frame) returns (r: Flattening, flat: Frame, ghost released: multiset<int>)
    ensures r == TailTooBig <==> TooBig(f)
    ensures r == OutOfRoom <==> Overruns(f)
    ensures r == TailTooBig ==> flat == f && released == multiset{}
    ensures r == Flat ==> TailLen(f) <= f.tailroom && flat == Flattened(f) && released == SegmentIds(f.tail)
    ensures released <= SegmentIds(f.tail)
  {
    hide TailBytes, SegmentIds;
    NothingBehind();
    flat, released := f, multiset{};
    var tailSize := (Len(f) - |f.head.bytes|) % U16;
    if tailSize > f.tailroom {
      return TailTooBig, flat, released;
    }
    var tail := f.tail;
    flat := flat.(tail := []);
    while tail != []
      invariant flat == f.(head := flat.head, tail := [], tailroom := flat.tailroom) && flat.head.id == f.head.id
      invariant flat.head.bytes + TailBytes(tail) == Content(f)
      invariant flat.tailroom - |TailBytes(tail)| == f.tailroom - TailLen(f)
      invariant released + SegmentIds(tail) == SegmentIds(f.tail)
      decreases |tail|
    {
      CopiedBehind(flat.head.bytes, tail);
      FirstBehind(tail);
      if |tail[0].bytes| > flat.tailroom {
        return OutOfRoom, flat, released;
      }
      flat := flat.(head := Segment(flat.head.id, flat.head.bytes + tail[0].bytes),
                    tailroom := flat.tailroom - |tail[0].bytes|);
      released := released + multiset{tail[0].id};
      tail := tail[1..];
    }
    r := Flat;
  }

  // ---------------------------------------------------------------- fragments

  /** The IHL of a fragment: that of its packet, unless options of the packet are left out of it. */
  predicate FragmentIhl(ihl: nat, packet: nat) {
    ihl == packet || 5 <= ihl < packet
  }

  /** A fragment as the fragmentation library delivers it: no longer than asked for, with the header of its packet. */
  predicate IsFragment(f: Frame, ipv4: bool, ihl: nat, limit: nat) {
    && Len(f) <= limit && f.head.bytes != []
    && (ipv4 ==> FragmentIhl(U8(f.head.bytes, 0) % 16, ihl) && 2 * HeaderWords(f.head.bytes, 0) <= |f.head.bytes|)
  }

  function Zeros(n: nat): (r: seq<Byte>)
    ensures |r| == n
  {
    seq(n, _ => 0)
  }

  /** The header checksum stored where it belongs, which for a header of one or two words can be behind the data. */
  function Summed(bytes: seq<Byte>): (r: seq<Byte>)
    requires bytes != [] && 2 * HeaderWords(bytes, 0) <= |bytes|
    ensures |r| == |bytes|
  {
    WithIpv4Checksum(bytes + Zeros(20), 0)[..|bytes|]
  }

  lemma {:induction false} WordSumShift(prefix: seq<Byte>, buf: seq<Byte>, at: nat, words: nat)
    requires at + 2 * words <= |buf|
    ensures WordSum(prefix + buf, |prefix| + at, words) == WordSum(buf, at, words)
    decreases words
  {
    if words > 0 {
      WordSumShift(prefix, buf, at + 2, words - 1);
    }
  }

  lemma {:induction false} WordSumPrefix(a: seq<Byte>, b: seq<Byte>, at: nat, words: nat)
    requires at + 2 * words <= |a| <= |b| && forall i :: 0 <= i < |a| ==> a[i] == b[i]
    ensures WordSum(a, at, words) == WordSum(b, at, words)
    decreases words
  {
    if words > 0 {
      WordSumPrefix(a, b, at + 2, words - 1);
    }
  }

  /** The stored checksum verifies if and only if the IHL is at least three or the short header verified before. */
  lemma SummedVerifies(bytes: seq<Byte>)
    requires bytes != [] && 2 * HeaderWords(bytes, 0) <= |bytes|
    ensures U8(Summed(bytes), 0) == U8(bytes, 0)
    ensures ChecksumVerifies(Summed(bytes), 0) <==> U8(bytes, 0) % 16 >= 3 || ChecksumVerifies(bytes, 0)
  {
    hide Fold, WithIpv4Checksum;
    var padded := bytes + Zeros(20);
    var stored := WithIpv4Checksum(padded, 0);
    StoredChecksumVerifies(padded, 0);
    FirstByteKept(padded, 0);
    WordSumPrefix(bytes, padded, 0, HeaderWords(bytes, 0));
    WordSumPrefix(Summed(bytes), stored, 0, HeaderWords(bytes, 0));
  }

  /** A fragment with its header checksum computed, unless the device does, behind a copy of the link header. */
  function Finished(f: Frame, eth: seq<Byte>, ipv4: bool, hw: bool, ihl: nat, limit: nat): (r: Frame)
    requires IsFragment(f, ipv4, ihl, limit)
    ensures Ids(r) == Ids(f) && |eth| <= |r.head.bytes| && r.head.bytes[..|eth|] == eth
  {
    var bytes := if ipv4 && !hw then Summed(f.head.bytes) else f.head.bytes;
    f.(head := Segment(f.head.id, eth + bytes))
  }

  /**
   What leaves the fragmentation path in place of a packet that is too long. Its IPv4 checksum verifies if the packet
   had an IHL of at least three, and never if it had an IHL of zero.
   */
  predicate IsPiece(f: Frame, eth: seq<Byte>, ipv4: bool, hw: bool, ihl: nat, mtu: nat) {
    && Len(f) <= mtu
    && |eth| < |f.head.bytes| && f.head.bytes[..|eth|] == eth
    && (ipv4 && !hw ==>
          && FragmentIhl(U8(f.head.bytes, |eth|) % 16, ihl)
          && |eth| + 2 * HeaderWords(f.head.bytes, |eth|) <= |f.head.bytes|
          && (ihl >= 3 ==> ChecksumVerifies(f.head.bytes, |eth|))
          && (ihl == 0 ==> !ChecksumVerifies(f.head.bytes, |eth|)))
  }

  lemma Shifted(eth: seq<Byte>, bytes: seq<Byte>)
    requires bytes != [] && 2 * HeaderWords(bytes, 0) <= |bytes|
    ensures U8(eth + bytes, |eth|) == U8(bytes, 0)
    ensures ChecksumVerifies(eth + bytes, |eth|) == ChecksumVerifies(bytes, 0)
  {
    hide Fold;
    WordSumShift(eth, bytes, 0, HeaderWords(bytes, 0));
  }

  /**
   Every fragment becomes such a piece; in software mode its checksum verifies if and only if its IHL is at least
   three or its short header verified before.
   */
  lemma FinishedIsPiece(f: Frame, eth: seq<Byte>, ipv4: bool, hw: bool, ihl: nat, limit: nat)
    requires IsFragment(f, ipv4, ihl, limit)
    ensures var r := Finished(f, eth, ipv4, hw, ihl, limit);
            && IsPiece(r, eth, ipv4, hw, ihl, limit + |eth|)
            && (ipv4 && !hw ==>
                  (ChecksumVerifies(r.head.bytes, |eth|)
                   <==> U8(f.head.bytes, 0) % 16 >= 3 || ChecksumVerifies(f.head.bytes, 0)))
  {
    hide Summed, ChecksumVerifies;
    var r := Finished(f, eth, ipv4, hw, ihl, limit);
    assert Len(r) == |eth| + Len(f);
    if ipv4 && !hw {
      SummedVerifies(f.head.bytes);
      Shifted(eth, Summed(f.head.bytes));
      if ihl == 0 {
        EmptyNeverVerifies(f.head.bytes);
      }
    }
  }

  lemma EmptyNeverVerifies(bytes: seq<Byte>)
    requires bytes != [] && U8(bytes, 0) % 16 == 0
    ensures !ChecksumVerifies(bytes, 0)
  {}
}
