/** The FNV-1a hash that `generateID` applies to the eight bytes of a pointer. */
module Fnv {
  import opened Bytes

  type Word = n: int | 0 <= n < 0x1_0000_0000_0000_0000
  type Id = Word
  type Ptr = Word

  const FNV_OFFSET: Word := 0xcbf29ce484222325

  /** Bitwise exclusive or of the `width` low bits of two numbers. */
  function Xor(a: nat, b: nat, width: nat): nat {
    if width == 0 then 0
    else (if a % 2 == b % 2 then 0 else 1) + 2 * Xor(a / 2, b / 2, width - 1)
  }

  function Pow2(n: nat): nat {
    if n == 0 then 1 else 2 * Pow2(n - 1)
  }

  lemma {:induction false} XorBound(a: nat, b: nat, width: nat)
    ensures Xor(a, b, width) < Pow2(width)
  {
    if width > 0 {
      XorBound(a / 2, b / 2, width - 1);
    }
  }

  lemma {:induction false} XorUndoesItself(a: nat, b: nat, width: nat)
    requires b < Pow2(width)
    ensures Xor(a, Xor(a, b, width), width) == b
  {
    if width > 0 {
      XorUndoesItself(a / 2, b / 2, width - 1);
    }
  }

  lemma XorCommutes(a: nat, b: nat, width: nat)
    ensures Xor(a, b, width) == Xor(b, a, width)
  {}

  lemma ByteRange()
    ensures Pow2(8) == 256
  {
    assert Pow2(4) == 16;
  }

  lemma LowByteFits(state: Word, b: Byte)
    ensures 0 <= state - state % 256 + Xor(b, state % 256, 8) < 0x1_0000_0000_0000_0000
  {
    hide Xor;
    XorBound(b, state % 256, 8);
    ByteRange();
    assert state / 256 < 0x100_0000_0000_0000;
    assert state - state % 256 == (state / 256) * 256;
  }

  /** Exclusive or of a byte into a 64-bit word: only the low byte of the word can change. */
  function Mix(state: Word, b: Byte): Word {
    LowByteFits(state, b);
    state - state % 256 + Xor(b, state % 256, 8)
  }

  /** Multiplication by the FNV prime, truncated to 64 bits. */
  function Scale(x: Word): Word {
    (x * 0x100000001b3) % 0x1_0000_0000_0000_0000
  }

  function Step(state: Word, b: Byte): Word {
    Scale(Mix(state, b))
  }

  function Hash(bytes: seq<Byte>, state: Word): Word {
    if bytes == [] then state else Hash(bytes[1..], Step(state, bytes[0]))
  }

  /** The little-endian bytes of a word, as they lie in memory. */
  function WordBytes(w: Word, count: nat): (bytes: seq<Byte>)
    ensures |bytes| == count
  {
    if count == 0 then [] else [w % 256] + WordBytes(w / 256, count - 1)
  }

  function GenerateId(p: Ptr): Id {
    Hash(WordBytes(p, 8), FNV_OFFSET)
  }

  /** The prime is odd, so it has an inverse modulo 2^64 and multiplying by it loses nothing. */
  lemma ScaleInjective(x: Word, y: Word)
    requires Scale(x) == Scale(y)
    ensures x == y
  {
    ScaleInvertible(x);
    ScaleInvertible(y);
  }

  lemma ScaleInvertible(x: Word)
    ensures (Scale(x) * 0xce965057aff6957b) % 0x1_0000_0000_0000_0000 == x
  {
    var q := (x * 0x100000001b3) / 0x1_0000_0000_0000_0000;
    var multiple := x * 887285111055 - q * 0xce965057aff6957b;
    assert Scale(x) * 0xce965057aff6957b == x + multiple * 0x1_0000_0000_0000_0000;
    ModOfMultiple(x, multiple);
  }

  lemma ModOfMultiple(x: Word, multiple: int)
    ensures (x + multiple * 0x1_0000_0000_0000_0000) % 0x1_0000_0000_0000_0000 == x
  {}

  lemma MixParts(s: Word, b: Byte)
    ensures Mix(s, b) % 256 == Xor(b, s % 256, 8)
    ensures Mix(s, b) / 256 == s / 256
  {
    ByteRange();
    XorBound(b, s % 256, 8);
  }

  /** For a fixed byte, one step permutes the 2^64 states. */
  lemma StepInjectiveInState(s: Word, t: Word, b: Byte)
    requires Step(s, b) == Step(t, b)
    ensures s == t
  {
    ScaleInjective(Mix(s, b), Mix(t, b));
    MixParts(s, b);
    MixParts(t, b);
    ByteRange();
    XorUndoesItself(b, s % 256, 8);
    XorUndoesItself(b, t % 256, 8);
  }

  /** For a fixed state, different bytes lead to different states. */
  lemma StepInjectiveInByte(s: Word, b: Byte, c: Byte)
    requires Step(s, b) == Step(s, c)
    ensures b == c
  {
    ScaleInjective(Mix(s, b), Mix(s, c));
    ByteRange();
    XorCommutes(b, s % 256, 8);
    XorCommutes(c, s % 256, 8);
    XorUndoesItself(s % 256, b, 8);
    XorUndoesItself(s % 256, c, 8);
  }

  lemma {:induction false} HashAppend(a: seq<Byte>, b: seq<Byte>, state: Word)
    ensures Hash(a + b, state) == Hash(b, Hash(a, state))
  {
    if a == [] {
      assert a + b == b;
    } else {
      assert (a + b)[1..] == a[1..] + b;
      HashAppend(a[1..], b, Step(state, a[0]));
    }
  }

  /** Hashing fixed bytes permutes the 2^64 states. */
  lemma {:induction false} HashInjectiveInState(bytes: seq<Byte>, s: Word, t: Word)
    requires Hash(bytes, s) == Hash(bytes, t)
    ensures s == t
  {
    if bytes != [] {
      HashInjectiveInState(bytes[1..], Step(s, bytes[0]), Step(t, bytes[0]));
      StepInjectiveInState(s, t, bytes[0]);
    }
  }

  /** Two equal-length byte strings that differ in exactly one position never collide. */
  lemma DifferInOnePosition(a: seq<Byte>, b: seq<Byte>, k: nat, state: Word)
    requires |a| == |b| && k < |a| && a[k] != b[k]
    requires forall i :: 0 <= i < |a| && i != k ==> a[i] == b[i]
    ensures Hash(a, state) != Hash(b, state)
  {
    var pre, post := a[..k], a[k + 1..];
    assert a == pre + ([a[k]] + post) && b == pre + ([b[k]] + post);
    HashAppend(pre, [a[k]] + post, state);
    HashAppend(pre, [b[k]] + post, state);
    var mid := Hash(pre, state);
    if Hash(a, state) == Hash(b, state) {
      assert ([a[k]] + post)[1..] == post && ([b[k]] + post)[1..] == post;
      HashInjectiveInState(post, Step(mid, a[k]), Step(mid, b[k]));
      StepInjectiveInByte(mid, a[k], b[k]);
    }
  }

  /** The loop of `generateID`: the byte cursor moves up while the count runs down. */
  method HashBytes(bytes: seq<Byte>) returns (id: Id)
    ensures id == Hash(bytes, FNV_OFFSET)
  {
    var cursor: nat, remaining: nat := 0, |bytes|;
    id := FNV_OFFSET;
    while remaining > 0
      invariant cursor + remaining == |bytes|
      invariant Hash(bytes[cursor..], id) == Hash(bytes, FNV_OFFSET)
    {
      remaining := remaining - 1;
      assert bytes[cursor..][1..] == bytes[cursor + 1..];
      id := Step(id, bytes[cursor]);
      cursor := cursor + 1;
    }
  }

  /** generateID: the hash of the bytes of the pointer, in memory order. */
  method Generate(p: Ptr) returns (id: Id)
    ensures id == GenerateId(p)
  {
    id := HashBytes(WordBytes(p, 8));
  }

  lemma {:induction false} WordBytesInjective(p: Word, q: Word, count: nat)
    requires p < Pow256(count) && q < Pow256(count) && WordBytes(p, count) == WordBytes(q, count)
    ensures p == q
  {
    if count > 0 {
      var a, b := WordBytes(p, count), WordBytes(q, count);
      assert a[0] == b[0] && a[1..] == b[1..];
      assert a[1..] == WordBytes(p / 256, count - 1) && b[1..] == WordBytes(q / 256, count - 1);
      WordBytesInjective(p / 256, q / 256, count - 1);
    }
  }

  /** Two different pointers that agree in all bytes but one never get the same id. */
  lemma NearbyPointersDiffer(p: Ptr, q: Ptr, k: nat)
    requires p != q && k < 8
    requires forall i :: 0 <= i < 8 && i != k ==> WordBytes(p, 8)[i] == WordBytes(q, 8)[i]
    ensures GenerateId(p) != GenerateId(q)
  {
    var a, b := WordBytes(p, 8), WordBytes(q, 8);
    if a[k] == b[k] {
      assert a == b;
      Pow256Of8();
      WordBytesInjective(p, q, 8);
    }
    DifferInOnePosition(a, b, k, FNV_OFFSET);
  }

  /** So pointers into the same block of 256 bytes never share an id. */
  lemma SameBlockDiffers(p: Ptr, q: Ptr)
    requires p != q && p / 256 == q / 256
    ensures GenerateId(p) != GenerateId(q)
  {
    hide Hash, GenerateId;
    var a, b, rest := WordBytes(p, 8), WordBytes(q, 8), WordBytes(p / 256, 7);
    assert a == [p % 256] + rest && b == [q % 256] + rest;
    NearbyPointersDiffer(p, q, 0);
  }

  // ---------------------------------------------------------------- published values

  /** One step in numbers: the low byte before and after the exclusive or, and the multiples of 2^64 cut off. */
  lemma StepIs(state: Word, b: Byte, was: Byte, low: Byte, carry: nat, next: Word)
    requires state % 256 == was && Xor(b, was, 8) == low
    requires (state - was + low) * 0x100000001b3 == carry * 0x1_0000_0000_0000_0000 + next
    ensures Step(state, b) == next
  {
    hide Xor;
    ModOfMultiple(next, carry);
  }

  /** The bits of 0x61 and 0x25, from the highest one on. */
  lemma XorForA()
    ensures Xor(0x61, 0x25, 8) == 0x44
  {
    assert Xor(0, 0, 1) == 0;
    assert Xor(1, 0, 2) == 1;
    assert Xor(3, 1, 3) == 2;
    assert Xor(6, 2, 4) == 4;
    assert Xor(12, 4, 5) == 8;
    assert Xor(24, 9, 6) == 17;
    assert Xor(48, 18, 7) == 34;
    assert Xor(97, 37, 8) == 68;
  }

  /** The 64-bit FNV-1a hashes of the empty string and of "a", as the authors of the hash publish them. */
  lemma PublishedValues()
    ensures Hash([], FNV_OFFSET) == 0xcbf29ce484222325
    ensures Hash([0x61], FNV_OFFSET) == 0xaf63dc4c8601ec8c
  {
    hide Step, Xor;
    XorForA();
    StepIs(0xcbf29ce484222325, 0x61, 0x25, 0x44, 0xcbf29ce5de, 0xaf63dc4c8601ec8c);
    assert [0x61][1..] == [];
  }

  /** Bytes are taken in order: one more is one more step. */
  lemma HashSnoc(bytes: seq<Byte>, b: Byte, state: Word)
    ensures Hash(bytes + [b], state) == Step(Hash(bytes, state), b)
  {
    hide Step;
    HashAppend(bytes, [b], state);
    assert [b][1..] == [];
  }

  /** The word that bytes in memory stand for on a little-endian machine. */
  function FromMemory(bytes: seq<Byte>): nat {
    if bytes == [] then 0 else bytes[0] + 256 * FromMemory(bytes[1..])
  }

  lemma {:induction false} WordBytesRoundTrip(w: Word, count: nat)
    requires w < Pow256(count)
    ensures FromMemory(WordBytes(w, count)) == w
  {
    if count > 0 {
      WordBytesRoundTrip(w / 256, count - 1);
      assert WordBytes(w, count)[1..] == WordBytes(w / 256, count - 1);
    }
  }
}
