/** How a file is cut into the pieces that are sent one message each. */
module FileChunks {
  import opened Bytes

  type File = seq<Byte>

  const U32: nat := 0x1_0000_0000

  /** How far the receiving side has come. */
  datatype Transfer = Idle | InProgress | Complete | Error

  /** Where the `i`th piece starts. */
  function Offset(len: nat, size: nat, i: nat): (at: nat)
    ensures at <= len
  {
    if i == 0 then 0 else
    var before := Offset(len, size, i - 1);
    if before + size < len then before + size else len
  }

  lemma OffsetGrows(len: nat, size: nat, i: nat)
    ensures Offset(len, size, i) <= Offset(len, size, i + 1)
  {}

  function Piece(file: File, size: nat, i: nat): (p: File)
  {
    OffsetGrows(|file|, size, i);
    file[Offset(|file|, size, i)..Offset(|file|, size, i + 1)]
  }

  lemma PieceFollows(file: File, size: nat, i: nat)
    ensures file[..Offset(|file|, size, i)] + Piece(file, size, i) == file[..Offset(|file|, size, i + 1)]
  {
    OffsetGrows(|file|, size, i);
  }

  /** The first `n` pieces. */
  function Pieces(file: File, size: nat, n: nat): (r: seq<File>)
    ensures |r| == n
    ensures forall i :: 0 <= i < n ==> r[i] == Piece(file, size, i)
  {
    if n == 0 then [] else Pieces(file, size, n - 1) + [Piece(file, size, n - 1)]
  }

  function Joined(pieces: seq<File>, n: nat): File
    requires n <= |pieces|
  {
    if n == 0 then [] else Joined(pieces, n - 1) + pieces[n - 1]
  }

  lemma {:induction false} PiecesJoin(file: File, size: nat, n: nat, k: nat)
    requires n <= k
    ensures Joined(Pieces(file, size, k), n) == file[..Offset(|file|, size, n)]
  {
    if n > 0 {
      PiecesJoin(file, size, n - 1, k);
      PieceFollows(file, size, n - 1);
    }
  }

  function PieceCount(len: nat, size: nat): nat
    requires size > 0
  {
    (len + size - 1) / size
  }

  /** The number of pieces as the 32-bit number that is announced: it is that number if and only if it fits. */
  function Announced(len: nat, size: nat): (n: nat)
    requires 0 < size
    ensures n < U32 && n <= PieceCount(len, size)
    ensures n == PieceCount(len, size) <==> PieceCount(len, size) < U32
  {
    PieceCount(len, size) % U32
  }

  /** A limit on the length of files rules out that the number is cut off, if and only if it is below 2^32 pieces. */
  lemma LimitSuffices(limit: nat, size: nat)
    requires 0 < size
    ensures (forall len: nat :: len <= limit ==> Announced(len, size) == PieceCount(len, size))
            <==> limit <= (U32 - 1) * size
  {
    hide PieceCount;
    forall len: nat
      ensures PieceCount(len, size) < U32 <==> len <= (U32 - 1) * size
    {
      OffsetIsProduct(len, size, U32 - 1);
      CountReachesEnd(len, size, U32 - 1);
    }
    if limit > (U32 - 1) * size {
      assert Announced(limit, size) != PieceCount(limit, size);
    }
  }

  /** One piece more than 32 bits can tell: a single piece is announced. */
  lemma OneTooMany(len: nat, size: nat)
    requires 0 < size && len == U32 * size + 1
    ensures PieceCount(len, size) == U32 + 1 && Announced(len, size) == 1
  {
    DivUnique(len + size - 1, size, U32 + 1);
  }

  /** What is on the wire once the announcement and the first `n` pieces are sent. */
  function OnWire(meta: seq<Byte>, file: File, size: nat, n: nat): (r: seq<seq<Byte>>)
    ensures |r| == n + 1
  {
    [meta] + Pieces(file, size, n)
  }

  lemma OnWireStep(meta: seq<Byte>, file: File, size: nat, n: nat)
    ensures OnWire(meta, file, size, 0) == [meta]
    ensures OnWire(meta, file, size, n + 1) == OnWire(meta, file, size, n) + [Piece(file, size, n)]
  {}

  lemma StartsAtZero(len: nat, size: nat)
    ensures Offset(len, size, 0) == 0
  {}

  /** Cutting the next piece off what is left. */
  lemma NextPiece(file: File, size: nat, i: nat)
    ensures var at := Offset(|file|, size, i);
            var left := |file| - at;
            var len := if left < size then left else size;
            Piece(file, size, i) == file[at..at + len] && Offset(|file|, size, i + 1) == at + len
  {}

  lemma {:induction false} OffsetIsProduct(len: nat, size: nat, i: nat)
    ensures Offset(len, size, i) == if i * size < len then i * size else len
  {
    if i > 0 {
      OffsetIsProduct(len, size, i - 1);
      assert i * size == (i - 1) * size + size;
    }
  }

  /** The pieces are exactly as many as it takes: fewer do not reach the end of the file. */
  lemma CountReachesEnd(len: nat, size: nat, n: nat)
    requires size > 0
    ensures Offset(len, size, n) == len <==> n >= PieceCount(len, size)
    ensures len > 0 ==> PieceCount(len, size) == 1 + (len - 1) / size
  {
    OffsetIsProduct(len, size, n);
    var c := PieceCount(len, size);
    DivBounds(len + size - 1, size);
    if n >= c {
      MulMonotone(c, n, size);
    } else {
      MulMonotone(n + 1, c, size);
    }
    if len > 0 {
      DivBounds(len - 1, size);
      DivUnique(len + size - 1, size, 1 + (len - 1) / size);
    }
  }

  /** Every piece but the last is of full size, and none is empty or longer. */
  lemma PieceSizes(file: File, size: nat, i: nat)
    requires size > 0 && i < PieceCount(|file|, size)
    ensures 0 < |Piece(file, size, i)| <= size
    ensures i + 1 < PieceCount(|file|, size) ==> |Piece(file, size, i)| == size
  {
    CountReachesEnd(|file|, size, i);
    CountReachesEnd(|file|, size, i + 1);
  }
}

/** One direction of the message channel, with its back-pressure. */
module Comch {
  import opened Bytes

  datatype Answer = Sent | Again | Failed

  class Connection {
    /** How often the channel will still answer that it is busy: any number, but not for ever. */
    var patience: nat
    /** Set by the receive callback when the other side reports that it is done. */
    var done: bool
    ghost var sent: seq<seq<Byte>>
    /** How many calls have failed; a busy answer is not a failure. */
    ghost var failures: nat

    constructor (patience: nat)
      ensures !done && sent == [] && failures == 0
    {
      this.patience, done, sent, failures := patience, false, [], 0;
    }

    method TrySend(msg: seq<Byte>) returns (r: Answer)
      modifies this`patience, this`sent, this`failures
      ensures sent == if r == Sent then old(sent) + [msg] else old(sent)
      ensures failures == old(failures) + if r == Failed then 1 else 0
      ensures patience == old(patience) - if r == Again then 1 else 0
    {
      r := *;
      if r == Again {
        if patience == 0 {
          r := Failed;
        } else {
          patience := patience - 1;
        }
      }
      if r == Sent {
        sent := sent + [msg];
      } else if r == Failed {
        failures := failures + 1;
      }
    }

    method Progress() returns (ok: bool)
      modifies this`done, this`failures
      ensures old(done) ==> done
      ensures failures == old(failures) + if ok then 0 else 1
    {
      ok := *;
      if !ok {
        failures := failures + 1;
      }
      var finished: bool := *;
      done := done || finished;
    }

    /** A message that is offered again for as long as the channel is busy: it is sent once, unless a call fails. */
    method SendRetrying(msg: seq<Byte>) returns (ok: bool)
      modifies this`patience, this`sent, this`done, this`failures
      ensures sent == if ok then old(sent) + [msg] else old(sent)
      ensures failures == old(failures) + if ok then 0 else 1
      ensures old(done) ==> done
    {
      var result := TrySend(msg);
      while result == Again
        invariant sent == if result == Sent then old(sent) + [msg] else old(sent)
        invariant old(done) ==> done
        invariant failures == old(failures) + if result == Failed then 1 else 0
        decreases patience, result == Again
      {
        var progressed := Progress();
        if !progressed {
          result := Failed;
          break;
        }
        result := TrySend(msg);
      }
      ok := result == Sent;
    }
  }
}
