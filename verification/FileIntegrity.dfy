/**
 The structure of SHA-256 (FIPS 180-4 section 6.2): the padded message is absorbed block by block. The compression
 function is a parameter, since nothing here depends on what it computes.
 */
module Sha {
  import opened Bytes

  const BLOCK: nat := 64

  type Chaining = seq<Byte>
  type Compress = (Chaining, seq<Byte>) -> Chaining

  datatype Algorithm = Algorithm(initial: Chaining, compress: Compress)

  function Absorb(a: Algorithm, h: Chaining, data: seq<Byte>): Chaining
    decreases |data|
  {
    if |data| < BLOCK then h else Absorb(a, a.compress(h, data[..BLOCK]), data[BLOCK..])
  }

  /** How many zero bytes fill the last block up, after one byte of marker and before eight bytes of length. */
  function Filler(len: nat): (n: nat)
    ensures (len + 1 + n + 8) % BLOCK == 0 && n < BLOCK
  {
    var r := len % BLOCK;
    if r < 56 then 55 - r else 119 - r
  }

  /** A one bit, zeros, and the length in bits as a 64-bit number (FIPS 180-4 section 5.1.1). */
  function Padding(len: nat): (p: seq<Byte>)
    ensures |p| == 1 + Filler(len) + 8
  {
    [0x80] + seq(Filler(len), _ => 0) + BigEndian(8 * len, 8)
  }

  function Digest(a: Algorithm, message: seq<Byte>): Chaining {
    Absorb(a, a.initial, message + Padding(|message|))
  }

  /** Absorbing whole blocks first and the rest later gives the same chaining value. */
  lemma {:induction false} AbsorbConcat(a: Algorithm, h: Chaining, x: seq<Byte>, y: seq<Byte>)
    requires |x| % BLOCK == 0
    ensures Absorb(a, h, x + y) == Absorb(a, Absorb(a, h, x), y)
    decreases |x|
  {
    if |x| == 0 {
      assert x + y == y;
    } else {
      assert (x + y)[..BLOCK] == x[..BLOCK];
      assert (x + y)[BLOCK..] == x[BLOCK..] + y;
      AbsorbConcat(a, a.compress(h, x[..BLOCK]), x[BLOCK..], y);
    }
  }

  /** What a partial hash ends with when the last piece is marked as the final one. */
  lemma FinalPiece(a: Algorithm, before: seq<Byte>, last: seq<Byte>)
    requires |before| % BLOCK == 0
    ensures Absorb(a, Absorb(a, a.initial, before), last + Padding(|before| + |last|)) == Digest(a, before + last)
  {
    AbsorbConcat(a, a.initial, before, last + Padding(|before| + |last|));
    assert before + (last + Padding(|before| + |last|)) == (before + last) + Padding(|before + last|);
  }
}

/** The client of the file integrity application: it announces digest and number of pieces, then sends the pieces. */
module FileIntegrityClient {
  import opened Bytes
  import opened FileChunks
  import opened Comch

  datatype Code = Success | InvalidValue | SendFailed

  /** The announcement: the number of pieces in network order, then the digest. */
  function Meta(total: nat, sha: seq<Byte>): (m: seq<Byte>)
    ensures |m| == 4 + |sha|
  {
    BigEndian(total, 4) + sha
  }

  /** The largest piece that fits a message and is a multiple of the engine's block. */
  function PartialBlock(max: nat, min: nat): (size: nat)
    requires 0 < min
    ensures min <= max ==> 0 < size
  {
    max - max % min
  }

  lemma PartialBlockFits(max: nat, min: nat)
    requires 0 < min <= max
    ensures 0 < PartialBlock(max, min) <= max && PartialBlock(max, min) % min == 0
    ensures PartialBlock(max, min) + min > max
  {
    assert max == (max / min) * min + max % min;
    assert PartialBlock(max, min) == (max / min) * min;
    Multiple(max / min, min);
  }

  lemma Multiple(k: nat, m: nat)
    requires m > 0
    ensures (k * m) % m == 0
  {
    DivUnique(k * m, m, k);
  }

  function Wire(file: File, sha: seq<Byte>, size: nat, n: nat): seq<seq<Byte>>
    requires 0 < size
  {
    OnWire(Meta(Announced(|file|, size), sha), file, size, n)
  }

  /**
   send_file. On success every announced piece was sent, each once and in order, unless the server reported that it
   is done; after an error a prefix was sent. It fails exactly when a call fails, or the channel is too busy for the
   announcement, which is offered only once.
   */
  method SendFile(conn: Connection, file: File, sha: seq<Byte>, max: nat, min: nat) returns (ret: Code, ghost n: int)
    requires file != [] && 0 < min
    modifies conn
    ensures ret == InvalidValue <==> max == 0 || min > max
    ensures -1 <= n && (n >= 0 ==> ret != InvalidValue)
    ensures n < 0 ==> conn.sent == old(conn.sent) && ret != Success
    ensures n >= 0 ==> conn.sent == old(conn.sent) + Wire(file, sha, PartialBlock(max, min), n)
                       && n <= Announced(|file|, PartialBlock(max, min))
    ensures ret == Success ==> conn.done || n == Announced(|file|, PartialBlock(max, min))
    ensures ret == SendFailed && n >= 0 ==> n < Announced(|file|, PartialBlock(max, min))
    ensures conn.failures == old(conn.failures) || (conn.failures == old(conn.failures) + 1 && ret == SendFailed)
    ensures ret == SendFailed && conn.failures == old(conn.failures) ==> n < 0 && conn.patience < old(conn.patience)
  {
    hide Meta, OnWire, Piece, Offset, PieceCount;
    n := -1;
    if max == 0 || min > max {
      return InvalidValue, n;
    }
    PartialBlockFits(max, min);
    var size := max - max % min;
    var total := (1 + (|file| - 1) / size) % U32;
    CountReachesEnd(|file|, size, 0);
    var meta := Meta(total, sha);
    var first := conn.TrySend(meta);
    if first != Sent {
      return SendFailed, n;
    }
    n := 0;
    OnWireStep(meta, file, size, 0);
    StartsAtZero(|file|, size);
    var at, left := 0, |file|;
    for i := 0 to total
      invariant n == i
      invariant at == Offset(|file|, size, i) && left == |file| - at
      invariant conn.sent == old(conn.sent) + OnWire(meta, file, size, i)
      invariant conn.failures == old(conn.failures)
    {
      var len := if left < size then left else size;
      if conn.done {
        break;
      }
      NextPiece(file, size, i);
      OnWireStep(meta, file, size, i);
      var ok := conn.SendRetrying(file[at..at + len]);
      if !ok {
        return SendFailed, n;
      }
      at, left := at + len, left - len;
      n := n + 1;
    }
    return Success, n;
  }

  /** All pieces but the last are multiples of the engine's block, and every piece fits a message. */
  lemma PiecesSuitEngine(file: File, max: nat, min: nat, i: nat)
    requires 0 < min <= max && i < PieceCount(|file|, PartialBlock(max, min))
    ensures var size := PartialBlock(max, min);
            && 0 < |Piece(file, size, i)| <= max
            && (i + 1 < PieceCount(|file|, size) ==> |Piece(file, size, i)| % min == 0)
  {
    PartialBlockFits(max, min);
    PieceSizes(file, PartialBlock(max, min), i);
  }
}

/** The server of the file integrity application: it hashes and writes the pieces as they arrive. */
module FileIntegrityServer {
  import opened Bytes
  import opened FileChunks
  import opened Sha
  import opened FileIntegrityClient

  /** The first thing that goes wrong with a message, if anything does. */
  datatype Fault = NoFault | SetDataFailed | SetSourceFailed | MarkFailed | SubmitFailed | TaskFailed | WriteFailed

  /** The engine: chaining value and length of a partial hash, whether its task is marked as final, and the result. */
  datatype Engine = Engine(chaining: Chaining, absorbed: nat, marked: bool, output: Chaining)

  datatype Server = Server(state: Transfer, expected: nat, received: nat, sha: seq<Byte>, file: File, engine: Engine)

  function Fresh(a: Algorithm): Server {
    Server(Idle, 0, 0, [], [], Engine(a.initial, 0, false, []))
  }

  // ---------------------------------------------------------------- specification

  function ReceiveMeta(s: Server, msg: seq<Byte>): Server
  {
    if |msg| < 4 then s.(state := Error)
    else s.(expected := FromBigEndian(msg[..4]), sha := msg[4..], state := InProgress)
  }

  /** The announced digest is copied into a buffer of fixed size, whatever its length. */
  predicate DigestFits(s: Server, msg: seq<Byte>, room: nat) {
    s.state == Complete || s.state == Error || s.expected > 0 || |msg| < 4 || |msg| - 4 <= room
  }

  /** A partial hash task: anything but the final piece has to be whole blocks. */
  function PartialTask(a: Algorithm, e: Engine, msg: seq<Byte>): Engine {
    if e.marked then e.(output := Absorb(a, e.chaining, msg + Padding(e.absorbed + |msg|)))
    else e.(chaining := Absorb(a, e.chaining, msg), absorbed := e.absorbed + |msg|)
  }

  function Stored(s: Server, msg: seq<Byte>, fault: Fault): Server {
    if fault == WriteFailed then s.(state := Error) else
    var received := (s.received + 1) % U32;
    s.(file := s.file + msg, received := received, state := if received == s.expected then Complete else s.state)
  }

  function ReceiveOnly(a: Algorithm, s: Server, msg: seq<Byte>, fault: Fault): Server {
    if fault == SetSourceFailed || fault == SubmitFailed || fault == TaskFailed then s.(state := Error)
    else Stored(s.(engine := s.engine.(output := Digest(a, msg))), msg, fault)
  }

  function ReceivePart(a: Algorithm, s: Server, msg: seq<Byte>, fault: Fault): Server
    requires s.expected > 0
  {
    if fault == SetSourceFailed then s.(state := Error) else
    var last := s.received == s.expected - 1;
    if last && fault == MarkFailed then s.(state := Error) else
    var marked := if last then s.(engine := s.engine.(marked := true)) else s;
    if fault == SubmitFailed || fault == TaskFailed || (!last && |msg| % BLOCK != 0) then marked.(state := Error)
    else Stored(marked.(engine := PartialTask(a, marked.engine, msg)), msg, fault)
  }

  function Receive(a: Algorithm, s: Server, msg: seq<Byte>, fault: Fault): Server {
    if s.state == Complete || s.state == Error then s
    else if s.expected == 0 then ReceiveMeta(s, msg)
    else if fault == SetDataFailed then s.(state := Error)
    else if s.expected == 1 then ReceiveOnly(a, s, msg, fault)
    else ReceivePart(a, s, msg, fault)
  }

  // ---------------------------------------------------------------- the code

  class ServerSide {
    const algorithm: Algorithm
    /** The announced digest is copied to the start of a buffer of fixed size. */
    const shaBuffer: array<Byte>
    var state: Transfer
    var expected: nat
    var received: nat
    var shaLength: nat
    var file: File
    var engine: Engine

    ghost predicate Valid()
      reads this
    {
      shaLength <= shaBuffer.Length
    }

    function Snapshot(): Server
      requires shaLength <= shaBuffer.Length
      reads this, shaBuffer
    {
      Server(state, expected, received, shaBuffer[..shaLength], file, engine)
    }

    constructor (a: Algorithm, shaBuffer: array<Byte>)
      ensures algorithm == a && this.shaBuffer == shaBuffer && Valid() && Snapshot() == Fresh(a)
    {
      algorithm, this.shaBuffer := a, shaBuffer;
      state, expected, received, shaLength, file := Idle, 0, 0, 0, [];
      engine := Engine(a.initial, 0, false, []);
    }

    /** The copy of the announced digest: every byte of it has to lie in the buffer. */
    method CopyDigest(digest: seq<Byte>)
      requires |digest| <= shaBuffer.Length
      modifies shaBuffer, this`shaLength
      ensures shaLength == |digest| && shaBuffer[..shaLength] == digest
    {
      for i := 0 to |digest|
        invariant shaBuffer[..i] == digest[..i]
      {
        shaBuffer[i] := digest[i];
      }
      shaLength := |digest|;
    }

    /** The message with the number of pieces and the digest. */
    method Announcement(msg: seq<Byte>) returns (ok: bool)
      requires Valid()
      modifies this`expected, this`state, this`shaLength, shaBuffer
      ensures Valid() && (ok <==> |msg| < 4 || |msg| - 4 <= shaBuffer.Length)
      ensures Snapshot() == if ok then ReceiveMeta(old(Snapshot()), msg) else old(Snapshot())
    {
      hide FromBigEndian;
      if |msg| < 4 {
        state := Error;
        return true;
      }
      if |msg| - 4 > shaBuffer.Length {
        return false;
      }
      expected := FromBigEndian(msg[..4]);
      CopyDigest(msg[4..]);
      state := InProgress;
      return true;
    }

    /** The hash task for a piece: the only piece as a whole, one of several as part of a running hash. */
    method HashPiece(msg: seq<Byte>, fault: Fault) returns (ok: bool)
      requires Valid() && expected > 0 && state != Complete && state != Error && fault != SetDataFailed
      modifies this`engine
      ensures ok ==> Receive(algorithm, old(Snapshot()), msg, fault) == Stored(Snapshot(), msg, fault)
      ensures !ok ==> Receive(algorithm, old(Snapshot()), msg, fault) == Snapshot().(state := Error)
    {
      hide PartialTask, Digest, FromBigEndian;
      ok := false;
      if fault == SetSourceFailed {
        return;
      }
      var last := received == expected - 1;
      if expected != 1 && last {
        if fault == MarkFailed {
          return;
        }
        engine := engine.(marked := true);
      }
      if fault == SubmitFailed {
        return;
      }
      if fault == TaskFailed || (expected != 1 && !last && |msg| % BLOCK != 0) {
        return;
      }
      engine := if expected == 1 then engine.(output := Digest(algorithm, msg))
                else PartialTask(algorithm, engine, msg);
      ok := true;
    }

    /** The piece is written and counted. */
    method Store(msg: seq<Byte>, fault: Fault)
      requires Valid()
      modifies this`file, this`received, this`state
      ensures Snapshot() == Stored(old(Snapshot()), msg, fault)
    {
      if fault == WriteFailed {
        state := Error;
        return;
      }
      file := file + msg;
      received := (received + 1) % U32;
      if received == expected {
        state := Complete;
      }
    }

    /**
     server_recv_event_cb; `fault` is the first call that fails, if any. The copy of the announced digest leaves its
     buffer exactly when the digest is longer; what happens then is not defined, so the method stops in front of it.
     */
    method RecvEvent(msg: seq<Byte>, fault: Fault) returns (ok: bool)
      requires Valid()
      modifies this, shaBuffer
      ensures Valid() && (ok <==> DigestFits(old(Snapshot()), msg, shaBuffer.Length))
      ensures Snapshot() == if ok then Receive(algorithm, old(Snapshot()), msg, fault) else old(Snapshot())
    {
      hide ReceiveMeta, ReceiveOnly, ReceivePart, Stored;
      ok := true;
      if state == Complete || state == Error {
        return;
      }
      if expected == 0 {
        ok := Announcement(msg);
        return;
      }
      if fault == SetDataFailed {
        state := Error;
        return;
      }
      var hashed := HashPiece(msg, fault);
      if !hashed {
        state := Error;
        return;
      }
      Store(msg, fault);
    }
  }
}

/** Client and server together: what the server has after any number of messages, whatever goes wrong. */
module FileIntegrity {
  import opened Bytes
  import opened FileChunks
  import opened Sha
  import opened FileIntegrityClient
  import opened FileIntegrityServer

  /** The server after the first `n` messages, each with the fault that befell it. */
  ghost function Served(a: Algorithm, msgs: seq<seq<Byte>>, faults: seq<Fault>, n: nat): Server
    requires n <= |msgs| && n <= |faults|
  {
    if n == 0 then Fresh(a) else Receive(a, Served(a, msgs, faults, n - 1), msgs[n - 1], faults[n - 1])
  }

  /** An undisturbed transfer of `total` pieces after `k` of them, which add up to `prefix`. */
  ghost predicate Progress(a: Algorithm, s: Server, prefix: File, total: nat, sha: seq<Byte>, k: nat) {
    && s.expected == total && s.sha == sha && s.received == k && s.file == prefix
    && if k < total then
         && s.state == InProgress && !s.engine.marked
         && (total > 1 ==> s.engine.absorbed == |prefix| && |prefix| % BLOCK == 0
                           && s.engine.chaining == Absorb(a, a.initial, prefix))
       else s.state == Complete && s.engine.output == Digest(a, prefix) && (s.engine.marked <==> total > 1)
  }

  /**
   The first message, whatever it is: at least four bytes announce a number of pieces, and what follows them is the
   digest; fewer are an error. An announcement of no pieces leaves the server waiting for another one.
   */
  lemma FirstMessage(a: Algorithm, msg: seq<Byte>, next: seq<Byte>, fault: Fault)
    ensures var s := Receive(a, Fresh(a), msg, fault);
            && s.state == (if |msg| >= 4 then InProgress else Error)
            && s.received == 0 && s.file == [] && s.engine == Fresh(a).engine
            && (|msg| >= 4 ==>
                  && s.expected == Word(msg[0], msg[1], msg[2], msg[3]) && s.sha == msg[4..]
                  && (s.expected == 0 ==>
                        Receive(a, s, next, fault)
                        == if |next| >= 4 then Receive(a, Fresh(a), next, fault) else s.(state := Error)))
  {
    if |msg| >= 4 {
      FourBytes(msg[..4]);
    }
  }

  lemma MetaReceived(a: Algorithm, total: nat, sha: seq<Byte>, fault: Fault)
    requires 0 < total < U32
    ensures Progress(a, Receive(a, Fresh(a), Meta(total, sha), fault), [], total, sha, 0)
  {
    var m := Meta(total, sha);
    assert m[..4] == BigEndian(total, 4) && m[4..] == sha;
    Pow256Of4();
    BigEndianRoundTrip(total, 4);
  }

  /** One more piece: it is hashed and written, or the transfer ends in an error. */
  lemma PieceReceived(a: Algorithm, s: Server, prefix: File, piece: File, total: nat, sha: seq<Byte>, k: nat,
                      fault: Fault)
    requires 0 < total < U32 && k < total && Progress(a, s, prefix, total, sha, k) && (k == 0 ==> prefix == [])
    requires k + 1 < total ==> |piece| % BLOCK == 0
    ensures var s' := Receive(a, s, piece, fault);
            || (s'.state == Error && (s'.engine.marked ==> k + 1 == total && total > 1))
            || Progress(a, s', prefix + piece, total, sha, k + 1)
  {
    hide Absorb, Digest, Padding;
    if total == 1 {
      assert prefix + piece == piece;
    } else if k + 1 == total {
      FinalPiece(a, prefix, piece);
    } else {
      AbsorbConcat(a, a.initial, prefix, piece);
      assert |prefix + piece| % BLOCK == 0 by { ModSum(|prefix|, |piece|); }
    }
  }

  lemma ModSum(x: nat, y: nat)
    requires x % BLOCK == 0 && y % BLOCK == 0
    ensures (x + y) % BLOCK == 0
  {}

  /** Pieces before the last announced one are whole blocks for the engine. */
  lemma WholeBlocks(file: File, max: nat, min: nat, i: nat)
    requires 0 < min <= max && min % BLOCK == 0 && file != []
    requires i + 1 < Announced(|file|, PartialBlock(max, min))
    ensures |Piece(file, PartialBlock(max, min), i)| % BLOCK == 0
  {
    PartialBlockFits(max, min);
    PiecesSuitEngine(file, max, min, i);
    MultipleOfMultiple(|Piece(file, PartialBlock(max, min), i)|, min);
  }

  lemma MultipleOfMultiple(x: nat, min: nat)
    requires min > 0 && x % min == 0 && min % BLOCK == 0
    ensures x % BLOCK == 0
  {
    var j, k := min / BLOCK, x / min;
    assert min == j * BLOCK && x == k * min;
    assert x == (k * j) * BLOCK;
    Multiple(k * j, BLOCK);
  }

  ghost predicate InWholeBlocks(file: File, size: nat, total: nat) {
    forall i {:trigger Piece(file, size, i)} :: 0 <= i && i + 1 < total ==> |Piece(file, size, i)| % BLOCK == 0
  }

  function Messages(file: File, sha: seq<Byte>, size: nat, total: nat): (r: seq<seq<Byte>>)
    ensures |r| == total + 1 && r[0] == Meta(total, sha)
    ensures forall i :: 0 < i <= total ==> r[i] == Piece(file, size, i - 1)
  {
    [Meta(total, sha)] + Pieces(file, size, total)
  }

  /**
   The server after `n` messages of a client that announces `total` pieces, under any faults: either it is in ERROR,
   or it holds exactly the pieces so far. The final mark is set by the last piece only.
   */
  lemma {:induction false} ServedProgress(a: Algorithm, file: File, sha: seq<Byte>, size: nat, total: nat,
                                          faults: seq<Fault>, n: nat)
    requires 0 < total < U32 && InWholeBlocks(file, size, total) && 0 < n <= total + 1 && n <= |faults|
    ensures var s := Served(a, Messages(file, sha, size, total), faults, n);
            || (s.state == Error && (s.engine.marked ==> n == total + 1 && total > 1))
            || Progress(a, s, file[..Offset(|file|, size, n - 1)], total, sha, n - 1)
  {
    hide Progress, Receive, Messages, Piece;
    var msgs := Messages(file, sha, size, total);
    if n == 1 {
      MetaReceived(a, total, sha, faults[0]);
      assert file[..0] == [];
      assert Served(a, msgs, faults, 0) == Fresh(a);
    } else {
      ServedProgress(a, file, sha, size, total, faults, n - 1);
      var s, k := Served(a, msgs, faults, n - 1), n - 2;
      assert msgs[n - 1] == Piece(file, size, k);
      var prefix := file[..Offset(|file|, size, k)];
      if Progress(a, s, prefix, total, sha, k) {
        PieceReceived(a, s, prefix, Piece(file, size, k), total, sha, k, faults[n - 1]);
        PieceFollows(file, size, k);
      } else {
        TerminalStays(a, s, msgs[n - 1], faults[n - 1]);
      }
    }
  }

  // ---------------------------------------------------------------- when a transfer fails

  /** The fault hits a step that is taken for piece `k` of `total`: only the last of several pieces is marked. */
  predicate Hits(fault: Fault, total: nat, k: nat) {
    fault != NoFault && (fault == MarkFailed ==> total > 1 && k + 1 == total)
  }

  /** A piece that is whole blocks, or the last one, is taken unless a fault hits. */
  lemma PieceTaken(a: Algorithm, s: Server, prefix: File, piece: File, total: nat, sha: seq<Byte>, k: nat, fault: Fault)
    requires 0 < total < U32 && k < total && Progress(a, s, prefix, total, sha, k) && (k == 0 ==> prefix == [])
    requires k + 1 < total ==> |piece| % BLOCK == 0
    ensures var s' := Receive(a, s, piece, fault);
            if Hits(fault, total, k) then s'.state == Error else Progress(a, s', prefix + piece, total, sha, k + 1)
  {
    hide Absorb, Digest, Padding, PartialTask;
    PieceReceived(a, s, prefix, piece, total, sha, k, fault);
  }

  /** Some fault among those of the first `n` messages hits. */
  ghost predicate SomeHit(faults: seq<Fault>, total: nat, n: nat)
    requires n <= |faults|
  {
    exists i :: 0 < i < n && Hits(faults[i], total, i - 1)
  }

  /**
   After `n` messages of a client that announces `total` pieces the server is in ERROR if and only if a fault among them
   hit a step that was taken; otherwise it holds exactly the pieces so far, and after the last one it is COMPLETE.
   */
  lemma {:induction false} ServedExactly(a: Algorithm, file: File, sha: seq<Byte>, size: nat, total: nat,
                                         faults: seq<Fault>, n: nat)
    requires 0 < total < U32 && InWholeBlocks(file, size, total) && 0 < n <= total + 1 && n <= |faults|
    ensures var s := Served(a, Messages(file, sha, size, total), faults, n);
            && (s.state == Error <==> SomeHit(faults, total, n))
            && (!SomeHit(faults, total, n) ==> Progress(a, s, file[..Offset(|file|, size, n - 1)], total, sha, n - 1))
  {
    hide Progress, Receive, Messages, Piece, Hits;
    var msgs := Messages(file, sha, size, total);
    if n == 1 {
      MetaReceived(a, total, sha, faults[0]);
      assert file[..0] == [];
      assert Served(a, msgs, faults, 0) == Fresh(a);
      NotInError(a, Served(a, msgs, faults, 1), [], total, sha, 0);
    } else {
      ServedExactly(a, file, sha, size, total, faults, n - 1);
      var s, k := Served(a, msgs, faults, n - 1), n - 2;
      assert msgs[n - 1] == Piece(file, size, k);
      if SomeHit(faults, total, n - 1) {
        TerminalStays(a, s, msgs[n - 1], faults[n - 1]);
      } else {
        var prefix := file[..Offset(|file|, size, k)];
        PieceTaken(a, s, prefix, Piece(file, size, k), total, sha, k, faults[n - 1]);
        PieceFollows(file, size, k);
        NotInError(a, Served(a, msgs, faults, n), file[..Offset(|file|, size, n - 1)], total, sha, n - 1);
        assert SomeHit(faults, total, n) <==> Hits(faults[n - 1], total, k);
      }
    }
  }

  lemma NotInError(a: Algorithm, s: Server, prefix: File, total: nat, sha: seq<Byte>, k: nat)
    ensures Progress(a, s, prefix, total, sha, k) ==> s.state == if k < total then InProgress else Complete
  {}

  /**
   Without faults every file arrives, whatever the piece size: the server is COMPLETE after the last message and not
   before, with the digest of what it wrote.
   */
  lemma ArrivesWithoutFaults(a: Algorithm, file: File, max: nat, min: nat, faults: seq<Fault>, n: nat)
    requires 0 < min <= max && min % BLOCK == 0 && file != []
    requires 0 < Announced(|file|, PartialBlock(max, min))
    requires 0 < n <= Announced(|file|, PartialBlock(max, min)) + 1 && n <= |faults|
    requires forall i :: 0 <= i < n ==> faults[i] == NoFault
    ensures var size := PartialBlock(max, min); var total := Announced(|file|, size);
            var s := Served(a, Wire(file, Digest(a, file), size, total), faults, n);
            && s.state == (if n == total + 1 then Complete else InProgress)
            && s.file == file[..Offset(|file|, size, n - 1)]
            && (n == total + 1 ==> s.engine.output == Digest(a, s.file))
  {
    hide Served, Digest;
    PartialBlockFits(max, min);
    var size := PartialBlock(max, min);
    var total := Announced(|file|, size);
    forall i {:trigger Piece(file, size, i)} | 0 <= i && i + 1 < total
      ensures |Piece(file, size, i)| % BLOCK == 0
    {
      WholeBlocks(file, max, min, i);
    }
    assert Wire(file, Digest(a, file), size, total) == Messages(file, Digest(a, file), size, total);
    ServedExactly(a, file, Digest(a, file), size, total, faults, n);
  }

  lemma TerminalStays(a: Algorithm, s: Server, msg: seq<Byte>, fault: Fault)
    requires s.state == Complete || s.state == Error
    ensures Receive(a, s, msg, fault) == s
  {}

  lemma ExpectedStays(a: Algorithm, s: Server, msg: seq<Byte>, fault: Fault)
    requires s.expected > 0
    ensures Receive(a, s, msg, fault).expected == s.expected
  {}

  lemma {:induction false} ExpectedAfter(a: Algorithm, msgs: seq<seq<Byte>>, faults: seq<Fault>, total: nat, sha: seq<Byte>,
                                         n: nat)
    requires 0 < total < U32 && 0 < n <= |msgs| && n <= |faults| && msgs[0] == Meta(total, sha)
    ensures Served(a, msgs, faults, n).expected == total
  {
    hide Receive, Meta;
    if n == 1 {
      assert Served(a, msgs, faults, 0) == Fresh(a);
      MetaReceived(a, total, sha, faults[0]);
    } else {
      ExpectedAfter(a, msgs, faults, total, sha, n - 1);
      ExpectedStays(a, Served(a, msgs, faults, n - 1), msgs[n - 1], faults[n - 1]);
    }
  }

  /**
   After an announcement of pieces, whatever is sent and whatever faults there are, the server never writes behind its
   digest buffer, if and only if the announced digest is no longer than the buffer.
   */
  lemma AnnouncementFits(a: Algorithm, msgs: seq<seq<Byte>>, faults: seq<Fault>, total: nat, sha: seq<Byte>, room: nat)
    requires 0 < total < U32 && msgs != [] && |msgs| <= |faults| && msgs[0] == Meta(total, sha)
    ensures (forall n :: 0 <= n < |msgs| ==> DigestFits(Served(a, msgs, faults, n), msgs[n], room)) <==> |sha| <= room
  {
    hide Receive, Meta;
    assert Served(a, msgs, faults, 0) == Fresh(a);
    assert DigestFits(Served(a, msgs, faults, 0), msgs[0], room) <==> |sha| <= room;
    forall n | 0 < n < |msgs|
      ensures DigestFits(Served(a, msgs, faults, n), msgs[n], room)
    {
      ExpectedAfter(a, msgs, faults, total, sha, n);
    }
  }

  /** An announcement with one byte more than a buffer for a digest of 32 bytes holds. */
  lemma DigestOverrunWitness(a: Algorithm)
    ensures !DigestFits(Fresh(a), Meta(1, seq(33, _ => 0)), 32)
  {
    hide Meta;
  }

  lemma NothingAnnounced(a: Algorithm, file: File, sha: seq<Byte>, size: nat, faults: seq<Fault>)
    requires 0 < size && |faults| > 0 && Announced(|file|, size) == 0
    ensures Served(a, Wire(file, sha, size, 0), faults, 1).state != Complete
  {
    assert Served(a, Wire(file, sha, size, 0), faults, 0) == Fresh(a);
  }

  /**
   Any file of 2^32 pieces and one byte more: one piece is announced, and the server is COMPLETE with it alone. The
   client takes such a file if the source buffer of its device is that large.
   */
  lemma CutOffWitness(a: Algorithm, file: File, size: nat, faults: seq<Fault>)
    requires 0 < size && |file| == U32 * size + 1 && |faults| == 2 && faults[1] == NoFault
    ensures Announced(|file|, size) == 1
    ensures var s := Served(a, Wire(file, Digest(a, file), size, 1), faults, 2); s.state == Complete && s.file != file
  {
    hide Digest, PieceCount, Announced, Offset, Meta, Served;
    var sha := Digest(a, file);
    OneTooMany(|file|, size);
    CountReachesEnd(|file|, size, 1);
    assert Wire(file, sha, size, 1) == Messages(file, sha, size, 1);
    OnlyPieceArrives(a, file, sha, size, faults);
  }

  lemma OnlyPieceArrives(a: Algorithm, file: File, sha: seq<Byte>, size: nat, faults: seq<Fault>)
    requires |faults| == 2 && faults[1] == NoFault
    ensures var s := Served(a, Messages(file, sha, size, 1), faults, 2);
            s.state == Complete && s.file == file[..Offset(|file|, size, 1)]
  {
    hide Digest, Meta, Offset;
    var msgs := Messages(file, sha, size, 1);
    assert Served(a, msgs, faults, 0) == Fresh(a);
    MetaReceived(a, 1, sha, faults[0]);
    var s := Served(a, msgs, faults, 1);
    PieceFollows(file, size, 0);
    StartsAtZero(|file|, size);
    assert s.file == [] && msgs[1] == Piece(file, size, 0);
    assert file[..0] == [];
  }

  /**
   If the server completes, it has received every announced piece, and what it wrote hashes to what its engine
   computed. It wrote the whole file, and so the digest is the announced one, if and only if the number of pieces
   fits the 32 bits in which it is announced.
   */
  lemma CompleteMeansWhole(a: Algorithm, file: File, max: nat, min: nat, faults: seq<Fault>, n: nat)
    requires 0 < min <= max && min % BLOCK == 0 && file != []
    requires 0 < n <= Announced(|file|, PartialBlock(max, min)) + 1 && n <= |faults|
    ensures var size := PartialBlock(max, min); var total := Announced(|file|, size);
            var s := Served(a, Wire(file, Digest(a, file), size, total), faults, n);
            s.state == Complete ==>
              && n == total + 1
              && s.engine.output == Digest(a, s.file)
              && (s.file == file <==> PieceCount(|file|, size) < U32)
              && (PieceCount(|file|, size) < U32 ==> s.engine.output == s.sha == Digest(a, file))
              && (s.engine.marked <==> total > 1)
  {
    hide Served, Digest;
    PartialBlockFits(max, min);
    var size := PartialBlock(max, min);
    var total := Announced(|file|, size);
    if total == 0 {
      NothingAnnounced(a, file, Digest(a, file), size, faults);
      return;
    }
    forall i {:trigger Piece(file, size, i)} | 0 <= i && i + 1 < total
      ensures |Piece(file, size, i)| % BLOCK == 0
    {
      WholeBlocks(file, max, min, i);
    }
    assert Wire(file, Digest(a, file), size, total) == Messages(file, Digest(a, file), size, total);
    ServedProgress(a, file, Digest(a, file), size, total, faults, n);
    CountReachesEnd(|file|, size, total);
    var k := Offset(|file|, size, n - 1);
    assert k == |file| ==> file[..k] == file;
  }
}
