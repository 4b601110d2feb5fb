/** The client of the file compression application: it announces checksum and number of pieces, then sends them. */
module FileCompressionClient {
  import opened Bytes
  import opened FileChunks
  import opened Comch

  datatype Code = Success | InvalidValue | IoFailed | SendFailed

  const META_SIZE: nat := 16

  /** The announcement: checksum and number of pieces in network order, padded to the size of the struct. */
  function Meta(total: nat, checksum: nat): (m: seq<Byte>)
    ensures |m| == META_SIZE
  {
    BigEndian(checksum, 8) + BigEndian(total, 4) + [0, 0, 0, 0]
  }

  function Wire(payload: File, checksum: nat, size: nat, n: nat): seq<seq<Byte>>
    requires 0 < size
  {
    OnWire(Meta(Announced(|payload|, size), checksum), payload, size, n)
  }

  /**
   send_file. Success means that every announced piece was sent, once and in order; an error means that a prefix
   was. A server that reports being done before the last piece is an error; otherwise it fails exactly when a call
   fails, or the channel is too busy for the announcement, which is offered only once.
   */
  method SendFile(conn: Connection, payload: File, checksum: nat, max: nat) returns (ret: Code, ghost n: int)
    modifies conn
    ensures ret == InvalidValue <==> max == 0
    ensures -1 <= n && (n >= 0 ==> max > 0)
    ensures n < 0 ==> conn.sent == old(conn.sent) && ret != Success
    ensures n >= 0 ==> conn.sent == old(conn.sent) + Wire(payload, checksum, max, n)
    ensures n >= 0 ==> n <= Announced(|payload|, max) && (ret == Success <==> n == Announced(|payload|, max))
    ensures ret == IoFailed ==> conn.done && n >= 0
    ensures conn.failures == old(conn.failures) || (conn.failures == old(conn.failures) + 1 && ret == SendFailed)
    ensures ret == SendFailed && conn.failures == old(conn.failures) ==> n < 0 && conn.patience < old(conn.patience)
  {
    hide Meta, OnWire, Piece, Offset;
    n := -1;
    if max == 0 {
      return InvalidValue, n;
    }
    var total := ((|payload| + max - 1) / max) % U32;
    var meta := Meta(total, checksum);
    var first := conn.TrySend(meta);
    if first != Sent {
      return SendFailed, n;
    }
    n := 0;
    OnWireStep(meta, payload, max, 0);
    StartsAtZero(|payload|, max);
    var at, left := 0, |payload|;
    for i := 0 to total
      invariant n == i
      invariant at == Offset(|payload|, max, i) && left == |payload| - at
      invariant conn.sent == old(conn.sent) + OnWire(meta, payload, max, i)
      invariant conn.failures == old(conn.failures)
    {
      if conn.done {
        return IoFailed, n;
      }
      var len := if left < max then left else max;
      NextPiece(payload, max, i);
      OnWireStep(meta, payload, max, i);
      var ok := conn.SendRetrying(payload[at..at + len]);
      if !ok {
        return SendFailed, n;
      }
      at, left := at + len, left - len;
      n := n + 1;
    }
    return Success, n;
  }
}

/** The server of the file compression application: it collects the pieces in a buffer of fixed size. */
module FileCompressionServer {
  import opened Bytes
  import opened FileChunks
  import opened FileCompressionClient

  /** `length` is the 32-bit counter of the code, `stored` what was really received. */
  datatype Server = Server(state: Transfer, expected: nat, received: nat, length: nat, checksum: nat, stored: File)

  const FRESH := Server(Idle, 0, 0, 0, 0, [])

  function Receive(s: Server, msg: seq<Byte>, max: nat): Server {
    if s.state == Complete || s.state == Error then s
    else if s.expected == 0 then
      if |msg| != META_SIZE then s.(state := Error)
      else s.(expected := FromBigEndian(msg[8..12]), checksum := FromBigEndian(msg[..8]), state := InProgress)
    else if (s.length + |msg|) % U32 > max then s.(state := Error)
    else
      var received := (s.received + 1) % U32;
      s.(received := received, length := (s.length + |msg|) % U32, stored := s.stored + msg,
         state := if received == s.expected then Complete else s.state)
  }

  /** The server after the first `n` messages. */
  ghost function Served(msgs: seq<seq<Byte>>, max: nat, n: nat): Server
    requires n <= |msgs|
  {
    if n == 0 then FRESH else Receive(Served(msgs, max, n - 1), msgs[n - 1], max)
  }

  /** COMPLETE and ERROR are final: no later message, whatever it is, changes anything. */
  lemma {:induction false} FinalForEver(msgs: seq<seq<Byte>>, max: nat, i: nat, n: nat)
    requires i <= n <= |msgs| && Served(msgs, max, i).state in {Complete, Error}
    ensures Served(msgs, max, n) == Served(msgs, max, i)
    decreases n - i
  {
    if i < n {
      FinalForEver(msgs, max, i, n - 1);
    }
  }

  /** The counter tells the truth and the buffer is not exceeded. */
  ghost predicate Sound(s: Server, max: nat) {
    s.length == |s.stored| <= max
  }

  // ---------------------------------------------------------------- runs

  ghost predicate Progress(s: Server, prefix: File, total: nat, checksum: nat, k: nat, max: nat) {
    && s.expected == total && s.checksum == checksum && s.received == k
    && s.stored == prefix && s.length == |prefix| <= max
    && s.state == if k == total then Complete else InProgress
  }

  ghost predicate Stopped(s: Server, max: nat) {
    s.state == Error && Sound(s, max)
  }

  lemma MetaReceived(total: nat, checksum: nat, max: nat)
    requires 0 < total < U32 && checksum < Pow256(8)
    ensures Progress(Receive(FRESH, Meta(total, checksum), max), [], total, checksum, 0, max)
  {
    var m := Meta(total, checksum);
    assert m[8..12] == BigEndian(total, 4) && m[..8] == BigEndian(checksum, 8);
    Pow256Of4();
    BigEndianRoundTrip(total, 4);
    BigEndianRoundTrip(checksum, 8);
  }

  /**
   The first message, whatever it is: sixteen bytes announce a number of pieces behind a checksum of eight bytes, and
   anything else is an error. An announcement of no pieces leaves the server waiting for another one.
   */
  lemma FirstMessage(msg: seq<Byte>, next: seq<Byte>, max: nat)
    ensures var s := Receive(FRESH, msg, max);
            && s.state == (if |msg| == 16 then InProgress else Error)
            && s.received == 0 && s.stored == []
            && (|msg| == 16 ==>
                  && s.expected == Word(msg[8], msg[9], msg[10], msg[11])
                  && s.checksum == FromBigEndian(msg[..8])
                  && (s.expected == 0 ==>
                        Receive(s, next, max)
                        == if |next| == 16 then Receive(FRESH, next, max) else s.(state := Error)))
  {
    if |msg| == 16 {
      FourBytes(msg[8..12]);
    }
  }

  /** As long as the sum of the lengths fits 32 bits, the check is right: too much is refused, and nothing else. */
  lemma DataReceived(s: Server, prefix: File, data: File, total: nat, checksum: nat, k: nat, max: nat)
    requires 0 < total < U32 && k < total && Progress(s, prefix, total, checksum, k, max) && |prefix| + |data| < U32
    ensures var s' := Receive(s, data, max);
            if |prefix| + |data| <= max then Progress(s', prefix + data, total, checksum, k + 1, max)
            else Stopped(s', max)
  {}

  ghost predicate NoWrap(data: seq<File>, max: nat, n: nat)
    requires n <= |data|
  {
    forall i :: 0 <= i < n && |Joined(data, i)| <= max ==> |Joined(data, i)| + |data[i]| < U32
  }

  function Messages(data: seq<File>, total: nat, checksum: nat): (r: seq<seq<Byte>>)
    ensures |r| == |data| + 1 && r[0] == Meta(total, checksum)
    ensures forall i :: 0 < i <= |data| ==> r[i] == data[i - 1]
  {
    [Meta(total, checksum)] + data
  }

  /**
   After the announcement and `k` data messages: if they fit, the server holds exactly their concatenation, and it is
   COMPLETE exactly at the announced count; otherwise it is in ERROR.
   */
  lemma {:induction false} ServedProgress(data: seq<File>, total: nat, checksum: nat, max: nat, k: nat)
    requires 0 < total < U32 && checksum < Pow256(8) && k <= |data| && k <= total && NoWrap(data, max, k)
    ensures var s := Served(Messages(data, total, checksum), max, k + 1);
            if |Joined(data, k)| <= max then Progress(s, Joined(data, k), total, checksum, k, max) else Stopped(s, max)
  {
    hide Progress, Receive, Messages, Stopped, Sound, Pow256;
    var msgs := Messages(data, total, checksum);
    if k == 0 {
      MetaReceived(total, checksum, max);
      assert Served(msgs, max, 0) == FRESH;
    } else {
      ServedProgress(data, total, checksum, max, k - 1);
      var s := Served(msgs, max, k);
      assert msgs[k] == data[k - 1];
      if |Joined(data, k - 1)| <= max {
        DataReceived(s, Joined(data, k - 1), data[k - 1], total, checksum, k - 1, max);
      } else {
        StoppedStays(s, msgs[k], max);
      }
    }
  }

  lemma StoppedStays(s: Server, msg: seq<Byte>, max: nat)
    requires Stopped(s, max)
    ensures Receive(s, msg, max) == s
  {}

  // ---------------------------------------------------------------- the 32-bit counter

  /** When the 32-bit sum of what is stored and one more message cannot wrap around. */
  predicate SafeLimits(max: nat, message: nat) {
    message <= 1 || max + message < U32
  }

  lemma {:induction false} ShortMessages(data: seq<File>, k: nat)
    requires k <= |data| && forall i :: 0 <= i < |data| ==> |data[i]| <= 1
    ensures |Joined(data, k)| <= k
  {
    if k > 0 {
      ShortMessages(data, k - 1);
    }
  }

  lemma SafeIsNoWrap(data: seq<File>, max: nat, message: nat, n: nat)
    requires n <= |data| && n < U32 && SafeLimits(max, message) && forall i :: 0 <= i < |data| ==> |data[i]| <= message
    ensures NoWrap(data, max, n)
  {
    forall i | 0 <= i < n && |Joined(data, i)| <= max
      ensures |Joined(data, i)| + |data[i]| < U32
    {
      if message <= 1 {
        ShortMessages(data, i);
      }
    }
  }

  function Ones(n: nat): (r: seq<File>)
    ensures |r| == n && forall i :: 0 <= i < n ==> r[i] == [0]
  {
    seq(n, _ => [0])
  }

  lemma {:induction false} OnesJoined(rest: seq<File>, n: nat, k: nat)
    requires k <= n
    ensures |Joined(Ones(n) + rest, k)| == k
  {
    if k > 0 {
      OnesJoined(rest, n, k - 1);
    }
  }

  function Zeros(n: nat): (r: File)
    ensures |r| == n
  {
    seq(n, _ => 0)
  }

  /** Single bytes up to just below the wrap-around, then one full message: it is accepted, and the counter is zero. */
  lemma WrapsAround(max: nat, message: nat)
    requires 2 <= message < U32 && max + message >= U32
    ensures var r := U32 - message; var data := Ones(r) + [Zeros(message)];
            var s := Served(Messages(data, r + 1, 0), max, r + 2);
            s.state == Complete && s.length == 0 && |s.stored| == U32
  {
    hide Receive, Messages, Ones, Zeros, Pow256;
    var r := U32 - message;
    var data := Ones(r) + [Zeros(message)];
    forall i | 0 <= i < r && |Joined(data, i)| <= max
      ensures |Joined(data, i)| + |data[i]| < U32
    {
      OnesJoined([Zeros(message)], r, i);
    }
    OnesJoined([Zeros(message)], r, r);
    Pow256Of8();
    ServedProgress(data, r + 1, 0, max, r);
    var s := Served(Messages(data, r + 1, 0), max, r + 1);
    assert Messages(data, r + 1, 0)[r + 1] == data[r] == Zeros(message);
    LastWraps(s, Zeros(message), Joined(data, r), r, max);
  }

  lemma LastWraps(s: Server, msg: seq<Byte>, prefix: File, r: nat, max: nat)
    requires Progress(s, prefix, r + 1, 0, r, max) && r + 1 < U32 && |prefix| + |msg| == U32
    ensures var s' := Receive(s, msg, max);
            s'.state == Complete && s'.length == 0 && |s'.stored| == U32
  {}

  /** The 32-bit sum passes the check although the true sum does not fit 32 bits. */
  predicate Wraps(s: Server, msg: seq<Byte>, max: nat) {
    && s.state != Complete && s.state != Error && s.expected > 0
    && (s.length + |msg|) % U32 <= max && s.length + |msg| >= U32
  }

  /** That is exactly when a sound server stops being sound. */
  lemma WrapsIffUnsound(s: Server, msg: seq<Byte>, max: nat)
    requires Sound(s, max) && s.length < U32 && |msg| < U32
    ensures Wraps(s, msg, max) <==> !Sound(Receive(s, msg, max), max)
  {
    hide FromBigEndian;
  }

  /** `k` data messages of at most `message` bytes after an announcement. */
  ghost predicate IsRun(data: seq<File>, total: nat, checksum: nat, message: nat, k: nat) {
    && 0 < total < U32 && checksum < Pow256(8) && k <= |data| && k <= total
    && forall i :: 0 <= i < |data| ==> |data[i]| <= message
  }

  ghost predicate SoundAfter(data: seq<File>, total: nat, checksum: nat, max: nat, k: nat)
    requires k <= |data|
  {
    Sound(Served(Messages(data, total, checksum), max, k + 1), max)
  }

  ghost predicate AlwaysSound(max: nat, message: nat) {
    forall data: seq<File>, total: nat, checksum: nat, k: nat ::
      IsRun(data, total, checksum, message, k) ==> SoundAfter(data, total, checksum, max, k)
  }

  /** The buffer is sound in every run if and only if the limits rule out a wrap-around of the 32-bit counter. */
  lemma SoundIffSafe(max: nat, message: nat)
    requires message < U32
    ensures AlwaysSound(max, message) <==> SafeLimits(max, message)
  {
    hide Served;
    if SafeLimits(max, message) {
      forall data: seq<File>, total: nat, checksum: nat, k: nat | IsRun(data, total, checksum, message, k)
        ensures SoundAfter(data, total, checksum, max, k)
      {
        SafeIsNoWrap(data, max, message, k);
        ServedProgress(data, total, checksum, max, k);
      }
    } else {
      var r := U32 - message;
      var data := Ones(r) + [Zeros(message)];
      WrapsAround(max, message);
      Pow256Of8();
      assert IsRun(data, r + 1, 0, message, r + 1);
      assert !SoundAfter(data, r + 1, 0, max, r + 1);
    }
  }

  /**
   Client and server together: with safe limits, a payload that fits the buffer arrives whole if and only if its number
   of pieces fits the 32 bits in which it is announced; then the server is COMPLETE after the last piece and not before.
   */
  lemma PayloadArrives(payload: File, checksum: nat, size: nat, max: nat, k: nat)
    requires payload != [] && 0 < size && checksum < Pow256(8) && |payload| <= max && SafeLimits(max, size)
    requires 0 < k <= Announced(|payload|, size)
    ensures var total := Announced(|payload|, size);
            var s := Served(Wire(payload, checksum, size, total), max, k + 1);
            && s.stored == payload[..Offset(|payload|, size, k)] && s.checksum == checksum
            && (s.state == Complete <==> k == total) && s.state != Error
            && (k == total ==> (s.stored == payload <==> PieceCount(|payload|, size) < U32))
  {
    hide Receive, Pow256, Joined, Pieces, Piece, Offset, Served, NoWrap, Messages, Meta, PieceCount;
    var total := Announced(|payload|, size);
    var data := Pieces(payload, size, total);
    WireIsMessages(payload, checksum, size, total);
    PiecesFit(payload, size, total);
    SafeIsNoWrap(data, max, size, k);
    PiecesJoin(payload, size, k, total);
    ServedProgress(data, total, checksum, max, k);
    CountReachesEnd(|payload|, size, k);
    var at := Offset(|payload|, size, k);
    assert at == |payload| ==> payload[..at] == payload;
  }

  /** A payload of 2^32 + 1 bytes sent byte by byte: the server is COMPLETE after the first of them. */
  lemma CutOffWitness()
    ensures var payload := Zeros(U32 + 1);
            && Announced(|payload|, 1) == 1 && SafeLimits(|payload|, 1)
            && var s := Served(Wire(payload, 0, 1, 1), |payload|, 2);
               s.state == Complete && s.stored != payload
  {
    hide Served, Wire, PieceCount, Pow256, Announced;
    var payload := Zeros(U32 + 1);
    OneTooMany(U32 + 1, 1);
    Pow256Of8();
    PayloadArrives(payload, 0, 1, |payload|, 1);
  }

  lemma WireIsMessages(payload: File, checksum: nat, size: nat, total: nat)
    requires 0 < size && total == Announced(|payload|, size)
    ensures Wire(payload, checksum, size, total) == Messages(Pieces(payload, size, total), total, checksum)
  {}

  lemma PiecesFit(payload: File, size: nat, total: nat)
    requires 0 < size && total <= PieceCount(|payload|, size)
    ensures forall i :: 0 <= i < total ==> |Pieces(payload, size, total)[i]| <= size
  {
    forall i | 0 <= i < total
      ensures |Pieces(payload, size, total)[i]| <= size
    {
      PieceSizes(payload, size, i);
    }
  }

  // ---------------------------------------------------------------- the code

  class ServerSide {
    const buffer: array<Byte>
    var state: Transfer
    var expected: nat
    var received: nat
    var length: nat
    var checksum: nat

    /** What is in the buffer. */
    function Snapshot(): Server
      requires length <= buffer.Length
      reads this, buffer
    {
      Server(state, expected, received, length, checksum, buffer[..length])
    }

    ghost predicate Valid()
      reads this
    {
      length <= buffer.Length && length < U32
    }

    constructor (buffer: array<Byte>)
      ensures Valid() && Snapshot() == FRESH && this.buffer == buffer
    {
      this.buffer := buffer;
      state, expected, received, length, checksum := Idle, 0, 0, 0, 0;
    }

    method Append(msg: seq<Byte>)
      requires length + |msg| <= buffer.Length
      modifies buffer
      ensures buffer[..length + |msg|] == old(buffer[..length]) + msg
    {
      forall i | 0 <= i < |msg| {
        buffer[length + i] := msg[i];
      }
    }

    /**
     server_recv_event_cb. The copy stays inside the buffer and the counter is right, unless the 32-bit sum wraps
     around and passes the check; then the method stops in front of the copy.
     */
    method RecvEvent(msg: seq<Byte>) returns (ok: bool)
      requires Valid() && |msg| < U32
      modifies this, buffer
      ensures Valid() && (ok <==> !Wraps(old(Snapshot()), msg, buffer.Length))
      ensures Snapshot() == if ok then Receive(old(Snapshot()), msg, buffer.Length) else old(Snapshot())
    {
      hide FromBigEndian;
      ok := true;
      if state == Complete || state == Error {
        return;
      }
      if expected == 0 {
        if |msg| != META_SIZE {
          state := Error;
          return;
        }
        expected := FromBigEndian(msg[8..12]);
        checksum := FromBigEndian(msg[..8]);
        state := InProgress;
        return;
      }
      if (length + |msg|) % U32 > buffer.Length {
        state := Error;
        return;
      }
      if length + |msg| >= U32 {
        return false;
      }
      Append(msg);
      received := (received + 1) % U32;
      length := (length + |msg|) % U32;
      if received == expected {
        state := Complete;
      }
    }
  }
}
