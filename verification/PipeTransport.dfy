/**
 Reading and writing exact byte counts over pipes that deliver and accept data in any pieces, and
 the length-framed response built on that.
 */
module PipeTransport {
  import FrameProtocol
  import opened Utf8
  import opened Wrappers

  const CONTROL_CAPACITY := 4096
  const MAX_RESPONSE := 65_536

  datatype Failure = InvalidFrameSize | EndOfPipe | PeekFailed | FrameOversize | TrailingData | TimedOut | ReadFailed
    | PartialRead | WriteFailed | PartialWrite | ResponseOversize

  /** What a read may come back with. */
  datatype ReadReply = Chunk(bytes: Bytes) | WouldBlock | Raised

  /** What a write may come back with; `count` is what the call claims to have taken. */
  datatype WriteReply = Took(count: int) | WriteBlocked | WriteRaised

  /** Nothing in the pipe is a reason to refuse it. */
  predicate Fits(waiting: nat, remaining: nat, room: int, strict: bool, bounded: bool) {
    (strict || bounded ==> waiting <= room) && (strict ==> waiting <= remaining)
  }

  /** Only bytes from the front are gone. */
  predicate FrontGone(before: Bytes, after: Bytes) {
    |after| <= |before| && after == before[|before| - |after|..]
  }

  class Pipes {
    /** Honest pipes raise no errors, read something whenever they read, and take no more than they are
        given.  When data arrives, how it is cut, and how often a call blocks stays open. */
    const honest: bool
    /** Smooth pipes never block either, and all the peer sends has arrived. */
    const smooth: bool
    /** Everything the peer has sent or will send and that was not read yet. */
    var unread: Bytes
    /** How much of that is in the pipe now. */
    var arrived: nat
    /** Everything written so far. */
    var outgoing: Bytes

    predicate Valid()
      reads this
    {
      arrived <= |unread| && (smooth ==> honest)
    }

    /** How many bytes of `before` have been read since. */
    ghost function Gone(before: Bytes): (n: int)
      reads this
    {
      |before| - |unread|
    }

    /** How many bytes of `before` the last look at the pipe had shown, counting those read. */
    ghost function Shown(before: Bytes): (n: int)
      reads this
    {
      Gone(before) + arrived
    }

    /** More may have arrived; the end of the pipe shows only once nothing is left. */
    method Peek() returns (available: nat, eof: bool, ok: bool)
      requires Valid()
      modifies this`arrived
      ensures Valid() && available == arrived && (eof ==> unread == [])
      ensures (honest ==> ok) && (smooth ==> available == |unread|)
    {
      var more: nat :| more <= |unread| - arrived && (smooth ==> more == |unread| - arrived);
      arrived := arrived + more;
      available := arrived;
      ok, eof := *, *;
      ok, eof := ok || honest, eof && unread == [];
    }

    /** An honest read: some of what has arrived, no more than asked for, or nothing. */
    method Read(n: nat) returns (reply: ReadReply)
      requires Valid()
      modifies this`unread, this`arrived
      ensures Valid()
      ensures if reply.Chunk? then reply.bytes + unread == old(unread) && |reply.bytes| <= n else unread == old(unread)
      ensures reply.Chunk? ==> arrived + |reply.bytes| == old(arrived)
      ensures reply.Chunk? || arrived == old(arrived)
      ensures honest && 0 < n <= old(arrived) ==> !reply.Raised? && (reply.Chunk? ==> reply.bytes != [])
      ensures smooth ==> !reply.WouldBlock?
    {
      var blocked, raised: bool := *, *;
      if blocked && !smooth {
        return WouldBlock;
      }
      if raised && !honest {
        return Raised;
      }
      var k: nat :| k <= n && k <= arrived && (honest && 0 < n <= arrived ==> 0 < k);
      var bytes := unread[..k];
      unread, arrived := unread[k..], arrived - k;
      reply := Chunk(bytes);
    }

    /** A write takes some front part of the data; a call that raises, or whose count makes no sense,
        has taken nothing. */
    method Write(data: Bytes) returns (reply: WriteReply)
      requires Valid()
      modifies this`outgoing
      ensures outgoing == old(outgoing) + if reply.Took? && 0 <= reply.count <= |data| then data[..reply.count] else []
      ensures honest ==> !reply.WriteRaised? && (reply.Took? ==> 0 <= reply.count <= |data|)
      ensures smooth && data != [] ==> reply.Took? && 0 < reply.count
    {
      reply := *;
      if honest {
        var blocked: bool := *;
        var k: nat :| k <= |data| && (smooth && data != [] ==> 0 < k);
        reply := if blocked && !smooth then WriteBlocked else Took(k);
      }
      if reply.Took? && 0 <= reply.count <= |data| {
        outgoing := outgoing + data[..reply.count];
      }
    }

    /** One turn of the reading loop: a non-empty piece, or nothing yet. */
    method Poll(remaining: nat, room: int, strict: bool, bounded: bool) returns (r: Result<Bytes, Failure>)
      requires Valid() && 0 < remaining
      modifies this`unread, this`arrived
      ensures Valid()
      ensures r.Ok? ==> r.value + unread == old(unread) && |r.value| <= remaining
      ensures r == Ok([]) ==> !smooth || unread == []
      ensures r.Err? ==> unread == old(unread)
      ensures match r
        case Ok(_) => true
        case Err(TrailingData) => strict && arrived > remaining
        case Err(FrameOversize) => (strict || bounded) && arrived > room
        case Err(EndOfPipe) => unread == []
        case Err(e) => !honest && (e.PeekFailed? || e.ReadFailed? || e.PartialRead?)
    {
      var available, eof, ok := Peek();
      if !ok {
        return Err(PeekFailed);
      }
      if eof {
        return Err(EndOfPipe);
      }
      if (strict || bounded) && available > room {
        return Err(FrameOversize);
      }
      if strict && available > remaining {
        return Err(TrailingData);
      }
      if available == 0 {
        return Ok([]);
      }
      var reply := Read(if available < remaining then available else remaining);
      match reply
      case WouldBlock => r := Ok([]);
      case Raised => r := Err(ReadFailed);
      case Chunk(bytes) => r := if bytes == [] then Err(PartialRead) else Ok(bytes);
    }

    /** Exactly the next `expected` bytes, or an error with its cause and no more than a part of them
        gone.  `strict` rejects anything that arrives behind the frame; `bounded` is the deadline
        variant, which refuses an over-full pipe even when it is not strict. */
    method ReadFrame(expected: int, maxSize: nat, strict: bool, bounded: bool, polls: nat) returns (r: Result<Bytes, Failure>)
      requires Valid()
      modifies this`unread, this`arrived
      ensures Valid()
      ensures r == Err(InvalidFrameSize) <==> !(0 < expected <= maxSize)
      ensures r.Ok? ==> r.value + unread == old(unread) && |r.value| == expected && (strict ==> arrived == 0)
      ensures r.Err? ==> FrontGone(old(unread), unread) && Gone(old(unread)) <= (if expected < 0 then 0 else expected)
      ensures match r
        case Ok(_) => true
        case Err(InvalidFrameSize) => true
        case Err(TrailingData) => strict && Shown(old(unread)) > expected
        case Err(FrameOversize) => (strict || bounded) && Gone(old(unread)) < expected && Shown(old(unread)) > maxSize
        case Err(EndOfPipe) => |old(unread)| < expected
        case Err(TimedOut) => !smooth || |old(unread)| < expected
        case Err(e) => !honest && (e.PeekFailed? || e.ReadFailed? || e.PartialRead?)
      ensures
        honest && 0 < expected <= maxSize && expected <= |old(unread)| && Fits(Shown(old(unread)), expected, maxSize, strict, bounded)
        ==> r.Ok? || r == Err(TimedOut)
      ensures
        smooth && 0 < expected <= maxSize && expected <= |old(unread)| && Fits(|old(unread)|, expected, maxSize, strict, bounded)
        ==> r.Ok?
    {
      if !(0 < expected <= maxSize) {
        return Err(InvalidFrameSize);
      }
      var result: Bytes := [];
      var patience := polls;
      while |result| < expected
        invariant Valid() && |result| <= expected && result + unread == old(unread)
        decreases expected - |result|, patience
      {
        Consumed(result, unread);
        var piece := Poll(expected - |result|, maxSize - |result|, strict, bounded);
        if piece.Err? {
          return piece;
        }
        if piece.value == [] {
          if patience == 0 {
            return Err(TimedOut);
          }
          patience := patience - 1;
        }
        assert (result + piece.value) + unread == result + (piece.value + unread);
        result := result + piece.value;
      }
      Consumed(result, unread);
      r := CheckBehind(strict, bounded);
      if r.Ok? {
        r := Ok(result);
      }
    }

    /** The last look at the pipe. */
    method CheckBehind(strict: bool, bounded: bool) returns (r: Result<Bytes, Failure>)
      requires Valid()
      modifies this`arrived
      ensures Valid()
      ensures match r
        case Ok(_) => strict ==> arrived == 0
        case Err(TrailingData) => strict && arrived > 0
        case Err(e) => !honest && e.PeekFailed?
    {
      if strict || bounded {
        var available, eof, ok := Peek();
        if !ok {
          return Err(PeekFailed);
        }
        if strict && !eof && available != 0 {
          return Err(TrailingData);
        }
      }
      r := Ok([]);
    }

    /** The data goes out once and in order; after an error a front part of it is out. */
    method WriteControl(data: Bytes, capacity: nat, polls: nat) returns (failure: Option<Failure>)
      requires Valid()
      modifies this`outgoing
      ensures failure == Some(FrameOversize) <==> |data| > capacity
      ensures failure.None? ==> outgoing == old(outgoing) + data
      ensures failure.Some? ==> exists k | 0 <= k <= |data| :: outgoing == old(outgoing) + data[..k]
      ensures match failure
        case None => true
        case Some(FrameOversize) => |data| > capacity
        case Some(TimedOut) => !smooth
        case Some(e) => !honest && (e.WriteFailed? || e.PartialWrite?)
      ensures honest && |data| <= capacity ==> failure.None? || failure == Some(TimedOut)
      ensures smooth && |data| <= capacity ==> failure.None?
    {
      if |data| > capacity {
        assert outgoing == old(outgoing) + data[..0];
        return Some(FrameOversize);
      }
      var offset, patience := 0, polls;
      assert outgoing == old(outgoing) + data[..0];
      while offset < |data|
        invariant offset <= |data| && outgoing == old(outgoing) + data[..offset]
        decreases |data| - offset, patience
      {
        var reply := Write(data[offset..]);
        if reply.WriteRaised? {
          return Some(WriteFailed);
        }
        if reply.Took? && !(0 <= reply.count <= |data| - offset) {
          return Some(PartialWrite);
        }
        if reply.WriteBlocked? || reply.count == 0 {
          if patience == 0 {
            return Some(TimedOut);
          }
          patience := patience - 1;
        } else {
          assert data[..offset] + data[offset..][..reply.count] == data[..offset + reply.count];
          offset := offset + reply.count;
        }
      }
      assert data[..offset] == data;
      failure := None;
    }

    /** Against a deadline, more than one buffer of the control size waited before the length was read. */
    predicate Crowded(bounded: bool, gone: int, waiting: nat) {
      bounded && gone < 4 && gone + waiting > CONTROL_CAPACITY
    }

    /** What an intact response may be refused for, with so many bytes gone and so many waiting at the
        last look: the clock, the system, data behind it or, against a deadline, a crowded pipe. */
    predicate Excused(e: Failure, rest: Bytes, bounded: bool, gone: int, waiting: nat) {
      match e
      case FrameOversize => Crowded(bounded, gone, waiting) || (bounded && rest != [] && gone - 4 + waiting > MAX_RESPONSE)
      case TrailingData => rest != [] && waiting > 0
      case TimedOut => !smooth
      case _ => !honest && (e.PeekFailed? || e.ReadFailed? || e.PartialRead?)
    }

    /** A response: four bytes of length, then that many bytes and nothing behind them. */
    method ReadResponse(bounded: bool, polls: nat) returns (r: Result<Bytes, Failure>)
      requires Valid()
      modifies this`unread, this`arrived
      ensures Valid()
      ensures forall payload, rest | old(unread) == Response(payload, rest) && 0 < |payload| <= MAX_RESPONSE ::
        && (r.Ok? ==> r.value == payload && unread == rest)
        && (r.Err? ==> Excused(r.error, rest, bounded, Gone(old(unread)), arrived))
        && (honest && rest == [] ==> r.Ok? || r == Err(TimedOut) || (r == Err(FrameOversize) && Crowded(bounded, Gone(old(unread)), arrived)))
        && (smooth && rest == [] && (bounded ==> |old(unread)| <= CONTROL_CAPACITY) ==> r.Ok?)
    {
      var header := ReadFrame(4, CONTROL_CAPACITY, false, bounded, polls);
      if header.Err? {
        return header;
      }
      var size := FrameProtocol.Unpack(header.value);
      ghost var left := unread;
      forall payload, rest | old(unread) == Response(payload, rest) && |payload| <= MAX_RESPONSE
        ensures size == |payload| && left == payload + rest
      {
        HeaderOfResponse(payload, rest, header.value, left);
      }
      if !(0 < size <= MAX_RESPONSE) {
        return Err(ResponseOversize);
      }
      r := ReadFrame(size, MAX_RESPONSE, false, bounded, polls);
      if r.Err? {
        return;
      }
      ghost var behind := unread;
      forall payload, rest | left == payload + rest && |payload| == size
        ensures r.value == payload && behind == rest
      {
        FrontOf(r.value, behind, payload, rest);
      }
      var available, eof, ok := Peek();
      if !ok {
        return Err(PeekFailed);
      }
      if available != 0 {
        return Err(TrailingData);
      }
    }
  }

  lemma Consumed(front: Bytes, left: Bytes)
    ensures FrontGone(front + left, left) && |front + left| - |left| == |front|
  {
  }

  /** A whole response and whatever follows it. */
  function Response(payload: Bytes, rest: Bytes): Bytes {
    if |payload| <= MAX_RESPONSE then FrameProtocol.Pack(|payload|) + (payload + rest) else rest
  }

  lemma FrontOf(a: Bytes, b: Bytes, c: Bytes, d: Bytes)
    requires a + b == c + d && |a| == |c|
    ensures a == c && b == d
  {
    var t := a + b;
    assert t[..|a|] == a && t[|a|..] == b;
    assert t[..|c|] == c && t[|c|..] == d;
  }

  lemma HeaderOfResponse(payload: Bytes, rest: Bytes, header: Bytes, left: Bytes)
    requires |payload| <= MAX_RESPONSE && |header| == 4 && header + left == Response(payload, rest)
    ensures FrameProtocol.Unpack(header) == |payload| && left == payload + rest
  {
    FrontOf(header, left, FrameProtocol.Pack(|payload|), payload + rest);
    FrameProtocol.UnpackOfPack(|payload|, []);
    assert header + [] == header;
  }
}
