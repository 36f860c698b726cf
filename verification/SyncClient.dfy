/**
 The FileSync code of `AdbDevice`: a send buffer that is overwritten in place up to a running index,
 a receive buffer cut anew with every read, and the transactions made of them.
 */
module SyncClient {
  import opened Bytes
  import Adb = AdbMessage
  import Services
  import opened Streams
  import opened FileSync

  /** Python's `b[i:j] = x`; past the end of `b` it makes `b` longer. */
  function SliceAssign(b: bytes, i: nat, j: nat, x: bytes): bytes
    requires i <= |b| && i <= j
  {
    b[..i] + x + (if j <= |b| then b[j..] else [])
  }

  lemma SliceAssigned(b: bytes, i: nat, x: bytes)
    requires i <= |b|
    ensures var b' := SliceAssign(b, i, i + |x|, x);
            && b'[..i + |x|] == b[..i] + x
            && |b'| == (if i + |x| <= |b| then |b| else i + |x|)
            && (i + |x| <= |b| ==> b'[i + |x|..] == b[i + |x|..])
  {
  }

  /** What is left on a stream after `flushes` OKAYs have been waited for. */
  function Past(inbox: Inbox, flushes: nat): Option<Inbox>
    decreases flushes
  {
    if flushes == 0 then Some(inbox)
    else
      match Past(inbox, flushes - 1)
      case None => None
      case Some(rest) =>
        var r := Seek(rest, {Adb.OKAY});
        if r.0.None? then None else Some(r.1)
  }

  lemma {:induction false} PastNone(inbox: Inbox, k: nat, n: nat)
    requires Past(inbox, k).None? && k <= n
    ensures Past(inbox, n).None?
  {
    if k < n {
      PastNone(inbox, k, n - 1);
    }
  }

  /** The bytes that will then come. */
  function Answer(inbox: Inbox, flushes: nat): Option<bytes> {
    match Past(inbox, flushes)
    case None => None
    case Some(rest) => Some(Payloads(rest))
  }

  /** A WRTE with data comes before the OKAY. */
  predicate EarlyWrite(inbox: Inbox) {
    inbox != [] && inbox[0].Pkt? && inbox[0].cmd != Adb.OKAY
    && ((inbox[0].cmd == Adb.WRTE && inbox[0].data != []) || EarlyWrite(inbox[1..]))
  }

  /** Waiting for an OKAY loses data, though `read` raises nothing, exactly when some comes before the OKAY. */
  lemma {:induction false} NothingSkipped(inbox: Inbox)
    requires Answer(inbox, 1).Some?
    ensures Answer(inbox, 1) == Some(Payloads(inbox)) <==> !EarlyWrite(inbox)
    ensures |Answer(inbox, 1).value| <= |Payloads(inbox)|
  {
    assert Past(inbox, 0) == Some(inbox);
    if inbox[0].cmd == Adb.OKAY {
      assert [] + Payloads(inbox[1..]) == Payloads(inbox[1..]);
    } else {
      assert Past(inbox[1..], 0) == Some(inbox[1..]);
      NothingSkipped(inbox[1..]);
      assert inbox[0].cmd != Adb.WRTE || inbox[0].data == [] ==>
        Payloads(inbox) == [] + Payloads(inbox[1..]) == Payloads(inbox[1..]);
    }
  }

  /** For example here. */
  lemma DataCanBeLost()
    ensures var inbox := [Pkt(Adb.WRTE, 5, [7]), Pkt(Adb.OKAY, 5, [])];
            Answer(inbox, 1) == Some([]) && Payloads(inbox) == [7]
  {
    var inbox := [Pkt(Adb.WRTE, 5, [7]), Pkt(Adb.OKAY, 5, [])];
    assert inbox[1..] == [Pkt(Adb.OKAY, 5, [])] && inbox[1..][1..] == [];
    assert Past(inbox, 0) == Some(inbox);
    assert Payloads(inbox[1..]) == [] + Payloads([]);
  }

  /** How `_filesync_send` fails, if it does. */
  function SendFailure(inbox: Inbox, fits: bool, size: int): Option<Error> {
    if !fits && Seek(inbox, {Adb.OKAY}).0.None? then Some(Broken)
    else if !(0 <= size < 0x1_0000_0000) then Some(TooBig)
    else None
  }

  lemma WriteHistory(h: History, data: bytes)
    ensures Select(h + [Sent(Adb.WRTE, data)], WriteOut) == Select(h, WriteOut) + [data]
    ensures Select(h + [Sent(Adb.WRTE, data)], WriteIn) == Select(h, WriteIn)
  {
    SelectAppend(h, [Sent(Adb.WRTE, data)], WriteOut);
    SelectAppend(h, [Sent(Adb.WRTE, data)], WriteIn);
  }

  lemma OkayHistory(h: History, inbox: Inbox)
    ensures Select(h + Hears(inbox, {Adb.OKAY}), WriteOut) == Select(h, WriteOut)
    ensures Select(h + Hears(inbox, {Adb.OKAY}), WriteIn) == Select(h, WriteIn)
  {
    HearsSelect(inbox, {Adb.OKAY});
    SelectAppend(h, Hears(inbox, {Adb.OKAY}), WriteOut);
    SelectAppend(h, Hears(inbox, {Adb.OKAY}), WriteIn);
  }

  lemma {:induction false} HearsNoSent(inbox: Inbox, expected: set<Adb.Cmd>)
    ensures forall i | 0 <= i < |Hears(inbox, expected)| :: !Hears(inbox, expected)[i].Sent?
  {
    if inbox != [] && inbox[0].Pkt? && inbox[0].cmd !in expected {
      HearsNoSent(inbox[1..], expected);
    }
  }

  /** After `start` nothing was sent but WRTEs and empty OKAYs. */
  ghost predicate CleanFrom(start: History, h: History)
  {
    && start <= h
    && forall i | |start| <= i < |h| && h[i].Sent? :: h[i].cmd == Adb.WRTE || h[i] == Sent(Adb.OKAY, [])
  }

  lemma HeardClean(start: History, h: History, inbox: Inbox, expected: set<Adb.Cmd>)
    requires CleanFrom(start, h)
    ensures CleanFrom(start, h + Hears(inbox, expected))
    ensures CleanFrom(start, h + Hears(inbox, expected) + [Sent(Adb.OKAY, [])])
  {
    HearsNoSent(inbox, expected);
  }

  /** `_FileSyncTransactionInfo` and the stream it belongs to. */
  class Transaction {
    const stream: Stream
    const words: nat     // of the headers received
    const maxdata: nat
    var sendBuffer: bytes
    var sendIdx: nat
    var recvBuffer: bytes

    ghost const opening: History // of the stream, when the transaction was made
    ghost var ops: seq<BufferOp> // what has been done to the send buffer
    ghost var consumed: bytes    // what has been taken from the receive buffer

    /** What went out and what is in the buffer are `c`. */
    ghost predicate SendSide(c: Cut)
      reads this, stream
    {
      && sendIdx <= |sendBuffer|
      && c == Cut(Select(stream.history, WriteOut), sendBuffer[..sendIdx])
      && maxdata <= |sendBuffer|
      && ((forall op | op in ops :: Small(maxdata, op)) ==> |sendBuffer| == maxdata)
    }

    /** What came in is what was taken from the receive buffer, and what is in it. */
    ghost predicate ReceiveSide()
      reads this, stream
    {
      Join(Select(stream.history, WriteIn)) == consumed + recvBuffer
    }

    ghost predicate Holds(c: Cut)
      reads this, stream
    {
      words >= 2 && SendSide(c) && ReceiveSide() && Settled(stream.history) && Clean()
    }

    /** Since then nothing was sent but WRTEs and empty OKAYs. */
    ghost predicate Clean()
      reads this, stream
    {
      CleanFrom(opening, stream.history)
    }

    /** Between operations it holds the packets given to it, cut up. */
    ghost predicate Valid()
      reads this, stream
    {
      Holds(CutUp(words, maxdata, ops))
    }

    /** After an exception: nothing is out but what was given, from the start and in order. */
    ghost predicate Abandoned()
      reads this, stream
    {
      && Polite(stream.history) && !Owing(stream.history) && Clean()
      && Join(Select(stream.history, WriteOut)) <= Written(Units(ops), UnitBytes)
    }

    /** What reading will see, if the flush before it succeeds. */
    ghost function Ahead(): Option<bytes>
      reads this, stream
    {
      match Answer(stream.inbox, if sendIdx == 0 then 0 else 1)
      case None => None
      case Some(s) => Some(recvBuffer + s)
    }

    constructor (s: Stream, headerWords: nat, max: nat)
      requires headerWords >= 2 && Settled(s.history)
      requires Select(s.history, WriteOut) == Select(s.history, WriteIn) == []
      ensures Valid() && Fresh() && stream == s && words == headerWords && maxdata == max && opening == s.history
    {
      stream, words, maxdata := s, headerWords, max;
      sendBuffer, sendIdx, recvBuffer := seq(max, _ => 0), 0, [];
      opening, ops, consumed := s.history, [], [];
    }

    ghost predicate Fresh()
      reads this
    {
      sendIdx == 0 && recvBuffer == [] && ops == []
    }

    /** `can_add_to_send_buffer` */
    predicate CanAdd(length: nat)
      reads this
    {
      Fits(words, maxdata, sendIdx, length)
    }

    /** `_filesync_flush` */
    method Flush() returns (ok: bool)
      requires Valid()
      modifies stream`inbox, stream`history, this`sendIdx
      ensures ok <==> Seek(old(stream.inbox), {Adb.OKAY}).0.Some?
      ensures stream.inbox == Seek(old(stream.inbox), {Adb.OKAY}).1
      ensures Select(stream.history, WriteOut) == old(Select(stream.history, WriteOut)) + [old(sendBuffer[..sendIdx])]
      ensures Polite(stream.history) && !Owing(stream.history) && ReceiveSide() && Clean()
      ensures if ok then sendIdx == 0 && !Waiting(stream.history) else sendIdx == old(sendIdx)
    {
      ok := WriteAndWait(sendBuffer[..sendIdx]);
      if ok {
        sendIdx := 0;
      }
    }

    /** A WRTE, and the OKAY for it. */
    method WriteAndWait(data: bytes) returns (ok: bool)
      requires Settled(stream.history) && Clean()
      modifies stream`inbox, stream`history
      ensures ok <==> Seek(old(stream.inbox), {Adb.OKAY}).0.Some?
      ensures stream.inbox == Seek(old(stream.inbox), {Adb.OKAY}).1
      ensures Select(stream.history, WriteOut) == old(Select(stream.history, WriteOut)) + [data]
      ensures Select(stream.history, WriteIn) == old(Select(stream.history, WriteIn))
      ensures Polite(stream.history) && !Owing(stream.history) && (ok ==> !Waiting(stream.history)) && Clean()
    {
      PoliteSnoc(stream.history, Sent(Adb.WRTE, data));
      WriteHistory(stream.history, data);
      stream.Send(Adb.WRTE, data);
      ok := WaitForOkay();
    }

    method WaitForOkay() returns (ok: bool)
      requires Polite(stream.history) && !Owing(stream.history) && Clean()
      modifies stream`inbox, stream`history
      ensures ok <==> Seek(old(stream.inbox), {Adb.OKAY}).0.Some?
      ensures stream.inbox == Seek(old(stream.inbox), {Adb.OKAY}).1
      ensures Select(stream.history, WriteOut) == old(Select(stream.history, WriteOut))
      ensures Select(stream.history, WriteIn) == old(Select(stream.history, WriteIn))
      ensures Polite(stream.history) && !Owing(stream.history) && (ok ==> !Waiting(stream.history)) && Clean()
    {
      OkayHistory(stream.history, stream.inbox);
      HeardClean(opening, stream.history, stream.inbox, {Adb.OKAY});
      var r := stream.ReadUntil({Adb.OKAY});
      return r.Some?;
    }

    /** The flush in `_filesync_send`, if the packet does not fit. */
    method MakeRoom(length: nat) returns (ok: bool)
      requires Valid()
      modifies this`sendIdx, stream`inbox, stream`history
      ensures ok <==> SendFailure(old(stream.inbox), old(CanAdd(length)), 0).None?
      ensures stream.inbox == if old(CanAdd(length)) then old(stream.inbox) else Seek(old(stream.inbox), {Adb.OKAY}).1
      ensures Abandoned() && (ok ==> Holds(Room(CutUp(words, maxdata, ops), old(CanAdd(length)))))
    {
      ghost var c := CutUp(words, maxdata, ops);
      NothingLost(words, maxdata, ops);
      JoinSnoc(c.out, c.pending);
      if CanAdd(length) {
        return true;
      }
      ok := Flush();
    }

    /** The packet goes into the buffer. */
    method Append(u: Unit)
      requires var c := CutUp(words, maxdata, ops);
               Holds(Room(c, Fits(words, maxdata, |c.pending|, |u.data|)))
      modifies this`sendBuffer, this`sendIdx, this`ops
      ensures Valid() && sendIdx > 0 && ops == old(ops) + [Add(u)]
    {
      Grown(words, maxdata, ops, u);
      SliceAssigned(sendBuffer, sendIdx, UnitBytes(u));
      var buf := UnitBytes(u);
      sendBuffer := SliceAssign(sendBuffer, sendIdx, sendIdx + |buf|, buf);
      sendIdx := sendIdx + |buf|;
      ops := ops + [Add(u)];
    }

    /** `_filesync_send` */
    method FilesyncSend(id: Id, data: bytes, given: Option<int>) returns (failure: Option<Error>)
      requires Valid()
      modifies this`sendBuffer, this`sendIdx, this`ops, stream`inbox, stream`history
      ensures var size := if given.Some? then given.value else |data|;
              && failure == SendFailure(old(stream.inbox), old(CanAdd(|data|)), size)
              && failure == (if !old(CanAdd(|data|)) && Seek(old(stream.inbox), {Adb.OKAY}).0.None? then Some(Broken)
                             else if size < 0 || size >= 0x1_0000_0000 then Some(TooBig)
                             else None)
              && (failure.None? ==> Valid() && sendIdx > 0 && ops == old(ops) + [Add(Unit(id, size, data))])
      ensures failure.Some? ==> Abandoned() && ops == old(ops)
      ensures stream.inbox == if old(CanAdd(|data|)) then old(stream.inbox) else Seek(old(stream.inbox), {Adb.OKAY}).1
    {
      var size := if given.Some? then given.value else |data|;
      var ok := MakeRoom(|data|);
      if !ok {
        return Some(Broken);
      }
      if !(0 <= size < 0x1_0000_0000) {
        return Some(TooBig);
      }
      Append(Unit(id, size, data));
      return None;
    }

    /** The flush with which `_filesync_read` starts. */
    method FlushPending() returns (ok: bool)
      requires Valid()
      modifies stream`inbox, stream`history, this`sendIdx, this`ops
      ensures ok <==> old(Ahead()).Some?
      ensures if ok then Valid() && sendIdx == 0 && Ahead() == old(Ahead()) && ops == old(ops) + [BufferOp.Flush]
              else Abandoned() && ops == old(ops)
    {
      ghost var c := CutUp(words, maxdata, ops);
      NothingLost(words, maxdata, ops);
      JoinSnoc(c.out, c.pending);
      CutSnoc(words, maxdata, ops, BufferOp.Flush);
      ghost var ops' := ops + [BufferOp.Flush];
      forall op | op in ops ensures op in ops' {}
      if sendIdx != 0 {
        ok := Flush();
        if !ok {
          return;
        }
      }
      ops := ops';
      return true;
    }

    /** `_read_until` a WRTE. */
    method ReadWrite() returns (r: Option<bytes>)
      requires Settled(stream.history) && Clean()
      modifies stream`inbox, stream`history
      ensures Settled(stream.history) && Clean()
      ensures Select(stream.history, WriteOut) == old(Select(stream.history, WriteOut))
      ensures Join(Select(stream.history, WriteIn)) ==
              old(Join(Select(stream.history, WriteIn))) + (if r.Some? then r.value else [])
      ensures Payloads(old(stream.inbox)) == if r.Some? then r.value + Payloads(stream.inbox) else []
      ensures r.Some? ==> |stream.inbox| < |old(stream.inbox)|
    {
      SeekWrite(stream.inbox);
      ReadHistory(stream.history, stream.inbox);
      HeardClean(opening, stream.history, stream.inbox, {Adb.WRTE});
      var reply := stream.ReadUntil({Adb.WRTE});
      return if reply.Some? then Some(reply.value.data) else None;
    }

    /** One WRTE more in the receive buffer. */
    method Receive() returns (ok: bool)
      requires Valid()
      modifies stream`inbox, stream`history, this`recvBuffer
      ensures Valid()
      ensures if ok then recvBuffer + Payloads(stream.inbox) == old(recvBuffer + Payloads(stream.inbox))
              else recvBuffer == old(recvBuffer) && Payloads(old(stream.inbox)) == []
      ensures ok ==> |stream.inbox| < |old(stream.inbox)|
    {
      var data := ReadWrite();
      if data.None? {
        Gathered(recvBuffer, [], [], consumed);
        return false;
      }
      Gathered(recvBuffer, data.value, Payloads(stream.inbox), consumed);
      recvBuffer := recvBuffer + data.value;
      return true;
    }

    /** The loop of `_filesync_read_buffered`. */
    method FillTo(size: nat) returns (ok: bool)
      requires Valid()
      modifies stream`inbox, stream`history, this`recvBuffer
      ensures Valid()
      ensures var s := old(recvBuffer + Payloads(stream.inbox));
              if ok then size <= |recvBuffer| && recvBuffer + Payloads(stream.inbox) == s else |s| < size
    {
      while |recvBuffer| < size
        invariant Valid() && recvBuffer + Payloads(stream.inbox) == old(recvBuffer + Payloads(stream.inbox))
        decreases |stream.inbox|
      {
        ok := Receive();
        if !ok {
          return;
        }
      }
      return true;
    }

    /** `_filesync_read_buffered` */
    method ReadBuffered(size: nat) returns (r: Result<bytes, Error>)
      requires Valid()
      modifies stream`inbox, stream`history, this`recvBuffer, this`consumed
      ensures Valid()
      ensures var s := old(recvBuffer + Payloads(stream.inbox));
              if size <= |s| then r == Ok(s[..size]) && recvBuffer + Payloads(stream.inbox) == s[size..]
              else r == Err(Broken)
    {
      var ok := FillTo(size);
      if !ok {
        return Err(Broken);
      }
      SplitFront(recvBuffer, Payloads(stream.inbox), size);
      Consumed(consumed, recvBuffer, size);
      var result := recvBuffer[..size];
      recvBuffer := recvBuffer[size..];
      consumed := consumed + result;
      return Ok(result);
    }

    /** `_filesync_read` */
    method FilesyncRead(expected: set<Id>) returns (r: Result<Frame, Error>)
      requires Valid()
      modifies stream`inbox, stream`history, this`sendIdx, this`ops, this`recvBuffer, this`consumed
      ensures if old(Ahead()).None? then r == Err(Broken) && Abandoned() && ops == old(ops)
              else
                var (one, rest) := ParseOne(words, expected, old(Ahead()).value);
                && Valid() && sendIdx == 0 && ops == old(ops) + [BufferOp.Flush]
                && r == one && (r.Ok? ==> Ahead() == Some(rest))
    {
      var ok := FlushPending();
      if !ok {
        return Err(Broken);
      }
      r := ReadFrame(expected);
    }

    method ReadFrame(expected: set<Id>) returns (r: Result<Frame, Error>)
      requires Valid() && sendIdx == 0
      modifies stream`inbox, stream`history, this`recvBuffer, this`consumed
      ensures var (one, rest) := ParseOne(words, expected, old(recvBuffer + Payloads(stream.inbox)));
              && Valid() && r == one && (r.Ok? ==> recvBuffer + Payloads(stream.inbox) == rest)
    {
      var head := ReadBuffered(4 * words);
      if head.Err? {
        return Err(head.error);
      }
      var header := UnpackWords(head.value);
      var id := FromWire(header[0]);
      if id.None? {
        return Err(UnknownId);
      }
      if id.value == STAT {
        return if STAT in expected then Ok(Frame(STAT, header[1..], None)) else Err(Unexpected(STAT));
      }
      r := ReadData(id.value, header, expected);
    }

    /** The data of a packet whose header has been read. */
    method ReadData(id: Id, header: seq<u32>, expected: set<Id>) returns (r: Result<Frame, Error>)
      requires Valid() && |header| >= 2 && id != STAT
      modifies stream`inbox, stream`history, this`recvBuffer, this`consumed
      ensures var (one, rest) := ParseData(id, header, expected, old(recvBuffer + Payloads(stream.inbox)));
              && Valid() && r == one && (r.Ok? ==> recvBuffer + Payloads(stream.inbox) == rest)
    {
      var data := ReadBuffered(header[|header| - 1]);
      if data.Err? {
        return Err(data.error);
      }
      if id !in expected {
        return Err(if id == FAIL then CommandFailed(data.value) else Unexpected(id));
      }
      return Ok(Frame(id, header[1..|header| - 1], Some(data.value)));
    }

    /** All that `_filesync_read_until` yields to a loop that ends with a packet of `finish`. */
    method FilesyncReadUntil(expected: set<Id>, finish: set<Id>) returns (frames: seq<Frame>, failure: Option<Error>)
      requires Valid()
      modifies stream`inbox, stream`history, this`sendIdx, this`ops, this`recvBuffer, this`consumed
      ensures if old(Ahead()).None? then frames == [] && failure == Some(Broken) && Abandoned()
              else
                var p := ParseUntil(words, expected, finish, old(Ahead()).value);
                Valid() && sendIdx == 0 && frames == p.frames && failure == p.failure
      ensures Units(ops) == Units(old(ops))
    {
      frames := [];
      ghost var s := Ahead();
      ghost var whole := if s.None? then Parsed([], Some(Broken), []) else ParseUntil(words, expected, finish, s.value);
      NoMore(whole);
      while true
        invariant Valid() && Units(ops) == Units(old(ops))
        invariant s.None? ==> frames == [] && Ahead().None?
        invariant s.Some? ==> Ahead().Some?
        invariant s.Some? ==> ParsedMore(frames, ParseUntil(words, expected, finish, Ahead().value)) == whole
        decreases if Ahead().Some? then |Ahead().value| else 0
      {
        if s.Some? {
          MoreStep(words, expected, finish, Ahead().value, frames);
        }
        CutSnoc(words, maxdata, ops, BufferOp.Flush);
        var f := FilesyncRead(expected + finish);
        if f.Err? {
          return frames, Some(f.error);
        }
        frames := frames + [f.value];
        if f.value.id in finish {
          return frames, None;
        }
      }
    }

    /** The request of `list`, `_pull` and `stat`. */
    method Ask(id: Id, path: bytes) returns (failure: Option<Error>)
      requires Valid() && Fresh()
      modifies this`sendBuffer, this`sendIdx, this`ops, stream`inbox, stream`history
      ensures |path| < 0x1_0000_0000 ==>
          var reply := ReplyTo(old(stream.inbox), words, maxdata, [Add(Whole(id, path)), BufferOp.Flush]);
          if failure.None? then Valid() && Ahead() == reply else failure == Some(Broken) && reply.None?
      ensures |path| >= 0x1_0000_0000 ==> failure.Some?
      ensures failure.Some? ==> Abandoned() && Units(ops) == []
      ensures failure.None? ==> |path| < 0x1_0000_0000 && Units(ops) == [Unit(id, |path|, path)]
    {
      if |path| < 0x1_0000_0000 {
        AskedFor(stream.inbox, words, maxdata, Whole(id, path));
        CutSnoc(words, maxdata, [], Add(Whole(id, path)));
      }
      failure := FilesyncSend(id, path, None);
    }

    /** What has gone out in WRTEs, one after the other. */
    ghost function Out(): bytes
      reads this, stream
    {
      Join(Select(stream.history, WriteOut))
    }

    /** If one packet was given, it is out once the buffer is empty; and after a failure, nothing else is. */
    lemma OneOut(u: Unit)
      requires Units(ops) == [u] || Units(ops) == []
      ensures Abandoned() ==> Out() <= UnitBytes(u) && (Units(ops) == [] ==> Out() == [])
      ensures Valid() && sendIdx == 0 && Units(ops) == [u] ==> Out() == UnitBytes(u)
    {
      WrittenOne(u, UnitBytes);
      NothingLost(words, maxdata, ops);
      assert Out() + [] == Out();
    }

    /** A request, and the packets of the answer up to a finishing one. */
    method AskAndRead(id: Id, path: bytes, expected: set<Id>, finish: set<Id>)
      returns (frames: seq<Frame>, failure: Option<Error>)
      requires Valid() && Fresh()
      modifies this, stream`inbox, stream`history
      ensures Valid() || Abandoned()
      ensures forall f | f in frames :: f.id in expected + finish && WellFormed(f) && HeaderWords(f) == words
      ensures |path| < 0x1_0000_0000 ==>
          match ReplyTo(old(stream.inbox), words, maxdata, [Add(Whole(id, path)), BufferOp.Flush])
          case None => frames == [] && failure == Some(Broken)
          case Some(s) =>
            var p := ParseUntil(words, expected, finish, s);
            frames == p.frames && failure == p.failure && Out() == UnitBytes(Unit(id, |path|, path))
      ensures |path| < 0x1_0000_0000 ==> Out() <= UnitBytes(Unit(id, |path|, path))
      ensures |path| >= 0x1_0000_0000 ==> frames == [] && failure.Some? && Out() == []
    {
      frames := [];
      ghost var request := Unit(id, if |path| < 0x1_0000_0000 then |path| else 0, path);
      failure := Ask(id, path);
      OneOut(request);
      if failure.None? {
        frames, failure := FilesyncReadUntil(expected, finish);
        OneOut(request);
      }
    }

    /** `_pull`: what has been written to the local file, and the exception if there was one. */
    method Pull(path: bytes) returns (file: bytes, failure: Option<Error>)
      requires Valid() && Fresh() && words == 2
      modifies this, stream`inbox, stream`history
      ensures Valid() || Abandoned()
      ensures |path| < 0x1_0000_0000 ==>
          match ReplyTo(old(stream.inbox), 2, maxdata, [Add(Whole(RECV, path)), BufferOp.Flush])
          case None => file == [] && failure == Some(Broken)
          case Some(s) =>
            var p := ParseUntil(2, {DATA}, {DONE}, s);
            file == Join(Datas(p.frames, DATA)) && failure == p.failure
      ensures |path| >= 0x1_0000_0000 ==> file == [] && failure.Some? && Out() == []
      ensures |path| < 0x1_0000_0000 ==>
          var request := Ascii("RECV") + Word(|path|) + path;
          var reply := ReplyTo(old(stream.inbox), 2, maxdata, [Add(Whole(RECV, path)), BufferOp.Flush]);
          Out() <= request && (reply.Some? ==> Out() == request)
    {
      if |path| < 0x1_0000_0000 {
        RequestBytes(path);
      }
      var frames;
      frames, failure := AskAndRead(RECV, path, {DATA}, {DONE});
      file := WriteData(frames);
    }

    /** `list` */
    method List(path: bytes) returns (r: Result<seq<DeviceFile>, Error>)
      requires Valid() && Fresh() && words == 5
      modifies this, stream`inbox, stream`history
      ensures Valid() || Abandoned()
      ensures |path| < 0x1_0000_0000 ==>
          match ReplyTo(old(stream.inbox), 5, maxdata, [Add(Whole(LIST, path)), BufferOp.Flush])
          case None => r == Err(Broken)
          case Some(s) =>
            var p := ParseUntil(5, {DENT}, {DONE}, s);
            r == if p.failure.Some? then Err(p.failure.value) else Ok(Files(p.frames))
      ensures |path| >= 0x1_0000_0000 ==> r.Err? && Out() == []
      ensures |path| < 0x1_0000_0000 ==>
          var request := Ascii("LIST") + Word(|path|) + path;
          var reply := ReplyTo(old(stream.inbox), 5, maxdata, [Add(Whole(LIST, path)), BufferOp.Flush]);
          Out() <= request && (reply.Some? ==> Out() == request)
    {
      if |path| < 0x1_0000_0000 {
        RequestBytes(path);
      }
      var frames, failure := AskAndRead(LIST, path, {DENT}, {DONE});
      if failure.Some? {
        return Err(failure.value);
      }
      var files := CollectFiles(frames);
      return Ok(files);
    }

    /** `stat`: the mode, the size and the time. */
    method Stat(path: bytes) returns (r: Result<seq<u32>, Error>)
      requires Valid() && Fresh() && words == 4
      modifies this, stream`inbox, stream`history
      ensures Valid() || Abandoned()
      ensures r.Ok? ==> |r.value| == 3
      ensures |path| < 0x1_0000_0000 ==>
          match ReplyTo(old(stream.inbox), 4, maxdata, [Add(Whole(STAT, path)), BufferOp.Flush])
          case None => r == Err(Broken)
          case Some(s) =>
            var (one, _) := ParseOne(4, {STAT}, s);
            r == if one.Err? then Err(one.error) else Ok(one.value.fields)
      ensures |path| >= 0x1_0000_0000 ==> r.Err? && Out() == []
      ensures |path| < 0x1_0000_0000 ==>
          var request := Ascii("STAT") + Word(|path|) + path;
          var reply := ReplyTo(old(stream.inbox), 4, maxdata, [Add(Whole(STAT, path)), BufferOp.Flush]);
          Out() <= request && (reply.Some? ==> Out() == request)
    {
      ghost var request := Unit(STAT, if |path| < 0x1_0000_0000 then |path| else 0, path);
      var failure := Ask(STAT, path);
      OneOut(request);
      if |path| < 0x1_0000_0000 {
        RequestBytes(path);
      }
      if failure.Some? {
        return Err(failure.value);
      }
      CutSnoc(words, maxdata, ops, BufferOp.Flush);
      var f := FilesyncRead({STAT});
      OneOut(request);
      return if f.Err? then Err(f.error) else Ok(f.value.fields);
    }

    /** The sending half of the state of a push that is to end up having done `plan`. */
    ghost predicate Pushing(start: Inbox, plan: seq<BufferOp>)
      reads this, stream
    {
      && Valid() && ops <= plan && recvBuffer == []
      && Past(start, |CutUp(words, maxdata, ops).out|) == Some(stream.inbox)
    }

    /** `_filesync_send` of the next packet of `plan`. */
    method SendNext(id: Id, data: bytes, ghost start: Inbox, ghost plan: seq<BufferOp>) returns (failure: Option<Error>)
      requires Pushing(start, plan) && |data| < 0x1_0000_0000
      requires ops + [Add(Whole(id, data))] <= plan
      modifies this`sendBuffer, this`sendIdx, this`ops, stream`inbox, stream`history
      ensures failure.None? ==> Pushing(start, plan) && ops == old(ops) + [Add(Whole(id, data))] && sendIdx > 0
      ensures failure.Some? ==> Abandoned() && failure == Some(Broken) && ReplyTo(start, words, maxdata, plan).None?
      ensures failure.Some? ==> ops == old(ops)
    {
      NextThrough(start, words, maxdata, ops, Whole(id, data), plan, stream.inbox);
      failure := FilesyncSend(id, data, None);
    }

    /** SEND, and DATA for each piece of the file. */
    method SendFile(info: bytes, file: bytes, ghost start: Inbox, ghost mtime: u32) returns (failure: Option<Error>)
      requires |info| < 0x1_0000_0000 && ops == []
      requires Pushing(start, PushPlan(info, file, mtime, maxdata))
      modifies this`sendBuffer, this`sendIdx, this`ops, stream`inbox, stream`history
      ensures var plan := PushPlan(info, file, mtime, maxdata);
              && ops <= plan
              && (failure.None? ==> Pushing(start, plan) && ops == plan[..|plan| - 2])
              && (failure.Some? ==>
                    Abandoned() && failure == Some(Broken) && ReplyTo(start, words, maxdata, plan).None?)
    {
      ghost var plan := PushPlan(info, file, mtime, maxdata);
      PushOpAt(info, Chunks(file, MaxChunkSize(maxdata)), mtime, 0);
      failure := SendNext(SEND, info, start, plan);
      if failure.None? {
        failure := SendChunks(info, file, start, mtime);
      }
    }

    /** The loop of `_push`. */
    method SendChunks(ghost info: bytes, file: bytes, ghost start: Inbox, ghost mtime: u32)
      returns (failure: Option<Error>)
      requires |info| < 0x1_0000_0000
      requires Pushing(start, PushPlan(info, file, mtime, maxdata)) && |ops| == 1
      modifies this`sendBuffer, this`sendIdx, this`ops, stream`inbox, stream`history
      ensures var plan := PushPlan(info, file, mtime, maxdata);
              && ops <= plan
              && (failure.None? ==> Pushing(start, plan) && ops == plan[..|plan| - 2])
              && (failure.Some? ==>
                    Abandoned() && failure == Some(Broken) && ReplyTo(start, words, maxdata, plan).None?)
    {
      ghost var plan := PushPlan(info, file, mtime, maxdata);
      var left := file;
      while true
        invariant Pushing(start, plan) && Underway(info, file, mtime, maxdata, ops, left)
        decreases |left|
      {
        UnderwayNext(info, file, mtime, maxdata, ops, left);
        var data := NextChunk(left, MaxChunkSize(maxdata));
        if data == [] {
          return None;
        }
        left := left[|data|..];
        failure := SendNext(DATA, data, start, plan);
        if failure.Some? {
          return;
        }
      }
    }

    /** The device's answer to a push. */
    method Conclude() returns (failure: Option<Error>)
      requires Valid() && words == 2
      modifies stream`inbox, stream`history, this`sendIdx, this`ops, this`recvBuffer, this`consumed
      ensures failure == Verdict(old(Ahead()))
      ensures if old(Ahead()).None? then Abandoned() && ops == old(ops)
              else Valid() && ops == old(ops) + [BufferOp.Flush]
    {
      var f := FilesyncRead({OKAY, FAIL});
      if f.Err? {
        return Some(f.error);
      }
      if f.value.id == OKAY {
        return None;
      }
      return Some(PushFailed(f.value.data.value));
    }

    /** DONE with the time, and the verdict of the device. */
    method FinishPush(mtime: int, ghost start: Inbox, ghost plan: seq<BufferOp>) returns (failure: Option<Error>)
      requires Pushing(start, plan) && words == 2
      requires 0 <= mtime < 0x1_0000_0000 ==> plan == ops + [Add(Unit(DONE, mtime, []))] + [BufferOp.Flush]
      modifies this, stream`inbox, stream`history
      ensures 0 <= mtime < 0x1_0000_0000 ==>
          && failure == Verdict(ReplyTo(start, words, maxdata, plan))
          && if ReplyTo(start, words, maxdata, plan).None? then Abandoned() && ops <= plan else Valid() && ops == plan
      ensures !(0 <= mtime < 0x1_0000_0000) ==> failure.Some? && Abandoned() && ops == old(ops)
    {
      failure := SendDone(mtime, start, plan);
      if failure.None? {
        failure := Conclude();
      }
    }

    method SendDone(mtime: int, ghost start: Inbox, ghost plan: seq<BufferOp>) returns (failure: Option<Error>)
      requires Pushing(start, plan) && words == 2
      requires 0 <= mtime < 0x1_0000_0000 ==> plan == ops + [Add(Unit(DONE, mtime, []))] + [BufferOp.Flush]
      modifies this`sendBuffer, this`sendIdx, this`ops, stream`inbox, stream`history
      ensures if failure.None? then
                0 <= mtime < 0x1_0000_0000 && Valid() && Ahead() == ReplyTo(start, words, maxdata, plan)
              else Abandoned()
      ensures failure.None? ==> ops == old(ops) + [Add(Unit(DONE, mtime, []))]
      ensures failure.Some? ==> ops == old(ops)
      ensures failure.Some? && 0 <= mtime < 0x1_0000_0000 ==>
                failure == Some(Broken) && ReplyTo(start, words, maxdata, plan).None?
    {
      if 0 <= mtime < 0x1_0000_0000 {
        NextThrough(start, words, maxdata, ops, Unit(DONE, mtime, []), plan, stream.inbox);
        LastThrough(start, words, maxdata, ops, Unit(DONE, mtime, []));
      }
      failure := FilesyncSend(DONE, [], Some(mtime));
    }

    /**
     `_push`, with the time of day in case none is given.  It succeeds exactly when the device has an
     OKAY for every WRTE and then answers OKAY; the WRTEs have then carried the whole request.
     */
    method Push(path: bytes, mode: nat, file: bytes, mtime: int, now: int) returns (failure: Option<Error>)
      requires Valid() && Fresh() && words == 2
      modifies this, stream`inbox, stream`history
      ensures var info, time := FileInfo(path, mode), if mtime == 0 then now else mtime;
              if |info| < 0x1_0000_0000 && 0 <= time < 0x1_0000_0000 then
                var plan := PushPlan(info, file, time, maxdata);
                var reply := ReplyTo(old(stream.inbox), 2, maxdata, plan);
                && failure == Verdict(reply)
                && (if reply.None? then Abandoned() && ops <= plan else Valid() && ops == plan)
                && (failure.None? ==>
                      var request := PushRequest(info, Chunks(file, MaxChunkSize(maxdata)), time);
                      ParsePush(Join(Select(stream.history, WriteOut))) == Some(request))
              else failure.Some? && Abandoned()
      ensures var info, time := FileInfo(path, mode), if mtime == 0 then now else mtime;
              if |info| < 0x1_0000_0000 && 0 <= time < 0x1_0000_0000 then
                var reply := ReplyTo(old(stream.inbox), 2, maxdata, PushPlan(info, file, time, maxdata));
                (failure.None? <==> Accepts(reply)) && (reply.Some? ==>
                  Requests(Out(), info, Chunks(file, MaxChunkSize(maxdata)), time))
              else failure.Some?
    {
      var info, time := FileInfo(path, mode), if mtime == 0 then now else mtime;
      if |info| >= 0x1_0000_0000 {
        failure := FilesyncSend(SEND, info, None);
        return;
      }
      if 0 <= time < 0x1_0000_0000 {
        PushedBytes(info, file, time, maxdata);
        VerdictIs(ReplyTo(stream.inbox, 2, maxdata, PushPlan(info, file, time, maxdata)));
        PushedOut(info, file, time, maxdata);
      }
      failure := PushInfo(info, file, time);
    }

    /** `_push`, once the file information is known. */
    method PushInfo(info: bytes, file: bytes, time: int) returns (failure: Option<Error>)
      requires Valid() && Fresh() && words == 2 && |info| < 0x1_0000_0000
      modifies this, stream`inbox, stream`history
      ensures if 0 <= time < 0x1_0000_0000 then
                var plan := PushPlan(info, file, time, maxdata);
                var reply := ReplyTo(old(stream.inbox), 2, maxdata, plan);
                && failure == Verdict(reply)
                && if reply.None? then Abandoned() && ops <= plan else Valid() && ops == plan
              else failure.Some? && Abandoned()
    {
      ghost var start, stamp := stream.inbox, if 0 <= time < 0x1_0000_0000 then time else 0;
      ghost var plan := PushPlan(info, file, stamp, maxdata);
      PushOpAt(info, Chunks(file, MaxChunkSize(maxdata)), stamp, 0);
      failure := SendFile(info, file, start, stamp);
      if failure.None? {
        failure := FinishPush(time, start, plan);
      }
    }
  }

  const SYNC: bytes := Ascii("sync:")

  /** The start of every FileSync operation: `_open`, and a new transaction on the stream. */
  method Begin(stream: Stream, words: nat, maxdata: nat) returns (t: Option<Transaction>)
    requires stream.history == [] && words >= 2
    modifies stream
    ensures t.Some? <==> Seek(old(stream.inbox), {Adb.OKAY}).0.Some?
    ensures stream.inbox == Seek(old(stream.inbox), {Adb.OKAY}).1
    ensures Services.Outbound(stream.history) == [Sent(Adb.OPEN, Ascii("sync:") + [0])]
    ensures t.Some? ==>
        && fresh(t.value) && t.value.Valid() && t.value.Fresh()
        && t.value.stream == stream && t.value.words == words && t.value.maxdata == maxdata
  {
    var remote := Services.Open(stream, SYNC);
    if remote.None? {
      return None;
    }
    var transaction := new Transaction(stream, words, maxdata);
    return Some(transaction);
  }

  /** `s` starts with a packet of two words: the letters, the length of `msg`, and `msg`. */
  predicate Starts(s: bytes, letters: bytes, msg: bytes, tail: bytes) {
    |msg| < 0x1_0000_0000 && s == letters + Word(|msg|) + msg + tail
  }

  /** The device has answered OKAY, with any message. */
  ghost predicate Accepts(reply: Option<bytes>) {
    reply.Some? && exists msg, tail :: Starts(reply.value, Ascii("OKAY"), msg, tail)
  }

  /** A push, byte by byte: SEND with the file information, the DATA packets, and DONE with the time for a length. */
  predicate Requests(out: bytes, info: bytes, chunks: seq<bytes>, mtime: u32)
    requires |info| < 0x1_0000_0000 && forall c | c in chunks :: |c| < 0x1_0000_0000
  {
    out == Ascii("SEND") + Word(|info|) + info + DataPackets(chunks) + (Ascii("DONE") + Word(mtime))
  }

  /** That is what all its WRTEs carry. */
  lemma PushedOut(info: bytes, file: bytes, mtime: u32, maxdata: nat)
    requires |info| < 0x1_0000_0000
    ensures Requests(Join(CutUp(2, maxdata, PushPlan(info, file, mtime, maxdata)).out), info,
                     Chunks(file, MaxChunkSize(maxdata)), mtime)
  {
    PushedUnits(info, file, mtime, maxdata);
    PushBytes(info, Chunks(file, MaxChunkSize(maxdata)), mtime);
  }

  /** The device's answer decides: OKAY, with any message, succeeds; FAIL fails with its message; nothing else does. */
  lemma VerdictIs(reply: Option<bytes>)
    ensures Verdict(reply).None? <==> Accepts(reply)
    ensures forall reason :: Verdict(reply) == Some(PushFailed(reason)) <==>
              reply.Some? && exists tail :: Starts(reply.value, Ascii("FAIL"), reason, tail)
  {
    if reply.Some? {
      forall msg, tail | Starts(reply.value, Ascii("OKAY"), msg, tail) ensures Verdict(reply).None? {
        ReadsShort(OKAY, reply.value, msg, tail);
      }
      forall msg, tail | Starts(reply.value, Ascii("FAIL"), msg, tail) ensures Verdict(reply) == Some(PushFailed(msg)) {
        ReadsShort(FAIL, reply.value, msg, tail);
      }
      ShortRead(reply.value);
    }
  }

  lemma ReadsShort(id: Id, s: bytes, msg: bytes, tail: bytes)
    requires id == OKAY || id == FAIL
    requires Starts(s, if id == OKAY then Ascii("OKAY") else Ascii("FAIL"), msg, tail)
    ensures ParseOne(2, {OKAY, FAIL}, s).0 == Ok(Frame(id, [], Some(msg)))
  {
    IdLetters(id);
    ShortFrame(id, msg);
    FrameRoundTrip(Frame(id, [], Some(msg)), 2, {OKAY, FAIL}, tail);
  }

  /** Conversely a packet that is read is there. */
  lemma ShortRead(s: bytes)
    ensures var r := ParseOne(2, {OKAY, FAIL}, s);
            r.0.Ok? ==>
              && r.0.value.id in {OKAY, FAIL} && r.0.value.data.Some?
              && Starts(s, if r.0.value.id == OKAY then Ascii("OKAY") else Ascii("FAIL"), r.0.value.data.value, r.1)
  {
    var r := ParseOne(2, {OKAY, FAIL}, s);
    if r.0.Ok? {
      var id := r.0.value.id;
      HeadRead(s);
      UnWordRoundTrip(s[..4]);
      UnWordRoundTrip(s[4..8]);
      IdLetters(id);
      InPieces(s, |r.0.value.data.value|);
    }
  }

  lemma InPieces(s: bytes, n: nat)
    requires 8 + n <= |s|
    ensures s[8..][..n] == s[8..8 + n] && s[8..][n..] == s[8 + n..]
    ensures s == s[..4] + s[4..8] + s[8..8 + n] + s[8 + n..]
  {
  }

  lemma HeadRead(s: bytes)
    requires |s| >= 8
    ensures UnpackWords(s[..8]) == [UnWord(s[..4]), UnWord(s[4..8])]
  {
    UnpackedAt(s[..8], 0);
    UnpackedAt(s[..8], 1);
    assert s[..8][0..4] == s[..4] && s[..8][4..8] == s[4..8];
  }

  /** How a push ends once the device has answered. */
  function Verdict(reply: Option<bytes>): Option<Error> {
    match reply
    case None => Some(Broken)
    case Some(s) =>
      match ParseOne(2, {OKAY, FAIL}, s).0
      case Err(e) => Some(e)
      case Ok(f) => if f.id == OKAY then None else Some(PushFailed(f.data.value))
  }

  /** A device that reports failure fails the push, with its message, whatever follows it. */
  lemma PushFailureReported(reason: bytes, tail: bytes)
    requires |reason| < 0x1_0000_0000
    ensures Verdict(Some(FailBytes(reason) + tail)) == Some(PushFailed(reason))
  {
    FrameRoundTrip(Frame(FAIL, [], Some(reason)), 2, {OKAY, FAIL}, tail);
  }

  lemma LastThrough(start: Inbox, words: nat, maxdata: nat, ops: seq<BufferOp>, u: Unit)
    ensures |CutUp(words, maxdata, ops + [Add(u)] + [BufferOp.Flush]).out| ==
            |CutUp(words, maxdata, ops + [Add(u)]).out| + 1
    ensures forall inbox :: Past(start, |CutUp(words, maxdata, ops + [Add(u)]).out|) == Some(inbox) ==>
              ReplyTo(start, words, maxdata, ops + [Add(u)] + [BufferOp.Flush]) == Answer(inbox, 1)
    ensures forall s: bytes :: [] + s == s
  {
    CutSnoc(words, maxdata, ops, Add(u));
    CutSnoc(words, maxdata, ops + [Add(u)], BufferOp.Flush);
  }

  lemma NextThrough(start: Inbox, words: nat, maxdata: nat, ops: seq<BufferOp>, u: Unit,
        plan: seq<BufferOp>, inbox: Inbox)
    requires Past(start, |CutUp(words, maxdata, ops).out|) == Some(inbox) && ops + [Add(u)] <= plan
    ensures var c := CutUp(words, maxdata, ops);
            var out := CutUp(words, maxdata, ops + [Add(u)]).out;
            if Fits(words, maxdata, |c.pending|, |u.data|) then Past(start, |out|) == Some(inbox)
            else
              && (Seek(inbox, {Adb.OKAY}).0.Some? ==> Past(start, |out|) == Some(Seek(inbox, {Adb.OKAY}).1))
              && (Seek(inbox, {Adb.OKAY}).0.None? ==> ReplyTo(start, words, maxdata, plan).None?)
  {
    CutSnoc(words, maxdata, ops, Add(u));
    OutGrows(words, maxdata, ops + [Add(u)], plan);
    var out := CutUp(words, maxdata, ops + [Add(u)]).out;
    if Past(start, |out|).None? {
      PastNone(start, |out|, |CutUp(words, maxdata, plan).out|);
    }
  }

  /** What the loop of `_pull` writes to the local file. */
  method WriteData(frames: seq<Frame>) returns (file: bytes)
    requires forall f | f in frames :: f.data.Some?
    ensures file == Join(Datas(frames, DATA))
  {
    file := [];
    for i := 0 to |frames|
      invariant file == Join(Datas(frames[..i], DATA))
    {
      assert frames[..i + 1][..i] == frames[..i];
      if frames[i].id == DATA {
        JoinSnoc(Datas(frames[..i], DATA), frames[i].data.value);
        file := file + frames[i].data.value;
      } else {
        assert Datas(frames[..i + 1], DATA) == Datas(frames[..i], DATA);
      }
    }
    assert frames[..|frames|] == frames;
  }

  /** What the loop of `list` collects. */
  method CollectFiles(frames: seq<Frame>) returns (files: seq<DeviceFile>)
    requires forall f | f in frames :: f.data.Some? && |f.fields| == 3
    ensures files == Files(frames)
  {
    files := [];
    for i := 0 to |frames|
      invariant files == Files(frames[..i])
    {
      assert frames[..i + 1][..i] == frames[..i];
      if frames[i].id == DENT {
        files := files + [FileOf(frames[i])];
      }
    }
    assert frames[..|frames|] == frames;
  }

  /** The answer to what is in `ops`, after as many OKAYs as it takes WRTEs. */
  function ReplyTo(inbox: Inbox, words: nat, maxdata: nat, ops: seq<BufferOp>): Option<bytes> {
    Answer(inbox, |CutUp(words, maxdata, ops).out|)
  }

  lemma AskedFor(inbox: Inbox, words: nat, maxdata: nat, u: Unit)
    ensures var fits := Fits(words, maxdata, 0, |u.data|);
            && CutUp(words, maxdata, []) == Cut([], [])
            && ReplyTo(inbox, words, maxdata, [Add(u), BufferOp.Flush]) == Answer(inbox, if fits then 1 else 2)
            && (forall s: bytes :: [] + s == s)
            && (!fits ==>
                  var (okay, rest) := Seek(inbox, {Adb.OKAY});
                  Answer(inbox, 2) == if okay.None? then None else Answer(rest, 1))
  {
    AskedCut(words, maxdata, u);
    SecondOkay(inbox);
  }

  lemma AskedCut(words: nat, maxdata: nat, u: Unit)
    ensures |CutUp(words, maxdata, [Add(u), BufferOp.Flush]).out| == if Fits(words, maxdata, 0, |u.data|) then 1 else 2
  {
    CutSnoc(words, maxdata, [], Add(u));
    CutSnoc(words, maxdata, [Add(u)], BufferOp.Flush);
    assert [] + [Add(u)] == [Add(u)] && [Add(u)] + [BufferOp.Flush] == [Add(u), BufferOp.Flush];
  }

  lemma SecondOkay(inbox: Inbox)
    ensures var (okay, rest) := Seek(inbox, {Adb.OKAY});
            Answer(inbox, 2) == if okay.None? then None else Answer(rest, 1)
  {
    var (okay, rest) := Seek(inbox, {Adb.OKAY});
    assert Past(inbox, 0) == Some(inbox) && Past(rest, 0) == Some(rest);
    assert Past(inbox, 1) == if okay.None? then None else Some(rest);
  }

  lemma SplitFront(buffer: bytes, more: bytes, size: nat)
    requires size <= |buffer|
    ensures (buffer + more)[..size] == buffer[..size]
    ensures (buffer + more)[size..] == buffer[size..] + more
  {
  }

  lemma Consumed(consumed: bytes, buffer: bytes, size: nat)
    requires size <= |buffer|
    ensures consumed + buffer == (consumed + buffer[..size]) + buffer[size..]
  {
  }

  /** The history after `read` of a WRTE, and the OKAY for it. */
  function ReadOnce(h: History, inbox: Inbox): History {
    var heard := h + Hears(inbox, {Adb.WRTE});
    if Seek(inbox, {Adb.WRTE}).0.Some? then heard + [Sent(Adb.OKAY, [])] else heard
  }

  lemma OkaySelect(h: History)
    ensures Select(h + [Sent(Adb.OKAY, [])], WriteOut) == Select(h, WriteOut)
    ensures Select(h + [Sent(Adb.OKAY, [])], WriteIn) == Select(h, WriteIn)
  {
    SelectAppend(h, [Sent(Adb.OKAY, [])], WriteOut);
    SelectAppend(h, [Sent(Adb.OKAY, [])], WriteIn);
  }

  /** Hearing it puts the data of the WRTE, if any, into the history. */
  lemma HeardWrite(h: History, inbox: Inbox)
    ensures var r, heard := Seek(inbox, {Adb.WRTE}).0, h + Hears(inbox, {Adb.WRTE});
            && Select(heard, WriteOut) == Select(h, WriteOut)
            && Select(heard, WriteIn) == Select(h, WriteIn) + (if r.Some? then [r.value.data] else [])
  {
    var heard := Hears(inbox, {Adb.WRTE});
    HearsSelect(inbox, {Adb.WRTE});
    SelectAppend(h, heard, WriteOut);
    SelectAppend(h, heard, WriteIn);
    assert Select(h, WriteOut) + [] == Select(h, WriteOut);
  }

  lemma ReadHistory(h: History, inbox: Inbox)
    ensures Select(ReadOnce(h, inbox), WriteOut) == Select(h, WriteOut)
    ensures var r := Seek(inbox, {Adb.WRTE}).0;
            Join(Select(ReadOnce(h, inbox), WriteIn)) ==
            Join(Select(h, WriteIn)) + (if r.Some? then r.value.data else [])
  {
    var r, before := Seek(inbox, {Adb.WRTE}).0, Select(h, WriteIn);
    HeardWrite(h, inbox);
    OkaySelect(h + Hears(inbox, {Adb.WRTE}));
    if r.Some? {
      JoinSnoc(before, r.value.data);
    } else {
      assert before + [] == before && Join(before) + [] == Join(before);
    }
  }

  lemma Gathered(buffer: bytes, data: bytes, more: bytes, consumed: bytes)
    ensures buffer + (data + more) == (buffer + data) + more
    ensures consumed + (buffer + data) == (consumed + buffer) + data
    ensures (consumed + buffer) + [] == consumed + buffer
  {
  }

  lemma NoMore(p: Parsed)
    ensures ParsedMore([], p) == p
  {
    assert [] + p.frames == p.frames;
  }

  lemma MoreStep(words: nat, expected: set<Id>, finish: set<Id>, s: bytes, frames: seq<Frame>)
    requires words >= 2
    ensures var whole := ParsedMore(frames, ParseUntil(words, expected, finish, s));
            match ParseOne(words, expected + finish, s)
            case (Err(e), _) => whole.frames == frames && whole.failure == Some(e)
            case (Ok(f), rest) =>
              if f.id in finish then whole.frames == frames + [f] && whole.failure.None?
              else whole == ParsedMore(frames + [f], ParseUntil(words, expected, finish, rest))
  {
    var (one, rest) := ParseOne(words, expected + finish, s);
    if one.Ok? {
      ParseStep(words, expected, finish, one.value, s, rest);
      var more := ParseUntil(words, expected, finish, rest);
      assert frames + ([one.value] + more.frames) == (frames + [one.value]) + more.frames;
    } else {
      assert frames + [] == frames;
    }
  }

  /** The cutting after one more packet, and what it does to the length of the buffer. */
  lemma Grown(words: nat, maxdata: nat, ops: seq<BufferOp>, u: Unit)
    requires words >= 2
    ensures CutUp(words, maxdata, ops + [Add(u)]) == CutMore(words, maxdata, CutUp(words, maxdata, ops), Add(u))
    ensures (forall op | op in ops + [Add(u)] :: Small(maxdata, op)) ==>
              && (forall op | op in ops :: Small(maxdata, op))
              && |CutUp(words, maxdata, ops + [Add(u)]).pending| < maxdata
  {
    CutSnoc(words, maxdata, ops, Add(u));
    assert Add(u) in ops + [Add(u)];
    forall op | op in ops ensures op in ops + [Add(u)] {}
    if (forall op | op in ops + [Add(u)] :: Small(maxdata, op)) {
      assert Small(maxdata, Add(u));
      SendBufferBound(words, maxdata, ops + [Add(u)]);
    }
  }
}
