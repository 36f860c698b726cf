/** Runs in which a stream that is open does not get its CLSE. */
module DemuxRuns {
  import opened Bytes
  import opened AdbMessage
  import opened Stores
  import opened Ledgers
  import opened Demux
  import opened DemuxSafety
  import DS = DemuxStreams

  lemma Step(s: Sys, t: Tid, a: Action, pc: Pc, led: Ledger) returns (s': Sys)
    requires Reachable(s) && t in s.pcs && LockFree(s, s.pcs[t], a)
    requires Move(s.pcs[t], a, s.led, s.line).Some?
    requires Move(s.pcs[t], a, s.led, s.line).value.pc == pc && Move(s.pcs[t], a, s.led, s.line).value.led == led
    ensures Reachable(s') && s'.pcs == s.pcs[t := pc] && s'.led == led
    ensures s'.tLock == Held(s.tLock, t, pc.HoldsT()) && s'.sLock == Held(s.sLock, t, pc.HoldsS())
  {
    s' := Next(s, t, a).value;
    var threads, run :| Exec(Init(threads), run) == Some(s);
    ExecAppend(Init(threads), run, [(t, a)]);
    assert Exec(s', []) == Some(s');
  }

  /** No thread has a lock. */
  predicate Free(s: Sys) {
    s.tLock.None? && s.sLock.None?
  }

  lemma AtFirst(s: Sys, t: Tid, op: Op) returns (s': Sys)
    requires Reachable(s) && t in s.pcs && s.pcs[t] == Idle && Free(s) && op.info.localId.Some?
    ensures Reachable(s') && s'.pcs == s.pcs[t := FirstDrain(op)] && s'.led == s.led
    ensures s'.tLock.None? && s'.sLock == Some(t)
  {
    s' := Step(s, t, BeginRead(op), FirstWant(op), s.led);
    s' := Step(s', t, Acquire, FirstDrain(op), s.led);
  }

  lemma AtStart(threads: set<Tid>) returns (s: Sys)
    ensures Reachable(s) && s.pcs == (map t | t in threads :: Idle)
    ensures Free(s) && s.led.store == map[] && s.led.past == []
  {
    s := Init(threads);
    assert Exec(s, []) == Some(s);
  }

  /** With nothing for it in the store, a reader comes to its loop. */
  lemma AtLoop(s: Sys, t: Tid, op: Op) returns (s': Sys)
    requires Reachable(s) && t in s.pcs && s.pcs[t] == Idle && Free(s) && NothingFor(s.led, op) && op.info.localId.Some?
    ensures Reachable(s') && s'.pcs == s.pcs[t := LoopWant(op)] && s'.led == s.led && Free(s')
  {
    s' := AtFirst(s, t, op);
    s' := Step(s', t, Drained, LoopWant(op), s.led);
  }

  lemma AtAgain(s: Sys, t: Tid, op: Op) returns (s': Sys)
    requires Reachable(s) && t in s.pcs && s.pcs[t] == Idle && Free(s) && NothingFor(s.led, op) && op.info.localId.Some?
    ensures Reachable(s') && s'.pcs == s.pcs[t := AgainDrain(op)] && s'.led == s.led
    ensures s'.tLock == Some(t) && s'.sLock == Some(t)
  {
    s' := AtLoop(s, t, op);
    s' := Step(s', t, Acquire, AgainWant(op), s.led);
    s' := Step(s', t, Acquire, AgainDrain(op), s.led);
  }

  /** And from there to the wire. */
  lemma AtHeader(s: Sys, t: Tid, op: Op) returns (s': Sys)
    requires Reachable(s) && t in s.pcs && s.pcs[t] == Idle && Free(s) && NothingFor(s.led, op) && op.info.localId.Some?
    ensures Reachable(s') && s'.pcs == s.pcs[t := Head(op)] && s'.led == s.led
    ensures s'.tLock == Some(t) && s'.sLock.None?
  {
    s' := AtAgain(s, t, op);
    s' := Step(s', t, Drained, Head(op), s.led);
  }

  lemma HeaderMove(op: Op, m: Message, led: Ledger, line: Line)
    requires m.data == [] && (op.Wants(KeyOf(m)) ==> m.cmd != CLSE)
    ensures var p := Packet(|led.past|, m);
            Move(Head(op), Action.Header(m), led, line) ==
            Some(Effect(if op.Wants(KeyOf(m)) then Judging(op, p) else PutWant(op, p),
                 Arrive(led, m), PacketTaken(line, m)))
  {
    assert MoveHeader(Head(op), m, led, line).Some?;
  }

  lemma TakesHeader(s: Sys, t: Tid, op: Op, m: Message) returns (s': Sys)
    requires Reachable(s) && t in s.pcs && s.pcs[t] == Head(op) && s.tLock == Some(t) && s.sLock.None?
    requires m.data == [] && (op.Wants(KeyOf(m)) ==> m.cmd != CLSE)
    ensures var p := Packet(|s.led.past|, m);
            && Reachable(s') && s'.pcs == s.pcs[t := if op.Wants(KeyOf(m)) then Judging(op, p) else PutWant(op, p)]
            && s'.led == Arrive(s.led, m) && s'.tLock == Some(t) && s'.sLock.None?
  {
    var p := Packet(|s.led.past|, m);
    HeaderMove(op, m, s.led, s.line);
    s' := Step(s, t, Action.Header(m), if op.Wants(KeyOf(m)) then Judging(op, p) else PutWant(op, p), Arrive(s.led, m));
  }

  lemma TakesStoreLock(s: Sys, t: Tid, op: Op, p: Packet) returns (s': Sys)
    requires Reachable(s) && t in s.pcs && s.pcs[t] == PutWant(op, p) && s.tLock == Some(t) && s.sLock.None?
    ensures Reachable(s') && s'.pcs == s.pcs[t := Putting(op, p)] && s'.led == s.led
    ensures s'.tLock == Some(t) && s'.sLock == Some(t)
  {
    s' := Step(s, t, Acquire, Putting(op, p), s.led);
  }

  lemma PutsAway(s: Sys, t: Tid, op: Op, p: Packet) returns (s': Sys)
    requires Reachable(s) && t in s.pcs && s.pcs[t] == Putting(op, p) && s.tLock == Some(t) && s.sLock == Some(t)
    ensures Reachable(s') && s'.pcs == s.pcs[t := TimeCheck(op)] && s'.led == Put(s.led, p) && Free(s')
  {
    assert MoveRead(Putting(op, p), PutIt, s.led, s.line).Some?;
    s' := Step(s, t, PutIt, TimeCheck(op), Put(s.led, p));
  }

  lemma Judges(s: Sys, t: Tid, op: Op, p: Packet) returns (s': Sys)
    requires Reachable(s) && t in s.pcs && s.pcs[t] == Judging(op, p) && p.msg.cmd in op.expected
    requires s.tLock == Some(t) && s.sLock.None?
    ensures Reachable(s') && s'.pcs == s.pcs[t := Idle] && s'.led == Judge(s.led, p, op) && Free(s')
  {
    assert MoveRead(Judging(op, p), JudgeIt, s.led, s.line).Some?;
    s' := Step(s, t, JudgeIt, Idle, Judge(s.led, p, op));
  }

  /** A packet without data comes off the wire. */
  lemma AtPacket(s: Sys, t: Tid, op: Op, m: Message) returns (s': Sys)
    requires Reachable(s) && t in s.pcs && s.pcs[t] == Idle && Free(s) && NothingFor(s.led, op)
    requires op.info.localId.Some? && m.data == [] && (op.Wants(KeyOf(m)) ==> m.cmd != CLSE)
    ensures var p := Packet(|s.led.past|, m);
            && Reachable(s') && s'.pcs == s.pcs[t := if op.Wants(KeyOf(m)) then Judging(op, p) else PutWant(op, p)]
            && s'.led == Arrive(s.led, m) && s'.tLock == Some(t) && s'.sLock.None?
  {
    s' := AtHeader(s, t, op);
    s' := TakesHeader(s', t, op, m);
  }

  /** A thread opens a stream: its OKAY is the first packet of all. */
  lemma AtOpened(s: Sys, op: Op, okay: Message) returns (s': Sys)
    requires Reachable(s) && 0 in s.pcs && s.pcs[0] == Idle && Free(s) && s.led.store == map[] && s.led.past == []
    requires op.info.localId.Some? && op.Wants(KeyOf(okay))
    requires okay.cmd == OKAY && OKAY in op.expected && okay.data == []
    ensures Reachable(s') && s'.pcs == s.pcs && Free(s') && s'.led.store == map[]
    ensures |s'.led.past| == 1 && s'.led.past[0].msg == okay && s'.led.past[0].fate == Returned(op)
  {
    s' := AtPacket(s, 0, op, okay);
    s' := Judges(s', 0, op, Packet(0, okay));
    assert Arrive(s.led, okay).past == [Record(okay, s.led.epoch, InHand)];
  }

  /** Another thread reads a packet that is not for it and puts it away. */
  lemma AtPut(s: Sys, t: Tid, op: Op, m: Message) returns (s': Sys)
    requires Reachable(s) && t in s.pcs && s.pcs[t] == Idle && Free(s) && NothingFor(s.led, op)
    requires op.info.localId.Some? && !op.Wants(KeyOf(m)) && m.data == []
    ensures Reachable(s') && s'.pcs == s.pcs[t := TimeCheck(op)] && Free(s')
    ensures s'.led == Put(Arrive(s.led, m), Packet(|s.led.past|, m))
  {
    var p := Packet(|s.led.past|, m);
    s' := AtPacket(s, t, op, m);
    s' := TakesStoreLock(s', t, op, p);
    s' := PutsAway(s', t, op, p);
  }

  /** A CLSE that has no entry is dropped. */
  lemma AtLost(s: Sys, t: Tid, op: Op, m: Message) returns (s': Sys)
    requires Reachable(s) && t in s.pcs && s.pcs[t] == Idle && Free(s) && s.led.store == map[]
    requires op.info.localId.Some? && !op.Wants(KeyOf(m)) && m.cmd == CLSE && m.data == []
    ensures Reachable(s') && s'.pcs == s.pcs[t := TimeCheck(op)]
    ensures s'.led.past == s.led.past + [Record(m, s.led.epoch, NoEntry)]
  {
    s' := AtPut(s, t, op, m);
    assert s'.led.past == s.led.past + [Record(m, s.led.epoch, NoEntry)];
  }

  /** The packets `q` wait under a key, and nothing else does. */
  predicate Waits(l: Ledger, k: Key, q: seq<Packet>) {
    l.store == if q == [] then map[] else map[k := q]
  }

  lemma PutLedger(l: Ledger, m: Message, q: seq<Packet>)
    requires Waits(l, KeyOf(m), q) && (m.cmd != CLSE || q != [])
    ensures var p := Packet(|l.past|, m);
            && Waits(Put(Arrive(l, m), p), KeyOf(m), q + [p])
            && Put(Arrive(l, m), p).past == l.past + [Record(m, l.epoch, Queued)]
  {
    assert Queue(l.store, KeyOf(m)) == q;
  }

  /** Any other packet is stored; then that call's time is up. */
  lemma AtStored(s: Sys, t: Tid, op: Op, m: Message, q: seq<Packet>) returns (s': Sys)
    requires Reachable(s) && t in s.pcs && s.pcs[t] == Idle && Free(s) && Waits(s.led, KeyOf(m), q)
    requires op.info.localId.Some? && !op.Wants(KeyOf(m)) && m.data == [] && (m.cmd != CLSE || q != [])
    ensures Reachable(s') && s'.pcs == s.pcs && Free(s')
    ensures Waits(s'.led, KeyOf(m), q + [Packet(|s.led.past|, m)])
    ensures s'.led.past == s.led.past + [Record(m, s.led.epoch, Queued)]
  {
    PutLedger(s.led, m, q);
    s' := AtPut(s, t, op, m);
    assert MoveRead(TimeCheck(op), TimeUp, s'.led, s'.line).Some?;
    s' := Step(s', t, TimeUp, Idle, s'.led);
  }

  lemma AtWaiting(opening: Op, until: Op, okay: Message) returns (s: Sys)
    requires opening.info.localId.Some? && until.info.localId.Some?
    requires opening.Wants(KeyOf(okay)) && okay.cmd == OKAY && OKAY in opening.expected && okay.data == []
    ensures Reachable(s) && s.pcs.Keys == {0, 1} && s.pcs[0] == LoopWant(until) && s.pcs[1] == Idle && Free(s)
    ensures s.led.store == map[] && |s.led.past| == 1
    ensures s.led.past[0].msg == okay && s.led.past[0].fate == Returned(opening)
  {
    s := AtStart({0, 1});
    s := AtOpened(s, opening, okay);
    s := AtLoop(s, 0, until);
  }

  /** Thread 0 opens a stream and goes on to read from it; then thread 1 reads a CLSE that is not for it. */
  lemma AtBoth(opening: Op, until: Op, other: Op, okay: Message, close: Message) returns (s: Sys)
    requires opening.info.localId.Some? && until.info.localId.Some? && other.info.localId.Some?
    requires opening.Wants(KeyOf(okay)) && okay.cmd == OKAY && OKAY in opening.expected && okay.data == []
    requires !other.Wants(KeyOf(close)) && close.cmd == CLSE && close.data == []
    ensures Reachable(s) && s.pcs.Keys == {0, 1} && s.pcs[0] == LoopWant(until)
    ensures |s.led.past| == 2 && s.led.past[0].msg == okay && s.led.past[0].fate == Returned(opening)
    ensures s.led.past[1].msg == close && s.led.past[1].fate == NoEntry
  {
    s := AtWaiting(opening, until, okay);
    s := AtLost(s, 1, other, close);
  }

  /**
   Thread 0 has opened a stream, its OKAY having come straight off the wire, and is waiting in
   `read` for the stream's WRTE and CLSE.  Thread 1, reading for another stream, has read that CLSE, and
   it is gone.
   */
  lemma CloseCanBeLost() returns (s: Sys)
    ensures Reachable(s) && s.pcs.Keys == {0, 1}
    ensures s.pcs[0] == LoopWant(DS.StreamOp(1, 5, {CLSE, WRTE})) && |s.led.past| == 2
    ensures s.led.past[0].msg == Message(OKAY, 5, 1, [])
    ensures s.led.past[0].fate == Returned(DS.OpenOp(1))
    ensures s.led.past[1].msg == Message(CLSE, 5, 1, []) && s.led.past[1].fate == NoEntry
  {
    var until, other := DS.StreamOp(1, 5, {CLSE, WRTE}), DS.StreamOp(2, 6, {CLSE, WRTE});
    s := AtBoth(DS.OpenOp(1), until, other, Message(OKAY, 5, 1, []), Message(CLSE, 5, 1, []));
  }

  // ---- Runs in which its CLSE is there, but is not returned

  /** A thread that drains the store drops the oldest packet of a key, or keeps it. */
  lemma AtTaken(s: Sys, t: Tid, op: Op, k: Key) returns (s': Sys)
    requires Reachable(s) && t in s.pcs && s.pcs[t] == FirstDrain(op) && s.sLock == Some(t) && s.tLock.None?
    requires MayTake(s.led, op, k) && s.led.store[k][0].msg.cmd !in op.expected
    ensures Reachable(s') && s'.pcs == s.pcs && s'.sLock == Some(t) && s'.tLock.None?
    ensures s'.led == Take(s.led, k, op) && |s'.led.past| == |s.led.past|
    ensures forall i | 0 <= i < |s.led.past| :: s'.led.past[i] == AfterTake(s.led, k, op, i)
  {
    ReachableSafe(s);
    assert QueueOk(s.led, k);
    forall i | 0 <= i < |s.led.past| ensures Take(s.led, k, op).past[i] == AfterTake(s.led, k, op, i) {
      TakeEffect(s.led, Hand(Owner(s)), k, op, i);
    }
    assert MoveGet(s.pcs[t], k, s.led, s.line).Some?;
    s' := Step(s, t, Get(k), FirstDrain(op), Take(s.led, k, op));
  }

  predicate Now(l: Ledger, i: nat, m: Message, f: Fate) {
    i < |l.past| && l.past[i].msg == m && l.past[i].fate == f
  }

  /** Thread 1 reads two CLSEs that are not for it, where a packet of their key is in the store. */
  lemma AtStoredCloses(s: Sys, op: Op, p: Packet, close: Message) returns (s': Sys)
    requires Reachable(s) && 1 in s.pcs && s.pcs[1] == Idle && Free(s) && |s.led.past| == 2
    requires Waits(s.led, KeyOf(close), [p])
    requires op.info.localId.Some? && !op.Wants(KeyOf(close)) && close.data == []
    ensures Reachable(s') && s'.pcs == s.pcs && Free(s') && |s'.led.past| == 4 && s'.led.past[..2] == s.led.past
    ensures Waits(s'.led, KeyOf(close), [p, Packet(2, close), Packet(3, close)])
    ensures Now(s'.led, 2, close, Queued) && Now(s'.led, 3, close, Queued)
  {
    var q, r := Packet(2, close), Packet(3, close);
    s' := AtStored(s, 1, op, close, [p]);
    assert [p] + [q] == [p, q];
    s' := AtStored(s', 1, op, close, [p, q]);
    assert [p, q] + [r] == [p, q, r];
  }

  /** And the WRTE before them. */
  lemma AtStoredAll(s: Sys, op: Op, write: Message, close: Message) returns (s': Sys)
    requires Reachable(s) && 1 in s.pcs && s.pcs[1] == Idle && Free(s) && s.led.store == map[] && |s.led.past| == 1
    requires op.info.localId.Some? && !op.Wants(KeyOf(close)) && KeyOf(write) == KeyOf(close)
    requires write.cmd == WRTE && write.data == close.data == []
    ensures Reachable(s') && s'.pcs == s.pcs && Free(s') && |s'.led.past| == 4 && s'.led.past[0] == s.led.past[0]
    ensures Waits(s'.led, KeyOf(close), [Packet(1, write), Packet(2, close), Packet(3, close)])
    ensures Now(s'.led, 1, write, Queued) && Now(s'.led, 2, close, Queued) && Now(s'.led, 3, close, Queued)
  {
    var p := Packet(1, write);
    var s1 := AtStored(s, 1, op, write, []);
    assert [] + [p] == [p];
    s' := AtStoredCloses(s1, op, p, close);
    assert s'.led.past[..2][0] == s1.led.past[0] && s'.led.past[..2][1] == s1.led.past[1];
  }

  /** A read that expects neither drains them: the WRTE and the first CLSE are dropped. */
  lemma AtDrained(s: Sys, op: Op, write: Message, close: Message) returns (s': Sys)
    requires Reachable(s) && 0 in s.pcs && s.pcs[0] == FirstDrain(op) && s.sLock == Some(0) && s.tLock.None?
    requires op.info == TransactionInfo(Some(close.arg1), Some(close.arg0)) && KeyOf(write) == KeyOf(close)
    requires write.cmd !in op.expected && close.cmd !in op.expected && write.cmd == WRTE && close.cmd == CLSE
    requires Waits(s.led, KeyOf(close), [Packet(1, write), Packet(2, close), Packet(3, close)])
    requires |s.led.past| == 4 && Now(s.led, 1, write, Queued) && Now(s.led, 2, close, Queued)
    requires Now(s.led, 3, close, Queued)
    ensures Reachable(s') && s'.pcs == s.pcs && |s'.led.past| == 4 && s'.led.past[0].msg == s.led.past[0].msg
    ensures !s.led.past[0].fate.Queued? ==> s'.led.past[0].fate == s.led.past[0].fate
    ensures Now(s'.led, 1, write, Discarded(op)) && Now(s'.led, 2, close, Discarded(op))
    ensures Now(s'.led, 3, close, Behind(2))
  {
    var k := KeyOf(close);
    Takes(s.led, op, k);
    s' := AtTaken(s, 0, op, k);
    assert Waits(s'.led, k, [Packet(2, close), Packet(3, close)]);
    Takes(s'.led, op, k);
    s' := AtTaken(s', 0, op, k);
  }

  lemma Takes(l: Ledger, op: Op, k: Key)
    requires op.info == TransactionInfo(Some(k.arg1), Some(k.arg0)) && Queue(l.store, k) != []
    ensures MayTake(l, op, k)
  {
    if op.allowZeros {
      assert HitsFirst(l.store, Some(k.arg0), Some(k.arg1), 0, k);
    }
  }

  /** Thread 0 opens a stream; thread 1 puts those packets of it away. */
  lemma AtAwaited(opening: Op, other: Op, okay: Message, write: Message, close: Message) returns (s: Sys)
    requires opening.info.localId.Some? && other.info.localId.Some?
    requires opening.Wants(KeyOf(okay)) && okay.cmd == OKAY && OKAY in opening.expected && okay.data == []
    requires KeyOf(write) == KeyOf(close) && !other.Wants(KeyOf(close)) && write.data == close.data == []
    requires write.cmd == WRTE
    ensures Reachable(s) && s.pcs == map[0 := Idle, 1 := Idle] && Free(s) && |s.led.past| == 4
    ensures Waits(s.led, KeyOf(close), [Packet(1, write), Packet(2, close), Packet(3, close)])
    ensures Now(s.led, 0, okay, Returned(opening)) && Now(s.led, 1, write, Queued)
    ensures Now(s.led, 2, close, Queued) && Now(s.led, 3, close, Queued)
  {
    s := AtStart({0, 1});
    s := AtOpened(s, opening, okay);
    s := AtStoredAll(s, other, write, close);
  }

  /** Then thread 0 reads, expecting none of them. */
  lemma AtDropped(opening: Op, op: Op, other: Op, okay: Message, write: Message, close: Message) returns (s: Sys)
    requires opening.info.localId.Some? && other.info.localId.Some?
    requires opening.Wants(KeyOf(okay)) && okay.cmd == OKAY && OKAY in opening.expected && okay.data == []
    requires op.info == TransactionInfo(Some(close.arg1), Some(close.arg0)) && KeyOf(write) == KeyOf(close)
    requires !other.Wants(KeyOf(close)) && write.data == close.data == []
    requires write.cmd !in op.expected && close.cmd !in op.expected && write.cmd == WRTE && close.cmd == CLSE
    ensures Reachable(s) && s.pcs.Keys == {0, 1} && |s.led.past| == 4 && s.pcs[0] == FirstDrain(op)
    ensures Now(s.led, 0, okay, Returned(opening)) && Now(s.led, 1, write, Discarded(op))
    ensures Now(s.led, 2, close, Discarded(op)) && Now(s.led, 3, close, Behind(2))
  {
    s := AtAwaited(opening, other, okay, write, close);
    s := AtFirst(s, 0, op);
    s := AtDrained(s, op, write, close);
  }

  /**
   Thread 0 has opened a stream.  Its WRTE and two CLSEs were read by thread 1 and are in the store.  Now thread
   0 waits for an OKAY, as `_filesync_flush` does: the WRTE and the first CLSE are dropped, and the second
   CLSE goes with the first.
   */
  lemma CloseCanBeDropped() returns (s: Sys)
    ensures Reachable(s) && s.pcs.Keys == {0, 1} && |s.led.past| == 4
    ensures var flush := DS.StreamOp(1, 5, {OKAY});
            && s.pcs[0] == FirstDrain(flush)
            && Now(s.led, 0, Message(OKAY, 5, 1, []), Returned(DS.OpenOp(1)))
            && Now(s.led, 1, Message(WRTE, 5, 1, []), Discarded(flush))
            && Now(s.led, 2, Message(CLSE, 5, 1, []), Discarded(flush))
            && Now(s.led, 3, Message(CLSE, 5, 1, []), Behind(2))
  {
    var flush, other := DS.StreamOp(1, 5, {OKAY}), DS.StreamOp(2, 6, {CLSE, WRTE});
    s := AtDropped(DS.OpenOp(1), flush, other,
                   Message(OKAY, 5, 1, []), Message(WRTE, 5, 1, []), Message(CLSE, 5, 1, []));
  }
}
