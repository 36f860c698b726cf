/** Properties of every reachable state of the demultiplexer, for any threads and any interleaving. */
module DemuxTheorems {
  import opened Bytes
  import opened AdbMessage
  import opened Stores
  import opened Ledgers
  import opened Demux
  import opened DemuxSafety
  import Wire

  // ---- Conservation

  predicate InStore(s: Sys, i: nat)
    requires i < |s.led.past|
  {
    Packet(i, s.led.past[i].msg) in Queue(s.led.store, KeyOf(s.led.past[i].msg))
  }

  predicate InHands(s: Sys, t: Tid, i: nat) {
    t in s.pcs && s.pcs[t].Carrying() && s.pcs[t].p.id == i
  }

  /** The one fate of each packet says truly where it is: in the store, with a thread, or with a reader. */
  lemma Conservation(s: Sys, i: nat)
    requires Reachable(s) && i < |s.led.past|
    ensures var r := s.led.past[i];
            && (r.fate.Queued? <==> InStore(s, i))
            && (r.fate.InHand? <==> exists t :: InHands(s, t, i))
            && (r.fate.Consumed() <==> i in s.led.log)
            && (r.fate.Returned? ==> r.fate.op.Wants(KeyOf(r.msg)) && r.msg.cmd in r.fate.op.expected)
            && (r.fate.Discarded? ==> r.fate.op.Wants(KeyOf(r.msg)) && r.msg.cmd !in r.fate.op.expected)
            && (r.fate.NoEntry? ==> r.msg.cmd == CLSE)
            && (r.fate.Behind? ==>
                  var c := r.fate.close;
                  c < i && s.led.past[c].msg.cmd == CLSE && c in s.led.log && KeyOf(s.led.past[c].msg) == KeyOf(r.msg))
            && !r.fate.Cleared?
  {
    ReachableSafe(s);
    var o := Owner(s);
    assert RecordOk(s.led, Hand(o), i);
    assert QueueOk(s.led, KeyOf(s.led.past[i].msg));
    if s.led.past[i].fate.Behind? {
      assert RecordOk(s.led, Hand(o), s.led.past[i].fate.close);
    }
    if s.led.past[i].fate.InHand? {
      assert InHands(s, s.tLock.value, i);
    }
    forall t: Tid | InHands(s, t, i)
      ensures s.led.past[i].fate.InHand?
    {
      assert s.tLock == Some(t);
    }
  }

  /** Conversely, nothing is in two places: the store and the log hold each packet at most once. */
  lemma NoDuplicates(s: Sys)
    requires Reachable(s)
    ensures forall i, j | 0 <= i < j < |s.led.log| :: s.led.log[i] != s.led.log[j]
    ensures forall k, p | p in Queue(s.led.store, k) ::
              p.id < |s.led.past| && s.led.past[p.id].msg == p.msg && KeyOf(p.msg) == k
    ensures forall k :: var q := Queue(s.led.store, k);
              forall i, j | 0 <= i < j < |q| :: q[i] != q[j]
    ensures forall t, u, i :: InHands(s, t, i) && InHands(s, u, i) ==> t == u
  {
    ReachableSafe(s);
    forall k, p | p in Queue(s.led.store, k)
      ensures p.id < |s.led.past| && s.led.past[p.id].msg == p.msg && KeyOf(p.msg) == k
    {
      assert QueueOk(s.led, k);
    }
    forall k
      ensures var q := Queue(s.led.store, k); forall i, j | 0 <= i < j < |q| :: q[i] != q[j]
    {
      assert QueueOk(s.led, k);
    }
  }

  /** Packets of one key are consumed in the order of arrival, and those still queued are newer. */
  lemma PerKeyFifo(s: Sys)
    requires Reachable(s)
    ensures forall i | 0 <= i < |s.led.log| :: s.led.log[i] < |s.led.past|
    ensures forall i, j | 0 <= i < j < |s.led.log| ::
              KeyOf(s.led.past[s.led.log[i]].msg) == KeyOf(s.led.past[s.led.log[j]].msg) ==> s.led.log[i] < s.led.log[j]
    ensures forall i, k, p | 0 <= i < |s.led.log| && p in Queue(s.led.store, k) ::
              KeyOf(s.led.past[s.led.log[i]].msg) == k ==> s.led.log[i] < p.id
  {
    ReachableSafe(s);
    forall i, k, p | 0 <= i < |s.led.log| && p in Queue(s.led.store, k) && KeyOf(s.led.past[s.led.log[i]].msg) == k
      ensures s.led.log[i] < p.id
    {
      assert QueueOk(s.led, k);
      ConsumedBefore(s.led, Hand(Owner(s)), p.id);
    }
  }

  /** Nothing is skipped: when a packet has been consumed, no older one of its key is still to come. */
  lemma NothingOlderLeft(s: Sys, i: nat, c: nat)
    requires Reachable(s) && i < c < |s.led.past|
    requires s.led.past[c].fate.Consumed() && KeyOf(s.led.past[i].msg) == KeyOf(s.led.past[c].msg)
    ensures var f := s.led.past[i].fate;
            f.Consumed() || f.NoEntry? || f.Behind? || f.Wiped? || f.Greeting?
  {
    ReachableSafe(s);
    var hand := Hand(Owner(s));
    assert RecordOk(s.led, hand, i) && RecordOk(s.led, hand, c);
  }

  /** A CLSE for another stream is kept exactly when the store has an entry for that stream, if only an empty one. */
  lemma CloseKept(s: Sys, t: Tid)
    requires Reachable(s) && Next(s, t, PutIt).Some? && s.pcs[t].p.msg.cmd == CLSE
    ensures var s', p := Next(s, t, PutIt).value, s.pcs[t].p;
            && p.id < |s'.led.past|
            && (InStore(s', p.id) <==> KeyOf(p.msg) in s.led.store)
            && (s'.led.past[p.id].fate.NoEntry? <==> KeyOf(p.msg) !in s.led.store)
  {
    var p, k := s.pcs[t].p, KeyOf(s.pcs[t].p.msg);
    ReachableSafe(s);
    assert MoveRead(s.pcs[t], PutIt, s.led, s.line).Some?;
    if k in s.led.store {
      var queue := Queue(s.led.store, k) + [p];
      assert queue[|queue| - 1] == p;
    }
  }

  // ---- No overtaking

  /** While a matching packet goes straight from the wire to its reader, no match waits in the store. */
  lemma NoOvertaking(s: Sys, t: Tid, k: Key)
    requires Reachable(s) && t in s.pcs && s.pcs[t].Matched()
    ensures s.pcs[t].op.Wants(KeyOf(s.pcs[t].p.msg))
    ensures s.pcs[t].op.Wants(k) ==> Queue(s.led.store, k) == []
  {
    ReachableSafe(s);
  }

  /** So the `clear` for a CLSE straight off the wire deletes no packet, only an empty queue. */
  lemma ClearDeletesNothing(s: Sys, t: Tid)
    requires Reachable(s) && Next(s, t, ClearIt).Some?
    ensures Next(s, t, ClearIt).value.led.past == s.led.past
    ensures forall k :: Queue(Next(s, t, ClearIt).value.led.store, k) == Queue(s.led.store, k)
  {
    var pc := s.pcs[t];
    var k := KeyOf(pc.p.msg);
    NoOvertaking(s, t, k);
    ReachableSafe(s);
    forall i | 0 <= i < |s.led.past|
      ensures !(s.led.past[i].fate.Queued? && KeyOf(s.led.past[i].msg) == k)
    {
      assert RecordOk(s.led, Hand(pc), i);
    }
    assert Next(s, t, ClearIt).value.led.past == s.led.past;
  }

  // ---- Connection epochs

  lemma StoreIsOfThisConnection(s: Sys)
    requires Reachable(s)
    ensures forall k, p | p in Queue(s.led.store, k) ::
              p.id < |s.led.past| && s.led.past[p.id].epoch == s.led.epoch
  {
    ReachableSafe(s);
    forall k, p | p in Queue(s.led.store, k)
      ensures p.id < |s.led.past| && s.led.past[p.id].epoch == s.led.epoch
    {
      assert QueueOk(s.led, k);
      assert RecordOk(s.led, Hand(Owner(s)), p.id);
    }
  }

  /** `connect` or `close`, under the transport lock. */
  predicate Resetting(pc: Pc) {
    pc.Closing? || pc.WipeWant? || pc.Wiping? || pc.Shaking()
  }

  lemma LeavingMove(pc: Pc, a: Action, led: Ledger, line: Line)
    requires Move(pc, a, led, line).Some? && !Move(pc, a, led, line).value.pc.HoldsT()
    requires Resetting(pc) && (pc.Shaking() ==> led.store == map[])
    ensures Move(pc, a, led, line).value.led.store == if pc.Closing? then led.store else map[]
  {
  }

  /**
   When `close` or `connect` lets go of the transport lock, the store is empty; unless it is because
   closing the transport failed, and then the store is as it was.
   */
  lemma EmptyOnRelease(s: Sys, t: Tid, a: Action)
    requires Reachable(s) && Next(s, t, a).Some?
    requires Resetting(s.pcs[t]) && Next(s, t, a).value.tLock.None?
    ensures Next(s, t, a).value.led.store == if s.pcs[t].Closing? then s.led.store else map[]
  {
    ReachableSafe(s);
    StepLocks(s, t, a);
    LeavingMove(s.pcs[t], a, s.led, s.line);
  }

  // ---- Frames

  function PieceBytes(p: Piece): bytes
    requires !p.Junk? ==> Encodable(p.msg)
  {
    match p
    case HeaderOf(m) => Pack(m)
    case DataOf(m) => m.data
    case Junk(partial) => partial
  }

  function Render(pieces: seq<Piece>): bytes
    requires forall p | p in pieces :: !p.Junk? ==> Encodable(p.msg)
  {
    Written(pieces, PieceBytes)
  }

  lemma RenderFrame(m: Message)
    requires Encodable(m)
    ensures Written(FrameOf(m), PieceBytes) == Encode(m)
  {
    WrittenSnoc([], HeaderOf(m), PieceBytes);
    assert [] + [HeaderOf(m)] == [HeaderOf(m)];
    if m.data == [] {
      assert Pack(m) + m.data == Pack(m);
    } else {
      WrittenSnoc([HeaderOf(m)], DataOf(m), PieceBytes);
      assert [HeaderOf(m)] + [DataOf(m)] == FrameOf(m);
    }
  }

  lemma {:induction false} RenderFrames(ms: seq<Message>)
    requires forall m | m in ms :: Encodable(m)
    ensures forall p | p in Frames(ms) :: !p.Junk? && Encodable(p.msg)
    ensures Render(Frames(ms)) == EncodeAll(ms)
  {
    if ms == [] {
    } else {
      var rest, m := ms[..|ms| - 1], ms[|ms| - 1];
      RenderFrames(rest);
      RenderFrame(m);
      WrittenAppend(Frames(rest), FrameOf(m), PieceBytes);
    }
  }

  /** Whenever the transport lock is free and no write has failed, only whole messages are out. */
  lemma FrameAtomicity(s: Sys)
    requires Reachable(s) && s.tLock.None? && !s.line.torn
    ensures forall m | m in s.line.sent :: Encodable(m)
    ensures forall p | p in s.line.written :: !p.Junk? && Encodable(p.msg)
    ensures Render(s.line.written) == EncodeAll(s.line.sent)
  {
    ReachableSafe(s);
    RenderFrames(s.line.sent);
    assert s.line.written == Frames(s.line.sent);
  }

  /** The peer, reading those bytes however they arrive, reads the messages in the order of the sends. */
  lemma PeerReadsWhatWasSent(s: Sys, sc: Wire.Script)
    requires Reachable(s) && s.tLock.None? && !s.line.torn
    requires forall p | p in s.line.written :: !p.Junk? ==> Encodable(p.msg)
    requires Wire.Quiet(sc) && Wire.Content(sc) == Render(s.line.written)
    ensures Wire.ReadPackets(sc, |s.line.sent|).result == Ok(s.line.sent)
  {
    FrameAtomicity(s);
    assert Wire.Content(sc) + [] == EncodeAll(s.line.sent) + [];
    Wire.FragmentedRoundTrip(s.line.sent, sc, [], []);
  }

  // ---- No deadlock

  predicate WaitsFor(s: Sys, t: Tid, u: Tid) {
    && t in s.pcs
    && ((s.pcs[t].WantsT() && s.tLock == Some(u)) || (s.pcs[t].WantsS() && s.sLock == Some(u)))
  }

  /** A thread that is waited for by a waiting thread waits for nobody. */
  lemma WaitsAreShallow(s: Sys, t: Tid, u: Tid, v: Tid, w: Tid)
    requires Reachable(s)
    ensures !WaitsFor(s, t, u) || !WaitsFor(s, u, v) || !WaitsFor(s, v, w)
  {
    ReachableSafe(s);
  }

  function After(ring: seq<Tid>, i: nat): (j: nat)
    requires i < |ring|
    ensures j < |ring|
  {
    if i + 1 < |ring| then i + 1 else 0
  }

  /** No ring of threads waits for each other all the way round. */
  lemma NoCyclicWait(s: Sys, ring: seq<Tid>)
    requires Reachable(s) && ring != []
    ensures exists i | 0 <= i < |ring| :: !WaitsFor(s, ring[i], ring[After(ring, i)])
  {
    var i := After(ring, 0);
    var j := After(ring, i);
    WaitsAreShallow(s, ring[0], ring[i], ring[j], ring[After(ring, j)]);
  }

  /** Something a thread at `pc` can do, if it is not waiting for a lock. */
  ghost function Ready(led: Ledger, pc: Pc): Action {
    match pc
    case FirstDrain(op) => Draining(led, op)
    case AgainDrain(op) => Draining(led, op)
    case Head(_) => ReadFails
    case Body(_, _) => Rest
    case Putting(_, _) => PutIt
    case Clearing(_, _) => ClearIt
    case Judging(_, _) => JudgeIt
    case TimeCheck(_) => TimeUp
    case SendHead(_) => WriteFails([])
    case SendBody(_) => Write
    case Closing(_) => Close
    case Wiping(_) => WipeIt
    case Dialing => Connect
    case Shake => Finish
    case ShakeBody(_) => Rest
    case ShakeSend(_) => WriteFails([])
    case ShakeSendBody(_) => Write
    case _ => Acquire
  }

  ghost function Draining(led: Ledger, op: Op): Action {
    if k: Key :| MayTake(led, op, k) then Get(k) else Drained
  }

  lemma DrainingMoves(led: Ledger, op: Op)
    requires op.info.localId.Some?
    ensures var a := Draining(led, op); if a.Get? then MayTake(led, op, a.k) else a == Drained && NothingFor(led, op)
  {
    if k :| k in led.store && op.Wants(k) && led.store[k] != [] {
      var one := FoundIfWaiting(led.store, op.info, op.allowZeros, k);
      FoundIsWaiting(led.store, op.info, op.allowZeros, one);
      assert MayTake(led, op, one);
    }
  }

  lemma ReadyMoves(s: Sys, t: Tid)
    requires t in s.pcs && !s.pcs[t].Idle? && CallOk(s.pcs[t])
    requires s.pcs[t].WantsT() ==> s.tLock.None?
    requires s.pcs[t].WantsS() ==> s.sLock.None?
    ensures Next(s, t, Ready(s.led, s.pcs[t])).Some?
  {
    if s.pcs[t].FirstDrain? || s.pcs[t].AgainDrain? {
      DrainingMoves(s.led, s.pcs[t].op);
    }
  }

  /** In every reachable state, if some thread has not finished, some such thread can take a step. */
  lemma DeadlockFree(s: Sys, t: Tid)
    requires Reachable(s) && t in s.pcs && !s.pcs[t].Idle?
    ensures exists u, a :: u in s.pcs && !s.pcs[u].Idle? && Next(s, u, a).Some?
  {
    ReachableSafe(s);
    var u := if s.sLock.Some? then s.sLock.value else if s.tLock.Some? then s.tLock.value else t;
    ReadyMoves(s, u);
  }
}
