/**
 `_AdbIOManager` as one thread runs it: the code, over the packet store and the bytes of the
 transport.  The ghost state is that of the demultiplexer, and every line of code that counts as a
 step there takes that step; so what is proved of reachable states holds of this object.
 */
module IOManager {
  import opened Bytes
  import opened AdbMessage
  import opened Wire
  import opened Stores
  import opened Ledgers
  import opened Demux
  import opened DemuxSafety
  import DC = DemuxCalls
  import DemuxTheorems

  function EntryOf(p: Packet): Entry {
    Entry(p.msg.cmd, p.msg.data)
  }

  function Entries(q: seq<Packet>): seq<Entry> {
    seq(|q|, i requires 0 <= i < |q| => EntryOf(q[i]))
  }

  /** The packet store that belongs to a ledger. */
  function Project(f: Flat<Packet>): Flat<Entry> {
    map k | k in f :: Entries(f[k])
  }

  lemma ProjectQueue(f: Flat<Packet>, k: Key)
    ensures Queue(Project(f), k) == Entries(Queue(f, k))
    ensures Queue(Project(f), k) == [] <==> Queue(f, k) == []
  {
  }

  /** The store finds for `read` what the ledger has it take. */
  lemma ProjectFound(f: Flat<Packet>, info: TransactionInfo, allowZeros: bool, k: Key)
    requires Found(Project(f), info, allowZeros, k)
    ensures Found(f, info, allowZeros, k)
  {
    forall j ensures Queue(Project(f), j) == [] <==> Queue(f, j) == [] { ProjectQueue(f, j); }
    if allowZeros {
      var i :| 0 <= i < 4 && HitsFirst(Project(f), info.remoteId, info.localId, i, k);
      assert HitsFirst(f, info.remoteId, info.localId, i, k);
    }
  }

  lemma ProjectTake(l: Ledger, op: Op, k: Key)
    requires op.Wants(k) && Queue(Project(l.store), k) != [] && Found(Project(l.store), op.info, op.allowZeros, k)
    ensures MayTake(l, op, k) && Project(l.store)[k][0] == EntryOf(l.store[k][0])
  {
    ProjectQueue(l.store, k);
    ProjectFound(l.store, op.info, op.allowZeros, k);
  }

  lemma ProjectGet(f: Flat<Packet>, k: Key, isClse: bool)
    requires Queue(f, k) != []
    ensures Queue(Project(f), k) != []
    ensures Project(FlatGet(f, k, isClse)) == FlatGet(Project(f), k, isClse)
  {
    assert Entries(f[k][1..]) == Entries(f[k])[1..];
  }

  lemma ProjectPut(f: Flat<Packet>, k: Key, p: Packet, isClse: bool)
    ensures Project(FlatPut(f, k, p, isClse)) == FlatPut(Project(f), k, EntryOf(p), isClse)
  {
    assert Entries(Queue(f, k) + [p]) == Entries(Queue(f, k)) + [EntryOf(p)];
  }

  lemma ProjectClear(f: Flat<Packet>, k: Key)
    ensures Project(f - {k}) == Project(f) - {k}
  {
  }

  /** How many packets wait in the store. */
  function Backlog(past: seq<Record>): nat {
    if past == [] then 0
    else Backlog(past[..|past| - 1]) + (if past[|past| - 1].fate.Queued? then 1 else 0)
  }

  lemma {:induction false} BacklogShrinks(past: seq<Record>, past': seq<Record>, id: nat)
    requires |past'| == |past|
    requires forall i | 0 <= i < |past| :: past'[i].fate.Queued? ==> past[i].fate.Queued?
    ensures Backlog(past') <= Backlog(past)
    ensures id < |past| && past[id].fate.Queued? && !past'[id].fate.Queued? ==> Backlog(past') < Backlog(past)
  {
    if past == [] {
    } else {
      BacklogShrinks(past[..|past| - 1], past'[..|past| - 1], id);
    }
  }

  lemma TakeShrinks(l: Ledger, hand: Option<nat>, k: Key, op: Op)
    requires Ledgers.Inv(l, hand) && Queue(l.store, k) != []
    ensures Backlog(Take(l, k, op).past) < Backlog(l.past)
  {
    var l', p := Take(l, k, op), l.store[k][0];
    assert QueueOk(l, k);
    assert Queue(l.store, k)[0] == p;
    forall i | 0 <= i < |l.past| ensures l'.past[i] == AfterTake(l, k, op, i) {
      TakeEffect(l, hand, k, op, i);
    }
    BacklogShrinks(l.past, l'.past, p.id);
  }

  function Messages(past: seq<Record>): seq<Message> {
    seq(|past|, i requires 0 <= i < |past| => past[i].msg)
  }

  lemma TakeFirst(l: Ledger, hand: Option<nat>, k: Key, op: Op)
    requires Ledgers.Inv(l, hand) && Queue(l.store, k) != []
    ensures var l', p := Take(l, k, op), l.store[k][0];
            && p.id < |l.past| && l.past[p.id].msg == p.msg && KeyOf(p.msg) == k
            && l'.past[p.id].fate == Verdict(op, p.msg) && Messages(l'.past) == Messages(l.past)
  {
    assert QueueOk(l, k);
    assert Queue(l.store, k)[0] == l.store[k][0];
    TakeEffect(l, hand, k, op, l.store[k][0].id);
  }

  /** Where `read` is with a packet just off the wire. */
  function HeardAt(op: Op, p: Packet): Pc {
    if !op.Wants(KeyOf(p.msg)) then PutWant(op, p) else if p.msg.cmd == CLSE then ClearWant(op, p) else Judging(op, p)
  }

  /** The last packet consumed is `m`, and the call `op` of `read` returned it. */
  ghost predicate Returns(l: Ledger, op: Op, m: Message) {
    && l.log != []
    && var id := l.log[|l.log| - 1];
       id < |l.past| && l.past[id].msg == m && l.past[id].fate == Returned(op)
  }

  lemma TakeStep(l: Ledger, hand: Option<nat>, k: Key, op: Op)
    requires Ledgers.Inv(l, hand) && Queue(l.store, k) != []
    ensures var l', p := Take(l, k, op), l.store[k][0];
            && (p.msg.cmd in op.expected ==> Returns(l', op, p.msg))
            && KeyOf(p.msg) == k
            && Project(l'.store) == FlatGet(Project(l.store), k, p.msg.cmd == CLSE)
            && Backlog(l'.past) < Backlog(l.past) && Messages(l'.past) == Messages(l.past)
  {
    TakeShrinks(l, hand, k, op);
    TakeFirst(l, hand, k, op);
    ProjectGet(l.store, k, l.store[k][0].msg.cmd == CLSE);
  }

  lemma GetMove(s: Sys, t: Tid, k: Key, op: Op)
    requires t in s.pcs && (s.pcs[t] == FirstDrain(op) || s.pcs[t] == AgainDrain(op))
    requires MayTake(s.led, op, k)
    ensures Next(s, t, Get(k)).Some?
    ensures var s' := Next(s, t, Get(k)).value;
            && t in s'.pcs && s'.pcs[t] == (if s.led.store[k][0].msg.cmd in op.expected then Idle else s.pcs[t])
            && s'.led == Take(s.led, k, op) && s'.line == s.line
  {
    assert MoveGet(s.pcs[t], k, s.led, s.line).Some?;
  }

  /** What taking a packet from the store is to the demultiplexer. */
  lemma GetStep(s: Sys, t: Tid, k: Key, op: Op)
    requires Safe(s) && t in s.pcs && (s.pcs[t] == FirstDrain(op) || s.pcs[t] == AgainDrain(op))
    requires MayTake(s.led, op, k)
    ensures Next(s, t, Get(k)).Some?
    ensures var s', p := Next(s, t, Get(k)).value, s.led.store[k][0];
            && s'.pcs[t] == (if p.msg.cmd in op.expected then Idle else s.pcs[t])
            && (p.msg.cmd in op.expected ==> Returns(s'.led, op, p.msg))
            && KeyOf(p.msg) == k
            && Project(s'.led.store) == FlatGet(Project(s.led.store), k, p.msg.cmd == CLSE)
            && Backlog(s'.led.past) < Backlog(s.led.past) && Messages(s'.led.past) == Messages(s.led.past)
            && s'.line == s.line && t in s'.pcs
  {
    TakeStep(s.led, Hand(Owner(s)), k, op);
    GetMove(s, t, k, op);
  }

  /** The drain ends when nothing in the store is wanted. */
  lemma DrainedStep(s: Sys, t: Tid, op: Op)
    requires t in s.pcs && (s.pcs[t] == FirstDrain(op) || s.pcs[t] == AgainDrain(op))
    requires forall k :: op.Wants(k) ==> Queue(Project(s.led.store), k) == []
    ensures Next(s, t, Drained) == Some(Goto(s, t, if s.pcs[t].FirstDrain? then LoopWant(op) else Head(op)))
  {
    forall k | k in s.led.store && op.Wants(k)
      ensures s.led.store[k] == []
    {
      ProjectQueue(s.led.store, k);
    }
    assert MoveDrained(s.pcs[t], s.led, s.line).Some?;
  }

  /** A thread alone gets every lock it asks for. */
  lemma AloneAcquires(s: Sys, t: Tid)
    requires LocksOk(s) && s.pcs.Keys == {t}
    requires s.pcs[t].WantsT() || s.pcs[t].WantsS()
    ensures Next(s, t, Acquire) == Some(Goto(s, t, Granted(s.pcs[t])))
  {
  }

  lemma HeaderStep(s: Sys, t: Tid, op: Op, m: Message)
    requires t in s.pcs && s.pcs[t] == Head(op) && Encodable(m)
    ensures Next(s, t, Action.Header(m)).Some?
    ensures var s' := Next(s, t, Action.Header(m)).value;
            && t in s'.pcs
            && (m.data == [] ==> s'.pcs[t] == Receive(op, m, s.led, s.line).pc && s'.led == Arrive(s.led, m))
            && (m.data != [] ==> s'.pcs[t] == Body(op, m) && s'.led == s.led)
            && s'.line.written == s.line.written && s'.line.readFailed == s.line.readFailed
            && s'.line.taken == s.line.taken + [HeaderOf(m)]
  {
    assert MoveHeader(s.pcs[t], m, s.led, s.line).Some?;
  }

  lemma RestStep(s: Sys, t: Tid, op: Op, m: Message)
    requires t in s.pcs && s.pcs[t] == Body(op, m) && m.data != []
    ensures Next(s, t, Rest).Some?
    ensures var s' := Next(s, t, Rest).value;
            && t in s'.pcs && s'.pcs[t] == Receive(op, m, s.led, s.line).pc && s'.led == Arrive(s.led, m)
            && s'.line.written == s.line.written && s'.line.readFailed == s.line.readFailed
            && s'.line.taken == s.line.taken + [DataOf(m)]
  {
    assert MoveRest(s.pcs[t], s.led, s.line).Some?;
  }

  /** How many bytes there are to what was read. */
  function Size(pieces: seq<Piece>): nat {
    if pieces == [] then 0
    else
      var p := pieces[|pieces| - 1];
      Size(pieces[..|pieces| - 1]) +
      match p
      case HeaderOf(_) => HEADER_SIZE
      case DataOf(m) => |m.data|
      case Junk(partial) => |partial|
  }

  lemma SizeSnoc(pieces: seq<Piece>, m: Message)
    ensures Size(pieces + [HeaderOf(m)]) == Size(pieces) + HEADER_SIZE
    ensures Size(pieces + [DataOf(m)]) == Size(pieces) + |m.data|
  {
    assert (pieces + [HeaderOf(m)])[..|pieces|] == pieces;
    assert (pieces + [DataOf(m)])[..|pieces|] == pieces;
  }

  lemma PutStep(s: Sys, t: Tid, op: Op, p: Packet)
    requires t in s.pcs && s.pcs[t] == Putting(op, p)
    ensures Next(s, t, PutIt).Some?
    ensures var s' := Next(s, t, PutIt).value;
            && t in s'.pcs && s'.pcs[t] == TimeCheck(op) && s'.line == s.line
            && Project(s'.led.store) == FlatPut(Project(s.led.store), KeyOf(p.msg), EntryOf(p), p.msg.cmd == CLSE)
            && Messages(s'.led.past) == Messages(s.led.past)
  {
    assert MoveRead(s.pcs[t], PutIt, s.led, s.line).Some?;
    ProjectPut(s.led.store, KeyOf(p.msg), p, p.msg.cmd == CLSE);
  }

  lemma ClearStep(s: Sys, t: Tid, op: Op, p: Packet)
    requires t in s.pcs && s.pcs[t] == Clearing(op, p)
    ensures Next(s, t, ClearIt).Some?
    ensures var s' := Next(s, t, ClearIt).value;
            && t in s'.pcs && s'.pcs[t] == Judging(op, p) && s'.line == s.line
            && Project(s'.led.store) == Project(s.led.store) - {KeyOf(p.msg)}
            && Messages(s'.led.past) == Messages(s.led.past)
  {
    assert MoveRead(s.pcs[t], ClearIt, s.led, s.line).Some?;
    ProjectClear(s.led.store, KeyOf(p.msg));
  }

  lemma JudgeStep(s: Sys, t: Tid, op: Op, p: Packet)
    requires Safe(s) && t in s.pcs && s.pcs[t] == Judging(op, p)
    ensures Next(s, t, JudgeIt).Some?
    ensures var s' := Next(s, t, JudgeIt).value;
            && t in s'.pcs && s'.pcs[t] == (if p.msg.cmd in op.expected then Idle else TimeCheck(op))
            && s'.line == s.line && s'.led.store == s.led.store
            && (p.msg.cmd in op.expected ==> Returns(s'.led, op, p.msg))
            && Messages(s'.led.past) == Messages(s.led.past)
  {
    assert MoveRead(s.pcs[t], JudgeIt, s.led, s.line).Some?;
    assert s.tLock == Some(t);
  }

  class IOManager {
    const store: PacketStore
    const transport: Transport

    ghost const me: Tid
    ghost const start: Script
    ghost var sys: Sys
    ghost var trace: Run   // the steps that led to it
    ghost var calls: seq<Action> // those of them with which a call begins

    /** The ghost state is one the thread has come to. */
    ghost predicate Going()
      reads this
    {
      me in sys.pcs && Exec(Init({me}), trace) == Some(sys) && calls == DC.Begun(trace)
    }

    /** The ghost state is that of the store, and of a transport to which `written` has been written. */
    ghost predicate Agrees(written: bytes)
      reads this, store
    {
      && store.Valid()
      && Going()
      && store.contents == Project(sys.led.store)
      && (forall p | p in sys.line.written :: !p.Junk? ==> Encodable(p.msg))
      && written == DemuxTheorems.Render(sys.line.written)
    }

    /** The place in the bytes from the device is the one after what has been read. */
    ghost predicate Placed()
      reads this, transport
    {
      !sys.line.readFailed ==> |Content(start)| == Size(sys.line.taken) + |Content(transport.script)|
    }

    /** The state and the ghost state agree, wherever in its code the thread is. */
    ghost predicate Linked()
      reads this, store, transport
    {
      Agrees(transport.written) && Placed()
    }

    /** Between calls. */
    ghost predicate Valid()
      reads this, store, transport
    {
      Linked() && sys.pcs[me].Idle?
    }

    constructor (answers: Script)
      ensures Valid() && fresh(store) && fresh(transport)
      ensures transport.script == answers && sys.led.past == []
    {
      var s := new PacketStore();
      var t := new Transport(answers);
      store, transport := s, t;
      me, sys, trace, calls, start := 0, Init({0}), [], [], answers;
    }

    ghost predicate At(pc: Pc)
      reads this
    {
      me in sys.pcs && sys.pcs[me] == pc
    }

    lemma GoingSafe()
      requires Going()
      ensures Safe(sys) && sys.pcs.Keys == {me}
    {
      InitSafe({me});
      RunKeeps(Init({me}), trace);
      SameThreads(Init({me}), trace);
    }

    /** Takes a step of the demultiplexer, within a call. */
    ghost method Do(a: Action)
      requires Going() && Next(sys, me, a).Some? && !DC.Begins(a)
      modifies this`sys, this`trace
      ensures sys == Next(old(sys), me, a).value && trace == old(trace) + [(me, a)]
      ensures Going()
    {
      DC.BegunSnoc(trace, me, a);
      ExecAppend(Init({me}), trace, [(me, a)]);
      var next := Next(sys, me, a).value;
      assert Exec(next, []) == Some(next);
      sys, trace := next, trace + [(me, a)];
    }

    /** Takes the step with which a call begins. */
    ghost method DoBegin(a: Action)
      requires Going() && Next(sys, me, a).Some? && DC.Begins(a)
      modifies this`sys, this`trace, this`calls
      ensures sys == Next(old(sys), me, a).value && trace == old(trace) + [(me, a)] && calls == old(calls) + [a]
      ensures Going()
    {
      DC.BegunSnoc(trace, me, a);
      ExecAppend(Init({me}), trace, [(me, a)]);
      var next := Next(sys, me, a).value;
      assert Exec(next, []) == Some(next);
      sys, trace, calls := next, trace + [(me, a)], calls + [a];
    }

    /** `find` or `find_allow_zeros`, as the caller of `read` chose. */
    method Look(op: Op) returns (found: Option<Key>)
      requires store.Valid() && op.info.localId.Some?
      ensures found.Some? ==> Queue(store.contents, found.value) != [] && op.Wants(found.value)
      ensures found.Some? ==> Found(store.contents, op.info, op.allowZeros, found.value)
      ensures found.None? ==> NothingLeft(op, store.contents)
    {
      IndexAgreesWithPredicate(op.info, op.allowZeros);
      ghost var f := store.contents;
      if op.allowZeros {
        found := store.FindAllowZeros(op.info.remoteId, op.info.localId);
      } else {
        found := store.Find(op.info.remoteId, op.info.localId);
      }
      assert forall k :: IndexMatch(f, op.info, op.allowZeros, k) <==> Waiting(f, op.info, op.allowZeros, k);
      forall k
        ensures op.Wants(k) && Queue(f, k) != [] <==> IndexMatch(f, op.info, op.allowZeros, k)
      {
        assert IndexMatch(f, op.info, op.allowZeros, k) <==> Waiting(f, op.info, op.allowZeros, k);
      }
    }

    /** `m` is a proper result of the call `op`, and it is the packet that call consumed last. */
    ghost predicate Answers(op: Op, m: Message)
      reads this
    {
      op.Wants(KeyOf(m)) && m.cmd in op.expected && Gives(op, m)
    }

    /** The step just taken has returned `m`. */
    ghost predicate Gives(op: Op, m: Message)
      reads this
    {
      Returns(sys.led, op, m) && !DC.GaveUp(trace)
    }

    /** `get` on the store: one packet, which goes to this call of `read` if it is expected. */
    method GetOne(k: Key, op: Op, ghost pc: Pc) returns (m: Message)
      requires Linked() && At(pc) && (pc == FirstDrain(op) || pc == AgainDrain(op))
      requires op.Wants(k) && Queue(store.contents, k) != [] && Found(store.contents, op.info, op.allowZeros, k)
      modifies this`sys, this`trace, store
      ensures Linked() && old(trace) <= trace
      ensures op.Wants(KeyOf(m)) && Queue(old(store.contents), KeyOf(m)) != []
      ensures Entry(m.cmd, m.data) == old(store.contents)[KeyOf(m)][0]
      ensures store.contents == FlatGet(old(store.contents), KeyOf(m), m.cmd == CLSE)
      ensures if m.cmd in op.expected then At(Idle) && Gives(op, m) else At(pc)
      ensures Backlog(sys.led.past) < Backlog(old(sys.led.past))
      ensures Messages(sys.led.past) == Messages(old(sys.led.past))
    {
      assert Hit(store.contents, Some(k.arg0), Some(k.arg1), k);
      var key, entry := store.Get(Some(k.arg0), Some(k.arg1));
      m := Message(entry.cmd, key.arg0, key.arg1, entry.data);
      DoGet(k, op, pc, m);
    }

    ghost method DoGet(k: Key, op: Op, pc: Pc, m: Message)
      requires Going() && At(pc) && (pc == FirstDrain(op) || pc == AgainDrain(op)) && op.Wants(k) && KeyOf(m) == k
      requires Queue(Project(sys.led.store), k) != [] && Project(sys.led.store)[k][0] == Entry(m.cmd, m.data)
      requires Found(Project(sys.led.store), op.info, op.allowZeros, k)
      modifies this`sys, this`trace
      ensures Going() && old(trace) <= trace && sys.line == old(sys.line)
      ensures if m.cmd in op.expected then At(Idle) && Gives(op, m) else At(pc)
      ensures Backlog(sys.led.past) < Backlog(old(sys.led.past))
      ensures Messages(sys.led.past) == Messages(old(sys.led.past))
      ensures Project(sys.led.store) == FlatGet(Project(old(sys.led.store)), k, m.cmd == CLSE)
    {
      GoingSafe();
      ProjectTake(sys.led, op, k);
      GetStep(sys, me, k, op);
      Do(Get(k));
    }

    /** Gets the lock it wants, nobody else being there. */
    ghost method Lock()
      requires Linked() && (sys.pcs[me].WantsT() || sys.pcs[me].WantsS())
      modifies this`sys, this`trace
      ensures Linked() && old(trace) <= trace && At(Granted(old(sys.pcs[me])))
      ensures sys.led == old(sys.led) && sys.line == old(sys.line)
    {
      GoingSafe();
      AloneAcquires(sys, me);
      Do(Acquire);
    }

    /** The header and the data of a packet have come off the wire. */
    ghost method Hear(op: Op, m: Message) returns (p: Packet)
      requires Agrees(transport.written) && At(Head(op)) && Encodable(m)
      modifies this`sys, this`trace
      ensures Agrees(transport.written) && old(trace) <= trace
      ensures p == Packet(|old(sys.led.past)|, m) && sys.led == Arrive(old(sys.led), m)
      ensures At(HeardAt(op, p))
      ensures sys.line.readFailed == old(sys.line.readFailed)
      ensures Size(sys.line.taken) == Size(old(sys.line.taken)) + |Encode(m)|
    {
      p := Packet(|sys.led.past|, m);
      HearHeader(op, m);
      if m.data != [] {
        HearRest(op, m);
      }
    }

    ghost method HearHeader(op: Op, m: Message)
      requires Agrees(transport.written) && At(Head(op)) && Encodable(m)
      modifies this`sys, this`trace
      ensures Agrees(transport.written) && old(trace) <= trace
      ensures sys.led == if m.data == [] then Arrive(old(sys.led), m) else old(sys.led)
      ensures At(if m.data == [] then HeardAt(op, Packet(|old(sys.led.past)|, m)) else Body(op, m))
      ensures sys.line.readFailed == old(sys.line.readFailed)
      ensures Size(sys.line.taken) == Size(old(sys.line.taken)) + HEADER_SIZE
    {
      SizeSnoc(sys.line.taken, m);
      DoHeader(op, m);
    }

    ghost method HearRest(op: Op, m: Message)
      requires Agrees(transport.written) && At(Body(op, m)) && m.data != []
      modifies this`sys, this`trace
      ensures Agrees(transport.written) && old(trace) <= trace && sys.led == Arrive(old(sys.led), m)
      ensures At(HeardAt(op, Packet(|old(sys.led.past)|, m)))
      ensures sys.line.readFailed == old(sys.line.readFailed)
      ensures Size(sys.line.taken) == Size(old(sys.line.taken)) + |m.data|
    {
      SizeSnoc(sys.line.taken, m);
      DoRest(op, m);
    }

    ghost method DoHeader(op: Op, m: Message)
      requires Going() && At(Head(op)) && Encodable(m)
      modifies this`sys, this`trace
      ensures Going() && old(trace) <= trace
      ensures sys.led == if m.data == [] then Arrive(old(sys.led), m) else old(sys.led)
      ensures At(if m.data == [] then HeardAt(op, Packet(|old(sys.led.past)|, m)) else Body(op, m))
      ensures sys.line.written == old(sys.line.written) && sys.line.readFailed == old(sys.line.readFailed)
      ensures sys.line.taken == old(sys.line.taken) + [HeaderOf(m)]
    {
      HeaderStep(sys, me, op, m);
      Do(Action.Header(m));
    }

    ghost method DoRest(op: Op, m: Message)
      requires Going() && At(Body(op, m)) && m.data != []
      modifies this`sys, this`trace
      ensures Going() && old(trace) <= trace && sys.led == Arrive(old(sys.led), m)
      ensures At(HeardAt(op, Packet(|old(sys.led.past)|, m)))
      ensures sys.line.written == old(sys.line.written) && sys.line.readFailed == old(sys.line.readFailed)
      ensures sys.line.taken == old(sys.line.taken) + [DataOf(m)]
    {
      RestStep(sys, me, op, m);
      Do(Rest);
    }

    /** The packet is not a match: into the store. */
    method PutAway(op: Op, m: Message, ghost p: Packet)
      requires Linked() && p.msg == m && At(PutWant(op, p))
      modifies this`sys, this`trace, store
      ensures Linked() && old(trace) <= trace && At(TimeCheck(op))
      ensures Messages(sys.led.past) == Messages(old(sys.led.past))
      ensures store.contents == FlatPut(old(store.contents), KeyOf(m), Entry(m.cmd, m.data), m.cmd == CLSE)
    {
      Lock();
      PutStep(sys, me, op, p);
      store.Put(m.arg0, m.arg1, m.cmd, m.data);
      Do(PutIt);
    }

    /** The packet is the CLSE of this stream: away with its entry. */
    method ClearEntry(op: Op, m: Message, ghost p: Packet)
      requires Linked() && p.msg == m && At(ClearWant(op, p))
      modifies this`sys, this`trace, store
      ensures Linked() && old(trace) <= trace && At(Judging(op, p))
      ensures Messages(sys.led.past) == Messages(old(sys.led.past))
      ensures store.contents == old(store.contents) - {KeyOf(m)}
    {
      Lock();
      ClearStep(sys, me, op, p);
      store.Clear(m.arg0, m.arg1);
      Do(ClearIt);
    }

    /** The packet is a match: keep it or drop it. */
    ghost method Decide(op: Op, p: Packet)
      requires Linked() && At(Judging(op, p))
      modifies this`sys, this`trace
      ensures Linked() && old(trace) <= trace
      ensures At(if p.msg.cmd in op.expected then Idle else TimeCheck(op))
      ensures p.msg.cmd in op.expected ==> Gives(op, p.msg)
      ensures Messages(sys.led.past) == Messages(old(sys.led.past))
    {
      GoingSafe();
      JudgeStep(sys, me, op, p);
      Do(JudgeIt);
    }

    /** The packet is a match; true if it is expected. */
    method HandleMatch(op: Op, m: Message, ghost p: Packet) returns (done: bool)
      requires Linked() && p.msg == m && op.Wants(KeyOf(m))
      requires At(HeardAt(op, p))
      modifies this`sys, this`trace, store
      ensures Linked() && old(trace) <= trace && done == (m.cmd in op.expected)
      ensures At(if done then Idle else TimeCheck(op)) && (done ==> Gives(op, m))
      ensures Messages(sys.led.past) == Messages(old(sys.led.past))
      ensures store.contents == if m.cmd == CLSE then old(store.contents) - {KeyOf(m)} else old(store.contents)
    {
      if m.cmd == CLSE {
        ClearEntry(op, m, p);
      }
      Decide(op, p);
      return m.cmd in op.expected;
    }

    /** What `read` does with a packet off the wire. */
    method Handle(op: Op, m: Message, ghost p: Packet) returns (done: bool)
      requires Linked() && p.msg == m
      requires At(HeardAt(op, p))
      modifies this`sys, this`trace, store
      ensures Linked() && old(trace) <= trace
      ensures done == (op.Wants(KeyOf(m)) && m.cmd in op.expected)
      ensures At(if done then Idle else TimeCheck(op))
      ensures done ==> Gives(op, m)
      ensures Messages(sys.led.past) == Messages(old(sys.led.past))
      ensures store.contents == Handled(op, m, old(store.contents))
    {
      if !op.info.ArgsMatch(m.arg0, m.arg1, op.allowZeros) {
        PutAway(op, m, p);
        done := false;
      } else {
        done := HandleMatch(op, m, p);
      }
    }

    /** The drain under the store lock, which `read` does once before its loop and once in each round. */
    method Drain(op: Op, ghost pc: Pc) returns (r: Option<Message>)
      requires Linked() && At(pc) && (pc == FirstDrain(op) || pc == AgainDrain(op)) && op.info.localId.Some?
      modifies this`sys, this`trace, store
      ensures Linked() && old(trace) <= trace
      ensures r.Some? ==> At(Idle) && Answers(op, r.value)
      ensures r.Some? ==> Entry(r.value.cmd, r.value.data) in Queue(old(store.contents), KeyOf(r.value))
      ensures r.None? ==> At(if pc.FirstDrain? then LoopWant(op) else Head(op)) && NothingLeft(op, store.contents)
      ensures Within(op, store.contents, old(store.contents))
      ensures Messages(sys.led.past) == Messages(old(sys.led.past))
    {
      var found := Look(op);
      while found.Some?
        invariant Linked() && At(pc) && old(trace) <= trace
        invariant found.Some? ==> Queue(store.contents, found.value) != [] && op.Wants(found.value)
        invariant found.Some? ==> Found(store.contents, op.info, op.allowZeros, found.value)
        invariant found.None? ==> NothingLeft(op, store.contents)
        invariant Within(op, store.contents, old(store.contents))
        invariant Messages(sys.led.past) == Messages(old(sys.led.past))
        decreases Backlog(sys.led.past), found.Some?
      {
        ghost var before := store.contents;
        var m := GetOne(found.value, op, pc);
        GetWithin(op, before, old(store.contents), KeyOf(m), m.cmd == CLSE);
        if m.cmd in op.expected {
          return Some(m);
        }
        found := Look(op);
      }
      DrainedStep(sys, me, op);
      Do(Drained);
      return None;
    }

    ghost method DoFail(op: Op)
      requires Going() && At(Head(op))
      modifies this`sys, this`trace
      ensures Going() && old(trace) <= trace && At(Idle) && sys.led == old(sys.led) && DC.GaveUp(trace)
      ensures sys.line == old(sys.line).(readFailed := true)
    {
      assert MoveRead(sys.pcs[me], ReadFails, sys.led, sys.line).Some?;
      Do(ReadFails);
    }

    /** A packet has come off the wire, and the place in the bytes has moved on by its length. */
    ghost method FetchedOne(op: Op, m: Message) returns (p: Packet)
      requires Agrees(transport.written) && At(Head(op)) && Encodable(m)
      requires !sys.line.readFailed ==>
                 |Content(start)| == Size(sys.line.taken) + |Encode(m)| + |Content(transport.script)|
      modifies this`sys, this`trace
      ensures Linked() && old(trace) <= trace && p.msg == m && At(HeardAt(op, p))
      ensures Messages(sys.led.past) == Messages(old(sys.led.past)) + [m]
    {
      p := Hear(op, m);
    }

    /** Reads one packet off the wire, under the transport lock. */
    method Fetch(op: Op) returns (got: Result<Message, Failure>, ghost p: Packet)
      requires Linked() && At(Head(op))
      modifies this`sys, this`trace, transport`script
      ensures Linked() && old(trace) <= trace
      ensures Outcome(got, transport.script) == ReadPacket(old(transport.script))
      ensures got.Err? ==> At(Idle) && DC.GaveUp(trace) && Messages(sys.led.past) == Messages(old(sys.led.past))
      ensures got.Ok? ==>
          && Messages(sys.led.past) == Messages(old(sys.led.past)) + [got.value] && p.msg == got.value
          && At(HeardAt(op, p))
    {
      PacketLength(transport.script);
      got := transport.ReadPacketFromDevice();
      if got.Err? {
        DoFail(op);
        p := Packet(0, Message(SYNC, 0, 0, []));
      } else {
        p := FetchedOne(op, got.value);
      }
    }

    /** The transport lock and then the store lock. */
    ghost method LockBoth(op: Op)
      requires Linked() && At(LoopWant(op))
      modifies this`sys, this`trace
      ensures Linked() && old(trace) <= trace && At(AgainDrain(op)) && sys.led == old(sys.led)
    {
      Lock();
      Lock();
    }

    /** The second look at the store, in case a packet was put there while waiting for the lock. */
    method DrainAgain(op: Op) returns (r: Option<Message>)
      requires Linked() && At(LoopWant(op)) && op.info.localId.Some?
      modifies this`sys, this`trace, store
      ensures Linked() && old(trace) <= trace
      ensures r.Some? ==> At(Idle) && Answers(op, r.value)
      ensures r.Some? ==> Entry(r.value.cmd, r.value.data) in Queue(old(store.contents), KeyOf(r.value))
      ensures r.None? ==> At(Head(op)) && NothingLeft(op, store.contents)
      ensures Within(op, store.contents, old(store.contents))
      ensures Messages(sys.led.past) == Messages(old(sys.led.past))
    {
      LockBoth(op);
      r := Drain(op, AgainDrain(op));
    }

    /** A packet off the wire, and what becomes of it; None if it was not the one. */
    method FetchAndHandle(op: Op) returns (r: Option<Result<Message, Failure>>)
      requires Linked() && At(Head(op))
      modifies this`sys, this`trace, store, transport`script
      ensures Linked() && old(trace) <= trace
      ensures At(if r.Some? then Idle else TimeCheck(op))
      ensures var next := ReadPacket(old(transport.script));
              && transport.script == next.rest
              && (r.Some? ==> r.value == next.result)
              && (next.result.Err? ==> r.Some? && Messages(sys.led.past) == Messages(old(sys.led.past)))
              && (next.result.Err? ==> DC.GaveUp(trace))
              && (next.result.Ok? ==> Messages(sys.led.past) == Messages(old(sys.led.past)) + [next.result.value])
              && (next.result.Ok? && r.Some? ==> Answers(op, next.result.value))
              && (next.result.Ok? ==> (r.Some? <==> Answer(op, next.result.value)))
              && store.contents ==
                 if next.result.Ok? then Handled(op, next.result.value, old(store.contents)) else old(store.contents)
    {
      var got, p := Fetch(op);
      if got.Err? {
        return Some(got);
      }
      var done := Handle(op, got.value, p);
      return if done then Some(got) else None;
    }

    /** `read` up to its loop. */
    method BeginReading(op: Op) returns (r: Option<Message>)
      requires Valid() && op.info.localId.Some?
      modifies this`sys, this`trace, this`calls, store
      ensures calls == old(calls) + [BeginRead(op)]
      ensures Linked() && old(trace) <= trace
      ensures r.Some? ==> At(Idle) && Answers(op, r.value)
      ensures r.Some? ==> Entry(r.value.cmd, r.value.data) in Queue(old(store.contents), KeyOf(r.value))
      ensures r.None? ==> At(LoopWant(op))
      ensures Within(op, store.contents, old(store.contents))
      ensures Messages(sys.led.past) == Messages(old(sys.led.past))
    {
      Enter(BeginRead(op), FirstWant(op));
      r := Drain(op, FirstDrain(op));
    }

    /** The time check at the end of a round. */
    ghost method Tick(op: Op, timeUp: bool)
      requires Linked() && At(TimeCheck(op))
      modifies this`sys, this`trace
      ensures Linked() && old(trace) <= trace && At(if timeUp then Idle else LoopWant(op)) && sys.led == old(sys.led)
      ensures timeUp ==> DC.GaveUp(trace)
    {
      var a := if timeUp then TimeUp else TryAgain;
      assert MoveRead(sys.pcs[me], a, sys.led, sys.line).Some?;
      Do(a);
    }

    /** The rest of a round: with nothing for it in the store, the next packet off the wire. */
    method NextPacket(op: Op, ghost late: nat -> bool, ghost heard: nat, ghost f0: Flat<Entry>,
        ghost past: seq<Message>, ghost script: Script)
      returns (r: Option<Result<Message, Failure>>)
      requires Linked() && At(Head(op)) && Within(op, store.contents, f0) && NothingLeft(op, store.contents)
      requires SoFar(op, past, script, Messages(sys.led.past), transport.script)
      requires InTime(late, heard) && |sys.led.past| == |past| + heard
      modifies this`sys, this`trace, store, transport`script
      ensures Linked() && old(trace) <= trace && At(if r.Some? then Idle else TimeCheck(op))
      ensures r.Some? ==> Explained(op, late, f0, past, script, Messages(sys.led.past), transport.script, r.value)
      ensures r.Some? ==> if r.value.Ok? then Answers(op, r.value.value) else DC.GaveUp(trace)
      ensures r.None? || r.value.Err? ==> NothingLeft(op, store.contents)
      ensures r.None? ==>
          && SoFar(op, past, script, Messages(sys.led.past), transport.script) && Messages(sys.led.past) != past
          && |sys.led.past| == |past| + heard + 1
          && Within(op, store.contents, f0) && Fuel(transport.script) < Fuel(old(transport.script))
    {
      OneMoreHeard(op, late, f0, past, script, Messages(sys.led.past), transport.script);
      ghost var next := ReadPacket(transport.script);
      if next.result.Ok? {
        HandledWithin(op, next.result.value, store.contents, f0);
      }
      r := FetchAndHandle(op);
    }

    /** One round of the loop of `read`; None if it has to go round again. */
    method Round(op: Op, ghost late: nat -> bool, ghost heard: nat, ghost f0: Flat<Entry>,
        ghost past: seq<Message>, ghost script: Script)
      returns (r: Option<Result<Message, Failure>>)
      requires Linked() && At(LoopWant(op)) && op.info.localId.Some? && Within(op, store.contents, f0)
      requires SoFar(op, past, script, Messages(sys.led.past), transport.script)
      requires InTime(late, heard) && |sys.led.past| == |past| + heard
      requires Messages(sys.led.past) != past ==> NothingLeft(op, store.contents)
      modifies this`sys, this`trace, store, transport`script
      ensures Linked() && old(trace) <= trace && At(if r.Some? then Idle else TimeCheck(op))
      ensures r.Some? ==> Explained(op, late, f0, past, script, Messages(sys.led.past), transport.script, r.value)
      ensures r.Some? ==> if r.value.Ok? then Answers(op, r.value.value) else DC.GaveUp(trace)
      ensures r.None? || r.value.Err? ==> NothingLeft(op, store.contents)
      ensures r.None? ==>
          && SoFar(op, past, script, Messages(sys.led.past), transport.script) && Messages(sys.led.past) != past
          && |sys.led.past| == |past| + heard + 1
          && Within(op, store.contents, f0) && Fuel(transport.script) < Fuel(old(transport.script))
    {
      var again := DrainAgain(op);
      if again.Some? {
        return Some(Ok(again.value));
      }
      r := NextPacket(op, late, heard, f0, past, script);
    }

    /** A round of the loop up to its end, and whether the time is up then. */
    method RoundAndTime(op: Op, late: nat -> bool, heard: nat, ghost f0: Flat<Entry>, ghost past: seq<Message>,
        ghost script: Script)
      returns (r: Option<Result<Message, Failure>>)
      requires Linked() && At(LoopWant(op)) && op.info.localId.Some? && Within(op, store.contents, f0)
      requires SoFar(op, past, script, Messages(sys.led.past), transport.script)
      requires InTime(late, heard) && |sys.led.past| == |past| + heard
      requires Messages(sys.led.past) != past ==> NothingLeft(op, store.contents)
      modifies this`sys, this`trace, store, transport`script
      ensures Linked() && old(trace) <= trace && At(if r.Some? then Idle else LoopWant(op))
      ensures r.Some? ==> Explained(op, late, f0, past, script, Messages(sys.led.past), transport.script, r.value)
      ensures r.Some? ==> if r.value.Ok? then Answers(op, r.value.value) else DC.GaveUp(trace)
      ensures r.None? || r.value.Err? ==> NothingLeft(op, store.contents)
      ensures r.None? ==>
          && SoFar(op, past, script, Messages(sys.led.past), transport.script)
          && InTime(late, heard + 1) && |sys.led.past| == |past| + heard + 1
          && Within(op, store.contents, f0) && Fuel(transport.script) < Fuel(old(transport.script))
    {
      r := Round(op, late, heard, f0, past, script);
      if r.None? {
        r := CheckTime(op, late, heard + 1, f0, past, script);
      }
    }

    /** The time check at the end of a round, `heard` packets having been heard. */
    method CheckTime(op: Op, late: nat -> bool, heard: nat, ghost f0: Flat<Entry>, ghost past: seq<Message>,
        ghost script: Script)
      returns (r: Option<Result<Message, Failure>>)
      requires Linked() && At(TimeCheck(op)) && heard > 0
      requires SoFar(op, past, script, Messages(sys.led.past), transport.script)
      requires InTime(late, heard - 1) && |sys.led.past| == |past| + heard
      modifies this`sys, this`trace
      ensures Linked() && old(trace) <= trace && At(if r.Some? then Idle else LoopWant(op)) && sys.led == old(sys.led)
      ensures r.Some? ==>
          && r == Some(Err(Timeout)) && DC.GaveUp(trace)
          && Explained(op, late, f0, past, script, Messages(sys.led.past), transport.script, Err(Timeout))
      ensures r.None? ==> InTime(late, heard)
    {
      var timeUp := late(heard);
      if timeUp {
        TimedOut(op, late, f0, past, script, Messages(sys.led.past), transport.script);
      }
      Tick(op, timeUp);
      return if timeUp then Some(Err(Timeout)) else None;
    }

    /** The loop of `read`. */
    method ReadLoop(op: Op, late: nat -> bool, ghost f0: Flat<Entry>) returns (r: Result<Message, Failure>)
      requires Linked() && At(LoopWant(op)) && op.info.localId.Some? && Within(op, store.contents, f0)
      modifies this`sys, this`trace, store, transport`script
      ensures Linked() && old(trace) <= trace && At(Idle)
      ensures if r.Ok? then Answers(op, r.value) else DC.GaveUp(trace)
      ensures r.Err? ==> NothingLeft(op, store.contents)
      ensures Explained(op, late, f0, Messages(old(sys.led.past)), old(transport.script),
                        Messages(sys.led.past), transport.script, r)
    {
      ghost var past, script := Messages(sys.led.past), transport.script;
      var heard: nat := 0;
      HeardNothing(past, script);
      while true
        invariant Linked() && old(trace) <= trace && At(LoopWant(op)) && Within(op, store.contents, f0)
        invariant SoFar(op, past, script, Messages(sys.led.past), transport.script)
        invariant InTime(late, heard) && |sys.led.past| == |past| + heard
        invariant Messages(sys.led.past) != past ==> NothingLeft(op, store.contents)
        decreases Fuel(transport.script)
      {
        var round := RoundAndTime(op, late, heard, f0, past, script);
        if round.Some? {
          return round.value;
        }
        heard := heard + 1;
      }
    }

    /** From the steps of one call of `read`: what it has consumed. */
    lemma Finished(s0: Sys, t0: Run, op: Op)
      requires Going() && sys.pcs[me].Idle?
      requires Exec(Init({me}), t0) == Some(s0) && me in s0.pcs && s0.pcs[me].Idle?
      requires t0 <= trace && calls == DC.Begun(t0) + [BeginRead(op)]
      ensures DC.Took(sys.led, |s0.led.log|, op, !DC.GaveUp(trace))
    {
      InitSafe({me});
      DC.LastCall(Init({me}), me, t0, s0, trace, sys, op);
    }

    /**
     `read`.  The packets that arrived during the call are those read from the wire, one after the
     other.  The result is the first of them that is for this call, or one that was in the store; without
     one, the call ends with the first failure to read, or the timeout after any number of packets, and
     then nothing in the store is for it.  It is one call of the demultiplexer, and all that is consumed
     meanwhile it has dropped, but the result.
     */
    method Read(op: Op, late: nat -> bool) returns (r: Result<Message, Failure>)
      requires Valid() && op.info.localId.Some?
      modifies this`sys, this`trace, this`calls, store, transport`script
      ensures Valid() && old(trace) <= trace && calls == old(calls) + [BeginRead(op)]
      ensures r.Ok? ==> Answers(op, r.value)
      ensures r.Err? ==> NothingLeft(op, store.contents)
      ensures Explained(op, late, old(store.contents), Messages(old(sys.led.past)), old(transport.script),
                        Messages(sys.led.past), transport.script, r)
      ensures var l, from := sys.led, |old(sys.led.log)|;
              && from <= |l.log| && (r.Ok? ==> from < |l.log|)
              && (forall i | from <= i < if r.Ok? then |l.log| - 1 else |l.log| ::
                    l.log[i] < |l.past| && l.past[l.log[i]].fate == Discarded(op))
              && (r.Ok? ==>
                    var last := l.log[|l.log| - 1];
                    last < |l.past| && l.past[last].fate == Returned(op) && l.past[last].msg == r.value)
    {
      ghost var s0, t0 := sys, trace;
      r := ReadOnce(op, late);
      Finished(s0, t0, op);
    }

    /** The code of `read`. */
    method ReadOnce(op: Op, late: nat -> bool) returns (r: Result<Message, Failure>)
      requires Valid() && op.info.localId.Some?
      modifies this`sys, this`trace, this`calls, store, transport`script
      ensures Valid() && old(trace) <= trace && calls == old(calls) + [BeginRead(op)]
      ensures if r.Ok? then Answers(op, r.value) else DC.GaveUp(trace)
      ensures r.Err? ==> NothingLeft(op, store.contents)
      ensures Explained(op, late, old(store.contents), Messages(old(sys.led.past)), old(transport.script),
                        Messages(sys.led.past), transport.script, r)
    {
      HeardNothing(Messages(sys.led.past), transport.script);
      ghost var f0 := store.contents;
      var first := BeginReading(op);
      if first.Some? {
        return Ok(first.value);
      }
      r := ReadLoop(op, late, f0);
    }

    /** `send`: the header, then the data, under the transport lock. */
    method Send(m: Message) returns (ok: bool)
      requires Valid() && Encodable(m)
      modifies this`sys, this`trace, this`calls, transport`written
      ensures Valid() && old(trace) <= trace && calls == old(calls) + [BeginSend(m)] && sys.led == old(sys.led)
      ensures Wrote(old(transport.written), Encode(m), transport.written, ok)
      ensures if ok then sys.line.sent == old(sys.line.sent) + [m] else sys.line.torn
    {
      Enter(BeginSend(m), SendWant(m));
      ok := WriteFrame(m);
    }

    method WriteFrame(m: Message) returns (ok: bool)
      requires Linked() && At(SendHead(m)) && Encodable(m)
      modifies this`sys, this`trace, transport`written
      ensures Linked() && old(trace) <= trace && At(Idle) && sys.led == old(sys.led)
      ensures Wrote(old(transport.written), Encode(m), transport.written, ok)
      ensures if ok then sys.line.sent == old(sys.line.sent) + [m] else sys.line.torn
    {
      ghost var before := transport.written;
      ok := WriteHeader(m);
      if ok && m.data != [] {
        ok := WriteData(m, before);
      }
    }

    method WriteHeader(m: Message) returns (ok: bool)
      requires Linked() && At(SendHead(m)) && Encodable(m)
      modifies this`sys, this`trace, transport`written
      ensures Linked() && old(trace) <= trace && sys.led == old(sys.led)
      ensures At(if m.data == [] || !ok then Idle else SendBody(m))
      ensures ok && m.data != [] ==> transport.written == old(transport.written) + Pack(m)
      ensures !ok || m.data == [] ==> Wrote(old(transport.written), Encode(m), transport.written, ok)
      ensures ok && m.data != [] ==> sys.line.sent == old(sys.line.sent)
      ensures ok && m.data == [] ==> sys.line.sent == old(sys.line.sent) + [m]
      ensures !ok ==> sys.line.torn
    {
      ghost var before := transport.written;
      ok := transport.BulkWrite(Pack(m));
      WroteHeader(before, Pack(m), m.data, transport.written, ok);
      if ok {
        AfterWrite(HeaderOf(m), before);
      } else {
        AfterTear(before);
      }
    }

    method WriteData(m: Message, ghost before: bytes) returns (ok: bool)
      requires Linked() && At(SendBody(m)) && Encodable(m) && transport.written == before + Pack(m)
      modifies this`sys, this`trace, transport`written
      ensures Linked() && old(trace) <= trace && At(Idle) && sys.led == old(sys.led)
      ensures Wrote(before, Encode(m), transport.written, ok)
      ensures if ok then sys.line.sent == old(sys.line.sent) + [m] else sys.line.torn
    {
      ghost var between := transport.written;
      ok := transport.BulkWrite(m.data);
      WroteBoth(before, Pack(m), m.data, between, transport.written, ok);
      if ok {
        AfterWrite(DataOf(m), between);
      } else {
        AfterTear(between);
      }
    }

    /** `bulk_write` has written a piece. */
    ghost method AfterWrite(p: Piece, before: bytes)
      requires !p.Junk? && Encodable(p.msg) && At(if p.HeaderOf? then SendHead(p.msg) else SendBody(p.msg))
      requires Agrees(before) && Placed() && transport.written == before + DemuxTheorems.PieceBytes(p)
      modifies this`sys, this`trace
      ensures Linked() && old(trace) <= trace && sys.led == old(sys.led)
      ensures At(if p.HeaderOf? && p.msg.data != [] then SendBody(p.msg) else Idle)
      ensures sys.line.sent == old(sys.line.sent) + (if p.HeaderOf? && p.msg.data != [] then [] else [p.msg])
    {
      WrittenSnoc(sys.line.written, p, DemuxTheorems.PieceBytes);
      DoWrite(p);
    }

    ghost method DoWrite(p: Piece)
      requires Going() && !p.Junk? && Encodable(p.msg)
      requires At(if p.HeaderOf? then SendHead(p.msg) else SendBody(p.msg))
      modifies this`sys, this`trace
      ensures Going() && old(trace) <= trace && sys.led == old(sys.led)
      ensures At(if p.HeaderOf? && p.msg.data != [] then SendBody(p.msg) else Idle)
      ensures sys.line.sent == old(sys.line.sent) + (if p.HeaderOf? && p.msg.data != [] then [] else [p.msg])
      ensures sys.line.written == old(sys.line.written) + [p]
      ensures sys.line.taken == old(sys.line.taken) && sys.line.readFailed == old(sys.line.readFailed)
    {
      assert MoveWrite(sys.pcs[me], Write, sys.led, sys.line).Some?;
      Do(Write);
    }

    /** `bulk_write` has failed, with some of what it was to write. */
    ghost method AfterTear(before: bytes)
      requires (exists m :: At(SendHead(m)) || At(SendBody(m)))
      requires Agrees(before) && Placed() && before <= transport.written
      modifies this`sys, this`trace
      ensures Linked() && old(trace) <= trace && sys.led == old(sys.led) && At(Idle) && sys.line.torn
    {
      var partial := transport.written[|before|..];
      assert transport.written == before + partial;
      WrittenSnoc(sys.line.written, Junk(partial), DemuxTheorems.PieceBytes);
      DoTear(partial);
    }

    ghost method DoTear(partial: bytes)
      requires Going() && (exists m :: At(SendHead(m)) || At(SendBody(m)))
      modifies this`sys, this`trace
      ensures Going() && old(trace) <= trace && sys.led == old(sys.led) && At(Idle) && sys.line.torn
      ensures sys.line.written == old(sys.line.written) + [Junk(partial)]
      ensures sys.line.taken == old(sys.line.taken) && sys.line.readFailed == old(sys.line.readFailed)
    {
      assert MoveWrite(sys.pcs[me], WriteFails(partial), sys.led, sys.line).Some?;
      Do(WriteFails(partial));
    }

    /** `close`: unless closing the transport fails, the store is empty when the transport lock is let go. */
    method Close() returns (ok: bool)
      requires Valid()
      modifies this`sys, this`trace, this`calls, store
      ensures Valid() && old(trace) <= trace && calls == old(calls) + [BeginReset(false)]
      ensures store.contents == if ok then map[] else old(store.contents)
      ensures Messages(sys.led.past) == Messages(old(sys.led.past))
    {
      ok := CloseTransport();
      if ok {
        ClearStore();
      }
    }

    /** `transport.close()`, under the transport lock; if it fails, the lock is let go. */
    method CloseTransport() returns (ok: bool)
      requires Valid()
      modifies this`sys, this`trace, this`calls
      ensures calls == old(calls) + [BeginReset(false)]
      ensures Linked() && old(trace) <= trace && At(if ok then WipeWant(false) else Idle) && sys.led == old(sys.led)
    {
      Enter(BeginReset(false), ResetWant(false));
      ok := *;
      Shut(ok);
    }

    /** `clear_all()`, under both locks. */
    method ClearStore()
      requires Linked() && At(WipeWant(false))
      modifies this`sys, this`trace, store
      ensures Valid() && old(trace) <= trace
      ensures store.contents == map[] && Messages(sys.led.past) == Messages(old(sys.led.past))
    {
      Lock();
      Wipe();
    }

    /** `transport.close()` */
    ghost method Shut(ok: bool)
      requires Linked() && At(Closing(false))
      modifies this`sys, this`trace
      ensures Linked() && old(trace) <= trace && At(if ok then WipeWant(false) else Idle) && sys.led == old(sys.led)
    {
      var a := if ok then Action.Close else Fail;
      assert MoveReset(sys.pcs[me], a, sys.led, sys.line).Some?;
      Do(a);
    }

    /** `clear_all()` */
    method Wipe()
      requires Linked() && At(Wiping(false))
      modifies this`sys, this`trace, store
      ensures Linked() && old(trace) <= trace && At(Idle)
      ensures store.contents == map[] && Messages(sys.led.past) == Messages(old(sys.led.past))
    {
      assert MoveReset(sys.pcs[me], WipeIt, sys.led, sys.line).Some?;
      store.ClearAll();
      Do(WipeIt);
    }

    /** The start of a call, up to the lock it takes first. */
    ghost method Enter(a: Action, pc: Pc)
      requires Valid() && (pc.WantsT() || pc.WantsS())
      requires MoveBegin(a, sys.led, sys.line) == Some(Effect(pc, sys.led, sys.line))
      modifies this`sys, this`trace, this`calls
      ensures Linked() && old(trace) <= trace && At(Granted(pc)) && sys.led == old(sys.led) && sys.line == old(sys.line)
      ensures calls == old(calls) + [a]
    {
      Begin(a, pc);
      Lock();
    }

    /** The start of a call. */
    ghost method Begin(a: Action, pc: Pc)
      requires Valid()
      requires MoveBegin(a, sys.led, sys.line) == Some(Effect(pc, sys.led, sys.line))
      modifies this`sys, this`trace, this`calls
      ensures Linked() && old(trace) <= trace && At(pc) && sys.led == old(sys.led) && sys.line == old(sys.line)
      ensures calls == old(calls) + [a]
    {
      DoBegin(a);
    }
  }

  /** A packet that the call waits for. */
  predicate Answer(op: Op, m: Message) {
    op.Wants(KeyOf(m)) && m.cmd in op.expected
  }

  ghost predicate NoAnswer(op: Op, ms: seq<Message>) {
    forall m | m in ms :: !Answer(op, m)
  }

  /** Nothing in the store is for the call. */
  ghost predicate NothingLeft(op: Op, f: Flat<Entry>) {
    forall k :: op.Wants(k) ==> Queue(f, k) == []
  }

  /** All that is in `f` for the call was in `f0`. */
  ghost predicate Within(op: Op, f: Flat<Entry>, f0: Flat<Entry>) {
    forall k, e :: op.Wants(k) && e in Queue(f, k) ==> e in Queue(f0, k)
  }

  /** What handling a packet that is not the result does to the store. */
  function Handled(op: Op, m: Message, f: Flat<Entry>): Flat<Entry> {
    if !op.Wants(KeyOf(m)) then FlatPut(f, KeyOf(m), Entry(m.cmd, m.data), m.cmd == CLSE)
    else if m.cmd == CLSE then f - {KeyOf(m)}
    else f
  }

  lemma GetWithin(op: Op, f: Flat<Entry>, f0: Flat<Entry>, k: Key, isClse: bool)
    requires Within(op, f, f0) && Queue(f, k) != [] && op.Wants(k)
    ensures Within(op, FlatGet(f, k, isClse), f0)
    ensures f[k][0] in Queue(f0, k)
  {
    assert f[k][0] in Queue(f, k);
  }

  lemma HandledWithin(op: Op, m: Message, f: Flat<Entry>, f0: Flat<Entry>)
    ensures Within(op, f, f0) ==> Within(op, Handled(op, m, f), f0)
    ensures NothingLeft(op, f) ==> NothingLeft(op, Handled(op, m, f))
  {
  }

  /** The packets that arrived after `past` are those read from `script`, up to `rest`. */
  ghost predicate Heard(past: seq<Message>, script: Script, all: seq<Message>, rest: Script) {
    HeardBy(ReadPacket, past, script, all, rest)
  }

  /** And then reading one more failed with `error`. */
  ghost predicate HeardFailing(past: seq<Message>, script: Script, all: seq<Message>, rest: Script, error: Failure) {
    FailedBy(ReadPacket, past, script, all, rest, error)
  }

  ghost predicate HeardBy<T>(read: Script -> Outcome<T>, past: seq<T>, script: Script, all: seq<T>, rest: Script) {
    past <= all && ReadMany(read, script, |all| - |past|) == Outcome(Ok(all[|past|..]), rest)
  }

  ghost predicate FailedBy<T>(read: Script -> Outcome<T>, past: seq<T>, script: Script, all: seq<T>,
      rest: Script, error: Failure) {
    past <= all && ReadMany(read, script, |all| - |past| + 1) == Outcome(Err(error), rest)
  }

  /** A call of `read` is not at its end: nothing it has heard is what it waits for. */
  ghost predicate SoFar(op: Op, past: seq<Message>, script: Script, all: seq<Message>, rest: Script) {
    Heard(past, script, all, rest) && past <= all && NoAnswer(op, all[|past|..])
  }

  /**
   How a call of `read` may end: with the first packet off the wire that it waits for; with one that was
   in the store at the start, before any has come; or, none having come, with the failure to read the next
   packet, or with the time being up after a packet; `late` says after how many that is so.
   */
  ghost predicate Explained(op: Op, late: nat -> bool, f0: Flat<Entry>, past: seq<Message>, script: Script,
      all: seq<Message>, rest: Script, r: Result<Message, Failure>) {
    && past <= all
    && var n := |all| - |past|;
       match r
       case Ok(m) =>
         && Heard(past, script, all, rest)
         && (|| (n > 0 && all[|all| - 1] == m && NoAnswer(op, all[|past|..|all| - 1]) && InTime(late, n - 1))
             || (n == 0 && Entry(m.cmd, m.data) in Queue(f0, KeyOf(m))))
       case Err(e) =>
         && NoAnswer(op, all[|past|..])
         && (|| (HeardFailing(past, script, all, rest, e) && InTime(late, n))
             || (e == Timeout && n > 0 && Heard(past, script, all, rest) && late(n) && InTime(late, n - 1)))
  }

  /** The time is not up after any of the first `n` packets that the call has heard. */
  ghost predicate InTime(late: nat -> bool, n: nat) {
    forall i: nat | 0 < i <= n :: !late(i)
  }

  lemma HeardNothing(past: seq<Message>, script: Script)
    ensures Heard(past, script, past, script)
    ensures forall op :: SoFar(op, past, script, past, script)
  {
    assert past[|past|..] == [];
  }

  lemma HeardMoreBy<T>(read: Script -> Outcome<T>, past: seq<T>, script: Script, all: seq<T>, rest: Script)
    requires HeardBy(read, past, script, all, rest)
    ensures var next := read(rest);
            if next.result.Ok? then HeardBy(read, past, script, all + [next.result.value], next.rest)
            else FailedBy(read, past, script, all, next.rest, next.result.error)
  {
    var next := read(rest);
    OneMore(read, script, |all| - |past|, all[|past|..], rest);
    if next.result.Ok? {
      assert (all + [next.result.value])[|past|..] == all[|past|..] + [next.result.value];
    }
  }

  lemma HeardMore(past: seq<Message>, script: Script, all: seq<Message>, rest: Script)
    requires Heard(past, script, all, rest)
    ensures var next := ReadPacket(rest);
            if next.result.Ok? then Heard(past, script, all + [next.result.value], next.rest)
            else HeardFailing(past, script, all, next.rest, next.result.error)
  {
    HeardMoreBy(ReadPacket, past, script, all, rest);
  }

  lemma TimedOut(op: Op, late: nat -> bool, f0: Flat<Entry>, past: seq<Message>, script: Script, all: seq<Message>,
        rest: Script)
    requires SoFar(op, past, script, all, rest) && all != past
    requires late(|all| - |past|) && InTime(late, |all| - |past| - 1)
    ensures Explained(op, late, f0, past, script, all, rest, Err(Timeout))
  {
  }

  /** What one packet more, or the failure to read one, makes of it. */
  lemma OneMoreHeard(op: Op, late: nat -> bool, f0: Flat<Entry>, past: seq<Message>, script: Script, all: seq<Message>,
        rest: Script)
    requires SoFar(op, past, script, all, rest) && InTime(late, |all| - |past|)
    ensures var next := ReadPacket(rest);
            match next.result
            case Err(e) => Explained(op, late, f0, past, script, all, next.rest, Err(e))
            case Ok(m) =>
              var more := all + [m];
              && (Answer(op, m) ==> Explained(op, late, f0, past, script, more, next.rest, Ok(m)))
              && (!Answer(op, m) ==> SoFar(op, past, script, more, next.rest) && more != past)
  {
    HeardMore(past, script, all, rest);
    var next := ReadPacket(rest);
    if next.result.Ok? {
      var more := all + [next.result.value];
      assert more[|past|..|more| - 1] == all[|past|..];
      assert more[|past|..] == all[|past|..] + [next.result.value];
    }
  }
}
