/** What every step of the demultiplexer keeps, and what follows for every reachable state. */
module DemuxSafety {
  import opened Bytes
  import opened AdbMessage
  import opened Stores
  import opened Ledgers
  import opened Demux

  /** Where the holder of the transport lock is. */
  function Owner(s: Sys): Pc {
    if s.tLock.Some? && s.tLock.value in s.pcs then s.pcs[s.tLock.value] else Idle
  }

  function Hand(pc: Pc): Option<nat> {
    if pc.Carrying() then Some(pc.p.id) else None
  }

  /** The two locks are held by exactly the threads that think so. */
  ghost predicate LocksOk(s: Sys) {
    && (forall t | t in s.pcs ::
          && (s.pcs[t].HoldsT() <==> s.tLock == Some(t))
          && (s.pcs[t].HoldsS() <==> s.sLock == Some(t)))
    && (s.tLock.Some? ==> s.tLock.value in s.pcs)
    && (s.sLock.Some? ==> s.sLock.value in s.pcs)
  }

  /** What the holder of the transport lock may rely on where it is. */
  ghost predicate DutyOk(l: Ledger, pc: Pc) {
    && (pc.Head? || pc.Body? || pc.Matched() ==> NothingFor(l, pc.op))
    && (pc.Carrying() ==>
          && pc.p.id < |l.past| && l.past[pc.p.id].msg == pc.p.msg
          && (pc.Matched() <==> pc.op.Wants(KeyOf(pc.p.msg))))
    && (pc.Shaking() ==> l.store == map[])
  }

  /** What `_send` of one message writes. */
  function FrameOf(m: Message): seq<Piece> {
    if m.data == [] then [HeaderOf(m)] else [HeaderOf(m), DataOf(m)]
  }

  function Frames(ms: seq<Message>): seq<Piece> {
    if ms == [] then [] else Frames(ms[..|ms| - 1]) + FrameOf(ms[|ms| - 1])
  }

  /** The header of a message whose data is not out yet. */
  function Begun(pc: Pc): seq<Piece> {
    if pc.SendBody? || pc.ShakeSendBody? then [HeaderOf(pc.msg)] else []
  }

  /** The header of a packet whose data has not been read. */
  function Opened(pc: Pc): seq<Piece> {
    if pc.Body? || pc.ShakeBody? then [HeaderOf(pc.msg)] else []
  }

  ghost predicate OutOk(line: Line, pc: Pc) {
    && (forall m | m in line.sent :: Encodable(m))
    && (pc.SendBody? || pc.ShakeSendBody? ==> Encodable(pc.msg) && pc.msg.data != [])
    && (!line.torn ==> line.written == Frames(line.sent) + Begun(pc))
  }

  ghost predicate InOk(line: Line, pc: Pc) {
    && (forall m | m in line.received :: Encodable(m))
    && (pc.Body? || pc.ShakeBody? ==> Encodable(pc.msg) && pc.msg.data != [])
    && (!line.readFailed ==> line.taken == Frames(line.received) + Opened(pc))
  }

  ghost predicate LineOk(line: Line, pc: Pc) {
    OutOk(line, pc) && InOk(line, pc)
  }

  ghost predicate LedgerOk(l: Ledger, pc: Pc) {
    Ledgers.Inv(l, Hand(pc)) && DutyOk(l, pc)
  }

  /** A call of `read` has a local id. */
  predicate CallOk(pc: Pc) {
    pc.Reading() ==> pc.op.info.localId.Some?
  }

  ghost predicate Safe(s: Sys) {
    && LocksOk(s) && LedgerOk(s.led, Owner(s)) && LineOk(s.line, Owner(s))
    && forall t | t in s.pcs :: CallOk(s.pcs[t])
  }

  lemma InitSafe(threads: set<Tid>)
    ensures Safe(Init(threads))
  {
    var s := Init(threads);
    assert forall k :: QueueOk(s.led, k);
  }

  // ---- Locks

  /** No step but `Acquire` ends up with a lock the thread did not have. */
  lemma MoveLocks(pc: Pc, a: Action, led: Ledger, line: Line)
    requires Move(pc, a, led, line).Some?
    ensures var pc' := Move(pc, a, led, line).value.pc;
            && (pc'.HoldsT() ==> pc.HoldsT() || (a.Acquire? && pc.WantsT()))
            && (pc'.HoldsS() ==> pc.HoldsS() || (a.Acquire? && pc.WantsS()))
  {
  }

  /** The holder of the transport lock after thread `t` has moved to `pc`. */
  function OwnerAfter(s: Sys, t: Tid, pc: Pc): Pc {
    if pc.HoldsT() then pc else if s.tLock == Some(t) then Idle else Owner(s)
  }

  lemma StepLocks(s: Sys, t: Tid, a: Action)
    requires LocksOk(s) && Next(s, t, a).Some?
    ensures var s', e := Next(s, t, a).value, Move(s.pcs[t], a, s.led, s.line).value;
            LocksOk(s') && Owner(s') == OwnerAfter(s, t, e.pc)
    ensures s.pcs[t].HoldsT() ==> Owner(s) == s.pcs[t]
  {
    MoveLocks(s.pcs[t], a, s.led, s.line);
  }

  /** The holder of the transport lock after a step of a thread at `pc`, which may be it. */
  function OwnerThen(owner: Pc, pc: Pc, pc': Pc): Pc {
    if pc'.HoldsT() then pc' else if pc.HoldsT() then Idle else owner
  }

  // ---- The ledger

  lemma TakeLeavesNothing(l: Ledger, k: Key, op: Op, other: Op)
    requires Queue(l.store, k) != [] && NothingFor(l, other)
    ensures NothingFor(Take(l, k, op), other)
  {
  }

  /** Draining, with or without the transport lock. */
  lemma GetLedger(l: Ledger, owner: Pc, pc: Pc, k: Key, line: Line)
    requires LedgerOk(l, owner) && (pc.AgainDrain? ==> owner == pc)
    requires MoveGet(pc, k, l, line).Some?
    ensures var e := MoveGet(pc, k, l, line).value;
            LedgerOk(e.led, if pc.AgainDrain? then e.pc else owner)
  {
    TakeKeeps(l, Hand(owner), k, pc.op);
    if owner.Head? || owner.Body? || owner.Matched() {
      TakeLeavesNothing(l, k, pc.op, owner.op);
    }
  }

  lemma AcquireLedger(l: Ledger, owner: Pc, pc: Pc, line: Line)
    requires LedgerOk(l, owner)
    requires if pc.HoldsT() then owner == pc else pc.WantsT() ==> owner == Idle
    requires Move(pc, Acquire, l, line).Some?
    ensures var e := Move(pc, Acquire, l, line).value;
            LedgerOk(e.led, OwnerThen(owner, pc, e.pc))
  {
  }

  lemma WriteLedger(l: Ledger, pc: Pc, a: Action, line: Line)
    requires LedgerOk(l, pc)
    requires MoveWrite(pc, a, l, line).Some?
    ensures var e := MoveWrite(pc, a, l, line).value;
            LedgerOk(e.led, if e.pc.HoldsT() then e.pc else Idle)
  {
  }

  lemma ReceiveLedger(l: Ledger, op: Op, m: Message, line: Line)
    requires Ledgers.Inv(l, None) && NothingFor(l, op)
    ensures var e := Receive(op, m, l, line);
            LedgerOk(e.led, e.pc)
  {
    ArriveKeeps(l, m);
  }

  lemma WireLedger(l: Ledger, pc: Pc, a: Action, line: Line)
    requires LedgerOk(l, pc)
    requires a.Header? || a.Rest?
    requires Move(pc, a, l, line).Some?
    ensures var e := Move(pc, a, l, line).value;
            LedgerOk(e.led, e.pc)
  {
    if pc.Head? || pc.Body? {
      ReceiveLedger(l, pc.op, if a.Header? then a.msg else pc.msg, line);
    } else {
      GreetKeeps(l, if a.Header? then a.msg else pc.msg);
    }
  }

  lemma ReadLedger(l: Ledger, pc: Pc, a: Action, line: Line)
    requires LedgerOk(l, pc)
    requires MoveRead(pc, a, l, line).Some?
    ensures var e := MoveRead(pc, a, l, line).value;
            LedgerOk(e.led, if e.pc.HoldsT() then e.pc else Idle)
  {
    match a
    case PutIt => PutKeeps(l, pc.p);
    case ClearIt => ClearKeeps(l, Hand(pc), KeyOf(pc.p.msg));
    case JudgeIt => JudgeKeeps(l, pc.p, pc.op);
    case _ =>
  }

  lemma ResetLedger(l: Ledger, pc: Pc, a: Action, line: Line)
    requires LedgerOk(l, pc)
    requires MoveReset(pc, a, l, line).Some?
    ensures var e := MoveReset(pc, a, l, line).value;
            LedgerOk(e.led, if e.pc.HoldsT() then e.pc else Idle)
  {
    match a
    case WipeIt => ClearAllKeeps(l);
    case Connect => DialKeeps(l);
    case _ =>
  }

  lemma DrainedLedger(l: Ledger, owner: Pc, pc: Pc, line: Line)
    requires LedgerOk(l, owner) && (pc.HoldsT() ==> owner == pc)
    requires MoveDrained(pc, l, line).Some?
    ensures var e := MoveDrained(pc, l, line).value;
            LedgerOk(e.led, OwnerThen(owner, pc, e.pc))
  {
  }

  /** Steps between positions without the transport lock, other than draining. */
  lemma OutsideLedger(l: Ledger, pc: Pc, a: Action, line: Line)
    requires a.BeginRead? || a.BeginSend? || a.BeginReset? || a.TimeUp? || a.TryAgain?
    requires Move(pc, a, l, line).Some?
    ensures var e := Move(pc, a, l, line).value;
            e.led == l && !pc.HoldsT() && !e.pc.HoldsT()
  {
  }

  lemma HoldsForMove(pc: Pc, a: Action, l: Ledger, line: Line)
    requires !(a.Acquire? || a.BeginRead? || a.BeginSend? || a.BeginReset? ||
               a.TimeUp? || a.TryAgain? || a.Drained? || a.Get?)
    requires Move(pc, a, l, line).Some?
    ensures pc.HoldsT()
  {
  }

  /** Steps of the holder of the transport lock on the transport. */
  lemma TransportLedger(l: Ledger, pc: Pc, a: Action, line: Line)
    requires LedgerOk(l, pc)
    requires a.Write? || a.WriteFails? || a.Header? || a.Rest?
    requires Move(pc, a, l, line).Some?
    ensures var e := Move(pc, a, l, line).value;
            LedgerOk(e.led, if e.pc.HoldsT() then e.pc else Idle)
  {
    if a.Write? || a.WriteFails? {
      WriteLedger(l, pc, a, line);
    } else {
      WireLedger(l, pc, a, line);
    }
  }

  /** Steps of the holder of the transport lock on the transport or the store. */
  lemma HolderLedger(l: Ledger, pc: Pc, a: Action, line: Line)
    requires LedgerOk(l, pc)
    requires !(a.Acquire? || a.BeginRead? || a.BeginSend? || a.BeginReset? ||
               a.TimeUp? || a.TryAgain? || a.Drained? || a.Get?)
    requires Move(pc, a, l, line).Some?
    ensures var e := Move(pc, a, l, line).value;
            LedgerOk(e.led, if e.pc.HoldsT() then e.pc else Idle)
  {
    if a.Write? || a.WriteFails? || a.Header? || a.Rest? {
      TransportLedger(l, pc, a, line);
    } else if a.ReadFails? || a.PutIt? || a.ClearIt? || a.JudgeIt? {
      ReadLedger(l, pc, a, line);
    } else {
      ResetLedger(l, pc, a, line);
    }
  }

  lemma MoveLedger(l: Ledger, owner: Pc, pc: Pc, a: Action, line: Line)
    requires LedgerOk(l, owner)
    requires if pc.HoldsT() then owner == pc else a.Acquire? && pc.WantsT() ==> owner == Idle
    requires Move(pc, a, l, line).Some?
    ensures var e := Move(pc, a, l, line).value;
            LedgerOk(e.led, OwnerThen(owner, pc, e.pc))
  {
    if a.Acquire? {
      AcquireLedger(l, owner, pc, line);
    } else if a.BeginRead? || a.BeginSend? || a.BeginReset? || a.TimeUp? || a.TryAgain? {
      OutsideLedger(l, pc, a, line);
    } else if a.Drained? {
      DrainedLedger(l, owner, pc, line);
    } else if a.Get? {
      GetLedger(l, owner, pc, a.k, line);
    } else {
      HoldsForMove(pc, a, l, line);
      HolderLedger(l, pc, a, line);
    }
  }

  // ---- The connection

  lemma FramesSnoc(ms: seq<Message>, m: Message)
    ensures Frames(ms + [m]) == Frames(ms) + FrameOf(m)
    ensures m.data != [] ==> Frames(ms + [m]) == Frames(ms) + [HeaderOf(m)] + [DataOf(m)]
  {
    assert (ms + [m])[..|ms|] == ms;
  }

  /** A message without data is all there once its header is. */
  lemma HeaderOut(line: Line, m: Message)
    requires OutOk(line, Idle) && Encodable(m) && m.data == []
    ensures OutOk(line.(written := line.written + [HeaderOf(m)], sent := line.sent + [m]), Idle)
  {
    FramesSnoc(line.sent, m);
    assert Frames(line.sent) + [] == Frames(line.sent);
  }

  /** Writing a header begins a message, or is all of it. */
  lemma HeaderLine(led: Ledger, pc: Pc, line: Line)
    requires OutOk(line, pc) && (pc.SendHead? || pc.ShakeSend?)
    requires MoveWrite(pc, Write, led, line).Some?
    ensures var e := MoveWrite(pc, Write, led, line).value;
            OutOk(e.line, if e.pc.HoldsT() then e.pc else Idle)
  {
    var m := pc.msg;
    if m.data == [] {
      HeaderOut(line, m);
      var e := MoveWrite(pc, Write, led, line).value;
      assert e.line == line.(written := line.written + [HeaderOf(m)], sent := line.sent + [m]);
    } else {
      assert line.written + [HeaderOf(m)] == (line.written + []) + [HeaderOf(m)];
    }
  }

  lemma DataLine(led: Ledger, pc: Pc, line: Line)
    requires OutOk(line, pc) && (pc.SendBody? || pc.ShakeSendBody?)
    requires MoveWrite(pc, Write, led, line).Some?
    ensures var e := MoveWrite(pc, Write, led, line).value;
            OutOk(e.line, if e.pc.HoldsT() then e.pc else Idle)
  {
    FramesSnoc(line.sent, pc.msg);
  }

  /** Writing leaves what is read alone. */
  lemma WriteIn(led: Ledger, pc: Pc, a: Action, line: Line)
    requires MoveWrite(pc, a, led, line).Some? && InOk(line, pc)
    ensures var e := MoveWrite(pc, a, led, line).value;
            InOk(e.line, if e.pc.HoldsT() then e.pc else Idle)
  {
  }

  lemma WriteLine(led: Ledger, pc: Pc, a: Action, line: Line)
    requires LineOk(line, pc)
    requires MoveWrite(pc, a, led, line).Some?
    ensures var e := MoveWrite(pc, a, led, line).value;
            LineOk(e.line, if e.pc.HoldsT() then e.pc else Idle)
  {
    WriteIn(led, pc, a, line);
    if a.Write? {
      if pc.SendHead? || pc.ShakeSend? {
        HeaderLine(led, pc, line);
      } else {
        DataLine(led, pc, line);
      }
    }
  }

  /** What has been read is whole packets. */
  ghost predicate Whole(line: Line) {
    && (forall m | m in line.received :: Encodable(m))
    && (!line.readFailed ==> line.taken == Frames(line.received))
  }

  lemma WholeIn(line: Line, pc: Pc)
    requires !pc.Body? && !pc.ShakeBody?
    ensures InOk(line, pc) <==> Whole(line)
  {
    assert Frames(line.received) + [] == Frames(line.received);
  }

  /** A packet read to its end is one frame more. */
  lemma TakenIn(line: Line, pc: Pc, m: Message)
    requires InOk(line, pc) && Encodable(m)
    requires if pc.Body? || pc.ShakeBody? then m == pc.msg else m.data == []
    ensures Whole(PacketTaken(line, m))
  {
    FramesSnoc(line.received, m);
    assert Frames(line.received) + [] == Frames(line.received);
  }

  lemma HeaderIn(led: Ledger, pc: Pc, m: Message, line: Line)
    requires InOk(line, pc)
    requires MoveHeader(pc, m, led, line).Some?
    ensures var e := MoveHeader(pc, m, led, line).value;
            e.pc.HoldsT() && InOk(e.line, e.pc)
  {
    if m.data == [] {
      TakenIn(line, pc, m);
      WholeIn(PacketTaken(line, m), MoveHeader(pc, m, led, line).value.pc);
    } else {
      WholeIn(line, pc);
    }
  }

  lemma RestIn(led: Ledger, pc: Pc, line: Line)
    requires InOk(line, pc)
    requires MoveRest(pc, led, line).Some?
    ensures var e := MoveRest(pc, led, line).value;
            e.pc.HoldsT() && InOk(e.line, e.pc)
  {
    TakenIn(line, pc, pc.msg);
    WholeIn(PacketTaken(line, pc.msg), MoveRest(pc, led, line).value.pc);
  }

  lemma WireLine(led: Ledger, pc: Pc, a: Action, line: Line)
    requires LineOk(line, pc)
    requires a.Header? || a.Rest?
    requires Move(pc, a, led, line).Some?
    ensures var e := Move(pc, a, led, line).value;
            e.pc.HoldsT() && LineOk(e.line, e.pc)
  {
    if a.Header? {
      HeaderIn(led, pc, a.msg, line);
    } else {
      RestIn(led, pc, line);
    }
  }

  lemma FailLine(led: Ledger, pc: Pc, line: Line)
    requires LineOk(line, pc)
    requires MoveRead(pc, ReadFails, led, line).Some?
    ensures var e := MoveRead(pc, ReadFails, led, line).value;
            e.pc == Idle && LineOk(e.line, Idle)
  {
  }

  lemma ReadLine(led: Ledger, pc: Pc, a: Action, line: Line)
    requires LineOk(line, pc)
    requires a.Header? || a.Rest? || a.ReadFails? || a.Connect?
    requires Move(pc, a, led, line).Some?
    ensures var e := Move(pc, a, led, line).value;
            LineOk(e.line, if e.pc.HoldsT() then e.pc else Idle)
  {
    if a.Header? || a.Rest? {
      WireLine(led, pc, a, line);
    } else if a.ReadFails? {
      FailLine(led, pc, line);
    }
  }

  predicate MidFrame(pc: Pc) {
    pc.Body? || pc.ShakeBody? || pc.SendBody? || pc.ShakeSendBody?
  }

  lemma QuietHolder(led: Ledger, pc: Pc, a: Action, line: Line)
    requires a.Close? || a.WipeIt? || a.Fail? || a.Compose? || a.Finish? || a.PutIt? || a.ClearIt? || a.JudgeIt?
    requires Move(pc, a, led, line).Some?
    ensures var e := Move(pc, a, led, line).value;
            e.line == line && pc.HoldsT() && !MidFrame(pc) && !MidFrame(e.pc)
  {
  }

  lemma QuietOther(led: Ledger, pc: Pc, a: Action, line: Line)
    requires a.Acquire? || a.BeginRead? || a.BeginSend? || a.BeginReset? ||
             a.TimeUp? || a.TryAgain? || a.Drained? || a.Get?
    requires Move(pc, a, led, line).Some?
    ensures var e := Move(pc, a, led, line).value;
            e.line == line && !MidFrame(pc) && !MidFrame(e.pc)
  {
  }

  lemma MoveLine(led: Ledger, owner: Pc, pc: Pc, a: Action, line: Line)
    requires LineOk(line, owner)
    requires if pc.HoldsT() then owner == pc else a.Acquire? && pc.WantsT() ==> owner == Idle
    requires Move(pc, a, led, line).Some?
    ensures var e := Move(pc, a, led, line).value;
            LineOk(e.line, OwnerThen(owner, pc, e.pc))
  {
    MoveLocks(pc, a, led, line);
    if a.Acquire? || a.BeginRead? || a.BeginSend? || a.BeginReset? || a.TimeUp? || a.TryAgain? || a.Drained? || a.Get? {
      QuietOther(led, pc, a, line);
    } else {
      HoldsForMove(pc, a, led, line);
      if a.Write? || a.WriteFails? {
        WriteLine(led, pc, a, line);
      } else if a.Header? || a.Rest? || a.ReadFails? || a.Connect? {
        ReadLine(led, pc, a, line);
      } else {
        QuietHolder(led, pc, a, line);
      }
    }
  }

  // ---- Calls

  lemma OtherCall(led: Ledger, pc: Pc, a: Action, line: Line)
    requires MoveRead(pc, a, led, line).Some? || MoveWrite(pc, a, led, line).Some? || MoveReset(pc, a, led, line).Some?
    ensures MoveRead(pc, a, led, line).Some? && CallOk(pc) ==> CallOk(MoveRead(pc, a, led, line).value.pc)
    ensures MoveWrite(pc, a, led, line).Some? ==> CallOk(MoveWrite(pc, a, led, line).value.pc)
    ensures MoveReset(pc, a, led, line).Some? ==> CallOk(MoveReset(pc, a, led, line).value.pc)
  {
  }

  lemma MoveCall(led: Ledger, pc: Pc, a: Action, line: Line)
    requires CallOk(pc) && Move(pc, a, led, line).Some?
    ensures CallOk(Move(pc, a, led, line).value.pc)
  {
    if a.BeginRead? || a.BeginSend? || a.BeginReset? || a.Acquire? || a.Get? || a.Drained? || a.Header? || a.Rest? {
    } else {
      OtherCall(led, pc, a, line);
    }
  }

  // ---- Runs

  lemma StepKeeps(s: Sys, t: Tid, a: Action)
    requires Safe(s) && Next(s, t, a).Some?
    ensures Safe(Next(s, t, a).value)
  {
    StepLocks(s, t, a);
    MoveLedger(s.led, Owner(s), s.pcs[t], a, s.line);
    MoveLine(s.led, Owner(s), s.pcs[t], a, s.line);
    MoveCall(s.led, s.pcs[t], a, s.line);
  }

  lemma {:induction false} RunKeeps(s: Sys, run: Run)
    requires Safe(s) && Exec(s, run).Some?
    ensures Safe(Exec(s, run).value)
    decreases |run|
  {
    if run == [] {
    } else {
      StepKeeps(s, run[0].0, run[0].1);
      RunKeeps(Next(s, run[0].0, run[0].1).value, run[1..]);
    }
  }

  ghost predicate Reachable(s: Sys) {
    exists threads, run :: Exec(Init(threads), run) == Some(s)
  }

  lemma ReachableSafe(s: Sys)
    requires Reachable(s)
    ensures Safe(s)
  {
    var threads, run :| Exec(Init(threads), run) == Some(s);
    InitSafe(threads);
    RunKeeps(Init(threads), run);
  }
}
