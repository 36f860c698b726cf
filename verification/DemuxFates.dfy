/** What runs do to the fates of packets. */
module DemuxFates {
  import opened Bytes
  import opened AdbMessage
  import opened Stores
  import opened Ledgers
  import opened Demux
  import opened DemuxSafety

  // ---- A fate that is not to wait any longer is final

  /** Packets stay what they are, new ones get new numbers, fates are final, and the log only grows. */
  ghost predicate Grows(l: Ledger, l': Ledger) {
    && l.log <= l'.log && |l.past| <= |l'.past|
    && forall i | 0 <= i < |l.past| ::
         l'.past[i].msg == l.past[i].msg && (!l.past[i].fate.Live() ==> l'.past[i] == l.past[i])
  }

  lemma TakeGrows(l: Ledger, hand: Option<nat>, k: Key, op: Op)
    requires Ledgers.Inv(l, hand) && Queue(l.store, k) != []
    ensures Grows(l, Take(l, k, op))
  {
    assert QueueOk(l, k);
    assert Queue(l.store, k)[0] == l.store[k][0];
    forall i | 0 <= i < |l.past| ensures Take(l, k, op).past[i] == AfterTake(l, k, op, i) {
      TakeEffect(l, hand, k, op, i);
    }
  }

  lemma ReaderGrows(pc: Pc, a: Action, led: Ledger, line: Line)
    requires LedgerOk(led, pc)
    requires MoveRead(pc, a, led, line).Some?
    ensures Grows(led, MoveRead(pc, a, led, line).value.led)
  {
  }

  lemma OtherGrows(pc: Pc, a: Action, led: Ledger, line: Line)
    requires !(a.Get? || a.ReadFails? || a.PutIt? || a.ClearIt? || a.JudgeIt? || a.TimeUp? || a.TryAgain?)
    requires Move(pc, a, led, line).Some?
    ensures Grows(led, Move(pc, a, led, line).value.led)
  {
  }

  lemma MoveGrows(pc: Pc, a: Action, led: Ledger, line: Line, owner: Pc)
    requires LedgerOk(led, owner) && (pc.HoldsT() ==> owner == pc)
    requires Move(pc, a, led, line).Some?
    ensures Grows(led, Move(pc, a, led, line).value.led)
  {
    if a.Get? {
      TakeGrows(led, Hand(owner), a.k, pc.op);
    } else if a.ReadFails? || a.PutIt? || a.ClearIt? || a.JudgeIt? {
      ReaderGrows(pc, a, led, line);
    } else if a.TimeUp? || a.TryAgain? {
    } else {
      OtherGrows(pc, a, led, line);
    }
  }

  lemma StepGrows(s: Sys, t: Tid, a: Action)
    requires Safe(s) && Next(s, t, a).Some?
    ensures Grows(s.led, Next(s, t, a).value.led)
  {
    StepLocks(s, t, a);
    MoveGrows(s.pcs[t], a, s.led, s.line, Owner(s));
  }

  lemma {:induction false} RunGrows(s: Sys, run: Run)
    requires Safe(s) && Exec(s, run).Some?
    ensures Grows(s.led, Exec(s, run).value.led)
    decreases |run|
  {
    if run != [] {
      var (t, a) := run[0];
      StepKeeps(s, t, a);
      StepGrows(s, t, a);
      RunGrows(Next(s, t, a).value, run[1..]);
    }
  }

  // ---- What may become of a queued packet

  lemma ReaderQueued(pc: Pc, a: Action, led: Ledger, line: Line, i: nat)
    requires LedgerOk(led, pc) && i < |led.past| && led.past[i].fate.Queued?
    requires MoveRead(pc, a, led, line).Some?
    ensures i < |MoveRead(pc, a, led, line).value.led.past|
    ensures MoveRead(pc, a, led, line).value.led.past[i] == led.past[i]
  {
    if a.ClearIt? {
      assert RecordOk(led, Hand(pc), i);
    }
  }

  lemma OtherQueued(pc: Pc, a: Action, led: Ledger, line: Line, i: nat)
    requires !(a.Get? || a.ReadFails? || a.PutIt? || a.ClearIt? || a.JudgeIt? || a.TimeUp? || a.TryAgain?)
    requires i < |led.past| && led.past[i].fate.Queued?
    requires Move(pc, a, led, line).Some?
    ensures i < |Move(pc, a, led, line).value.led.past|
    ensures Move(pc, a, led, line).value.led.past[i].fate == if a.WipeIt? then Wiped else Queued
  {
  }

  /** It is taken, it goes with a CLSE that is taken, it goes with the whole store, or it stays. */
  lemma MoveQueued(pc: Pc, a: Action, led: Ledger, line: Line, owner: Pc, i: nat)
    requires LedgerOk(led, owner) && (pc.HoldsT() ==> owner == pc)
    requires i < |led.past| && led.past[i].fate.Queued?
    requires Move(pc, a, led, line).Some?
    ensures i < |Move(pc, a, led, line).value.led.past|
    ensures a.Get? ==> Queue(led.store, a.k) != []
    ensures Move(pc, a, led, line).value.led.past[i].fate ==
            if a.Get? then AfterTake(led, a.k, pc.op, i).fate else if a.WipeIt? then Wiped else Queued
  {
    if a.Get? {
      assert QueueOk(led, a.k);
      TakeEffect(led, Hand(owner), a.k, pc.op, i);
    } else if a.ReadFails? || a.PutIt? || a.ClearIt? || a.JudgeIt? {
      ReaderQueued(pc, a, led, line, i);
    } else if a.TimeUp? || a.TryAgain? {
    } else {
      OtherQueued(pc, a, led, line, i);
    }
  }

  lemma StepQueued(s: Sys, t: Tid, a: Action, i: nat)
    requires Safe(s) && Next(s, t, a).Some? && i < |s.led.past| && s.led.past[i].fate.Queued?
    ensures i < |Next(s, t, a).value.led.past|
    ensures a.Get? ==> s.pcs[t].Reading() && Queue(s.led.store, a.k) != []
    ensures Next(s, t, a).value.led.past[i].fate ==
            if a.Get? then AfterTake(s.led, a.k, s.pcs[t].op, i).fate else if a.WipeIt? then Wiped else Queued
  {
    StepLocks(s, t, a);
    MoveQueued(s.pcs[t], a, s.led, s.line, Owner(s), i);
  }
}
