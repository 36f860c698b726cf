/** What becomes of a CLSE that another thread reads. */
module DemuxCloses {
  import opened Bytes
  import opened AdbMessage
  import opened Stores
  import opened Ledgers
  import opened Demux
  import opened DemuxFates
  import opened DemuxSafety
  import DS = DemuxStreams

  /** A CLSE with number `c` is queued in front of packet `i`. */
  predicate Ahead(l: Ledger, i: nat, c: nat)
    requires i < |l.past|
  {
    && c < i && l.past[c].fate.Queued? && l.past[c].msg.cmd == CLSE
    && KeyOf(l.past[c].msg) == KeyOf(l.past[i].msg)
  }

  /** What can have become of packet `i`, queued in `l0`, and of the CLSEs in front of it. */
  ghost predicate Follows(l0: Ledger, i: nat, l: Ledger)
    requires i < |l0.past| <= |l.past|
  {
    match l.past[i].fate
    case Queued => forall c: nat :: Ahead(l, i, c) <==> Ahead(l0, i, c)
    case Returned(_) => forall c: nat :: !Ahead(l0, i, c)
    case Discarded(_) => forall c: nat :: !Ahead(l0, i, c)
    case Behind(c) => Ahead(l0, i, c) && l.past[c].fate.Consumed()
    case Wiped => forall c: nat :: Ahead(l0, i, c) ==> l.past[c].fate.Wiped?
    case _ => false
  }

  lemma FollowsFinal(l0: Ledger, i: nat, l: Ledger, l': Ledger)
    requires i < |l0.past| <= |l.past| && Grows(l, l')
    requires Follows(l0, i, l) && !l.past[i].fate.Queued?
    ensures Follows(l0, i, l')
  {
  }

  lemma FollowsTake(l0: Ledger, i: nat, l: Ledger, hand: Option<nat>, k: Key, op: Op)
    requires Ledgers.Inv(l, hand) && Queue(l.store, k) != []
    requires i < |l0.past| <= |l.past|
    requires Follows(l0, i, l) && l.past[i].fate.Queued?
    ensures Follows(l0, i, Take(l, k, op))
  {
    assert QueueOk(l, k);
    assert Queue(l.store, k)[0] == l.store[k][0];
    forall c: nat | c <= i ensures Take(l, k, op).past[c] == AfterTake(l, k, op, c) {
      TakeEffect(l, hand, k, op, c);
    }
    forall c: nat | c <= i && l.past[c].fate.Queued? && KeyOf(l.past[c].msg) == k ensures l.store[k][0].id <= c {
      QueuedAreInQueue(l, hand, k, c);
    }
    assert Ahead(l, i, l.store[k][0].id) <==> Ahead(l0, i, l.store[k][0].id);
  }

  /** Nothing in front of packet `i` changes, but that all that is queued may be wiped. */
  lemma FollowsQuiet(l0: Ledger, i: nat, l: Ledger, l': Ledger, wiped: bool)
    requires i < |l0.past| <= |l.past| && Grows(l, l')
    requires Follows(l0, i, l) && l.past[i].fate.Queued?
    requires forall c: nat | c <= i ::
               l'.past[c].fate == if l.past[c].fate.Queued? && wiped then Wiped else l.past[c].fate
    ensures Follows(l0, i, l')
  {
    if wiped {
      forall c: nat | Ahead(l0, i, c) ensures l'.past[c].fate.Wiped? { assert Ahead(l, i, c); }
    } else {
      forall c: nat ensures Ahead(l', i, c) <==> Ahead(l0, i, c) { assert Ahead(l, i, c) <==> Ahead(l0, i, c); }
    }
  }

  lemma FollowsOther(s: Sys, t: Tid, a: Action, l0: Ledger, i: nat)
    requires Safe(s) && Next(s, t, a).Some? && !a.Get?
    requires i < |l0.past| <= |s.led.past| && Follows(l0, i, s.led) && s.led.past[i].fate.Queued?
    ensures |s.led.past| <= |Next(s, t, a).value.led.past| && Follows(l0, i, Next(s, t, a).value.led)
  {
    var l, l' := s.led, Next(s, t, a).value.led;
    StepGrows(s, t, a);
    forall c: nat | c <= i
      ensures l'.past[c].fate == if l.past[c].fate.Queued? && a.WipeIt? then Wiped else l.past[c].fate
    {
      if l.past[c].fate.Queued? {
        StepQueued(s, t, a, c);
      } else {
        assert RecordOk(l, Hand(Owner(s)), c);
      }
    }
    FollowsQuiet(l0, i, l, l', a.WipeIt?);
  }

  lemma FollowsStep(s: Sys, t: Tid, a: Action, l0: Ledger, i: nat)
    requires Safe(s) && Next(s, t, a).Some?
    requires i < |l0.past| <= |s.led.past| && Follows(l0, i, s.led)
    ensures |s.led.past| <= |Next(s, t, a).value.led.past| && Follows(l0, i, Next(s, t, a).value.led)
  {
    StepGrows(s, t, a);
    if !s.led.past[i].fate.Queued? {
      FollowsFinal(l0, i, s.led, Next(s, t, a).value.led);
    } else if a.Get? {
      StepQueued(s, t, a, i);
      assert MoveGet(s.pcs[t], a.k, s.led, s.line).Some?;
      FollowsTake(l0, i, s.led, Hand(Owner(s)), a.k, s.pcs[t].op);
    } else {
      FollowsOther(s, t, a, l0, i);
    }
  }

  lemma {:induction false} FollowsRun(s: Sys, run: Run, l0: Ledger, i: nat)
    requires Safe(s) && Exec(s, run).Some?
    requires i < |l0.past| <= |s.led.past| && Follows(l0, i, s.led)
    ensures |l0.past| <= |Exec(s, run).value.led.past| && Follows(l0, i, Exec(s, run).value.led)
    decreases |run|
  {
    if run != [] {
      var (t, a) := run[0];
      StepKeeps(s, t, a);
      FollowsStep(s, t, a, l0, i);
      FollowsRun(Next(s, t, a).value, run[1..], l0, i);
    }
  }

  /** `clear_all` in the run. */
  ghost predicate Wipes(run: Run) {
    exists j | 0 <= j < |run| :: run[j].1.WipeIt?
  }

  lemma {:induction false} WipedByWipe(s: Sys, run: Run, i: nat)
    requires Safe(s) && Exec(s, run).Some? && i < |s.led.past| && s.led.past[i].fate.Queued?
    ensures i < |Exec(s, run).value.led.past|
    ensures Exec(s, run).value.led.past[i].fate.Wiped? ==> Wipes(run)
    decreases |run|
  {
    if run != [] {
      var (t, a) := run[0];
      var s', rest := Next(s, t, a).value, run[1..];
      StepKeeps(s, t, a);
      NotWiped(s, t, a, i);
      RunGrows(s', rest);
      if s'.led.past[i].fate.Queued? {
        WipedByWipe(s', rest, i);
        assert Wipes(rest) ==> Wipes(run) by { assert rest == run[1..]; }
      } else if a.WipeIt? {
        assert run[0].1.WipeIt?;
      }
    }
  }

  lemma NotWiped(s: Sys, t: Tid, a: Action, i: nat)
    requires Safe(s) && Next(s, t, a).Some? && i < |s.led.past| && s.led.past[i].fate.Queued?
    ensures i < |Next(s, t, a).value.led.past|
    ensures var f := Next(s, t, a).value.led.past[i].fate;
            !f.InHand? && (f.Wiped? ==> a.WipeIt?)
  {
    StepQueued(s, t, a, i);
  }

  /** A CLSE that was queued under the key has been consumed since. */
  ghost predicate CloseTaken(s: Sys, k: Key, later: Sys) {
    exists p | p in Queue(s.led.store, k) ::
      p.msg.cmd == CLSE && p.id < |later.led.past| && later.led.past[p.id].fate.Consumed()
  }

  /** Thread `t`, having read packet `p` for another stream, a CLSE, puts it away. */
  predicate PutsClose(s: Sys, t: Tid, p: Packet, s': Sys) {
    && t in s.pcs && s.pcs[t].Putting? && s.pcs[t].p == p && p.msg.cmd == CLSE
    && Next(s, t, PutIt) == Some(s')
  }

  lemma PutQueued(s: Sys, t: Tid, p: Packet, s': Sys)
    requires Safe(s) && PutsClose(s, t, p, s')
    ensures Safe(s') && p.id < |s.led.past| == |s'.led.past| && s'.led == Put(s.led, p)
    ensures s'.led.past[p.id].msg == p.msg
    ensures s'.led.past[p.id].fate == if KeyOf(p.msg) !in s.led.store then NoEntry else Queued
  {
    StepKeeps(s, t, PutIt);
    assert MoveRead(s.pcs[t], PutIt, s.led, s.line).Some?;
  }

  /** The CLSEs in front of one that is put away are those queued under its key. */
  lemma AheadIsQueued(s: Sys, t: Tid, p: Packet, s': Sys, c: nat)
    requires Safe(s) && PutsClose(s, t, p, s')
    requires KeyOf(p.msg) in s.led.store
    ensures p.id < |s'.led.past|
    ensures Ahead(s'.led, p.id, c) <==>
            exists q | q in Queue(s.led.store, KeyOf(p.msg)) :: q.id == c && q.msg.cmd == CLSE
  {
    PutQueued(s, t, p, s');
    assert QueueOk(s.led, KeyOf(p.msg));
    if c < |s.led.past| {
      QueuedAreInQueue(s.led, Hand(Owner(s)), KeyOf(p.msg), c);
    }
  }

  /** A CLSE put away where its key has an entry follows the CLSEs in front of it, to the end of any run. */
  lemma KeptFollows(s: Sys, t: Tid, p: Packet, s': Sys, run: Run, s'': Sys)
    requires Safe(s) && PutsClose(s, t, p, s')
    requires KeyOf(p.msg) in s.led.store && Exec(s', run) == Some(s'')
    ensures p.id < |s'.led.past| <= |s''.led.past| && Follows(s'.led, p.id, s''.led)
    ensures s''.led.past[p.id].fate.Wiped? ==> Wipes(run)
  {
    PutQueued(s, t, p, s');
    FollowsRun(s', run, s'.led, p.id);
    WipedByWipe(s', run, p.id);
  }

  /** It ends behind a CLSE exactly if one that was queued in front of it has been consumed. */
  lemma BehindIsTaken(s: Sys, t: Tid, p: Packet, s': Sys, later: Sys)
    requires Safe(s) && PutsClose(s, t, p, s')
    requires KeyOf(p.msg) in s.led.store
    requires p.id < |s'.led.past| <= |later.led.past| && Follows(s'.led, p.id, later.led)
    ensures later.led.past[p.id].fate.Behind? <==> CloseTaken(s, KeyOf(p.msg), later)
  {
    var i, k := p.id, KeyOf(p.msg);
    if later.led.past[i].fate.Behind? {
      AheadIsQueued(s, t, p, s', later.led.past[i].fate.close);
    }
    if CloseTaken(s, k, later) {
      var q :| q in Queue(s.led.store, k) &&
        q.msg.cmd == CLSE && q.id < |later.led.past| && later.led.past[q.id].fate.Consumed();
      AheadIsQueued(s, t, p, s', q.id);
      assert Ahead(s'.led, i, q.id);
    }
  }

  /**
   What becomes of a CLSE that another thread reads, also of a stream that is open and being read: after
   any run of any threads it is lost because its key had no entry; or lost with an earlier CLSE of the
   stream that was waiting then and has been consumed since; or else it is waiting, or consumed, or wiped
   by `clear_all`.
   */
  lemma CloseFate(s: Sys, t: Tid, p: Packet, s': Sys, run: Run, s'': Sys)
    requires Reachable(s) && PutsClose(s, t, p, s') && Exec(s', run) == Some(s'')
    ensures p.id < |s''.led.past|
    ensures var f, k := s''.led.past[p.id].fate, KeyOf(p.msg);
            && (f.NoEntry? <==> k !in s.led.store)
            && (f.Behind? <==> k in s.led.store && CloseTaken(s, k, s''))
            && (f.NoEntry? || f.Behind? || f.Queued? || f.Consumed() || f.Wiped?)
            && (f.Wiped? ==> Wipes(run))
  {
    ReachableSafe(s);
    PutQueued(s, t, p, s');
    if KeyOf(p.msg) in s.led.store {
      KeptFollows(s, t, p, s', run, s'');
      BehindIsTaken(s, t, p, s', s'');
    } else {
      RunGrows(s', run);
    }
  }

  /**
   So unless the store is wiped, such a CLSE is still waiting or consumed exactly if its key had an entry
   and no earlier CLSE that was waiting there has been consumed.
   */
  lemma CloseLostForGood(s: Sys, t: Tid, p: Packet, s': Sys, run: Run, s'': Sys)
    requires Reachable(s) && PutsClose(s, t, p, s') && Exec(s', run) == Some(s'') && !Wipes(run)
    ensures p.id < |s''.led.past|
    ensures var f, k := s''.led.past[p.id].fate, KeyOf(p.msg);
            f.Queued? || f.Consumed() <==> k in s.led.store && !CloseTaken(s, k, s'')
  {
    CloseFate(s, t, p, s', run, s'');
  }

  /**
   A CLSE of a stream that a read of the stream consumes is returned exactly if that read expects CLSE; so
   it is if the reads are those of `_read_until_close`.
   */
  lemma CloseConsumed(s0: Sys, t: Tid, a: Action, s1: Sys, run: Run, s2: Sys, o: DS.Stream, i: nat)
    requires DS.Lifetime(s0, t, a, s1, run, s2, o)
    requires o.okay < i < |s2.led.past| && KeyOf(s2.led.past[i].msg) == o.Id() && s2.led.past[i].msg.cmd == CLSE
    requires s2.led.past[i].fate.Consumed()
    ensures var f := s2.led.past[i].fate;
            && DS.OfStream(o, f.op) && (f.Returned? <==> CLSE in f.op.expected)
            && (o.may == DS.UntilClose() ==> f.Returned?)
  {
    DS.LifetimeKeeps(s0, t, a, s1, run, s2, o);
    assert DS.RecordOf(s2.led, o, i) && RecordOk(s2.led, Hand(Owner(s2)), i);
  }

  /** The same for a stream whose reads are those of `_read_until_close`: the CLSE still waits or is returned. */
  lemma CloseOfStream(s0: Sys, t0: Tid, a: Action, s1: Sys, before: Run, s: Sys, o: DS.Stream,
        t: Tid, p: Packet, s': Sys, run: Run, s'': Sys)
    requires DS.Lifetime(s0, t0, a, s1, before, s, o) && o.may == DS.UntilClose()
    requires PutsClose(s, t, p, s') && KeyOf(p.msg) == o.Id()
    requires Exec(s', run) == Some(s'') && DS.Undisturbed(run, o)
    ensures p.id < |s''.led.past|
    ensures var f := s''.led.past[p.id].fate;
            f.Queued? || f.Returned? <==> o.Id() in s.led.store && !CloseTaken(s, o.Id(), s'')
  {
    DS.LifetimeReachable(s0, t0, a, s1, before, s, o);
    DS.LifetimeKeeps(s0, t0, a, s1, before, s, o);
    PutStreamSys(s, t, p, s', o);
    DS.RunStream(s', run, o);
    CloseFate(s, t, p, s', run, s'');
    RunGrows(s', run);
    OwnFate(s'', o, p.id);
  }

  lemma PutStreamSys(s: Sys, t: Tid, p: Packet, s': Sys, o: DS.Stream)
    requires DS.StreamSys(s, o) && o.local != 0 && PutsClose(s, t, p, s')
    ensures DS.StreamSys(s', o) && o.okay < p.id < |s'.led.past| && s'.led.past[p.id].msg == p.msg
  {
    PutQueued(s, t, p, s');
    assert RecordOk(s.led, Hand(Owner(s)), p.id);
    assert Exec(s', []) == Some(s') && [(t, PutIt)][1..] == [];
    DS.RunStream(s, [(t, PutIt)], o);
  }

  lemma OwnFate(s: Sys, o: DS.Stream, i: nat)
    requires DS.StreamSys(s, o) && o.may == DS.UntilClose()
    requires o.okay < i < |s.led.past| && KeyOf(s.led.past[i].msg) == o.Id() && s.led.past[i].msg.cmd == CLSE
    ensures !s.led.past[i].fate.Wiped? && !s.led.past[i].fate.Discarded?
  {
    assert DS.RecordOf(s.led, o, i) && RecordOk(s.led, Hand(Owner(s)), i);
  }
}
