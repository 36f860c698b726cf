/** What one call of `read` consumes, from its first step to its last. */
module DemuxCalls {
  import opened Bytes
  import opened AdbMessage
  import opened Stores
  import opened Ledgers
  import opened Demux
  import opened DemuxFates
  import opened DemuxSafety
  import DR = DemuxReplay

  predicate Begins(a: Action) {
    a.BeginRead? || a.BeginSend? || a.BeginReset?
  }

  /** The calls that begin in a run. */
  function Begun(run: Run): (calls: seq<Action>) {
    if run == [] then []
    else Begun(run[..|run| - 1]) + (if Begins(run[|run| - 1].1) then [run[|run| - 1].1] else [])
  }

  lemma BegunSnoc(run: Run, t: Tid, a: Action)
    ensures Begun(run + [(t, a)]) == Begun(run) + (if Begins(a) then [a] else [])
  {
    assert (run + [(t, a)])[..|run|] == run;
  }

  lemma {:induction false} BegunAppend(run: Run, more: Run)
    ensures Begun(run + more) == Begun(run) + Begun(more)
  {
    if more == [] {
      assert run + more == run;
    } else {
      var init, last := more[..|more| - 1], more[|more| - 1];
      BegunAppend(run, init);
      assert (run + more)[..|run + more| - 1] == run + init;
    }
  }

  lemma BegunFirst(run: Run)
    requires run != []
    ensures Begun(run) == (if Begins(run[0].1) then [run[0].1] else []) + Begun(run[1..])
  {
    var first: Run := [run[0]];
    assert run == first + run[1..] && Begun(first[..0]) == [];
    BegunAppend(first, run[1..]);
  }

  /** What was consumed at log positions `from` up to `to` was dropped by the call `op`. */
  ghost predicate Dropped(l: Ledger, from: nat, to: nat, op: Op) {
    to <= |l.log| && forall i | from <= i < to :: l.log[i] < |l.past| && l.past[l.log[i]].fate == Discarded(op)
  }

  /**
   All that was consumed from log position `from` on was consumed by the call `op`: dropped, but for the
   last, if that was returned.
   */
  ghost predicate Took(l: Ledger, from: nat, op: Op, returned: bool) {
    if !returned then from <= |l.log| && Dropped(l, from, |l.log|, op)
    else
      && from < |l.log| && Dropped(l, from, |l.log| - 1, op)
      && l.log[|l.log| - 1] < |l.past| && l.past[l.log[|l.log| - 1]].fate == Returned(op)
  }

  predicate InCall(pc: Pc, op: Op) {
    pc.Reading() && pc.op == op
  }

  /** The steps in which a call ends without a result. */
  predicate GivesUp(a: Action) {
    a.ReadFails? || a.TimeUp?
  }

  lemma ReadStays(pc: Pc, a: Action, led: Ledger, line: Line)
    requires pc.Reading() && MoveRead(pc, a, led, line).Some?
    ensures var pc', m := MoveRead(pc, a, led, line).value.pc, DR.Consumed(pc, a, led);
            if GivesUp(a) || (m.Some? && m.value.cmd in pc.op.expected) then pc'.Idle? else InCall(pc', pc.op)
  {
  }

  /** A call goes on until it gives up or has what it expects. */
  lemma CallStays(pc: Pc, a: Action, led: Ledger, line: Line)
    requires pc.Reading() && Move(pc, a, led, line).Some?
    ensures !Begins(a)
    ensures var pc', m := Move(pc, a, led, line).value.pc, DR.Consumed(pc, a, led);
            if GivesUp(a) || (m.Some? && m.value.cmd in pc.op.expected) then pc'.Idle? else InCall(pc', pc.op)
  {
    if a.Acquire? || a.Get? || a.Drained? || a.Header? || a.Rest? {
    } else {
      assert MoveRead(pc, a, led, line).Some?;
      ReadStays(pc, a, led, line);
    }
  }

  lemma IdleBegins(s: Sys, t: Tid, a: Action)
    requires Next(s, t, a).Some? && s.pcs[t].Idle?
    ensures Begins(a) && Next(s, t, a).value.led == s.led
    ensures a.BeginRead? ==> InCall(Next(s, t, a).value.pcs[t], a.op)
  {
  }

  /** A call that may be at its end: it is if the thread is idle, and `gaveUp` says how. */
  ghost predicate CallAt(s: Sys, t: Tid, from: nat, op: Op, gaveUp: bool) {
    && t in s.pcs && (InCall(s.pcs[t], op) || s.pcs[t].Idle?)
    && Took(s.led, from, op, s.pcs[t].Idle? && !gaveUp)
  }

  predicate GaveUp(run: Run) {
    run != [] && GivesUp(run[|run| - 1].1)
  }

  lemma GaveUpLater(run: Run)
    requires |run| > 1
    ensures GaveUp(run[1..]) == GaveUp(run)
  {
    assert run[1..][|run| - 2] == run[|run| - 1];
  }

  /** The rest of a call of the only thread. */
  lemma {:induction false} CallTakes(s: Sys, t: Tid, run: Run, op: Op)
    requires Safe(s) && s.pcs.Keys == {t} && InCall(s.pcs[t], op)
    requires Exec(s, run).Some? && Begun(run) == []
    ensures CallAt(Exec(s, run).value, t, |s.led.log|, op, GaveUp(run))
    ensures Exec(s, run).value.pcs[t].Idle? ==> run != []
    decreases |run|
  {
    if run != [] {
      var s', rest := Next(s, run[0].0, run[0].1).value, run[1..];
      BegunNone(run);
      CallStep(s, t, run[0].0, run[0].1, op, s');
      if s'.pcs[t].Idle? {
        NothingMore(s', t, rest);
      } else {
        CallTakes(s', t, rest, op);
        CallMore(s, s', rest, t, op);
        if rest != [] { GaveUpLater(run); }
      }
    }
  }

  lemma NothingMore(s: Sys, t: Tid, run: Run)
    requires s.pcs.Keys == {t} && s.pcs[t].Idle? && Exec(s, run).Some? && Begun(run) == []
    ensures run == []
  {
    if run != [] {
      BegunFirst(run);
      IdleBegins(s, run[0].0, run[0].1);
    }
  }

  lemma CallMore(s: Sys, s': Sys, rest: Run, t: Tid, op: Op)
    requires Safe(s') && Exec(s', rest).Some? && Took(s'.led, |s.led.log|, op, false)
    requires CallAt(Exec(s', rest).value, t, |s'.led.log|, op, GaveUp(rest))
    ensures CallAt(Exec(s', rest).value, t, |s.led.log|, op, GaveUp(rest))
  {
    var s'' := Exec(s', rest).value;
    RunGrows(s', rest);
    TookMore(s.led, s'.led, s''.led, op, s''.pcs[t].Idle? && !GaveUp(rest));
  }

  lemma BegunNone(run: Run)
    requires Begun(run) == [] && run != []
    ensures Begun(run[1..]) == []
  {
    BegunFirst(run);
  }

  lemma CallStep(s: Sys, t: Tid, u: Tid, a: Action, op: Op, s': Sys)
    requires Safe(s) && s.pcs.Keys == {t} && InCall(s.pcs[t], op) && Next(s, u, a) == Some(s')
    ensures Safe(s') && s'.pcs.Keys == {t} && (InCall(s'.pcs[t], op) || s'.pcs[t].Idle?)
    ensures Took(s'.led, |s.led.log|, op, s'.pcs[t].Idle? && !GivesUp(a))
  {
    StepKeeps(s, t, a);
    CallStays(s.pcs[t], a, s.led, s.line);
    DR.StepLogged(s, t, a, s');
    LoggedTook(s.pcs[t], a, s.led, s'.led);
  }

  lemma LoggedTook(pc: Pc, a: Action, led: Ledger, l: Ledger)
    requires pc.Reading() && DR.Logged(pc, a, led, l)
    ensures var m := DR.Consumed(pc, a, led);
            Took(l, |led.log|, pc.op, m.Some? && m.value.cmd in pc.op.expected)
  {
  }

  lemma TookMore(l: Ledger, l1: Ledger, l2: Ledger, op: Op, returned: bool)
    requires Took(l1, |l.log|, op, false) && Grows(l1, l2) && Took(l2, |l1.log|, op, returned)
    ensures Took(l2, |l.log|, op, returned)
  {
    forall i | |l.log| <= i < |l1.log| ensures l2.log[i] < |l2.past| && l2.past[l2.log[i]].fate == Discarded(op) {
      assert l2.log[i] == l1.log[i];
    }
  }

  lemma BegunHead(run: Run, a: Action)
    requires Begun(run) == [a]
    ensures run != [] && (Begins(run[0].1) ==> run[0].1 == a && Begun(run[1..]) == [])
  {
    BegunFirst(run);
    if Begins(run[0].1) {
      var rest := Begun(run[1..]);
      assert ([run[0].1] + rest)[0] == run[0].1 && |[run[0].1] + rest| == 1 + |rest|;
    }
  }

  lemma CallStarts(s: Sys, t: Tid, op: Op, s1: Sys)
    requires Safe(s) && s.pcs.Keys == {t} && s.pcs[t].Idle? && Next(s, t, BeginRead(op)) == Some(s1)
    ensures Safe(s1) && s1.pcs.Keys == {t} && InCall(s1.pcs[t], op) && s1.led == s.led
  {
    StepKeeps(s, t, BeginRead(op));
    IdleBegins(s, t, BeginRead(op));
  }

  /** A whole call: the packets it consumed it has dropped, but the last, if it returned one. */
  lemma OneCall(s: Sys, t: Tid, run: Run, op: Op, s': Sys)
    requires Safe(s) && s.pcs.Keys == {t} && s.pcs[t].Idle?
    requires Exec(s, run) == Some(s') && t in s'.pcs && s'.pcs[t].Idle? && Begun(run) == [BeginRead(op)]
    ensures Took(s'.led, |s.led.log|, op, !GaveUp(run))
  {
    BegunHead(run, BeginRead(op));
    IdleBegins(s, run[0].0, run[0].1);
    var s1 := Next(s, run[0].0, run[0].1).value;
    CallStarts(s, t, op, s1);
    CallTakes(s1, t, run[1..], op);
  }

  /** The same of the last call of a longer run. */
  lemma LastCall(s0: Sys, t: Tid, before: Run, s: Sys, all: Run, s': Sys, op: Op)
    requires Safe(s0) && s0.pcs.Keys == {t} && before <= all
    requires Exec(s0, before) == Some(s) && t in s.pcs && s.pcs[t].Idle?
    requires Exec(s0, all) == Some(s') && t in s'.pcs && s'.pcs[t].Idle?
    requires Begun(all) == Begun(before) + [BeginRead(op)]
    ensures Took(s'.led, |s.led.log|, op, !GaveUp(all))
  {
    var run := all[|before|..];
    assert all == before + run;
    RunKeeps(s0, before);
    SameThreads(s0, before);
    ExecAppend(s0, before, run);
    BegunAppend(before, run);
    assert Begun(run) == (Begun(before) + Begun(run))[|Begun(before)|..];
    OneCall(s, t, run, op, s');
    assert run != [];
  }
}
