/**
 From the demultiplexer to one stream: what its readers see of a stream, among all the others, is what
 the code above `read` is given by a `Streams.Stream`.
 */
module DemuxReplay {
  import opened Bytes
  import opened AdbMessage
  import opened Stores
  import opened Ledgers
  import opened Demux
  import opened DemuxFates
  import opened DemuxSafety
  import DS = DemuxStreams
  import Up = Streams

  function Reply(m: Message): Up.Reply {
    Up.Pkt(m.cmd, m.arg0, m.data)
  }

  /** What a reader did with a packet. */
  function ActOf(r: Record): Up.Act {
    if r.fate.Returned? then Up.Got(r.msg.cmd, r.msg.data) else Up.Dropped(r.msg.cmd, r.msg.data)
  }

  function Acts(rs: seq<Record>): Up.History {
    if rs == [] then [] else [ActOf(rs[0])] + Acts(rs[1..])
  }

  /** A call of `read` for each set of commands, one after the other. */
  function Calls(inbox: Up.Inbox, wants: seq<set<Cmd>>): Up.History
    decreases |wants|
  {
    if wants == [] then []
    else Up.Hears(inbox, wants[0]) + Calls(Up.Seek(inbox, wants[0]).1, wants[1..])
  }

  /** The packets in an inbox, with a reader's giving up left out. */
  function Packets(inbox: Up.Inbox): Up.Inbox {
    if inbox == [] then [] else (if inbox[0].Pkt? then [inbox[0]] else []) + Packets(inbox[1..])
  }

  function Replies(rs: seq<Record>): Up.Inbox {
    if rs == [] then [] else [Reply(rs[0].msg)] + Replies(rs[1..])
  }

  lemma HearsNext(r: Up.Reply, inbox: Up.Inbox, expected: set<Cmd>)
    requires r.Pkt?
    ensures r.cmd in expected ==>
              Up.Hears([r] + inbox, expected) == [Up.Got(r.cmd, r.data)] && Up.Seek([r] + inbox, expected).1 == inbox
    ensures r.cmd !in expected ==>
              && Up.Hears([r] + inbox, expected) == [Up.Dropped(r.cmd, r.data)] + Up.Hears(inbox, expected)
              && Up.Seek([r] + inbox, expected).1 == Up.Seek(inbox, expected).1
  {
    assert ([r] + inbox)[1..] == inbox;
  }

  /** What one thing heard does to the calls. */
  lemma CallsNext(r: Up.Reply, inbox: Up.Inbox, expected: set<Cmd>, wants: seq<set<Cmd>>)
    ensures Calls([r] + inbox, [expected] + wants) ==
            if r.Fault? then Calls(inbox, wants)
            else if r.cmd in expected then [Up.Got(r.cmd, r.data)] + Calls(inbox, wants)
            else [Up.Dropped(r.cmd, r.data)] + Calls(inbox, [expected] + wants)
  {
    assert ([expected] + wants)[1..] == wants && ([r] + inbox)[1..] == inbox;
    if r.Fault? {
      assert [] + Calls(inbox, wants) == Calls(inbox, wants);
    } else {
      HearsNext(r, inbox, expected);
      if r.cmd !in expected {
        var more := Calls(Up.Seek(inbox, expected).1, wants);
        assert ([Up.Dropped(r.cmd, r.data)] + Up.Hears(inbox, expected)) + more
               == [Up.Dropped(r.cmd, r.data)] + (Up.Hears(inbox, expected) + more);
      }
    }
  }

  // ---- The calls of a run

  /** In a call of `read` with that local id. */
  predicate InCall(pc: Pc, local: u32) {
    pc.Reading() && pc.op.info.localId == Some(local)
  }

  predicate BeginsCall(a: Action, local: u32) {
    a.BeginRead? && a.op.info.localId == Some(local)
  }

  /** What the calls with that local id expect, in the order in which they begin. */
  function Wants(run: Run, local: u32): (wants: seq<set<Cmd>>) {
    if run == [] then []
    else (if BeginsCall(run[0].1, local) then [run[0].1.op.expected] else []) + Wants(run[1..], local)
  }

  /** The packet that a reader at `pc` consumes in a step. */
  function Consumed(pc: Pc, a: Action, led: Ledger): Option<Message> {
    match a
    case Get(k) => if Queue(led.store, k) != [] then Some(Queue(led.store, k)[0].msg) else None
    case JudgeIt => if pc.Judging? then Some(pc.p.msg) else None
    case _ => None
  }

  /** What a call hears in a step: a packet, or that it is at its end without one. */
  function Event(pc: Pc, a: Action, led: Ledger, local: u32): Up.Inbox {
    if !InCall(pc, local) then []
    else if a.ReadFails? || a.TimeUp? then [Up.Fault]
    else
      match Consumed(pc, a, led)
      case Some(m) => [Reply(m)]
      case None => []
  }

  /** All that the calls with that local id hear in a run. */
  function Inbox(s: Sys, run: Run, local: u32): Up.Inbox
    requires Exec(s, run).Some?
    decreases |run|
  {
    if run == [] then []
    else
      var (t, a) := run[0];
      Event(s.pcs[t], a, s.led, local) + Inbox(Next(s, t, a).value, run[1..], local)
  }

  /** Only thread `u` is in calls with that local id. */
  ghost predicate OnlyReader(s: Sys, u: Tid, local: u32) {
    u in s.pcs && forall t | t in s.pcs && t != u :: !InCall(s.pcs[t], local)
  }

  ghost predicate OnlyReads(run: Run, u: Tid, local: u32) {
    forall i | 0 <= i < |run| :: BeginsCall(run[i].1, local) ==> run[i].0 == u
  }

  /** The call that the thread is in. */
  function Ongoing(pc: Pc, local: u32): seq<set<Cmd>> {
    if InCall(pc, local) then [pc.op.expected] else []
  }

  /** How a step begins a call, goes on with it, or ends it. */
  lemma MoveCall(pc: Pc, a: Action, led: Ledger, line: Line, local: u32)
    requires Move(pc, a, led, line).Some?
    ensures var pc' := Move(pc, a, led, line).value.pc;
            if !InCall(pc, local) then Ongoing(pc', local) == if BeginsCall(a, local) then [a.op.expected] else []
            else
              var m := Consumed(pc, a, led);
              && !a.BeginRead?
              && Ongoing(pc', local) ==
                   if a.ReadFails? || a.TimeUp? || (m.Some? && m.value.cmd in pc.op.expected) then []
                   else [pc.op.expected]
  {
    if a.BeginRead? || a.BeginSend? || a.BeginReset? || a.Acquire? {
    } else if a.Get? || a.Drained? || a.Header? || a.Rest? {
      GoingOn(pc, a, led, line, local);
    } else if a.ReadFails? || a.PutIt? || a.ClearIt? || a.JudgeIt? || a.TimeUp? || a.TryAgain? {
      ReadCall(pc, a, led, line, local);
    } else {
      OtherCall(pc, a, led, line, local);
    }
  }

  lemma GoingOn(pc: Pc, a: Action, led: Ledger, line: Line, local: u32)
    requires a.Get? || a.Drained? || a.Header? || a.Rest?
    requires Move(pc, a, led, line).Some?
    ensures var pc', m := Move(pc, a, led, line).value.pc, Consumed(pc, a, led);
            && (InCall(pc', local) ==> InCall(pc, local))
            && (InCall(pc, local) ==>
                  Ongoing(pc', local) == if m.Some? && m.value.cmd in pc.op.expected then [] else [pc.op.expected])
  {
  }

  lemma ReadCall(pc: Pc, a: Action, led: Ledger, line: Line, local: u32)
    requires MoveRead(pc, a, led, line).Some?
    ensures var pc' := MoveRead(pc, a, led, line).value.pc;
            if !InCall(pc, local) then !InCall(pc', local)
            else
              var m := Consumed(pc, a, led);
              Ongoing(pc', local) ==
                if a.ReadFails? || a.TimeUp? || (m.Some? && m.value.cmd in pc.op.expected) then [] else [pc.op.expected]
  {
  }

  lemma OtherCall(pc: Pc, a: Action, led: Ledger, line: Line, local: u32)
    requires MoveWrite(pc, a, led, line).Some? || MoveReset(pc, a, led, line).Some?
    ensures !InCall(pc, local)
    ensures MoveWrite(pc, a, led, line).Some? ==> !InCall(MoveWrite(pc, a, led, line).value.pc, local)
    ensures MoveReset(pc, a, led, line).Some? ==> !InCall(MoveReset(pc, a, led, line).value.pc, local)
  {
  }

  /** A step has consumed that packet, or none. */
  ghost predicate Logged(pc: Pc, a: Action, led: Ledger, l: Ledger) {
    match Consumed(pc, a, led)
    case None => l.log == led.log
    case Some(m) =>
      && pc.Reading() && (a.Get? || a.JudgeIt?) && |l.log| == |led.log| + 1 && l.log[|led.log|] < |l.past|
      && l.past[l.log[|led.log|]].msg == m && l.past[l.log[|led.log|]].fate == Verdict(pc.op, m)
  }

  lemma TakeLogged(pc: Pc, k: Key, led: Ledger, hand: Option<nat>)
    requires Ledgers.Inv(led, hand) && Queue(led.store, k) != [] && pc.Reading()
    ensures Logged(pc, Get(k), led, Take(led, k, pc.op))
  {
    var first := led.store[k][0];
    assert QueueOk(led, k);
    assert Queue(led.store, k)[0] == first;
    TakeEffect(led, hand, k, pc.op, first.id);
  }

  lemma JudgeLogged(pc: Pc, led: Ledger, line: Line)
    requires LedgerOk(led, pc) && MoveRead(pc, JudgeIt, led, line).Some?
    ensures Logged(pc, JudgeIt, led, MoveRead(pc, JudgeIt, led, line).value.led)
  {
  }

  /** What a step of a reader adds to the log. */
  lemma MoveConsumes(pc: Pc, a: Action, led: Ledger, line: Line, owner: Pc)
    requires LedgerOk(led, owner) && (pc.HoldsT() ==> owner == pc)
    requires Move(pc, a, led, line).Some?
    ensures Logged(pc, a, led, Move(pc, a, led, line).value.led)
  {
    if a.Get? {
      TakeLogged(pc, a.k, led, Hand(owner));
    } else if a.JudgeIt? {
      JudgeLogged(pc, led, line);
    } else {
      DS.OnlyReadersLog(pc, a, led, line);
      MoveGrows(pc, a, led, line, owner);
    }
  }

  // ---- They are calls of `Streams.Stream.Read`

  /** Consumed by a read with that local id. */
  function TakenBy(local: u32): Record -> bool {
    (r: Record) => r.fate.Consumed() && r.fate.op.info.localId == Some(local)
  }

  function Records(l: Ledger, ids: seq<nat>): (rs: seq<Record>)
    requires forall i | 0 <= i < |ids| :: ids[i] < |l.past|
    ensures |rs| == |ids| && forall i | 0 <= i < |ids| :: rs[i] == l.past[ids[i]]
  {
    seq(|ids|, i requires 0 <= i < |ids| => l.past[ids[i]])
  }

  /** What such reads have consumed from log position `from` on. */
  function Taken(l: Ledger, local: u32, from: nat): (rs: seq<Record>)
    requires from <= |l.log| && forall i | 0 <= i < |l.log| :: l.log[i] < |l.past|
    decreases |l.log| - from
  {
    if from == |l.log| then []
    else
      var r := l.past[l.log[from]];
      (if TakenBy(local)(r) then [r] else []) + Taken(l, local, from + 1)
  }

  lemma TakenFirst(l: Ledger, local: u32, from: nat)
    requires from < |l.log| && forall i | 0 <= i < |l.log| :: l.log[i] < |l.past|
    ensures var r, rest := l.past[l.log[from]], Taken(l, local, from + 1);
            if TakenBy(local)(r) then
              && Acts(Taken(l, local, from)) == [ActOf(r)] + Acts(rest)
              && Replies(Taken(l, local, from)) == [Reply(r.msg)] + Replies(rest)
            else Taken(l, local, from) == rest
  {
    var r, rest := l.past[l.log[from]], Taken(l, local, from + 1);
    assert ([r] + rest)[1..] == rest && [] + rest == rest;
  }

  /** What it heard in a step, if anything, and what it did with it. */
  function DoneWith(e: Up.Inbox, expected: set<Cmd>): Up.History {
    if e == [] || e[0].Fault? then []
    else [if e[0].cmd in expected then Up.Got(e[0].cmd, e[0].data) else Up.Dropped(e[0].cmd, e[0].data)]
  }

  function Done(pc: Pc, e: Up.Inbox, local: u32): Up.History {
    if InCall(pc, local) then DoneWith(e, pc.op.expected) else []
  }

  /** What was heard and done in a step, in terms of the record that it left. */
  lemma EventOf(pc: Pc, a: Action, led: Ledger, l: Ledger, local: u32)
    requires Logged(pc, a, led, l)
    ensures var e := Event(pc, a, led, local);
            if Consumed(pc, a, led).None? then Packets(e) == [] && Done(pc, e, local) == []
            else
              var r := l.past[l.log[|led.log|]];
              if TakenBy(local)(r) then Packets(e) == [Reply(r.msg)] && Done(pc, e, local) == [ActOf(r)]
              else e == [] && Done(pc, e, local) == []
  {
  }

  /** Whatever happens later, what a step consumed is then the first of what has been since. */
  lemma LaterTaken(pc: Pc, a: Action, led: Ledger, l1: Ledger, l: Ledger, hand: Option<nat>, local: u32)
    requires Logged(pc, a, led, l1) && Ledgers.Inv(l, hand) && Grows(l1, l)
    ensures |led.log| <= |l1.log| <= |l.log|
    ensures var e := Event(pc, a, led, local);
            && Acts(Taken(l, local, |led.log|)) == Done(pc, e, local) + Acts(Taken(l, local, |l1.log|))
            && Replies(Taken(l, local, |led.log|)) == Packets(e) + Replies(Taken(l, local, |l1.log|))
  {
    var n := |led.log|;
    EventOf(pc, a, led, l1, local);
    if Consumed(pc, a, led).Some? {
      assert l.log[n] == l1.log[n] && l.past[l.log[n]] == l1.past[l1.log[n]];
      TakenFirst(l, local, n);
    }
    assert [] + Acts(Taken(l, local, |l1.log|)) == Acts(Taken(l, local, |l1.log|));
    assert [] + Replies(Taken(l, local, |l1.log|)) == Replies(Taken(l, local, |l1.log|));
  }

  /**
   The calls with that local id, of which `wants` says what they expect, did with the packets that they heard
   what has been done since log position `from`.
   */
  ghost predicate Replays(l: Ledger, local: u32, from: nat, inbox: Up.Inbox, wants: seq<set<Cmd>>) {
    && from <= |l.log| && (forall i | 0 <= i < |l.log| :: l.log[i] < |l.past|)
    && Calls(inbox, wants) == Acts(Taken(l, local, from))
    && Packets(inbox) == Replies(Taken(l, local, from))
  }

  lemma StepReader(s: Sys, u: Tid, t: Tid, a: Action, local: u32)
    requires Safe(s) && Next(s, t, a).Some? && OnlyReader(s, u, local) && (BeginsCall(a, local) ==> t == u)
    ensures OnlyReader(Next(s, t, a).value, u, local)
  {
    MoveCall(s.pcs[t], a, s.led, s.line, local);
  }

  lemma RunNothing(s: Sys, u: Tid, local: u32)
    requires Safe(s) && u in s.pcs
    ensures Replays(s.led, local, |s.led.log|, [], Ongoing(s.pcs[u], local) + [])
  {
  }

  /** A step in which no call hears anything may begin one. */
  lemma StepSilent(s: Sys, u: Tid, t: Tid, a: Action, local: u32, wants: seq<set<Cmd>>)
    requires Safe(s) && Next(s, t, a).Some? && OnlyReader(s, u, local) && (BeginsCall(a, local) ==> t == u)
    requires Event(s.pcs[t], a, s.led, local) == []
    ensures var begun := if BeginsCall(a, local) then [a.op.expected] else [];
            Ongoing(Next(s, t, a).value.pcs[u], local) + wants == Ongoing(s.pcs[u], local) + (begun + wants)
  {
    MoveCall(s.pcs[t], a, s.led, s.line, local);
  }

  /** A step in which a call hears something, and the calls from then on. */
  lemma StepHeard(s: Sys, u: Tid, t: Tid, a: Action, local: u32, inbox: Up.Inbox, wants: seq<set<Cmd>>)
    requires Safe(s) && Next(s, t, a).Some? && OnlyReader(s, u, local)
    requires Event(s.pcs[t], a, s.led, local) != []
    ensures t == u && InCall(s.pcs[u], local) && !a.BeginRead?
    ensures var e, expected := Event(s.pcs[t], a, s.led, local), s.pcs[u].op.expected;
            Calls(e + inbox, [expected] + wants) ==
            DoneWith(e, expected) + Calls(inbox, Ongoing(Next(s, t, a).value.pcs[u], local) + wants)
  {
    var pc, e := s.pcs[t], Event(s.pcs[t], a, s.led, local);
    MoveCall(pc, a, s.led, s.line, local);
    assert [] + wants == wants && e == [e[0]];
    CallsNext(e[0], inbox, pc.op.expected, wants);
  }

  /** What a step does to the calls of a run that goes on with `inbox` and `wants`. */
  lemma StepCalls(s: Sys, u: Tid, t: Tid, a: Action, local: u32, inbox: Up.Inbox, wants: seq<set<Cmd>>)
    requires Safe(s) && Next(s, t, a).Some? && OnlyReader(s, u, local) && (BeginsCall(a, local) ==> t == u)
    ensures var e, begun := Event(s.pcs[t], a, s.led, local), if BeginsCall(a, local) then [a.op.expected] else [];
            Calls(e + inbox, Ongoing(s.pcs[u], local) + (begun + wants)) ==
            Done(s.pcs[t], e, local) + Calls(inbox, Ongoing(Next(s, t, a).value.pcs[u], local) + wants)
  {
    var e := Event(s.pcs[t], a, s.led, local);
    if e == [] {
      StepSilent(s, u, t, a, local, wants);
      assert e + inbox == inbox;
    } else {
      StepHeard(s, u, t, a, local, inbox, wants);
      assert [] + wants == wants;
    }
  }

  lemma PacketsMore(e: Up.Inbox, inbox: Up.Inbox)
    requires |e| <= 1
    ensures Packets(e + inbox) == Packets(e) + Packets(inbox)
  {
    assert e == [] ==> e + inbox == inbox;
    assert e != [] ==> (e + inbox)[1..] == inbox && e[1..] == [];
  }

  lemma StepLogged(s: Sys, t: Tid, a: Action, s': Sys)
    requires Safe(s) && Next(s, t, a) == Some(s')
    ensures t in s.pcs && Logged(s.pcs[t], a, s.led, s'.led)
  {
    StepLocks(s, t, a);
    MoveConsumes(s.pcs[t], a, s.led, s.line, Owner(s));
  }

  /** One step, and the rest of the run up to the ledger `l`. */
  lemma StepReplays(s: Sys, u: Tid, t: Tid, a: Action, s': Sys, l: Ledger, hand: Option<nat>, local: u32,
        inbox: Up.Inbox, wants: seq<set<Cmd>>)
    requires Safe(s) && Next(s, t, a) == Some(s') && OnlyReader(s, u, local) && (BeginsCall(a, local) ==> t == u)
    requires Ledgers.Inv(l, hand) && Grows(s'.led, l) && u in s'.pcs
    requires Replays(l, local, |s'.led.log|, inbox, Ongoing(s'.pcs[u], local) + wants)
    ensures var begun := if BeginsCall(a, local) then [a.op.expected] else [];
            Replays(l, local, |s.led.log|, Event(s.pcs[t], a, s.led, local) + inbox,
                    Ongoing(s.pcs[u], local) + (begun + wants))
  {
    StepLogged(s, t, a, s');
    LaterTaken(s.pcs[t], a, s.led, s'.led, l, hand, local);
    StepCalls(s, u, t, a, local, inbox, wants);
    PacketsMore(Event(s.pcs[t], a, s.led, local), inbox);
  }

  lemma {:induction false} RunReplays(s: Sys, u: Tid, run: Run, local: u32)
    requires Safe(s) && Exec(s, run).Some? && OnlyReader(s, u, local) && OnlyReads(run, u, local)
    ensures Replays(Exec(s, run).value.led, local, |s.led.log|, Inbox(s, run, local),
                    Ongoing(s.pcs[u], local) + Wants(run, local))
    decreases |run|
  {
    if run == [] {
      RunNothing(s, u, local);
    } else {
      var (t, a) := run[0];
      var s', rest := Next(s, t, a).value, run[1..];
      StepKeeps(s, t, a);
      StepReader(s, u, t, a, local);
      assert forall i | 0 <= i < |rest| :: rest[i] == run[i + 1];
      RunReplays(s', u, rest, local);
      RunGrows(s', rest);
      RunKeeps(s', rest);
      var s'' := Exec(s', rest).value;
      StepReplays(s, u, t, a, s', s''.led, Hand(Owner(s'')), local, Inbox(s', rest, local), Wants(rest, local));
    }
  }

  // ---- A stream of the demultiplexer

  /** The stream's packets that readers have consumed since its OKAY, in the order of arrival. */
  ghost function Seen(l: Ledger, o: DS.Stream): (ids: seq<nat>)
    requires o.okay < |l.past|
    ensures forall i | 0 <= i < |ids| :: ids[i] < |l.past|
  {
    DS.Arrived(l, DS.ConsumedOf(o.Id()), o.okay + 1, |l.past|)
  }

  /** That is the order in which they did. */
  lemma StreamInOrder(l: Ledger, hand: Option<nat>, o: DS.Stream)
    requires Ledgers.Inv(l, hand) && DS.StreamLedger(l, o)
    ensures DS.Picked(l, DS.WithKey(o.Id()), o.start, |l.log|) == Seen(l, o)
  {
    assert l.log[o.start - 1] == o.okay;
    forall i | o.okay < i < |l.past| && DS.ConsumedOf(o.Id())(l.past[i]) ensures DS.At(l, o.start, |l.log|, i) {
      assert RecordOk(l, hand, i);
      var j :| 0 <= j < |l.log| && l.log[j] == i;
    }
    DS.PickedIsArrived(l, DS.WithKey(o.Id()), DS.ConsumedOf(o.Id()), o.start, |l.log|, o.okay + 1, |l.past|, o.Id());
  }

  /** Consumed by a read of the stream: one of its packets, or one with a zero for an id. */
  predicate ReadOf(r: Record, o: DS.Stream) {
    r.fate.Consumed() && DS.OfStream(o, r.fate.op) && (KeyOf(r.msg) == o.Id() || DS.ZeroFor(o, r.msg))
  }

  lemma {:induction false} TakenFair(l: Ledger, hand: Option<nat>, o: DS.Stream, from: nat)
    requires Ledgers.Inv(l, hand) && DS.StreamLedger(l, o) && o.start <= from <= |l.log|
    ensures forall r | r in Taken(l, o.local, from) :: ReadOf(r, o)
    decreases |l.log| - from
  {
    if from < |l.log| {
      TakenFair(l, hand, o, from + 1);
      assert DS.EntryOf(l, o, from) && RecordOk(l, hand, l.log[from]);
    }
  }

  /** Those with the key `k`. */
  function OfKey(rs: seq<Record>, k: Key): seq<Record> {
    if rs == [] then [] else (if KeyOf(rs[0].msg) == k then [rs[0]] else []) + OfKey(rs[1..], k)
  }

  lemma {:induction false} TakenOfKey(l: Ledger, local: u32, k: Key, from: nat)
    requires from <= |l.log| && forall i | 0 <= i < |l.log| :: l.log[i] < |l.past|
    requires forall j | from <= j < |l.log| && KeyOf(l.past[l.log[j]].msg) == k :: TakenBy(local)(l.past[l.log[j]])
    ensures OfKey(Taken(l, local, from), k) == Records(l, DS.Picked(l, DS.WithKey(k), from, |l.log|))
    decreases |l.log| - from
  {
    if from < |l.log| {
      TakenOfKey(l, local, k, from + 1);
      var r, rest := l.past[l.log[from]], Taken(l, local, from + 1);
      assert OfKey([r] + rest, k) == (if KeyOf(r.msg) == k then [r] else []) + OfKey(rest, k) by {
        assert ([r] + rest)[1..] == rest;
      }
      assert [] + rest == rest && [] + OfKey(rest, k) == OfKey(rest, k);
      PickedRecords(l, k, from);
    }
  }

  lemma PickedRecords(l: Ledger, k: Key, from: nat)
    requires from < |l.log| && forall i | 0 <= i < |l.log| :: l.log[i] < |l.past|
    ensures var r := l.past[l.log[from]];
            Records(l, DS.Picked(l, DS.WithKey(k), from, |l.log|)) ==
            (if KeyOf(r.msg) == k then [r] else []) + Records(l, DS.Picked(l, DS.WithKey(k), from + 1, |l.log|))
  {
    DS.PickedFirst(l, DS.WithKey(k), from, |l.log|);
  }

  lemma TakenInOrder(l: Ledger, hand: Option<nat>, o: DS.Stream)
    requires Ledgers.Inv(l, hand) && DS.StreamLedger(l, o)
    ensures OfKey(Taken(l, o.local, o.start), o.Id()) == Records(l, Seen(l, o))
  {
    forall j | o.start <= j < |l.log| && KeyOf(l.past[l.log[j]].msg) == o.Id()
      ensures TakenBy(o.local)(l.past[l.log[j]])
    {
      assert l.log[o.start - 1] == o.okay;
      assert DS.RecordOf(l, o, l.log[j]);
    }
    TakenOfKey(l, o.local, o.Id(), o.start);
    StreamInOrder(l, hand, o);
  }

  /** A packet of the stream before one that was consumed was consumed or has been deleted. */
  lemma NoneSkipped(l: Ledger, hand: Option<nat>, o: DS.Stream, i: nat, c: nat)
    requires Ledgers.Inv(l, hand) && DS.StreamLedger(l, o)
    requires o.okay < i < c < |l.past|
    requires KeyOf(l.past[i].msg) == KeyOf(l.past[c].msg) == o.Id()
    requires l.past[c].fate.Consumed()
    ensures l.past[i].fate.Consumed() || l.past[i].fate.NoEntry? || l.past[i].fate.Behind?
  {
    assert RecordOk(l, hand, i) && RecordOk(l, hand, c) && DS.RecordOf(l, o, i);
  }

  /** The step that opens the stream ends the call of `_open`. */
  lemma AfterOpening(s0: Sys, u: Tid, a: Action, s1: Sys, o: DS.Stream)
    requires Safe(s0) && DS.Opens(s0, u, a, o) && Next(s0, u, a) == Some(s1)
    ensures u in s1.pcs && !InCall(s1.pcs[u], o.local) && |s1.led.log| == o.start
  {
    StepLocks(s0, u, a);
    MoveConsumes(s0.pcs[u], a, s0.led, s0.line, Owner(s0));
    MoveCall(s0.pcs[u], a, s0.led, s0.line, o.local);
  }

  /**
   Whatever the reads of a stream expect and whatever the other threads do, one thread reading the stream:
   those reads, in the order in which they begin, are calls of `Streams.Stream.Read`, one after the other
   and each with what it expects, with what they hear for an inbox; what they return and what they drop is
   what those calls do.  Of the packets they hear, those of the stream come in the order of arrival, and the
   others have a zero for an id.
   */
  lemma StreamReplay(s0: Sys, u: Tid, a: Action, s1: Sys, run: Run, s2: Sys, o: DS.Stream)
    requires DS.Lifetime(s0, u, a, s1, run, s2, o)
    requires OnlyReader(s1, u, o.local) && OnlyReads(run, u, o.local)
    ensures Exec(s1, run).Some? && o.okay < |s2.led.past|
    ensures Replays(s2.led, o.local, o.start, Inbox(s1, run, o.local), Wants(run, o.local))
    ensures OfKey(Taken(s2.led, o.local, o.start), o.Id()) == Records(s2.led, Seen(s2.led, o))
    ensures forall r | r in Taken(s2.led, o.local, o.start) :: ReadOf(r, o)
  {
    DS.LifetimeKeeps(s0, u, a, s1, run, s2, o);
    CallsReplay(s0, u, a, s1, run, s2, o);
    TakenFair(s2.led, Hand(Owner(s2)), o, o.start);
    TakenInOrder(s2.led, Hand(Owner(s2)), o);
  }

  lemma CallsReplay(s0: Sys, u: Tid, a: Action, s1: Sys, run: Run, s2: Sys, o: DS.Stream)
    requires DS.Lifetime(s0, u, a, s1, run, s2, o)
    requires OnlyReader(s1, u, o.local) && OnlyReads(run, u, o.local)
    ensures Exec(s1, run).Some?
    ensures Replays(s2.led, o.local, o.start, Inbox(s1, run, o.local), Wants(run, o.local))
  {
    ReachableSafe(s0);
    StepKeeps(s0, u, a);
    AfterOpening(s0, u, a, s1, o);
    RunReplays(s1, u, run, o.local);
    assert [] + Wants(run, o.local) == Wants(run, o.local);
  }

  /** And before a packet that they consumed none is missing but what the store deleted or never took in. */
  lemma StreamComplete(s0: Sys, t: Tid, a: Action, s1: Sys, run: Run, s2: Sys, o: DS.Stream, i: nat, c: nat)
    requires DS.Lifetime(s0, t, a, s1, run, s2, o)
    requires o.okay < i < c < |s2.led.past| && KeyOf(s2.led.past[i].msg) == KeyOf(s2.led.past[c].msg) == o.Id()
    requires s2.led.past[c].fate.Consumed()
    ensures var f := s2.led.past[i].fate; f.Consumed() || f.NoEntry? || f.Behind?
  {
    DS.LifetimeKeeps(s0, t, a, s1, run, s2, o);
    NoneSkipped(s2.led, Hand(Owner(s2)), o, i, c);
  }
}
