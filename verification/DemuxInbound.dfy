/** What has been read from the device, and where in its bytes a reader starts. */
module DemuxInbound {
  import opened Bytes
  import opened AdbMessage
  import opened Stores
  import opened Ledgers
  import opened Demux
  import opened DemuxSafety
  import opened DemuxTheorems
  import Wire

  // ---- What has been read on this connection

  /** The packets recorded on one connection, in order. */
  function OfEpoch(past: seq<Record>, epoch: nat): seq<Message> {
    if past == [] then []
    else
      var r := past[|past| - 1];
      OfEpoch(past[..|past| - 1], epoch) + (if r.epoch == epoch then [r.msg] else [])
  }

  /** But for the fates. */
  ghost predicate SameRecords(past: seq<Record>, past': seq<Record>) {
    |past| == |past'| && forall i | 0 <= i < |past| :: past[i].msg == past'[i].msg && past[i].epoch == past'[i].epoch
  }

  lemma {:induction false} OfEpochSame(past: seq<Record>, past': seq<Record>, epoch: nat)
    requires SameRecords(past, past')
    ensures OfEpoch(past, epoch) == OfEpoch(past', epoch)
  {
    if past != [] {
      OfEpochSame(past[..|past| - 1], past'[..|past| - 1], epoch);
    }
  }

  lemma {:induction false} OfEpochNone(past: seq<Record>, epoch: nat)
    requires forall i | 0 <= i < |past| :: past[i].epoch < epoch
    ensures OfEpoch(past, epoch) == []
  {
    if past != [] {
      OfEpochNone(past[..|past| - 1], epoch);
    }
  }

  ghost predicate Recorded(l: Ledger, line: Line) {
    && (forall i | 0 <= i < |l.past| :: l.past[i].epoch <= l.epoch)
    && line.received == OfEpoch(l.past, l.epoch)
  }

  /** A packet is recorded when it has been read to its end. */
  lemma TakenRecords(pc: Pc, a: Action, l: Ledger, line: Line)
    requires Move(pc, a, l, line).Some? && (a.Header? || a.Rest?)
    ensures var e := Move(pc, a, l, line).value;
            && e.led.epoch == l.epoch
            && if |e.led.past| == |l.past| then e.led.past == l.past && e.line.received == line.received
               else exists m, f ::
                      e.led.past == l.past + [Record(m, l.epoch, f)] && e.line.received == line.received + [m]
  {
    var e := Move(pc, a, l, line).value;
    if e.led != l {
      var m := if a.Header? then a.msg else pc.msg;
      var r := e.led.past[|l.past|];
      assert e.led.past == l.past + [Record(m, l.epoch, r.fate)];
    }
  }

  lemma ReaderRecords(pc: Pc, a: Action, l: Ledger, line: Line)
    requires MoveRead(pc, a, l, line).Some?
    ensures var e := MoveRead(pc, a, l, line).value;
            e.led.epoch == l.epoch && SameRecords(l.past, e.led.past) && e.line.received == line.received
  {
  }

  lemma StillRecords(pc: Pc, a: Action, l: Ledger, line: Line)
    requires Move(pc, a, l, line).Some?
    requires a.BeginRead? || a.BeginSend? || a.BeginReset? || a.Acquire? || a.Drained? || a.Write? || a.WriteFails?
    ensures var e := Move(pc, a, l, line).value;
            e.led == l && e.line.received == line.received
  {
  }

  lemma OtherRecords(pc: Pc, a: Action, l: Ledger, line: Line)
    requires Move(pc, a, l, line).Some? && !(a.Header? || a.Rest? || a.Connect?)
    ensures var e := Move(pc, a, l, line).value;
            e.led.epoch == l.epoch && SameRecords(l.past, e.led.past) && e.line.received == line.received
  {
    if a.ReadFails? || a.PutIt? || a.ClearIt? || a.JudgeIt? || a.TimeUp? || a.TryAgain? {
      ReaderRecords(pc, a, l, line);
    } else if a.Get? {
      assert MoveGet(pc, a.k, l, line).Some?;
    } else if a.Close? || a.WipeIt? || a.Fail? || a.Compose? || a.Finish? {
      assert MoveReset(pc, a, l, line).Some?;
    } else {
      StillRecords(pc, a, l, line);
    }
  }

  lemma OneMoreRecorded(l: Ledger, line: Line, l': Ledger, line': Line, m: Message, f: Fate)
    requires Recorded(l, line) && l'.epoch == l.epoch
    requires l'.past == l.past + [Record(m, l.epoch, f)] && line'.received == line.received + [m]
    ensures Recorded(l', line')
  {
    assert l'.past[..|l.past|] == l.past;
  }

  lemma SameRecorded(l: Ledger, line: Line, l': Ledger, line': Line)
    requires Recorded(l, line) && l'.epoch == l.epoch
    requires SameRecords(l.past, l'.past) && line'.received == line.received
    ensures Recorded(l', line')
  {
    OfEpochSame(l.past, l'.past, l.epoch);
  }

  lemma ConnectRecorded(pc: Pc, l: Ledger, line: Line)
    requires MoveReset(pc, Connect, l, line).Some? && Recorded(l, line)
    ensures var e := MoveReset(pc, Connect, l, line).value;
            Recorded(e.led, e.line)
  {
    OfEpochNone(l.past, l.epoch + 1);
  }

  lemma MoveRecorded(pc: Pc, a: Action, l: Ledger, line: Line)
    requires Move(pc, a, l, line).Some? && Recorded(l, line)
    ensures var e := Move(pc, a, l, line).value;
            Recorded(e.led, e.line)
  {
    var e := Move(pc, a, l, line).value;
    if a.Header? || a.Rest? {
      TakenRecords(pc, a, l, line);
      if |e.led.past| == |l.past| {
        SameRecorded(l, line, e.led, e.line);
      } else {
        var m, f :| e.led.past == l.past + [Record(m, l.epoch, f)] && e.line.received == line.received + [m];
        OneMoreRecorded(l, line, e.led, e.line, m, f);
      }
    } else if a.Connect? {
      ConnectRecorded(pc, l, line);
    } else {
      OtherRecords(pc, a, l, line);
      SameRecorded(l, line, e.led, e.line);
    }
  }

  lemma {:induction false} RunRecorded(s: Sys, run: Run)
    requires Recorded(s.led, s.line) && Exec(s, run).Some?
    ensures Recorded(Exec(s, run).value.led, Exec(s, run).value.line)
    decreases |run|
  {
    if run != [] {
      var (t, a) := run[0];
      MoveRecorded(s.pcs[t], a, s.led, s.line);
      RunRecorded(Next(s, t, a).value, run[1..]);
    }
  }

  /** The packets read to their end on this connection are those recorded on it. */
  lemma ReceivedAreRecorded(s: Sys)
    requires Reachable(s)
    ensures s.line.received == OfEpoch(s.led.past, s.led.epoch)
  {
    var threads, run :| Exec(Init(threads), run) == Some(s);
    RunRecorded(Init(threads), run);
  }

  // ---- Where readers start

  /** Messages are told apart by their bytes, whatever follows. */
  lemma FirstMessage(m: Message, n: Message, after: bytes, after': bytes)
    requires Encodable(m) && Encodable(n) && Encode(m) + after == Encode(n) + after'
    ensures m == n && after == after'
  {
    var all := Encode(m) + after;
    var sc := [Wire.Chunk(all, false)];
    assert Wire.Content(sc) == all + [] == all && all + [] == all;
    Wire.PacketRoundTrip(m, sc, [], after);
    Wire.PacketRoundTrip(n, sc, [], after');
    assert after + [] == after && after' + [] == after';
  }

  lemma NextMessage(m: Message, more: seq<Message>, all: seq<Message>, after: bytes)
    requires Encodable(m) && forall n | n in more :: Encodable(n)
    requires forall n | n in all :: Encodable(n)
    requires forall n | n in [m] + more :: Encodable(n)
    requires EncodeAll([m] + more) + after == EncodeAll(all)
    ensures all != [] && all[0] == m && EncodeAll(more) + after == EncodeAll(all[1..])
  {
    WrittenFirst(m, more, Encode);
    assert (Encode(m) + EncodeAll(more)) + after == Encode(m) + (EncodeAll(more) + after);
    assert all != [];
    assert all == [all[0]] + all[1..];
    WrittenFirst(all[0], all[1..], Encode);
    FirstMessage(m, all[0], EncodeAll(more) + after, EncodeAll(all[1..]));
  }

  /** So a place in a stream that comes after whole messages is a place between its messages. */
  lemma {:induction false} Boundary(ms: seq<Message>, all: seq<Message>, after: bytes)
    requires forall m | m in ms :: Encodable(m)
    requires forall m | m in all :: Encodable(m)
    requires EncodeAll(ms) + after == EncodeAll(all)
    ensures ms <= all && after == EncodeAll(all[|ms|..])
  {
    if ms == [] {
      assert [] + after == after && all[0..] == all;
    } else {
      assert ms == [ms[0]] + ms[1..];
      NextMessage(ms[0], ms[1..], all, after);
      Boundary(ms[1..], all[1..], after);
      assert all[1..][|ms[1..]|..] == all[|ms|..];
    }
  }

  /**
   No reader starts inside a packet unless reading one has failed on this connection: what has been read
   by then is whole packets.  If the device sent the bytes of the messages `ms`, those are the first of
   them, and the next byte is the first of the next.
   */
  lemma ReadersStartOnBoundaries(s: Sys, t: Tid, ms: seq<Message>, after: bytes)
    requires Reachable(s) && t in s.pcs && !s.line.readFailed
    requires s.pcs[t].Head? || s.pcs[t].Shake?
    ensures forall m | m in s.line.received :: Encodable(m)
    ensures forall p | p in s.line.taken :: !p.Junk? && Encodable(p.msg)
    ensures Render(s.line.taken) == EncodeAll(s.line.received)
    ensures (forall m | m in ms :: Encodable(m)) && Render(s.line.taken) + after == EncodeAll(ms) ==>
              s.line.received <= ms && after == EncodeAll(ms[|s.line.received|..])
  {
    ReachableSafe(s);
    RenderFrames(s.line.received);
    assert s.line.taken == Frames(s.line.received);
    if (forall m | m in ms :: Encodable(m)) && Render(s.line.taken) + after == EncodeAll(ms) {
      Boundary(s.line.received, ms, after);
    }
  }
}
