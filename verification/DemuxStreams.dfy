/**
 One stream among many.  A stream starts with a `read` for OKAY with its local id, which learns the
 remote id; after that all its reads have both ids.  Whatever the other threads do, those reads see the
 stream's packets in the order of arrival; and if they are those of `_read_until_close`, they return
 exactly its WRTE packets.
 */
module DemuxStreams {
  import opened Bytes
  import opened AdbMessage
  import opened Stores
  import opened Ledgers
  import opened Demux
  import opened DemuxFates
  import opened DemuxSafety

  /** The read of `_open`. */
  function OpenOp(local: u32): Op {
    Op(TransactionInfo(Some(local), None), {OKAY}, false)
  }

  /** The reads of `_read_until`. */
  function StreamOp(local: u32, remote: u32, expected: set<Cmd>): Op {
    Op(TransactionInfo(Some(local), Some(remote)), expected, true)
  }

  /**
   A stream: its ids, what its reads may expect, the number of the OKAY that opened it, and the place in
   the log after that OKAY.
   */
  datatype Stream = Stream(local: u32, remote: u32, may: set<Cmd> -> bool, okay: nat, start: nat) {

    function Id(): Key {
      Key(remote, local)
    }

    /** A read with the local id of the stream is one of the stream. */
    predicate Allows(op: Op) {
      op.info.localId == Some(local) ==> op == StreamOp(local, remote, op.expected) && may(op.expected)
    }
  }

  /**
   The read of `_open` takes an OKAY with the local id from whatever remote id; the others take what has both ids,
   or a zero for one or both.
   */
  lemma ReadsWant(local: u32, remote: u32, expected: set<Cmd>, k: Key)
    ensures OpenOp(local).Wants(k) <==> k.arg1 == local
    ensures OpenOp(local).expected == {OKAY}
    ensures StreamOp(local, remote, expected).Wants(k) <==>
              (k.arg0 == remote || k.arg0 == 0) && (k.arg1 == local || k.arg1 == 0)
    ensures StreamOp(local, remote, expected).expected == expected
  {
  }

  /** What the reads of `_read_until_close` expect. */
  function UntilClose(): set<Cmd> -> bool {
    (expected: set<Cmd>) => expected == {CLSE, WRTE}
  }

  // ---- Packets picked from the log, and packets picked in the order of arrival

  /** Of the packets consumed at log positions `from` up to `to`, those that are `which`. */
  function Picked(l: Ledger, which: Record -> bool, from: nat, to: nat): (ids: seq<nat>)
    requires from <= to <= |l.log|
    requires forall i | 0 <= i < |l.log| :: l.log[i] < |l.past|
    ensures forall i | 0 <= i < |ids| :: ids[i] < |l.past|
  {
    if from == to then []
    else
      var id := l.log[to - 1];
      Picked(l, which, from, to - 1) + (if which(l.past[id]) then [id] else [])
  }

  /** Of the packets number `lo` up to `hi`, those that are `which`. */
  function Arrived(l: Ledger, which: Record -> bool, lo: nat, hi: nat): (ids: seq<nat>)
    requires lo <= hi <= |l.past|
    ensures forall i | 0 <= i < |ids| :: lo <= ids[i] < hi && which(l.past[ids[i]])
  {
    if lo == hi then []
    else Arrived(l, which, lo, hi - 1) + (if which(l.past[hi - 1]) then [hi - 1] else [])
  }

  predicate Rising(ids: seq<nat>) {
    forall i, j | 0 <= i < j < |ids| :: ids[i] < ids[j]
  }

  lemma RisingLast(a: seq<nat>, x: nat)
    requires Rising(a) && a != []
    ensures x in a ==> x <= a[|a| - 1]
    ensures x in a[..|a| - 1] <==> x in a && x != a[|a| - 1]
  {
    assert a == a[..|a| - 1] + [a[|a| - 1]];
  }

  lemma {:induction false} RisingUnique(a: seq<nat>, b: seq<nat>)
    requires Rising(a) && Rising(b)
    requires forall x :: x in a <==> x in b
    ensures a == b
  {
    assert b != [] ==> b[0] in a;
    if a == [] {
    } else {
      assert a[0] in b;
      var a', x, b', y := a[..|a| - 1], a[|a| - 1], b[..|b| - 1], b[|b| - 1];
      assert x in b && y in a;
      RisingLast(a, y);
      RisingLast(b, x);
      forall z ensures z in a' <==> z in b' {
        RisingLast(a, z);
        RisingLast(b, z);
      }
      RisingUnique(a', b');
      assert a == a' + [x] && b == b' + [y];
    }
  }

  lemma RisingSnoc(ids: seq<nat>, x: nat)
    requires Rising(ids) && forall z | z in ids :: z < x
    ensures Rising(ids + [x])
    ensures forall z :: z in ids + [x] <==> z in ids || z == x
  {
    forall j | 0 <= j < |ids| ensures ids[j] < x { assert ids[j] in ids; }
  }

  lemma {:induction false} ArrivedAre(l: Ledger, which: Record -> bool, lo: nat, hi: nat)
    requires lo <= hi <= |l.past|
    ensures Rising(Arrived(l, which, lo, hi))
    ensures forall x :: x in Arrived(l, which, lo, hi) <==> lo <= x < hi && which(l.past[x])
  {
    if lo < hi {
      ArrivedAre(l, which, lo, hi - 1);
      RisingSnoc(Arrived(l, which, lo, hi - 1), hi - 1);
    }
  }

  lemma {:induction false} PickedAre(l: Ledger, which: Record -> bool, from: nat, to: nat)
    requires from <= to <= |l.log|
    requires forall i | 0 <= i < |l.log| :: l.log[i] < |l.past|
    ensures forall x :: x in Picked(l, which, from, to) <==>
              exists i :: from <= i < to && l.log[i] == x && which(l.past[x])
  {
    if from < to {
      PickedAre(l, which, from, to - 1);
      var rest := Picked(l, which, from, to - 1);
      forall x
        ensures x in Picked(l, which, from, to) <==>
                exists i :: from <= i < to && l.log[i] == x && which(l.past[x])
      {
        if x in rest {
          var i :| from <= i < to - 1 && l.log[i] == x && which(l.past[x]);
          assert from <= i < to;
        }
        if x == l.log[to - 1] && which(l.past[x]) {
          assert from <= to - 1 < to;
        }
      }
    }
  }

  /** If all of them have one key, they come in the order of arrival. */
  lemma {:induction false} PickedRise(l: Ledger, which: Record -> bool, from: nat, to: nat, k: Key)
    requires from <= to <= |l.log| && LogOk(l)
    requires forall r | which(r) :: KeyOf(r.msg) == k
    ensures Rising(Picked(l, which, from, to))
  {
    if from < to {
      PickedRise(l, which, from, to - 1, k);
      PickedAre(l, which, from, to - 1);
      if which(l.past[l.log[to - 1]]) {
        RisingSnoc(Picked(l, which, from, to - 1), l.log[to - 1]);
      }
    }
  }

  lemma {:induction false} PickedSame(l: Ledger, which: Record -> bool, that: Record -> bool, from: nat, to: nat)
    requires from <= to <= |l.log|
    requires forall i | 0 <= i < |l.log| :: l.log[i] < |l.past|
    requires forall i | from <= i < to :: which(l.past[l.log[i]]) == that(l.past[l.log[i]])
    ensures Picked(l, which, from, to) == Picked(l, that, from, to)
  {
    if from < to {
      PickedSame(l, which, that, from, to - 1);
    }
  }

  lemma {:induction false} PickedFirst(l: Ledger, which: Record -> bool, from: nat, to: nat)
    requires from < to <= |l.log|
    requires forall i | 0 <= i < |l.log| :: l.log[i] < |l.past|
    ensures Picked(l, which, from, to) ==
            (if which(l.past[l.log[from]]) then [l.log[from]] else []) + Picked(l, which, from + 1, to)
  {
    if from + 1 < to {
      PickedFirst(l, which, from, to - 1);
    }
  }

  /** Packet `i` was consumed at a log position from `from` up to `to`. */
  ghost predicate At(l: Ledger, from: nat, to: nat, i: nat)
    requires to <= |l.log|
  {
    exists j :: from <= j < to && l.log[j] == i
  }

  /** The same packets, picked from the log or in the order of arrival, come in the same order. */
  lemma PickedIsArrived(l: Ledger, which: Record -> bool, that: Record -> bool,
        from: nat, to: nat, lo: nat, hi: nat, k: Key)
    requires from <= to <= |l.log| && lo <= hi <= |l.past| && LogOk(l)
    requires forall r | which(r) :: KeyOf(r.msg) == k
    requires forall j | from <= j < to && which(l.past[l.log[j]]) :: lo <= l.log[j] < hi && that(l.past[l.log[j]])
    requires forall i | lo <= i < hi && that(l.past[i]) :: which(l.past[i]) && At(l, from, to, i)
    ensures Picked(l, which, from, to) == Arrived(l, that, lo, hi)
  {
    PickedAre(l, which, from, to);
    PickedRise(l, which, from, to, k);
    ArrivedAre(l, that, lo, hi);
    forall x ensures x in Picked(l, which, from, to) <==> x in Arrived(l, that, lo, hi) {
      if x in Arrived(l, that, lo, hi) {
        assert At(l, from, to, x);
      }
    }
    RisingUnique(Picked(l, which, from, to), Arrived(l, that, lo, hi));
  }

  lemma PickedMore(l: Ledger, which: Record -> bool, that: Record -> bool, from: nat, to: nat, j: nat, lo: nat, hi: nat)
    requires from <= j < to <= |l.log| && lo <= hi <= |l.past|
    requires forall i | 0 <= i < |l.log| :: l.log[i] < |l.past|
    requires which(l.past[l.log[j]]) && !that(l.past[l.log[j]])
    ensures Picked(l, which, from, to) != Arrived(l, that, lo, hi)
  {
    PickedAre(l, which, from, to);
    ArrivedAre(l, that, lo, hi);
    assert l.log[j] in Picked(l, which, from, to);
  }

  /** Returned by a read with that local id. */
  function ReturnedTo(local: u32): Record -> bool {
    (r: Record) => r.fate.Returned? && r.fate.op.info.localId == Some(local)
  }

  /** The same, of packets of one key. */
  function ReturnedOf(local: u32, k: Key): Record -> bool {
    (r: Record) => r.fate.Returned? && r.fate.op.info.localId == Some(local) && KeyOf(r.msg) == k
  }

  function WriteOf(k: Key): Record -> bool {
    (r: Record) => KeyOf(r.msg) == k && r.msg.cmd == WRTE
  }

  function WithKey(k: Key): Record -> bool {
    (r: Record) => KeyOf(r.msg) == k
  }

  function ConsumedOf(k: Key): Record -> bool {
    (r: Record) => KeyOf(r.msg) == k && r.fate.Consumed()
  }

  // ---- What the reads of the stream do to the ledger once it has started

  /** A packet of the stream that has been consumed was consumed by a read of the stream. */
  predicate RecordOf(l: Ledger, o: Stream, i: nat)
    requires i < |l.past|
  {
    var r := l.past[i];
    KeyOf(r.msg) == o.Id() ==> !r.fate.Ended() && (r.fate.Consumed() ==> OfStream(o, r.fate.op))
  }

  /** What was consumed at a log position was consumed by a read of the stream or of another. */
  predicate EntryOf(l: Ledger, o: Stream, j: nat)
    requires j < |l.log|
  {
    l.log[j] < |l.past| && l.past[l.log[j]].fate.Consumed() && o.Allows(l.past[l.log[j]].fate.op)
  }

  /** By log position `j`, packet `i` had been consumed, or had gone with a CLSE, or was never stored. */
  predicate Gone(l: Ledger, i: nat, j: nat)
    requires i < |l.past| && j <= |l.log|
  {
    match l.past[i].fate
    case Returned(_) => i in l.log[..j]
    case Discarded(_) => i in l.log[..j]
    case Behind(c) => c in l.log[..j]
    case NoEntry => true
    case _ => false
  }

  /** When a read of the stream consumed a packet of whatever key, no older packet of the stream was left. */
  ghost predicate PassedOf(l: Ledger, o: Stream, j: nat)
    requires j < |l.log|
  {
    && l.log[j] < |l.past| && l.past[l.log[j]].fate.Consumed()
    && (l.past[l.log[j]].fate.op.info.localId == Some(o.local) ==>
          forall i | o.okay < i < l.log[j] && KeyOf(l.past[i].msg) == o.Id() :: Gone(l, i, j))
  }

  /** So it is with every packet newer than the stream's OKAY, and everywhere in the log after it. */
  ghost predicate StreamRecords(l: Ledger, o: Stream) {
    && o.okay < |l.past| && 0 < o.start <= |l.log| && l.log[o.start - 1] == o.okay
    && KeyOf(l.past[o.okay].msg) == o.Id() && l.past[o.okay].msg.cmd == OKAY && l.past[o.okay].fate.Consumed()
    && (forall i | o.okay < i < |l.past| :: RecordOf(l, o, i))
    && (forall j | o.start <= j < |l.log| :: EntryOf(l, o, j))
  }

  ghost predicate StreamLedger(l: Ledger, o: Stream) {
    StreamRecords(l, o) && forall j | o.start <= j < |l.log| :: PassedOf(l, o, j)
  }

  predicate OfStream(o: Stream, op: Op) {
    op == StreamOp(o.local, o.remote, op.expected) && o.may(op.expected)
  }

  /**
   A read of the stream consumed packet number `last` at log position `at`, whatever the ids of that packet
   are, and no CLSE of the stream was returned before.
   */
  ghost predicate Reached(l: Ledger, o: Stream, last: nat, at: nat) {
    && o.start <= at < |l.log| && l.log[at] == last < |l.past|
    && l.past[last].fate.Consumed() && l.past[last].fate.op.info.localId == Some(o.local)
    && (forall j | o.start <= j < at :: l.log[j] < |l.past| && !ClosedBy(l.past[l.log[j]], o))
  }

  /** The stream's CLSE, returned. */
  predicate ClosedBy(r: Record, o: Stream) {
    KeyOf(r.msg) == o.Id() && r.msg.cmd == CLSE && r.fate.Returned?
  }

  /** The reads of the stream are those of `_read_until_close`. */
  ghost predicate Reading(l: Ledger, hand: Option<nat>, o: Stream) {
    Inv(l, hand) && StreamLedger(l, o) && o.may == UntilClose()
  }

  /** Packets of the stream newer than its OKAY were consumed after it. */
  lemma AfterOkay(l: Ledger, hand: Option<nat>, o: Stream, i: nat, at: nat)
    requires Inv(l, hand) && StreamLedger(l, o)
    requires o.okay < i < |l.past| && KeyOf(l.past[i].msg) == o.Id() && at <= |l.log| && i in l.log[..at]
    ensures At(l, o.start, at, i)
  {
    var j :| 0 <= j < at && l.log[j] == i;
    assert l.log[o.start - 1] == o.okay;
  }

  /** What went with a CLSE of the stream did so when that was returned. */
  lemma BehindClosed(l: Ledger, hand: Option<nat>, o: Stream, at: nat, i: nat)
    requires Reading(l, hand, o) && at <= |l.log|
    requires o.okay < i < |l.past| && KeyOf(l.past[i].msg) == o.Id() && Gone(l, i, at) && l.past[i].fate.Behind?
    ensures exists j | o.start <= j < at :: l.log[j] < |l.past| && ClosedBy(l.past[l.log[j]], o)
  {
    var c := l.past[i].fate.close;
    assert RecordOk(l, hand, i) && RecordOk(l, hand, c) && RecordOk(l, hand, o.okay);
    assert o.okay < c;
    AfterOkay(l, hand, o, c, at);
    assert RecordOf(l, o, c);
    var j :| o.start <= j < at && l.log[j] == c;
    assert ClosedBy(l.past[l.log[j]], o);
  }

  /** A WRTE of the stream older than that packet was returned before it. */
  lemma WriteReturned(l: Ledger, hand: Option<nat>, o: Stream, last: nat, at: nat, i: nat)
    requires Reading(l, hand, o) && Reached(l, o, last, at)
    requires o.okay < i < last && WriteOf(o.Id())(l.past[i])
    ensures ReturnedOf(o.local, o.Id())(l.past[i]) && At(l, o.start, at, i)
  {
    assert PassedOf(l, o, at) && RecordOk(l, hand, i) && RecordOf(l, o, i);
    if l.past[i].fate.Behind? {
      BehindClosed(l, hand, o, at, i);
    } else {
      AfterOkay(l, hand, o, i, at);
    }
  }

  /** What was returned of the stream before is WRTE packets. */
  lemma YieldedIsWrite(l: Ledger, hand: Option<nat>, o: Stream, last: nat, at: nat, j: nat)
    requires Reading(l, hand, o) && Reached(l, o, last, at)
    requires o.start <= j < at && ReturnedOf(o.local, o.Id())(l.past[l.log[j]])
    ensures o.okay < l.log[j] && WriteOf(o.Id())(l.past[l.log[j]])
    ensures KeyOf(l.past[last].msg) == o.Id() ==> l.log[j] < last
    ensures Reached(l, o, l.log[j], j)
  {
    assert EntryOf(l, o, j) && RecordOk(l, hand, l.log[j]);
    assert l.log[o.start - 1] == o.okay && l.log[at] == last;
  }

  function Max(a: nat, b: nat): nat {
    if a < b then b else a
  }

  /**
   Up to where, in the order of arrival, the reads of the stream had its packets when they came to packet
   `last`: up to that packet, if it is of the stream; if it has a zero for an id, newer ones may have come
   before it.
   */
  ghost function Upto(l: Ledger, o: Stream, last: nat, at: nat): nat
    requires at <= |l.log| && o.start <= at && last < |l.past|
    requires forall i | 0 <= i < |l.log| :: l.log[i] < |l.past|
  {
    var own := Picked(l, ReturnedOf(o.local, o.Id()), o.start, at);
    if KeyOf(l.past[last].msg) == o.Id() then last
    else if own == [] then Max(last, o.okay + 1)
    else Max(last, own[|own| - 1] + 1)
  }

  lemma UptoBounds(l: Ledger, hand: Option<nat>, o: Stream, last: nat, at: nat)
    requires Reading(l, hand, o) && Reached(l, o, last, at)
    ensures last <= Upto(l, o, last, at) <= |l.past| && o.okay < Upto(l, o, last, at)
    ensures KeyOf(l.past[last].msg) == o.Id() ==> Upto(l, o, last, at) == last
    ensures forall j | o.start <= j < at && ReturnedOf(o.local, o.Id())(l.past[l.log[j]]) ::
              l.log[j] < Upto(l, o, last, at)
  {
    var which, to := ReturnedOf(o.local, o.Id()), Upto(l, o, last, at);
    var own := Picked(l, which, o.start, at);
    PickedAre(l, which, o.start, at);
    PickedRise(l, which, o.start, at, o.Id());
    assert l.log[o.start - 1] == o.okay && l.log[at] == last;
    if own != [] {
      assert own[|own| - 1] in own;
    }
    forall j | o.start <= j < at && which(l.past[l.log[j]]) ensures o.okay < l.log[j] < to {
      YieldedIsWrite(l, hand, o, last, at, j);
      assert l.log[j] in own;
      RisingLast(own, l.log[j]);
    }
    assert EntryOf(l, o, at) && RecordOk(l, hand, last);
  }

  /** All of the stream's WRTE packets up to there have been returned. */
  lemma WriteIsYielded(l: Ledger, hand: Option<nat>, o: Stream, last: nat, at: nat, i: nat)
    requires Reading(l, hand, o) && Reached(l, o, last, at)
    requires o.okay < i < Upto(l, o, last, at) && i < |l.past| && WriteOf(o.Id())(l.past[i])
    ensures ReturnedOf(o.local, o.Id())(l.past[i]) && At(l, o.start, at, i)
  {
    if i < last {
      WriteReturned(l, hand, o, last, at, i);
    } else {
      var which := ReturnedOf(o.local, o.Id());
      var own := Picked(l, which, o.start, at);
      PickedAre(l, which, o.start, at);
      var newest := own[|own| - 1];
      assert newest in own;
      var j :| o.start <= j < at && l.log[j] == newest && which(l.past[newest]);
      YieldedIsWrite(l, hand, o, last, at, j);
      if i < newest {
        WriteReturned(l, hand, o, newest, j, i);
      }
    }
  }

  /** Of the stream's packets, its reads have returned exactly the WRTE packets so far. */
  lemma StreamExact(l: Ledger, hand: Option<nat>, o: Stream, last: nat, at: nat)
    requires Reading(l, hand, o) && Reached(l, o, last, at)
    ensures last <= Upto(l, o, last, at) <= |l.past| && o.okay < Upto(l, o, last, at)
    ensures KeyOf(l.past[last].msg) == o.Id() ==> Upto(l, o, last, at) == last
    ensures Picked(l, ReturnedOf(o.local, o.Id()), o.start, at) ==
            Arrived(l, WriteOf(o.Id()), o.okay + 1, Upto(l, o, last, at))
  {
    var own, writes, to := ReturnedOf(o.local, o.Id()), WriteOf(o.Id()), Upto(l, o, last, at);
    UptoBounds(l, hand, o, last, at);
    forall j | o.start <= j < at && own(l.past[l.log[j]])
      ensures o.okay < l.log[j] < to && writes(l.past[l.log[j]])
    {
      YieldedIsWrite(l, hand, o, last, at, j);
    }
    forall i | o.okay < i < to && writes(l.past[i])
      ensures own(l.past[i]) && At(l, o.start, at, i)
    {
      WriteIsYielded(l, hand, o, last, at, i);
    }
    PickedIsArrived(l, own, writes, o.start, at, o.okay + 1, to, o.Id());
  }

  /** A packet with a zero for an id where the stream has none. */
  predicate ZeroFor(o: Stream, m: Message) {
    (m.arg0 == 0 && o.remote != 0) || (m.arg1 == 0 && o.local != 0)
  }

  ghost predicate ZeroReturned(l: Ledger, o: Stream, at: nat)
    requires at <= |l.log| && forall i | 0 <= i < |l.log| :: l.log[i] < |l.past|
  {
    exists j :: o.start <= j < at && ReturnedTo(o.local)(l.past[l.log[j]]) && ZeroFor(o, l.past[l.log[j]].msg)
  }

  /** What goes to the reads of the stream is its own, or has a zero for an id. */
  lemma OwnOrZero(l: Ledger, hand: Option<nat>, o: Stream, j: nat)
    requires Reading(l, hand, o) && o.start <= j < |l.log| && ReturnedTo(o.local)(l.past[l.log[j]])
    ensures KeyOf(l.past[l.log[j]].msg) == o.Id() <==> !ZeroFor(o, l.past[l.log[j]].msg)
  {
    assert EntryOf(l, o, j) && RecordOk(l, hand, l.log[j]);
  }

  lemma ZeroShows(l: Ledger, hand: Option<nat>, o: Stream, last: nat, at: nat)
    requires Reading(l, hand, o) && Reached(l, o, last, at) && ZeroReturned(l, o, at)
    ensures o.okay < Upto(l, o, last, at) <= |l.past|
    ensures Picked(l, ReturnedTo(o.local), o.start, at) !=
            Arrived(l, WriteOf(o.Id()), o.okay + 1, Upto(l, o, last, at))
  {
    UptoBounds(l, hand, o, last, at);
    var j :| o.start <= j < at && ReturnedTo(o.local)(l.past[l.log[j]]) && ZeroFor(o, l.past[l.log[j]].msg);
    OwnOrZero(l, hand, o, j);
    PickedMore(l, ReturnedTo(o.local), WriteOf(o.Id()), o.start, at, j, o.okay + 1, Upto(l, o, last, at));
  }

  /** All that they have returned is the stream's WRTE packets exactly if nothing with such a zero is among it. */
  lemma ZeroIds(l: Ledger, hand: Option<nat>, o: Stream, last: nat, at: nat)
    requires Reading(l, hand, o) && Reached(l, o, last, at)
    ensures o.okay < Upto(l, o, last, at) <= |l.past|
    ensures var writes := Arrived(l, WriteOf(o.Id()), o.okay + 1, Upto(l, o, last, at));
            Picked(l, ReturnedTo(o.local), o.start, at) == writes <==> !ZeroReturned(l, o, at)
  {
    var all, own := ReturnedTo(o.local), ReturnedOf(o.local, o.Id());
    StreamExact(l, hand, o, last, at);
    if ZeroReturned(l, o, at) {
      ZeroShows(l, hand, o, last, at);
    } else {
      forall j | o.start <= j < at ensures all(l.past[l.log[j]]) == own(l.past[l.log[j]]) {
        if all(l.past[l.log[j]]) {
          OwnOrZero(l, hand, o, j);
        }
      }
      PickedSame(l, all, own, o.start, at);
    }
  }

  // ---- Every step of any thread keeps the stream's bookkeeping

  /** What passed before stays passed. */
  lemma PassedKept(l: Ledger, l': Ledger, o: Stream, j: nat)
    requires Grows(l, l') && j < |l.log| && PassedOf(l, o, j)
    ensures PassedOf(l', o, j)
  {
    assert l'.log[..j] == l.log[..j];
  }

  /** Of the packets of the stream that are older than packet `id`, those that do not wait are gone. */
  lemma OlderGone(l: Ledger, hand: Option<nat>, o: Stream, id: nat, i: nat)
    requires Inv(l, hand) && StreamLedger(l, o) && Queue(l.store, o.Id()) == []
    requires o.okay < i < id < |l.past| && KeyOf(l.past[i].msg) == o.Id()
    ensures Gone(l, i, |l.log|)
  {
    assert RecordOk(l, hand, i) && RecordOf(l, o, i);
    assert l.log[..|l.log|] == l.log;
    if l.past[i].fate.Behind? {
      assert RecordOk(l, hand, l.past[i].fate.close);
    }
  }

  lemma OlderGoneFirst(l: Ledger, hand: Option<nat>, o: Stream, i: nat)
    requires Inv(l, hand) && StreamLedger(l, o) && Queue(l.store, o.Id()) != []
    requires o.okay < i < |l.past| && KeyOf(l.past[i].msg) == o.Id() && i < Queue(l.store, o.Id())[0].id
    ensures Gone(l, i, |l.log|)
  {
    assert QueueOk(l, o.Id());
    assert RecordOk(l, hand, i) && RecordOf(l, o, i);
    assert l.log[..|l.log|] == l.log;
    QueuedAreInQueue(l, hand, o.Id(), i);
    if l.past[i].fate.Behind? {
      assert RecordOk(l, hand, l.past[i].fate.close);
    }
  }

  /** A read of the stream takes a packet of another key only when none of the stream's own waits. */
  lemma OwnFirst(l: Ledger, o: Stream, k: Key, op: Op)
    requires MayTake(l, op, k) && o.Allows(op) && op.info.localId == Some(o.local)
    ensures k != o.Id() ==> Queue(l.store, o.Id()) == []
  {
    if Queue(l.store, o.Id()) != [] {
      assert Hit(l.store, op.info.remoteId, op.info.localId, o.Id());
      var i :| 0 <= i < 4 && HitsFirst(l.store, op.info.remoteId, op.info.localId, i, k);
      assert Patterns(op.info.remoteId, op.info.localId)[0] == (op.info.remoteId, op.info.localId);
      assert i == 0;
    }
  }

  lemma TakePasses(l: Ledger, hand: Option<nat>, o: Stream, k: Key, op: Op)
    requires Inv(l, hand) && StreamLedger(l, o)
    requires MayTake(l, op, k) && o.Allows(op)
    ensures PassedOf(Take(l, k, op), o, |l.log|)
  {
    var l', p := Take(l, k, op), l.store[k][0];
    TakeGrows(l, hand, k, op);
    assert QueueOk(l, k);
    assert Queue(l.store, k)[0] == p;
    TakeEffect(l, hand, k, op, p.id);
    assert l'.log[..|l.log|] == l.log == l.log[..|l.log|];
    if op.info.localId == Some(o.local) {
      OwnFirst(l, o, k, op);
      forall i | o.okay < i < p.id && KeyOf(l.past[i].msg) == o.Id() ensures Gone(l', i, |l.log|) {
        if k == o.Id() {
          OlderGoneFirst(l, hand, o, i);
        } else {
          OlderGone(l, hand, o, p.id, i);
        }
      }
    }
  }

  lemma JudgePasses(l: Ledger, o: Stream, p: Packet, op: Op)
    requires Inv(l, Some(p.id)) && StreamLedger(l, o)
    requires l.past[p.id].msg == p.msg && NothingFor(l, op) && o.Allows(op)
    ensures PassedOf(Judge(l, p, op), o, |l.log|)
  {
    var l' := Judge(l, p, op);
    assert l'.log[..|l.log|] == l.log == l.log[..|l.log|];
    if op.info.localId == Some(o.local) {
      assert op.Wants(o.Id());
      forall i | o.okay < i < p.id && KeyOf(l.past[i].msg) == o.Id() ensures Gone(l', i, |l.log|) {
        OlderGone(l, Some(p.id), o, p.id, i);
      }
    }
  }

  lemma TakeRecord(l: Ledger, hand: Option<nat>, o: Stream, k: Key, op: Op, i: nat)
    requires Inv(l, hand) && StreamLedger(l, o) && o.okay < i < |l.past|
    requires Queue(l.store, k) != [] && op.Wants(k) && o.Allows(op) && o.local != 0
    ensures RecordOf(Take(l, k, op), o, i)
  {
    var p := l.store[k][0];
    assert QueueOk(l, k);
    assert Queue(l.store, k)[0] == p && KeyOf(p.msg) == k;
    assert RecordOf(l, o, i);
    TakeEffect(l, hand, k, op, i);
  }

  lemma TakeEntry(l: Ledger, hand: Option<nat>, o: Stream, k: Key, op: Op, j: nat)
    requires Inv(l, hand) && StreamLedger(l, o) && o.start <= j <= |l.log|
    requires Queue(l.store, k) != [] && op.Wants(k) && o.Allows(op) && o.local != 0
    ensures EntryOf(Take(l, k, op), o, j)
  {
    var p := l.store[k][0];
    assert QueueOk(l, k);
    assert Queue(l.store, k)[0] == p && KeyOf(p.msg) == k;
    if j < |l.log| {
      assert EntryOf(l, o, j);
      TakeEffect(l, hand, k, op, l.log[j]);
    } else {
      TakeEffect(l, hand, k, op, p.id);
    }
  }

  lemma TakeStream(l: Ledger, hand: Option<nat>, o: Stream, k: Key, op: Op)
    requires Inv(l, hand) && StreamLedger(l, o)
    requires Queue(l.store, k) != [] && op.Wants(k) && o.Allows(op) && o.local != 0
    ensures StreamRecords(Take(l, k, op), o)
  {
    var l' := Take(l, k, op);
    TakeEffect(l, hand, k, op, o.okay);
    forall i | o.okay < i < |l'.past| ensures RecordOf(l', o, i) { TakeRecord(l, hand, o, k, op, i); }
    forall j | o.start <= j < |l'.log| ensures EntryOf(l', o, j) { TakeEntry(l, hand, o, k, op, j); }
  }

  lemma JudgeStream(l: Ledger, o: Stream, p: Packet, op: Op)
    requires Inv(l, Some(p.id)) && StreamLedger(l, o)
    requires l.past[p.id].msg == p.msg && op.Wants(KeyOf(p.msg)) && o.Allows(op) && o.local != 0
    ensures StreamRecords(Judge(l, p, op), o)
  {
    var l' := Judge(l, p, op);
    forall i | o.okay < i < |l'.past| ensures RecordOf(l', o, i) { assert RecordOf(l, o, i); }
    forall j | o.start <= j < |l'.log| ensures EntryOf(l', o, j) {
      if j < |l.log| { assert EntryOf(l, o, j); }
    }
  }

  lemma PutStream(l: Ledger, o: Stream, p: Packet)
    requires Inv(l, Some(p.id)) && StreamLedger(l, o)
    ensures StreamRecords(Put(l, p), o)
  {
    var l' := Put(l, p);
    forall i | o.okay < i < |l'.past| ensures RecordOf(l', o, i) { assert RecordOf(l, o, i); }
    forall j | o.start <= j < |l'.log| ensures EntryOf(l', o, j) { assert EntryOf(l, o, j); }
  }

  lemma ClearStream(l: Ledger, o: Stream, k: Key)
    requires StreamLedger(l, o)
    ensures StreamRecords(Clear(l, k), o)
  {
    var l' := Clear(l, k);
    forall i | o.okay < i < |l'.past| ensures RecordOf(l', o, i) { assert RecordOf(l, o, i); }
    forall j | o.start <= j < |l'.log| ensures EntryOf(l', o, j) { assert EntryOf(l, o, j); }
  }

  lemma ArriveStream(l: Ledger, o: Stream, m: Message)
    requires StreamLedger(l, o)
    ensures StreamRecords(Arrive(l, m), o)
  {
    var l' := Arrive(l, m);
    forall i | o.okay < i < |l'.past| ensures RecordOf(l', o, i) {
      if i < |l.past| { assert RecordOf(l, o, i); }
    }
    forall j | o.start <= j < |l'.log| ensures EntryOf(l', o, j) { assert EntryOf(l, o, j); }
  }

  /** `connect` or `close` on its way. */
  predicate Resetting(pc: Pc) {
    pc.ResetWant? || pc.Closing? || pc.WipeWant? || pc.Wiping? || pc.Shaking()
  }

  predicate PcAllowed(pc: Pc, o: Stream) {
    !Resetting(pc) && (pc.Reading() ==> o.Allows(pc.op))
  }

  predicate ActionAllowed(a: Action, o: Stream) {
    !a.BeginReset? && (a.BeginRead? ==> o.Allows(a.op))
  }

  lemma QuietStream(pc: Pc, a: Action, led: Ledger, line: Line, o: Stream)
    requires PcAllowed(pc, o) && ActionAllowed(a, o)
    requires !(a.Get? || a.JudgeIt? || a.PutIt? || a.ClearIt?)
    requires StreamLedger(led, o)
    requires Move(pc, a, led, line).Some?
    ensures StreamRecords(Move(pc, a, led, line).value.led, o) && Move(pc, a, led, line).value.led.log == led.log
  {
    var e := Move(pc, a, led, line).value;
    if e.led != led {
      var m := if a.Header? then a.msg else pc.msg;
      assert e.led == Arrive(led, m);
      ArriveStream(led, o, m);
    }
  }

  lemma ConsumeStream(pc: Pc, a: Action, led: Ledger, line: Line, owner: Pc, o: Stream)
    requires a.Get? || a.JudgeIt?
    requires LedgerOk(led, owner) && (pc.HoldsT() ==> owner == pc)
    requires PcAllowed(pc, o) && o.local != 0
    requires StreamLedger(led, o)
    requires Move(pc, a, led, line).Some?
    ensures var l := Move(pc, a, led, line).value.led;
            StreamRecords(l, o) && |l.log| == |led.log| + 1 && PassedOf(l, o, |led.log|)
  {
    if a.Get? {
      TakeStream(led, Hand(owner), o, a.k, pc.op);
      TakePasses(led, Hand(owner), o, a.k, pc.op);
    } else {
      JudgeStream(led, o, pc.p, pc.op);
      JudgePasses(led, o, pc.p, pc.op);
    }
  }

  lemma MoveStream(pc: Pc, a: Action, led: Ledger, line: Line, owner: Pc, o: Stream)
    requires LedgerOk(led, owner) && (pc.HoldsT() ==> owner == pc)
    requires PcAllowed(pc, o) && ActionAllowed(a, o) && o.local != 0
    requires StreamLedger(led, o)
    requires Move(pc, a, led, line).Some?
    ensures StreamLedger(Move(pc, a, led, line).value.led, o)
  {
    var l := Move(pc, a, led, line).value.led;
    if a.Get? || a.JudgeIt? {
      ConsumeStream(pc, a, led, line, owner, o);
    } else if a.PutIt? {
      PutStream(led, o, pc.p);
    } else if a.ClearIt? {
      ClearStream(led, o, KeyOf(pc.p.msg));
    } else {
      QuietStream(pc, a, led, line, o);
    }
    MoveGrows(pc, a, led, line, owner);
    forall j | o.start <= j < |l.log| ensures PassedOf(l, o, j) {
      if j < |led.log| { PassedKept(led, l, o, j); }
    }
  }

  lemma ReaderPc(pc: Pc, a: Action, led: Ledger, line: Line, o: Stream)
    requires PcAllowed(pc, o)
    requires MoveRead(pc, a, led, line).Some? || MoveWrite(pc, a, led, line).Some? || MoveReset(pc, a, led, line).Some?
    ensures MoveRead(pc, a, led, line).Some? ==> PcAllowed(MoveRead(pc, a, led, line).value.pc, o)
    ensures MoveWrite(pc, a, led, line).Some? ==> PcAllowed(MoveWrite(pc, a, led, line).value.pc, o)
    ensures !MoveReset(pc, a, led, line).Some?
  {
  }

  lemma MovePc(pc: Pc, a: Action, led: Ledger, line: Line, o: Stream)
    requires PcAllowed(pc, o) && ActionAllowed(a, o)
    requires Move(pc, a, led, line).Some?
    ensures PcAllowed(Move(pc, a, led, line).value.pc, o)
  {
    if a.BeginRead? || a.BeginSend? || a.Acquire? || a.Get? || a.Drained? || a.Header? || a.Rest? {
    } else {
      ReaderPc(pc, a, led, line, o);
    }
  }

  ghost predicate StreamSys(s: Sys, o: Stream) {
    Safe(s) && StreamLedger(s.led, o) && forall t | t in s.pcs :: PcAllowed(s.pcs[t], o)
  }

  /** A run of any threads without `connect` or `close`, in which reads with the local id of the stream are its own. */
  ghost predicate Undisturbed(run: Run, o: Stream) {
    forall i | 0 <= i < |run| :: ActionAllowed(run[i].1, o)
  }

  lemma {:induction false} RunStream(s: Sys, run: Run, o: Stream)
    requires StreamSys(s, o) && o.local != 0
    requires Exec(s, run).Some? && Undisturbed(run, o)
    ensures StreamSys(Exec(s, run).value, o)
    decreases |run|
  {
    if run == [] {
    } else {
      var (t, a) := run[0];
      StepKeeps(s, t, a);
      StepLocks(s, t, a);
      MoveStream(s.pcs[t], a, s.led, s.line, Owner(s), o);
      MovePc(s.pcs[t], a, s.led, s.line, o);
      RunStream(Next(s, t, a).value, run[1..], o);
    }
  }

  /** The step in which the read of `_open` returns the stream's OKAY. */
  ghost predicate Opens(s: Sys, t: Tid, a: Action, o: Stream) {
    && Next(s, t, a).Some?
    && var l := Next(s, t, a).value.led;
       && o.start == |l.log| == |s.led.log| + 1 && o.okay == l.log[|s.led.log|]
       && o.okay < |s.led.past| == |l.past|
       && KeyOf(l.past[o.okay].msg) == o.Id() && l.past[o.okay].msg.cmd == OKAY
       && l.past[o.okay].fate == Returned(OpenOp(o.local))
  }

  lemma OnlyReadersLog(pc: Pc, a: Action, led: Ledger, line: Line)
    requires Move(pc, a, led, line).Some?
    ensures |Move(pc, a, led, line).value.led.log| != |led.log| ==> a.Get? || a.JudgeIt?
  {
  }

  lemma OpeningFates(s: Sys, t: Tid, a: Action, o: Stream)
    requires Safe(s) && Opens(s, t, a, o)
    ensures var l := Next(s, t, a).value.led;
            s.led.past[o.okay].fate.Live() && l.floor == s.led.floor && l.log[..|s.led.log|] == s.led.log
  {
    var pc := s.pcs[t];
    OnlyReadersLog(pc, a, s.led, s.line);
    if a.Get? {
      assert QueueOk(s.led, a.k);
      assert Queue(s.led.store, a.k)[0] == s.led.store[a.k][0];
      assert MoveGet(pc, a.k, s.led, s.line).Some?;
    } else {
      assert MoveRead(pc, JudgeIt, s.led, s.line).Some?;
      assert RecordOk(s.led, Hand(pc), pc.p.id);
    }
  }

  lemma OpeningStep(s: Sys, t: Tid, a: Action, o: Stream)
    requires Safe(s) && Opens(s, t, a, o)
    ensures StreamLedger(Next(s, t, a).value.led, o)
  {
    var s' := Next(s, t, a).value;
    var l := s'.led;
    StepKeeps(s, t, a);
    OpeningFates(s, t, a, o);
    assert RecordOk(s.led, Hand(Owner(s)), o.okay);
    forall i | o.okay < i < |l.past|
      ensures RecordOf(l, o, i)
    {
      assert RecordOk(l, Hand(Owner(s')), i);
    }
  }

  /**
   A stream is opened in the step from `s0` to `s1` by thread `t`; then any threads take any steps up to
   `s2`, except that nobody connects or closes and reads with this local id are the stream's.
   */
  ghost predicate Lifetime(s0: Sys, t: Tid, a: Action, s1: Sys, run: Run, s2: Sys, o: Stream) {
    && Reachable(s0) && Opens(s0, t, a, o) && Next(s0, t, a) == Some(s1) && o.local != 0
    && (forall u | u in s1.pcs :: PcAllowed(s1.pcs[u], o))
    && Exec(s1, run) == Some(s2) && Undisturbed(run, o)
  }

  lemma LifetimeKeeps(s0: Sys, t: Tid, a: Action, s1: Sys, run: Run, s2: Sys, o: Stream)
    requires Lifetime(s0, t, a, s1, run, s2, o)
    ensures StreamSys(s2, o)
  {
    ReachableSafe(s0);
    StepKeeps(s0, t, a);
    OpeningStep(s0, t, a, o);
    RunStream(s1, run, o);
  }

  lemma LifetimeReachable(s0: Sys, t: Tid, a: Action, s1: Sys, run: Run, s2: Sys, o: Stream)
    requires Lifetime(s0, t, a, s1, run, s2, o)
    ensures Reachable(s1) && Reachable(s2)
  {
    var threads, first :| Exec(Init(threads), first) == Some(s0);
    ExecAppend(Init(threads), first, [(t, a)]);
    assert Exec(s1, []) == Some(s1);
    ExecAppend(Init(threads), first + [(t, a)], run);
  }

  /**
   Isolation: let its reads be those of `_read_until_close`.  When they come to any packet `last`, such as the
   CLSE that ends the stream, be it its own or one with a zero for an id, they have returned, of the stream's
   packets, exactly the WRTE packets that arrived between its OKAY and `last`, in order, or even some that
   came after `last`, if that has a zero; and these are all that they have returned exactly if nothing
   was returned to them that has a zero for an id.
   */
  lemma StreamIsolation(s0: Sys, t: Tid, a: Action, s1: Sys, run: Run, s2: Sys, o: Stream, last: nat, at: nat)
    requires Lifetime(s0, t, a, s1, run, s2, o) && o.may == UntilClose() && Reached(s2.led, o, last, at)
    ensures forall i | 0 <= i < |s2.led.log| :: s2.led.log[i] < |s2.led.past|
    ensures var to := Upto(s2.led, o, last, at);
            && last <= to <= |s2.led.past| && o.okay < to && (KeyOf(s2.led.past[last].msg) == o.Id() ==> to == last)
            && var writes := Arrived(s2.led, WriteOf(o.Id()), o.okay + 1, to);
               && Picked(s2.led, ReturnedOf(o.local, o.Id()), o.start, at) == writes
               && (Picked(s2.led, ReturnedTo(o.local), o.start, at) == writes <==> !ZeroReturned(s2.led, o, at))
  {
    LifetimeKeeps(s0, t, a, s1, run, s2, o);
    StreamExact(s2.led, Hand(Owner(s2)), o, last, at);
    ZeroIds(s2.led, Hand(Owner(s2)), o, last, at);
  }

  // ---- What the device has to keep to

  /** A packet with a zero for an id of the stream is waiting or in hand in `l1`, or comes later. */
  ghost predicate ZeroComes(l1: Ledger, l2: Ledger, o: Stream) {
    exists i | 0 <= i < |l2.past| :: (i < |l1.past| ==> l1.past[i].fate.Live()) && ZeroFor(o, l2.past[i].msg)
  }

  /** What was consumed after `l1` was waiting or in hand then, or came later. */
  lemma ConsumedLater(l1: Ledger, hand1: Option<nat>, l2: Ledger, hand2: Option<nat>, j: nat)
    requires Inv(l1, hand1) && Inv(l2, hand2) && Grows(l1, l2) && |l1.log| <= j < |l2.log|
    ensures l2.log[j] < |l1.past| ==> l1.past[l2.log[j]].fate.Live()
  {
    var i := l2.log[j];
    forall p | 0 <= p < |l1.log| ensures l1.log[p] != i { assert l2.log[p] == l1.log[p]; }
    if i < |l1.past| {
      assert RecordOk(l1, hand1, i);
    }
  }

  /**
   So if the device sends nothing with a zero for an id of the stream, and nothing such is waiting when
   the stream starts, all that its reads return is its WRTE packets up to the CLSE.
   */
  lemma NoZeroIds(s0: Sys, t: Tid, a: Action, s1: Sys, run: Run, s2: Sys, o: Stream, last: nat, at: nat)
    requires Lifetime(s0, t, a, s1, run, s2, o) && o.may == UntilClose() && Reached(s2.led, o, last, at)
    requires !ZeroComes(s1.led, s2.led, o)
    ensures forall i | 0 <= i < |s2.led.log| :: s2.led.log[i] < |s2.led.past|
    ensures o.okay < last && KeyOf(s2.led.past[last].msg) == o.Id()
    ensures Picked(s2.led, ReturnedTo(o.local), o.start, at) == Arrived(s2.led, WriteOf(o.Id()), o.okay + 1, last)
  {
    var hand2 := Hand(Owner(s2));
    LifetimeReachable(s0, t, a, s1, run, s2, o);
    ReachableSafe(s1);
    RunGrows(s1, run);
    LifetimeKeeps(s0, t, a, s1, run, s2, o);
    StreamIsolation(s0, t, a, s1, run, s2, o, last, at);
    forall j | o.start <= j < |s2.led.log| ensures !ZeroFor(o, s2.led.past[s2.led.log[j]].msg) {
      ConsumedLater(s1.led, Hand(Owner(s1)), s2.led, hand2, j);
    }
    assert EntryOf(s2.led, o, at) && RecordOk(s2.led, hand2, last);
  }

  // ---- What all readers together see of one key

  /** Readers see the packets of a key in exactly the order of arrival, and each that was consumed exactly once. */
  lemma ConsumedInOrder(s: Sys, k: Key)
    requires Reachable(s)
    ensures forall i | 0 <= i < |s.led.log| :: s.led.log[i] < |s.led.past|
    ensures Picked(s.led, WithKey(k), 0, |s.led.log|) == Arrived(s.led, ConsumedOf(k), 0, |s.led.past|)
  {
    ReachableSafe(s);
    var l := s.led;
    forall i | 0 <= i < |l.past| && ConsumedOf(k)(l.past[i]) ensures At(l, 0, |l.log|, i) {
      assert RecordOk(l, Hand(Owner(s)), i);
    }
    PickedIsArrived(l, WithKey(k), ConsumedOf(k), 0, |l.log|, 0, |l.past|, k);
  }
}
