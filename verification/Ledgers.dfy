/**
 The accounting of packets behind `_AdbIOManager.read`.  Every packet taken off the wire gets a
 number, its place in the order of arrival, and a fate; the ledger is the packet store together with
 these histories.  Its invariant is what every operation of the demultiplexer keeps.
 */
module Ledgers {
  import opened Bytes
  import opened AdbMessage
  import opened Stores

  /** The parameters of one call of `read`. */
  datatype Op = Op(info: TransactionInfo, expected: set<Cmd>, allowZeros: bool) {

    predicate Wants(k: Key) {
      info.ArgsMatch(k.arg0, k.arg1, allowZeros)
    }
  }

  datatype Fate =
    | InHand             // read off the wire by the thread that holds the transport lock
    | Queued             // waiting in the packet store
    | Returned(op: Op)   // the result of that call of `read`
    | Discarded(op: Op)  // a match for that call of `read`, but not an expected command
    | NoEntry            // a CLSE that `put` dropped because its key had no entry
    | Behind(close: nat) // deleted because it was queued behind CLSE number `close`
    | Cleared            // deleted by `clear` when a CLSE came straight off the wire
    | Wiped              // deleted by `clear_all`
    | Greeting           // read by `connect` itself
  {
    predicate Consumed() { Returned? || Discarded? }

    predicate Live() { InHand? || Queued? }

    predicate Ended() { Wiped? || Greeting? }
  }

  datatype Packet = Packet(id: nat, msg: Message)

  /** A packet taken off the wire, the connection on which it came, and what became of it. */
  datatype Record = Record(msg: Message, epoch: nat, fate: Fate)

  datatype Ledger = Ledger(
    store: Flat<Packet>,
    past: seq<Record>,      // every packet taken off the wire, in order
    log: seq<nat>,          // the packets that readers consumed, in the order they did
    epoch: nat,             // the current connection
    served: map<Key, nat>,  // packets of a key below this number are out of the running
    floor: nat)             // and so are all packets below this one

  function KeyOf(m: Message): Key {
    Key(m.arg0, m.arg1)
  }

  function SetFate(past: seq<Record>, id: nat, f: Fate): seq<Record> {
    if id < |past| then past[id := past[id].(fate := f)] else past
  }

  /** The queued packets of the keys in question meet their fate together. */
  function SetFates(past: seq<Record>, which: Key -> bool, f: Fate): (r: seq<Record>)
    ensures |r| == |past|
    ensures forall i | 0 <= i < |past| ::
              r[i] == (if past[i].fate.Queued? && which(KeyOf(past[i].msg)) then past[i].(fate := f) else past[i])
  {
    seq(|past|, i requires 0 <= i < |past| =>
          if past[i].fate.Queued? && which(KeyOf(past[i].msg)) then past[i].(fate := f) else past[i])
  }

  function Verdict(op: Op, m: Message): Fate {
    if m.cmd in op.expected then Returned(op) else Discarded(op)
  }

  function Served(l: Ledger, k: Key): nat {
    if k in l.served then l.served[k] else 0
  }

  // ---- Operations

  /** A packet comes off the wire. */
  function Arrive(l: Ledger, m: Message): Ledger {
    l.(past := l.past + [Record(m, l.epoch, InHand)])
  }

  /** `connect` reads a packet off the wire. */
  function Greet(l: Ledger, m: Message): Ledger {
    l.(past := l.past + [Record(m, l.epoch, Greeting)], floor := |l.past| + 1)
  }

  /** The packet in hand goes to a reader, which keeps it or drops it. */
  function Judge(l: Ledger, p: Packet, op: Op): Ledger {
    l.(past := SetFate(l.past, p.id, Verdict(op, p.msg)),
       log := l.log + [p.id],
       served := l.served[KeyOf(p.msg) := p.id + 1])
  }

  /** The packet in hand goes to the store. */
  function Put(l: Ledger, p: Packet): Ledger {
    var k, isClse := KeyOf(p.msg), p.msg.cmd == CLSE;
    l.(store := FlatPut(l.store, k, p, isClse),
       past := SetFate(l.past, p.id, if k !in l.store && isClse then NoEntry else Queued))
  }

  /** `get` takes the oldest packet under a key, for a reader that keeps it or drops it. */
  function Take(l: Ledger, k: Key, op: Op): Ledger
    requires Queue(l.store, k) != []
  {
    var queue := l.store[k];
    var p, isClse := queue[0], queue[0].msg.cmd == CLSE;
    var gone := SetFates(l.past, j => isClse && j == k, Behind(p.id));
    l.(store := FlatGet(l.store, k, isClse),
       past := SetFate(gone, p.id, Verdict(op, p.msg)),
       log := l.log + [p.id],
       served := l.served[k := (if isClse then queue[|queue| - 1].id else p.id) + 1])
  }

  function Clear(l: Ledger, k: Key): Ledger {
    l.(store := l.store - {k}, past := SetFates(l.past, j => j == k, Cleared))
  }

  function ClearAll(l: Ledger): Ledger {
    l.(store := map[], past := SetFates(l.past, _ => true, Wiped), floor := |l.past|)
  }

  function Dial(l: Ledger): Ledger {
    l.(epoch := l.epoch + 1)
  }

  // ---- The invariant, for a ledger whose packet in hand, if any, is number `hand`

  /** What a fate means. */
  ghost predicate RecordOk(l: Ledger, hand: Option<nat>, i: nat)
    requires i < |l.past|
  {
    var m := l.past[i].msg;
    var k := KeyOf(m);
    match l.past[i].fate
    case InHand => hand == Some(i) && l.past[i].epoch == l.epoch && i >= l.floor && i >= Served(l, k)
    case Queued =>
      Packet(i, m) in Queue(l.store, k) && l.past[i].epoch == l.epoch && i >= l.floor && i >= Served(l, k)
    case Returned(op) => op.Wants(k) && m.cmd in op.expected && i in l.log && i < Served(l, k)
    case Discarded(op) => op.Wants(k) && m.cmd !in op.expected && i in l.log && i < Served(l, k)
    case NoEntry => m.cmd == CLSE
    case Behind(c) =>
      && c < i < Served(l, k) && l.past[c].fate.Consumed()
      && l.past[c].msg.cmd == CLSE && KeyOf(l.past[c].msg) == k
    case Cleared => false
    case Wiped => i < l.floor
    case Greeting => i < l.floor
  }

  ghost predicate RecordsOk(l: Ledger, hand: Option<nat>) {
    && (forall i | 0 <= i < |l.past| :: RecordOk(l, hand, i))
    && (hand.Some? ==> hand.value == |l.past| - 1 && l.past[hand.value].fate.InHand?)
  }

  /** A queue holds packets of its own key, in arrival order. */
  ghost predicate QueueOk(l: Ledger, k: Key) {
    var q := Queue(l.store, k);
    && (forall i | 0 <= i < |q| ::
          && q[i].id < |l.past| && l.past[q[i].id].msg == q[i].msg && l.past[q[i].id].fate.Queued?
          && KeyOf(q[i].msg) == k)
    && (forall i, j | 0 <= i < j < |q| :: q[i].id < q[j].id)
  }

  ghost predicate QueuesOk(l: Ledger) {
    forall k :: QueueOk(l, k)
  }

  /** Packets of one key are consumed in arrival order, each once. */
  ghost predicate LogOk(l: Ledger) {
    && (forall i | 0 <= i < |l.log| :: l.log[i] < |l.past| && l.past[l.log[i]].fate.Consumed())
    && (forall i, j | 0 <= i < j < |l.log| ::
          KeyOf(l.past[l.log[i]].msg) == KeyOf(l.past[l.log[j]].msg) ==> l.log[i] < l.log[j])
  }

  /** Nothing of its key was consumed between a CLSE and a packet that went with it. */
  ghost predicate GapsOk(l: Ledger) {
    forall i, m | 0 <= i < |l.past| && 0 <= m < |l.past| && l.past[i].fate.Behind? && l.past[m].fate.Consumed() ::
      KeyOf(l.past[i].msg) == KeyOf(l.past[m].msg) ==> m <= l.past[i].fate.close || m > i
  }

  ghost predicate MarksOk(l: Ledger) {
    l.floor <= |l.past| && forall k | k in l.served :: l.served[k] <= |l.past|
  }

  ghost predicate Inv(l: Ledger, hand: Option<nat>) {
    RecordsOk(l, hand) && QueuesOk(l) && LogOk(l) && GapsOk(l) && MarksOk(l)
  }

  // ---- Every operation keeps it

  lemma ArriveKeeps(l: Ledger, m: Message)
    requires Inv(l, None)
    ensures Inv(Arrive(l, m), Some(|l.past|))
  {
    var l' := Arrive(l, m);
    forall i | 0 <= i < |l'.past| ensures RecordOk(l', Some(|l.past|), i) {
      if i < |l.past| { assert RecordOk(l, None, i); }
    }
    forall k ensures QueueOk(l', k) { assert QueueOk(l, k); }
  }

  lemma GreetKeeps(l: Ledger, m: Message)
    requires Inv(l, None)
    requires l.store == map[]
    ensures Inv(Greet(l, m), None)
  {
    var l' := Greet(l, m);
    forall i | 0 <= i < |l'.past| ensures RecordOk(l', None, i) {
      if i < |l.past| { assert RecordOk(l, None, i); }
    }
  }

  lemma JudgeRecords(l: Ledger, p: Packet, op: Op)
    requires Inv(l, Some(p.id)) && l.past[p.id].msg == p.msg
    requires op.Wants(KeyOf(p.msg)) && Queue(l.store, KeyOf(p.msg)) == []
    ensures RecordsOk(Judge(l, p, op), None)
  {
    var l', k := Judge(l, p, op), KeyOf(p.msg);
    assert RecordOk(l, Some(p.id), p.id);
    forall i | 0 <= i < |l'.past| ensures RecordOk(l', None, i) {
      assert RecordOk(l, Some(p.id), i);
      assert l'.log[|l.log|] == p.id;
      assert forall j :: Served(l', j) == if j == k then p.id + 1 else Served(l, j);
    }
  }

  lemma ConsumedBefore(l: Ledger, hand: Option<nat>, id: nat)
    requires Inv(l, hand)
    requires id < |l.past| && l.past[id].fate.Live()
    ensures forall i | 0 <= i < |l.log| && KeyOf(l.past[l.log[i]].msg) == KeyOf(l.past[id].msg) :: l.log[i] < id
    ensures forall i | 0 <= i < |l.past| && l.past[i].fate.Behind?
               && KeyOf(l.past[i].msg) == KeyOf(l.past[id].msg) :: i < id
  {
    assert RecordOk(l, hand, id);
    forall i | 0 <= i < |l.past| && (l.past[i].fate.Consumed() || l.past[i].fate.Behind?)
      ensures KeyOf(l.past[i].msg) == KeyOf(l.past[id].msg) ==> i < id
    {
      assert RecordOk(l, hand, i);
    }
  }

  /** A packet may go from the wire to a reader only when nothing older waits under its key. */
  lemma JudgeKeeps(l: Ledger, p: Packet, op: Op)
    requires Inv(l, Some(p.id)) && l.past[p.id].msg == p.msg
    requires op.Wants(KeyOf(p.msg)) && Queue(l.store, KeyOf(p.msg)) == []
    ensures Inv(Judge(l, p, op), None)
  {
    var l' := Judge(l, p, op);
    JudgeRecords(l, p, op);
    ConsumedBefore(l, Some(p.id), p.id);
    forall k ensures QueueOk(l', k) { assert QueueOk(l, k); }
    assert LogOk(l');
    assert GapsOk(l');
  }

  lemma PutQueues(l: Ledger, p: Packet)
    requires Inv(l, Some(p.id)) && l.past[p.id].msg == p.msg
    ensures QueuesOk(Put(l, p))
  {
    var l' := Put(l, p);
    assert RecordOk(l, Some(p.id), p.id);
    forall j ensures QueueOk(l', j) {
      assert QueueOk(l, j);
      assert Queue(l'.store, j) == Queue(l.store, j) || Queue(l'.store, j) == Queue(l.store, j) + [p];
    }
  }

  lemma PutKeeps(l: Ledger, p: Packet)
    requires Inv(l, Some(p.id)) && l.past[p.id].msg == p.msg
    ensures Inv(Put(l, p), None)
  {
    var l' := Put(l, p);
    assert RecordOk(l, Some(p.id), p.id);
    forall i | 0 <= i < |l'.past| ensures RecordOk(l', None, i) {
      assert RecordOk(l, Some(p.id), i);
    }
    PutQueues(l, p);
  }

  /** What happens to a queue happens to exactly the packets of its key that are thought to be queued. */
  lemma QueuedAreInQueue(l: Ledger, hand: Option<nat>, k: Key, i: nat)
    requires RecordsOk(l, hand) && QueueOk(l, k) && i < |l.past|
    ensures l.past[i].fate.Queued? && KeyOf(l.past[i].msg) == k <==> Packet(i, l.past[i].msg) in Queue(l.store, k)
    ensures l.past[i].fate.Queued? && KeyOf(l.past[i].msg) == k ==>
        Queue(l.store, k)[0].id <= i <= Queue(l.store, k)[|Queue(l.store, k)| - 1].id
  {
    assert RecordOk(l, hand, i);
  }

  function AfterTake(l: Ledger, k: Key, op: Op, i: nat): Record
    requires Queue(l.store, k) != [] && i < |l.past|
  {
    var r, p := l.past[i], l.store[k][0];
    if i == p.id then r.(fate := Verdict(op, p.msg))
    else if p.msg.cmd == CLSE && r.fate.Queued? && KeyOf(r.msg) == k then r.(fate := Behind(p.id))
    else r
  }

  lemma TakeEffect(l: Ledger, hand: Option<nat>, k: Key, op: Op, i: nat)
    requires RecordsOk(l, hand) && QueueOk(l, k) && i < |l.past|
    requires Queue(l.store, k) != []
    ensures Take(l, k, op).past[i] == AfterTake(l, k, op, i)
  {
    QueuedAreInQueue(l, hand, k, i);
  }

  /** How taking a packet moves the marks that fates are measured against. */
  lemma TakeMarks(l: Ledger, hand: Option<nat>, k: Key, op: Op)
    requires RecordsOk(l, hand) && QueueOk(l, k)
    requires Queue(l.store, k) != []
    ensures var l', q := Take(l, k, op), l.store[k];
            && l'.epoch == l.epoch && l'.floor == l.floor && |l'.past| == |l.past|
            && (forall i | i in l.log :: i in l'.log) && q[0].id in l'.log
            && (forall j | j != k :: Served(l', j) == Served(l, j) && Queue(l'.store, j) == Queue(l.store, j))
            && Served(l, k) <= q[0].id < Served(l', k)
            && (q[0].msg.cmd == CLSE ==> Served(l', k) == q[|q| - 1].id + 1)
            && (q[0].msg.cmd != CLSE ==> Served(l', k) == q[0].id + 1 && Queue(l'.store, k) == q[1..])
  {
    var l', q := Take(l, k, op), l.store[k];
    assert Queue(l.store, k)[0] == q[0];
    assert RecordOk(l, hand, q[0].id);
    assert l'.log[|l.log|] == q[0].id;
    assert Queue(l.store, k)[|q| - 1] == q[|q| - 1];
  }

  /** Records of packets that stay where they are. */
  lemma TakeRecordElsewhere(l: Ledger, hand: Option<nat>, k: Key, op: Op, i: nat)
    requires RecordsOk(l, hand) && QueueOk(l, k) && i < |l.past|
    requires Queue(l.store, k) != []
    requires AfterTake(l, k, op, i) == l.past[i] && i != l.store[k][0].id
    ensures RecordOk(Take(l, k, op), hand, i)
  {
    var l', q := Take(l, k, op), l.store[k];
    TakeMarks(l, hand, k, op);
    TakeEffect(l, hand, k, op, i);
    assert RecordOk(l, hand, i);
    match l.past[i].fate
    case Queued =>
      if KeyOf(l.past[i].msg) == k {
        QueuedAreInQueue(l, hand, k, i);
        assert q == [q[0]] + q[1..];
      }
    case Behind(c) =>
      TakeEffect(l, hand, k, op, c);
    case _ =>
  }

  lemma TakeRecord(l: Ledger, hand: Option<nat>, k: Key, op: Op, i: nat)
    requires RecordsOk(l, hand) && QueueOk(l, k) && i < |l.past|
    requires Queue(l.store, k) != [] && op.Wants(k)
    ensures RecordOk(Take(l, k, op), hand, i)
  {
    var p := Queue(l.store, k)[0];
    if i != p.id && AfterTake(l, k, op, i) == l.past[i] {
      TakeRecordElsewhere(l, hand, k, op, i);
    } else {
      TakeMarks(l, hand, k, op);
      QueuedAreInQueue(l, hand, k, i);
      TakeEffect(l, hand, k, op, i);
      TakeEffect(l, hand, k, op, p.id);
    }
  }

  lemma TakeQueue(l: Ledger, hand: Option<nat>, k: Key, op: Op, j: Key)
    requires RecordsOk(l, hand) && QueueOk(l, k) && QueueOk(l, j)
    requires Queue(l.store, k) != []
    ensures QueueOk(Take(l, k, op), j)
  {
    var l', q, r := Take(l, k, op), Queue(l.store, k), Queue(l.store, j);
    var r' := Queue(l'.store, j);
    assert r' == if j != k then r else if q[0].msg.cmd == CLSE then [] else q[1..];
    forall i | 0 <= i < |r'| ensures l'.past[r'[i].id] == l.past[r'[i].id] {
      TakeEffect(l, hand, k, op, r'[i].id);
    }
  }

  lemma LogGrows(l: Ledger, l': Ledger, id: nat)
    requires LogOk(l) && l'.log == l.log + [id]
    requires |l'.past| == |l.past| && id < |l.past| && l'.past[id].fate.Consumed()
    requires forall i | 0 <= i < |l.past| :: l'.past[i].msg == l.past[i].msg
    requires forall i | 0 <= i < |l.past| && l.past[i].fate.Consumed() :: l'.past[i].fate.Consumed()
    requires forall i | 0 <= i < |l.log| && KeyOf(l.past[l.log[i]].msg) == KeyOf(l.past[id].msg) :: l.log[i] < id
    ensures LogOk(l')
  {
  }

  lemma TakeLog(l: Ledger, hand: Option<nat>, k: Key, op: Op)
    requires Inv(l, hand)
    requires Queue(l.store, k) != []
    ensures LogOk(Take(l, k, op))
  {
    var l', p := Take(l, k, op), l.store[k][0];
    assert QueueOk(l, k);
    assert Queue(l.store, k)[0] == p;
    ConsumedBefore(l, hand, p.id);
    forall i | 0 <= i < |l.past| ensures l'.past[i] == AfterTake(l, k, op, i) {
      TakeEffect(l, hand, k, op, i);
    }
    LogGrows(l, l', p.id);
  }

  lemma TakeGap(l: Ledger, hand: Option<nat>, k: Key, op: Op, i: nat, m: nat)
    requires Inv(l, hand)
    requires Queue(l.store, k) != []
    requires i < |l.past| && m < |l.past| && KeyOf(l.past[i].msg) == KeyOf(l.past[m].msg)
    requires Take(l, k, op).past[i].fate.Behind? && Take(l, k, op).past[m].fate.Consumed()
    ensures m <= Take(l, k, op).past[i].fate.close || m > i
  {
    var p := l.store[k][0];
    assert QueueOk(l, k) && RecordOk(l, hand, i) && RecordOk(l, hand, m) && RecordOk(l, hand, p.id);
    TakeEffect(l, hand, k, op, i);
    TakeEffect(l, hand, k, op, m);
    QueuedAreInQueue(l, hand, k, i);
  }

  lemma TakeGaps(l: Ledger, hand: Option<nat>, k: Key, op: Op)
    requires Inv(l, hand)
    requires Queue(l.store, k) != []
    ensures GapsOk(Take(l, k, op))
  {
    var l' := Take(l, k, op);
    assert forall i | 0 <= i < |l.past| :: l'.past[i].msg == l.past[i].msg;
    forall i, m | 0 <= i < |l.past| && 0 <= m < |l.past| && l'.past[i].fate.Behind? && l'.past[m].fate.Consumed()
      ensures KeyOf(l'.past[i].msg) == KeyOf(l'.past[m].msg) ==> m <= l'.past[i].fate.close || m > i
    {
      if KeyOf(l.past[i].msg) == KeyOf(l.past[m].msg) { TakeGap(l, hand, k, op, i, m); }
    }
  }

  lemma TakeRecords(l: Ledger, hand: Option<nat>, k: Key, op: Op)
    requires Inv(l, hand)
    requires Queue(l.store, k) != [] && op.Wants(k)
    ensures RecordsOk(Take(l, k, op), hand)
  {
    assert QueueOk(l, k);
    forall i | 0 <= i < |l.past| ensures RecordOk(Take(l, k, op), hand, i) {
      TakeRecord(l, hand, k, op, i);
    }
    if hand.Some? {
      TakeEffect(l, hand, k, op, hand.value);
    }
  }

  lemma TakeQueues(l: Ledger, hand: Option<nat>, k: Key, op: Op)
    requires Inv(l, hand)
    requires Queue(l.store, k) != []
    ensures QueuesOk(Take(l, k, op)) && MarksOk(Take(l, k, op))
  {
    assert QueueOk(l, k);
    TakeMarks(l, hand, k, op);
    var q := Queue(l.store, k);
    assert q[|q| - 1].id < |l.past|;
    forall j ensures QueueOk(Take(l, k, op), j) {
      assert QueueOk(l, j);
      TakeQueue(l, hand, k, op, j);
    }
  }

  lemma TakeKeeps(l: Ledger, hand: Option<nat>, k: Key, op: Op)
    requires Inv(l, hand)
    requires Queue(l.store, k) != [] && op.Wants(k)
    ensures Inv(Take(l, k, op), hand)
  {
    TakeRecords(l, hand, k, op);
    TakeQueues(l, hand, k, op);
    TakeLog(l, hand, k, op);
    TakeGaps(l, hand, k, op);
  }

  /** `clear` after a CLSE off the wire finds nothing to delete but an empty queue. */
  lemma ClearKeeps(l: Ledger, hand: Option<nat>, k: Key)
    requires Inv(l, hand)
    requires Queue(l.store, k) == []
    ensures Inv(Clear(l, k), hand)
  {
    var l' := Clear(l, k);
    forall i | 0 <= i < |l'.past| ensures RecordOk(l', hand, i) { assert RecordOk(l, hand, i); }
    forall j ensures QueueOk(l', j) { assert QueueOk(l, j); }
  }

  lemma ClearAllKeeps(l: Ledger)
    requires Inv(l, None)
    ensures Inv(ClearAll(l), None)
  {
    var l' := ClearAll(l);
    forall i | 0 <= i < |l'.past| ensures RecordOk(l', None, i) { assert RecordOk(l, None, i); }
  }

  lemma DialKeeps(l: Ledger)
    requires Inv(l, None)
    requires l.store == map[]
    ensures Inv(Dial(l), None)
  {
    var l' := Dial(l);
    forall i | 0 <= i < |l'.past| ensures RecordOk(l', None, i) { assert RecordOk(l, None, i); }
  }
}
