/**
 `_AdbIOManager` as its threads see it: any number of threads in `read`, `send`, `connect` and
 `close`, sharing the transport lock, the store lock, the packet store and one device connection.
 A step is one acquisition of a lock, one operation on the store, or one transport call; a step that
 leaves a `with` block releases its lock.
 */
module Demux {
  import opened Bytes
  import opened AdbMessage
  import opened Stores
  import opened Ledgers

  type Tid = nat

  /** Where a thread is.  `T` and `S` say which locks it holds there. */
  datatype Pc =
    | Idle
    // read
    | FirstWant(op: Op)                 //     wants S
    | FirstDrain(op: Op)                // S
    | LoopWant(op: Op)                  //     wants T
    | AgainWant(op: Op)                 // T,  wants S
    | AgainDrain(op: Op)                // TS
    | Head(op: Op)                      // T   reads a header
    | Body(op: Op, msg: Message)        // T   reads the data of that packet
    | PutWant(op: Op, p: Packet)        // T,  wants S
    | Putting(op: Op, p: Packet)        // TS
    | ClearWant(op: Op, p: Packet)      // T,  wants S
    | Clearing(op: Op, p: Packet)       // TS
    | Judging(op: Op, p: Packet)        // T
    | TimeCheck(op: Op)
    // send
    | SendWant(msg: Message)            //     wants T
    | SendHead(msg: Message)            // T   writes the header
    | SendBody(msg: Message)            // T   writes the data
    // close, and connect if `dial`
    | ResetWant(dial: bool)             //     wants T
    | Closing(dial: bool)               // T
    | WipeWant(dial: bool)              // T,  wants S
    | Wiping(dial: bool)                // TS
    | Dialing                           // T
    | Shake                             // T   the handshake
    | ShakeBody(msg: Message)           // T
    | ShakeSend(msg: Message)           // T
    | ShakeSendBody(msg: Message)       // T
  {
    predicate WantsT() { LoopWant? || SendWant? || ResetWant? }

    predicate WantsS() { FirstWant? || AgainWant? || PutWant? || ClearWant? || WipeWant? }

    predicate HoldsS() { FirstDrain? || AgainDrain? || Putting? || Clearing? || Wiping? }

    predicate HoldsT() {
      !(Idle? || FirstWant? || FirstDrain? || LoopWant? || TimeCheck? || SendWant? || ResetWant?)
    }

    /** A call of `read`. */
    predicate Reading() {
      || FirstWant? || FirstDrain? || LoopWant? || AgainWant? || AgainDrain? || Head? || Body?
      || PutWant? || Putting? || ClearWant? || Clearing? || Judging? || TimeCheck?
    }

    /** A packet of its own that `read` has off the wire and has found to match. */
    predicate Matched() { ClearWant? || Clearing? || Judging? }

    predicate Carrying() { PutWant? || Putting? || Matched() }

    predicate Shaking() { Dialing? || Shake? || ShakeBody? || ShakeSend? || ShakeSendBody? }
  }

  datatype Action =
    | BeginRead(op: Op) | BeginSend(msg: Message) | BeginReset(dial: bool)
    | Acquire
    | Get(k: Key) | Drained
    | Header(msg: Message) | Rest | ReadFails
    | PutIt | ClearIt | JudgeIt
    | TimeUp | TryAgain
    | Write | WriteFails(partial: bytes)
    | Close | WipeIt | Connect | Fail | Compose(msg: Message) | Finish

  /** What one `bulk_write` puts on the wire; a failed one may have put anything there. */
  datatype Piece = HeaderOf(msg: Message) | DataOf(msg: Message) | Junk(partial: bytes)

  /** The device connection. */
  datatype Line = Line(
    written: seq<Piece>,    // what has been written
    sent: seq<Message>,     // the messages whose `_send` has finished
    torn: bool,             // a write has failed
    taken: seq<Piece>,      // what has been read
    received: seq<Message>, // the packets read to their end
    readFailed: bool)       // reading a packet has failed

  const FRESH := Line([], [], false, [], [], false)

  datatype Sys = Sys(pcs: map<Tid, Pc>, tLock: Option<Tid>, sLock: Option<Tid>, led: Ledger, line: Line)

  function Init(threads: set<Tid>): Sys {
    Sys(map t | t in threads :: Idle, None, None, Ledger(map[], [], [], 0, map[], 0), FRESH)
  }

  function Held(lock: Option<Tid>, t: Tid, holds: bool): Option<Tid> {
    if holds then Some(t) else if lock == Some(t) then None else lock
  }

  /** A thread moves on, and lets go of the locks it does not hold there. */
  function Goto(s: Sys, t: Tid, pc: Pc): Sys {
    s.(pcs := s.pcs[t := pc], tLock := Held(s.tLock, t, pc.HoldsT()), sLock := Held(s.sLock, t, pc.HoldsS()))
  }

  function Granted(pc: Pc): Pc
    requires pc.WantsT() || pc.WantsS()
  {
    match pc
    case FirstWant(op) => FirstDrain(op)
    case LoopWant(op) => AgainWant(op)
    case AgainWant(op) => AgainDrain(op)
    case PutWant(op, p) => Putting(op, p)
    case ClearWant(op, p) => Clearing(op, p)
    case SendWant(m) => SendHead(m)
    case ResetWant(dial) => Closing(dial)
    case WipeWant(dial) => Wiping(dial)
  }

  predicate NothingFor(l: Ledger, op: Op) {
    forall k | k in l.store && op.Wants(k) :: l.store[k] == []
  }

  /** Where a thread's step takes it, and what it does to the ledger and the connection. */
  datatype Effect = Effect(pc: Pc, led: Ledger, line: Line)

  /** The header of a packet has been read, and more of it is to come. */
  function HeaderTaken(line: Line, m: Message): Line {
    line.(taken := line.taken + [HeaderOf(m)])
  }

  /** A packet has been read to its end. */
  function PacketTaken(line: Line, m: Message): Line {
    line.(taken := line.taken + [if m.data == [] then HeaderOf(m) else DataOf(m)], received := line.received + [m])
  }

  /** `read` with a packet just off the wire. */
  function Receive(op: Op, m: Message, led: Ledger, line: Line): Effect {
    var p := Packet(|led.past|, m);
    var pc := if !op.Wants(KeyOf(m)) then PutWant(op, p)
              else if m.cmd == CLSE then ClearWant(op, p) else Judging(op, p);
    Effect(pc, Arrive(led, m), PacketTaken(line, m))
  }

  function MoveBegin(a: Action, led: Ledger, line: Line): Option<Effect> {
    match a
    case BeginRead(op) => if op.info.localId.Some? then Some(Effect(FirstWant(op), led, line)) else None
    case BeginSend(m) => Some(Effect(SendWant(m), led, line))
    case BeginReset(dial) => Some(Effect(ResetWant(dial), led, line))
    case _ => None
  }

  /** What a drain of `read` for `op` may take next: of the packets for it, one that the store finds. */
  predicate MayTake(l: Ledger, op: Op, k: Key) {
    op.Wants(k) && Queue(l.store, k) != [] && Found(l.store, op.info, op.allowZeros, k)
  }

  /** Taking a packet from the store, in either of the drains of `read`. */
  function MoveGet(pc: Pc, k: Key, led: Ledger, line: Line): Option<Effect> {
    if (pc.FirstDrain? || pc.AgainDrain?) && MayTake(led, pc.op, k) then
      Some(Effect(if led.store[k][0].msg.cmd in pc.op.expected then Idle else pc, Take(led, k, pc.op), line))
    else None
  }

  function MoveDrained(pc: Pc, led: Ledger, line: Line): Option<Effect> {
    if (pc.FirstDrain? || pc.AgainDrain?) && NothingFor(led, pc.op) then
      Some(Effect(if pc.FirstDrain? then LoopWant(pc.op) else Head(pc.op), led, line))
    else None
  }

  /** A header comes off the wire; the length in it is that of the data, so it has 32 bits. */
  function MoveHeader(pc: Pc, m: Message, led: Ledger, line: Line): Option<Effect> {
    if !Encodable(m) then None
    else if pc.Head? then
      Some(if m.data == [] then Receive(pc.op, m, led, line) else Effect(Body(pc.op, m), led, HeaderTaken(line, m)))
    else if pc.Shake? then
      Some(if m.data == [] then Effect(Shake, Greet(led, m), PacketTaken(line, m))
           else Effect(ShakeBody(m), led, HeaderTaken(line, m)))
    else None
  }

  function MoveRest(pc: Pc, led: Ledger, line: Line): Option<Effect> {
    if pc.Body? then Some(Receive(pc.op, pc.msg, led, line))
    else if pc.ShakeBody? then Some(Effect(Shake, Greet(led, pc.msg), PacketTaken(line, pc.msg)))
    else None
  }

  /** The other steps of `read`. */
  function MoveRead(pc: Pc, a: Action, led: Ledger, line: Line): Option<Effect> {
    match a
    case ReadFails =>
      if pc.Head? || pc.Body? || pc.Shake? || pc.ShakeBody? then Some(Effect(Idle, led, line.(readFailed := true)))
      else None
    case PutIt => if pc.Putting? then Some(Effect(TimeCheck(pc.op), Put(led, pc.p), line)) else None
    case ClearIt =>
      if pc.Clearing? then Some(Effect(Judging(pc.op, pc.p), Clear(led, KeyOf(pc.p.msg)), line)) else None
    case JudgeIt =>
      if pc.Judging? then
        var next := if pc.p.msg.cmd in pc.op.expected then Idle else TimeCheck(pc.op);
        Some(Effect(next, Judge(led, pc.p, pc.op), line))
      else None
    case TimeUp => if pc.TimeCheck? then Some(Effect(Idle, led, line)) else None
    case TryAgain => if pc.TimeCheck? then Some(Effect(LoopWant(pc.op), led, line)) else None
    case _ => None
  }

  /** Writing to the transport. */
  function MoveWrite(pc: Pc, a: Action, led: Ledger, line: Line): Option<Effect> {
    match a
    case Write =>
      if (pc.SendHead? || pc.ShakeSend?) && Encodable(pc.msg) then
        var line' := line.(written := line.written + [HeaderOf(pc.msg)]);
        Some(if pc.msg.data != [] then
               Effect(if pc.SendHead? then SendBody(pc.msg) else ShakeSendBody(pc.msg), led, line')
             else
               Effect(if pc.SendHead? then Idle else Shake, led, line'.(sent := line.sent + [pc.msg])))
      else if pc.SendBody? || pc.ShakeSendBody? then
        var line' := line.(written := line.written + [DataOf(pc.msg)], sent := line.sent + [pc.msg]);
        Some(Effect(if pc.SendBody? then Idle else Shake, led, line'))
      else None
    case WriteFails(partial) =>
      if pc.SendHead? || pc.SendBody? || pc.ShakeSend? || pc.ShakeSendBody? then
        Some(Effect(Idle, led, line.(written := line.written + [Junk(partial)], torn := true)))
      else None
    case _ => None
  }

  /** The rest of `close` and `connect`. */
  function MoveReset(pc: Pc, a: Action, led: Ledger, line: Line): Option<Effect> {
    match a
    case Close => if pc.Closing? then Some(Effect(WipeWant(pc.dial), led, line)) else None
    case WipeIt => if pc.Wiping? then Some(Effect(if pc.dial then Dialing else Idle, ClearAll(led), line)) else None
    case Connect => if pc.Dialing? then Some(Effect(Shake, Dial(led), FRESH)) else None
    case Fail => if pc.Closing? || pc.Dialing? || pc.Shake? then Some(Effect(Idle, led, line)) else None
    case Compose(m) => if pc.Shake? then Some(Effect(ShakeSend(m), led, line)) else None
    case Finish => if pc.Shake? then Some(Effect(Idle, led, line)) else None
    case _ => None
  }

  function Move(pc: Pc, a: Action, led: Ledger, line: Line): Option<Effect> {
    match a
    case BeginRead(_) => if pc.Idle? then MoveBegin(a, led, line) else None
    case BeginSend(_) => if pc.Idle? then MoveBegin(a, led, line) else None
    case BeginReset(_) => if pc.Idle? then MoveBegin(a, led, line) else None
    case Acquire => if pc.WantsT() || pc.WantsS() then Some(Effect(Granted(pc), led, line)) else None
    case Get(k) => MoveGet(pc, k, led, line)
    case Drained => MoveDrained(pc, led, line)
    case Header(m) => MoveHeader(pc, m, led, line)
    case Rest => MoveRest(pc, led, line)
    case ReadFails => MoveRead(pc, a, led, line)
    case PutIt => MoveRead(pc, a, led, line)
    case ClearIt => MoveRead(pc, a, led, line)
    case JudgeIt => MoveRead(pc, a, led, line)
    case TimeUp => MoveRead(pc, a, led, line)
    case TryAgain => MoveRead(pc, a, led, line)
    case Write => MoveWrite(pc, a, led, line)
    case WriteFails(_) => MoveWrite(pc, a, led, line)
    case Close => MoveReset(pc, a, led, line)
    case WipeIt => MoveReset(pc, a, led, line)
    case Connect => MoveReset(pc, a, led, line)
    case Fail => MoveReset(pc, a, led, line)
    case Compose(_) => MoveReset(pc, a, led, line)
    case Finish => MoveReset(pc, a, led, line)
  }

  /** Only `Acquire` waits, and only for the lock the thread wants. */
  predicate LockFree(s: Sys, pc: Pc, a: Action) {
    a.Acquire? ==> (pc.WantsT() ==> s.tLock.None?) && (pc.WantsS() ==> s.sLock.None?)
  }

  function Next(s: Sys, t: Tid, a: Action): Option<Sys> {
    if t !in s.pcs || !LockFree(s, s.pcs[t], a) then None
    else
      match Move(s.pcs[t], a, s.led, s.line)
      case None => None
      case Some(e) => Some(Goto(s, t, e.pc).(led := e.led, line := e.line))
  }

  type Run = seq<(Tid, Action)>

  /** The state after a run of steps of any threads in any order, if each step was possible. */
  function Exec(s: Sys, run: Run): Option<Sys>
    decreases |run|
  {
    if run == [] then Some(s)
    else
      match Next(s, run[0].0, run[0].1)
      case None => None
      case Some(s') => Exec(s', run[1..])
  }

  lemma {:induction false} ExecAppend(s: Sys, run: Run, more: Run)
    requires Exec(s, run).Some?
    ensures Exec(s, run + more) == Exec(Exec(s, run).value, more)
    decreases |run|
  {
    if run == [] {
      assert run + more == more;
    } else {
      assert (run + more)[1..] == run[1..] + more;
      ExecAppend(Next(s, run[0].0, run[0].1).value, run[1..], more);
    }
  }

  lemma {:induction false} SameThreads(s: Sys, run: Run)
    requires Exec(s, run).Some?
    ensures Exec(s, run).value.pcs.Keys == s.pcs.Keys
    decreases |run|
  {
    if run == [] {
    } else {
      SameThreads(Next(s, run[0].0, run[0].1).value, run[1..]);
    }
  }
}
