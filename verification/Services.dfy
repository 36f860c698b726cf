/** Opening a stream, and the commands that run until the device closes theirs. */
module Services {
  import opened Bytes
  import opened AdbMessage
  import opened Streams

  // ---- Local ids

  /** How many ids there are: 1 up to 2^32 - 1. */
  const IDS: nat := 0xFFFF_FFFF

  /** The id of the next stream. */
  function NextId(id: u32): u32 {
    if id + 1 == 0x1_0000_0000 then 1 else id + 1
  }

  /** The id of the last of `opens` streams. */
  function IdAfter(start: u32, opens: nat): u32 {
    if opens == 0 then start else NextId(IdAfter(start, opens - 1))
  }

  lemma {:induction false} IdClosedForm(start: u32, opens: nat)
    requires opens > 0
    ensures IdAfter(start, opens) == (start + opens - 1) % IDS + 1
  {
    if opens == 1 {
    } else {
      IdClosedForm(start, opens - 1);
      NextMod(start + opens - 2);
    }
  }

  lemma NextMod(a: nat)
    ensures (a + 1) % IDS == if a % IDS == IDS - 1 then 0 else a % IDS + 1
  {
    var q, r := a / IDS, a % IDS;
    assert a == IDS * q + r;
    if r == IDS - 1 {
      assert a + 1 == IDS * (q + 1);
    } else {
      assert a + 1 == IDS * q + (r + 1);
    }
  }

  /** An id is never zero, and comes again exactly when all the others have been used in between. */
  lemma IdsRepeat(start: u32, i: nat, j: nat)
    requires 0 < i && 0 < j
    ensures 1 <= IdAfter(start, i) <= IDS
    ensures IdAfter(start, i) == IdAfter(start, j) <==> (i - j) % IDS == 0
  {
    IdClosedForm(start, i);
    IdClosedForm(start, j);
    SameMod(start + i - 1, start + j - 1);
  }

  lemma SameMod(a: nat, b: nat)
    ensures a % IDS == b % IDS <==> (a - b) % IDS == 0
  {
    var p, q, r, s := a / IDS, b / IDS, a % IDS, b % IDS;
    assert a == IDS * p + r && b == IDS * q + s;
    assert a - b == IDS * (p - q) + (r - s);
    assert r < IDS && s < IDS;
  }

  /** The counter of `AdbDevice`. */
  class LocalIds {
    var localId: u32
    ghost var opens: nat

    ghost predicate Valid()
      reads this
    {
      localId == IdAfter(0, opens)
    }

    constructor ()
      ensures Valid() && opens == 0
    {
      localId, opens := 0, 0;
    }

    /** What `_open` does under `_local_id_lock`. */
    method New() returns (id: u32)
      requires Valid()
      modifies this
      ensures Valid() && opens == old(opens) + 1 && id == localId
      ensures id != 0
    {
      var next: int := localId + 1;
      if next == 0x1_0000_0000 {
        next := 1;
      }
      localId, opens := next, opens + 1;
      return localId;
    }
  }

  // ---- What goes out

  /** The packets sent, in order. */
  function Outbound(h: History): (out: History) {
    if h == [] then []
    else Outbound(h[..|h| - 1]) + (if h[|h| - 1].Sent? then [h[|h| - 1]] else [])
  }

  lemma {:induction false} OutboundAppend(h: History, more: History)
    ensures Outbound(h + more) == Outbound(h) + Outbound(more)
  {
    if more == [] {
      assert h + more == h;
    } else {
      var init, last := more[..|more| - 1], more[|more| - 1];
      OutboundAppend(h, init);
      assert (h + more)[..|h + more| - 1] == h + init;
    }
  }

  lemma {:induction false} HearsNothingOut(inbox: Inbox, expected: set<Cmd>)
    ensures Outbound(Hears(inbox, expected)) == []
  {
    if inbox != [] && inbox[0].Pkt? && inbox[0].cmd !in expected {
      HearsNothingOut(inbox[1..], expected);
      OutboundAppend([Dropped(inbox[0].cmd, inbox[0].data)], Hears(inbox[1..], expected));
    }
  }

  lemma OutboundSnoc(h: History, a: Act)
    ensures Outbound(h + [a]) == Outbound(h) + (if a.Sent? then [a] else [])
  {
    assert (h + [a])[..|h|] == h;
  }

  lemma OutboundHears(h: History, inbox: Inbox, expected: set<Cmd>)
    ensures Outbound(h + Hears(inbox, expected)) == Outbound(h)
  {
    HearsNothingOut(inbox, expected);
    OutboundAppend(h, Hears(inbox, expected));
    assert Outbound(h) + [] == Outbound(h);
  }

  // ---- The output of a command

  /** The WRTE payloads up to the first CLSE, and whether that comes. */
  function Output(inbox: Inbox): (r: (seq<bytes>, bool)) {
    if inbox == [] || inbox[0].Fault? then ([], false)
    else if inbox[0].cmd == CLSE then ([], true)
    else
      var more := Output(inbox[1..]);
      if inbox[0].cmd == WRTE then ([inbox[0].data] + more.0, more.1) else more
  }

  lemma {:induction false} OutputSeek(inbox: Inbox)
    ensures var r := Seek(inbox, {CLSE, WRTE});
            Output(inbox) ==
              if r.0.None? then ([], false)
              else if r.0.value.cmd == CLSE then ([], true)
              else ([r.0.value.data] + Output(r.1).0, Output(r.1).1)
  {
    if inbox != [] && inbox[0].Pkt? && inbox[0].cmd !in {CLSE, WRTE} {
      OutputSeek(inbox[1..]);
    }
  }

  function Okays(n: nat): (h: History)
    ensures |h| == n
  {
    if n == 0 then [] else Okays(n - 1) + [Sent(OKAY, [])]
  }

  datatype Ending = Closed | Failed | TimedOut

  const COLON: byte := ':' as int

  /** Output found already, and the output to come. */
  function Then(chunks: seq<bytes>, more: (seq<bytes>, bool)): (seq<bytes>, bool) {
    (chunks + more.0, more.1)
  }

  lemma OutputStep(chunks: seq<bytes>, inbox: Inbox)
    ensures var r := Seek(inbox, {CLSE, WRTE});
            Then(chunks, Output(inbox)) ==
              if r.0.None? then (chunks, false)
              else if r.0.value.cmd == CLSE then (chunks, true)
              else Then(chunks + [r.0.value.data], Output(r.1))
  {
    OutputSeek(inbox);
    var r := Seek(inbox, {CLSE, WRTE});
    assert chunks + [] == chunks;
    if r.0.Some? && r.0.value.cmd == WRTE {
      assert chunks + ([r.0.value.data] + Output(r.1).0) == (chunks + [r.0.value.data]) + Output(r.1).0;
    }
  }

  lemma OpenPolite(h: History, packet: Act, inbox: Inbox)
    requires Settled(h) && packet.Sent? && packet.cmd == OPEN
    ensures Settled(h + [packet] + Hears(inbox, {OKAY}))
  {
    PoliteSnoc(h, packet);
    PoliteHears(h + [packet], inbox, {OKAY});
  }

  lemma OpenOutbound(h: History, packet: Act, inbox: Inbox)
    requires packet.Sent?
    ensures Outbound(h + [packet] + Hears(inbox, {OKAY})) == Outbound(h) + [packet]
  {
    OutboundSnoc(h, packet);
    OutboundHears(h + [packet], inbox, {OKAY});
  }

  /** Opening a stream moves no data. */
  lemma OpenSelect(h: History, packet: Act, inbox: Inbox)
    requires packet.Sent? && packet.cmd == OPEN
    ensures var h' := h + [packet] + Hears(inbox, {OKAY});
            Select(h', WriteOut) == Select(h, WriteOut) && Select(h', WriteIn) == Select(h, WriteIn)
  {
    HearsSelect(inbox, {OKAY});
    SelectAppend(h, [packet], WriteOut);
    SelectAppend(h, [packet], WriteIn);
    SelectAppend(h + [packet], Hears(inbox, {OKAY}), WriteOut);
    SelectAppend(h + [packet], Hears(inbox, {OKAY}), WriteIn);
  }

  /** `_open`: the remote id, if the device answered OKAY. */
  method Open(stream: Stream, destination: bytes) returns (remote: Option<u32>)
    requires Settled(stream.history)
    modifies stream
    ensures Settled(stream.history)
    ensures var r := Seek(old(stream.inbox), {OKAY});
            && remote == (if r.0.None? then None else Some(r.0.value.arg0))
            && stream.inbox == r.1
    ensures stream.remoteId == if remote.Some? then remote else old(stream.remoteId)
    ensures Outbound(stream.history) == old(Outbound(stream.history)) + [Sent(OPEN, destination + [0])]
    ensures Select(stream.history, WriteOut) == old(Select(stream.history, WriteOut))
    ensures Select(stream.history, WriteIn) == old(Select(stream.history, WriteIn))
  {
    ghost var packet := Sent(OPEN, destination + [0]);
    OpenPolite(stream.history, packet, stream.inbox);
    OpenOutbound(stream.history, packet, stream.inbox);
    OpenSelect(stream.history, packet, stream.inbox);
    stream.Send(OPEN, destination + [0]);
    var r := stream.Read({OKAY});
    if r.None? {
      return None;
    }
    stream.remoteId := Some(r.value.arg0);
    return stream.remoteId;
  }

  /** `_read_until` in the loop of `_read_until_close`. */
  method ReadOutput(stream: Stream) returns (r: Option<Reply>)
    requires Settled(stream.history)
    modifies stream`inbox, stream`history
    ensures Settled(stream.history)
    ensures (r, stream.inbox) == Seek(old(stream.inbox), {CLSE, WRTE})
    ensures Outbound(stream.history) ==
            old(Outbound(stream.history)) + (if r.Some? && r.value.cmd == WRTE then [Sent(OKAY, [])] else [])
  {
    OutboundHears(stream.history, stream.inbox, {CLSE, WRTE});
    OutboundSnoc(stream.history + Hears(stream.inbox, {CLSE, WRTE}), Sent(OKAY, []));
    assert Outbound(stream.history) + [] == Outbound(stream.history);
    r := stream.ReadUntil({CLSE, WRTE});
  }

  /** The packet that ends `_read_until_close`. */
  method SendClose(stream: Stream)
    requires Settled(stream.history)
    modifies stream`inbox, stream`history
    ensures Settled(stream.history) && stream.inbox == old(stream.inbox)
    ensures Outbound(stream.history) == old(Outbound(stream.history)) + [Sent(CLSE, [])]
  {
    PoliteSnoc(stream.history, Sent(CLSE, []));
    OutboundSnoc(stream.history, Sent(CLSE, []));
    stream.Send(CLSE, []);
  }

  /** The time is not up after any of the first `n` chunks. */
  predicate InTime(hasTimeout: bool, late: nat -> bool, n: nat) {
    hasTimeout ==> forall i: nat | 0 < i <= n :: !late(i)
  }

  /**
   `_read_until_close`: what it yielded, and how it ended; `late` says after how many chunks the time is up, if
   there is a timeout.
   */
  method ReadUntilClose(stream: Stream, hasTimeout: bool, late: nat -> bool)
    returns (chunks: seq<bytes>, ending: Ending)
    requires Settled(stream.history)
    modifies stream`inbox, stream`history
    ensures Settled(stream.history)
    ensures ending.Closed? ==> (chunks, true) == Output(old(stream.inbox)) && InTime(hasTimeout, late, |chunks|)
    ensures ending.Failed? ==> (chunks, false) == Output(old(stream.inbox)) && InTime(hasTimeout, late, |chunks|)
    ensures ending.TimedOut? ==>
        && hasTimeout && chunks != [] && late(|chunks|) && InTime(hasTimeout, late, |chunks| - 1)
        && chunks <= Output(old(stream.inbox)).0
    ensures Outbound(stream.history) == old(Outbound(stream.history)) + Okays(|chunks|)
                                          + (if ending.Closed? then [Sent(CLSE, [])] else [])
  {
    chunks := [];
    ghost var whole := Output(stream.inbox);
    assert [] + whole.0 == whole.0;
    while true
      invariant Settled(stream.history)
      invariant whole == Then(chunks, Output(stream.inbox)) && InTime(hasTimeout, late, |chunks|)
      invariant Outbound(stream.history) == old(Outbound(stream.history)) + Okays(|chunks|)
      decreases |stream.inbox|
    {
      OutputStep(chunks, stream.inbox);
      var r := ReadOutput(stream);
      if r.None? {
        return chunks, Failed;
      }
      if r.value.cmd == CLSE {
        SendClose(stream);
        return chunks, Closed;
      }
      chunks := chunks + [r.value.data];
      if hasTimeout && late(|chunks|) {
        return chunks, TimedOut;
      }
    }
  }

  /**
   `_service` of an undecoded command.  A command that completes has sent OPEN, one OKAY for each WRTE,
   and CLSE, and nothing else; and its result is all the device wrote between its OKAY and its CLSE.
   */
  method Service(stream: Stream, service: bytes, command: bytes, hasTimeout: bool, late: nat -> bool)
    returns (r: Result<bytes, Ending>)
    requires stream.history == []
    modifies stream
    ensures Settled(stream.history)
    ensures r.Ok? ==>
        var (chunks, closed) := Output(Seek(old(stream.inbox), {OKAY}).1);
        && closed && r.value == Join(chunks) && InTime(hasTimeout, late, |chunks|)
        && Outbound(stream.history) ==
           [Sent(OPEN, service + Ascii(":") + command + [0])] + Okays(|chunks|) + [Sent(CLSE, [])]
    ensures r.Err? && r.error.Failed? ==>
        var answer := Seek(old(stream.inbox), {OKAY});
        answer.0.None? || !Output(answer.1).1
    ensures r.Err? && !hasTimeout ==> r.error.Failed?
    ensures r.Err? && r.error.TimedOut? ==> exists n: nat :: 0 < n && late(n) && InTime(hasTimeout, late, n - 1)
    ensures r.Err? ==>
        exists n: nat :: n <= |Output(Seek(old(stream.inbox), {OKAY}).1).0| && Outbound(stream.history) ==
          [Sent(OPEN, service + Ascii(":") + command + [0])] + Okays(n)
  {
    assert [COLON] == Ascii(":");
    var remote := Open(stream, service + [COLON] + command);
    if remote.None? {
      assert Outbound(stream.history) == [Sent(OPEN, service + Ascii(":") + command + [0])] + Okays(0);
      return Err(Failed);
    }
    var chunks, ending := ReadUntilClose(stream, hasTimeout, late);
    return if ending.Closed? then Ok(Join(chunks)) else Err(ending);
  }
}
