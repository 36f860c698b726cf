/**
 One ADB stream as the code above `_AdbIOManager` sees it: `send` puts a packet out, `read` gives the
 next packet of the stream with an expected command and drops the others it meets on the way.
 The history of the stream is the order in which all that happened.
 */
module Streams {
  import opened Bytes
  import opened AdbMessage

  /** What the device has in store for this stream; a fault is any exception out of `read`. */
  datatype Reply = Pkt(cmd: Cmd, arg0: u32, data: bytes) | Fault

  type Inbox = seq<Reply>

  datatype Act = Sent(cmd: Cmd, data: bytes) | Got(cmd: Cmd, data: bytes) | Dropped(cmd: Cmd, data: bytes)

  type History = seq<Act>

  // ---- `read` as a function of what the device has in store

  /** The packet that `read` returns, if it does, and what is left. */
  function Seek(inbox: Inbox, expected: set<Cmd>): (r: (Option<Reply>, Inbox))
    ensures |r.1| <= |inbox| && (r.0.Some? ==> |r.1| < |inbox| && r.0.value.Pkt? && r.0.value.cmd in expected)
  {
    if inbox == [] then (None, [])
    else if inbox[0].Fault? then (None, inbox[1..])
    else if inbox[0].cmd in expected then (Some(inbox[0]), inbox[1..])
    else Seek(inbox[1..], expected)
  }

  /** What goes into the history meanwhile. */
  function Hears(inbox: Inbox, expected: set<Cmd>): History {
    if inbox == [] || inbox[0].Fault? then []
    else if inbox[0].cmd in expected then [Got(inbox[0].cmd, inbox[0].data)]
    else [Dropped(inbox[0].cmd, inbox[0].data)] + Hears(inbox[1..], expected)
  }

  /** It is the first that is expected, if no failure comes before it; those before it are dropped. */
  lemma {:induction false} SeekFirst(inbox: Inbox, expected: set<Cmd>, k: nat)
    requires k <= |inbox| && forall i | 0 <= i < k :: inbox[i].Pkt? && inbox[i].cmd !in expected
    ensures k == |inbox| ==> Seek(inbox, expected) == (None, [])
    ensures k < |inbox| && inbox[k].Fault? ==> Seek(inbox, expected) == (None, inbox[k + 1..])
    ensures k < |inbox| && inbox[k].Pkt? && inbox[k].cmd in expected ==>
              Seek(inbox, expected) == (Some(inbox[k]), inbox[k + 1..])
    ensures k == |inbox| || inbox[k].Fault? || inbox[k].cmd in expected ==>
              var heard := Hears(inbox, expected);
              var got := k < |inbox| && inbox[k].Pkt?;
              && |heard| == k + (if got then 1 else 0)
              && (forall i | 0 <= i < k :: heard[i] == Dropped(inbox[i].cmd, inbox[i].data))
              && (got ==> heard[k] == Got(inbox[k].cmd, inbox[k].data))
    decreases k
  {
    if k > 0 {
      SeekFirst(inbox[1..], expected, k - 1);
    }
  }

  /** The bytes that WRTE packets will still bring, before anything fails. */
  function Payloads(inbox: Inbox): bytes {
    if inbox == [] || inbox[0].Fault? then []
    else (if inbox[0].cmd == WRTE then inbox[0].data else []) + Payloads(inbox[1..])
  }

  lemma {:induction false} SeekWrite(inbox: Inbox)
    ensures var r := Seek(inbox, {WRTE});
            Payloads(inbox) == if r.0.Some? then r.0.value.data + Payloads(r.1) else []
  {
    if inbox != [] && inbox[0].Pkt? && inbox[0].cmd != WRTE {
      SeekWrite(inbox[1..]);
      assert [] + Payloads(inbox[1..]) == Payloads(inbox[1..]);
    }
  }

  lemma {:induction false} SameBehind(before: Inbox, one: Inbox, two: Inbox)
    requires Payloads(one) == Payloads(two)
    ensures Payloads(before + one) == Payloads(before + two)
  {
    if before == [] {
      assert before + one == one && before + two == two;
    } else {
      SameBehind(before[1..], one, two);
      assert (before + one)[1..] == before[1..] + one && (before + two)[1..] == before[1..] + two;
    }
  }

  /** Where the bytes are cut into WRTE packets does not matter, nor do empty ones. */
  lemma CutsDoNotMatter(before: Inbox, arg0: u32, a: bytes, b: bytes, after: Inbox)
    ensures Payloads(before + ([Pkt(WRTE, arg0, a + b)] + after)) ==
            Payloads(before + ([Pkt(WRTE, arg0, a), Pkt(WRTE, arg0, b)] + after))
    ensures Payloads(before + ([Pkt(WRTE, arg0, [])] + after)) == Payloads(before + after)
  {
    var one, none := [Pkt(WRTE, arg0, a + b)] + after, [Pkt(WRTE, arg0, [])] + after;
    var two := [Pkt(WRTE, arg0, a), Pkt(WRTE, arg0, b)] + after;
    assert one[1..] == after && none[1..] == after;
    assert two[1..] == [Pkt(WRTE, arg0, b)] + after && two[1..][1..] == after;
    assert (a + b) + Payloads(after) == a + (b + Payloads(after)) && [] + Payloads(after) == Payloads(after);
    SameBehind(before, one, two);
    SameBehind(before, none, after);
  }

  // ---- Histories

  /** The data of the acts of one kind, in order. */
  function Select(h: History, kind: Act -> bool): (parts: seq<bytes>) {
    if h == [] then []
    else Select(h[..|h| - 1], kind) + (if kind(h[|h| - 1]) then [h[|h| - 1].data] else [])
  }

  lemma {:induction false} SelectAppend(h: History, more: History, kind: Act -> bool)
    ensures Select(h + more, kind) == Select(h, kind) + Select(more, kind)
  {
    if more == [] {
      assert h + more == h;
    } else {
      var init, last := more[..|more| - 1], more[|more| - 1];
      SelectAppend(h, init, kind);
      assert (h + more)[..|h + more| - 1] == h + init;
    }
  }

  /** One act alone; a history is made of such. */
  lemma SelectOne(a: Act, kind: Act -> bool)
    ensures Select([], kind) == []
    ensures Select([a], kind) == if kind(a) then [a.data] else []
  {
    assert [a][..0] == [];
  }

  function WriteOut(a: Act): bool { a.Sent? && a.cmd == WRTE }

  function WriteIn(a: Act): bool { a.Got? && a.cmd == WRTE }

  function OkayOut(a: Act): bool { a.Sent? && a.cmd == OKAY }

  function OkayIn(a: Act): bool { a.Got? && a.cmd == OKAY }

  /** A WRTE has been sent and no OKAY has been read since. */
  predicate Waiting(h: History) {
    h != [] && (WriteOut(h[|h| - 1]) || (!OkayIn(h[|h| - 1]) && Waiting(h[..|h| - 1])))
  }

  /** A WRTE has been read and nothing has been sent since. */
  predicate Owing(h: History) {
    h != [] && WriteIn(h[|h| - 1])
  }

  /** No WRTE is sent while waiting for OKAY; an OKAY is sent when one is owed, and nothing else is then. */
  predicate Polite(h: History) {
    h == [] || (
      var init, last := h[..|h| - 1], h[|h| - 1];
      && Polite(init)
      && (WriteOut(last) ==> !Waiting(init))
      && (OkayOut(last) <==> Owing(init)))
  }

  /** Everything asked has been answered. */
  predicate Settled(h: History) {
    Polite(h) && !Waiting(h) && !Owing(h)
  }

  lemma PoliteSnoc(h: History, a: Act)
    ensures Polite(h + [a]) <==> Polite(h) && (WriteOut(a) ==> !Waiting(h)) && (OkayOut(a) <==> Owing(h))
    ensures Waiting(h + [a]) <==> WriteOut(a) || (!OkayIn(a) && Waiting(h))
    ensures Owing(h + [a]) <==> WriteIn(a)
  {
    assert (h + [a])[..|h|] == h;
  }

  /** What `read` leaves of the manners of a history `h` that owes nothing. */
  predicate Continues(h: History, h': History, r: Option<Reply>) {
    && Polite(h')
    && (Owing(h') <==> r.Some? && r.value.Pkt? && r.value.cmd == WRTE)
    && (Waiting(h') <==> Waiting(h) && !(r.Some? && r.value.Pkt? && r.value.cmd == OKAY))
  }

  lemma {:induction false} PoliteHears(h: History, inbox: Inbox, expected: set<Cmd>)
    requires Polite(h) && !Owing(h)
    ensures Continues(h, h + Hears(inbox, expected), Seek(inbox, expected).0)
    decreases |inbox|
  {
    if inbox == [] || inbox[0].Fault? {
      assert h + [] == h;
    } else if inbox[0].cmd in expected {
      PoliteSnoc(h, Got(inbox[0].cmd, inbox[0].data));
    } else {
      var a := Dropped(inbox[0].cmd, inbox[0].data);
      PoliteSnoc(h, a);
      PoliteHears(h + [a], inbox[1..], expected);
      assert h + ([a] + Hears(inbox[1..], expected)) == (h + [a]) + Hears(inbox[1..], expected);
    }
  }

  /** Stop and wait: between two WRTEs that were sent, an OKAY was read. */
  lemma {:induction false} StopAndWait(h: History, i: nat, j: nat)
    requires Polite(h) && i < j < |h| && h[i].Sent? && h[i].cmd == h[j].cmd == WRTE && h[j].Sent?
    ensures exists k :: i < k < j && h[k].Got? && h[k].cmd == OKAY
  {
    if j < |h| - 1 {
      StopAndWait(h[..|h| - 1], i, j);
    } else {
      NotWaiting(h[..j], i);
    }
  }

  lemma {:induction false} NotWaiting(h: History, i: nat)
    requires i < |h| && WriteOut(h[i]) && !Waiting(h)
    ensures exists k :: i < k < |h| && h[k].Got? && h[k].cmd == OKAY
  {
    if OkayIn(h[|h| - 1]) {
      assert h[|h| - 1].Got?;
    } else {
      NotWaiting(h[..|h| - 1], i);
      var k :| i < k < |h| - 1 && h[..|h| - 1][k].Got? && h[..|h| - 1][k].cmd == OKAY;
      assert h[k].Got?;
    }
  }

  /** Acknowledgements: each WRTE that was read is followed at once by the OKAY sent for it, and there are no others. */
  lemma {:induction false} Acknowledged(h: History, i: nat)
    requires Polite(h) && !Owing(h) && i < |h|
    ensures h[i].Got? && h[i].cmd == WRTE ==> i + 1 < |h| && h[i + 1].Sent? && h[i + 1].cmd == OKAY
    ensures h[i].Sent? && h[i].cmd == OKAY ==> i > 0 && h[i - 1].Got? && h[i - 1].cmd == WRTE
    ensures |Select(h, OkayOut)| == |Select(h, WriteIn)|
  {
    AckCount(h);
    AckPlace(h, i);
  }

  lemma {:induction false} AckCount(h: History)
    requires Polite(h)
    ensures |Select(h, WriteIn)| == |Select(h, OkayOut)| + (if Owing(h) then 1 else 0)
  {
    if h == [] {
    } else {
      AckCount(h[..|h| - 1]);
    }
  }

  lemma {:induction false} AckPlace(h: History, i: nat)
    requires Polite(h) && i < |h|
    ensures WriteIn(h[i]) ==> i + 1 == |h| || OkayOut(h[i + 1])
    ensures OkayOut(h[i]) ==> i > 0 && WriteIn(h[i - 1])
  {
    if i < |h| - 1 {
      AckPlace(h[..|h| - 1], i);
    }
  }

  lemma {:induction false} HearsSelect(inbox: Inbox, expected: set<Cmd>)
    ensures Select(Hears(inbox, expected), WriteOut) == []
    ensures Select(Hears(inbox, expected), OkayOut) == []
    ensures var r := Seek(inbox, expected).0;
            Select(Hears(inbox, expected), WriteIn) == if r.Some? && r.value.cmd == WRTE then [r.value.data] else []
  {
    if inbox != [] && inbox[0].Pkt? && inbox[0].cmd !in expected {
      HearsSelect(inbox[1..], expected);
      var a := [Dropped(inbox[0].cmd, inbox[0].data)];
      SelectAppend(a, Hears(inbox[1..], expected), WriteOut);
      SelectAppend(a, Hears(inbox[1..], expected), OkayOut);
      SelectAppend(a, Hears(inbox[1..], expected), WriteIn);
    }
  }

  class Stream {
    var inbox: Inbox
    var remoteId: Option<u32> // learnt from the OKAY
    ghost var history: History

    constructor (replies: Inbox)
      ensures inbox == replies && remoteId == None && history == []
    {
      inbox, remoteId, history := replies, None, [];
    }

    /** `_AdbIOManager.send` of a packet of this stream. */
    method Send(cmd: Cmd, data: bytes)
      modifies this`history
      ensures history == old(history) + [Sent(cmd, data)]
    {
      history := history + [Sent(cmd, data)];
    }

    /** `_AdbIOManager.read` for this stream; None is an exception. */
    method Read(expected: set<Cmd>) returns (r: Option<Reply>)
      modifies this`inbox, this`history
      ensures (r, inbox) == Seek(old(inbox), expected)
      ensures history == old(history) + Hears(old(inbox), expected)
    {
      while inbox != []
        invariant Seek(inbox, expected) == Seek(old(inbox), expected)
        invariant history + Hears(inbox, expected) == old(history) + Hears(old(inbox), expected)
        decreases |inbox|
      {
        var reply := inbox[0];
        ghost var left := Hears(inbox, expected);
        inbox := inbox[1..];
        if reply.Fault? {
          return None;
        }
        if reply.cmd in expected {
          history := history + [Got(reply.cmd, reply.data)];
          return Some(reply);
        }
        assert history + left == history + [Dropped(reply.cmd, reply.data)] + Hears(inbox, expected);
        history := history + [Dropped(reply.cmd, reply.data)];
      }
      return None;
    }

    /** `_read_until`: a WRTE is acknowledged. */
    method ReadUntil(expected: set<Cmd>) returns (r: Option<Reply>)
      requires Polite(history) && !Owing(history)
      modifies this`inbox, this`history
      ensures (r, inbox) == Seek(old(inbox), expected)
      ensures var heard := old(history) + Hears(old(inbox), expected);
              history == if r.Some? && r.value.cmd == WRTE then heard + [Sent(OKAY, [])] else heard
      ensures Polite(history) && !Owing(history)
      ensures Waiting(history) <==> old(Waiting(history)) && !(r.Some? && r.value.cmd == OKAY)
    {
      PoliteHears(history, inbox, expected);
      r := Read(expected);
      if r.Some? && r.value.cmd == WRTE {
        PoliteSnoc(history, Sent(OKAY, []));
        Send(OKAY, []);
      }
    }
  }
}
