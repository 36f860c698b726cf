/**
 The byte stream below the packets.  A transport is the finite list of answers its `bulk_read`
 will give; each answer also says whether the caller's time is up once it has arrived, so one
 list stands for one choice of fragmentation, failures and clock.
 */
module Wire {
  import opened Bytes
  import opened AdbMessage

  datatype Event = Chunk(data: bytes, timeUp: bool) | Fault

  type Script = seq<Event>

  datatype Failure = TransportError | Timeout | InvalidCommand | InvalidChecksum

  datatype Outcome<+T> = Outcome(result: Result<T, Failure>, rest: Script)

  /** Events still to come plus bytes still to come: every read that asks for something uses one up. */
  function Fuel(sc: Script): nat {
    if sc == [] then 0
    else 1 + (if sc[0].Chunk? then |sc[0].data| else 0) + Fuel(sc[1..])
  }

  /** One `bulk_read(n)`: at most `n` bytes, the rest of a longer chunk staying in the transport. */
  function BulkRead(sc: Script, n: nat): (o: Outcome<Event>)
    ensures o.result.Ok? ==> o.result.value.Chunk? && |o.result.value.data| <= n
    ensures n > 0 && o.result.Ok? ==> Fuel(o.rest) < Fuel(sc)
  {
    if sc == [] then Outcome(Err(TransportError), [])
    else if sc[0].Fault? then Outcome(Err(TransportError), sc[1..])
    else if |sc[0].data| <= n then Outcome(Ok(sc[0]), sc[1..])
    else
      var rest := [Chunk(sc[0].data[n..], sc[0].timeUp)] + sc[1..];
      assert rest[1..] == sc[1..];
      Outcome(Ok(Chunk(sc[0].data[..n], sc[0].timeUp)), rest)
  }

  /** `_read_bytes_from_device` as a function of the answers to come. */
  function ReadBytes(sc: Script, n: nat): (o: Outcome<bytes>)
    ensures o.result.Ok? ==> |o.result.value| == n
    ensures o.result.Ok? ==> Fuel(o.rest) <= Fuel(sc) && (n > 0 ==> Fuel(o.rest) < Fuel(sc))
    ensures o.result.Err? ==> o.result.error in {TransportError, Timeout}
    decreases Fuel(sc)
  {
    if n == 0 then Outcome(Ok([]), sc)
    else
      var b := BulkRead(sc, n);
      if b.result.Err? then Outcome(Err(TransportError), b.rest)
      else
        var got := b.result.value;
        if |got.data| == n then Outcome(Ok(got.data), b.rest)
        else if got.timeUp then Outcome(Err(Timeout), b.rest)
        else
          var more := ReadBytes(b.rest, n - |got.data|);
          if more.result.Err? then more else Outcome(Ok(got.data + more.result.value), more.rest)
  }

  /** `_read_packet_from_device` as a function of the answers to come. */
  function ReadPacket(sc: Script): (o: Outcome<Message>)
    ensures o.result.Ok? ==> Fuel(o.rest) < Fuel(sc) && Encodable(o.result.value)
  {
    var head := ReadBytes(sc, HEADER_SIZE);
    if head.result.Err? then Outcome(Err(head.result.error), head.rest)
    else
      var h := Unpack(head.result.value).value;
      match FromWire(h.cmd)
      case None => Outcome(Err(InvalidCommand), head.rest)
      case Some(cmd) =>
        if h.length == 0 then Outcome(Ok(Message(cmd, h.arg0, h.arg1, [])), head.rest)
        else
          var body := ReadBytes(head.rest, h.length);
          if body.result.Err? then Outcome(Err(body.result.error), body.rest)
          else if Checksum(body.result.value) != h.checksum then Outcome(Err(InvalidChecksum), body.rest)
          else Outcome(Ok(Message(cmd, h.arg0, h.arg1, body.result.value)), body.rest)
  }

  /** `count` things, one after the other, or the first failure. */
  function ReadMany<T>(read: Script -> Outcome<T>, sc: Script, count: nat): Outcome<seq<T>> {
    if count == 0 then Outcome(Ok([]), sc)
    else
      var sofar := ReadMany(read, sc, count - 1);
      if sofar.result.Err? then sofar
      else
        var last := read(sofar.rest);
        if last.result.Err? then Outcome(Err(last.result.error), last.rest)
        else Outcome(Ok(sofar.result.value + [last.result.value]), last.rest)
  }

  lemma OneMore<T>(read: Script -> Outcome<T>, sc: Script, n: nat, xs: seq<T>, rest: Script)
    requires ReadMany(read, sc, n) == Outcome(Ok(xs), rest)
    ensures var next := read(rest);
            ReadMany(read, sc, n + 1) == if next.result.Err? then Outcome(Err(next.result.error), next.rest)
                                         else Outcome(Ok(xs + [next.result.value]), next.rest)
  {
  }

  function ReadPackets(sc: Script, count: nat): Outcome<seq<Message>> {
    ReadMany(ReadPacket, sc, count)
  }

  /** The bytes the peer managed to deliver, however they are cut up. */
  function Content(sc: Script): bytes {
    if sc == [] || sc[0].Fault? then [] else sc[0].data + Content(sc[1..])
  }

  /** No failure is coming and the clock never runs out. */
  predicate Quiet(sc: Script) {
    forall e | e in sc :: e.Chunk? && !e.timeUp
  }

  lemma BulkReadContent(sc: Script, n: nat)
    ensures var o := BulkRead(sc, n);
            && (o.result.Ok? ==> Content(sc) == o.result.value.data + Content(o.rest))
            && (Quiet(sc) && Content(sc) != [] ==> o.result.Ok? && !o.result.value.timeUp && Quiet(o.rest))
  {
    var o := BulkRead(sc, n);
    if sc != [] && sc[0].Chunk? && |sc[0].data| > n {
      assert o.rest[1..] == sc[1..];
      assert sc[0].data == sc[0].data[..n] + sc[0].data[n..];
    }
  }

  lemma {:induction false} ReadBytesTakes(sc: Script, n: nat)
    ensures var o := ReadBytes(sc, n);
            o.result.Ok? ==> Content(sc) == o.result.value + Content(o.rest)
    decreases Fuel(sc)
  {
    if n == 0 {
    } else {
      BulkReadContent(sc, n);
      var b := BulkRead(sc, n);
      if b.result.Ok? && |b.result.value.data| < n && !b.result.value.timeUp {
        var got := b.result.value.data;
        ReadBytesTakes(b.rest, n - |got|);
        var more := ReadBytes(b.rest, n - |got|);
        if more.result.Ok? {
          assert got + (more.result.value + Content(more.rest)) == (got + more.result.value) + Content(more.rest);
        }
      }
    }
  }

  lemma {:induction false} ReadBytesQuietly(sc: Script, n: nat)
    requires Quiet(sc) && n <= |Content(sc)|
    ensures ReadBytes(sc, n).result.Ok? && Quiet(ReadBytes(sc, n).rest)
    decreases Fuel(sc)
  {
    if n == 0 {
    } else {
      BulkReadContent(sc, n);
      var b := BulkRead(sc, n);
      if |b.result.value.data| < n {
        ReadBytesQuietly(b.rest, n - |b.result.value.data|);
      }
    }
  }

  lemma ReadBytesContent(sc: Script, n: nat)
    ensures var o := ReadBytes(sc, n);
            && (o.result.Ok? ==> Content(sc) == o.result.value + Content(o.rest))
            && (Quiet(sc) && n <= |Content(sc)| ==> o.result.Ok? && Quiet(o.rest))
  {
    ReadBytesTakes(sc, n);
    if Quiet(sc) && n <= |Content(sc)| {
      ReadBytesQuietly(sc, n);
    }
  }

  /** Asking for exactly the next field of a stream that may stop early (`more` never came). */
  lemma ReadExactly(sc: Script, want: bytes, more: bytes, tail: bytes)
    requires Content(sc) + more == want + tail
    ensures var o := ReadBytes(sc, |want|);
            && (o.result.Ok? ==> o.result.value == want && Content(o.rest) + more == tail)
            && (Quiet(sc) && more == [] ==> o.result.Ok? && Quiet(o.rest))
  {
    var n := |want|;
    var o := ReadBytes(sc, n);
    ReadBytesContent(sc, n);
    assert (want + tail)[..n] == want && (want + tail)[n..] == tail;
    if o.result.Ok? {
      assert (Content(sc) + more)[..n] == o.result.value;
      assert (Content(sc) + more)[n..] == Content(o.rest) + more;
    }
    if more == [] {
      assert Content(sc) + more == Content(sc);
    }
  }

  /**
   One packet over a stream that may stop early.  Reading it gives back that packet or fails for
   want of bytes or time, never for what the bytes say.
   */
  lemma PacketRoundTrip(m: Message, sc: Script, more: bytes, tail: bytes)
    requires Encodable(m)
    requires Content(sc) + more == Encode(m) + tail
    ensures var o := ReadPacket(sc);
            && (o.result.Ok? ==> o.result.value == m && Content(o.rest) + more == tail)
            && (o.result.Err? ==> o.result.error in {TransportError, Timeout})
            && (Quiet(sc) && more == [] ==> o.result.Ok? && Quiet(o.rest))
  {
    HeaderRoundTrip(m);
    CommandRoundTrip(m.cmd);
    var h := Pack(m);
    assert Content(sc) + more == h + (m.data + tail);
    ReadExactly(sc, h, more, m.data + tail);
    var head := ReadBytes(sc, HEADER_SIZE);
    if head.result.Ok? {
      ReadExactly(head.rest, m.data, more, tail);
    }
  }

  lemma AfterAfter(a: bytes, b: bytes, o: Outcome<bytes>)
    ensures After(a, After(b, o)) == After(a + b, o)
  {
    if o.result.Ok? {
      assert a + (b + o.result.value) == (a + b) + o.result.value;
    }
  }

  lemma ContentFirst(sc: Script, k: nat)
    requires 0 < k <= |sc| && sc[0].Chunk?
    ensures Content(sc[..k]) == sc[0].data + Content(sc[1..][..k - 1])
    ensures sc[1..][k - 1..] == sc[k..]
  {
    assert sc[..k][1..] == sc[1..][..k - 1];
  }

  /** A chunk that leaves time is kept. */
  lemma ReadBytesSkip(sc: Script, n: nat)
    requires sc != [] && sc[0].Chunk? && !sc[0].timeUp && |sc[0].data| < n
    ensures ReadBytes(sc, n) == After(sc[0].data, ReadBytes(sc[1..], n - |sc[0].data|))
  {
  }

  /** And so are several. */
  lemma {:induction false} ReadBytesSkips(sc: Script, n: nat, k: nat)
    requires k <= |sc| && forall i | 0 <= i < k :: sc[i].Chunk? && !sc[i].timeUp
    requires |Content(sc[..k])| < n
    ensures ReadBytes(sc, n) == After(Content(sc[..k]), ReadBytes(sc[k..], n - |Content(sc[..k])|))
    decreases k
  {
    if k == 0 {
      assert sc[0..] == sc;
      AfterNothing(ReadBytes(sc, n));
    } else {
      ContentFirst(sc, k);
      ReadBytesSkips(sc[1..], n - |sc[0].data|, k - 1);
      OneSkipped(sc, n, Content(sc[1..][..k - 1]), sc[k..]);
    }
  }

  lemma OneSkipped(sc: Script, n: nat, got: bytes, rest: Script)
    requires sc != [] && sc[0].Chunk? && !sc[0].timeUp && |sc[0].data + got| < n
    requires ReadBytes(sc[1..], n - |sc[0].data|) == After(got, ReadBytes(rest, n - |sc[0].data + got|))
    ensures ReadBytes(sc, n) == After(sc[0].data + got, ReadBytes(rest, n - |sc[0].data + got|))
  {
    ReadBytesSkip(sc, n);
    AfterAfter(sc[0].data, got, ReadBytes(rest, n - |sc[0].data + got|));
  }

  /** After the first `k` events, chunks that leave time, have not brought all, the next decides. */
  lemma ReadBytesEnds(sc: Script, n: nat, k: nat)
    requires k <= |sc| && forall i | 0 <= i < k :: sc[i].Chunk? && !sc[i].timeUp
    requires |Content(sc[..k])| < n
    ensures var o, got := ReadBytes(sc, n), Content(sc[..k]);
            if k == |sc| then o == Outcome(Err(TransportError), [])
            else if sc[k].Fault? then o == Outcome(Err(TransportError), sc[k + 1..])
            else if |got| + |sc[k].data| >= n then
              && o.result == Ok(got + sc[k].data[..n - |got|])
              && o.rest == if |got| + |sc[k].data| == n then sc[k + 1..]
                           else [Chunk(sc[k].data[n - |got|..], sc[k].timeUp)] + sc[k + 1..]
            else sc[k].timeUp ==> o == Outcome(Err(Timeout), sc[k + 1..])
  {
    ReadBytesSkips(sc, n, k);
    ReadBytesOnce(sc[k..], n - |Content(sc[..k])|);
    assert k < |sc| ==> sc[k..][0] == sc[k] && sc[k..][1..] == sc[k + 1..];
  }

  lemma ReadBytesOnce(sc: Script, n: nat)
    requires n > 0
    ensures var o := ReadBytes(sc, n);
            if sc == [] then o == Outcome(Err(TransportError), [])
            else if sc[0].Fault? then o == Outcome(Err(TransportError), sc[1..])
            else if |sc[0].data| >= n then
              && o.result == Ok(sc[0].data[..n])
              && o.rest == if |sc[0].data| == n then sc[1..] else [Chunk(sc[0].data[n..], sc[0].timeUp)] + sc[1..]
            else sc[0].timeUp ==> o == Outcome(Err(Timeout), sc[1..])
  {
    if sc != [] && sc[0].Chunk? {
      assert |sc[0].data| == n ==> sc[0].data[..n] == sc[0].data;
    }
  }

  /** `word` spells the command, or none at all. */
  predicate Spells(word: bytes, c: Option<Cmd>) {
    match c
    case Some(AUTH) => word == Ascii("AUTH")
    case Some(CLSE) => word == Ascii("CLSE")
    case Some(CNXN) => word == Ascii("CNXN")
    case Some(OKAY) => word == Ascii("OKAY")
    case Some(OPEN) => word == Ascii("OPEN")
    case Some(STLS) => word == Ascii("STLS")
    case Some(SYNC) => word == Ascii("SYNC")
    case Some(WRTE) => word == Ascii("WRTE")
    case None => word !in {Ascii("AUTH"), Ascii("CLSE"), Ascii("CNXN"), Ascii("OKAY"),
                           Ascii("OPEN"), Ascii("STLS"), Ascii("SYNC"), Ascii("WRTE")}
  }

  lemma SpelledCommand(word: bytes, c: Option<Cmd>)
    requires |word| == 4 && Spells(word, c)
    ensures FromWire(UnWord(word)) == c
  {
    if c.Some? {
      CommandLetters(c.value);
      WordRoundTrip(ToWire(c.value));
    } else if FromWire(UnWord(word)).Some? {
      UnWordRoundTrip(word);
      LettersOf(FromWire(UnWord(word)).value, word);
    }
  }

  lemma LettersOf(c: Cmd, word: bytes)
    requires word == Word(ToWire(c))
    ensures !Spells(word, None)
  {
    CommandLetters(c);
  }

  /** What the header of a packet says, whatever its last word. */
  lemma HeaderFields(word: bytes, arg0: u32, arg1: u32, length: u32, check: u32, magic: bytes)
    requires |word| == |magic| == 4
    ensures var h := word + Word(arg0) + Word(arg1) + Word(length) + Word(check) + magic;
            |h| == HEADER_SIZE && Unpack(h) == Some(Header(UnWord(word), arg0, arg1, length, check))
  {
    var w := [UnWord(word), arg0, arg1, length, check, UnWord(magic)];
    UnWordRoundTrip(word);
    UnWordRoundTrip(magic);
    SixWords(w);
    WordsRoundTrip(w);
  }

  /**
   What a packet that comes is taken for: it is returned exactly if its command is known and its checksum is the
   sum of its data, or it has no data; else its command or its checksum is refused.
   */
  lemma PacketJudged(sc: Script, word: bytes, c: Option<Cmd>, arg0: u32, arg1: u32, check: u32, magic: bytes,
        data: bytes, more: bytes, tail: bytes)
    requires |word| == |magic| == 4 && |data| < 0x1_0000_0000 && Spells(word, c)
    requires Content(sc) + more ==
             word + Word(arg0) + Word(arg1) + Word(|data|) + Word(check) + magic + (data + tail)
    ensures var o := ReadPacket(sc);
            var judged := if c.None? then Err(InvalidCommand)
                          else if data == [] || Checksum(data) == check then Ok(Message(c.value, arg0, arg1, data))
                          else Err(InvalidChecksum);
            && (o.result == judged || o.result in {Err(TransportError), Err(Timeout)})
            && (Quiet(sc) && more == [] ==> o.result == judged)
            && (o.result.Ok? ==> Content(o.rest) + more == tail)
  {
    var h := word + Word(arg0) + Word(arg1) + Word(|data|) + Word(check) + magic;
    SpelledCommand(word, c);
    HeaderFields(word, arg0, arg1, |data|, check, magic);
    ReadExactly(sc, h, more, data + tail);
    var head := ReadBytes(sc, HEADER_SIZE);
    if head.result.Ok? {
      ReadExactly(head.rest, data, more, tail);
      assert [] + tail == tail;
    }
  }

  /** Whatever the bytes say, a packet read takes as many of them as it would take to send it. */
  lemma PacketLength(sc: Script)
    ensures var o := ReadPacket(sc);
            o.result.Ok? ==> |Content(sc)| == |Encode(o.result.value)| + |Content(o.rest)|
  {
    ReadBytesContent(sc, HEADER_SIZE);
    var head := ReadBytes(sc, HEADER_SIZE);
    if head.result.Ok? {
      ReadBytesContent(head.rest, Unpack(head.result.value).value.length);
    }
  }

  /**
   Where the stream holds `x` as `encode` writes it, of which the last part `more` may never have come,
   `read` gives back `x` or fails for want of bytes or time; it does give it back if all of it came,
   nothing fails and the clock allows.
   */
  ghost predicate Reads<T>(read: Script -> Outcome<T>, encode: T --> bytes, x: T, sc: Script, more: bytes, tail: bytes)
    requires encode.requires(x)
  {
    Content(sc) + more == encode(x) + tail ==>
      var o := read(sc);
      && (o.result.Ok? ==> o.result.value == x && Content(o.rest) + more == tail)
      && (o.result.Err? ==> o.result.error in {TransportError, Timeout})
      && (Quiet(sc) && more == [] ==> o.result.Ok? && Quiet(o.rest))
  }

  lemma {:induction false} ReadsMany<T>(read: Script -> Outcome<T>, encode: T --> bytes, xs: seq<T>,
        sc: Script, more: bytes, tail: bytes)
    requires forall x | x in xs :: encode.requires(x)
    requires forall x, s, m, t | x in xs :: Reads(read, encode, x, s, m, t)
    requires Content(sc) + more == Written(xs, encode) + tail
    ensures var o := ReadMany(read, sc, |xs|);
            && (o.result.Ok? ==> o.result.value == xs && Content(o.rest) + more == tail)
            && (o.result.Err? ==> o.result.error in {TransportError, Timeout})
            && (Quiet(sc) && more == [] ==> o.result.Ok? && Quiet(o.rest))
  {
    if xs == [] {
    } else {
      var init, last := xs[..|xs| - 1], xs[|xs| - 1];
      assert Written(xs, encode) + tail == Written(init, encode) + (encode(last) + tail);
      ReadsMany(read, encode, init, sc, more, encode(last) + tail);
      var sofar := ReadMany(read, sc, |init|);
      if sofar.result.Ok? {
        assert Reads(read, encode, last, sofar.rest, more, tail);
        assert xs == init + [last];
      }
    }
  }

  /**
   Printer and parser over a fragmented wire: whatever is read back is what was sent, and if nothing
   fails and the clock allows, everything that was sent is read back.
   */
  lemma FragmentedRoundTrip(ms: seq<Message>, sc: Script, more: bytes, tail: bytes)
    requires forall m | m in ms :: Encodable(m)
    requires Content(sc) + more == EncodeAll(ms) + tail
    ensures var o := ReadPackets(sc, |ms|);
            && (o.result.Ok? ==> o.result.value == ms && Content(o.rest) + more == tail)
            && (o.result.Err? ==> o.result.error in {TransportError, Timeout})
            && (Quiet(sc) && more == [] ==> o.result.Ok? && Quiet(o.rest))
  {
    forall x, s, m, t | x in ms
      ensures Reads(ReadPacket, Encode, x, s, m, t)
    {
      if Content(s) + m == Encode(x) + t {
        PacketRoundTrip(x, s, m, t);
      }
    }
    ReadsMany(ReadPacket, Encode, ms, sc, more, tail);
  }

  /** The outcome of a whole read, `data` of it already in hand. */
  function After(data: bytes, o: Outcome<bytes>): Outcome<bytes> {
    if o.result.Err? then o else Outcome(Ok(data + o.result.value), o.rest)
  }

  lemma AfterNothing(o: Outcome<bytes>)
    ensures After([], o) == o
  {
    if o.result.Ok? { assert [] + o.result.value == o.result.value; }
  }

  lemma AfterBulk(data: bytes, sc: Script, left: nat)
    requires left > 0
    ensures var b, whole := BulkRead(sc, left), After(data, ReadBytes(sc, left));
            if b.result.Err? then whole == Outcome(Err(TransportError), b.rest)
            else if |b.result.value.data| == left || !b.result.value.timeUp then
              whole == After(data + b.result.value.data, ReadBytes(b.rest, left - |b.result.value.data|))
            else whole == Outcome(Err(Timeout), b.rest)
  {
    var b := BulkRead(sc, left);
    if b.result.Ok? {
      var got := b.result.value.data;
      var o := ReadBytes(b.rest, left - |got|);
      if o.result.Ok? {
        assert data + (got + o.result.value) == (data + got) + o.result.value;
        assert |got| == left ==> got + o.result.value == got;
      }
    }
  }

  /** Of `data`, written after `before`, all is there, or a first part. */
  predicate Wrote(before: bytes, data: bytes, written: bytes, ok: bool) {
    if ok then written == before + data else before <= written <= before + data
  }

  class Transport {
    var script: Script   // what the device side will still answer
    var written: bytes   // what the device side has been sent

    constructor (answers: Script)
      ensures script == answers && written == []
    {
      script, written := answers, [];
    }

    method Bulk(n: nat) returns (r: Result<Event, Failure>)
      modifies this`script
      ensures r == BulkRead(old(script), n).result
      ensures script == BulkRead(old(script), n).rest
    {
      var o := BulkRead(script, n);
      script := o.rest;
      return o.result;
    }

    /** `bulk_write`: all of it, or an exception with some of it on the wire. */
    method BulkWrite(data: bytes) returns (ok: bool)
      modifies this`written
      ensures Wrote(old(written), data, written, ok)
    {
      ok := *;
      if ok {
        written := written + data;
      } else {
        var n: nat :| n <= |data|;
        written := written + data[..n];
      }
    }

    /** `_read_bytes_from_device`: the loop, with the bytes still wanted counted down. */
    method ReadBytesFromDevice(length: nat) returns (r: Result<bytes, Failure>)
      modifies this`script
      ensures r == ReadBytes(old(script), length).result
      ensures script == ReadBytes(old(script), length).rest
    {
      var data: bytes, left: int := [], length;
      ghost var whole := ReadBytes(script, length);
      AfterNothing(whole);
      while left > 0
        invariant 0 <= left
        invariant After(data, ReadBytes(script, left)) == whole
        decreases Fuel(script)
      {
        AfterBulk(data, script, left);
        var temp := Bulk(left);
        if temp.Err? { return Err(temp.error); }
        data, left := data + temp.value.data, left - |temp.value.data|;
        if left == 0 { break; }
        if temp.value.timeUp { return Err(Timeout); }
      }
      assert After(data, ReadBytes(script, 0)) == whole;
      assert data + [] == data;
      return Ok(data);
    }

    method ReadPacketFromDevice() returns (r: Result<Message, Failure>)
      modifies this`script
      ensures r == ReadPacket(old(script)).result
      ensures script == ReadPacket(old(script)).rest
    {
      var head := ReadBytesFromDevice(HEADER_SIZE);
      if head.Err? { return Err(head.error); }
      var h := Unpack(head.value).value;
      var command := FromWire(h.cmd);
      if command.None? { return Err(InvalidCommand); }
      if h.length == 0 { return Ok(Message(command.value, h.arg0, h.arg1, [])); }
      var data := ReadBytesFromDevice(h.length);
      if data.Err? { return Err(data.error); }
      if Checksum(data.value) != h.checksum { return Err(InvalidChecksum); }
      return Ok(Message(command.value, h.arg0, h.arg1, data.value));
    }

    /** `_send`: the header, then the data if there is any. */
    method Send(m: Message) returns (ok: bool)
      requires Encodable(m)
      modifies this`written
      ensures Wrote(old(written), Encode(m), written, ok)
    {
      ghost var before := written;
      ok := BulkWrite(Pack(m));
      WroteHeader(before, Pack(m), m.data, written, ok);
      if ok && m.data != [] {
        ghost var between := written;
        ok := BulkWrite(m.data);
        WroteBoth(before, Pack(m), m.data, between, written, ok);
      }
    }
  }

  lemma WroteHeader(before: bytes, head: bytes, data: bytes, written: bytes, ok: bool)
    requires Wrote(before, head, written, ok)
    ensures !ok || data == [] ==> Wrote(before, head + data, written, ok)
  {
    assert data == [] ==> head + data == head;
    assert before + (head + data) == (before + head) + data;
  }

  lemma WroteBoth(before: bytes, head: bytes, data: bytes, between: bytes, written: bytes, ok: bool)
    requires Wrote(before, head, between, true) && Wrote(between, data, written, ok)
    ensures Wrote(before, head + data, written, ok)
  {
    assert before + (head + data) == (before + head) + data;
  }
}
