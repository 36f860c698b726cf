/**
 FileSync packets, the byte strings they travel in, and how they are cut into WRTE packets.  All of
 this is about values; the code that reads and writes them is in SyncClient.
 */
module FileSync {
  import opened Bytes

  /** constants.FILESYNC_IDS */
  datatype Id = DATA | DENT | DONE | FAIL | LIST | OKAY | QUIT | RECV | SEND | STAT

  function ToWire(id: Id): u32 {
    match id
    case DATA => Letters('D', 'A', 'T', 'A')
    case DENT => Letters('D', 'E', 'N', 'T')
    case DONE => Letters('D', 'O', 'N', 'E')
    case FAIL => Letters('F', 'A', 'I', 'L')
    case LIST => Letters('L', 'I', 'S', 'T')
    case OKAY => Letters('O', 'K', 'A', 'Y')
    case QUIT => Letters('Q', 'U', 'I', 'T')
    case RECV => Letters('R', 'E', 'C', 'V')
    case SEND => Letters('S', 'E', 'N', 'D')
    case STAT => Letters('S', 'T', 'A', 'T')
  }

  lemma IdLetters(id: Id)
    ensures Word(ToWire(id)) == match id
                                case DATA => Ascii("DATA")
                                case DENT => Ascii("DENT")
                                case DONE => Ascii("DONE")
                                case FAIL => Ascii("FAIL")
                                case LIST => Ascii("LIST")
                                case OKAY => Ascii("OKAY")
                                case QUIT => Ascii("QUIT")
                                case RECV => Ascii("RECV")
                                case SEND => Ascii("SEND")
                                case STAT => Ascii("STAT")
  {
    match id
    case DATA => LettersAscii('D', 'A', 'T', 'A');
    case DENT => LettersAscii('D', 'E', 'N', 'T');
    case DONE => LettersAscii('D', 'O', 'N', 'E');
    case FAIL => LettersAscii('F', 'A', 'I', 'L');
    case LIST => LettersAscii('L', 'I', 'S', 'T');
    case OKAY => LettersAscii('O', 'K', 'A', 'Y');
    case QUIT => LettersAscii('Q', 'U', 'I', 'T');
    case RECV => LettersAscii('R', 'E', 'C', 'V');
    case SEND => LettersAscii('S', 'E', 'N', 'D');
    case STAT => LettersAscii('S', 'T', 'A', 'T');
  }

  function FromWire(n: u32): (r: Option<Id>)
    ensures forall id :: r == Some(id) <==> n == ToWire(id)
  {
    if n == ToWire(DATA) then Some(DATA)
    else if n == ToWire(DENT) then Some(DENT)
    else if n == ToWire(DONE) then Some(DONE)
    else if n == ToWire(FAIL) then Some(FAIL)
    else if n == ToWire(LIST) then Some(LIST)
    else if n == ToWire(OKAY) then Some(OKAY)
    else if n == ToWire(QUIT) then Some(QUIT)
    else if n == ToWire(RECV) then Some(RECV)
    else if n == ToWire(SEND) then Some(SEND)
    else if n == ToWire(STAT) then Some(STAT)
    else None
  }

  /** How a FileSync operation fails. */
  datatype Error =
    | Broken                      // reading from the device failed or timed out
    | CommandFailed(reason: bytes)
    | Unexpected(id: Id)
    | UnknownId
    | TooBig                      // a size does not fit its '<I' field
    | PushFailed(reason: bytes)

  // ---- Packets from the device

  /** What `_filesync_read` returns: the words between the id and the size, and the data, if that is read. */
  datatype Frame = Frame(id: Id, fields: seq<u32>, data: Option<bytes>)

  /** The data of a packet that has some, and what follows it. */
  function ParseData(id: Id, header: seq<u32>, expected: set<Id>, s: bytes): (r: (Result<Frame, Error>, bytes))
    requires |header| >= 2 && id != STAT
    ensures r.0.Ok? ==> |r.1| <= |s| && r.0.value.id in expected
    ensures r.0.Ok? ==> WellFormed(r.0.value) && HeaderWords(r.0.value) == |header|
  {
    var size := header[|header| - 1];
    if |s| < size then (Err(Broken), s)
    else if id in expected then (Ok(Frame(id, header[1..|header| - 1], Some(s[..size]))), s[size..])
    else if id == FAIL then (Err(CommandFailed(s[..size])), s[size..])
    else (Err(Unexpected(id)), s[size..])
  }

  /** One packet off a byte string, with a header of `words` words whatever the id; and the bytes after it. */
  function ParseOne(words: nat, expected: set<Id>, s: bytes): (r: (Result<Frame, Error>, bytes))
    requires words >= 2
    ensures r.0.Ok? ==> |r.1| < |s| && r.0.value.id in expected
    ensures r.0.Ok? ==> WellFormed(r.0.value) && HeaderWords(r.0.value) == words
  {
    if |s| < 4 * words then (Err(Broken), s)
    else
      var header, rest := UnpackWords(s[..4 * words]), s[4 * words..];
      var id := FromWire(header[0]);
      if id.None? then (Err(UnknownId), rest)
      else if id.value == STAT then
        (if STAT in expected then Ok(Frame(STAT, header[1..], None)) else Err(Unexpected(STAT)), rest)
      else ParseData(id.value, header, expected, rest)
  }

  /** The packets that could be read, and why no more could if the answer was not at its end. */
  datatype Parsed = Parsed(frames: seq<Frame>, failure: Option<Error>, rest: bytes)

  /** Packets up to one whose id ends the answer. */
  function ParseUntil(words: nat, expected: set<Id>, finish: set<Id>, s: bytes): (p: Parsed)
    requires words >= 2
    ensures forall f | f in p.frames :: f.id in expected + finish && WellFormed(f) && HeaderWords(f) == words
    decreases |s|
  {
    var (one, rest) := ParseOne(words, expected + finish, s);
    match one
    case Err(e) => Parsed([], Some(e), rest)
    case Ok(f) =>
      if f.id in finish then Parsed([f], None, rest)
      else ParsedMore([f], ParseUntil(words, expected, finish, rest))
  }

  function ParsedMore(frames: seq<Frame>, p: Parsed): Parsed {
    p.(frames := frames + p.frames)
  }

  /** How a device sends a packet. */
  function FrameBytes(f: Frame): (s: bytes)
    requires WellFormed(f)
  {
    PackWords([ToWire(f.id)] + f.fields + (if f.data.Some? then [|f.data.value|] else []))
    + (if f.data.Some? then f.data.value else [])
  }

  predicate WellFormed(f: Frame) {
    && (f.data.None? <==> f.id == STAT)
    && (f.data.Some? ==> |f.data.value| < 0x1_0000_0000)
  }

  function HeaderWords(f: Frame): nat {
    1 + |f.fields| + (if f.data.Some? then 1 else 0)
  }

  /** A packet with the header the transaction expects is read back, and so is the failure it stands for. */
  lemma FrameRoundTrip(f: Frame, words: nat, expected: set<Id>, tail: bytes)
    requires WellFormed(f) && HeaderWords(f) == words >= 2
    ensures var r := ParseOne(words, expected, FrameBytes(f) + tail);
            && r.1 == tail
            && r.0 == if f.id in expected then Ok(f)
                      else if f.id == FAIL then Err(CommandFailed(f.data.value))
                      else Err(Unexpected(f.id))
  {
    var data := if f.data.Some? then f.data.value else [];
    var header := [ToWire(f.id)] + f.fields + (if f.data.Some? then [|data|] else []);
    var s := FrameBytes(f) + tail;
    WordsRoundTrip(header);
    assert s == PackWords(header) + (data + tail);
    assert s[..4 * words] == PackWords(header);
    assert s[4 * words..] == data + tail;
    assert (data + tail)[..|data|] == data && (data + tail)[|data|..] == tail;
    if f.data.Some? {
      assert header[1..words - 1] == f.fields;
    } else {
      assert header[1..] == f.fields;
    }
  }

  lemma OneWord(w: u32)
    ensures PackWords([w]) == Word(w)
  {
    assert [w][1..] == [];
    assert Word(w) + [] == Word(w);
  }

  lemma TwoWords(a: u32, b: u32)
    ensures PackWords([a, b]) == Word(a) + Word(b)
  {
    assert [a, b][1..] == [b];
    OneWord(b);
  }

  /** A packet with a header of two words: four letters, the length, the data. */
  lemma ShortFrame(id: Id, data: bytes)
    requires id != STAT && |data| < 0x1_0000_0000
    ensures FrameBytes(Frame(id, [], Some(data))) == Word(ToWire(id)) + Word(|data|) + data
  {
    assert [ToWire(id)] + [] + [|data|] == [ToWire(id), |data|];
    TwoWords(ToWire(id), |data|);
  }

  /** The answer to `stat`: four letters, the mode, the size and the time. */
  lemma StatRoundTrip(mode: u32, size: u32, mtime: u32, tail: bytes)
    ensures ParseOne(4, {STAT}, Ascii("STAT") + Word(mode) + Word(size) + Word(mtime) + tail) ==
            (Ok(Frame(STAT, [mode, size, mtime], None)), tail)
  {
    var f := Frame(STAT, [mode, size, mtime], None);
    IdLetters(STAT);
    FourWords(ToWire(STAT), mode, size, mtime);
    assert [ToWire(STAT)] + f.fields + [] == [ToWire(STAT), mode, size, mtime];
    assert FrameBytes(f) == PackWords([ToWire(STAT), mode, size, mtime]);
    FrameRoundTrip(f, 4, {STAT}, tail);
  }

  lemma FourWords(a: u32, b: u32, c: u32, d: u32)
    ensures PackWords([a, b, c, d]) == Word(a) + Word(b) + Word(c) + Word(d)
  {
    assert [a, b, c, d][1..] == [b, c, d] && [b, c, d][1..] == [c, d];
    TwoWords(c, d);
    assert PackWords([b, c, d]) == Word(b) + PackWords([c, d]);
  }

  lemma WordsOfIds(four: bytes)
    requires |four| == 4
    ensures forall id :: four == Word(ToWire(id)) <==> UnWord(four) == ToWire(id)
  {
    UnWordRoundTrip(four);
    forall id ensures four == Word(ToWire(id)) <==> UnWord(four) == ToWire(id) {
      WordRoundTrip(ToWire(id));
    }
  }

  /** The first and the last word of a header. */
  lemma EndWords(words: nat, s: bytes)
    requires 1 <= words && |s| >= 4 * words
    ensures var header := UnpackWords(s[..4 * words]);
            && |header| == words && header[0] == UnWord(s[..4])
            && header[words - 1] == UnWord(s[4 * words - 4..4 * words])
  {
    var head := s[..4 * words];
    UnpackedAt(head, 0);
    UnpackedAt(head, words - 1);
    assert head[0..4] == s[..4] && head[4 * (words - 1)..4 * (words - 1) + 4] == s[4 * words - 4..4 * words];
  }

  /** How reading a packet fails but for its contents: too few bytes for the header or the data, or no such id. */
  lemma ParseFails(words: nat, expected: set<Id>, s: bytes)
    requires words >= 2
    ensures |s| < 4 * words ==> ParseOne(words, expected, s).0 == Err(Broken)
    ensures |s| >= 4 * words && (forall id :: s[..4] != Word(ToWire(id))) ==>
              ParseOne(words, expected, s).0 == Err(UnknownId)
    ensures |s| >= 4 * words && (exists id :: id != STAT && s[..4] == Word(ToWire(id))) &&
              |s| < 4 * words + UnWord(s[4 * words - 4..4 * words]) ==>
              ParseOne(words, expected, s).0 == Err(Broken)
  {
    if |s| >= 4 * words {
      EndWords(words, s);
      WordsOfIds(s[..4]);
    }
  }

  /** An answer is read up to where a packet of it fails. */
  lemma {:induction false} AnswerFails(fs: seq<Frame>, words: nat, expected: set<Id>, finish: set<Id>,
        s: bytes, e: Error)
    requires words >= 2 && ParseOne(words, expected + finish, s).0 == Err(e)
    requires forall f | f in fs :: WellFormed(f) && HeaderWords(f) == words && f.id in expected && f.id !in finish
    ensures var p := ParseUntil(words, expected, finish, Written(fs, FrameBytes) + s);
            p.frames == fs && p.failure == Some(e)
  {
    if fs == [] {
      assert Written(fs, FrameBytes) + s == s;
    } else {
      var f, more := fs[0], fs[1..];
      assert fs == [f] + more;
      WrittenFirst(f, more, FrameBytes);
      Spliced(Written(fs, FrameBytes), FrameBytes(f), Written(more, FrameBytes), s);
      FrameRoundTrip(f, words, expected + finish, Written(more, FrameBytes) + s);
      ParseStep(words, expected, finish, f, Written(fs, FrameBytes) + s, Written(more, FrameBytes) + s);
      AnswerFails(more, words, expected, finish, s, e);
    }
  }

  lemma ParseStep(words: nat, expected: set<Id>, finish: set<Id>, f: Frame, s: bytes, rest: bytes)
    requires words >= 2 && ParseOne(words, expected + finish, s) == (Ok(f), rest)
    ensures ParseUntil(words, expected, finish, s) ==
            if f.id in finish then Parsed([f], None, rest)
            else ParsedMore([f], ParseUntil(words, expected, finish, rest))
  {
  }

  /** An answer of any number of packets is read back whole. */
  lemma {:induction false} AnswerRoundTrip(fs: seq<Frame>, last: Frame, words: nat, expected: set<Id>,
        finish: set<Id>, tail: bytes)
    requires words >= 2
    requires forall f | f in fs :: WellFormed(f) && HeaderWords(f) == words && f.id in expected && f.id !in finish
    requires WellFormed(last) && HeaderWords(last) == words && last.id in finish
    ensures ParseUntil(words, expected, finish, Written(fs, FrameBytes) + (FrameBytes(last) + tail)) ==
            Parsed(fs + [last], None, tail)
  {
    var end := FrameBytes(last) + tail;
    if fs == [] {
      assert Written(fs, FrameBytes) + end == end;
      FrameRoundTrip(last, words, expected + finish, tail);
      ParseStep(words, expected, finish, last, end, tail);
      assert fs + [last] == [last];
    } else {
      var f, more := fs[0], fs[1..];
      assert fs == [f] + more;
      WrittenFirst(f, more, FrameBytes);
      Spliced(Written(fs, FrameBytes), FrameBytes(f), Written(more, FrameBytes), end);
      FrameRoundTrip(f, words, expected + finish, Written(more, FrameBytes) + end);
      ParseStep(words, expected, finish, f, Written(fs, FrameBytes) + end, Written(more, FrameBytes) + end);
      AnswerRoundTrip(more, last, words, expected, finish, tail);
      assert [f] + (more + [last]) == fs + [last];
    }
  }

  lemma Spliced(all: bytes, first: bytes, more: bytes, end: bytes)
    requires all == first + more
    ensures all + end == first + (more + end)
  {
  }

  /** How a device reports failure: a header of two words, and the message. */
  function FailBytes(reason: bytes): (s: bytes)
    requires |reason| < 0x1_0000_0000
    ensures |s| == 8 + |reason|
  {
    FrameBytes(Frame(FAIL, [], Some(reason)))
  }

  /**
   `reason` is in `s` at offset `k`, and its length is in the word before: what follows the failure looks to
   a reader of longer headers as if it were the message.
   */
  predicate Echoed(s: bytes, k: nat, reason: bytes)
    requires k >= 4
  {
    |s| >= k + |reason| && UnWord(s[k - 4..k]) == |reason| && s[k..k + |reason|] == reason
  }

  lemma FailBytesAre(reason: bytes, tail: bytes)
    requires |reason| < 0x1_0000_0000
    ensures FailBytes(reason) + tail == Word(ToWire(FAIL)) + Word(|reason|) + (reason + tail)
  {
    assert PackWords([ToWire(FAIL), |reason|]) == Word(ToWire(FAIL)) + (Word(|reason|) + []) by {
      assert [ToWire(FAIL), |reason|][1..] == [|reason|] && [|reason|][1..] == [];
    }
  }

  /** What a reader of longer headers takes for the header. */
  lemma WideHeader(s: bytes, words: nat, first: u32, second: u32, more: bytes)
    requires words > 2 && s == Word(first) + Word(second) + more && |s| >= 4 * words
    ensures var header, k := UnpackWords(s[..4 * words]), 4 * (words - 2);
            header[0] == first && header[words - 1] == UnWord(more[k - 4..k])
  {
    var head := s[..4 * words];
    UnpackedAt(head, 0);
    UnpackedAt(head, words - 1);
    WordRoundTrip(first);
    assert head[0..4] == Word(first);
    var i, k := 4 * (words - 1), 4 * (words - 2);
    assert s[8..] == more;
    assert head[i..i + 4] == s[i..i + 4] == s[8..][k - 4..k];
  }

  /** Where longer headers are read, the header takes the first bytes of the message, and what is behind it. */
  lemma FailureWide(words: nat, expected: set<Id>, reason: bytes, tail: bytes)
    requires words > 2 && FAIL !in expected && |reason| < 0x1_0000_0000
    ensures ParseOne(words, expected, FailBytes(reason) + tail).0 == Err(CommandFailed(reason)) <==>
            Echoed(reason + tail, 4 * (words - 2), reason)
  {
    var s, more, k := FailBytes(reason) + tail, reason + tail, 4 * (words - 2);
    FailBytesAre(reason, tail);
    if |s| >= 4 * words {
      WideHeader(s, words, ToWire(FAIL), |reason|, more);
      assert s[4 * words..] == more[k..];
      var header := UnpackWords(s[..4 * words]);
      assert ParseOne(words, expected, s) == ParseData(FAIL, header, expected, more[k..]);
      FailureData(header, expected, more[k..], reason);
      MessageAt(more, k, |reason|);
    }
  }

  lemma MessageAt(s: bytes, k: nat, n: nat)
    requires k <= |s|
    ensures n <= |s[k..]| <==> k + n <= |s|
    ensures n <= |s[k..]| ==> s[k..][..n] == s[k..k + n]
  {
  }

  lemma FailureData(header: seq<u32>, expected: set<Id>, s: bytes, reason: bytes)
    requires |header| >= 2 && FAIL !in expected
    ensures ParseData(FAIL, header, expected, s).0 == Err(CommandFailed(reason)) <==>
            header[|header| - 1] == |reason| && |s| >= |reason| && s[..|reason|] == reason
  {
  }

  /**
   Whatever follows it, the message of a failure gets through if the transaction reads headers of two words,
   as `pull` and `push` do; and with longer ones, as in `list` and `stat`, exactly if the message comes once
   more where they would have it.  So none gets through that ends the answer.
   */
  lemma FailureReported(words: nat, expected: set<Id>, reason: bytes, tail: bytes)
    requires words >= 2 && FAIL !in expected && |reason| < 0x1_0000_0000
    ensures ParseOne(words, expected, FailBytes(reason) + tail).0 == Err(CommandFailed(reason)) <==>
            words == 2 || Echoed(reason + tail, 4 * (words - 2), reason)
    ensures words == 2 ==> ParseOne(words, expected, FailBytes(reason) + tail).1 == tail
    ensures words > 2 && |tail| < 4 * (words - 2) ==>
            ParseOne(words, expected, FailBytes(reason) + tail).0 != Err(CommandFailed(reason))
  {
    if words == 2 {
      FrameRoundTrip(Frame(FAIL, [], Some(reason)), 2, expected, tail);
    } else {
      FailureWide(words, expected, reason, tail);
    }
  }

  // ---- Pull and list

  /** The data of the packets of one id. */
  function Datas(frames: seq<Frame>, id: Id): seq<bytes>
    requires forall f | f in frames :: f.data.Some?
  {
    if frames == [] then []
    else
      var last := frames[|frames| - 1];
      Datas(frames[..|frames| - 1], id) + (if last.id == id then [last.data.value] else [])
  }

  function DataFrames(chunks: seq<bytes>): seq<Frame> {
    seq(|chunks|, i requires 0 <= i < |chunks| => Frame(DATA, [], Some(chunks[i])))
  }

  lemma {:induction false} DatasOf(chunks: seq<bytes>)
    ensures Datas(DataFrames(chunks), DATA) == chunks
  {
    if chunks == [] {
    } else {
      var init := chunks[..|chunks| - 1];
      DatasOf(init);
      assert DataFrames(chunks)[..|chunks| - 1] == DataFrames(init);
    }
  }

  lemma DatasEnd(chunks: seq<bytes>, last: Frame)
    requires last.id != DATA && last.data.Some?
    ensures Datas(DataFrames(chunks) + [last], DATA) == chunks
  {
    DatasOf(chunks);
    var all := DataFrames(chunks) + [last];
    assert all[..|all| - 1] == DataFrames(chunks);
  }

  /** A device that sends a file in chunks of any sizes is understood: the file is read back. */
  lemma PullRoundTrip(chunks: seq<bytes>, tail: bytes)
    requires forall c | c in chunks :: |c| < 0x1_0000_0000
    ensures forall f | f in DataFrames(chunks) :: WellFormed(f)
    ensures var sent := Written(DataFrames(chunks), FrameBytes) + (FrameBytes(Frame(DONE, [], Some([]))) + tail);
            var p := ParseUntil(2, {DATA}, {DONE}, sent);
            p.failure.None? && Join(Datas(p.frames, DATA)) == Join(chunks)
  {
    var done := Frame(DONE, [], Some([]));
    AnswerRoundTrip(DataFrames(chunks), done, 2, {DATA}, {DONE}, tail);
    DatasEnd(chunks, done);
  }

  datatype DeviceFile = DeviceFile(filename: bytes, mode: u32, size: u32, mtime: u32)

  /** One entry of `list` as a packet with a header of five words. */
  function EntryFrame(file: DeviceFile): Frame {
    Frame(DENT, [file.mode, file.size, file.mtime], Some(file.filename))
  }

  /** On the wire: four letters, the mode, the size, the time, the length of the name, the name. */
  lemma EntryBytes(file: DeviceFile)
    requires |file.filename| < 0x1_0000_0000
    ensures WellFormed(EntryFrame(file))
    ensures FrameBytes(EntryFrame(file)) ==
            Ascii("DENT") + Word(file.mode) + Word(file.size) + Word(file.mtime) + Word(|file.filename|) + file.filename
  {
    var a, b, c, d, e := ToWire(DENT), file.mode, file.size, file.mtime, |file.filename|;
    IdLetters(DENT);
    assert [a] + [b, c, d] + [e] == [a, b, c, d, e];
    assert [a, b, c, d, e][1..] == [b, c, d, e];
    FourWords(b, c, d, e);
  }

  function FileOf(f: Frame): DeviceFile
    requires |f.fields| == 3 && f.data.Some?
  {
    DeviceFile(f.data.value, f.fields[0], f.fields[1], f.fields[2])
  }

  function EntryFrames(files: seq<DeviceFile>): seq<Frame> {
    seq(|files|, i requires 0 <= i < |files| => EntryFrame(files[i]))
  }

  /** The entries among the packets. */
  function Files(frames: seq<Frame>): seq<DeviceFile>
    requires forall f | f in frames :: |f.fields| == 3 && f.data.Some?
  {
    if frames == [] then []
    else
      var last := frames[|frames| - 1];
      Files(frames[..|frames| - 1]) + (if last.id == DENT then [FileOf(last)] else [])
  }

  lemma {:induction false} FilesOf(files: seq<DeviceFile>)
    ensures Files(EntryFrames(files)) == files
  {
    if files == [] {
    } else {
      var init := files[..|files| - 1];
      FilesOf(init);
      assert EntryFrames(files)[..|files| - 1] == EntryFrames(init);
    }
  }

  /** A directory sent by the device is read back, whatever the other words of its DONE. */
  lemma ListRoundTrip(files: seq<DeviceFile>, fields: seq<u32>, tail: bytes)
    requires |fields| == 3 && forall f | f in files :: |f.filename| < 0x1_0000_0000
    ensures forall f | f in EntryFrames(files) :: WellFormed(f)
    ensures var sent := Written(EntryFrames(files), FrameBytes) + (FrameBytes(Frame(DONE, fields, Some([]))) + tail);
            var p := ParseUntil(5, {DENT}, {DONE}, sent);
            p.failure.None? && Files(p.frames) == files
  {
    var done := Frame(DONE, fields, Some([]));
    AnswerRoundTrip(EntryFrames(files), done, 5, {DENT}, {DONE}, tail);
    FilesOf(files);
    var all := EntryFrames(files) + [done];
    assert all[..|all| - 1] == EntryFrames(files);
  }

  // ---- Packets to the device

  /** What is given to `_filesync_send`; a size other than the length of the data belongs to DONE. */
  datatype Unit = Unit(id: Id, size: u32, data: bytes)

  function UnitBytes(u: Unit): (s: bytes)
    ensures |s| == 8 + |u.data|
  {
    PackWords([ToWire(u.id), u.size]) + u.data
  }

  /** Four letters, the size field, the data. */
  lemma UnitBytesAre(u: Unit)
    ensures UnitBytes(u) == Word(ToWire(u.id)) + Word(u.size) + u.data
  {
    TwoWords(ToWire(u.id), u.size);
  }

  /** The requests of `_pull`, `list` and `stat`. */
  lemma RequestBytes(path: bytes)
    requires |path| < 0x1_0000_0000
    ensures UnitBytes(Unit(RECV, |path|, path)) == Ascii("RECV") + Word(|path|) + path
    ensures UnitBytes(Unit(LIST, |path|, path)) == Ascii("LIST") + Word(|path|) + path
    ensures UnitBytes(Unit(STAT, |path|, path)) == Ascii("STAT") + Word(|path|) + path
  {
    UnitBytesAre(Unit(RECV, |path|, path));
    UnitBytesAre(Unit(LIST, |path|, path));
    UnitBytesAre(Unit(STAT, |path|, path));
    IdLetters(RECV);
    IdLetters(LIST);
    IdLetters(STAT);
  }

  /** Units given to `_filesync_send`, and the flushes that reading brings. */
  datatype BufferOp = Add(u: Unit) | Flush

  function Units(ops: seq<BufferOp>): seq<Unit> {
    if ops == [] then [] else
      var last := ops[|ops| - 1];
      Units(ops[..|ops| - 1]) + (if last.Add? then [last.u] else [])
  }

  /** `can_add_to_send_buffer`, which counts the header of packets received. */
  predicate Fits(words: nat, maxdata: nat, sendIdx: nat, length: nat) {
    sendIdx + (4 * words + length) < maxdata
  }

  /** The WRTE payloads sent, and what is in the buffer up to `send_idx`. */
  datatype Cut = Cut(out: seq<bytes>, pending: bytes)

  /** The buffer is flushed if something does not fit. */
  function Room(c: Cut, fits: bool): Cut {
    if fits then c else Cut(c.out + [c.pending], [])
  }

  function CutMore(words: nat, maxdata: nat, c: Cut, op: BufferOp): Cut {
    match op
    case Add(u) =>
      var room := Room(c, Fits(words, maxdata, |c.pending|, |u.data|));
      Cut(room.out, room.pending + UnitBytes(u))
    case Flush => Room(c, c.pending == [])
  }

  function CutUp(words: nat, maxdata: nat, ops: seq<BufferOp>): Cut {
    if ops == [] then Cut([], [])
    else CutMore(words, maxdata, CutUp(words, maxdata, ops[..|ops| - 1]), ops[|ops| - 1])
  }

  lemma CutSnoc(words: nat, maxdata: nat, ops: seq<BufferOp>, op: BufferOp)
    ensures CutUp(words, maxdata, ops + [op]) == CutMore(words, maxdata, CutUp(words, maxdata, ops), op)
    ensures Units(ops + [op]) == Units(ops) + (if op.Add? then [op.u] else [])
  {
    assert (ops + [op])[..|ops|] == ops;
  }

  /**
   What is in the buffer goes out before a packet exactly if both, the header counted with the words of the
   transaction, would not stay below the maximum; and at a flush, if there is anything.
   */
  lemma CutExactly(words: nat, maxdata: nat, ops: seq<BufferOp>, u: Unit)
    ensures CutUp(words, maxdata, []) == Cut([], [])
    ensures var c, more := CutUp(words, maxdata, ops), Word(ToWire(u.id)) + Word(u.size) + u.data;
            CutUp(words, maxdata, ops + [Add(u)]) ==
            if |c.pending| + 4 * words + |u.data| < maxdata then Cut(c.out, c.pending + more)
            else Cut(c.out + [c.pending], more)
    ensures var c := CutUp(words, maxdata, ops);
            CutUp(words, maxdata, ops + [Flush]) == if c.pending == [] then c else Cut(c.out + [c.pending], [])
  {
    CutSnoc(words, maxdata, ops, Add(u));
    CutSnoc(words, maxdata, ops, Flush);
    UnitBytesAre(u);
    assert [] + UnitBytes(u) == UnitBytes(u);
  }

  function Adds(units: seq<Unit>): (ops: seq<BufferOp>)
    ensures |ops| == |units| && forall i | 0 <= i < |units| :: ops[i] == Add(units[i])
  {
    seq(|units|, i requires 0 <= i < |units| => Add(units[i]))
  }

  lemma {:induction false} UnitsOf(units: seq<Unit>)
    ensures Units(Adds(units)) == units
    ensures Units(Adds(units) + [Flush]) == units
  {
    if units == [] {
    } else {
      UnitsOf(units[..|units| - 1]);
      assert Adds(units)[..|units| - 1] == Adds(units[..|units| - 1]);
    }
    CutSnoc(2, 0, Adds(units), Flush);
    assert units + [] == units;
  }

  lemma {:induction false} OutGrows(words: nat, maxdata: nat, ops: seq<BufferOp>, all: seq<BufferOp>)
    requires ops <= all
    ensures |CutUp(words, maxdata, ops).out| <= |CutUp(words, maxdata, all).out|
  {
    if ops != all {
      OutGrows(words, maxdata, ops, all[..|all| - 1]);
    }
  }

  lemma NothingLostOnce(words: nat, maxdata: nat, c: Cut, op: BufferOp)
    ensures var c' := CutMore(words, maxdata, c, op);
            Join(c'.out) + c'.pending == (Join(c.out) + c.pending) + (if op.Add? then UnitBytes(op.u) else [])
  {
    JoinSnoc(c.out, c.pending);
    if op.Add? {
      var more := UnitBytes(op.u);
      Spliced(Join(c.out) + c.pending, Join(c.out), c.pending, more);
      assert [] + more == more;
    } else {
      assert (Join(c.out) + c.pending) + [] == Join(c.out) + c.pending;
    }
  }

  /** The payloads and the buffer are the packets, one after the other: nothing lost, added or moved. */
  lemma {:induction false} NothingLost(words: nat, maxdata: nat, ops: seq<BufferOp>)
    ensures var c := CutUp(words, maxdata, ops);
            Join(c.out) + c.pending == Written(Units(ops), UnitBytes)
  {
    if ops == [] {
    } else {
      var init, last := ops[..|ops| - 1], ops[|ops| - 1];
      NothingLost(words, maxdata, init);
      NothingLostOnce(words, maxdata, CutUp(words, maxdata, init), last);
      if last.Add? {
        WrittenSnoc(Units(init), last.u, UnitBytes);
      } else {
        assert Units(ops) == Units(init);
        assert Written(Units(init), UnitBytes) + [] == Written(Units(init), UnitBytes);
      }
    }
  }

  predicate Small(maxdata: nat, op: BufferOp) {
    op.Add? ==> 8 + |op.u.data| < maxdata
  }

  predicate Bounded(maxdata: nat, c: Cut) {
    |c.pending| < maxdata && forall p | p in c.out :: |p| < maxdata
  }

  /** Payloads stay below the maximum, and the buffer never grows, exactly when every packet by itself is below it. */
  lemma {:induction false} SendBufferBound(words: nat, maxdata: nat, ops: seq<BufferOp>)
    requires words >= 2 && maxdata > 0
    ensures Bounded(maxdata, CutUp(words, maxdata, ops)) <==> forall op | op in ops :: Small(maxdata, op)
  {
    if ops == [] {
    } else {
      var init, last := ops[..|ops| - 1], ops[|ops| - 1];
      SendBufferBound(words, maxdata, init);
      assert ops == init + [last];
      OneMoreBounded(words, maxdata, init, last);
    }
  }

  lemma OneMoreBounded(words: nat, maxdata: nat, ops: seq<BufferOp>, op: BufferOp)
    requires words >= 2 && maxdata > 0
    ensures Bounded(maxdata, CutUp(words, maxdata, ops + [op]))
        <==> Bounded(maxdata, CutUp(words, maxdata, ops)) && Small(maxdata, op)
  {
    CutSnoc(words, maxdata, ops, op);
    var c := CutUp(words, maxdata, ops);
    assert c.pending in c.out + [c.pending];
    assert forall p | p in c.out :: p in c.out + [c.pending];
    assert forall p | p in c.out + [c.pending] :: p in c.out || p == c.pending;
  }

  /** Unit number `i` comes when the buffer is empty, and does not even fit then. */
  predicate Overflows(words: nat, maxdata: nat, ops: seq<BufferOp>, i: nat)
    requires i < |ops|
  {
    ops[i].Add? && (i == 0 || ops[i - 1].Flush?) && !Fits(words, maxdata, 0, |ops[i].u.data|)
  }

  /** An empty WRTE is sent exactly when there is such a unit. */
  lemma {:induction false} EmptyWrite(words: nat, maxdata: nat, ops: seq<BufferOp>)
    ensures [] in CutUp(words, maxdata, ops).out <==> exists i | 0 <= i < |ops| :: Overflows(words, maxdata, ops, i)
    ensures CutUp(words, maxdata, ops).pending == [] <==> ops == [] || ops[|ops| - 1].Flush?
  {
    if ops != [] {
      var init, n := ops[..|ops| - 1], |ops| - 1;
      EmptyWrite(words, maxdata, init);
      assert forall i: nat | i < n :: Overflows(words, maxdata, init, i) == Overflows(words, maxdata, ops, i);
      var c := CutUp(words, maxdata, init);
      assert [] in c.out + [c.pending] <==> [] in c.out || c.pending == [];
      if Overflows(words, maxdata, ops, n) {
        assert c.pending == [];
      }
    }
  }

  // ---- Push

  const MAX_CHUNK_SIZE := 64 * 1024
  const MAX_PUSH_DATA := 2 * 1024

  /** `max_chunk_size` */
  function MaxChunkSize(maxdata: nat): (n: nat)
    ensures 0 < n <= MAX_CHUNK_SIZE
  {
    var n := if MAX_CHUNK_SIZE <= maxdata / 2 then MAX_CHUNK_SIZE else maxdata / 2;
    if n == 0 then MAX_PUSH_DATA else n
  }

  /** What reading a file in pieces of `n` bytes gives. */
  function Chunks(file: bytes, n: nat): (chunks: seq<bytes>)
    requires n > 0
    ensures forall c | c in chunks :: 0 < |c| <= n
  {
    if file == [] then []
    else if |file| <= n then [file]
    else [file[..n]] + Chunks(file[n..], n)
  }

  /** The chunks are the file, and all but the last are full. */
  lemma {:induction false} ChunksAre(file: bytes, n: nat)
    requires n > 0
    ensures var chunks := Chunks(file, n);
            && Join(chunks) == file
            && (forall i | 0 <= i < |chunks| - 1 :: |chunks[i]| == n)
    decreases |file|
  {
    if |file| > n {
      ChunksAre(file[n..], n);
      assert file == file[..n] + file[n..];
    } else {
      assert file != [] ==> Join([file]) == file + Join([]);
    }
  }

  function Whole(id: Id, data: bytes): Unit
    requires |data| < 0x1_0000_0000
  {
    Unit(id, |data|, data)
  }

  function DataUnits(chunks: seq<bytes>): seq<Unit>
    requires forall c | c in chunks :: |c| < 0x1_0000_0000
  {
    if chunks == [] then [] else [Whole(DATA, chunks[0])] + DataUnits(chunks[1..])
  }

  /** What `_push` gives to `_filesync_send`. */
  function PushUnits(info: bytes, chunks: seq<bytes>, mtime: u32): seq<Unit>
    requires |info| < 0x1_0000_0000 && forall c | c in chunks :: |c| < 0x1_0000_0000
  {
    [Whole(SEND, info)] + DataUnits(chunks) + [Unit(DONE, mtime, [])]
  }

  function PushOps(info: bytes, chunks: seq<bytes>, mtime: u32): seq<BufferOp>
    requires |info| < 0x1_0000_0000 && forall c | c in chunks :: |c| < 0x1_0000_0000
  {
    Adds(PushUnits(info, chunks, mtime)) + [Flush]
  }

  lemma {:induction false} DataUnitAt(chunks: seq<bytes>, i: nat)
    requires forall c | c in chunks :: |c| < 0x1_0000_0000
    ensures |DataUnits(chunks)| == |chunks|
    ensures i < |chunks| ==> DataUnits(chunks)[i] == Whole(DATA, chunks[i])
  {
    if chunks != [] {
      DataUnitAt(chunks[1..], if i > 0 then i - 1 else 0);
    }
  }

  lemma PushOpAt(info: bytes, chunks: seq<bytes>, mtime: u32, i: nat)
    requires |info| < 0x1_0000_0000 && forall c | c in chunks :: |c| < 0x1_0000_0000
    ensures var ops := PushOps(info, chunks, mtime);
            && |ops| == |chunks| + 3
            && ops[..1] == [] + [Add(Whole(SEND, info))]
            && (i < |chunks| ==> ops[..i + 2] == ops[..i + 1] + [Add(Whole(DATA, chunks[i]))])
            && ops == ops[..|chunks| + 1] + [Add(Unit(DONE, mtime, []))] + [Flush]
  {
    DataUnitAt(chunks, i);
  }

  datatype PushRequest = PushRequest(info: bytes, chunks: seq<bytes>, mtime: u32)

  /** The id and the size at the head of `s`. */
  function Head(s: bytes): (Option<Id>, u32)
    requires |s| >= 8
  {
    (FromWire(UnWord(s[..4])), UnWord(s[4..8]))
  }

  /** DATA packets and then DONE, whose size field is the time. */
  function ParseChunks(s: bytes): Option<(seq<bytes>, u32)> {
    if |s| < 8 then None
    else
      var (id, size) := Head(s);
      if id == Some(DONE) && |s| == 8 then Some(([], size))
      else if id == Some(DATA) && 8 + size <= |s| then
        match ParseChunks(s[8 + size..])
        case None => None
        case Some((chunks, mtime)) => Some(([s[8..8 + size]] + chunks, mtime))
      else None
  }

  /** How a device reads a push. */
  function ParsePush(s: bytes): Option<PushRequest> {
    if |s| < 8 then None
    else
      var (id, size) := Head(s);
      if id == Some(SEND) && 8 + size <= |s| then
        match ParseChunks(s[8 + size..])
        case None => None
        case Some((chunks, mtime)) => Some(PushRequest(s[8..8 + size], chunks, mtime))
      else None
  }

  lemma UnitHead(u: Unit, tail: bytes)
    ensures var s := UnitBytes(u) + tail;
            && |s| >= 8 && Head(s) == (Some(u.id), u.size)
            && s[8..8 + |u.data|] == u.data && s[8 + |u.data|..] == tail
  {
    var s := UnitBytes(u) + tail;
    var w := [ToWire(u.id), u.size];
    assert w[1..] == [u.size];
    assert PackWords(w[1..]) == Word(u.size) + PackWords([]);
    assert s[..4] == Word(ToWire(u.id)) && s[4..8] == Word(u.size);
    WordRoundTrip(ToWire(u.id));
    WordRoundTrip(u.size);
  }

  lemma ChunkStep(u: Unit, tail: bytes)
    requires u.id == DATA && u.size == |u.data|
    ensures ParseChunks(UnitBytes(u) + tail) ==
            match ParseChunks(tail)
            case None => None
            case Some((chunks, mtime)) => Some(([u.data] + chunks, mtime))
  {
    UnitHead(u, tail);
  }

  lemma DoneStep(mtime: u32)
    ensures ParseChunks(Written([Unit(DONE, mtime, [])], UnitBytes)) == Some(([], mtime))
  {
    var u := Unit(DONE, mtime, []);
    WrittenOne(u, UnitBytes);
    UnitHead(u, []);
    assert UnitBytes(u) + [] == UnitBytes(u);
  }

  lemma {:induction false} ChunksParse(chunks: seq<bytes>, mtime: u32)
    requires forall c | c in chunks :: |c| < 0x1_0000_0000
    ensures ParseChunks(Written(DataUnits(chunks) + [Unit(DONE, mtime, [])], UnitBytes)) == Some((chunks, mtime))
  {
    var done := Unit(DONE, mtime, []);
    if chunks == [] {
      assert DataUnits(chunks) + [done] == [done];
      DoneStep(mtime);
    } else {
      var u, more := Whole(DATA, chunks[0]), DataUnits(chunks[1..]) + [done];
      assert DataUnits(chunks) + [done] == [u] + more;
      WrittenFirst(u, more, UnitBytes);
      ChunkStep(u, Written(more, UnitBytes));
      ChunksParse(chunks[1..], mtime);
      assert [chunks[0]] + chunks[1..] == chunks;
    }
  }

  /** The device reads back the file information, the chunks and the time. */
  lemma PushRoundTrip(info: bytes, chunks: seq<bytes>, mtime: u32)
    requires |info| < 0x1_0000_0000 && forall c | c in chunks :: |c| < 0x1_0000_0000
    ensures ParsePush(Written(PushUnits(info, chunks, mtime), UnitBytes)) == Some(PushRequest(info, chunks, mtime))
  {
    var u, more := Whole(SEND, info), DataUnits(chunks) + [Unit(DONE, mtime, [])];
    assert PushUnits(info, chunks, mtime) == [u] + more;
    WrittenFirst(u, more, UnitBytes);
    UnitHead(u, Written(more, UnitBytes));
    ChunksParse(chunks, mtime);
  }

  /** The DATA packets of a push, one after the other. */
  function DataPackets(chunks: seq<bytes>): bytes
    requires forall c | c in chunks :: |c| < 0x1_0000_0000
  {
    if chunks == [] then []
    else Ascii("DATA") + Word(|chunks[0]|) + chunks[0] + DataPackets(chunks[1..])
  }

  lemma {:induction false} DataBytes(chunks: seq<bytes>)
    requires forall c | c in chunks :: |c| < 0x1_0000_0000
    ensures Written(DataUnits(chunks), UnitBytes) == DataPackets(chunks)
  {
    if chunks == [] {
    } else {
      var u, more := Whole(DATA, chunks[0]), DataUnits(chunks[1..]);
      assert DataUnits(chunks) == [u] + more;
      WrittenFirst(u, more, UnitBytes);
      UnitBytesAre(u);
      IdLetters(DATA);
      DataBytes(chunks[1..]);
    }
  }

  /** Byte by byte: SEND with the file information, the DATA packets, and DONE with the time for its length. */
  lemma PushBytes(info: bytes, chunks: seq<bytes>, mtime: u32)
    requires |info| < 0x1_0000_0000 && forall c | c in chunks :: |c| < 0x1_0000_0000
    ensures Written(PushUnits(info, chunks, mtime), UnitBytes) ==
            Ascii("SEND") + Word(|info|) + info + DataPackets(chunks) + (Ascii("DONE") + Word(mtime))
  {
    var send, done := Whole(SEND, info), Unit(DONE, mtime, []);
    var data := DataUnits(chunks);
    IdLetters(SEND);
    IdLetters(DONE);
    UnitBytesAre(send);
    UnitBytesAre(done);
    DataBytes(chunks);
    WrittenOne(send, UnitBytes);
    WrittenAppend([send], data, UnitBytes);
    WrittenSnoc([send] + data, done, UnitBytes);
    assert UnitBytes(done) == Ascii("DONE") + Word(mtime);
  }

  /** The lesser of 64 KiB and half the maximum, and 2 KiB if that is nothing. */
  lemma MaxChunkIs(maxdata: nat)
    ensures var n := MaxChunkSize(maxdata);
            if maxdata < 2 then n == 2048 else n == maxdata / 2 || (n == 65536 && maxdata >= 131072)
    ensures maxdata >= 2 ==> MaxChunkSize(maxdata) <= 65536 && 2 * MaxChunkSize(maxdata) <= maxdata
  {
  }

  /** A DATA packet of a full chunk is below the maximum exactly when the maximum is at least 17. */
  lemma ChunkFits(maxdata: nat)
    ensures 8 + MaxChunkSize(maxdata) < maxdata <==> maxdata >= 17
  {
  }

  /** What a push of `file` over a connection with maximum `maxdata` does to the send buffer. */
  function PushPlan(info: bytes, file: bytes, mtime: u32, maxdata: nat): seq<BufferOp>
    requires |info| < 0x1_0000_0000
  {
    PushOps(info, Chunks(file, MaxChunkSize(maxdata)), mtime)
  }

  /** What is sent next of a file of which `left` is left. */
  function NextChunk(left: bytes, n: nat): bytes
  {
    if |left| <= n then left else left[..n]
  }

  /** A push has done `ops` and has `left` of the file left. */
  ghost predicate Underway(info: bytes, file: bytes, mtime: u32, maxdata: nat, ops: seq<BufferOp>, left: bytes)
    requires |info| < 0x1_0000_0000
  {
    var chunks := Chunks(file, MaxChunkSize(maxdata));
    && ops <= PushPlan(info, file, mtime, maxdata)
    && 1 <= |ops| <= |chunks| + 1
    && Chunks(left, MaxChunkSize(maxdata)) == chunks[|ops| - 1..]
  }

  lemma NextChunkIs(chunks: seq<bytes>, left: bytes, n: nat, done: nat)
    requires n > 0 && done <= |chunks| && Chunks(left, n) == chunks[done..]
    ensures var data := NextChunk(left, n);
            if data == [] then done == |chunks|
            else
              && done < |chunks| && chunks[done] == data
              && |left[|data|..]| < |left| && Chunks(left[|data|..], n) == chunks[done + 1..]
  {
    if left != [] {
      assert chunks[done..][0] == NextChunk(left, n);
      assert chunks[done..][1..] == chunks[done + 1..];
    }
  }

  lemma UnderwayNext(info: bytes, file: bytes, mtime: u32, maxdata: nat, ops: seq<BufferOp>, left: bytes)
    requires |info| < 0x1_0000_0000 && Underway(info, file, mtime, maxdata, ops, left)
    ensures var plan, data := PushPlan(info, file, mtime, maxdata), NextChunk(left, MaxChunkSize(maxdata));
            && |data| < 0x1_0000_0000
            && |plan| >= 2
            && if data == [] then ops == plan[..|plan| - 2]
               else
                 var ops', left' := ops + [Add(Whole(DATA, data))], left[|data|..];
                 |left'| < |left| && ops' <= plan && Underway(info, file, mtime, maxdata, ops', left')
  {
    var chunks := Chunks(file, MaxChunkSize(maxdata));
    var plan := PushPlan(info, file, mtime, maxdata);
    NextChunkIs(chunks, left, MaxChunkSize(maxdata), |ops| - 1);
    PushOpAt(info, chunks, mtime, |ops| - 1);
    assert ops == plan[..|ops|];
  }

  /** The WRTEs of a whole push carry its packets, and nothing is left in the buffer. */
  lemma PushedUnits(info: bytes, file: bytes, mtime: u32, maxdata: nat)
    requires |info| < 0x1_0000_0000
    ensures var c := CutUp(2, maxdata, PushPlan(info, file, mtime, maxdata));
            && c.pending == []
            && Join(c.out) == Written(PushUnits(info, Chunks(file, MaxChunkSize(maxdata)), mtime), UnitBytes)
  {
    var units := PushUnits(info, Chunks(file, MaxChunkSize(maxdata)), mtime);
    var c := CutUp(2, maxdata, PushPlan(info, file, mtime, maxdata));
    NothingLost(2, maxdata, PushPlan(info, file, mtime, maxdata));
    UnitsOf(units);
    CutSnoc(2, maxdata, Adds(units), Flush);
    assert Join(c.out) + [] == Join(c.out);
  }

  /** What the WRTEs of a whole push carry: the request, as the device reads it. */
  lemma PushedBytes(info: bytes, file: bytes, mtime: u32, maxdata: nat)
    requires |info| < 0x1_0000_0000
    ensures var chunks := Chunks(file, MaxChunkSize(maxdata));
            && Join(chunks) == file
            && ParsePush(Join(CutUp(2, maxdata, PushPlan(info, file, mtime, maxdata)).out))
               == Some(PushRequest(info, chunks, mtime))
            && CutUp(2, maxdata, PushPlan(info, file, mtime, maxdata)).pending == []
  {
    var chunks := Chunks(file, MaxChunkSize(maxdata));
    ChunksAre(file, MaxChunkSize(maxdata));
    PushedUnits(info, file, mtime, maxdata);
    PushRoundTrip(info, chunks, mtime);
  }

  lemma {:induction false} DataUnitsSmall(chunks: seq<bytes>, maxdata: nat)
    requires forall c | c in chunks :: |c| < 0x1_0000_0000 && 8 + |c| < maxdata
    ensures forall u | u in DataUnits(chunks) :: 8 + |u.data| < maxdata
  {
    if chunks != [] {
      DataUnitsSmall(chunks[1..], maxdata);
    }
  }

  lemma PushOpsSmall(info: bytes, file: bytes, mtime: u32, maxdata: nat)
    requires |info| < 0x1_0000_0000 && maxdata >= 17
    ensures var chunks := Chunks(file, MaxChunkSize(maxdata));
            ((forall op | op in PushPlan(info, file, mtime, maxdata) :: Small(maxdata, op)) <==> 8 + |info| < maxdata)
  {
    var chunks := Chunks(file, MaxChunkSize(maxdata));
    ChunksAre(file, MaxChunkSize(maxdata));
    ChunkFits(maxdata);
    DataUnitsSmall(chunks, maxdata);
    var units, ops := PushUnits(info, chunks, mtime), PushPlan(info, file, mtime, maxdata);
    assert ops[0] == Add(Whole(SEND, info)) && ops[0] in ops;
    forall op | op in ops && 8 + |info| < maxdata
      ensures Small(maxdata, op)
    {
      if op.Add? {
        var i :| 0 <= i < |ops| && ops[i] == op;
        assert units[i] == op.u && op.u in units;
        assert op.u in DataUnits(chunks) || op.u == Whole(SEND, info) || op.u == Unit(DONE, mtime, []);
      }
    }
  }

  /**
   On any connection with a maximum of at least 17, every WRTE of a push is below the maximum exactly
   when the path leaves room for it; otherwise some WRTE is too long, and an empty one is sent.
   */
  lemma PushWriteSizes(info: bytes, file: bytes, mtime: u32, maxdata: nat)
    requires |info| < 0x1_0000_0000 && maxdata >= 17
    ensures var chunks := Chunks(file, MaxChunkSize(maxdata));
            var out := CutUp(2, maxdata, PushPlan(info, file, mtime, maxdata)).out;
               && ((forall p | p in out :: |p| < maxdata) <==> 8 + |info| < maxdata)
               && ([] in out <==> 8 + |info| >= maxdata)
  {
    var chunks := Chunks(file, MaxChunkSize(maxdata));
    PushOpsSmall(info, file, mtime, maxdata);
    PushedBytes(info, file, mtime, maxdata);
    SendBufferBound(2, maxdata, PushPlan(info, file, mtime, maxdata));
    var adds := Adds(PushUnits(info, chunks, mtime));
    assert adds[0] == Add(Whole(SEND, info));
    EmptyWrite(2, maxdata, adds);
    assert Overflows(2, maxdata, adds, 0) <==> 8 + |info| >= maxdata;
    CutSnoc(2, maxdata, adds, Flush);
  }

  // ---- The file information of SEND: the path, a comma, and the mode in decimal

  const COMMA: byte := ',' as int

  function Digits(n: nat): (s: bytes)
    ensures COMMA !in s && s != []
  {
    (if n < 10 then [] else Digits(n / 10)) + [n % 10 + '0' as int]
  }

  function Value(s: bytes): int {
    if s == [] then 0 else Value(s[..|s| - 1]) * 10 + s[|s| - 1] as int - '0' as int
  }

  function FileInfo(path: bytes, mode: nat): bytes {
    path + [COMMA] + Digits(mode)
  }

  /** The digits are decimal ones, with no zero in front, and the last is the mode modulo ten. */
  lemma {:induction false} DigitsAre(n: nat)
    ensures forall d | d in Digits(n) :: '0' as int <= d <= '9' as int
    ensures n > 0 ==> Digits(n)[0] != '0' as int
    ensures Digits(n)[|Digits(n)| - 1] == '0' as int + n % 10
    ensures if n < 10 then |Digits(n)| == 1 else Digits(n)[..|Digits(n)| - 1] == Digits(n / 10)
  {
    if n >= 10 {
      DigitsAre(n / 10);
    }
  }

  /** The path, a comma, the mode in decimal. */
  lemma FileInfoIs(path: bytes, mode: nat)
    ensures FileInfo(path, mode) == path + Ascii(",") + Digits(mode)
    ensures mode < 10 ==> FileInfo(path, mode) == path + Ascii(",") + ['0' as int + mode]
  {
    if mode < 10 {
      DigitsAre(mode);
      assert Digits(mode) == ['0' as int + mode];
    }
  }

  /** How a device splits it: at the last comma. */
  function SplitInfo(s: bytes): Option<(bytes, int)> {
    match LastComma(s)
    case None => None
    case Some(i) => Some((s[..i], Value(s[i + 1..])))
  }

  function LastComma(s: bytes): (r: Option<nat>)
    ensures r.Some? ==> r.value < |s|
  {
    if s == [] then None else if s[|s| - 1] == COMMA then Some(|s| - 1) else LastComma(s[..|s| - 1])
  }

  lemma ValueSnoc(s: bytes, d: byte)
    ensures Value(s + [d]) == Value(s) * 10 + d - '0' as int
  {
    assert (s + [d])[..|s|] == s;
  }

  lemma {:induction false} DigitsValue(n: nat)
    ensures Value(Digits(n)) == n
  {
    var d: byte := n % 10 + '0' as int;
    if n < 10 {
      assert Digits(n) == [] + [d];
      ValueSnoc([], d);
    } else {
      DigitsValue(n / 10);
      ValueSnoc(Digits(n / 10), d);
    }
  }

  lemma {:induction false} CommaBefore(path: bytes, digits: bytes)
    requires COMMA !in digits
    ensures LastComma(path + [COMMA] + digits) == Some(|path|)
  {
    var s := path + [COMMA] + digits;
    if digits == [] {
    } else {
      CommaBefore(path, digits[..|digits| - 1]);
      assert s[..|s| - 1] == path + [COMMA] + digits[..|digits| - 1];
      assert s[|s| - 1] == digits[|digits| - 1];
    }
  }

  /** Any path, with commas in it or not, and any mode. */
  lemma FileInfoRoundTrip(path: bytes, mode: nat)
    ensures SplitInfo(FileInfo(path, mode)) == Some((path, mode as int))
  {
    var s := FileInfo(path, mode);
    CommaBefore(path, Digits(mode));
    assert s[..|path|] == path && s[|path| + 1..] == Digits(mode);
    DigitsValue(mode);
  }
}
