/** ADB packets and their wire form: a header of six little-endian words, then the data. */
module AdbMessage {
  import opened Bytes

  /** The commands `_read_packet_from_device` recognises (constants.IDS). */
  datatype Cmd = AUTH | CLSE | CNXN | OKAY | OPEN | STLS | SYNC | WRTE

  datatype Message = Message(cmd: Cmd, arg0: u32, arg1: u32, data: bytes)

  datatype Header = Header(cmd: u32, arg0: u32, arg1: u32, length: u32, checksum: u32)

  const HEADER_SIZE: nat := 24

  function ToWire(c: Cmd): u32 {
    match c
    case AUTH => Letters('A', 'U', 'T', 'H')
    case CLSE => Letters('C', 'L', 'S', 'E')
    case CNXN => Letters('C', 'N', 'X', 'N')
    case OKAY => Letters('O', 'K', 'A', 'Y')
    case OPEN => Letters('O', 'P', 'E', 'N')
    case STLS => Letters('S', 'T', 'L', 'S')
    case SYNC => Letters('S', 'Y', 'N', 'C')
    case WRTE => Letters('W', 'R', 'T', 'E')
  }

  /** WIRE_TO_ID.get */
  function FromWire(n: u32): Option<Cmd> {
    if n == ToWire(AUTH) then Some(AUTH)
    else if n == ToWire(CLSE) then Some(CLSE)
    else if n == ToWire(CNXN) then Some(CNXN)
    else if n == ToWire(OKAY) then Some(OKAY)
    else if n == ToWire(OPEN) then Some(OPEN)
    else if n == ToWire(STLS) then Some(STLS)
    else if n == ToWire(SYNC) then Some(SYNC)
    else if n == ToWire(WRTE) then Some(WRTE)
    else None
  }

  function Sum(data: bytes): nat {
    if data == [] then 0 else data[0] + Sum(data[1..])
  }

  function Checksum(data: bytes): u32 {
    Sum(data) % 0x1_0000_0000
  }

  /** command ^ 0xFFFFFFFF: on 32 bits, xor with all ones is the complement. */
  function Magic(command: u32): u32 {
    0xFFFF_FFFF - command
  }

  predicate Encodable(m: Message) {
    |m.data| < 0x1_0000_0000
  }

  function Pack(m: Message): (h: bytes)
    requires Encodable(m)
    ensures |h| == HEADER_SIZE
  {
    PackWords([ToWire(m.cmd), m.arg0, m.arg1, |m.data|, Checksum(m.data), Magic(ToWire(m.cmd))])
  }

  /** None is the ValueError for a wrong length; the magic word is read and ignored. */
  function Unpack(h: bytes): (r: Option<Header>)
    ensures r.Some? <==> |h| == HEADER_SIZE
  {
    if |h| != HEADER_SIZE then None
    else
      var w := UnpackWords(h);
      Some(Header(w[0], w[1], w[2], w[3], w[4]))
  }

  lemma CommandRoundTrip(c: Cmd)
    ensures FromWire(ToWire(c)) == Some(c)
  {
  }

  /** Exactly the eight known words decode, each to the command whose letters it spells. */
  lemma CommandInverse(n: u32)
    ensures forall c :: FromWire(n) == Some(c) <==> n == ToWire(c)
  {
  }

  lemma HeaderRoundTrip(m: Message)
    requires Encodable(m)
    ensures Unpack(Pack(m)) == Some(Header(ToWire(m.cmd), m.arg0, m.arg1, |m.data|, Checksum(m.data)))
  {
    WordsRoundTrip([ToWire(m.cmd), m.arg0, m.arg1, |m.data|, Checksum(m.data), Magic(ToWire(m.cmd))]);
  }

  lemma {:induction false} SumAppend(a: bytes, b: bytes)
    ensures Sum(a + b) == Sum(a) + Sum(b)
  {
    if a == [] {
      assert a + b == b;
    } else {
      assert (a + b)[1..] == a[1..] + b;
      SumAppend(a[1..], b);
    }
  }

  /** The checksum is the sum of all bytes, on 32 bits. */
  lemma ChecksumIsSum(a: bytes, x: byte, b: bytes)
    ensures Checksum([]) == 0 && Checksum([x]) == x
    ensures Checksum(a + b) == (Checksum(a) + Checksum(b)) % 0x1_0000_0000
  {
    SumAppend(a, b);
    ModAdd(Sum(a), Sum(b));
    assert [x][1..] == [] && Sum([x]) == x;
  }

  lemma ModAdd(a: nat, b: nat)
    ensures (a + b) % 0x1_0000_0000 == (a % 0x1_0000_0000 + b % 0x1_0000_0000) % 0x1_0000_0000
  {
  }

  /** Everything `_send` writes for one message. */
  function Encode(m: Message): bytes
    requires Encodable(m)
  {
    Pack(m) + m.data
  }

  lemma CommandLetters(c: Cmd)
    ensures Word(ToWire(c)) == match c
                               case AUTH => Ascii("AUTH")
                               case CLSE => Ascii("CLSE")
                               case CNXN => Ascii("CNXN")
                               case OKAY => Ascii("OKAY")
                               case OPEN => Ascii("OPEN")
                               case STLS => Ascii("STLS")
                               case SYNC => Ascii("SYNC")
                               case WRTE => Ascii("WRTE")
  {
    match c
    case AUTH => LettersAscii('A', 'U', 'T', 'H');
    case CLSE => LettersAscii('C', 'L', 'S', 'E');
    case CNXN => LettersAscii('C', 'N', 'X', 'N');
    case OKAY => LettersAscii('O', 'K', 'A', 'Y');
    case OPEN => LettersAscii('O', 'P', 'E', 'N');
    case STLS => LettersAscii('S', 'T', 'L', 'S');
    case SYNC => LettersAscii('S', 'Y', 'N', 'C');
    case WRTE => LettersAscii('W', 'R', 'T', 'E');
  }

  /**
   Byte by byte: the letters of the command, the two arguments, the length and the checksum of the data, a last word
   that with the first makes 2^32 - 1, and the data.
   */
  lemma EncodedBytes(m: Message)
    requires Encodable(m)
    ensures var s := Encode(m);
            && |s| == 24 + |m.data|
            && s[..4] == (match m.cmd
                          case AUTH => Ascii("AUTH")
                          case CLSE => Ascii("CLSE")
                          case CNXN => Ascii("CNXN")
                          case OKAY => Ascii("OKAY")
                          case OPEN => Ascii("OPEN")
                          case STLS => Ascii("STLS")
                          case SYNC => Ascii("SYNC")
                          case WRTE => Ascii("WRTE"))
            && s[4..8] == Word(m.arg0) && s[8..12] == Word(m.arg1)
            && s[12..16] == Word(|m.data|) && s[16..20] == Word(Checksum(m.data))
            && (forall i | 0 <= i < 4 :: s[i] as int + s[20 + i] as int == 0xFF)
            && s[24..] == m.data
  {
    var w := [ToWire(m.cmd), m.arg0, m.arg1, |m.data|, Checksum(m.data), Magic(ToWire(m.cmd))];
    CommandLetters(m.cmd);
    SixWords(w);
    Complement(ToWire(m.cmd));
  }

  lemma SixWords(w: seq<u32>)
    requires |w| == 6
    ensures PackWords(w) == Word(w[0]) + Word(w[1]) + Word(w[2]) + Word(w[3]) + Word(w[4]) + Word(w[5])
  {
    assert w[5..][1..] == [];
    assert PackWords(w[5..]) == Word(w[5]);
    assert PackWords(w[4..]) == Word(w[4]) + PackWords(w[5..]) by { assert w[4..][1..] == w[5..]; }
    assert PackWords(w[3..]) == Word(w[3]) + PackWords(w[4..]) by { assert w[3..][1..] == w[4..]; }
    assert PackWords(w[2..]) == Word(w[2]) + PackWords(w[3..]) by { assert w[2..][1..] == w[3..]; }
    assert PackWords(w[1..]) == Word(w[1]) + PackWords(w[2..]) by { assert w[1..][1..] == w[2..]; }
  }

  lemma Complement(n: u32)
    ensures forall i | 0 <= i < 4 :: Word(n)[i] as int + Word(Magic(n))[i] as int == 0xFF
  {
    var s := Word(n);
    var t: bytes := [0xFF - s[0], 0xFF - s[1], 0xFF - s[2], 0xFF - s[3]];
    WordIs(n);
    assert UnWord(t) == Magic(n);
    UnWordRoundTrip(t);
  }

  /** What the peer has been sent after `_send` of each message in turn. */
  function EncodeAll(ms: seq<Message>): bytes
    requires forall m | m in ms :: Encodable(m)
  {
    Written(ms, Encode)
  }
}
