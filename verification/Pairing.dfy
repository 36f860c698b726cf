/**
 Wi-Fi pairing: the packets, the counters behind the nonces, and the exchange of two parties.  The
 cryptography is a parameter with the laws of an ideal one.
 */
module Pairing {
  import opened Bytes

  const PEER_INFO_SIZE: nat := 8192
  const MAX_PAYLOAD_SIZE: nat := 16384
  const HEADER_SIZE: nat := 6
  const HEADER_VERSION: byte := 1
  const SPAKE2_MSG: byte := 0
  const PEER_INFO: byte := 1
  const TAG_SIZE: nat := 16

  const TLS_EXPORTER_LENGTH: nat := 64

  datatype Error = NoKeyingMaterial | Short | BadVersion | BadSize | BadType
    | SpakeFailed | NotReady | Repeated | Exhausted | BadTag | BadInfo

  // ---- PeerInfo

  datatype PeerInfo = PeerInfo(kind: byte, data: bytes)

  predicate Proper(p: PeerInfo) {
    |p.data| < PEER_INFO_SIZE
  }

  function Zeros(n: nat): (s: bytes)
    ensures |s| == n && forall i | 0 <= i < n :: s[i] == 0
  {
    seq(n, _ => 0)
  }

  function Pack(p: PeerInfo): (s: bytes)
    requires Proper(p)
    ensures |s| == PEER_INFO_SIZE
  {
    [p.kind] + p.data + Zeros(PEER_INFO_SIZE - 1 - |p.data|)
  }

  /** rstrip(b'\x00') */
  function Strip(s: bytes): (r: bytes)
    ensures r <= s && (r != [] ==> r[|r| - 1] != 0)
    ensures forall i | |r| <= i < |s| :: s[i] == 0
  {
    if s != [] && s[|s| - 1] == 0 then Strip(s[..|s| - 1]) else s
  }

  function Unpack(blob: bytes): (r: Option<PeerInfo>)
    ensures r.Some? <==> |blob| == PEER_INFO_SIZE
    ensures r.Some? ==> Proper(r.value)
  {
    if |blob| != PEER_INFO_SIZE then None else Some(PeerInfo(blob[0], Strip(blob[1..])))
  }

  /** The kind, the data, and zeros up to 8192 bytes. */
  lemma PackedInfo(p: PeerInfo)
    requires Proper(p)
    ensures var s, n := Pack(p), |p.data|;
            && |s| == 8192 && s[0] == p.kind && s[1..n + 1] == p.data
            && forall i | n + 1 <= i < 8192 :: s[i] == 0
  {
  }

  /** Every blob is what its peer info packs to. */
  lemma BlobRoundTrip(blob: bytes)
    requires |blob| == PEER_INFO_SIZE
    ensures Pack(Unpack(blob).value) == blob
  {
    var data := Strip(blob[1..]);
    var padding := Zeros(PEER_INFO_SIZE - 1 - |data|);
    assert blob[1..] == data + padding;
    assert blob == [blob[0]] + blob[1..];
    assert [blob[0]] + data + padding == [blob[0]] + (data + padding);
  }

  lemma {:induction false} StripZeros(s: bytes, n: nat)
    ensures Strip(s + Zeros(n)) == Strip(s)
  {
    var t := s + Zeros(n);
    if n == 0 {
      assert t == s;
    } else {
      StripZeros(s, n - 1);
      assert Zeros(n)[..n - 1] == Zeros(n - 1);
      assert t[..|t| - 1] == s + Zeros(n - 1) && t[|t| - 1] == 0;
    }
  }

  /** Packing loses the trailing zeros of the data, and nothing else: it is undone exactly when there are none. */
  lemma InfoRoundTrip(p: PeerInfo)
    requires Proper(p)
    ensures Unpack(Pack(p)) == Some(PeerInfo(p.kind, Strip(p.data)))
    ensures Unpack(Pack(p)) == Some(p) <==> (p.data == [] || p.data[|p.data| - 1] != 0)
  {
    StripZeros(p.data, PEER_INFO_SIZE - 1 - |p.data|);
    assert Pack(p)[1..] == p.data + Zeros(PEER_INFO_SIZE - 1 - |p.data|);
  }

  // ---- Packet headers

  /** '>BBI' */
  function PackHeader(kind: byte, size: u32): (h: bytes)
    ensures |h| == HEADER_SIZE
  {
    var w := Word(size);
    [HEADER_VERSION, kind, w[3], w[2], w[1], w[0]]
  }

  function UnpackHeader(h: bytes): Result<(byte, u32), Error> {
    if |h| != HEADER_SIZE then Err(Short)
    else
      var size := UnWord([h[5], h[4], h[3], h[2]]);
      if h[0] != HEADER_VERSION then Err(BadVersion)
      else if size == 0 || size > MAX_PAYLOAD_SIZE then Err(BadSize)
      else Ok((h[1], size))
  }

  /** The version, the kind, and the size, the most significant byte first. */
  lemma HeaderBytes(kind: byte, size: u32)
    ensures var h := PackHeader(kind, size);
            && |h| == 6 && h[0] == 1 && h[1] == kind
            && 0x100_0000 * (h[2] as int) + 0x1_0000 * (h[3] as int) + 0x100 * (h[4] as int) + h[5] as int == size
  {
    WordIs(size);
  }

  /** What six bytes are taken for. */
  lemma HeaderJudged(version: byte, kind: byte, size: u32)
    ensures var h := [version] + PackHeader(kind, size)[1..];
            UnpackHeader(h) ==
              if version != 1 then Err(BadVersion)
              else if size == 0 || size > 16384 then Err(BadSize)
              else Ok((kind, size))
  {
    var w, h := Word(size), [version] + PackHeader(kind, size)[1..];
    assert [h[5], h[4], h[3], h[2]] == w;
    WordRoundTrip(size);
  }

  /** Headers are read back exactly for the sizes from 1 to the maximum. */
  lemma HeaderRoundTrip(kind: byte, size: u32)
    ensures UnpackHeader(PackHeader(kind, size)) ==
            if 1 <= size <= MAX_PAYLOAD_SIZE then Ok((kind, size)) else Err(BadSize)
  {
    var w, h := Word(size), PackHeader(kind, size);
    assert [h[5], h[4], h[3], h[2]] == w;
    WordRoundTrip(size);
  }

  /** And no other bytes are read as a header. */
  lemma HeaderInverse(h: bytes)
    requires UnpackHeader(h).Ok?
    ensures PackHeader(UnpackHeader(h).value.0, UnpackHeader(h).value.1) == h
  {
    UnWordRoundTrip([h[5], h[4], h[3], h[2]]);
  }

  // ---- Nonces

  const SEQUENCES: nat := 0x1_0000_0000_0000_0000

  function Nonce(sequence: nat): (n: bytes)
    ensures |n| == 12
  {
    ToLE(sequence, 8) + Zeros(4)
  }

  /** The number in eight bytes, the least significant first, and four zeros. */
  lemma NonceBytes(i: nat)
    requires i < 0x1_0000_0000_0000_0000
    ensures |Nonce(i)| == 12 && FromLE(Nonce(i)[..8]) == i && Nonce(i)[8..] == [0, 0, 0, 0]
    ensures Nonce(0) == [0, 0, 0, 0, 0, 0, 0, 0, 0, 0, 0, 0]
  {
    assert Pow256(8) == SEQUENCES by {
      assert Pow256(4) == 0x1_0000_0000;
    }
    FromToLE(i, 8);
    assert Nonce(i)[..8] == ToLE(i, 8);
    ZeroLE(8);
  }

  lemma {:induction false} ZeroLE(width: nat)
    ensures ToLE(0, width) == Zeros(width)
  {
    if width > 0 {
      ZeroLE(width - 1);
      assert Zeros(width) == [0] + Zeros(width - 1);
    }
  }

  /** Below 2^64 no nonce comes twice. */
  lemma NoncesDiffer(i: nat, j: nat)
    requires i < SEQUENCES && j < SEQUENCES && i != j
    ensures Nonce(i) != Nonce(j)
  {
    assert Pow256(8) == SEQUENCES by {
      assert Pow256(4) == 0x1_0000_0000;
    }
    FromToLE(i, 8);
    FromToLE(j, 8);
    assert Nonce(i)[..8] == ToLE(i, 8) && Nonce(j)[..8] == ToLE(j, 8);
  }

  // ---- The cryptography

  datatype Role = Client | Server

  datatype Suite = Suite(
    message: (Role, bytes, nat) -> bytes,              // the SPAKE2 message of a role, for a password and a secret
    agree: (Role, bytes, nat, bytes) -> Option<bytes>, // the key it derives from the other's message
    seal: (bytes, bytes, bytes) -> bytes,              // AES-GCM: key, nonce, plaintext
    unseal: (bytes, bytes, bytes) -> Option<bytes>)

  predicate IsKey(key: bytes) {
    |key| == 16
  }

  /** What is asked of the cryptography: the key and the nonce open what they sealed, and no other key does. */
  ghost predicate Ideal(s: Suite) {
    && (forall role, password, secret :: 1 <= |s.message(role, password, secret)| <= MAX_PAYLOAD_SIZE)
    && (forall role, password, secret, msg ::
          s.agree(role, password, secret, msg).Some?
          ==> IsKey(s.agree(role, password, secret, msg).value))
    && (forall key, nonce, text | IsKey(key) :: |s.seal(key, nonce, text)| == |text| + TAG_SIZE)
    && (forall key, nonce, text | IsKey(key) :: s.unseal(key, nonce, s.seal(key, nonce, text)) == Some(text))
    && (forall key, other, nonce, text | IsKey(key) && IsKey(other) && key != other ::
          s.unseal(other, nonce, s.seal(key, nonce, text)).None?)
  }

  /** That is not asking the impossible. */
  lemma IdealExists(key: bytes) returns (s: Suite)
    requires IsKey(key)
    ensures Ideal(s)
    ensures forall r, p, n, m :: s.agree(r, p, n, m) == Some(key)
  {
    s := Suite(
      (role: Role, password: bytes, secret: nat) => [0],
      (role: Role, password: bytes, secret: nat, msg: bytes) => Some(key),
      (k: bytes, nonce: bytes, text: bytes) => k + text,
      (k: bytes, nonce: bytes, sealed: bytes) => if k <= sealed then Some(sealed[|k|..]) else None);
    forall k, other, nonce, text: bytes | IsKey(k) && IsKey(other)
      ensures s.unseal(other, nonce, s.seal(k, nonce, text)) == if other == k then Some(text) else None
    {
      assert (k + text)[..16] == k && (k + text)[16..] == text;
    }
  }

  /** `PairingAuthCtx` */
  class AuthCtx {
    const suite: Suite
    const role: Role
    const password: bytes
    const secret: nat
    var key: Option<bytes>
    var encSequence: nat
    var decSequence: nat
    ghost var nonces: seq<bytes> // those encrypted with

    /** No nonce has been used twice. */
    ghost predicate Valid()
      reads this
    {
      && |nonces| == encSequence <= SEQUENCES
      && (forall i | 0 <= i < |nonces| :: nonces[i] == Nonce(i))
      && (forall i, j | 0 <= i < j < |nonces| :: nonces[i] != nonces[j])
    }

    constructor (s: Suite, r: Role, pw: bytes, x: nat)
      ensures Valid() && suite == s && role == r && password == pw && secret == x
      ensures key.None? && encSequence == decSequence == 0
    {
      suite, role, password, secret := s, r, pw, x;
      key, encSequence, decSequence, nonces := None, 0, 0, [];
    }

    /** `init_cipher` */
    method InitCipher(theirMsg: bytes) returns (r: Result<bool, Error>)
      requires Valid()
      modifies this`key
      ensures Valid()
      ensures r == if theirMsg == [] then Err(Short) else if old(key).Some? then Err(Repeated)
                   else Ok(suite.agree(role, password, secret, theirMsg).Some?)
      ensures key == if r == Ok(true) then suite.agree(role, password, secret, theirMsg) else old(key)
    {
      if theirMsg == [] {
        return Err(Short);
      }
      if key.Some? {
        return Err(Repeated);
      }
      var material := suite.agree(role, password, secret, theirMsg);
      if material.None? {
        return Ok(false);
      }
      key := material;
      return Ok(true);
    }

    /** `encrypt`; packing the nonce fails once the sequence numbers have run out. */
    method Encrypt(plaintext: bytes) returns (r: Result<bytes, Error>)
      requires Valid()
      modifies this`encSequence, this`nonces
      ensures Valid()
      ensures r == if key.None? then Err(NotReady) else if old(encSequence) >= SEQUENCES then Err(Exhausted)
                   else Ok(suite.seal(key.value, Nonce(old(encSequence)), plaintext))
      ensures nonces == if r.Ok? then old(nonces) + [Nonce(old(encSequence))] else old(nonces)
    {
      if key.None? {
        return Err(NotReady);
      }
      if encSequence >= SEQUENCES {
        return Err(Exhausted);
      }
      forall i | 0 <= i < |nonces| ensures nonces[i] != Nonce(encSequence) {
        NoncesDiffer(i, encSequence);
      }
      var nonce := Nonce(encSequence);
      nonces, encSequence := nonces + [nonce], encSequence + 1;
      return Ok(suite.seal(key.value, nonce, plaintext));
    }

    /** `decrypt`; the counter moves on only when the tag is right. */
    method Decrypt(ciphertext: bytes) returns (r: Result<bytes, Error>)
      requires Valid()
      modifies this`decSequence
      ensures Valid()
      ensures if key.None? then r == Err(NotReady) else if old(decSequence) >= SEQUENCES then r == Err(Exhausted)
              else
                var text := suite.unseal(key.value, Nonce(old(decSequence)), ciphertext);
                r == if text.Some? then Ok(text.value) else Err(BadTag)
      ensures decSequence == if r.Ok? then old(decSequence) + 1 else old(decSequence)
    {
      if key.None? {
        return Err(NotReady);
      }
      if decSequence >= SEQUENCES {
        return Err(Exhausted);
      }
      var text := suite.unseal(key.value, Nonce(decSequence), ciphertext);
      if text.None? {
        return Err(BadTag);
      }
      decSequence := decSequence + 1;
      return Ok(text.value);
    }
  }

  // ---- The exchange, as a function of what comes in

  /** A packet as it is sent. */
  function PacketBytes(kind: byte, payload: bytes): (s: bytes)
    requires |payload| < 0x1_0000_0000
  {
    PackHeader(kind, |payload|) + payload
  }

  /** A packet of the kind that is due, off the front of what comes in; and the rest. */
  function Receive(kind: byte, incoming: bytes): (r: (Result<bytes, Error>, bytes)) {
    if |incoming| < HEADER_SIZE then (Err(Short), [])
    else
      var rest := incoming[HEADER_SIZE..];
      match UnpackHeader(incoming[..HEADER_SIZE])
      case Err(e) => (Err(e), rest)
      case Ok((k, size)) =>
        if k != kind then (Err(BadType), rest)
        else if |rest| < size then (Err(Short), [])
        else (Ok(rest[..size]), rest[size..])
  }

  lemma ReceivePacket(kind: byte, payload: bytes, tail: bytes)
    requires 1 <= |payload| <= MAX_PAYLOAD_SIZE
    ensures Receive(kind, PacketBytes(kind, payload) + tail) == (Ok(payload), tail)
  {
    var all := PacketBytes(kind, payload) + tail;
    HeaderRoundTrip(kind, |payload|);
    assert all[..HEADER_SIZE] == PackHeader(kind, |payload|);
    assert all[HEADER_SIZE..] == payload + tail;
    assert (payload + tail)[..|payload|] == payload && (payload + tail)[|payload|..] == tail;
  }

  /** What comes in is taken for: a header that is refused, a packet of another kind, or one that is cut short. */
  lemma ReceiveFails(kind: byte, incoming: bytes)
    ensures |incoming| < 6 ==> Receive(kind, incoming).0 == Err(Short)
    ensures |incoming| >= 6 ==>
              match UnpackHeader(incoming[..6])
              case Err(e) => Receive(kind, incoming).0 == Err(e)
              case Ok((k, size)) =>
                && (k != kind ==> Receive(kind, incoming).0 == Err(BadType))
                && (k == kind && |incoming| < 6 + size ==> Receive(kind, incoming).0 == Err(Short))
  {
  }

  /** What one party knows at the start. */
  datatype Party = Party(role: Role, password: bytes, secret: nat, info: PeerInfo)

  function Spoken(s: Suite, p: Party): bytes {
    s.message(p.role, p.password, p.secret)
  }

  /** The peer info of a party as it goes out. */
  function Sealed(s: Suite, p: Party, key: bytes): bytes
    requires Proper(p.info)
  {
    s.seal(key, Nonce(0), Pack(p.info))
  }

  /** What a party sends, and what it ends with, given all that comes in. */
  ghost function Session(s: Suite, p: Party, incoming: bytes): (bytes, Result<PeerInfo, Error>)
    requires Ideal(s) && Proper(p.info)
  {
    var hello := PacketBytes(SPAKE2_MSG, Spoken(s, p));
    var (theirs, rest) := Receive(SPAKE2_MSG, incoming);
    if theirs.Err? then (hello, Err(theirs.error))
    else
      match s.agree(p.role, p.password, p.secret, theirs.value)
      case None => (hello, Err(SpakeFailed))
      case Some(key) => (hello + PacketBytes(PEER_INFO, Sealed(s, p, key)), Ending(s, key, Receive(PEER_INFO, rest).0))
  }

  function Ending(s: Suite, key: bytes, sealed: Result<bytes, Error>): Result<PeerInfo, Error> {
    match sealed
    case Err(e) => Err(e)
    case Ok(text) =>
      match s.unseal(key, Nonce(0), text)
      case None => Err(BadTag)
      case Some(blob) => if Unpack(blob).None? then Err(BadInfo) else Ok(Unpack(blob).value)
  }

  /**
   Byte by byte: a party sends its message in a packet of kind 0; if it derives a key from the message that comes
   in such a packet, it sends its peer info sealed, with a nonce of zeros, in a packet of kind 1; and it ends
   with what it unseals of the packet of that kind that comes then.
   */
  lemma SessionRuns(s: Suite, p: Party, theirs: bytes, text: bytes, tail: bytes)
    requires Ideal(s) && Proper(p.info) && 1 <= |theirs| <= 16384 && 1 <= |text| <= 16384
    ensures var zero: bytes := [0, 0, 0, 0, 0, 0, 0, 0, 0, 0, 0, 0];
            var incoming := PackHeader(0, |theirs|) + theirs + (PackHeader(1, |text|) + text + tail);
            var message := s.message(p.role, p.password, p.secret);
            var (out, end) := Session(s, p, incoming);
            match s.agree(p.role, p.password, p.secret, theirs)
            case None => out == PackHeader(0, |message|) + message && end == Err(SpakeFailed)
            case Some(key) =>
              var sealed := s.seal(key, zero, Pack(p.info));
              && out == PackHeader(0, |message|) + message + (PackHeader(1, |sealed|) + sealed)
              && end == match s.unseal(key, zero, text)
                        case None => Err(BadTag)
                        case Some(blob) => if |blob| != 8192 then Err(BadInfo) else Ok(Unpack(blob).value)
  {
    var second := PacketBytes(1, text) + tail;
    NonceBytes(0);
    ReceivePacket(0, theirs, second);
    ReceivePacket(1, text, tail);
  }

  /** Whatever comes in, the first packet of what a party sends is its message. */
  lemma SessionReads(s: Suite, p: Party, incoming: bytes)
    requires Ideal(s) && Proper(p.info)
    ensures Receive(SPAKE2_MSG, Session(s, p, incoming).0).0 == Ok(Spoken(s, p))
  {
    var hello := PacketBytes(SPAKE2_MSG, Spoken(s, p));
    var theirs := Receive(SPAKE2_MSG, incoming).0;
    assert hello + [] == hello;
    ReceivePacket(SPAKE2_MSG, Spoken(s, p), []);
    if theirs.Ok? && s.agree(p.role, p.password, p.secret, theirs.value).Some? {
      var key := s.agree(p.role, p.password, p.secret, theirs.value).value;
      ReceivePacket(SPAKE2_MSG, Spoken(s, p), PacketBytes(PEER_INFO, Sealed(s, p, key)));
    }
  }

  /** All that a party sends once it has a key. */
  function Said(s: Suite, p: Party, key: bytes): bytes
    requires Proper(p.info) && |Spoken(s, p)| < 0x1_0000_0000 && |Sealed(s, p, key)| < 0x1_0000_0000
  {
    PacketBytes(SPAKE2_MSG, Spoken(s, p)) + PacketBytes(PEER_INFO, Sealed(s, p, key))
  }

  /** The party `a` has the key it derives from what `b` says. */
  ghost predicate Agrees(s: Suite, a: Party, b: Party, key: bytes) {
    s.agree(a.role, a.password, a.secret, Spoken(s, b)) == Some(key)
  }

  /** One party given all that the other says. */
  lemma OneSide(s: Suite, a: Party, b: Party, keyA: bytes, keyB: bytes)
    requires Ideal(s) && Proper(a.info) && Proper(b.info) && Agrees(s, a, b, keyA) && IsKey(keyB)
    ensures IsKey(keyA) && |Sealed(s, a, keyA)| == |Sealed(s, b, keyB)| == PEER_INFO_SIZE + TAG_SIZE
    ensures Session(s, a, Said(s, b, keyB)) ==
            (Said(s, a, keyA), if keyA == keyB then Ok(PeerInfo(b.info.kind, Strip(b.info.data))) else Err(BadTag))
  {
    var second := PacketBytes(PEER_INFO, Sealed(s, b, keyB));
    ReceivePacket(SPAKE2_MSG, Spoken(s, b), second);
    ReceivePacket(PEER_INFO, Sealed(s, b, keyB), []);
    assert second + [] == second;
    InfoRoundTrip(b.info);
  }

  /**
   Two parties, each receiving what the other sends: each sends all it has to, so that neither waits for
   what the other sends only later; and each ends with the other's peer info, its trailing zeros
   stripped, exactly if the keys are the same.  Otherwise both fail to decrypt.
   */
  lemma Lockstep(s: Suite, a: Party, b: Party, keyA: bytes, keyB: bytes)
    requires Ideal(s) && Proper(a.info) && Proper(b.info)
    requires Agrees(s, a, b, keyA) && Agrees(s, b, a, keyB)
    ensures |Sealed(s, a, keyA)| == |Sealed(s, b, keyB)| == PEER_INFO_SIZE + TAG_SIZE
    ensures Session(s, a, Said(s, b, keyB)) ==
            (Said(s, a, keyA), if keyA == keyB then Ok(PeerInfo(b.info.kind, Strip(b.info.data))) else Err(BadTag))
    ensures Session(s, b, Said(s, a, keyA)) ==
            (Said(s, b, keyB), if keyA == keyB then Ok(PeerInfo(a.info.kind, Strip(a.info.data))) else Err(BadTag))
  {
    OneSide(s, a, b, keyA, keyB);
    OneSide(s, b, a, keyB, keyA);
  }

  /** And there is no other exchange in which each receives what the other sends. */
  lemma OnlyExchange(s: Suite, a: Party, b: Party, fromA: bytes, fromB: bytes, keyA: bytes, keyB: bytes)
    requires Ideal(s) && Proper(a.info) && Proper(b.info)
    requires Agrees(s, a, b, keyA) && Agrees(s, b, a, keyB)
    requires fromA == Session(s, a, fromB).0 && fromB == Session(s, b, fromA).0
    ensures |Sealed(s, a, keyA)| == |Sealed(s, b, keyB)| == PEER_INFO_SIZE + TAG_SIZE
    ensures fromA == Said(s, a, keyA) && fromB == Said(s, b, keyB)
  {
    SessionReads(s, a, fromB);
    SessionReads(s, b, fromA);
  }

  // ---- The code

  /** The TLS channel: what will come in, and what has been sent. */
  class Channel {
    var incoming: bytes
    var sent: bytes

    method SendAll(data: bytes)
      modifies this`sent
      ensures sent == old(sent) + data
    {
      sent := sent + data;
    }

    method RecvExact(n: nat) returns (r: Result<bytes, Error>)
      modifies this`incoming
      ensures if n <= |old(incoming)| then r == Ok(old(incoming)[..n]) && incoming == old(incoming)[n..]
              else r == Err(Short)
    {
      if n > |incoming| {
        incoming := [];
        return Err(Short);
      }
      r := Ok(incoming[..n]);
      incoming := incoming[n..];
    }

    method SendPacket(kind: byte, payload: bytes)
      requires |payload| < 0x1_0000_0000
      modifies this`sent
      ensures sent == old(sent) + PacketBytes(kind, payload)
    {
      SendAll(PackHeader(kind, |payload|));
      SendAll(payload);
    }

    method RecvPacket(kind: byte) returns (r: Result<bytes, Error>)
      modifies this`incoming
      ensures r == Receive(kind, old(incoming)).0
      ensures r.Ok? ==> incoming == Receive(kind, old(incoming)).1
    {
      var header := RecvExact(HEADER_SIZE);
      if header.Err? {
        return header;
      }
      var h := UnpackHeader(header.value);
      if h.Err? {
        return Err(h.error);
      }
      if h.value.0 != kind {
        return Err(BadType);
      }
      r := RecvExact(h.value.1);
    }

    /** `_exchange_spake2` */
    method ExchangeSpake2(auth: AuthCtx) returns (failure: Option<Error>)
      requires auth.Valid() && auth.key.None? && Ideal(auth.suite)
      modifies this, auth`key
      ensures auth.Valid()
      ensures sent == old(sent) + PacketBytes(SPAKE2_MSG, auth.suite.message(auth.role, auth.password, auth.secret))
      ensures var (theirs, rest) := Receive(SPAKE2_MSG, old(incoming));
              if theirs.Err? then failure == Some(theirs.error)
              else
                && auth.key == auth.suite.agree(auth.role, auth.password, auth.secret, theirs.value)
                && failure == (if auth.key.None? then Some(SpakeFailed) else None)
                && incoming == rest
    {
      SendPacket(SPAKE2_MSG, auth.suite.message(auth.role, auth.password, auth.secret));
      var theirs := RecvPacket(SPAKE2_MSG);
      if theirs.Err? {
        return Some(theirs.error);
      }
      var ok := auth.InitCipher(theirs.value);
      if ok != Ok(true) {
        return Some(SpakeFailed);
      }
      return None;
    }

    /** `_exchange_peer_info` */
    method ExchangePeerInfo(auth: AuthCtx, ours: PeerInfo) returns (r: Result<PeerInfo, Error>)
      requires auth.Valid() && auth.key.Some? && IsKey(auth.key.value) && Ideal(auth.suite)
      requires auth.encSequence == auth.decSequence == 0 && Proper(ours)
      modifies this, auth`encSequence, auth`decSequence, auth`nonces
      ensures auth.Valid()
      ensures sent == old(sent) + PacketBytes(PEER_INFO, auth.suite.seal(auth.key.value, Nonce(0), Pack(ours)))
      ensures r == Ending(auth.suite, auth.key.value, Receive(PEER_INFO, old(incoming)).0)
    {
      var ciphertext := auth.Encrypt(Pack(ours));
      SendPacket(PEER_INFO, ciphertext.value);
      var encrypted := RecvPacket(PEER_INFO);
      if encrypted.Err? {
        return Err(encrypted.error);
      }
      var decrypted := auth.Decrypt(encrypted.value);
      if decrypted.Err? {
        return Err(decrypted.error);
      }
      var theirs := Unpack(decrypted.value);
      return if theirs.None? then Err(BadInfo) else Ok(theirs.value);
    }

    /** `run`, for a client with the given pairing code and what the TLS exporter gives. */
    method Run(suite: Suite, code: bytes, material: Option<bytes>, secret: nat, ours: PeerInfo)
      returns (r: Result<PeerInfo, Error>)
      requires Ideal(suite) && Proper(ours)
      modifies this
      ensures if material.None? || |material.value| != 64 then
                r == Err(NoKeyingMaterial) && sent == old(sent)
              else
                var (out, end) := Session(suite, Party(Client, code + material.value, secret, ours), old(incoming));
                sent == old(sent) + out && r == end
    {
      if material.None? || |material.value| != TLS_EXPORTER_LENGTH {
        return Err(NoKeyingMaterial);
      }
      var auth := new AuthCtx(suite, Client, code + material.value, secret);
      r := Converse(auth, ours);
    }

    /** The two exchanges. */
    method Converse(auth: AuthCtx, ours: PeerInfo) returns (r: Result<PeerInfo, Error>)
      requires auth.Valid() && auth.key.None? && auth.encSequence == auth.decSequence == 0
      requires Ideal(auth.suite) && Proper(ours)
      modifies this, auth
      ensures var (out, end) := Session(auth.suite, Party(auth.role, auth.password, auth.secret, ours), old(incoming));
              sent == old(sent) + out && r == end
    {
      ghost var before := sent;
      ghost var hello := PacketBytes(SPAKE2_MSG, auth.suite.message(auth.role, auth.password, auth.secret));
      var failure := ExchangeSpake2(auth);
      if failure.Some? {
        return Err(failure.value);
      }
      ghost var second := PacketBytes(PEER_INFO, auth.suite.seal(auth.key.value, Nonce(0), Pack(ours)));
      assert (before + hello) + second == before + (hello + second);
      r := ExchangePeerInfo(auth, ours);
    }
  }
}
