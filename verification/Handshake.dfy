/** The handshake of `_AdbIOManager.connect`, once the store is clear and the transport is connected. */
module Handshake {
  import opened Bytes
  import opened AdbMessage
  import opened Wire

  const VERSION: u32 := 0x0100_0000
  const MAX_ADB_DATA: u32 := 1024 * 1024
  const STLS_VERSION: u32 := 0x0100_0000
  const AUTH_TOKEN: u32 := 1
  const AUTH_SIGNATURE: u32 := 2
  const AUTH_RSAPUBLICKEY: u32 := 3

  /** The arguments of `connect`; `sign` is what each key makes of a token. */
  datatype Config = Config(
    banner: bytes,
    keys: nat,
    sign: (nat, bytes) -> bytes,
    publicKey: bytes,
    hasPem: bool,
    canUpgrade: bool)

  datatype Refusal = NoPem | NoTls | NoKeys | UnknownAuth | TlsFailed | Sending | Reading(failure: Failure)

  // ---- What is sent

  const HOST: bytes := Ascii("host::")

  function Hello(c: Config): Message {
    Message(CNXN, VERSION, MAX_ADB_DATA, HOST + c.banner + [0])
  }

  function Upgrade(): Message {
    Message(STLS, STLS_VERSION, 0, [])
  }

  function Signature(c: Config, key: nat, token: bytes): Message {
    Message(AUTH, AUTH_SIGNATURE, 0, c.sign(key, token))
  }

  function PublicKey(c: Config): Message {
    Message(AUTH, AUTH_RSAPUBLICKEY, 0, c.publicKey + [0])
  }

  /** None of this is too long for the length field. */
  ghost predicate Proper(c: Config) {
    && Encodable(Hello(c)) && Encodable(PublicKey(c))
    && forall key, token :: Encodable(Signature(c, key, token))
  }

  // ---- The handshake as a machine that is given the packets read, one by one

  datatype Phase =
    | Greeting                // waiting for the first packet
    | Upgrading               // STLS sent
    | Signing(key: nat)       // the signature of that key sent
    | Asking                  // the public key sent
    | Done(maxdata: u32)
    | Refused(why: Refusal)

  function Expect(p: Phase): set<Cmd> {
    match p
    case Greeting => {AUTH, CNXN, STLS}
    case Upgrading => {CNXN}
    case Signing(_) => {CNXN, AUTH}
    case Asking => {CNXN}
    case _ => {}
  }

  /** Where a packet that was waited for leads. */
  function Turn(c: Config, p: Phase, m: Message): Phase
    requires m.cmd in Expect(p)
  {
    if m.cmd == CNXN then Done(m.arg1)
    else if m.cmd == STLS then
      if !c.hasPem then Refused(NoPem) else if !c.canUpgrade then Refused(NoTls) else Upgrading
    else
      var next := if p.Greeting? then 0 else p.key + 1;
      if p.Greeting? && c.keys == 0 then Refused(NoKeys)
      else if next >= c.keys then Asking
      else if m.arg0 != AUTH_TOKEN then Refused(UnknownAuth)
      else Signing(next)
  }

  /** What is sent on entering a phase, the last packet having brought `token`. */
  function Says(c: Config, p: Phase, token: bytes): seq<Message> {
    match p
    case Upgrading => [Upgrade()]
    case Signing(key) => [Signature(c, key, token)]
    case Asking => [PublicKey(c)]
    case _ => []
  }

  /** The packets that were waited for, in order, and what has been sent. */
  datatype Talk = Talk(phase: Phase, taken: seq<Message>, sent: seq<Message>)

  function Run(c: Config, heard: seq<Message>): Talk {
    if heard == [] then Talk(Greeting, [], [Hello(c)])
    else Hearing(c, Run(c, heard[..|heard| - 1]), heard[|heard| - 1])
  }

  function Hearing(c: Config, talk: Talk, m: Message): Talk {
    if m.cmd in Expect(talk.phase) then
      var next := Turn(c, talk.phase, m);
      Talk(next, talk.taken + [m], talk.sent + Says(c, next, m.data))
    else talk
  }

  lemma RunSnoc(c: Config, heard: seq<Message>, m: Message)
    ensures Run(c, heard + [m]) == Hearing(c, Run(c, heard), m)
  {
    assert (heard + [m])[..|heard|] == heard;
  }

  // ---- Its language

  /** The signature of each key in turn over the token of the packet before it. */
  function Signatures(c: Config, taken: seq<Message>): seq<Message> {
    seq(|taken|, i requires 0 <= i < |taken| => Signature(c, i, taken[i].data))
  }

  predicate Tokens(taken: seq<Message>) {
    forall m | m in taken :: m.cmd == AUTH && m.arg0 == AUTH_TOKEN
  }

  predicate Direct(c: Config, taken: seq<Message>, sent: seq<Message>) {
    |taken| == 1 && taken[0].cmd == CNXN && sent == [Hello(c)]
  }

  predicate Upgraded(c: Config, taken: seq<Message>, sent: seq<Message>) {
    && |taken| == 2 && taken[0].cmd == STLS && taken[1].cmd == CNXN
    && c.hasPem && c.canUpgrade && sent == [Hello(c), Upgrade()]
  }

  /** One of the keys was accepted: those before it were all answered by AUTH with a new token. */
  predicate Signed(c: Config, taken: seq<Message>, sent: seq<Message>) {
    && 2 <= |taken| <= c.keys + 1 && taken[|taken| - 1].cmd == CNXN
    && var tokens := taken[..|taken| - 1];
       Tokens(tokens) && sent == [Hello(c)] + Signatures(c, tokens)
  }

  /** None of the keys was accepted, and then the public key was; the last AUTH may say anything. */
  predicate Asked(c: Config, taken: seq<Message>, sent: seq<Message>) {
    && c.keys > 0 && |taken| == c.keys + 2 && taken[c.keys + 1].cmd == CNXN && taken[c.keys].cmd == AUTH
    && Tokens(taken[..c.keys])
    && sent == [Hello(c)] + Signatures(c, taken[..c.keys]) + [PublicKey(c)]
  }

  predicate Successful(c: Config, taken: seq<Message>, sent: seq<Message>) {
    Direct(c, taken, sent) || Upgraded(c, taken, sent) || Signed(c, taken, sent) || Asked(c, taken, sent)
  }

  /** What has been said in a phase that is not the last. */
  ghost predicate Shaped(c: Config, talk: Talk) {
    match talk.phase
    case Greeting => talk.taken == [] && talk.sent == [Hello(c)]
    case Upgrading =>
      && |talk.taken| == 1 && talk.taken[0].cmd == STLS
      && c.hasPem && c.canUpgrade && talk.sent == [Hello(c), Upgrade()]
    case Signing(key) =>
      && key < c.keys && |talk.taken| == key + 1 && Tokens(talk.taken)
      && talk.sent == [Hello(c)] + Signatures(c, talk.taken)
    case Asking =>
      && c.keys > 0 && |talk.taken| == c.keys + 1 && Tokens(talk.taken[..c.keys]) && talk.taken[c.keys].cmd == AUTH
      && talk.sent == [Hello(c)] + Signatures(c, talk.taken[..c.keys]) + [PublicKey(c)]
    case Done(maxdata) =>
      && Successful(c, talk.taken, talk.sent) && talk.taken != []
      && talk.taken[|talk.taken| - 1].arg1 == maxdata
    case Refused(_) =>
      exists k :: 0 <= k < |talk.taken| && Tokens(talk.taken[..k])
        && talk.sent == [Hello(c)] + Signatures(c, talk.taken[..k])
  }

  lemma SignaturesSnoc(c: Config, taken: seq<Message>, m: Message)
    ensures Signatures(c, taken + [m]) == Signatures(c, taken) + [Signature(c, |taken|, m.data)]
    ensures (taken + [m])[..|taken|] == taken
  {
  }

  /** The state with `tokens` signed. */
  function SignedSoFar(c: Config, tokens: seq<Message>): Talk {
    Talk(if tokens == [] then Greeting else Signing(|tokens| - 1), tokens, [Hello(c)] + Signatures(c, tokens))
  }

  lemma TokensSnoc(tokens: seq<Message>, m: Message)
    ensures Tokens(tokens + [m]) <==> Tokens(tokens) && m.cmd == AUTH && m.arg0 == AUTH_TOKEN
  {
    assert m in tokens + [m];
    assert forall t | t in tokens :: t in tokens + [m];
  }

  lemma HearsToken(c: Config, tokens: seq<Message>, m: Message)
    requires |tokens| < c.keys && m.cmd == AUTH && m.arg0 == AUTH_TOKEN
    ensures Hearing(c, SignedSoFar(c, tokens), m) == SignedSoFar(c, tokens + [m])
  {
    SignaturesSnoc(c, tokens, m);
    assert ([Hello(c)] + Signatures(c, tokens)) + [Signature(c, |tokens|, m.data)]
        == [Hello(c)] + (Signatures(c, tokens) + [Signature(c, |tokens|, m.data)]);
  }

  lemma GreetingShaped(c: Config, talk: Talk, m: Message)
    requires talk.phase.Greeting? && Shaped(c, talk) && m.cmd in Expect(talk.phase)
    ensures Shaped(c, Hearing(c, talk, m))
  {
    assert Signatures(c, []) == [] && [Hello(c)] + [] == [Hello(c)];
    assert talk == SignedSoFar(c, []);
    if m.cmd == AUTH && m.arg0 == AUTH_TOKEN && c.keys > 0 {
      HearsToken(c, [], m);
      TokensSnoc([], m);
    } else {
      assert Hearing(c, talk, m).taken[..0] == [];
    }
  }

  lemma SigningShaped(c: Config, talk: Talk, m: Message)
    requires talk.phase.Signing? && Shaped(c, talk) && m.cmd in Expect(talk.phase)
    ensures Shaped(c, Hearing(c, talk, m))
  {
    var talk' := Hearing(c, talk, m);
    assert talk == SignedSoFar(c, talk.taken);
    assert talk'.taken[..|talk.taken|] == talk.taken;
    if talk'.phase.Signing? {
      HearsToken(c, talk.taken, m);
      TokensSnoc(talk.taken, m);
    }
  }

  lemma HearingShaped(c: Config, talk: Talk, m: Message)
    requires Shaped(c, talk) && m.cmd in Expect(talk.phase)
    ensures Shaped(c, Hearing(c, talk, m))
  {
    match talk.phase
    case Greeting => GreetingShaped(c, talk, m);
    case Signing(_) => SigningShaped(c, talk, m);
    case _ =>
  }

  lemma {:induction false} RunShaped(c: Config, heard: seq<Message>)
    ensures Shaped(c, Run(c, heard))
  {
    if heard == [] {
    } else {
      var talk, m := Run(c, heard[..|heard| - 1]), heard[|heard| - 1];
      RunShaped(c, heard[..|heard| - 1]);
      if m.cmd in Expect(talk.phase) {
        HearingShaped(c, talk, m);
      }
    }
  }

  /**
   A handshake that succeeds has sent CNXN; or CNXN and STLS; or CNXN and signatures, of each key in
   turn over the last token; or those of all keys and then the public key.  It returns arg1 of the
   last CNXN.
   */
  lemma Language(c: Config, heard: seq<Message>)
    requires Run(c, heard).phase.Done?
    ensures var talk := Run(c, heard);
            && Successful(c, talk.taken, talk.sent) && talk.taken != []
            && talk.phase == Done(talk.taken[|talk.taken| - 1].arg1)
  {
    RunShaped(c, heard);
  }

  /** The signature of key `i` is over the token that packet number `i` brought. */
  predicate SignedTokens(c: Config, taken: seq<Message>, sent: seq<Message>, n: nat)
    requires n <= |taken| && n < |sent|
  {
    forall i | 0 <= i < n ::
      && taken[i].cmd == AUTH && taken[i].arg0 == 1
      && sent[i + 1] == Message(AUTH, 2, 0, c.sign(i, taken[i].data))
  }

  /** The packets exchanged in a handshake that succeeds, field by field. */
  predicate Exchanged(c: Config, taken: seq<Message>, sent: seq<Message>, maxdata: u32) {
    && taken != [] && taken[|taken| - 1].cmd == CNXN && taken[|taken| - 1].arg1 == maxdata
    && sent != [] && sent[0] == Message(CNXN, 0x0100_0000, 0x10_0000, Ascii("host::") + c.banner + [0])
    && (|| (|taken| == |sent| == 1)
        || (|taken| == |sent| == 2 && taken[0].cmd == STLS && c.hasPem && c.canUpgrade
            && sent[1] == Message(STLS, 0x0100_0000, 0, []))
        || (2 <= |taken| == |sent| <= c.keys + 1 && SignedTokens(c, taken, sent, |taken| - 1))
        || (3 <= |taken| == |sent| == c.keys + 2 && SignedTokens(c, taken, sent, c.keys) && taken[c.keys].cmd == AUTH
            && sent[c.keys + 1] == Message(AUTH, 3, 0, c.publicKey + [0])))
  }

  lemma LanguageExchanged(c: Config, heard: seq<Message>)
    requires Run(c, heard).phase.Done?
    ensures Exchanged(c, Run(c, heard).taken, Run(c, heard).sent, Run(c, heard).phase.maxdata)
  {
    Language(c, heard);
    var taken, sent := Run(c, heard).taken, Run(c, heard).sent;
    if Signed(c, taken, sent) {
      SignaturesAre(c, taken, sent, |taken| - 1, []);
    } else if Asked(c, taken, sent) {
      SignaturesAre(c, taken, sent, c.keys, [PublicKey(c)]);
    }
  }

  lemma SignaturesAre(c: Config, taken: seq<Message>, sent: seq<Message>, n: nat, more: seq<Message>)
    requires n <= |taken| && Tokens(taken[..n]) && sent == [Hello(c)] + Signatures(c, taken[..n]) + more
    ensures |sent| == n + 1 + |more| && sent[0] == Hello(c) && sent[n + 1..] == more
    ensures SignedTokens(c, taken, sent, n)
  {
    forall i | 0 <= i < n ensures taken[i].cmd == AUTH && taken[i].arg0 == AUTH_TOKEN {
      assert taken[..n][i] in taken[..n];
    }
  }

  /** What is not waited for is passed over. */
  lemma PassedOver(c: Config, heard: seq<Message>, m: Message)
    requires match Run(c, heard).phase
             case Greeting => m.cmd != AUTH && m.cmd != CNXN && m.cmd != STLS
             case Signing(_) => m.cmd != AUTH && m.cmd != CNXN
             case _ => m.cmd != CNXN
    ensures Run(c, heard + [m]) == Run(c, heard)
  {
    RunSnoc(c, heard, m);
  }

  /** When the host refuses, and why; it then says nothing more. */
  lemma Refusals(c: Config, heard: seq<Message>, m: Message)
    requires !Run(c, heard).phase.Refused?
    ensures var (talk, talk') := (Run(c, heard), Run(c, heard + [m]));
            var first, next := talk.phase.Greeting?, if talk.phase.Signing? then talk.phase.key + 1 else 0;
            && (talk'.phase == Refused(NoPem) <==> first && m.cmd == STLS && !c.hasPem)
            && (talk'.phase == Refused(NoTls) <==> first && m.cmd == STLS && c.hasPem && !c.canUpgrade)
            && (talk'.phase == Refused(NoKeys) <==> first && m.cmd == AUTH && c.keys == 0)
            && (talk'.phase == Refused(UnknownAuth) <==>
                  (first || talk.phase.Signing?) && m.cmd == AUTH && next < c.keys && m.arg0 != 1)
            && (talk'.phase.Refused? ==>
                  talk'.phase.why in {NoPem, NoTls, NoKeys, UnknownAuth} && talk'.sent == talk.sent)
  {
    RunSnoc(c, heard, m);
  }

  /** CNXN ends it at any time, and nothing more is sent. */
  lemma Ends(c: Config, heard: seq<Message>, m: Message)
    requires m.cmd == CNXN && !Run(c, heard).phase.Done? && !Run(c, heard).phase.Refused?
    ensures var talk := Run(c, heard);
            Run(c, heard + [m]) == Talk(Done(m.arg1), talk.taken + [m], talk.sent)
  {
    RunSnoc(c, heard, m);
    assert Run(c, heard).sent + [] == Run(c, heard).sent;
  }

  lemma UpgradingRun(c: Config, m: Message)
    requires m.cmd == STLS && c.hasPem && c.canUpgrade
    ensures Run(c, [m]) == Talk(Upgrading, [m], [Hello(c), Upgrade()])
  {
    RunSnoc(c, [], m);
    assert [] + [m] == [m] && [Hello(c)] + [Upgrade()] == [Hello(c), Upgrade()];
  }

  lemma BeforeTheEnd(c: Config, taken: seq<Message>, sent: seq<Message>)
    requires Successful(c, taken, sent)
    ensures var talk := Run(c, taken[..|taken| - 1]);
            && talk.taken == taken[..|taken| - 1] && talk.sent == sent
            && !talk.phase.Done? && !talk.phase.Refused? && taken[|taken| - 1].cmd == CNXN
  {
    var before := taken[..|taken| - 1];
    if Upgraded(c, taken, sent) {
      assert before == [taken[0]];
      UpgradingRun(c, taken[0]);
    } else if Direct(c, taken, sent) {
      assert before == [];
    } else if Signed(c, taken, sent) {
      SigningRun(c, before);
    } else {
      assert before[..c.keys] == taken[..c.keys];
      AskingRun(c, before);
    }
  }

  lemma Finishes(c: Config, taken: seq<Message>, sent: seq<Message>)
    requires taken != [] && taken[|taken| - 1].cmd == CNXN
    requires var talk := Run(c, taken[..|taken| - 1]);
             talk.taken == taken[..|taken| - 1] && talk.sent == sent && !talk.phase.Done? && !talk.phase.Refused?
    ensures Run(c, taken) == Talk(Done(taken[|taken| - 1].arg1), taken, sent)
  {
    var before, last := taken[..|taken| - 1], taken[|taken| - 1];
    assert taken == before + [last];
    Ends(c, before, last);
  }

  /** Conversely, every answer of one of those forms leads to success, with that said. */
  lemma Completes(c: Config, taken: seq<Message>, sent: seq<Message>)
    requires Successful(c, taken, sent)
    ensures taken != []
    ensures Run(c, taken) == Talk(Done(taken[|taken| - 1].arg1), taken, sent)
  {
    BeforeTheEnd(c, taken, sent);
    Finishes(c, taken, sent);
  }

  lemma {:induction false} SigningRun(c: Config, tokens: seq<Message>)
    requires |tokens| <= c.keys && Tokens(tokens)
    ensures Run(c, tokens) == SignedSoFar(c, tokens)
  {
    if tokens == [] {
      assert Signatures(c, []) == [] && [Hello(c)] + [] == [Hello(c)];
    } else {
      var init, last := tokens[..|tokens| - 1], tokens[|tokens| - 1];
      assert tokens == init + [last];
      TokensSnoc(init, last);
      SigningRun(c, init);
      RunSnoc(c, init, last);
      HearsToken(c, init, last);
    }
  }

  lemma HearsLast(c: Config, tokens: seq<Message>, m: Message)
    requires 0 < c.keys == |tokens| && m.cmd == AUTH
    ensures Hearing(c, SignedSoFar(c, tokens), m) ==
            Talk(Asking, tokens + [m], [Hello(c)] + Signatures(c, tokens) + [PublicKey(c)])
  {
  }

  lemma AskingRun(c: Config, taken: seq<Message>)
    requires c.keys > 0 && |taken| == c.keys + 1 && Tokens(taken[..c.keys]) && taken[c.keys].cmd == AUTH
    ensures Run(c, taken) == Talk(Asking, taken, [Hello(c)] + Signatures(c, taken[..c.keys]) + [PublicKey(c)])
  {
    var tokens := taken[..c.keys];
    assert taken == tokens + [taken[c.keys]];
    SigningRun(c, tokens);
    RunSnoc(c, tokens, taken[c.keys]);
    HearsLast(c, tokens, taken[c.keys]);
  }

  // ---- The code

  predicate AllEncodable(ms: seq<Message>) {
    forall m | m in ms :: Encodable(m)
  }

  lemma {:induction false} RunEncodable(c: Config, heard: seq<Message>)
    requires Proper(c)
    ensures AllEncodable(Run(c, heard).sent)
  {
    if heard == [] {
    } else {
      var talk, m := Run(c, heard[..|heard| - 1]), heard[|heard| - 1];
      RunEncodable(c, heard[..|heard| - 1]);
      if m.cmd in Expect(talk.phase) {
        var next := Turn(c, talk.phase, m);
        assert next.Signing? ==> Encodable(Signature(c, next.key, m.data));
        assert AllEncodable(Says(c, next, m.data));
      }
    }
  }

  /** Of the messages `sent`, all but `out`, which is nothing or the last, have been written after `before`. */
  predicate Owing(before: bytes, sent: seq<Message>, out: seq<Message>, written: bytes)
    requires AllEncodable(sent)
  {
    if out == [] then written == before + EncodeAll(sent)
    else sent != [] && out == [sent[|sent| - 1]] && written == before + EncodeAll(sent[..|sent| - 1])
  }

  /** The time was never up after a packet that was passed over; `late` says after which packets it is up. */
  predicate InTime(c: Config, late: nat -> bool, heard: seq<Message>) {
    heard != [] ==>
      var init, last := heard[..|heard| - 1], heard[|heard| - 1];
      InTime(c, late, init) && (last.cmd !in Expect(Run(c, init).phase) ==> !late(|heard|))
  }

  lemma InTimeSnoc(c: Config, late: nat -> bool, heard: seq<Message>, m: Message)
    ensures InTime(c, late, heard + [m]) <==>
            InTime(c, late, heard) && (m.cmd !in Expect(Run(c, heard).phase) ==> !late(|heard| + 1))
  {
    assert (heard + [m])[..|heard|] == heard;
  }

  /** One call of `connect`. */
  class Client {
    const c: Config
    const late: nat -> bool
    const transport: Transport
    ghost const start: Script
    ghost const before: bytes
    var heard: seq<Message>

    /** The packets read so far are those `heard`, and all is sent that is to be sent upon them, but for `out`. */
    ghost predicate Owes(out: seq<Message>)
      reads this, transport
    {
      var sent := Run(c, heard).sent;
      && Proper(c) && AllEncodable(sent) && InTime(c, late, heard)
      && ReadPackets(start, |heard|) == Outcome(Ok(heard), transport.script)
      && Owing(before, sent, out, transport.written)
    }

    /** All of it has been sent, at the end. */
    ghost predicate Stopped()
      reads this, transport
    {
      var sent := Run(c, heard).sent;
      Proper(c) && AllEncodable(sent) && transport.written == before + EncodeAll(sent)
    }

    /** Sending the last of it has failed. */
    ghost predicate Cut()
      reads this, transport
    {
      var sent := Run(c, heard).sent;
      && Proper(c) && AllEncodable(sent) && InTime(c, late, heard) && sent != []
      && before + EncodeAll(sent[..|sent| - 1]) <= transport.written <= before + EncodeAll(sent)
    }

    /** Reading one more packet failed so, or the time was up after one that was not expected. */
    ghost predicate Explains(failure: Failure)
      reads this
    {
      || (ReadPackets(start, |heard| + 1).result == Err(failure) && InTime(c, late, heard))
      || (failure == Timeout && heard != [] && heard[|heard| - 1].cmd !in Expect(Run(c, heard).phase)
          && late(|heard|) && InTime(c, late, heard[..|heard| - 1]))
    }

    ghost predicate In(phase: Phase)
      reads this
    {
      Run(c, heard).phase == phase
    }

    constructor (config: Config, t: Transport, clock: nat -> bool)
      requires Proper(config)
      ensures c == config && late == clock && transport == t && start == t.script && before == t.written && heard == []
      ensures Owes([Hello(c)]) && In(Greeting)
    {
      c, late, transport, start, before, heard := config, clock, t, t.script, t.written, [];
    }

    method Say(m: Message) returns (ok: bool)
      requires Owes([m])
      modifies transport`written
      ensures if ok then Owes([]) else Cut()
    {
      ghost var sent := Run(c, heard).sent;
      Said(before, sent, m, transport.written);
      ok := transport.Send(m);
    }

    /** One packet more, or the failure to read it. */
    method HearOne() returns (got: Result<Message, Failure>)
      requires Owes([])
      modifies this`heard, transport`script
      ensures Fuel(transport.script) < Fuel(old(transport.script)) || got.Err?
      ensures if got.Err? then heard == old(heard) && Stopped() && Explains(got.error)
              else
                var talk := old(Run(c, heard));
                && heard == old(heard) + [got.value] && Run(c, heard) == Hearing(c, talk, got.value)
                && AllEncodable(Run(c, heard).sent)
                && ReadPackets(start, |heard|) == Outcome(Ok(heard), transport.script)
                && (got.value.cmd in Expect(talk.phase) || !late(|heard|) ==> InTime(c, late, heard))
    {
      OneMore(ReadPacket, start, |heard|, heard, transport.script);
      got := transport.ReadPacketFromDevice();
      if got.Ok? {
        RunSnoc(c, heard, got.value);
        InTimeSnoc(c, late, heard, got.value);
        RunEncodable(c, heard + [got.value]);
        heard := heard + [got.value];
      }
    }

    /** `_read_expected_packet_from_device` */
    method Hear(expected: set<Cmd>) returns (r: Result<Message, Failure>)
      requires Owes([]) && expected == Expect(Run(c, heard).phase)
      modifies this`heard, transport`script
      ensures if r.Ok? then
                && r.value.cmd in expected && In(Turn(c, old(Run(c, heard)).phase, r.value))
                && Owes(Says(c, Run(c, heard).phase, r.value.data))
              else Run(c, heard) == old(Run(c, heard)) && Stopped() && Explains(r.error)
    {
      ghost var talk := Run(c, heard);
      while true
        invariant Owes([]) && Run(c, heard) == talk
        decreases Fuel(transport.script)
      {
        label Before:
        var got := HearOne();
        if got.Err? {
          return got;
        }
        if got.value.cmd in expected {
          ghost var next := Turn(c, talk.phase, got.value);
          SaidMore(before, talk.sent, Says(c, next, got.value.data), transport.written);
          return got;
        }
        assert Run(c, heard) == talk;
        if late(|heard|) {
          assert heard[..|heard| - 1] == old@Before(heard);
          return Err(Timeout);
        }
      }
    }

    /** STLS came first: `_do_stls_upgrade`, and the CNXN after it. */
    method UpgradeFirst(m: Message) returns (r: Result<u32, Refusal>)
      requires m.cmd == STLS && In(Turn(c, Greeting, m))
      requires Owes(Says(c, Run(c, heard).phase, m.data))
      modifies this`heard, transport
      ensures Told(r)
    {
      if !c.hasPem {
        return Err(NoPem);
      }
      if !c.canUpgrade {
        return Err(NoTls);
      }
      var sent := Say(Upgrade());
      if !sent {
        return Err(Sending);
      }
      var works := *;
      if !works {
        return Err(TlsFailed);
      }
      r := HearCnxn();
    }

    /** The result is what the machine has come to. */
    ghost predicate Told(r: Result<u32, Refusal>)
      reads this, transport
    {
      var phase := Run(c, heard).phase;
      match r
      case Ok(maxdata) => phase == Done(maxdata) && Owes([])
      case Err(TlsFailed) => phase == Upgrading && Stopped() && InTime(c, late, heard)
      case Err(Sending) => !phase.Done? && !phase.Refused? && Cut()
      case Err(Reading(failure)) => !phase.Done? && !phase.Refused? && Stopped() && Explains(failure)
      case Err(why) => phase == Refused(why) && Stopped() && InTime(c, late, heard)
    }

    method HearCnxn() returns (r: Result<u32, Refusal>)
      requires Owes([]) && (In(Upgrading) || In(Asking))
      modifies this`heard, transport`script
      ensures Told(r)
    {
      var got := Hear({CNXN});
      return if got.Err? then Err(Reading(got.error)) else Ok(got.value.arg1);
    }

    /** AUTH number `i` has come, and says whether key `i` is to sign. */
    ghost predicate Challenged(i: nat, m: Message)
      reads this, transport
    {
      && m.cmd == AUTH && 0 < c.keys
      && In(if i >= c.keys then Asking else if m.arg0 != AUTH_TOKEN then Refused(UnknownAuth) else Signing(i))
      && Owes(Says(c, Run(c, heard).phase, m.data))
    }

    /** The answer to the signature of key `i`. */
    method HearAnswer(i: nat) returns (r: Result<Message, Refusal>)
      requires i < c.keys && Owes([]) && In(Signing(i))
      modifies this`heard, transport`script
      ensures match r
              case Err(why) => Told(Err(why))
              case Ok(next) => if next.cmd == CNXN then Told(Ok(next.arg1)) else Challenged(i + 1, next)
    {
      var got := Hear({CNXN, AUTH});
      if got.Err? {
        return Err(Reading(got.error));
      }
      return Ok(got.value);
    }

    /** The signature of key `i`, and the answer to it. */
    method SignWith(i: nat, m: Message) returns (r: Result<Message, Refusal>)
      requires i < c.keys && Challenged(i, m)
      modifies this`heard, transport
      ensures match r
              case Err(why) => Told(Err(why))
              case Ok(next) => if next.cmd == CNXN then Told(Ok(next.arg1)) else Challenged(i + 1, next)
    {
      if m.arg0 != AUTH_TOKEN {
        return Err(UnknownAuth);
      }
      var sent := Say(Signature(c, i, m.data));
      if !sent {
        return Err(Sending);
      }
      r := HearAnswer(i);
    }

    /** The loop over the keys, and the public key after it. */
    method SignAll(first: Message) returns (r: Result<u32, Refusal>)
      requires Challenged(0, first)
      modifies this`heard, transport
      ensures Told(r)
    {
      var m, i := first, 0;
      while i < c.keys
        invariant i <= c.keys && Challenged(i, m)
      {
        var next := SignWith(i, m);
        if next.Err? {
          return Err(next.error);
        }
        m := next.value;
        if m.cmd == CNXN {
          return Ok(m.arg1);
        }
        i := i + 1;
      }
      var sent := Say(PublicKey(c));
      if !sent {
        return Err(Sending);
      }
      r := HearCnxn();
    }

    /** The packet that answers our CNXN. */
    method Greeted(m: Message) returns (r: Result<u32, Refusal>)
      requires m.cmd in Expect(Greeting) && In(Turn(c, Greeting, m))
      requires Owes(Says(c, Run(c, heard).phase, m.data))
      modifies this`heard, transport
      ensures Told(r)
    {
      if m.cmd == STLS {
        r := UpgradeFirst(m);
      } else if m.cmd != AUTH {
        r := Ok(m.arg1);
      } else if c.keys == 0 {
        r := Err(NoKeys);
      } else {
        r := SignAll(m);
      }
    }

    /** `connect`: it does what the machine does with the packets it hears. */
    method Connect() returns (r: Result<u32, Refusal>)
      requires Owes([Hello(c)]) && heard == []
      modifies this`heard, transport
      ensures Told(r)
      ensures r.Ok? ==> Exchanged(c, Run(c, heard).taken, Run(c, heard).sent, r.value)
    {
      var sent := Say(Hello(c));
      if !sent {
        return Err(Sending);
      }
      var got := Hear({AUTH, CNXN, STLS});
      if got.Err? {
        return Err(Reading(got.error));
      }
      r := Greeted(got.value);
      if r.Ok? {
        LanguageExchanged(c, heard);
      }
    }
  }

  lemma Said(before: bytes, sent: seq<Message>, m: Message, written: bytes)
    requires AllEncodable(sent) && Owing(before, sent, [m], written)
    ensures Encodable(m) && written == before + EncodeAll(sent[..|sent| - 1])
    ensures written + Encode(m) == before + EncodeAll(sent)
  {
    var init := sent[..|sent| - 1];
    assert [m][0] == m == sent[|sent| - 1] && sent == init + [m];
    WrittenSnoc(init, m, Encode);
  }

  lemma SaidMore(before: bytes, sent: seq<Message>, more: seq<Message>, written: bytes)
    requires AllEncodable(sent) && AllEncodable(sent + more) && Owing(before, sent, [], written) && |more| <= 1
    ensures Owing(before, sent + more, more, written)
  {
    if more == [] {
      assert sent + more == sent;
    } else {
      assert (sent + more)[..|sent|] == sent && more == [more[0]];
    }
  }
}
