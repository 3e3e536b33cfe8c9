/** What a client's keys rest on, whoever its peer is: nothing is assumed here of
    the messages it reads, of the signatures in them or of the other machine. */
module KexTrust {
  import opened Wire
  import opened KeyExchange
  import Negotiation

  /** What happens to an endpoint: it reads the payload of a packet that opened,
      or is told to begin an exchange or to send something else. */
  datatype Input = Reads(payload: Payload) | Rekeys | Sends

  function Next(cfg: Config, e: Endpoint, input: Input): Endpoint {
    if e.failed then e else
      match input
      case Reads(payload) => Receive(cfg, e, payload).e
      case Rekeys => if e.kex.Some? then e else BeginRekey(cfg, e).e
      case Sends => if e.session.None? then e else Send(Stepped(e, []), Other).e
  }

  /** Inputs in order, the last one last. */
  function After(cfg: Config, e: Endpoint, inputs: seq<Input>): Endpoint {
    if inputs == [] then e else Next(cfg, After(cfg, e, inputs[..|inputs| - 1]), inputs[|inputs| - 1])
  }

  /** A client that has connected and begun the first exchange. */
  function Connected(cfg: Config): Endpoint {
    BeginRekey(cfg, Fresh(Negotiation.Client)).e
  }

  // ---------------------------------------------------------------------
  // Replies that vouch for keys
  // ---------------------------------------------------------------------

  /** The secret that the client of exchange `k` computes from this transcript. */
  function SecretOf(cfg: Config, k: nat, x: Exchange): seq<byte> {
    cfg.shared(cfg.clientSecret(k), x.serverEphemeral, if x.gex.Some? then Some(x.gex.value.1) else None)
  }

  /** The reply carries the server's ephemeral of this transcript, and its
      signature verifies, under the host key it brings, for the hash of
      transcript, host key and secret. */
  predicate Vouches(cfg: Config, k: nat, x: Exchange, hash: seq<byte>, p: Payload) {
    && p.DhReply? && p.ephemeral == x.serverEphemeral
    && hash == cfg.exchangeHash(x, p.hostKey, SecretOf(cfg, k, x))
    && cfg.verify(p.hostKey, hash, p.signature)
  }

  ghost predicate Vouched(cfg: Config, inputs: seq<Input>, k: nat, x: Exchange, hash: seq<byte>) {
    exists i :: 0 <= i < |inputs| && inputs[i].Reads? && Vouches(cfg, k, x, hash, inputs[i].payload)
  }

  ghost predicate HasRead(inputs: seq<Input>, p: Payload) {
    exists i :: 0 <= i < |inputs| && inputs[i] == Reads(p)
  }

  /** The transcript holds what this client is and sent in exchange `k`, and a
      KEXINIT that it read. */
  ghost predicate OwnTranscript(cfg: Config, inputs: seq<Input>, k: nat, x: Exchange) {
    && x.clientId == cfg.clientId && x.serverId == cfg.serverId && x.clientInit == cfg.clientInit(k)
    && HasRead(inputs, KexInit(x.serverInit))
  }

  /** The rest of what goes into the hash: an ephemeral for the client's own
      secret, and in group exchange its request and a group it accepted. */
  predicate OwnEphemeral(cfg: Config, k: nat, x: Exchange) {
    && x.clientEphemeral == cfg.ephemeral(cfg.clientSecret(k), if x.gex.Some? then Some(x.gex.value.1) else None)
    && (x.gex.Some? ==> x.gex.value.0 == cfg.request && cfg.groupOk(x.gex.value.1))
  }

  /** All of it. */
  ghost predicate Grounded(cfg: Config, inputs: seq<Input>, k: nat, x: Exchange, hash: seq<byte>) {
    OwnTranscript(cfg, inputs, k, x) && OwnEphemeral(cfg, k, x) && Vouched(cfg, inputs, k, x, hash)
  }

  /** The session's keys are those of this secret, this hash and its own id. */
  predicate KeyedBy(cfg: Config, secret: seq<byte>, hash: seq<byte>, names: Names, id: seq<byte>, seal: Keys, open: Keys) {
    && seal == Direction(cfg, secret, hash, id, names.cipher, names.clientMac, 67, 65, 69)
    && open == Direction(cfg, secret, hash, id, names.cipher, names.serverMac, 68, 66, 70)
  }

  /** The client read these names off the KEXINIT; a wrong guess may have been
      skipped since. */
  predicate ReadAs(cfg: Config, init: seq<byte>, names: Names) {
    Same(cfg.read(Negotiation.Client, init, false), names) || Same(cfg.read(Negotiation.Client, init, true), names)
  }

  predicate Same(read: Option<Names>, names: Names) {
    read.Some? && names == read.value.(ignoreGuessed := names.ignoreGuessed)
  }

  ghost predicate KeysAreGrounded(cfg: Config, inputs: seq<Input>, k: nat, s: Session) {
    exists x, hash, names :: Grounded(cfg, inputs, k, x, hash) && ReadAs(cfg, x.serverInit, names)
                             && KeyedBy(cfg, SecretOf(cfg, k, x), hash, names, s.id, s.seal, s.open)
  }

  ghost predicate IdIsGrounded(cfg: Config, inputs: seq<Input>, id: seq<byte>) {
    exists x :: Grounded(cfg, inputs, 0, x, id)
  }

  ghost predicate SessionGrounded(cfg: Config, inputs: seq<Input>, k: nat, s: Session) {
    IdIsGrounded(cfg, inputs, s.id) && KeysAreGrounded(cfg, inputs, k, s)
  }

  predicate Skips(cfg: Config, init: seq<byte>, strict: bool) {
    var names := cfg.read(Negotiation.Client, init, strict);
    names.Some? && cfg.skips(names.value.kex)
  }

  /** A KEXINIT was read that agrees on an exchange that is skipped. */
  ghost predicate SkipWasOffered(cfg: Config, inputs: seq<Input>) {
    exists i :: 0 <= i < |inputs| && inputs[i].Reads? && inputs[i].payload.KexInit?
                && (Skips(cfg, inputs[i].payload.init, false) || Skips(cfg, inputs[i].payload.init, true))
  }

  function ReadCount(inputs: seq<Input>): nat {
    if inputs == [] then 0 else
      ReadCount(inputs[..|inputs| - 1]) + (if inputs[|inputs| - 1].Reads? then 1 else 0)
  }

  /** The KEXINIT was read with the counter at 0: as the very first packet, or
      after a full turn of 2^32. */
  ghost predicate ReadFirst(inputs: seq<Input>, init: seq<byte>) {
    exists i :: 0 <= i < |inputs| && inputs[i] == Reads(KexInit(init)) && ReadCount(inputs[..i]) % 0x1_0000_0000 == 0
  }

  /** A reply is refused unless it verifies. */
  predicate ReplyRefused(cfg: Config, e: Endpoint, p: Payload)
    requires e.kex.Some?
  {
    !p.DhReply? ||
    var x := e.kex.value.exchange.(serverEphemeral := p.ephemeral);
    !cfg.verify(p.hostKey, cfg.exchangeHash(x, p.hostKey, SecretOf(cfg, e.epoch, x)), p.signature)
  }

  // ---------------------------------------------------------------------
  // Invariant
  // ---------------------------------------------------------------------

  /** The exchange in progress. */
  ghost predicate Underway(cfg: Config, inputs: seq<Input>, e: Endpoint) {
    e.kex.Some? ==>
      var kex, x, k := e.kex.value, e.kex.value.exchange, e.epoch;
      && x.clientId == cfg.clientId && x.serverId == cfg.serverId && x.clientInit == cfg.clientInit(k)
      && (if e.session.Some? then kex.cause.Rekey? && kex.cause.sessionId == e.session.value.id else kex.cause.Initial?)
      && match kex.phase
         case Created => x.gex == None
         case WaitingForGex(names) => x.gex == None && OwnTranscript(cfg, inputs, k, x) && NamesFit(cfg, inputs, kex, names)
         case WaitingForDh(names) => OwnTranscript(cfg, inputs, k, x) && OwnEphemeral(cfg, k, x) && NamesFit(cfg, inputs, kex, names)
         case WaitingForNewKeys(newkeys) =>
           && newkeys.exchange == x && Grounded(cfg, inputs, k, x, newkeys.hash) && NamesFit(cfg, inputs, kex, newkeys.names)
           && newkeys.sessionId == (if e.session.Some? then e.session.value.id else newkeys.hash)
           && KeyedBy(cfg, SecretOf(cfg, k, x), newkeys.hash, newkeys.names, newkeys.sessionId, newkeys.seal, newkeys.open)
  }

  /** The names are those read off the server's KEXINIT, and under strict key
      exchange the first one came first. */
  ghost predicate NamesFit(cfg: Config, inputs: seq<Input>, kex: Kex, names: Names) {
    && ReadAs(cfg, kex.exchange.serverInit, names)
    && (kex.cause.Initial? && names.strict ==> ReadFirst(inputs, kex.exchange.serverInit))
  }

  ghost predicate Trusting(cfg: Config, inputs: seq<Input>, e: Endpoint) {
    && e.role.Client?
    && (e.session.Some? <==> e.epoch > 0)
    && (!e.failed && e.epoch == 0 ==> e.recvSeqn == ReadCount(inputs) % U32_BOUND)
    && Underway(cfg, inputs, e)
    && (e.session.Some? ==> SkipWasOffered(cfg, inputs) || SessionGrounded(cfg, inputs, e.epoch - 1, e.session.value))
  }

  // ---------------------------------------------------------------------
  // What was true of fewer inputs
  // ---------------------------------------------------------------------

  lemma MoreInputs(cfg: Config, inputs: seq<Input>, input: Input)
    ensures var more := inputs + [input];
            && more[..|inputs|] == inputs
            && (forall p :: HasRead(inputs, p) ==> HasRead(more, p))
            && (SkipWasOffered(cfg, inputs) ==> SkipWasOffered(cfg, more))
            && (forall init :: ReadFirst(inputs, init) ==> ReadFirst(more, init))
  {
    var more := inputs + [input];
    forall p | HasRead(inputs, p)
      ensures HasRead(more, p)
    {
      var i :| 0 <= i < |inputs| && inputs[i] == Reads(p);
      assert more[i] == Reads(p);
    }
    forall init | ReadFirst(inputs, init)
      ensures ReadFirst(more, init)
    {
      var i :| 0 <= i < |inputs| && inputs[i] == Reads(KexInit(init)) && ReadCount(inputs[..i]) % 0x1_0000_0000 == 0;
      assert more[i] == inputs[i] && more[..i] == inputs[..i];
    }
    if SkipWasOffered(cfg, inputs) {
      var i :| 0 <= i < |inputs| && inputs[i].Reads? && inputs[i].payload.KexInit?
               && (Skips(cfg, inputs[i].payload.init, false) || Skips(cfg, inputs[i].payload.init, true));
      assert more[i] == inputs[i];
    }
  }

  lemma StillGrounded(cfg: Config, inputs: seq<Input>, input: Input, k: nat, x: Exchange, hash: seq<byte>)
    requires Grounded(cfg, inputs, k, x, hash)
    ensures Grounded(cfg, inputs + [input], k, x, hash)
  {
    MoreInputs(cfg, inputs, input);
    var i :| 0 <= i < |inputs| && inputs[i].Reads? && Vouches(cfg, k, x, hash, inputs[i].payload);
    assert (inputs + [input])[i] == inputs[i];
  }

  lemma StillId(cfg: Config, inputs: seq<Input>, input: Input, id: seq<byte>)
    requires IdIsGrounded(cfg, inputs, id)
    ensures IdIsGrounded(cfg, inputs + [input], id)
  {
    var x :| Grounded(cfg, inputs, 0, x, id);
    StillGrounded(cfg, inputs, input, 0, x, id);
  }

  lemma StillKeys(cfg: Config, inputs: seq<Input>, input: Input, k: nat, s: Session)
    requires KeysAreGrounded(cfg, inputs, k, s)
    ensures KeysAreGrounded(cfg, inputs + [input], k, s)
  {
    var x, hash, names :| Grounded(cfg, inputs, k, x, hash) && ReadAs(cfg, x.serverInit, names)
                          && KeyedBy(cfg, SecretOf(cfg, k, x), hash, names, s.id, s.seal, s.open);
    StillGrounded(cfg, inputs, input, k, x, hash);
  }

  lemma StillSession(cfg: Config, inputs: seq<Input>, input: Input, k: nat, s: Session)
    requires SkipWasOffered(cfg, inputs) || SessionGrounded(cfg, inputs, k, s)
    ensures SkipWasOffered(cfg, inputs + [input]) || SessionGrounded(cfg, inputs + [input], k, s)
  {
    if SkipWasOffered(cfg, inputs) {
      MoreInputs(cfg, inputs, input);
    } else {
      StillId(cfg, inputs, input, s.id);
      StillKeys(cfg, inputs, input, k, s);
    }
  }

  lemma StillUnderway(cfg: Config, inputs: seq<Input>, input: Input, e: Endpoint)
    requires Underway(cfg, inputs, e)
    ensures Underway(cfg, inputs + [input], e)
  {
    MoreInputs(cfg, inputs, input);
    if e.kex.Some? && e.kex.value.phase.WaitingForNewKeys? {
      StillGrounded(cfg, inputs, input, e.epoch, e.kex.value.exchange, e.kex.value.phase.newkeys.hash);
    }
  }

  // ---------------------------------------------------------------------
  // One input
  // ---------------------------------------------------------------------

  /** What the keys in use and the exchange in progress rest on stays. */
  lemma StillTrusting(cfg: Config, inputs: seq<Input>, input: Input, e: Endpoint)
    requires Trusting(cfg, inputs, e)
    ensures var more := inputs + [input];
            && Underway(cfg, more, e)
            && (e.session.Some? ==> SkipWasOffered(cfg, more) || SessionGrounded(cfg, more, e.epoch - 1, e.session.value))
            && ReadCount(more) == ReadCount(inputs) + (if input.Reads? then 1 else 0)
  {
    StillUnderway(cfg, inputs, input, e);
    if e.session.Some? {
      StillSession(cfg, inputs, input, e.epoch - 1, e.session.value);
    }
    assert (inputs + [input])[..|inputs|] == inputs;
  }

  /** What reading a packet counts, before anything is made of it. */
  lemma Counted(cfg: Config, inputs: seq<Input>, e: Endpoint, p: Payload)
    requires Trusting(cfg, inputs, e) && !e.failed
    ensures Trusting(cfg, inputs + [Reads(p)], Read(e))
  {
    StillTrusting(cfg, inputs, Reads(p), e);
  }

  /** Beginning an exchange keeps what the client rests on. */
  lemma BeginsTrusting(cfg: Config, inputs: seq<Input>, e: Endpoint)
    requires Trusting(cfg, inputs, e) && e.kex == None
    ensures Trusting(cfg, inputs, BeginRekey(cfg, e).e)
  {
  }

  /** On the server's KEXINIT, the last thing read. */
  lemma InitTrusting(cfg: Config, inputs: seq<Input>, e: Endpoint, p: Payload)
    requires inputs != [] && inputs[|inputs| - 1] == Reads(p) && Trusting(cfg, inputs, e) && !e.failed
    requires e.kex.Some? && e.kex.value.phase.Created?
    ensures Trusting(cfg, inputs, OnKexInit(cfg, e, p).e)
  {
    if p.KexInit? {
      assert HasRead(inputs, p);
      var names := cfg.read(e.role, p.init, CauseIsStrict(e.kex.value.cause));
      if names.Some? && e.kex.value.cause.Initial? && e.recvSeqn == 1 {
        OneBefore(inputs);
        assert ReadFirst(inputs, p.init);
      }
      if names.Some? && cfg.skips(names.value.kex) {
        assert Skips(cfg, p.init, CauseIsStrict(e.kex.value.cause));
        assert SkipWasOffered(cfg, inputs);
      }
    }
  }

  lemma OneBefore(inputs: seq<Input>)
    requires inputs != [] && inputs[|inputs| - 1].Reads? && ReadCount(inputs) % 0x1_0000_0000 == 1
    ensures ReadCount(inputs[..|inputs| - 1]) % 0x1_0000_0000 == 0
  {
  }

  /** On the server's group. */
  lemma GroupTrusting(cfg: Config, inputs: seq<Input>, e: Endpoint, p: Payload)
    requires Trusting(cfg, inputs, e) && e.kex.Some? && e.kex.value.phase.WaitingForGex?
    ensures Trusting(cfg, inputs, ClientStep(cfg, e, p).e)
  {
  }

  /** What does not touch the session only has to account for the exchange. */
  lemma KexChanges(cfg: Config, inputs: seq<Input>, e: Endpoint, t: Endpoint)
    requires Trusting(cfg, inputs, e) && Underway(cfg, inputs, t)
    requires t == e.(kex := t.kex, sendSeqn := t.sendSeqn, failed := t.failed) && (e.failed ==> t.failed)
    ensures Trusting(cfg, inputs, t)
  {
  }

  /** The keys that an accepted reply leads to. */
  lemma ReplyGrounds(cfg: Config, inputs: seq<Input>, e: Endpoint, p: Payload)
    requires inputs != [] && inputs[|inputs| - 1] == Reads(p) && Trusting(cfg, inputs, e)
    requires e.kex.Some? && e.kex.value.phase.WaitingForDh? && !e.kex.value.phase.names.ignoreGuessed
    requires p.DhReply? && !ReplyRefused(cfg, e, p)
    ensures Underway(cfg, inputs, ClientStep(cfg, e, p).e)
  {
    var newkeys := ClientStep(cfg, e, p).e.kex.value.phase.newkeys;
    assert Vouches(cfg, e.epoch, newkeys.exchange, newkeys.hash, inputs[|inputs| - 1].payload);
    assert Grounded(cfg, inputs, e.epoch, newkeys.exchange, newkeys.hash);
  }

  /** On the server's reply, the last thing read. */
  lemma ReplyTrusting(cfg: Config, inputs: seq<Input>, e: Endpoint, p: Payload)
    requires inputs != [] && inputs[|inputs| - 1] == Reads(p) && Trusting(cfg, inputs, e)
    requires e.kex.Some? && e.kex.value.phase.WaitingForDh?
    ensures Trusting(cfg, inputs, ClientStep(cfg, e, p).e)
  {
    var t := ClientStep(cfg, e, p).e;
    if !e.kex.value.phase.names.ignoreGuessed && !ReplyRefused(cfg, e, p) {
      ReplyGrounds(cfg, inputs, e, p);
    }
    KexChanges(cfg, inputs, e, t);
  }

  /** The session that a finished exchange leaves. */
  lemma FinishGrounds(cfg: Config, inputs: seq<Input>, e: Endpoint, newkeys: NewKeys)
    requires Trusting(cfg, inputs, e) && e.kex.Some? && e.kex.value.phase == WaitingForNewKeys(newkeys)
    ensures SessionGrounded(cfg, inputs, e.epoch, Finish(e, newkeys).session.value)
            || (e.session.Some? && SkipWasOffered(cfg, inputs))
  {
    var s, x := Finish(e, newkeys).session.value, e.kex.value.exchange;
    assert Grounded(cfg, inputs, e.epoch, x, newkeys.hash) && ReadAs(cfg, x.serverInit, newkeys.names)
        && KeyedBy(cfg, SecretOf(cfg, e.epoch, x), newkeys.hash, newkeys.names, s.id, s.seal, s.open);
  }

  lemma FinishTrusting(cfg: Config, inputs: seq<Input>, e: Endpoint, newkeys: NewKeys)
    requires Trusting(cfg, inputs, e) && e.kex.Some? && e.kex.value.phase == WaitingForNewKeys(newkeys)
    ensures Trusting(cfg, inputs, Finish(e, newkeys))
  {
    FinishGrounds(cfg, inputs, e, newkeys);
  }

  /** On NEWKEYS. */
  lemma NewKeysTrusting(cfg: Config, inputs: seq<Input>, e: Endpoint, p: Payload)
    requires Trusting(cfg, inputs, e) && e.kex.Some? && e.kex.value.phase.WaitingForNewKeys?
    ensures Trusting(cfg, inputs, ClientStep(cfg, e, p).e)
  {
    if p.NewKeysMsg? {
      FinishTrusting(cfg, inputs, e, e.kex.value.phase.newkeys);
    } else {
      KexChanges(cfg, inputs, e, Fail(e).e);
    }
  }

  lemma StepTrusting(cfg: Config, inputs: seq<Input>, e: Endpoint, p: Payload)
    requires inputs != [] && inputs[|inputs| - 1] == Reads(p) && Trusting(cfg, inputs, e) && !e.failed && e.kex.Some?
    ensures Trusting(cfg, inputs, ClientStep(cfg, e, p).e)
  {
    match e.kex.value.phase {
      case Created => InitTrusting(cfg, inputs, e, p);
      case WaitingForGex(_) => GroupTrusting(cfg, inputs, e, p);
      case WaitingForDh(_) => ReplyTrusting(cfg, inputs, e, p);
      case WaitingForNewKeys(_) => NewKeysTrusting(cfg, inputs, e, p);
    }
  }

  lemma ReceiveTrusting(cfg: Config, inputs: seq<Input>, e: Endpoint, p: Payload)
    requires Trusting(cfg, inputs, e) && !e.failed
    ensures Trusting(cfg, inputs + [Reads(p)], Receive(cfg, e, p).e)
  {
    var more, read := inputs + [Reads(p)], Read(e);
    Counted(cfg, inputs, e, p);
    if !p.Other? {
      if p.KexInit? && e.kex == None {
        BeginsTrusting(cfg, more, read);
        StepTrusting(cfg, more, BeginRekey(cfg, read).e, p);
      } else if e.kex.Some? {
        StepTrusting(cfg, more, read, p);
      }
    }
  }

  lemma SendsTrusting(cfg: Config, inputs: seq<Input>, e: Endpoint)
    requires Trusting(cfg, inputs, e)
    ensures Trusting(cfg, inputs, Send(Stepped(e, []), Other).e)
  {
  }

  /** An input that changes nothing. */
  lemma StaysTrusting(cfg: Config, inputs: seq<Input>, input: Input, e: Endpoint)
    requires Trusting(cfg, inputs, e) && (e.failed || !input.Reads?)
    ensures Trusting(cfg, inputs + [input], e)
  {
    StillTrusting(cfg, inputs, input, e);
  }

  lemma NextTrusting(cfg: Config, inputs: seq<Input>, e: Endpoint, input: Input)
    requires Trusting(cfg, inputs, e)
    ensures Trusting(cfg, inputs + [input], Next(cfg, e, input))
  {
    if input.Reads? && !e.failed {
      ReceiveTrusting(cfg, inputs, e, input.payload);
    } else {
      StaysTrusting(cfg, inputs, input, e);
      if input.Rekeys? && !e.failed && e.kex == None {
        BeginsTrusting(cfg, inputs + [input], e);
      } else if input.Sends? && !e.failed && e.session.Some? {
        SendsTrusting(cfg, inputs + [input], e);
      }
    }
  }

  lemma {:induction false} AfterTrusting(cfg: Config, inputs: seq<Input>)
    ensures Trusting(cfg, inputs, After(cfg, Connected(cfg), inputs))
  {
    if inputs != [] {
      var before, input := inputs[..|inputs| - 1], inputs[|inputs| - 1];
      AfterTrusting(cfg, before);
      NextTrusting(cfg, before, After(cfg, Connected(cfg), before), input);
      assert before + [input] == inputs;
    }
  }

  // ---------------------------------------------------------------------
  // Main results
  // ---------------------------------------------------------------------

  /** Keys that wait for NEWKEYS are those of a hash, over the client's own
      transcript with a KEXINIT it was sent, for which a reply it was given
      carries a signature that verifies. */
  ghost predicate WaitingGrounded(cfg: Config, inputs: seq<Input>, e: Endpoint) {
    AwaitsNewKeys(e) ==>
      var newkeys := e.kex.value.phase.newkeys;
      && Grounded(cfg, inputs, e.epoch, newkeys.exchange, newkeys.hash)
      && ReadAs(cfg, newkeys.exchange.serverInit, newkeys.names)
      && KeyedBy(cfg, SecretOf(cfg, e.epoch, newkeys.exchange), newkeys.hash, newkeys.names, newkeys.sessionId,
                 newkeys.seal, newkeys.open)
      && newkeys.sessionId == (if e.session.Some? then e.session.value.id else newkeys.hash)
  }

  /** And so are the keys in use, and the session id, unless a KEXINIT was read
      that agrees on an exchange that is skipped. */
  ghost predicate InUseGrounded(cfg: Config, inputs: seq<Input>, e: Endpoint) {
    e.session.Some? ==>
      e.epoch > 0 && (SkipWasOffered(cfg, inputs) || SessionGrounded(cfg, inputs, e.epoch - 1, e.session.value))
  }

  /** The group a client goes on with is one it accepts, and under strict key
      exchange its first KEXINIT was read with the counter at 0. */
  ghost predicate Accepted(cfg: Config, inputs: seq<Input>, e: Endpoint) {
    e.kex.Some? && !e.kex.value.phase.Created? ==>
      var kex := e.kex.value;
      var names := if kex.phase.WaitingForNewKeys? then kex.phase.newkeys.names else kex.phase.names;
      && (kex.exchange.gex.Some? ==> cfg.groupOk(kex.exchange.gex.value.1))
      && (e.session.None? && names.strict ==> ReadFirst(inputs, kex.exchange.serverInit))
  }

  lemma TrustingMeans(cfg: Config, inputs: seq<Input>, e: Endpoint)
    requires Trusting(cfg, inputs, e)
    ensures WaitingGrounded(cfg, inputs, e) && InUseGrounded(cfg, inputs, e) && Accepted(cfg, inputs, e)
  {
  }

  /** Whatever a client reads, from whomever. */
  lemma WaitingKeysAreGrounded(cfg: Config, inputs: seq<Input>)
    ensures WaitingGrounded(cfg, inputs, After(cfg, Connected(cfg), inputs))
  {
    AfterTrusting(cfg, inputs);
    TrustingMeans(cfg, inputs, After(cfg, Connected(cfg), inputs));
  }

  lemma SessionIsGrounded(cfg: Config, inputs: seq<Input>)
    ensures InUseGrounded(cfg, inputs, After(cfg, Connected(cfg), inputs))
  {
    AfterTrusting(cfg, inputs);
    TrustingMeans(cfg, inputs, After(cfg, Connected(cfg), inputs));
  }

  lemma ExchangeIsAccepted(cfg: Config, inputs: seq<Input>)
    ensures Accepted(cfg, inputs, After(cfg, Connected(cfg), inputs))
  {
    AfterTrusting(cfg, inputs);
    TrustingMeans(cfg, inputs, After(cfg, Connected(cfg), inputs));
  }

  // ---------------------------------------------------------------------
  // Exactly what is refused
  // ---------------------------------------------------------------------

  /** A KEXINIT is refused if it leads to no agreement, or to strict key exchange
      when it is not the first packet. */
  predicate InitRefused(cfg: Config, e: Endpoint, p: Payload, strictRekey: bool) {
    !p.KexInit? ||
    var names := cfg.read(e.role, p.init, strictRekey);
    names.None? || (names.value.strict && e.session.None? && e.recvSeqn != 0)
  }

  /** What the endpoint, about to read this payload, will not take. */
  predicate Refused(cfg: Config, e: Endpoint, p: Payload) {
    if p.Other? || (e.kex.None? && !p.KexInit?) then e.role.Server? && e.session.None?
    else if e.kex.None? then InitRefused(cfg, e, p, e.session.Some? && e.strict)
    else
      match e.kex.value.phase
      case Created => InitRefused(cfg, e, p, CauseIsStrict(e.kex.value.cause))
      case WaitingForGex(_) => if e.role.Client? then !p.GexGroup? || !cfg.groupOk(p.group) else !p.GexRequest?
      case WaitingForDh(names) =>
        !names.ignoreGuessed && (if e.role.Client? then ReplyRefused(cfg, e, p) else !p.DhInit?)
      case WaitingForNewKeys(_) => !p.NewKeysMsg?
  }

  /** An endpoint begins in the way its session asks for. */
  predicate CauseFits(e: Endpoint) {
    e.kex.Some? ==> (e.kex.value.cause.Initial? <==> e.session.None?)
  }

  lemma InitFits(cfg: Config, e: Endpoint, p: Payload)
    requires CauseFits(e) && e.kex.Some?
    ensures CauseFits(OnKexInit(cfg, e, p).e)
  {
  }

  lemma StepFits(cfg: Config, e: Endpoint, p: Payload)
    requires CauseFits(e) && e.kex.Some?
    ensures CauseFits((if e.role.Client? then ClientStep(cfg, e, p) else ServerStep(cfg, e, p)).e)
  {
    if e.kex.value.phase.Created? {
      InitFits(cfg, e, p);
    }
  }

  lemma CauseStillFits(cfg: Config, e: Endpoint, input: Input)
    requires CauseFits(e)
    ensures CauseFits(Next(cfg, e, input))
  {
    if input.Reads? && !e.failed && !input.payload.Other? {
      var begun := if input.payload.KexInit? && e.kex == None then BeginRekey(cfg, Read(e)).e else Read(e);
      if begun.kex.Some? {
        StepFits(cfg, begun, input.payload);
      }
    }
  }

  /** Which holds of every endpoint that was connected, whatever has happened to it. */
  lemma {:induction false} CauseAlwaysFits(cfg: Config, role: Role, inputs: seq<Input>)
    ensures CauseFits(After(cfg, BeginRekey(cfg, Fresh(role)).e, inputs))
  {
    if inputs != [] {
      CauseAlwaysFits(cfg, role, inputs[..|inputs| - 1]);
      CauseStillFits(cfg, After(cfg, BeginRekey(cfg, Fresh(role)).e, inputs[..|inputs| - 1]), inputs[|inputs| - 1]);
    }
  }

  lemma InitFailsExactly(cfg: Config, e: Endpoint, begun: Endpoint, p: Payload)
    requires CauseFits(begun) && begun.kex.Some? && !begun.failed
    requires begun.role == e.role && begun.session == e.session && begun.recvSeqn == NextSeqn(e.recvSeqn)
    ensures OnKexInit(cfg, begun, p).e.failed <==> InitRefused(cfg, e, p, CauseIsStrict(begun.kex.value.cause))
  {
  }

  lemma StepFailsExactly(cfg: Config, e: Endpoint, p: Payload)
    requires !e.failed && CauseFits(e) && e.kex.Some? && !p.Other?
    ensures (if e.role.Client? then ClientStep(cfg, Read(e), p) else ServerStep(cfg, Read(e), p)).e.failed <==> Refused(cfg, e, p)
  {
    if e.kex.value.phase.Created? {
      InitFailsExactly(cfg, e, Read(e), p);
    }
  }

  /** An endpoint, of either role and in any state, fails over a payload exactly
      if it is one that must be refused. */
  lemma FailsExactlyIfRefused(cfg: Config, e: Endpoint, p: Payload)
    requires !e.failed && CauseFits(e)
    ensures Receive(cfg, e, p).e.failed <==> Refused(cfg, e, p)
  {
    if !p.Other? && e.kex.Some? {
      StepFailsExactly(cfg, e, p);
    } else if p.KexInit? {
      InitFailsExactly(cfg, e, BeginRekey(cfg, Read(e)).e, p);
    }
  }

  /** And what it refuses changes nothing else: no keys, no exchange, no session.
      At most its own KEXINIT has gone out, if it had to begin the exchange first. */
  lemma RefusalChangesNothing(cfg: Config, e: Endpoint, p: Payload)
    requires !e.failed && CauseFits(e) && Refused(cfg, e, p)
    ensures var t := Receive(cfg, e, p);
            if e.kex == None && p.KexInit?
            then t == Stepped(BeginRekey(cfg, Read(e)).e.(failed := true), BeginRekey(cfg, Read(e)).out)
            else t == Stepped(Read(e).(failed := true), [])
  {
    FailsExactlyIfRefused(cfg, e, p);
    AlsoWithNothingBefore([]);
  }

  lemma {:induction false} FailedStays(cfg: Config, e: Endpoint, inputs: seq<Input>)
    requires e.failed
    ensures After(cfg, e, inputs) == e
  {
    if inputs != [] {
      FailedStays(cfg, e, inputs[..|inputs| - 1]);
    }
  }

  /** A reply that does not verify is the end of a client that waits for it: it
      sends nothing, and whatever follows finds it without new keys. */
  lemma BadReplyIsTheEnd(cfg: Config, e: Endpoint, p: Payload, inputs: seq<Input>)
    requires !e.failed && e.role.Client? && CauseFits(e)
    requires e.kex.Some? && e.kex.value.phase.WaitingForDh? && !e.kex.value.phase.names.ignoreGuessed
    requires p.DhReply? && ReplyRefused(cfg, e, p)
    ensures Receive(cfg, e, p) == Stepped(Read(e).(failed := true), [])
    ensures After(cfg, Receive(cfg, e, p).e, inputs) == Read(e).(failed := true)
  {
    RefusalChangesNothing(cfg, e, p);
    FailedStays(cfg, Read(e).(failed := true), inputs);
  }

  /** The packet behind a wrong guess is skipped, whatever it is, and only that one. */
  lemma GuessIsSkipped(cfg: Config, e: Endpoint, p: Payload)
    requires !e.failed && e.kex.Some? && e.kex.value.phase.WaitingForDh? && e.kex.value.phase.names.ignoreGuessed && !p.Other?
    ensures var kex := e.kex.value;
            Receive(cfg, e, p)
            == Stepped(Read(e).(kex := Some(kex.(phase := WaitingForDh(kex.phase.names.(ignoreGuessed := false))))), [])
  {
    AlsoWithNothingBefore([]);
  }

  // ---------------------------------------------------------------------
  // Strict key exchange once agreed
  // ---------------------------------------------------------------------

  /** What a read packet does to the epoch, the flag and the reading counter:
      only the end of an exchange sets the flag, nothing takes it back, and
      under it each exchange ends with the counter at 0. */
  ghost predicate Counts(e: Endpoint, t: Endpoint) {
    if t.epoch == e.epoch then t.strict == e.strict && t.recvSeqn == NextSeqn(e.recvSeqn)
    else
      && t.epoch == e.epoch + 1
      && (e.strict ==> t.strict)
      && (AwaitsNewKeys(e) ==> (t.strict <==> e.strict || e.kex.value.phase.newkeys.names.strict))
      && t.recvSeqn == if t.strict then 0 else NextSeqn(e.recvSeqn)
  }

  /** It is about to step, with one packet more counted. */
  predicate ReadyToStep(e: Endpoint, begun: Endpoint) {
    && begun.kex.Some? && begun.epoch == e.epoch && begun.strict == e.strict && begun.recvSeqn == NextSeqn(e.recvSeqn)
    && (e.kex.Some? ==> begun.kex == e.kex)
  }

  lemma InitCounts(cfg: Config, e: Endpoint, begun: Endpoint, p: Payload)
    requires ReadyToStep(e, begun) && begun.kex.value.phase.Created?
    ensures Counts(e, OnKexInit(cfg, begun, p).e)
  {
  }

  lemma StepCounts(cfg: Config, e: Endpoint, begun: Endpoint, p: Payload)
    requires ReadyToStep(e, begun)
    ensures Counts(e, (if begun.role.Client? then ClientStep(cfg, begun, p) else ServerStep(cfg, begun, p)).e)
  {
    if begun.kex.value.phase.Created? {
      InitCounts(cfg, e, begun, p);
    }
  }

  lemma ReadingCounts(cfg: Config, e: Endpoint, p: Payload)
    ensures Counts(e, Receive(cfg, e, p).e)
  {
    if !p.Other? && e.kex.Some? {
      StepCounts(cfg, e, Read(e), p);
    } else if p.KexInit? {
      StepCounts(cfg, e, BeginRekey(cfg, Read(e)).e, p);
    }
  }

  /** An endpoint that has agreed on strict key exchange never leaves it, whatever
      its peer offers later. */
  lemma {:induction false} StrictOnceAlways(cfg: Config, e: Endpoint, inputs: seq<Input>)
    requires e.strict
    ensures After(cfg, e, inputs).strict
  {
    if inputs != [] {
      var before := After(cfg, e, inputs[..|inputs| - 1]);
      StrictOnceAlways(cfg, e, inputs[..|inputs| - 1]);
      if inputs[|inputs| - 1].Reads? {
        ReadingCounts(cfg, before, inputs[|inputs| - 1].payload);
      }
    }
  }
}
