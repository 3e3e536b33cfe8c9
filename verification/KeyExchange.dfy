/** Client and server key exchange run against each other over two FIFO wires,
    with any number of rekeys started by either side and any other traffic in
    between. Randomness comes from tapes indexed by the exchange number; DH,
    signatures and hashing are abstract functions. */
module KeyExchange {
  import opened Wire
  import Negotiation

  type Name = Negotiation.Name
  type Names = Negotiation.Names
  type Role = Negotiation.Role

  /** The parts of an exchange that its hash covers. */
  datatype Exchange = Exchange(
    clientId: seq<byte>, serverId: seq<byte>,
    clientInit: seq<byte>, serverInit: seq<byte>,
    clientEphemeral: seq<byte>, serverEphemeral: seq<byte>,
    gex: Option<(seq<byte>, seq<byte>)>  // the client's request and the server's group
  )

  /** What a cipher is keyed with in one direction. */
  datatype Keys = Keys(cipher: Name, mac: Name, key: seq<byte>, iv: seq<byte>, macKey: seq<byte>)

  datatype NewKeys = NewKeys(exchange: Exchange, names: Names, hash: seq<byte>, sessionId: seq<byte>, seal: Keys, open: Keys)

  /** Preferences, identities, randomness and primitives of one connection. */
  datatype Config = Config(
    clientId: seq<byte>, serverId: seq<byte>,
    clientInit: nat -> seq<byte>, serverInit: nat -> seq<byte>,  // the KEXINIT of each exchange
    read: (Role, seq<byte>, bool) -> Option<Names>,              // the peer's KEXINIT against our preferences
    skips: Name -> bool, isGex: Name -> bool, isClear: Name -> bool,
    clientSecret: nat -> nat, serverSecret: nat -> nat,
    request: seq<byte>, group: nat -> seq<byte>, groupOk: seq<byte> -> bool,
    ephemeral: (nat, Option<seq<byte>>) -> seq<byte>,
    shared: (nat, seq<byte>, Option<seq<byte>>) -> seq<byte>,
    exchangeHash: (Exchange, seq<byte>, seq<byte>) -> seq<byte>,
    hostKey: seq<byte>, sign: seq<byte> -> seq<byte>, verify: (seq<byte>, seq<byte>, seq<byte>) -> bool,
    derive: (seq<byte>, seq<byte>, seq<byte>, byte, nat) -> seq<byte>,  // secret, hash, session id, letter, length
    keyLen: Name -> nat, nonceLen: Name -> nat, macKeyLen: Name -> nat
  )

  datatype Cause = Initial | Rekey(strict: bool, sessionId: seq<byte>)

  datatype Phase =
    | Created
    | WaitingForGex(names: Names)
    | WaitingForDh(names: Names)
    | WaitingForNewKeys(newkeys: NewKeys)

  datatype Kex = Kex(exchange: Exchange, cause: Cause, phase: Phase)

  datatype Session = Session(id: seq<byte>, seal: Keys, open: Keys)

  datatype Endpoint = Endpoint(
    role: Role,
    kex: Option<Kex>,         // `None` when idle
    epoch: nat,               // exchanges completed, so also the keys in use
    strict: bool,
    session: Option<Session>,
    sendSeqn: u32,
    recvSeqn: u32,
    failed: bool
  )

  datatype Payload =
    | KexInit(init: seq<byte>)
    | GexRequest(params: seq<byte>)
    | GexGroup(group: seq<byte>)
    | DhInit(ephemeral: seq<byte>)
    | DhReply(hostKey: seq<byte>, ephemeral: seq<byte>, signature: seq<byte>)
    | NewKeysMsg
    | Other

  /** A packet with the cipher (none before the first keys), the sequence number
      and the key epoch it was sealed with, and whether its sender had already sent NEWKEYS but not yet received it
      (`late`, which only the proofs look at). */
  datatype Packet = Packet(payload: Payload, cipher: Option<Name>, seqn: u32, epoch: nat, late: bool)

  // ---------------------------------------------------------------------
  // Keys (section 7.2 of RFC 4253)
  // ---------------------------------------------------------------------

  function Direction(cfg: Config, shared: seq<byte>, hash: seq<byte>, id: seq<byte>, cipher: Name, mac: Name,
                     key: byte, iv: byte, macKey: byte): Keys {
    Keys(cipher, mac,
         cfg.derive(shared, hash, id, key, cfg.keyLen(cipher)),
         cfg.derive(shared, hash, id, iv, cfg.nonceLen(cipher)),
         cfg.derive(shared, hash, id, macKey, cfg.macKeyLen(mac)))
  }

  const A: byte := 65
  const B: byte := 66
  const C: byte := 67
  const D: byte := 68
  const E: byte := 69
  const F: byte := 70

  /** `compute_keys`: sealing and opening material for one side. */
  function ComputeKeys(cfg: Config, role: Role, exchange: Exchange, names: Names, cause: Cause,
                       shared: seq<byte>, hash: seq<byte>): NewKeys {
    var id := if cause.Rekey? then cause.sessionId else hash;
    if role.Server? then
      NewKeys(exchange, names, hash, id,
        Direction(cfg, shared, hash, id, names.cipher, names.serverMac, D, B, F),
        Direction(cfg, shared, hash, id, names.cipher, names.clientMac, C, A, E))
    else
      NewKeys(exchange, names, hash, id,
        Direction(cfg, shared, hash, id, names.cipher, names.clientMac, C, A, E),
        Direction(cfg, shared, hash, id, names.cipher, names.serverMac, D, B, F))
  }

  // ---------------------------------------------------------------------
  // Steps
  // ---------------------------------------------------------------------

  datatype Stepped = Stepped(e: Endpoint, out: seq<Packet>)

  predicate AwaitsNewKeys(e: Endpoint) {
    e.kex.Some? && e.kex.value.phase.WaitingForNewKeys?
  }

  function SealCipher(e: Endpoint): Option<Name> {
    if e.session.Some? then Some(e.session.value.seal.cipher) else None
  }

  function OpenCipher(e: Endpoint): Option<Name> {
    if e.session.Some? then Some(e.session.value.open.cipher) else None
  }

  /** `PacketWriter::packet`: seal with the current number and count on. */
  function Send(s: Stepped, payload: Payload): Stepped {
    var e := s.e;
    Stepped(e.(sendSeqn := NextSeqn(e.sendSeqn)),
            s.out + [Packet(payload, SealCipher(e), e.sendSeqn, e.epoch, AwaitsNewKeys(e))])
  }

  function Fail(e: Endpoint): Stepped {
    Stepped(e.(failed := true), [])
  }

  function OwnInit(cfg: Config, e: Endpoint): seq<byte> {
    if e.role.Client? then cfg.clientInit(e.epoch) else cfg.serverInit(e.epoch)
  }

  /** `begin_rekey` */
  function BeginRekey(cfg: Config, e: Endpoint): Stepped {
    var init := OwnInit(cfg, e);
    var cause := if e.session.None? then Initial else Rekey(e.strict, e.session.value.id);
    var exchange := Exchange(cfg.clientId, cfg.serverId,
                             if e.role.Client? then init else [], if e.role.Client? then [] else init, [], [], None);
    var s := Send(Stepped(e, []), KexInit(init));
    Stepped(s.e.(kex := Some(Kex(exchange, cause, Created))), s.out)
  }

  /** Completion in `reply`: install the keys, keep the first session id, and
      under strict kex start reading at 0 again. */
  function Finish(e: Endpoint, newkeys: NewKeys): Endpoint {
    var strict := e.strict || newkeys.names.strict;
    var id := if e.session.Some? then e.session.value.id else newkeys.sessionId;
    e.(kex := None, epoch := e.epoch + 1, strict := strict, session := Some(Session(id, newkeys.seal, newkeys.open)),
       recvSeqn := if strict then 0 else e.recvSeqn)
  }

  function CauseIsStrict(cause: Cause): bool {
    cause.Rekey? && cause.strict
  }

  /** NEWKEYS goes out with the old number; under strict kex the next packet starts at 0. */
  function SendNewKeys(s: Stepped, newkeys: NewKeys): Stepped
    requires s.e.kex.Some?
  {
    var t := Send(s, NewKeysMsg);
    var reset := newkeys.names.strict || CauseIsStrict(s.e.kex.value.cause);
    Stepped(t.e.(sendSeqn := if reset then 0 else t.e.sendSeqn,
                 kex := Some(t.e.kex.value.(phase := WaitingForNewKeys(newkeys)))), t.out)
  }

  /** The KEXINIT of the peer, common to both roles. */
  function OnKexInit(cfg: Config, e: Endpoint, payload: Payload): Stepped
    requires e.kex.Some?
  {
    if !payload.KexInit? then Fail(e) else
      var kex := e.kex.value;
      var exchange := if e.role.Client? then kex.exchange.(serverInit := payload.init) else kex.exchange.(clientInit := payload.init);
      match cfg.read(e.role, payload.init, CauseIsStrict(kex.cause))
      case None => Fail(e)
      case Some(names) =>
        if names.strict && kex.cause.Initial? && e.recvSeqn != 1 then Fail(e)
        else if cfg.skips(names.kex) then
          var newkeys := ComputeKeys(cfg, e.role, exchange, names, kex.cause, [], []);
          var s := Send(Stepped(e, []), NewKeysMsg);
          Stepped(Finish(s.e, newkeys), s.out)
        else if cfg.isGex(names.kex) then
          var next := e.(kex := Some(kex.(exchange := exchange, phase := WaitingForGex(names))));
          if e.role.Client? then Send(Stepped(next, []), GexRequest(cfg.request)) else Stepped(next, [])
        else if e.role.Client? then
          SendDhInit(cfg, e.(kex := Some(kex.(exchange := exchange))), names)
        else
          Stepped(e.(kex := Some(kex.(exchange := exchange, phase := WaitingForDh(names)))), [])
  }

  function GroupOf(exchange: Exchange): Option<seq<byte>> {
    if exchange.gex.Some? then Some(exchange.gex.value.1) else None
  }

  function SendDhInit(cfg: Config, e: Endpoint, names: Names): Stepped
    requires e.kex.Some?
  {
    var kex := e.kex.value;
    var ephemeral := cfg.ephemeral(cfg.clientSecret(e.epoch), GroupOf(kex.exchange));
    var next := e.(kex := Some(kex.(exchange := kex.exchange.(clientEphemeral := ephemeral), phase := WaitingForDh(names))));
    Send(Stepped(next, []), DhInit(ephemeral))
  }

  /** `ClientKex::step` */
  function ClientStep(cfg: Config, e: Endpoint, payload: Payload): Stepped
    requires e.kex.Some?
  {
    var kex := e.kex.value;
    match kex.phase
    case Created => OnKexInit(cfg, e, payload)
    case WaitingForGex(names) =>
      if !payload.GexGroup? || !cfg.groupOk(payload.group) then Fail(e) else
        SendDhInit(cfg, e.(kex := Some(kex.(exchange := kex.exchange.(gex := Some((cfg.request, payload.group)))))), names)
    case WaitingForDh(names) =>
      if names.ignoreGuessed then
        Stepped(e.(kex := Some(kex.(phase := WaitingForDh(names.(ignoreGuessed := false))))), [])
      else if !payload.DhReply? then Fail(e)
      else
        var exchange := kex.exchange.(serverEphemeral := payload.ephemeral);
        var shared := cfg.shared(cfg.clientSecret(e.epoch), payload.ephemeral, GroupOf(exchange));
        var hash := cfg.exchangeHash(exchange, payload.hostKey, shared);
        if !cfg.verify(payload.hostKey, hash, payload.signature) then Fail(e) else
          var newkeys := ComputeKeys(cfg, e.role, exchange, names, kex.cause, shared, hash);
          SendNewKeys(Stepped(e.(kex := Some(kex.(exchange := exchange))), []), newkeys)
    case WaitingForNewKeys(newkeys) =>
      if !payload.NewKeysMsg? then Fail(e) else Stepped(Finish(e, newkeys), [])
  }

  /** `ServerKex::step` */
  function ServerStep(cfg: Config, e: Endpoint, payload: Payload): Stepped
    requires e.kex.Some?
  {
    var kex := e.kex.value;
    match kex.phase
    case Created => OnKexInit(cfg, e, payload)
    case WaitingForGex(names) =>
      if !payload.GexRequest? then Fail(e) else
        var group := cfg.group(e.epoch);
        var next := e.(kex := Some(kex.(exchange := kex.exchange.(gex := Some((payload.params, group))), phase := WaitingForDh(names))));
        Send(Stepped(next, []), GexGroup(group))
    case WaitingForDh(names) =>
      if names.ignoreGuessed then
        Stepped(e.(kex := Some(kex.(phase := WaitingForDh(names.(ignoreGuessed := false))))), [])
      else if !payload.DhInit? then Fail(e)
      else
        var secret, group := cfg.serverSecret(e.epoch), GroupOf(kex.exchange);
        var exchange := kex.exchange.(clientEphemeral := payload.ephemeral, serverEphemeral := cfg.ephemeral(secret, group));
        var shared := cfg.shared(secret, payload.ephemeral, group);
        var hash := cfg.exchangeHash(exchange, cfg.hostKey, shared);
        var newkeys := ComputeKeys(cfg, e.role, exchange, names, kex.cause, shared, hash);
        var next := e.(kex := Some(kex.(exchange := exchange)));
        var s := Send(Stepped(next, []), DhReply(cfg.hostKey, exchange.serverEphemeral, cfg.sign(hash)));
        SendNewKeys(s, newkeys)
    case WaitingForNewKeys(newkeys) =>
      if !payload.NewKeysMsg? then Fail(e) else Stepped(Finish(e, newkeys), [])
  }

  /** A packet that no exchange claims: before the first exchange is over, a
      server ends the connection over it. */
  function Unclaimed(e: Endpoint): Stepped {
    if e.role.Server? && e.session.None? then Fail(e) else Stepped(e, [])
  }

  /** `reply`, after the packet was read under `recvSeqn`. */
  function Receive(cfg: Config, e0: Endpoint, payload: Payload): Stepped
  {
    var e := Read(e0);
    if payload.Other? then Unclaimed(e) else
      var s := if payload.KexInit? && e.kex.None? then BeginRekey(cfg, e) else Stepped(e, []);
      if s.e.kex.None? then Unclaimed(s.e) else
        var t := if e.role.Client? then ClientStep(cfg, s.e, payload) else ServerStep(cfg, s.e, payload);
        Stepped(t.e, s.out + t.out)
  }

  // ---------------------------------------------------------------------
  // What is assumed of the two sides
  // ---------------------------------------------------------------------

  /** Negotiation ends in `agreed` on both sides of every exchange (see
      `Negotiation.BothSidesAgree`), DH secrets agree, the server's signature
      verifies, and its groups satisfy the client. */
  ghost predicate Lawful(cfg: Config, agreed: Names) {
    && (forall k: nat, strict: bool :: (strict ==> agreed.strict) ==>
          && cfg.read(Negotiation.Client, cfg.serverInit(k), strict) == Some(agreed)
          && cfg.read(Negotiation.Server, cfg.clientInit(k), strict) == Some(agreed))
    && !agreed.ignoreGuessed
    && (forall a: nat, b: nat, g: Option<seq<byte>> ::
          cfg.shared(a, cfg.ephemeral(b, g), g) == cfg.shared(b, cfg.ephemeral(a, g), g))
    && (forall h: seq<byte> :: cfg.verify(cfg.hostKey, h, cfg.sign(h)))
    && (forall k: nat :: cfg.groupOk(cfg.group(k)))
  }

  // ---------------------------------------------------------------------
  // Closed forms: what exchange number `k` must look like
  // ---------------------------------------------------------------------

  function UsesGex(cfg: Config, agreed: Names): bool {
    cfg.isGex(agreed.kex)
  }

  function GexAt(cfg: Config, agreed: Names, k: nat): Option<(seq<byte>, seq<byte>)> {
    if UsesGex(cfg, agreed) then Some((cfg.request, cfg.group(k))) else None
  }

  function GroupAt(cfg: Config, agreed: Names, k: nat): Option<seq<byte>> {
    if UsesGex(cfg, agreed) then Some(cfg.group(k)) else None
  }

  /** The transcript of exchange `k`, the same for both sides. */
  function ExchangeAt(cfg: Config, agreed: Names, k: nat): Exchange {
    var group := GroupAt(cfg, agreed, k);
    Exchange(cfg.clientId, cfg.serverId, cfg.clientInit(k), cfg.serverInit(k),
             cfg.ephemeral(cfg.clientSecret(k), group), cfg.ephemeral(cfg.serverSecret(k), group), GexAt(cfg, agreed, k))
  }

  function SharedAt(cfg: Config, agreed: Names, k: nat): seq<byte> {
    var group := GroupAt(cfg, agreed, k);
    cfg.shared(cfg.clientSecret(k), cfg.ephemeral(cfg.serverSecret(k), group), group)
  }

  function HashAt(cfg: Config, agreed: Names, k: nat): seq<byte> {
    cfg.exchangeHash(ExchangeAt(cfg, agreed, k), cfg.hostKey, SharedAt(cfg, agreed, k))
  }

  function CauseAt(cfg: Config, agreed: Names, k: nat): Cause {
    if k == 0 then Initial else Rekey(agreed.strict, HashAt(cfg, agreed, 0))
  }

  function NewKeysAt(cfg: Config, agreed: Names, role: Role, k: nat): NewKeys
  {
    ComputeKeys(cfg, role, ExchangeAt(cfg, agreed, k), agreed, CauseAt(cfg, agreed, k), SharedAt(cfg, agreed, k), HashAt(cfg, agreed, k))
  }

  /** The session after `k` exchanges. */
  function SessionAt(cfg: Config, agreed: Names, role: Role, k: nat): Option<Session>
  {
    if k == 0 then None else
      var keys := NewKeysAt(cfg, agreed, role, k - 1);
      Some(Session(HashAt(cfg, agreed, 0), keys.seal, keys.open))
  }

  datatype Stage = Idle | Begun | Gexing | Dhing | Closing

  function StageOf(e: Endpoint): Stage {
    match e.kex
    case None => Idle
    case Some(kex) =>
      match kex.phase
      case Created => Begun
      case WaitingForGex(_) => Gexing
      case WaitingForDh(_) => Dhing
      case WaitingForNewKeys(_) => Closing
  }

  function KexAt(cfg: Config, agreed: Names, role: Role, k: nat, stage: Stage): Option<Kex>
  {
    var full := ExchangeAt(cfg, agreed, k);
    var cause := CauseAt(cfg, agreed, k);
    var inits := full.(clientEphemeral := [], serverEphemeral := [], gex := None);
    match stage
    case Idle => None
    case Begun => Some(Kex(if role.Client? then inits.(serverInit := []) else inits.(clientInit := []), cause, Created))
    case Gexing => Some(Kex(inits, cause, WaitingForGex(agreed)))
    case Dhing =>
      Some(Kex(full.(serverEphemeral := [], clientEphemeral := if role.Client? then full.clientEphemeral else []), cause, WaitingForDh(agreed)))
    case Closing => Some(Kex(full, cause, WaitingForNewKeys(NewKeysAt(cfg, agreed, role, k))))
  }

  /** The endpoint that has completed `k` exchanges and is in `stage` of the next. */
  function EndpointAt(cfg: Config, agreed: Names, role: Role, k: nat, stage: Stage, sendSeqn: u32, recvSeqn: u32): Endpoint {
    Endpoint(role, KexAt(cfg, agreed, role, k, stage), k, k > 0 && agreed.strict, SessionAt(cfg, agreed, role, k),
             sendSeqn, recvSeqn, false)
  }

  /** The endpoint is, or was when it failed, exactly what its role, epoch,
      stage and numbers determine. */
  predicate Canonical(cfg: Config, agreed: Names, e: Endpoint)
  {
    && e.(failed := false) == EndpointAt(cfg, agreed, e.role, e.epoch, StageOf(e), e.sendSeqn, e.recvSeqn)
    && (StageOf(e) == Gexing ==> UsesGex(cfg, agreed))
  }

  // ---------------------------------------------------------------------
  // The order of kex messages
  // ---------------------------------------------------------------------

  /** Message `4k + slot` of a side: KEXINIT, group exchange (if any), DH, NEWKEYS of exchange `k`. */
  function MsgAt(cfg: Config, agreed: Names, role: Role, p: nat): Payload {
    var k := p / 4;
    var full := ExchangeAt(cfg, agreed, k);
    match p % 4
    case 0 => KexInit(if role.Client? then cfg.clientInit(k) else cfg.serverInit(k))
    case 1 => if role.Client? then GexRequest(cfg.request) else GexGroup(cfg.group(k))
    case 2 => if role.Client? then DhInit(full.clientEphemeral)
              else DhReply(cfg.hostKey, full.serverEphemeral, cfg.sign(HashAt(cfg, agreed, k)))
    case _ => NewKeysMsg
  }

  function Succ(gex: bool, p: nat): nat {
    if p % 4 == 0 && !gex then p + 2 else p + 1
  }

  predicate Slot(gex: bool, p: nat) {
    gex || p % 4 != 1
  }

  function Messages(cfg: Config, agreed: Names, role: Role, from: nat, to: nat): seq<Payload>
    decreases to - from
  {
    if from >= to then [] else
      [MsgAt(cfg, agreed, role, from)] + Messages(cfg, agreed, role, Succ(UsesGex(cfg, agreed), from), to)
  }

  lemma {:induction false} MessagesSplit(cfg: Config, agreed: Names, role: Role, from: nat, mid: nat, to: nat)
    requires from <= mid <= to
    requires Slot(UsesGex(cfg, agreed), from) && Slot(UsesGex(cfg, agreed), mid)
    ensures Messages(cfg, agreed, role, from, to) == Messages(cfg, agreed, role, from, mid) + Messages(cfg, agreed, role, mid, to)
    decreases mid - from
  {
    var gex := UsesGex(cfg, agreed);
    if from < mid {
      MessagesSplit(cfg, agreed, role, Succ(gex, from), mid, to);
      Regroup([MsgAt(cfg, agreed, role, from)], Messages(cfg, agreed, role, Succ(gex, from), mid), Messages(cfg, agreed, role, mid, to));
    } else {
      assert [] + Messages(cfg, agreed, role, mid, to) == Messages(cfg, agreed, role, mid, to);
    }
  }

  function SendPosIn(role: Role, k: nat, stage: Stage, gex: bool): nat {
    match stage
    case Idle => 4 * k
    case Begun => Succ(gex, 4 * k)
    case Gexing => if role.Client? then 4 * k + 2 else 4 * k + 1
    case Dhing => if role.Client? then 4 * k + 3 else 4 * k + 2
    case Closing => 4 * k + 4
  }

  function RecvPosIn(k: nat, stage: Stage): nat {
    match stage
    case Idle => 4 * k
    case Begun => 4 * k
    case Gexing => 4 * k + 1
    case Dhing => 4 * k + 2
    case Closing => 4 * k + 3
  }

  /** The next message an endpoint will send, and the next it will get. */
  function SendPos(e: Endpoint, gex: bool): nat {
    SendPosIn(e.role, e.epoch, StageOf(e), gex)
  }

  function RecvPos(e: Endpoint): nat {
    RecvPosIn(e.epoch, StageOf(e))
  }

  function PeerOf(role: Role): Role {
    if role.Client? then Negotiation.Server else Negotiation.Client
  }

  function KexPayloads(wire: seq<Packet>): seq<Payload> {
    if wire == [] then [] else
      (if wire[0].payload.Other? then [] else [wire[0].payload]) + KexPayloads(wire[1..])
  }

  lemma {:induction false} KexPayloadsConcat(a: seq<Packet>, b: seq<Packet>)
    ensures KexPayloads(a + b) == KexPayloads(a) + KexPayloads(b)
  {
    if a == [] {
      assert a + b == b;
    } else {
      KexPayloadsConcat(a[1..], b);
      assert (a + b)[1..] == a[1..] + b;
      Regroup(if a[0].payload.Other? then [] else [a[0].payload], KexPayloads(a[1..]), KexPayloads(b));
    }
  }

  // ---------------------------------------------------------------------
  // Sequence numbers and key epochs along a wire
  // ---------------------------------------------------------------------

  /** Where a reader stands: its next sequence number and its key epoch. */
  datatype Mark = Mark(seqn: u32, epoch: nat)

  function Advance(m: Mark, p: Payload, strict: bool): Mark {
    Mark(if p.NewKeysMsg? && strict then 0 else NextSeqn(m.seqn), if p.NewKeysMsg? then m.epoch + 1 else m.epoch)
  }

  /** The cipher of a key epoch. */
  function CipherAt(agreed: Names, epoch: nat): Option<Name> {
    if epoch == 0 then None else Some(agreed.cipher)
  }

  /** The packet carries the number its reader will be at, and the epoch its
      reader will be in, short by one if it was sent late; only kex messages
      are sent without keys, and none of them late. */
  predicate Marked(p: Packet, m: Mark, agreed: Names) {
    && p.seqn == m.seqn && p.epoch + (if p.late then 1 else 0) == m.epoch
    && p.cipher == CipherAt(agreed, p.epoch)
    && (p.late ==> p.payload.Other?) && (p.payload.Other? ==> p.epoch > 0)
  }

  /** Every packet on the wire is marked for where its reader will be. */
  ghost predicate Chained(wire: seq<Packet>, from: Mark, agreed: Names, to: Mark) {
    if wire == [] then from == to else
      && Marked(wire[0], from, agreed)
      && Chained(wire[1..], Advance(from, wire[0].payload, agreed.strict), agreed, to)
  }

  lemma {:induction false} ChainedConcat(a: seq<Packet>, b: seq<Packet>, from: Mark, mid: Mark, to: Mark, agreed: Names)
    requires Chained(a, from, agreed, mid) && Chained(b, mid, agreed, to)
    ensures Chained(a + b, from, agreed, to)
  {
    if a == [] {
      assert a + b == b;
    } else {
      ChainedConcat(a[1..], b, Advance(from, a[0].payload, agreed.strict), mid, to, agreed);
      assert (a + b)[1..] == a[1..] + b;
    }
  }

  function SendMark(e: Endpoint): Mark {
    Mark(e.sendSeqn, e.epoch + (if AwaitsNewKeys(e) then 1 else 0))
  }

  function RecvMark(e: Endpoint): Mark {
    Mark(e.recvSeqn, e.epoch)
  }

  /** `out` holds exactly the kex messages of `role` from position `from` up to
      `to`, numbered for a reader that starts at `m` and ends at `n`. */
  ghost predicate Emits(cfg: Config, agreed: Names, role: Role, from: nat, to: nat, m: Mark, n: Mark, out: seq<Packet>) {
    && from <= to
    && KexPayloads(out) == Messages(cfg, agreed, role, from, to)
    && Chained(out, m, agreed, n)
  }

  lemma EmitsConcat(cfg: Config, agreed: Names, role: Role, from: nat, mid: nat, to: nat, l: Mark, m: Mark, n: Mark,
                    a: seq<Packet>, b: seq<Packet>)
    requires Emits(cfg, agreed, role, from, mid, l, m, a) && Emits(cfg, agreed, role, mid, to, m, n, b)
    requires Slot(UsesGex(cfg, agreed), from) && Slot(UsesGex(cfg, agreed), mid)
    ensures Emits(cfg, agreed, role, from, to, l, n, a + b)
  {
    MessagesSplit(cfg, agreed, role, from, mid, to);
    KexPayloadsConcat(a, b);
    ChainedConcat(a, b, l, m, n, agreed);
  }

  lemma EmitsNothing(cfg: Config, agreed: Names, role: Role, p: nat, m: Mark)
    ensures Emits(cfg, agreed, role, p, p, m, m, [])
  {
  }

  lemma EmitsOne(cfg: Config, agreed: Names, role: Role, p: nat, m: Mark, packet: Packet)
    requires packet.payload == MsgAt(cfg, agreed, role, p) && !packet.payload.Other? && Marked(packet, m, agreed)
    ensures Emits(cfg, agreed, role, p, Succ(UsesGex(cfg, agreed), p), m, Advance(m, packet.payload, agreed.strict), [packet])
  {
    var next := Succ(UsesGex(cfg, agreed), p);
    assert [packet][1..] == [];
    assert KexPayloads([packet]) == [packet.payload] + KexPayloads([]);
    assert Messages(cfg, agreed, role, p, next) == [packet.payload] + Messages(cfg, agreed, role, next, next);
  }

  lemma EmitsTwo(cfg: Config, agreed: Names, role: Role, p: nat, m: Mark, first: Packet, second: Packet)
    requires first.payload == MsgAt(cfg, agreed, role, p) && !first.payload.Other?
    requires p % 4 == 2 && second.payload == MsgAt(cfg, agreed, role, p + 1) && !second.payload.Other?
    requires Marked(first, m, agreed) && Marked(second, Advance(m, first.payload, agreed.strict), agreed)
    ensures var mid := Advance(m, first.payload, agreed.strict);
            Emits(cfg, agreed, role, p, p + 2, m, Advance(mid, second.payload, agreed.strict), [first, second])
  {
    var mid := Advance(m, first.payload, agreed.strict);
    EmitsOne(cfg, agreed, role, p, m, first);
    EmitsOne(cfg, agreed, role, p + 1, mid, second);
    EmitsConcat(cfg, agreed, role, p, p + 1, p + 2, m, mid, Advance(mid, second.payload, agreed.strict), [first], [second]);
    assert [first] + [second] == [first, second];
  }

  lemma EmitsOther(cfg: Config, agreed: Names, role: Role, p: nat, m: Mark, packet: Packet)
    requires packet.payload.Other? && Marked(packet, m, agreed)
    ensures Emits(cfg, agreed, role, p, p, m, Advance(m, packet.payload, agreed.strict), [packet])
  {
    assert [packet][1..] == [];
    assert KexPayloads([packet]) == [] + KexPayloads([]);
  }

  /** Taking the head off what was emitted. */
  lemma EmitsRest(cfg: Config, agreed: Names, role: Role, from: nat, to: nat, m: Mark, n: Mark, wire: seq<Packet>)
    requires Emits(cfg, agreed, role, from, to, m, n, wire) && wire != []
    requires Slot(UsesGex(cfg, agreed), from) && Slot(UsesGex(cfg, agreed), to)
    ensures var payload := wire[0].payload;
            && Marked(wire[0], m, agreed) && (!payload.Other? ==> payload == MsgAt(cfg, agreed, role, from))
            && Emits(cfg, agreed, role, if payload.Other? then from else Succ(UsesGex(cfg, agreed), from), to,
                     Advance(m, payload, agreed.strict), n, wire[1..])
  {
    var msgs := Messages(cfg, agreed, role, from, to);
    if wire[0].payload.Other? {
      assert [] + KexPayloads(wire[1..]) == KexPayloads(wire[1..]);
    } else {
      assert msgs[0] == wire[0].payload && msgs[1..] == KexPayloads(wire[1..]);
    }
  }

  /** What is in flight from `x` to `y`. */
  ghost predicate Link(cfg: Config, agreed: Names, x: Endpoint, y: Endpoint, wire: seq<Packet>) {
    && Emits(cfg, agreed, x.role, RecvPos(y), SendPos(x, UsesGex(cfg, agreed)), RecvMark(y), SendMark(x), wire)
    && (RecvPos(y) == 0 ==> wire != [] && wire[0].payload.KexInit? && y.recvSeqn == 0)
  }

  // ---------------------------------------------------------------------
  // One endpoint's reaction to the message it is due
  // ---------------------------------------------------------------------

  /** `t` sends exactly the messages between the two send positions, properly
      numbered. */
  ghost predicate Reaction(cfg: Config, agreed: Names, e: Endpoint, t: Stepped) {
    var gex := UsesGex(cfg, agreed);
    && t.e.role == e.role
    && Emits(cfg, agreed, e.role, SendPos(e, gex), SendPos(t.e, gex), SendMark(e), SendMark(t.e), t.out)
  }

  ghost predicate AllTimely(wire: seq<Packet>) {
    forall i :: 0 <= i < |wire| ==> !wire[i].late
  }

  lemma SlotNumbers(k: nat)
    ensures (4 * k) / 4 == k && (4 * k) % 4 == 0
    ensures (4 * k + 1) / 4 == k && (4 * k + 1) % 4 == 1
    ensures (4 * k + 2) / 4 == k && (4 * k + 2) % 4 == 2
    ensures (4 * k + 3) / 4 == k && (4 * k + 3) % 4 == 3
    ensures (4 * k + 4) % 4 == 0
  {
  }

  /** The four messages of exchange `k`. */
  lemma MessagesOf(cfg: Config, agreed: Names, role: Role, k: nat)
    ensures MsgAt(cfg, agreed, role, 4 * k) == KexInit(if role.Client? then cfg.clientInit(k) else cfg.serverInit(k))
    ensures MsgAt(cfg, agreed, role, 4 * k + 1) == if role.Client? then GexRequest(cfg.request) else GexGroup(cfg.group(k))
    ensures MsgAt(cfg, agreed, role, 4 * k + 2)
            == if role.Client? then DhInit(ExchangeAt(cfg, agreed, k).clientEphemeral)
               else DhReply(cfg.hostKey, ExchangeAt(cfg, agreed, k).serverEphemeral, cfg.sign(HashAt(cfg, agreed, k)))
    ensures MsgAt(cfg, agreed, role, 4 * k + 3) == NewKeysMsg
  {
    SlotNumbers(k);
  }

  /** The message of the peer that is due in a stage. */
  lemma DueMessage(cfg: Config, agreed: Names, y: Endpoint)
    ensures MsgAt(cfg, agreed, PeerOf(y.role), RecvPos(y))
            == match StageOf(y)
               case Gexing => if y.role.Client? then GexGroup(cfg.group(y.epoch)) else GexRequest(cfg.request)
               case Dhing =>
                 if y.role.Client?
                 then DhReply(cfg.hostKey, ExchangeAt(cfg, agreed, y.epoch).serverEphemeral, cfg.sign(HashAt(cfg, agreed, y.epoch)))
                 else DhInit(ExchangeAt(cfg, agreed, y.epoch).clientEphemeral)
               case Closing => NewKeysMsg
               case _ => KexInit(if y.role.Client? then cfg.serverInit(y.epoch) else cfg.clientInit(y.epoch))
  {
    MessagesOf(cfg, agreed, PeerOf(y.role), y.epoch);
  }

  lemma StageAt(cfg: Config, agreed: Names, role: Role, k: nat, stage: Stage, sendSeqn: u32, recvSeqn: u32)
    requires stage == Gexing ==> UsesGex(cfg, agreed)
    ensures var d := EndpointAt(cfg, agreed, role, k, stage, sendSeqn, recvSeqn);
            && Canonical(cfg, agreed, d) && StageOf(d) == stage && (AwaitsNewKeys(d) <==> stage == Closing)
            && RecvPos(d) == RecvPosIn(k, stage) && RecvMark(d) == Mark(recvSeqn, k)
  {
    assert StageOf(EndpointAt(cfg, agreed, role, k, stage, sendSeqn, recvSeqn)) == stage;
  }

  /** From `e` to `d` with the one message between the two positions. */
  lemma MoveWithMessage(cfg: Config, agreed: Names, e: Endpoint, d: Endpoint, m: Payload)
    requires d.role == e.role && d.epoch == e.epoch && !AwaitsNewKeys(e) && SealCipher(e) == CipherAt(agreed, e.epoch)
    requires var gex := UsesGex(cfg, agreed);
             var p := SendPos(e, gex);
             m == MsgAt(cfg, agreed, e.role, p) && !m.Other? && SendPos(d, gex) == Succ(gex, p)
    requires d.sendSeqn == (if m.NewKeysMsg? && agreed.strict then 0 else NextSeqn(e.sendSeqn))
    requires m.NewKeysMsg? <==> AwaitsNewKeys(d)
    ensures Reaction(cfg, agreed, e, Stepped(d, [Packet(m, SealCipher(e), e.sendSeqn, e.epoch, false)]))
  {
    EmitsOne(cfg, agreed, e.role, SendPos(e, UsesGex(cfg, agreed)), SendMark(e), Packet(m, SealCipher(e), e.sendSeqn, e.epoch, false));
  }

  /** From `e` to `d` in silence. */
  lemma MoveInSilence(cfg: Config, agreed: Names, e: Endpoint, d: Endpoint)
    requires d.role == e.role && SendMark(d) == SendMark(e)
    requires SendPos(d, UsesGex(cfg, agreed)) == SendPos(e, UsesGex(cfg, agreed))
    ensures Reaction(cfg, agreed, e, Stepped(d, []))
  {
    EmitsNothing(cfg, agreed, e.role, SendPos(e, UsesGex(cfg, agreed)), SendMark(e));
  }

  function ReplyAndNewKeys(cfg: Config, agreed: Names, e: Endpoint): seq<Packet> {
    [Packet(MsgAt(cfg, agreed, e.role, 4 * e.epoch + 2), SealCipher(e), e.sendSeqn, e.epoch, false),
     Packet(NewKeysMsg, SealCipher(e), NextSeqn(e.sendSeqn), e.epoch, false)]
  }

  /** The server's DH reply and NEWKEYS, sent together. */
  lemma MoveWithTwo(cfg: Config, agreed: Names, e: Endpoint, d: Endpoint)
    requires d.role == e.role && d.epoch == e.epoch && StageOf(e) == Dhing && e.role.Server? && AwaitsNewKeys(d)
    requires SealCipher(e) == CipherAt(agreed, e.epoch)
    requires d.sendSeqn == Renumbered(agreed, NextSeqn(e.sendSeqn))
    ensures Reaction(cfg, agreed, e, Stepped(d, ReplyAndNewKeys(cfg, agreed, e)))
  {
    var out, p := ReplyAndNewKeys(cfg, agreed, e), 4 * e.epoch + 2;
    SlotNumbers(e.epoch);
    MessagesOf(cfg, agreed, e.role, e.epoch);
    assert SendPos(e, UsesGex(cfg, agreed)) == p && SendPos(d, UsesGex(cfg, agreed)) == p + 2;
    EmitsTwo(cfg, agreed, e.role, p, SendMark(e), out[0], out[1]);
  }

  lemma MoveToNextEpoch(cfg: Config, agreed: Names, e: Endpoint, d: Endpoint)
    requires d.role == e.role && StageOf(e) == Closing && StageOf(d) == Idle
    requires d.epoch == e.epoch + 1 && d.sendSeqn == e.sendSeqn
    ensures Reaction(cfg, agreed, e, Stepped(d, []))
  {
    EmitsNothing(cfg, agreed, e.role, SendPos(e, UsesGex(cfg, agreed)), SendMark(e));
  }

  lemma Begins(cfg: Config, agreed: Names, e: Endpoint)
    requires Canonical(cfg, agreed, e) && e.kex == None && !e.failed
    ensures var t := BeginRekey(cfg, e);
            && t.e == EndpointAt(cfg, agreed, e.role, e.epoch, Begun, NextSeqn(e.sendSeqn), e.recvSeqn)
            && Canonical(cfg, agreed, t.e) && StageOf(t.e) == Begun
            && Reaction(cfg, agreed, e, t) && AllTimely(t.out)
  {
    SlotNumbers(e.epoch);
    StageAt(cfg, agreed, e.role, e.epoch, Begun, NextSeqn(e.sendSeqn), e.recvSeqn);
    MoveWithMessage(cfg, agreed, e, BeginRekey(cfg, e).e, KexInit(OwnInit(cfg, e)));
  }

  /** `y` after the packet was read, before `reply`. */
  function Read(y: Endpoint): Endpoint {
    y.(recvSeqn := NextSeqn(y.recvSeqn))
  }

  function StepOf(cfg: Config, e: Endpoint, payload: Payload): Stepped
    requires e.kex.Some?
  {
    if e.role.Client? then ClientStep(cfg, e, payload) else ServerStep(cfg, e, payload)
  }

  /** The message due in this stage. */
  ghost predicate Due(cfg: Config, agreed: Names, e: Endpoint, stage: Stage, payload: Payload) {
    && Lawful(cfg, agreed) && !cfg.skips(agreed.kex) && !e.failed
    && Canonical(cfg, agreed, e) && StageOf(e) == stage
    && payload == MsgAt(cfg, agreed, PeerOf(e.role), RecvPos(e))
    && (RecvPos(e) == 0 ==> e.recvSeqn == 0)
  }

  /** The stage that follows KEXINIT. */
  function AfterInit(cfg: Config, agreed: Names): Stage {
    if UsesGex(cfg, agreed) then Gexing else Dhing
  }

  /** The number after NEWKEYS. */
  function Renumbered(agreed: Names, seqn: u32): u32 {
    if agreed.strict then 0 else NextSeqn(seqn)
  }

  /** The message `e` is to send next. */
  function NextMsg(cfg: Config, agreed: Names, e: Endpoint): Packet {
    Packet(MsgAt(cfg, agreed, e.role, SendPos(e, UsesGex(cfg, agreed))), SealCipher(e), e.sendSeqn, e.epoch, false)
  }

  /** The move of `y` to `stage` with what it sends. */
  function Moved(cfg: Config, agreed: Names, y: Endpoint, stage: Stage, sendSeqn: u32, out: seq<Packet>): Stepped {
    Stepped(EndpointAt(cfg, agreed, y.role, y.epoch, stage, sendSeqn, NextSeqn(y.recvSeqn)), out)
  }

  /** The peer's KEXINIT is read into the agreement. */
  lemma InitIsRead(cfg: Config, agreed: Names, y: Endpoint, payload: Payload)
    requires Due(cfg, agreed, y, Begun, payload)
    ensures payload == KexInit(if y.role.Client? then cfg.serverInit(y.epoch) else cfg.clientInit(y.epoch))
    ensures y.kex == KexAt(cfg, agreed, y.role, y.epoch, Begun)
    ensures cfg.read(y.role, payload.init, CauseIsStrict(y.kex.value.cause)) == Some(agreed)
    ensures y.kex.value.cause.Initial? ==> y.recvSeqn == 0
  {
    DueMessage(cfg, agreed, y);
  }

  /** What the client sends on it. */
  lemma ClientSendsNext(cfg: Config, agreed: Names, y: Endpoint, payload: Payload)
    requires Due(cfg, agreed, y, Begun, payload) && y.role.Client?
    ensures NextMsg(cfg, agreed, y).payload
            == if UsesGex(cfg, agreed) then GexRequest(cfg.request) else DhInit(cfg.ephemeral(cfg.clientSecret(y.epoch), None))
  {
    MessagesOf(cfg, agreed, y.role, y.epoch);
    assert SendPos(y, UsesGex(cfg, agreed)) == if UsesGex(cfg, agreed) then 4 * y.epoch + 1 else 4 * y.epoch + 2;
  }

  lemma ClientInBegun(cfg: Config, agreed: Names, y: Endpoint, payload: Payload)
    requires Due(cfg, agreed, y, Begun, payload) && y.role.Client?
    ensures StepOf(cfg, Read(y), payload)
            == Moved(cfg, agreed, y, AfterInit(cfg, agreed), NextSeqn(y.sendSeqn), [NextMsg(cfg, agreed, y)])
  {
    InitIsRead(cfg, agreed, y, payload);
    ClientSendsNext(cfg, agreed, y, payload);
  }

  lemma ServerInBegun(cfg: Config, agreed: Names, y: Endpoint, payload: Payload)
    requires Due(cfg, agreed, y, Begun, payload) && y.role.Server?
    ensures StepOf(cfg, Read(y), payload)
            == Moved(cfg, agreed, y, AfterInit(cfg, agreed), y.sendSeqn, [])
  {
    InitIsRead(cfg, agreed, y, payload);
  }

  lemma InGexing(cfg: Config, agreed: Names, y: Endpoint, payload: Payload)
    requires Due(cfg, agreed, y, Gexing, payload)
    ensures StepOf(cfg, Read(y), payload)
            == Moved(cfg, agreed, y, Dhing, NextSeqn(y.sendSeqn), [NextMsg(cfg, agreed, y)])
  {
    if y.role.Client? {
      ClientInGexing(cfg, agreed, y, payload);
    } else {
      ServerInGexing(cfg, agreed, y, payload);
    }
  }

  lemma GroupIsRead(cfg: Config, agreed: Names, y: Endpoint, payload: Payload)
    requires Due(cfg, agreed, y, Gexing, payload) && y.role.Client?
    ensures payload == GexGroup(cfg.group(y.epoch)) && cfg.groupOk(payload.group)
    ensures y.kex == KexAt(cfg, agreed, y.role, y.epoch, Gexing) && UsesGex(cfg, agreed)
  {
    DueMessage(cfg, agreed, y);
  }

  lemma EphemeralIsNext(cfg: Config, agreed: Names, y: Endpoint)
    requires StageOf(y) == Gexing && y.role.Client? && UsesGex(cfg, agreed)
    ensures NextMsg(cfg, agreed, y).payload == DhInit(cfg.ephemeral(cfg.clientSecret(y.epoch), Some(cfg.group(y.epoch))))
  {
    MessagesOf(cfg, agreed, y.role, y.epoch);
    assert SendPos(y, true) == 4 * y.epoch + 2;
  }

  lemma ClientInGexing(cfg: Config, agreed: Names, y: Endpoint, payload: Payload)
    requires Due(cfg, agreed, y, Gexing, payload) && y.role.Client?
    ensures ClientStep(cfg, Read(y), payload)
            == Moved(cfg, agreed, y, Dhing, NextSeqn(y.sendSeqn), [NextMsg(cfg, agreed, y)])
  {
    GroupIsRead(cfg, agreed, y, payload);
    EphemeralIsNext(cfg, agreed, y);
  }

  lemma ServerInGexing(cfg: Config, agreed: Names, y: Endpoint, payload: Payload)
    requires Due(cfg, agreed, y, Gexing, payload) && y.role.Server?
    ensures ServerStep(cfg, Read(y), payload)
            == Moved(cfg, agreed, y, Dhing, NextSeqn(y.sendSeqn), [NextMsg(cfg, agreed, y)])
  {
    SlotNumbers(y.epoch);
  }

  /** The server's reply, and what it completes. */
  lemma ReplyIsRead(cfg: Config, agreed: Names, y: Endpoint, payload: Payload)
    requires Due(cfg, agreed, y, Dhing, payload) && y.role.Client?
    ensures var full := ExchangeAt(cfg, agreed, y.epoch);
            && payload == DhReply(cfg.hostKey, full.serverEphemeral, cfg.sign(HashAt(cfg, agreed, y.epoch)))
            && y.kex == Some(Kex(full.(serverEphemeral := []), CauseAt(cfg, agreed, y.epoch), WaitingForDh(agreed)))
            && full.(serverEphemeral := []).(serverEphemeral := full.serverEphemeral) == full
            && GroupOf(full) == GroupAt(cfg, agreed, y.epoch)
  {
    DueMessage(cfg, agreed, y);
  }

  lemma ClientInDhing(cfg: Config, agreed: Names, y: Endpoint, payload: Payload)
    requires Due(cfg, agreed, y, Dhing, payload) && y.role.Client?
    ensures StepOf(cfg, Read(y), payload)
            == Moved(cfg, agreed, y, Closing, Renumbered(agreed, y.sendSeqn),
                     [Packet(NewKeysMsg, SealCipher(y), y.sendSeqn, y.epoch, false)])
  {
    var hash := HashAt(cfg, agreed, y.epoch);
    ReplyIsRead(cfg, agreed, y, payload);
    assert cfg.verify(cfg.hostKey, hash, cfg.sign(hash));
  }

  /** What the server completes on the client's ephemeral is the transcript. */
  lemma ServerCompletes(cfg: Config, agreed: Names, y: Endpoint, payload: Payload)
    requires Due(cfg, agreed, y, Dhing, payload) && y.role.Server?
    ensures payload.DhInit? && y.kex.value == Kex(y.kex.value.exchange, CauseAt(cfg, agreed, y.epoch), WaitingForDh(agreed))
    ensures var k, x := y.epoch, y.kex.value.exchange;
            var ephemeral := cfg.ephemeral(cfg.serverSecret(k), GroupAt(cfg, agreed, k));
            && GroupOf(x) == GroupAt(cfg, agreed, k)
            && x.(clientEphemeral := payload.ephemeral, serverEphemeral := ephemeral) == ExchangeAt(cfg, agreed, k)
            && cfg.shared(cfg.serverSecret(k), payload.ephemeral, GroupAt(cfg, agreed, k)) == SharedAt(cfg, agreed, k)
  {
    SlotNumbers(y.epoch);
  }

  lemma ServerInDhing(cfg: Config, agreed: Names, y: Endpoint, payload: Payload)
    requires Due(cfg, agreed, y, Dhing, payload) && y.role.Server?
    ensures StepOf(cfg, Read(y), payload)
            == Moved(cfg, agreed, y, Closing, Renumbered(agreed, NextSeqn(y.sendSeqn)), ReplyAndNewKeys(cfg, agreed, y))
  {
    SlotNumbers(y.epoch);
    ServerCompletes(cfg, agreed, y, payload);
  }

  /** Installing the keys of exchange `k` leads to the endpoint of the next. */
  lemma FinishIsNext(cfg: Config, agreed: Names, y: Endpoint)
    requires Canonical(cfg, agreed, y) && StageOf(y) == Closing && !y.failed
    ensures y.kex.value.phase == WaitingForNewKeys(NewKeysAt(cfg, agreed, y.role, y.epoch))
    ensures Finish(Read(y), NewKeysAt(cfg, agreed, y.role, y.epoch))
            == EndpointAt(cfg, agreed, y.role, y.epoch + 1, Idle, y.sendSeqn, if agreed.strict then 0 else NextSeqn(y.recvSeqn))
  {
  }

  lemma InClosing(cfg: Config, agreed: Names, y: Endpoint, payload: Payload)
    requires Due(cfg, agreed, y, Closing, payload)
    ensures StepOf(cfg, Read(y), payload)
            == Stepped(EndpointAt(cfg, agreed, y.role, y.epoch + 1, Idle, y.sendSeqn, if agreed.strict then 0 else NextSeqn(y.recvSeqn)), [])
  {
    NewKeysAreDue(cfg, agreed, y, payload);
    FinishIsNext(cfg, agreed, y);
  }

  lemma NewKeysAreDue(cfg: Config, agreed: Names, y: Endpoint, payload: Payload)
    requires Due(cfg, agreed, y, Closing, payload)
    ensures payload == NewKeysMsg
  {
    DueMessage(cfg, agreed, y);
  }

  lemma ReactTwice(cfg: Config, agreed: Names, e: Endpoint, s: Stepped, t: Stepped)
    requires Reaction(cfg, agreed, e, s) && Reaction(cfg, agreed, s.e, t)
    requires Canonical(cfg, agreed, e) && Canonical(cfg, agreed, s.e)
    ensures Reaction(cfg, agreed, e, Stepped(t.e, s.out + t.out))
  {
    var gex := UsesGex(cfg, agreed);
    PositionsAreSlots(cfg, agreed, e);
    PositionsAreSlots(cfg, agreed, s.e);
    EmitsConcat(cfg, agreed, e.role, SendPos(e, gex), SendPos(s.e, gex), SendPos(t.e, gex),
                SendMark(e), SendMark(s.e), SendMark(t.e), s.out, t.out);
  }

  lemma PositionsAreSlots(cfg: Config, agreed: Names, e: Endpoint)
    requires Canonical(cfg, agreed, e)
    ensures Slot(UsesGex(cfg, agreed), SendPos(e, UsesGex(cfg, agreed))) && Slot(UsesGex(cfg, agreed), RecvPos(e))
  {
    SlotNumbers(e.epoch);
  }

  ghost predicate Received(cfg: Config, agreed: Names, y: Endpoint, payload: Payload, t: Stepped) {
    && Canonical(cfg, agreed, t.e) && !t.e.failed
    && Reaction(cfg, agreed, y, t) && AllTimely(t.out)
    && RecvPos(t.e) == Succ(UsesGex(cfg, agreed), RecvPos(y))
    && RecvMark(t.e) == Advance(RecvMark(y), payload, agreed.strict)
  }

  /** Within an exchange, moving to the stage that the message leads to is receipt. */
  lemma MoveIsReceipt(cfg: Config, agreed: Names, y: Endpoint, payload: Payload, stage: Stage, sendSeqn: u32, out: seq<Packet>)
    requires (stage == Gexing ==> UsesGex(cfg, agreed)) && AllTimely(out)
    requires Reaction(cfg, agreed, y, Moved(cfg, agreed, y, stage, sendSeqn, out))
    requires RecvPosIn(y.epoch, stage) == Succ(UsesGex(cfg, agreed), RecvPos(y)) && !payload.NewKeysMsg?
    ensures Received(cfg, agreed, y, payload, Moved(cfg, agreed, y, stage, sendSeqn, out))
  {
    StageAt(cfg, agreed, y.role, y.epoch, stage, sendSeqn, NextSeqn(y.recvSeqn));
  }

  lemma ReceivesInBegun(cfg: Config, agreed: Names, y: Endpoint, payload: Payload)
    requires Due(cfg, agreed, y, Begun, payload)
    ensures Received(cfg, agreed, y, payload, StepOf(cfg, Read(y), payload))
  {
    var stage := AfterInit(cfg, agreed);
    SlotNumbers(y.epoch);
    if y.role.Client? {
      var out := [NextMsg(cfg, agreed, y)];
      var d := Moved(cfg, agreed, y, stage, NextSeqn(y.sendSeqn), out).e;
      StageAt(cfg, agreed, y.role, y.epoch, stage, NextSeqn(y.sendSeqn), NextSeqn(y.recvSeqn));
      ClientInBegun(cfg, agreed, y, payload);
      MoveWithMessage(cfg, agreed, y, d, out[0].payload);
      MoveIsReceipt(cfg, agreed, y, payload, stage, NextSeqn(y.sendSeqn), out);
    } else {
      StageAt(cfg, agreed, y.role, y.epoch, stage, y.sendSeqn, NextSeqn(y.recvSeqn));
      ServerInBegun(cfg, agreed, y, payload);
      MoveInSilence(cfg, agreed, y, Moved(cfg, agreed, y, stage, y.sendSeqn, []).e);
      MoveIsReceipt(cfg, agreed, y, payload, stage, y.sendSeqn, []);
    }
  }

  lemma ReceivesInGexing(cfg: Config, agreed: Names, y: Endpoint, payload: Payload)
    requires Due(cfg, agreed, y, Gexing, payload)
    ensures Received(cfg, agreed, y, payload, StepOf(cfg, Read(y), payload))
  {
    var out := [NextMsg(cfg, agreed, y)];
    SlotNumbers(y.epoch);
    StageAt(cfg, agreed, y.role, y.epoch, Dhing, NextSeqn(y.sendSeqn), NextSeqn(y.recvSeqn));
    InGexing(cfg, agreed, y, payload);
    MoveWithMessage(cfg, agreed, y, Moved(cfg, agreed, y, Dhing, NextSeqn(y.sendSeqn), out).e, out[0].payload);
    MoveIsReceipt(cfg, agreed, y, payload, Dhing, NextSeqn(y.sendSeqn), out);
  }

  /** The client's NEWKEYS, sent on its own. */
  lemma MoveWithNewKeys(cfg: Config, agreed: Names, e: Endpoint, d: Endpoint)
    requires d.role == e.role && d.epoch == e.epoch && StageOf(e) == Dhing && e.role.Client? && StageOf(d) == Closing
    requires SealCipher(e) == CipherAt(agreed, e.epoch) && d.sendSeqn == Renumbered(agreed, e.sendSeqn)
    ensures Reaction(cfg, agreed, e, Stepped(d, [Packet(NewKeysMsg, SealCipher(e), e.sendSeqn, e.epoch, false)]))
  {
    MessagesOf(cfg, agreed, e.role, e.epoch);
    assert SendPos(e, UsesGex(cfg, agreed)) == 4 * e.epoch + 3 && SendPos(d, UsesGex(cfg, agreed)) == 4 * e.epoch + 4;
    SlotNumbers(e.epoch);
    MoveWithMessage(cfg, agreed, e, d, NewKeysMsg);
  }

  lemma ClientReceivesInDhing(cfg: Config, agreed: Names, y: Endpoint, payload: Payload)
    requires Due(cfg, agreed, y, Dhing, payload) && y.role.Client?
    ensures Received(cfg, agreed, y, payload, StepOf(cfg, Read(y), payload))
  {
    var n, out := Renumbered(agreed, y.sendSeqn), [Packet(NewKeysMsg, SealCipher(y), y.sendSeqn, y.epoch, false)];
    StageAt(cfg, agreed, y.role, y.epoch, Closing, n, NextSeqn(y.recvSeqn));
    ClientInDhing(cfg, agreed, y, payload);
    MoveWithNewKeys(cfg, agreed, y, Moved(cfg, agreed, y, Closing, n, out).e);
    ReplyIsRead(cfg, agreed, y, payload);
    SlotNumbers(y.epoch);
    MoveIsReceipt(cfg, agreed, y, payload, Closing, n, out);
  }

  lemma ServerReceivesInDhing(cfg: Config, agreed: Names, y: Endpoint, payload: Payload)
    requires Due(cfg, agreed, y, Dhing, payload) && y.role.Server?
    ensures Received(cfg, agreed, y, payload, StepOf(cfg, Read(y), payload))
  {
    var n, out := Renumbered(agreed, NextSeqn(y.sendSeqn)), ReplyAndNewKeys(cfg, agreed, y);
    SlotNumbers(y.epoch);
    StageAt(cfg, agreed, y.role, y.epoch, Closing, n, NextSeqn(y.recvSeqn));
    ServerInDhing(cfg, agreed, y, payload);
    MoveWithTwo(cfg, agreed, y, Moved(cfg, agreed, y, Closing, n, out).e);
    MoveIsReceipt(cfg, agreed, y, payload, Closing, n, out);
  }

  lemma ClosingIsReceipt(cfg: Config, agreed: Names, y: Endpoint, payload: Payload, d: Endpoint)
    requires d.role == y.role && StageOf(y) == Closing && StageOf(d) == Idle && payload.NewKeysMsg?
    requires d.epoch == y.epoch + 1 && d.sendSeqn == y.sendSeqn && Canonical(cfg, agreed, d) && !d.failed
    requires d.recvSeqn == if agreed.strict then 0 else NextSeqn(y.recvSeqn)
    ensures Received(cfg, agreed, y, payload, Stepped(d, []))
  {
    SlotNumbers(y.epoch);
    MoveToNextEpoch(cfg, agreed, y, d);
  }

  lemma ReceivesInClosing(cfg: Config, agreed: Names, y: Endpoint, payload: Payload)
    requires Due(cfg, agreed, y, Closing, payload)
    ensures Received(cfg, agreed, y, payload, StepOf(cfg, Read(y), payload))
  {
    var r := if agreed.strict then 0 else NextSeqn(y.recvSeqn);
    SlotNumbers(y.epoch);
    StageAt(cfg, agreed, y.role, y.epoch + 1, Idle, y.sendSeqn, r);
    InClosing(cfg, agreed, y, payload);
    ClosingIsReceipt(cfg, agreed, y, payload, EndpointAt(cfg, agreed, y.role, y.epoch + 1, Idle, y.sendSeqn, r));
  }

  lemma ReceivesInStage(cfg: Config, agreed: Names, y: Endpoint, payload: Payload)
    requires Due(cfg, agreed, y, StageOf(y), payload) && StageOf(y) != Idle
    ensures Received(cfg, agreed, y, payload, StepOf(cfg, Read(y), payload))
  {
    match StageOf(y) {
      case Begun => ReceivesInBegun(cfg, agreed, y, payload);
      case Gexing => ReceivesInGexing(cfg, agreed, y, payload);
      case Dhing =>
        if y.role.Client? {
          ClientReceivesInDhing(cfg, agreed, y, payload);
        } else {
          ServerReceivesInDhing(cfg, agreed, y, payload);
        }
      case Closing => ReceivesInClosing(cfg, agreed, y, payload);
    }
  }

  /** It makes no difference whether the packet was counted before or after beginning. */
  lemma BeginsAsReading(cfg: Config, y: Endpoint)
    ensures BeginRekey(cfg, Read(y)) == Stepped(Read(BeginRekey(cfg, y).e), BeginRekey(cfg, y).out)
  {
  }

  /** A KEXINIT out of the blue: begin, then read it. */
  lemma ReceivesWhenIdle(cfg: Config, agreed: Names, y: Endpoint, payload: Payload)
    requires Due(cfg, agreed, y, Idle, payload)
    ensures Received(cfg, agreed, y, payload, Receive(cfg, y, payload))
  {
    SlotNumbers(y.epoch);
    Begins(cfg, agreed, y);
    BeginsAsReading(cfg, y);
    var s := BeginRekey(cfg, y);
    ReceivesInBegun(cfg, agreed, s.e, payload);
    ReceivedAfter(cfg, agreed, y, s, payload, StepOf(cfg, Read(s.e), payload));
  }

  /** A step that reads nothing, and then receipt, are receipt together. */
  lemma ReceivedAfter(cfg: Config, agreed: Names, y: Endpoint, s: Stepped, payload: Payload, t: Stepped)
    requires Canonical(cfg, agreed, y) && Canonical(cfg, agreed, s.e) && Reaction(cfg, agreed, y, s) && AllTimely(s.out)
    requires RecvPos(s.e) == RecvPos(y) && RecvMark(s.e) == RecvMark(y) && Received(cfg, agreed, s.e, payload, t)
    ensures Received(cfg, agreed, y, payload, Stepped(t.e, s.out + t.out))
  {
    ReactTwice(cfg, agreed, y, s, t);
  }

  /** The message due moves the endpoint on, whatever stage it is in. */
  lemma Receives(cfg: Config, agreed: Names, y: Endpoint, payload: Payload)
    requires Due(cfg, agreed, y, StageOf(y), payload) && !payload.Other?
    ensures Received(cfg, agreed, y, payload, Receive(cfg, y, payload))
  {
    if StageOf(y) == Idle {
      ReceivesWhenIdle(cfg, agreed, y, payload);
    } else {
      ReceivesInStage(cfg, agreed, y, payload);
      AlsoWithNothingBefore(StepOf(cfg, Read(y), payload).out);
    }
  }

  lemma AlsoWithNothingBefore(out: seq<Packet>)
    ensures [] + out == out
  {
  }

  // ---------------------------------------------------------------------
  // Runs
  // ---------------------------------------------------------------------

  datatype System = System(client: Endpoint, server: Endpoint, toClient: seq<Packet>, toServer: seq<Packet>)

  datatype Move =
    | SendOther(role: Role)   // any packet that is not part of a key exchange
    | StartRekey(role: Role)
    | Deliver(role: Role)

  function At(s: System, role: Role): Endpoint {
    if role.Client? then s.client else s.server
  }

  function WireTo(s: System, role: Role): seq<Packet> {
    if role.Client? then s.toClient else s.toServer
  }

  /** `role` has moved on to `t.e` and put `t.out` on the wire to its peer. */
  function Put(s: System, role: Role, t: Stepped): System {
    if role.Client? then s.(client := t.e, toServer := s.toServer + t.out)
    else s.(server := t.e, toClient := s.toClient + t.out)
  }

  function Pop(s: System, role: Role): System
    requires WireTo(s, role) != []
  {
    if role.Client? then s.(toClient := s.toClient[1..]) else s.(toServer := s.toServer[1..])
  }

  predicate InTheClear(cfg: Config, cipher: Option<Name>) {
    cipher == None || cfg.isClear(cipher.value)
  }

  /** A packet opens under the keys and the number it was sealed with, and under
      no others, unless neither side encrypts at all. */
  predicate Opens(cfg: Config, e: Endpoint, p: Packet) {
    || (p.epoch == e.epoch && p.seqn == e.recvSeqn)
    || (InTheClear(cfg, p.cipher) && InTheClear(cfg, OpenCipher(e)))
  }

  /** `read` and `reply`: a packet that does not open ends the connection. */
  function ReadPacket(cfg: Config, e: Endpoint, p: Packet): Stepped {
    if Opens(cfg, e, p) then Receive(cfg, e, p.payload) else Fail(e)
  }

  /** One event; an endpoint that failed is gone. */
  function Step(cfg: Config, s: System, m: Move): System {
    if At(s, m.role).failed then s else
    match m
    case SendOther(role) =>
      if At(s, role).session.None? then s else Put(s, role, Send(Stepped(At(s, role), []), Other))
    case StartRekey(role) => if At(s, role).kex.Some? then s else Put(s, role, BeginRekey(cfg, At(s, role)))
    case Deliver(role) =>
      if WireTo(s, role) == [] then s else
        Put(Pop(s, role), role, ReadPacket(cfg, At(s, role), WireTo(s, role)[0]))
  }

  function Run(cfg: Config, s: System, moves: seq<Move>): System
    decreases |moves|
  {
    if moves == [] then s else Run(cfg, Step(cfg, s, moves[0]), moves[1..])
  }

  function Fresh(role: Role): Endpoint {
    Endpoint(role, None, 0, false, None, 0, 0, false)
  }

  /** Both sides connect and begin the first exchange. */
  function Start(cfg: Config): System {
    var c := BeginRekey(cfg, Fresh(Negotiation.Client));
    var s := BeginRekey(cfg, Fresh(Negotiation.Server));
    System(c.e, s.e, s.out, c.out)
  }

  /** Both endpoints have their closed form, and what is on its way to one that
      has not failed is what it is due. */
  ghost predicate Inv(cfg: Config, agreed: Names, s: System) {
    && s.client.role == Negotiation.Client && s.server.role == Negotiation.Server
    && Canonical(cfg, agreed, s.client) && Canonical(cfg, agreed, s.server)
    && (!s.server.failed ==> Link(cfg, agreed, s.client, s.server, s.toServer))
    && (!s.client.failed ==> Link(cfg, agreed, s.server, s.client, s.toClient))
  }

  lemma StartHolds(cfg: Config, agreed: Names)
    requires Lawful(cfg, agreed)
    ensures Inv(cfg, agreed, Start(cfg))
  {
    Begins(cfg, agreed, Fresh(Negotiation.Client));
    Begins(cfg, agreed, Fresh(Negotiation.Server));
  }

  lemma LinkAppend(cfg: Config, agreed: Names, x: Endpoint, y: Endpoint, wire: seq<Packet>, t: Stepped)
    requires Link(cfg, agreed, x, y, wire) && Canonical(cfg, agreed, x) && Canonical(cfg, agreed, y)
    requires Reaction(cfg, agreed, x, t)
    ensures Link(cfg, agreed, t.e, y, wire + t.out)
  {
    var gex := UsesGex(cfg, agreed);
    PositionsAreSlots(cfg, agreed, x);
    PositionsAreSlots(cfg, agreed, y);
    EmitsConcat(cfg, agreed, x.role, RecvPos(y), SendPos(x, gex), SendPos(t.e, gex),
                RecvMark(y), SendMark(x), SendMark(t.e), wire, t.out);
  }

  lemma SendOtherReacts(cfg: Config, agreed: Names, e: Endpoint)
    requires Canonical(cfg, agreed, e) && e.session.Some?
    ensures var t := Send(Stepped(e, []), Other);
            && Reaction(cfg, agreed, e, t) && Canonical(cfg, agreed, t.e)
            && RecvPos(t.e) == RecvPos(e) && RecvMark(t.e) == RecvMark(e)
  {
    StageAt(cfg, agreed, e.role, e.epoch, StageOf(e), NextSeqn(e.sendSeqn), e.recvSeqn);
    EmitsOther(cfg, agreed, e.role, SendPos(e, UsesGex(cfg, agreed)), SendMark(e), Send(Stepped(e, []), Other).out[0]);
  }

  lemma InvAfterPut(cfg: Config, agreed: Names, s: System, role: Role, t: Stepped)
    requires s.client.role == Negotiation.Client && s.server.role == Negotiation.Server && t.e.role == role
    requires Canonical(cfg, agreed, t.e) && Canonical(cfg, agreed, At(s, PeerOf(role)))
    requires !t.e.failed ==> Link(cfg, agreed, At(s, PeerOf(role)), t.e, WireTo(s, role))
    requires !At(s, PeerOf(role)).failed ==> Link(cfg, agreed, t.e, At(s, PeerOf(role)), WireTo(s, PeerOf(role)) + t.out)
    ensures Inv(cfg, agreed, Put(s, role, t))
  {
    if role.Client? {
      assert Put(s, role, t) == System(t.e, s.server, s.toClient, s.toServer + t.out);
    } else {
      assert Put(s, role, t) == System(s.client, t.e, s.toClient + t.out, s.toServer);
    }
  }

  /** Moving one endpoint on keeps the invariant. */
  lemma PutKeeps(cfg: Config, agreed: Names, s: System, role: Role, t: Stepped)
    requires Inv(cfg, agreed, s) && Reaction(cfg, agreed, At(s, role), t) && Canonical(cfg, agreed, t.e)
    requires !At(s, role).failed
    requires RecvPos(t.e) == RecvPos(At(s, role)) && RecvMark(t.e) == RecvMark(At(s, role))
    ensures Inv(cfg, agreed, Put(s, role, t))
  {
    if !At(s, PeerOf(role)).failed {
      LinkAppend(cfg, agreed, At(s, role), At(s, PeerOf(role)), WireTo(s, PeerOf(role)), t);
    }
    InvAfterPut(cfg, agreed, s, role, t);
  }

  /** The reader's side of a delivery. */
  lemma LinkPop(cfg: Config, agreed: Names, x: Endpoint, y: Endpoint, wire: seq<Packet>, z: Endpoint)
    requires Link(cfg, agreed, x, y, wire) && wire != [] && Canonical(cfg, agreed, x) && Canonical(cfg, agreed, y)
    requires RecvMark(z) == Advance(RecvMark(y), wire[0].payload, agreed.strict)
    requires RecvPos(z) == if wire[0].payload.Other? then RecvPos(y) else Succ(UsesGex(cfg, agreed), RecvPos(y))
    ensures Link(cfg, agreed, x, z, wire[1..])
  {
    var gex := UsesGex(cfg, agreed);
    PositionsAreSlots(cfg, agreed, x);
    PositionsAreSlots(cfg, agreed, y);
    EmitsRest(cfg, agreed, x.role, RecvPos(y), SendPos(x, gex), RecvMark(y), SendMark(x), wire);
  }

  /** The next kex message on the wire is the one its reader is due. */
  lemma NextIsReady(cfg: Config, agreed: Names, x: Endpoint, y: Endpoint, wire: seq<Packet>)
    requires Lawful(cfg, agreed) && !cfg.skips(agreed.kex) && x.role == PeerOf(y.role) && !y.failed
    requires Link(cfg, agreed, x, y, wire) && wire != [] && Canonical(cfg, agreed, x) && Canonical(cfg, agreed, y)
    ensures if wire[0].payload.Other? then y.epoch > 0 else Due(cfg, agreed, y, StageOf(y), wire[0].payload)
  {
    PositionsAreSlots(cfg, agreed, x);
    PositionsAreSlots(cfg, agreed, y);
    EmitsRest(cfg, agreed, x.role, RecvPos(y), SendPos(x, UsesGex(cfg, agreed)), RecvMark(y), SendMark(x), wire);
  }

  lemma ReadOther(cfg: Config, agreed: Names, y: Endpoint)
    requires Canonical(cfg, agreed, y) && y.epoch > 0
    ensures Receive(cfg, y, Other) == Stepped(Read(y), [])
    ensures Reaction(cfg, agreed, y, Stepped(Read(y), []))
    ensures RecvPos(Read(y)) == RecvPos(y) && RecvMark(Read(y)) == Advance(RecvMark(y), Other, agreed.strict)
  {
    EmitsNothing(cfg, agreed, y.role, SendPos(y, UsesGex(cfg, agreed)), SendMark(y));
  }

  /** What reading the head of its wire does to the reader, if it opens. */
  lemma HeadIsReceived(cfg: Config, agreed: Names, x: Endpoint, y: Endpoint, wire: seq<Packet>)
    requires Lawful(cfg, agreed) && !cfg.skips(agreed.kex) && x.role == PeerOf(y.role) && !y.failed
    requires Link(cfg, agreed, x, y, wire) && wire != [] && Canonical(cfg, agreed, x) && Canonical(cfg, agreed, y)
    ensures var t := Receive(cfg, y, wire[0].payload);
            && Canonical(cfg, agreed, t.e) && !t.e.failed && AllTimely(t.out)
            && Reaction(cfg, agreed, y, t) && Link(cfg, agreed, x, t.e, wire[1..])
  {
    NextIsReady(cfg, agreed, x, y, wire);
    if wire[0].payload.Other? {
      OtherIsReceived(cfg, agreed, y);
    } else {
      Receives(cfg, agreed, y, wire[0].payload);
    }
    LinkPop(cfg, agreed, x, y, wire, Receive(cfg, y, wire[0].payload).e);
  }

  lemma OtherIsReceived(cfg: Config, agreed: Names, y: Endpoint)
    requires Canonical(cfg, agreed, y) && y.epoch > 0 && !y.failed
    ensures var t := Receive(cfg, y, Other);
            && Canonical(cfg, agreed, t.e) && !t.e.failed && AllTimely(t.out) && Reaction(cfg, agreed, y, t)
            && RecvPos(t.e) == RecvPos(y) && RecvMark(t.e) == Advance(RecvMark(y), Other, agreed.strict)
  {
    ReadOther(cfg, agreed, y);
    StageAt(cfg, agreed, y.role, y.epoch, StageOf(y), y.sendSeqn, NextSeqn(y.recvSeqn));
  }

  lemma CiphersAreAgreed(cfg: Config, agreed: Names, e: Endpoint)
    requires Canonical(cfg, agreed, e)
    ensures SealCipher(e) == OpenCipher(e) == CipherAt(agreed, e.epoch)
  {
  }

  /** The head of a wire opens exactly when it was not sent late or the agreed
      cipher does not encrypt. */
  lemma OpensUnlessLate(cfg: Config, agreed: Names, x: Endpoint, y: Endpoint, wire: seq<Packet>)
    requires Link(cfg, agreed, x, y, wire) && wire != [] && Canonical(cfg, agreed, y)
    ensures Opens(cfg, y, wire[0]) <==> !wire[0].late || cfg.isClear(agreed.cipher)
    ensures wire[0].seqn == y.recvSeqn && (wire[0].late ==> wire[0].epoch + 1 == y.epoch)
  {
    CiphersAreAgreed(cfg, agreed, y);
  }

  /** What reading the next packet makes of its reader. */
  lemma ReadingReacts(cfg: Config, agreed: Names, x: Endpoint, y: Endpoint, wire: seq<Packet>)
    requires Lawful(cfg, agreed) && !cfg.skips(agreed.kex) && x.role == PeerOf(y.role) && !y.failed
    requires Link(cfg, agreed, x, y, wire) && wire != [] && Canonical(cfg, agreed, x) && Canonical(cfg, agreed, y)
    ensures var t := ReadPacket(cfg, y, wire[0]);
            && Canonical(cfg, agreed, t.e) && Reaction(cfg, agreed, y, t) && AllTimely(t.out)
            && (t.e.failed <==> wire[0].late && !cfg.isClear(agreed.cipher))
            && (!t.e.failed ==> Link(cfg, agreed, x, t.e, wire[1..]))
  {
    OpensUnlessLate(cfg, agreed, x, y, wire);
    if wire[0].late && !cfg.isClear(agreed.cipher) {
      FailureReacts(cfg, agreed, y);
    } else {
      HeadIsReceived(cfg, agreed, x, y, wire);
    }
  }

  lemma DeliverKeeps(cfg: Config, agreed: Names, s: System, role: Role)
    requires Lawful(cfg, agreed) && !cfg.skips(agreed.kex) && Inv(cfg, agreed, s)
    requires !At(s, role).failed && WireTo(s, role) != []
    ensures var t := ReadPacket(cfg, At(s, role), WireTo(s, role)[0]);
            && Inv(cfg, agreed, Put(Pop(s, role), role, t))
            && (t.e.failed <==> WireTo(s, role)[0].late && !cfg.isClear(agreed.cipher)) && AllTimely(t.out)
  {
    var x, y, wire := At(s, PeerOf(role)), At(s, role), WireTo(s, role);
    ReadingReacts(cfg, agreed, x, y, wire);
    MovedOn(cfg, agreed, s, role, ReadPacket(cfg, y, wire[0]));
  }

  /** The reader has moved to `t.e` and answered. */
  lemma MovedOn(cfg: Config, agreed: Names, s: System, role: Role, t: Stepped)
    requires Inv(cfg, agreed, s) && !At(s, role).failed && WireTo(s, role) != []
    requires Canonical(cfg, agreed, t.e) && Reaction(cfg, agreed, At(s, role), t)
    requires !t.e.failed ==> Link(cfg, agreed, At(s, PeerOf(role)), t.e, WireTo(s, role)[1..])
    ensures Inv(cfg, agreed, Put(Pop(s, role), role, t))
  {
    var x := At(s, PeerOf(role));
    if !x.failed {
      LinkAppend(cfg, agreed, At(s, role), x, WireTo(s, PeerOf(role)), t);
    }
    InvAfterPut(cfg, agreed, Pop(s, role), role, t);
  }

  lemma FailureReacts(cfg: Config, agreed: Names, y: Endpoint)
    requires Canonical(cfg, agreed, y)
    ensures Reaction(cfg, agreed, y, Fail(y)) && Canonical(cfg, agreed, Fail(y).e)
  {
    EmitsNothing(cfg, agreed, y.role, SendPos(y, UsesGex(cfg, agreed)), SendMark(y));
  }

  lemma SendOtherKeeps(cfg: Config, agreed: Names, s: System, role: Role)
    requires Inv(cfg, agreed, s) && At(s, role).session.Some? && !At(s, role).failed
    ensures Inv(cfg, agreed, Put(s, role, Send(Stepped(At(s, role), []), Other)))
  {
    var e := At(s, role);
    SendOtherReacts(cfg, agreed, e);
    PutKeeps(cfg, agreed, s, role, Send(Stepped(At(s, role), []), Other));
  }

  lemma StartRekeyKeeps(cfg: Config, agreed: Names, s: System, role: Role)
    requires Inv(cfg, agreed, s) && At(s, role).kex == None && !At(s, role).failed
    ensures Inv(cfg, agreed, Put(s, role, BeginRekey(cfg, At(s, role))))
  {
    var e := At(s, role);
    Begins(cfg, agreed, e);
    PutKeeps(cfg, agreed, s, role, BeginRekey(cfg, e));
  }

  lemma StepKeeps(cfg: Config, agreed: Names, s: System, m: Move)
    requires Lawful(cfg, agreed) && !cfg.skips(agreed.kex) && Inv(cfg, agreed, s)
    ensures Inv(cfg, agreed, Step(cfg, s, m))
  {
    if !At(s, m.role).failed {
      match m {
        case SendOther(role) =>
          if At(s, role).session.Some? {
            SendOtherKeeps(cfg, agreed, s, role);
          }
        case StartRekey(role) =>
          if At(s, role).kex == None {
            StartRekeyKeeps(cfg, agreed, s, role);
          }
        case Deliver(role) =>
          if WireTo(s, role) != [] {
            DeliverKeeps(cfg, agreed, s, role);
          }
      }
    }
  }

  lemma {:induction false} RunKeeps(cfg: Config, agreed: Names, s: System, moves: seq<Move>)
    requires Lawful(cfg, agreed) && !cfg.skips(agreed.kex) && Inv(cfg, agreed, s)
    ensures Inv(cfg, agreed, Run(cfg, s, moves))
    decreases |moves|
  {
    if moves != [] {
      StepKeeps(cfg, agreed, s, moves[0]);
      RunKeeps(cfg, agreed, Step(cfg, s, moves[0]), moves[1..]);
    }
  }

  // ---------------------------------------------------------------------
  // Main results
  // ---------------------------------------------------------------------

  function Reach(cfg: Config, moves: seq<Move>): System {
    Run(cfg, Start(cfg), moves)
  }

  lemma Reached(cfg: Config, agreed: Names, moves: seq<Move>)
    requires Lawful(cfg, agreed) && !cfg.skips(agreed.kex)
    ensures Inv(cfg, agreed, Reach(cfg, moves))
  {
    StartHolds(cfg, agreed);
    RunKeeps(cfg, agreed, Start(cfg), moves);
  }

  /** Sequence-number lockstep over any number of rekeys: the next packet of an
      endpoint that has not failed carries the number it will be opened with. */
  lemma SeqnLockstep(cfg: Config, agreed: Names, moves: seq<Move>, role: Role)
    requires Lawful(cfg, agreed) && !cfg.skips(agreed.kex)
    ensures var r := Reach(cfg, moves);
            !At(r, role).failed && WireTo(r, role) != [] ==> WireTo(r, role)[0].seqn == At(r, role).recvSeqn
  {
    Reached(cfg, agreed, moves);
  }

  /** The next packet is opened under the key epoch it was sealed in, exactly
      when its sender was not between sending NEWKEYS and receiving it; a packet
      sent in between meets the keys of the next epoch. */
  lemma EpochMismatchExactlyWhenLate(cfg: Config, agreed: Names, moves: seq<Move>, role: Role)
    requires Lawful(cfg, agreed) && !cfg.skips(agreed.kex)
    ensures var r := Reach(cfg, moves);
            !At(r, role).failed && WireTo(r, role) != [] ==>
              var p := WireTo(r, role)[0];
              && (p.epoch == At(r, role).epoch <==> !p.late)
              && (p.late ==> p.epoch + 1 == At(r, role).epoch)
  {
    Reached(cfg, agreed, moves);
  }

  /** Endpoints that have completed equally many exchanges hold the same
      session id, and each seals with exactly what the other opens with. */
  lemma CompletedExchangesAgree(cfg: Config, agreed: Names, moves: seq<Move>)
    requires Lawful(cfg, agreed) && !cfg.skips(agreed.kex)
    ensures var r := Reach(cfg, moves);
            r.client.epoch == r.server.epoch > 0 ==>
              && r.client.session.Some? && r.server.session.Some?
              && r.client.session.value.id == r.server.session.value.id
              && r.client.session.value.seal == r.server.session.value.open
              && r.server.session.value.seal == r.client.session.value.open
              && r.client.strict == r.server.strict
  {
    Reached(cfg, agreed, moves);
  }

  /** While both sides wait for NEWKEYS in the same exchange they hold the same
      transcript, hash and names. */
  lemma TranscriptsAgree(cfg: Config, agreed: Names, moves: seq<Move>)
    requires Lawful(cfg, agreed) && !cfg.skips(agreed.kex)
    ensures var r := Reach(cfg, moves);
            r.client.epoch == r.server.epoch && AwaitsNewKeys(r.client) && AwaitsNewKeys(r.server) ==>
              var c, s := r.client.kex.value.phase.newkeys, r.server.kex.value.phase.newkeys;
              c.exchange == s.exchange && c.hash == s.hash && c.names == s.names && c.sessionId == s.sessionId
  {
    Reached(cfg, agreed, moves);
  }

  /** The session id is the hash of the first exchange, on both sides, however
      many rekeys follow. */
  lemma SessionIdIsFirstHash(cfg: Config, agreed: Names, moves: seq<Move>, role: Role)
    requires Lawful(cfg, agreed) && !cfg.skips(agreed.kex)
    ensures var e := At(Reach(cfg, moves), role);
            && (e.session.Some? <==> e.epoch > 0)
            && (e.session.Some? ==> e.session.value.id == HashAt(cfg, agreed, 0))
  {
    Reached(cfg, agreed, moves);
  }
}
