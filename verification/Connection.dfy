/** One connection put together: the KEXINITs of both sides are written from
    their preferences and read by negotiation, hashes cover the encoded
    transcript, and keys come from key expansion. */
module Connection {
  import opened Wire
  import Negotiation
  import KeyMaterial
  import KX = KeyExchange

  type Names = Negotiation.Names
  type Role = Negotiation.Role

  type Cookie = s: seq<byte> | |s| == 16 witness seq(16, _ => 0)

  /** What one side brings: its identification, build, preferences and
      randomness. */
  datatype Side = Side(id: seq<byte>, lib: Negotiation.Library, preferred: Negotiation.Preferred,
                       cookie: nat -> Cookie, secret: nat -> nat)

  /** Both sides and the primitives, which stay abstract. */
  datatype World = World(
    client: Side, server: Side, hostKeyTypes: seq<Negotiation.Name>, hostKey: seq<byte>,
    skips: Negotiation.Name -> bool, isGex: Negotiation.Name -> bool, isClear: Negotiation.Name -> bool,
    request: seq<byte>, group: nat -> seq<byte>, groupOk: seq<byte> -> bool,
    ephemeral: (nat, Option<seq<byte>>) -> seq<byte>, shared: (nat, seq<byte>, Option<seq<byte>>) -> seq<byte>,
    sign: seq<byte> -> seq<byte>, verify: (seq<byte>, seq<byte>, seq<byte>) -> bool,
    hash: seq<byte> -> seq<byte>,
    gexHash: (KX.Exchange, seq<byte>, seq<byte>) -> seq<byte>,  // with the group parameters, which are not modelled
    keyLen: Negotiation.Name -> nat, nonceLen: Negotiation.Name -> nat, macKeyLen: Negotiation.Name -> nat
  )

  // ---------------------------------------------------------------------
  // The transcript
  // ---------------------------------------------------------------------

  predicate Short(x: KX.Exchange, hostKey: seq<byte>) {
    && |x.clientId| < U32_BOUND && |x.serverId| < U32_BOUND && |x.clientInit| < U32_BOUND && |x.serverInit| < U32_BOUND
    && |hostKey| < U32_BOUND && |x.clientEphemeral| < U32_BOUND && |x.serverEphemeral| < U32_BOUND
  }

  /** What the exchange hash covers outside group exchange; the shared secret
      is already encoded. */
  function Transcript(x: KX.Exchange, hostKey: seq<byte>, shared: seq<byte>): seq<byte>
    requires Short(x, hostKey)
  {
    EncodeString(x.clientId) + (EncodeString(x.serverId) + (EncodeString(x.clientInit) + (EncodeString(x.serverInit)
      + (EncodeString(hostKey) + (EncodeString(x.clientEphemeral) + (EncodeString(x.serverEphemeral) + shared))))))
  }

  lemma SameHead(a: seq<byte>, rest: seq<byte>, b: seq<byte>, other: seq<byte>)
    requires |a| < U32_BOUND && |b| < U32_BOUND && EncodeString(a) + rest == EncodeString(b) + other
    ensures a == b && rest == other
  {
    StringRoundTrip(a, rest);
    StringRoundTrip(b, other);
  }

  /** The transcript determines everything it covers: two exchanges that hash
      the same bytes are the same exchange, under the same key and secret. */
  lemma TranscriptIsUnambiguous(x: KX.Exchange, k: seq<byte>, s: seq<byte>, y: KX.Exchange, l: seq<byte>, t: seq<byte>)
    requires Short(x, k) && Short(y, l) && x.gex == y.gex && Transcript(x, k, s) == Transcript(y, l, t)
    ensures x == y && k == l && s == t
  {
    var x6 := EncodeString(x.serverEphemeral) + s;
    var x5 := EncodeString(x.clientEphemeral) + x6;
    var x4 := EncodeString(k) + x5;
    var x3 := EncodeString(x.serverInit) + x4;
    var x2 := EncodeString(x.clientInit) + x3;
    var y6 := EncodeString(y.serverEphemeral) + t;
    var y5 := EncodeString(y.clientEphemeral) + y6;
    var y4 := EncodeString(l) + y5;
    var y3 := EncodeString(y.serverInit) + y4;
    var y2 := EncodeString(y.clientInit) + y3;
    SameHead(x.clientId, EncodeString(x.serverId) + x2, y.clientId, EncodeString(y.serverId) + y2);
    SameHead(x.serverId, x2, y.serverId, y2);
    SameHead(x.clientInit, x3, y.clientInit, y3);
    SameHead(x.serverInit, x4, y.serverInit, y4);
    SameHead(k, x5, l, y5);
    SameHead(x.clientEphemeral, x6, y.clientEphemeral, y6);
    SameHead(x.serverEphemeral, s, y.serverEphemeral, t);
  }

  lemma TwoStringsMore(s: seq<byte>, t: seq<byte>, b: seq<byte>, strings: seq<seq<byte>>, rest: seq<byte>)
    requires |s| < U32_BOUND && |t| < U32_BOUND && StartsWith(b, strings, rest)
    ensures StartsWith(EncodeString(s) + (EncodeString(t) + b), [s, t] + strings, rest)
  {
    OneStringMore(t, b, strings, rest);
    OneStringMore(s, EncodeString(t) + b, [t] + strings, rest);
    assert [s] + ([t] + strings) == [s, t] + strings;
  }

  /** What is hashed, read from the front: both identifications, both KEXINITs,
      the host key, both ephemerals, and the secret behind them. */
  lemma TranscriptInOrder(x: KX.Exchange, hostKey: seq<byte>, shared: seq<byte>)
    requires Short(x, hostKey)
    ensures StartsWith(Transcript(x, hostKey, shared),
                       [x.clientId, x.serverId] + ([x.clientInit, x.serverInit] + ([hostKey] + [x.clientEphemeral, x.serverEphemeral])), shared)
  {
    var ephemerals := [x.clientEphemeral, x.serverEphemeral];
    var b5 := EncodeString(x.clientEphemeral) + (EncodeString(x.serverEphemeral) + shared);
    TwoStringsMore(x.clientEphemeral, x.serverEphemeral, shared, [], shared);
    assert ephemerals + [] == ephemerals;
    OneStringMore(hostKey, b5, ephemerals, shared);
    FromTheStart(x, EncodeString(hostKey) + b5, [hostKey] + ephemerals, shared);
  }

  lemma FromTheStart(x: KX.Exchange, b: seq<byte>, strings: seq<seq<byte>>, rest: seq<byte>)
    requires Short(x, []) && StartsWith(b, strings, rest)
    ensures StartsWith(EncodeString(x.clientId) + (EncodeString(x.serverId) + (EncodeString(x.clientInit) + (EncodeString(x.serverInit) + b))),
                       [x.clientId, x.serverId] + ([x.clientInit, x.serverInit] + strings), rest)
  {
    TwoStringsMore(x.clientInit, x.serverInit, b, strings, rest);
    TwoStringsMore(x.clientId, x.serverId, EncodeString(x.clientInit) + (EncodeString(x.serverInit) + b),
                   [x.clientInit, x.serverInit] + strings, rest);
  }

  function ExchangeHash(w: World, x: KX.Exchange, hostKey: seq<byte>, shared: seq<byte>): seq<byte> {
    if x.gex == None && Short(x, hostKey) then w.hash(Transcript(x, hostKey, shared)) else w.gexHash(x, hostKey, shared)
  }

  // ---------------------------------------------------------------------
  // The two machines, wired up
  // ---------------------------------------------------------------------

  /** What is asked of the two sides and of the primitives. */
  ghost predicate Usable(w: World) {
    && Negotiation.Proper(w.client.preferred) && Negotiation.Proper(w.server.preferred)
    && Negotiation.Implemented(w.client.lib, w.client.preferred) && Negotiation.Implemented(w.server.lib, w.server.preferred)
    && w.client.lib.needsMac == w.server.lib.needsMac
    && Negotiation.Sendable(Negotiation.Client, w.client.preferred, None)
    && Negotiation.Sendable(Negotiation.Server, w.server.preferred, Some(w.hostKeyTypes))
    && KeyMaterial.NeverEmpty(w.hash)
    && (forall a: nat, b: nat, g: Option<seq<byte>> ::
          w.shared(a, w.ephemeral(b, g), g) == w.shared(b, w.ephemeral(a, g), g))
    && (forall h: seq<byte> :: w.verify(w.hostKey, h, w.sign(h)))
    && (forall k: nat :: w.groupOk(w.group(k)))
  }

  ghost function ReadInit(w: World, role: Role, init: seq<byte>, strictRekey: bool): Option<Names> {
    var r := if role.Client? then Negotiation.ReadKex(role, w.client.lib, w.client.preferred, None, strictRekey, init)
             else Negotiation.ReadKex(role, w.server.lib, w.server.preferred, Some(w.hostKeyTypes), strictRekey, init);
    match r
    case Success(names) => Some(names)
    case Failure(_) => None
  }

  ghost function ConfigOf(w: World): KX.Config
    requires Usable(w)
  {
    KX.Config(
      w.client.id, w.server.id,
      (k: nat) => Negotiation.WriteKex(Negotiation.Client, w.client.preferred, None, w.client.cookie(k)),
      (k: nat) => Negotiation.WriteKex(Negotiation.Server, w.server.preferred, Some(w.hostKeyTypes), w.server.cookie(k)),
      (role, init, strict) => ReadInit(w, role, init, strict),
      w.skips, w.isGex, w.isClear, w.client.secret, w.server.secret, w.request, w.group, w.groupOk, w.ephemeral, w.shared,
      (x, hostKey, shared) => ExchangeHash(w, x, hostKey, shared), w.hostKey, w.sign, w.verify,
      (shared, hash, id, letter, len) => KeyMaterial.DerivedKey(KeyMaterial.Secrets(w.hash, shared, hash, id), letter, len),
      w.keyLen, w.nonceLen, w.macKeyLen)
  }

  /** What the two preference lists lead to in a first exchange. */
  function AgreementOf(w: World): Negotiation.Result<Names> {
    Negotiation.Agreement(w.client.lib, w.client.preferred, w.server.preferred, w.hostKeyTypes, false)
  }

  /** A rekey under strict kex repeats an agreement that was strict already. */
  lemma RekeyAgreesAgain(w: World, strictRekey: bool)
    requires AgreementOf(w).Success? ==> (strictRekey ==> AgreementOf(w).value.strict)
    ensures var again := Negotiation.Agreement(w.client.lib, w.client.preferred, w.server.preferred, w.hostKeyTypes, strictRekey);
            match AgreementOf(w)
            case Success(agreed) => again == Negotiation.Success(agreed) && !agreed.ignoreGuessed
            case Failure(_) => again.Failure?
  {
  }

  lemma ReadsAgreement(w: World, role: Role, k: nat, strictRekey: bool)
    requires Usable(w) && (AgreementOf(w).Success? ==> (strictRekey ==> AgreementOf(w).value.strict))
    ensures var cfg := ConfigOf(w);
            var init := if role.Client? then cfg.serverInit(k) else cfg.clientInit(k);
            cfg.read(role, init, strictRekey)
            == match AgreementOf(w) case Success(agreed) => Some(agreed) case Failure(_) => None
  {
    RekeyAgreesAgain(w, strictRekey);
    Negotiation.BothSidesAgree(role, w.client.lib, w.server.lib, w.client.preferred, w.server.preferred, w.hostKeyTypes,
                               strictRekey, if role.Client? then w.server.cookie(k) else w.client.cookie(k));
  }

  /** If the preference lists lead to an agreement, the two machines meet every
      assumption under which their runs were studied. */
  lemma AgreementIsLawful(w: World, agreed: Names)
    requires Usable(w) && AgreementOf(w) == Negotiation.Success(agreed)
    ensures KX.Lawful(ConfigOf(w), agreed)
  {
    var cfg := ConfigOf(w);
    forall k: nat, strict: bool | strict ==> agreed.strict
      ensures cfg.read(Negotiation.Client, cfg.serverInit(k), strict) == Some(agreed)
      ensures cfg.read(Negotiation.Server, cfg.clientInit(k), strict) == Some(agreed)
    {
      ReadsAgreement(w, Negotiation.Client, k, strict);
      ReadsAgreement(w, Negotiation.Server, k, strict);
    }
    RekeyAgreesAgain(w, false);
  }

  // ---------------------------------------------------------------------
  // With an agreement
  // ---------------------------------------------------------------------

  /** What the keys after exchange `k` are made of. */
  ghost function SecretsAt(w: World, agreed: Names, k: nat): KeyMaterial.Secrets
    requires Usable(w)
  {
    var cfg := ConfigOf(w);
    KeyMaterial.Secrets(w.hash, KX.SharedAt(cfg, agreed, k), KX.HashAt(cfg, agreed, k), KX.HashAt(cfg, agreed, 0))
  }

  /** The keys are those of three letters, as section 7.2 of RFC 4253 has them:
      there is only one such key (`KeyMaterial.KeyIsUnique`). */
  ghost predicate KeyedAs(w: World, agreed: Names, keys: KX.Keys, k: nat, key: byte, iv: byte, macKey: byte)
    requires Usable(w)
  {
    var s := SecretsAt(w, agreed, k);
    && keys.cipher == agreed.cipher
    && KeyMaterial.IsKey(s, key, w.keyLen(keys.cipher), keys.key)
    && KeyMaterial.IsKey(s, iv, w.nonceLen(keys.cipher), keys.iv)
    && KeyMaterial.IsKey(s, macKey, w.macKeyLen(keys.mac), keys.macKey)
  }

  lemma DirectionIsKeyed(w: World, agreed: Names, keys: KX.Keys, k: nat, mac: Negotiation.Name, key: byte, iv: byte, macKey: byte)
    requires Usable(w)
    requires var cfg := ConfigOf(w);
             keys == KX.Direction(cfg, KX.SharedAt(cfg, agreed, k), KX.HashAt(cfg, agreed, k), KX.HashAt(cfg, agreed, 0),
                                  agreed.cipher, mac, key, iv, macKey)
    ensures KeyedAs(w, agreed, keys, k, key, iv, macKey) && keys.mac == mac
  {
    var s := SecretsAt(w, agreed, k);
    KeyMaterial.DerivedIsKey(s, key, w.keyLen(agreed.cipher));
    KeyMaterial.DerivedIsKey(s, iv, w.nonceLen(agreed.cipher));
    KeyMaterial.DerivedIsKey(s, macKey, w.macKeyLen(mac));
  }

  /** The keys towards the server and towards the client. */
  function ToServer(role: Role, session: KX.Session): KX.Keys {
    if role.Client? then session.seal else session.open
  }

  function ToClient(role: Role, session: KX.Session): KX.Keys {
    if role.Client? then session.open else session.seal
  }

  /** Letters C, A and E from client to server, D, B and F back. */
  ghost predicate BothKeyed(w: World, agreed: Names, toServer: KX.Keys, toClient: KX.Keys, k: nat)
    requires Usable(w)
  {
    && toServer.mac == agreed.clientMac && toClient.mac == agreed.serverMac
    && KeyedAs(w, agreed, toServer, k, 67, 65, 69)
    && KeyedAs(w, agreed, toClient, k, 68, 66, 70)
  }

  /** The endpoint holds the keys of its last completed exchange. */
  ghost predicate HoldsKeys(w: World, agreed: Names, e: KX.Endpoint)
    requires Usable(w)
  {
    && e.epoch > 0 && e.session.Some?
    && BothKeyed(w, agreed, ToServer(e.role, e.session.value), ToClient(e.role, e.session.value), e.epoch - 1)
  }

  predicate Direct(cfg: KX.Config, agreed: Names, toServer: KX.Keys, toClient: KX.Keys, k: nat) {
    var shared, hash, first := KX.SharedAt(cfg, agreed, k), KX.HashAt(cfg, agreed, k), KX.HashAt(cfg, agreed, 0);
    && toServer == KX.Direction(cfg, shared, hash, first, agreed.cipher, agreed.clientMac, KX.C, KX.A, KX.E)
    && toClient == KX.Direction(cfg, shared, hash, first, agreed.cipher, agreed.serverMac, KX.D, KX.B, KX.F)
  }

  lemma SessionIsDirect(cfg: KX.Config, agreed: Names, e: KX.Endpoint, k: nat)
    requires e.epoch == k + 1 && e.session == KX.SessionAt(cfg, agreed, e.role, e.epoch)
    ensures e.session.Some?
    ensures Direct(cfg, agreed, ToServer(e.role, e.session.value), ToClient(e.role, e.session.value), k)
  {
  }

  lemma CanonicalHoldsKeys(w: World, agreed: Names, e: KX.Endpoint)
    requires Usable(w) && e.epoch > 0 && e.session == KX.SessionAt(ConfigOf(w), agreed, e.role, e.epoch)
    ensures HoldsKeys(w, agreed, e)
  {
    var toServer, toClient, k := ToServer(e.role, e.session.value), ToClient(e.role, e.session.value), e.epoch - 1;
    SessionIsDirect(ConfigOf(w), agreed, e, k);
    DirectIsKeyed(w, agreed, toServer, toClient, k);
  }

  lemma DirectIsKeyed(w: World, agreed: Names, toServer: KX.Keys, toClient: KX.Keys, k: nat)
    requires Usable(w) && Direct(ConfigOf(w), agreed, toServer, toClient, k)
    ensures BothKeyed(w, agreed, toServer, toClient, k)
  {
    DirectionIsKeyed(w, agreed, toServer, k, agreed.clientMac, 67, 65, 69);
    DirectionIsKeyed(w, agreed, toClient, k, agreed.serverMac, 68, 66, 70);
  }

  lemma EndpointsAreCanonical(w: World, agreed: Names, moves: seq<KX.Move>, role: Role)
    requires Usable(w) && AgreementOf(w) == Negotiation.Success(agreed) && !w.skips(agreed.kex)
    ensures var e := KX.At(KX.Reach(ConfigOf(w), moves), role);
            e.role == role && e.session == KX.SessionAt(ConfigOf(w), agreed, role, e.epoch)
  {
    AgreementIsLawful(w, agreed);
    KX.Reached(ConfigOf(w), agreed, moves);
  }

  /** In every reachable state each side that has completed an exchange seals
      and opens with exactly the specified keys of its last one, under the
      agreed names, with the hash of the first exchange as session id. */
  lemma KeysInUse(w: World, agreed: Names, moves: seq<KX.Move>, role: Role)
    requires Usable(w) && AgreementOf(w) == Negotiation.Success(agreed) && !w.skips(agreed.kex)
    ensures var e := KX.At(KX.Reach(ConfigOf(w), moves), role);
            if e.epoch == 0 then e.session == None
            else HoldsKeys(w, agreed, e) && e.session.value.id == KX.HashAt(ConfigOf(w), agreed, 0)
  {
    EndpointsAreCanonical(w, agreed, moves, role);
    var e := KX.At(KX.Reach(ConfigOf(w), moves), role);
    if e.epoch > 0 {
      CanonicalHoldsKeys(w, agreed, e);
    }
  }

  // ---------------------------------------------------------------------
  // Without one
  // ---------------------------------------------------------------------

  /** Both still wait for the first KEXINIT, or have failed over it. */
  ghost predicate Stuck(w: World, e: KX.Endpoint)
    requires Usable(w)
  {
    e.session == None && e.kex.Some? && e.kex.value.phase.Created? && e.kex.value.cause.Initial?
  }

  ghost predicate OnlyInits(w: World, sender: Role, wire: seq<KX.Packet>)
    requires Usable(w)
  {
    var cfg := ConfigOf(w);
    forall i :: 0 <= i < |wire| ==>
      wire[i].payload == KX.KexInit(if sender.Client? then cfg.clientInit(0) else cfg.serverInit(0))
  }

  ghost predicate NobodyMoves(w: World, s: KX.System)
    requires Usable(w)
  {
    && s.client.role == Negotiation.Client && s.server.role == Negotiation.Server
    && Stuck(w, s.client) && Stuck(w, s.server)
    && OnlyInits(w, Negotiation.Client, s.toServer) && OnlyInits(w, Negotiation.Server, s.toClient)
    && (s.toServer == [] ==> s.server.failed) && (s.toClient == [] ==> s.client.failed)
  }

  lemma DeliveredInitFails(w: World, s: KX.System, role: Role)
    requires Usable(w) && AgreementOf(w).Failure? && NobodyMoves(w, s)
    requires KX.WireTo(s, role) != []
    ensures var e := KX.At(s, role);
            var t := KX.Receive(ConfigOf(w), e, KX.WireTo(s, role)[0].payload);
            t == KX.Stepped(KX.Read(e).(failed := true), [])
  {
    ReadsAgreement(w, role, 0, false);
    var e, cfg := KX.At(s, role), ConfigOf(w);
    assert Stuck(w, e) && cfg.read(role, KX.WireTo(s, role)[0].payload.init, false) == None;
  }

  lemma NobodyEverMoves(w: World, s: KX.System, m: KX.Move)
    requires Usable(w) && AgreementOf(w).Failure? && NobodyMoves(w, s)
    ensures NobodyMoves(w, KX.Step(ConfigOf(w), s, m))
  {
    if m.Deliver? && KX.WireTo(s, m.role) != [] {
      DeliveredInitFails(w, s, m.role);
      NobodyMovesOn(w, s, m.role, KX.ReadPacket(ConfigOf(w), KX.At(s, m.role), KX.WireTo(s, m.role)[0]).e);
    }
  }

  /** One packet is off the wire, and its reader has failed over it. */
  lemma NobodyMovesOn(w: World, s: KX.System, role: Role, e: KX.Endpoint)
    requires Usable(w) && NobodyMoves(w, s) && KX.WireTo(s, role) != []
    requires var y := KX.At(s, role); e.failed && e.role == y.role && e.kex == y.kex && e.session == y.session
    ensures NobodyMoves(w, KX.Put(KX.Pop(s, role), role, KX.Stepped(e, [])))
  {
  }

  lemma {:induction false} StuckRun(w: World, s: KX.System, moves: seq<KX.Move>)
    requires Usable(w) && AgreementOf(w).Failure? && NobodyMoves(w, s)
    ensures NobodyMoves(w, KX.Run(ConfigOf(w), s, moves))
    decreases |moves|
  {
    if moves != [] {
      NobodyEverMoves(w, s, moves[0]);
      StuckRun(w, KX.Step(ConfigOf(w), s, moves[0]), moves[1..]);
    }
  }

  lemma StuckAtStart(w: World)
    requires Usable(w)
    ensures NobodyMoves(w, KX.Start(ConfigOf(w)))
  {
  }

  /** Preference lists without an agreement never lead to a session, on either
      side and in any run, and each side fails once the other's KEXINIT reaches it. */
  lemma NoAgreementNoSession(w: World, moves: seq<KX.Move>, role: Role)
    requires Usable(w) && AgreementOf(w).Failure?
    ensures var r := KX.Reach(ConfigOf(w), moves);
            && KX.At(r, role).session == None
            && (KX.WireTo(r, role) == [] ==> KX.At(r, role).failed)
  {
    StuckAtStart(w);
    StuckRun(w, KX.Start(ConfigOf(w)), moves);
  }

  // ---------------------------------------------------------------------
  // The assumptions can be met
  // ---------------------------------------------------------------------

  function SampleSide(marker: seq<Negotiation.Name>): Side {
    Side([], Negotiation.Library({[1]}, _ => true), Negotiation.Preferred([[1]] + marker, [[2]], [[3]], [[4]], [[5]]),
         _ => seq(16, _ => 0), _ => 0)
  }

  /** Two sides with one algorithm of each kind and constant primitives. */
  function Sample(strict: bool, skipped: bool): World {
    World(SampleSide(if strict then [Negotiation.STRICT_C] else []), SampleSide(if strict then [Negotiation.STRICT_S] else []),
          [[2]], [], _ => skipped, _ => false, _ => false, [], _ => [], _ => true, (_, _) => [], (_, _, _) => [], _ => [], (_, _, _) => true,
          _ => [0], (_, _, _) => [], _ => 0, _ => 0, _ => 0)
  }

  lemma {:induction false} ShortNamesJoinShort(names: seq<Negotiation.Name>)
    requires forall n :: n in names ==> |n| <= 28
    ensures |Negotiation.Join(names)| <= 29 * |names|
  {
    if |names| > 1 {
      ShortNamesJoinShort(names[1..]);
    }
  }

  lemma {:induction false} FilterIsNoLonger(names: seq<Negotiation.Name>, keep: Negotiation.Name -> bool)
    ensures |Negotiation.Filter(names, keep)| <= |names|
  {
    if names != [] {
      FilterIsNoLonger(names[1..], keep);
    }
  }

  lemma MarkersAreProper()
    ensures Negotiation.COMMA !in Negotiation.STRICT_C && Negotiation.COMMA !in Negotiation.STRICT_S
    ensures |Negotiation.STRICT_C| == |Negotiation.STRICT_S| == 28
    ensures !Negotiation.IsExtension([1])
  {
  }

  lemma SampleIsSendable(role: Role, marker: seq<Negotiation.Name>, available: Option<seq<Negotiation.Name>>)
    requires |marker| <= 1 && (marker != [] ==> |marker[0]| == 28)
    ensures Negotiation.Sendable(role, SampleSide(marker).preferred, available)
  {
    var p := SampleSide(marker).preferred;
    ShortNamesJoinShort(Negotiation.AnnouncedKex(role, p.kex));
    FilterIsNoLonger(p.kex, n => n != Negotiation.EXT_INFO_C && n != Negotiation.STRICT_C);
    FilterIsNoLonger(p.kex, n => n != Negotiation.EXT_INFO_S && n != Negotiation.STRICT_S);
    ShortNamesJoinShort(Negotiation.PossibleHostKeyAlgos(p.key, available));
    if available.Some? {
      FilterIsNoLonger(p.key, n => Negotiation.AnyCompatible(available.value, n));
    }
  }

  lemma SampleIsProper(marker: Negotiation.Name, listed: bool)
    requires Negotiation.IsExtension(marker) && marker != [] && Negotiation.COMMA !in marker
    ensures var side := SampleSide(if listed then [marker] else []);
            Negotiation.Proper(side.preferred) && Negotiation.Implemented(side.lib, side.preferred)
  {
    MarkersAreProper();
  }

  lemma SampleAgrees(strict: bool, skipped: bool)
    ensures var r := AgreementOf(Sample(strict, skipped)); r.Success? && r.value.strict == strict
  {
    var w := Sample(strict, skipped);
    MarkersAreProper();
    Negotiation.ExtensionsDiffer();
    assert [1] in Negotiation.LocalKex(w.server.preferred.kex);
    assert w.client.preferred.kex[0] == [1];
    assert Negotiation.AnyCompatible([[2]], [2]) by {
      assert Negotiation.Compatible([[2]][0], [2]);
    }
    assert [2] in Negotiation.PossibleHostKeyAlgos(w.server.preferred.key, Some([[2]]));
  }

  /** Everything asked of the two sides can be had, with strict kex and without,
      with a key exchange that is skipped and one that is not. */
  lemma AssumptionsCanBeMet(strict: bool, skipped: bool)
    ensures exists w :: Usable(w) && AgreementOf(w).Success?
                        && AgreementOf(w).value.strict == strict && w.skips(AgreementOf(w).value.kex) == skipped
  {
    var w := Sample(strict, skipped);
    MarkersAreProper();
    SampleIsProper(Negotiation.STRICT_C, strict);
    SampleIsProper(Negotiation.STRICT_S, strict);
    SampleIsSendable(Negotiation.Client, if strict then [Negotiation.STRICT_C] else [], None);
    SampleIsSendable(Negotiation.Server, if strict then [Negotiation.STRICT_S] else [], Some([[2]]));
    SampleAgrees(strict, skipped);
    assert Usable(w);
  }
}
