/** Exactly when sequence numbers stay in step over every run: always, except
    for the `none` key exchange under strict kex. */
module KexLockstep {
  import opened Wire
  import opened KeyExchange
  import Negotiation

  /** The next packet of an endpoint that has not failed carries the number it
      will be opened with. */
  predicate InStep(s: System, role: Role) {
    !At(s, role).failed && WireTo(s, role) != [] ==> WireTo(s, role)[0].seqn == At(s, role).recvSeqn
  }

  // ---------------------------------------------------------------------
  // Without strict kex numbers only ever count on
  // ---------------------------------------------------------------------

  function InitAt(cfg: Config, role: Role, k: nat): seq<byte> {
    if role.Client? then cfg.clientInit(k) else cfg.serverInit(k)
  }

  /** No exchange of the two sides turns strict kex on. */
  ghost predicate NeverStrict(cfg: Config) {
    forall role: Role, k: nat ::
      match cfg.read(role, InitAt(cfg, PeerOf(role), k), false)
      case None => true
      case Some(names) => !names.strict
  }

  predicate PlainPhase(phase: Phase) {
    match phase
    case Created => true
    case WaitingForGex(names) => !names.strict
    case WaitingForDh(names) => !names.strict
    case WaitingForNewKeys(newkeys) => !newkeys.names.strict
  }

  predicate Plain(e: Endpoint) {
    && !e.strict
    && (e.kex.Some? ==> !CauseIsStrict(e.kex.value.cause) && PlainPhase(e.kex.value.phase))
  }

  ghost predicate Genuine(cfg: Config, sender: Role, payload: Payload) {
    payload.KexInit? ==> exists k: nat :: payload.init == InitAt(cfg, sender, k)
  }

  ghost predicate AllGenuine(cfg: Config, sender: Role, wire: seq<Packet>) {
    forall i :: 0 <= i < |wire| ==> Genuine(cfg, sender, wire[i].payload)
  }

  /** Consecutive numbers from `from` up to, not including, `to`. */
  predicate Counted(wire: seq<Packet>, from: u32, to: u32) {
    if wire == [] then from == to else wire[0].seqn == from && Counted(wire[1..], NextSeqn(from), to)
  }

  lemma {:induction false} CountedConcat(a: seq<Packet>, b: seq<Packet>, from: u32, mid: u32, to: u32)
    requires Counted(a, from, mid) && Counted(b, mid, to)
    ensures Counted(a + b, from, to)
  {
    if a == [] {
      assert a + b == b;
    } else {
      CountedConcat(a[1..], b, NextSeqn(from), mid, to);
      assert (a + b)[1..] == a[1..] + b;
    }
  }

  lemma CountedOne(p: Packet)
    ensures Counted([p], p.seqn, NextSeqn(p.seqn))
  {
    assert [p][1..] == [];
  }

  lemma CountedTwo(p: Packet, q: Packet)
    requires q.seqn == NextSeqn(p.seqn)
    ensures Counted([p, q], p.seqn, NextSeqn(q.seqn))
  {
    CountedOne(q);
    assert [p, q][1..] == [q];
  }

  /** A move that stays plain, counts on, and sends only its own KEXINITs. */
  ghost predicate PlainMove(cfg: Config, e: Endpoint, t: Stepped) {
    && Plain(t.e) && t.e.role == e.role && t.e.recvSeqn == e.recvSeqn
    && Counted(t.out, e.sendSeqn, t.e.sendSeqn) && AllGenuine(cfg, e.role, t.out)
  }

  lemma PlainBegin(cfg: Config, e: Endpoint)
    requires Plain(e)
    ensures PlainMove(cfg, e, BeginRekey(cfg, e))
  {
    var p := BeginRekey(cfg, e).out[0];
    CountedOne(p);
    assert p.payload.init == InitAt(cfg, e.role, e.epoch);
  }

  /** Every packet a step sends is numbered on from the last, and none is a KEXINIT. */
  lemma PlainOut(cfg: Config, e: Endpoint, t: Stepped)
    requires |t.out| <= 2 && forall i :: 0 <= i < |t.out| ==> !t.out[i].payload.KexInit?
    requires t.out == [] ==> t.e.sendSeqn == e.sendSeqn
    requires |t.out| == 1 ==> t.out[0].seqn == e.sendSeqn && t.e.sendSeqn == NextSeqn(e.sendSeqn)
    requires |t.out| == 2 ==> t.out[0].seqn == e.sendSeqn && t.out[1].seqn == NextSeqn(e.sendSeqn)
                              && t.e.sendSeqn == NextSeqn(NextSeqn(e.sendSeqn))
    ensures Counted(t.out, e.sendSeqn, t.e.sendSeqn) && AllGenuine(cfg, e.role, t.out)
  {
    if |t.out| == 1 {
      CountedOne(t.out[0]);
      assert t.out == [t.out[0]];
    } else if |t.out| == 2 {
      CountedTwo(t.out[0], t.out[1]);
      assert t.out == [t.out[0], t.out[1]];
    }
  }

  lemma PlainInit(cfg: Config, e: Endpoint, payload: Payload)
    requires NeverStrict(cfg) && Plain(e) && e.kex.Some? && Genuine(cfg, PeerOf(e.role), payload)
    ensures PlainMove(cfg, e, OnKexInit(cfg, e, payload))
  {
    if payload.KexInit? {
      var k: nat :| payload.init == InitAt(cfg, PeerOf(e.role), k);
      var names := cfg.read(e.role, InitAt(cfg, PeerOf(e.role), k), false);
      assert names.Some? ==> !names.value.strict;
    }
    PlainOut(cfg, e, OnKexInit(cfg, e, payload));
  }

  lemma PlainClientStep(cfg: Config, e: Endpoint, payload: Payload)
    requires Plain(e) && e.kex.Some? && !e.kex.value.phase.Created? && e.role.Client?
    ensures PlainMove(cfg, e, ClientStep(cfg, e, payload))
  {
    PlainOut(cfg, e, ClientStep(cfg, e, payload));
  }

  lemma PlainServerStep(cfg: Config, e: Endpoint, payload: Payload)
    requires Plain(e) && e.kex.Some? && !e.kex.value.phase.Created? && e.role.Server?
    ensures PlainMove(cfg, e, ServerStep(cfg, e, payload))
  {
    PlainOut(cfg, e, ServerStep(cfg, e, payload));
  }

  lemma PlainStep(cfg: Config, e: Endpoint, payload: Payload)
    requires NeverStrict(cfg) && Plain(e) && e.kex.Some? && Genuine(cfg, PeerOf(e.role), payload)
    ensures PlainMove(cfg, e, StepOf(cfg, e, payload))
  {
    if e.kex.value.phase.Created? {
      PlainInit(cfg, e, payload);
    } else if e.role.Client? {
      PlainClientStep(cfg, e, payload);
    } else {
      PlainServerStep(cfg, e, payload);
    }
  }

  lemma PlainReceive(cfg: Config, y: Endpoint, payload: Payload)
    requires NeverStrict(cfg) && Plain(y) && Genuine(cfg, PeerOf(y.role), payload)
    ensures PlainMove(cfg, Read(y), Receive(cfg, y, payload))
  {
    var e := Read(y);
    var s := if payload.KexInit? && e.kex.None? then BeginRekey(cfg, e) else Stepped(e, []);
    if payload.KexInit? && e.kex.None? {
      PlainBegin(cfg, e);
    }
    if !payload.Other? && s.e.kex.Some? {
      var t := StepOf(cfg, s.e, payload);
      PlainStep(cfg, s.e, payload);
      CountedConcat(s.out, t.out, e.sendSeqn, s.e.sendSeqn, t.e.sendSeqn);
    }
  }

  ghost predicate PlainInv(cfg: Config, s: System) {
    && s.client.role == Negotiation.Client && s.server.role == Negotiation.Server
    && Plain(s.client) && Plain(s.server)
    && AllGenuine(cfg, Negotiation.Client, s.toServer) && AllGenuine(cfg, Negotiation.Server, s.toClient)
    && (!s.server.failed ==> Counted(s.toServer, s.server.recvSeqn, s.client.sendSeqn))
    && (!s.client.failed ==> Counted(s.toClient, s.client.recvSeqn, s.server.sendSeqn))
  }

  /** `role` moves on, having read nothing or the first packet on its wire. */
  lemma PlainPut(cfg: Config, s: System, role: Role, e: Endpoint, t: Stepped)
    requires s.client.role == Negotiation.Client && s.server.role == Negotiation.Server && Plain(At(s, PeerOf(role)))
    requires AllGenuine(cfg, Negotiation.Client, s.toServer) && AllGenuine(cfg, Negotiation.Server, s.toClient)
    requires var peer := At(s, PeerOf(role));
             && (!t.e.failed ==> Counted(WireTo(s, role), e.recvSeqn, peer.sendSeqn))
             && (!peer.failed ==> Counted(WireTo(s, PeerOf(role)), peer.recvSeqn, e.sendSeqn))
    requires e.role == role && PlainMove(cfg, e, t)
    ensures PlainInv(cfg, Put(s, role, t))
  {
    var peer := At(s, PeerOf(role));
    if !peer.failed {
      CountedConcat(WireTo(s, PeerOf(role)), t.out, peer.recvSeqn, e.sendSeqn, t.e.sendSeqn);
    }
  }

  lemma PlainDelivery(cfg: Config, s: System, role: Role)
    requires NeverStrict(cfg) && PlainInv(cfg, s) && !At(s, role).failed && WireTo(s, role) != []
    ensures PlainInv(cfg, Step(cfg, s, Deliver(role)))
  {
    var e, p := At(s, role), WireTo(s, role)[0];
    if Opens(cfg, e, p) {
      PlainReceive(cfg, e, p.payload);
      PlainPut(cfg, Pop(s, role), role, Read(e), Receive(cfg, e, p.payload));
    } else {
      PlainPut(cfg, Pop(s, role), role, e, Fail(e));
    }
  }

  lemma PlainKept(cfg: Config, s: System, m: Move)
    requires NeverStrict(cfg) && PlainInv(cfg, s)
    ensures PlainInv(cfg, Step(cfg, s, m))
  {
    var e := At(s, m.role);
    if !e.failed {
      match m {
        case SendOther(role) =>
          var t := Send(Stepped(e, []), Other);
          PlainOut(cfg, e, t);
          if e.session.Some? {
            PlainPut(cfg, s, role, e, t);
          }
        case StartRekey(role) =>
          PlainBegin(cfg, e);
          if e.kex.None? {
            PlainPut(cfg, s, role, e, BeginRekey(cfg, e));
          }
        case Deliver(role) =>
          if WireTo(s, role) != [] {
            PlainDelivery(cfg, s, role);
          }
      }
    }
  }

  lemma {:induction false} PlainRun(cfg: Config, s: System, moves: seq<Move>)
    requires NeverStrict(cfg) && PlainInv(cfg, s)
    ensures PlainInv(cfg, Run(cfg, s, moves))
    decreases |moves|
  {
    if moves != [] {
      PlainKept(cfg, s, moves[0]);
      PlainRun(cfg, Step(cfg, s, moves[0]), moves[1..]);
    }
  }

  /** Without strict kex the numbers stay in step whatever the two sides
      negotiate, including when they fail to. */
  lemma InStepWithoutStrict(cfg: Config, moves: seq<Move>, role: Role)
    requires NeverStrict(cfg)
    ensures InStep(Reach(cfg, moves), role)
  {
    PlainBegin(cfg, Fresh(Negotiation.Client));
    PlainBegin(cfg, Fresh(Negotiation.Server));
    PlainRun(cfg, Start(cfg), moves);
  }

  // ---------------------------------------------------------------------
  // `none` under strict kex
  // ---------------------------------------------------------------------

  /** A first exchange that is skipped is over at the peer's KEXINIT: the new
      keys are in use, under strict kex reading starts at 0 again, and the
      NEWKEYS sent then carries number 1 and no cipher. */
  lemma SkippedInit(cfg: Config, agreed: Names, role: Role)
    requires Lawful(cfg, agreed) && cfg.skips(agreed.kex)
    ensures var t := Receive(cfg, BeginRekey(cfg, Fresh(role)).e, KexInit(InitAt(cfg, PeerOf(role), 0)));
            && t.out == [Packet(NewKeysMsg, None, 1, 0, false)] && t.e.role == role && t.e.epoch == 1 && t.e.kex == None
            && t.e.recvSeqn == (if agreed.strict then 0 else 1) && !t.e.failed && OpenCipher(t.e) == Some(agreed.cipher)
  {
    assert cfg.read(role, InitAt(cfg, PeerOf(role), 0), false) == Some(agreed);
  }

  /** Both sides have skipped the exchange, and the client's NEWKEYS is next. */
  lemma BothSkip(cfg: Config, agreed: Names)
    requires Lawful(cfg, agreed) && cfg.skips(agreed.kex)
    ensures var r := Reach(cfg, [Deliver(Negotiation.Client), Deliver(Negotiation.Server)]);
            && r.toServer == [Packet(NewKeysMsg, None, 1, 0, false)] && r.server.role == Negotiation.Server
            && r.server.epoch == 1 && r.server.kex == None && r.server.session.Some?
            && r.server.recvSeqn == (if agreed.strict then 0 else 1)
            && !r.server.failed && OpenCipher(r.server) == Some(agreed.cipher)
  {
    var toClient, toServer := Deliver(Negotiation.Client), Deliver(Negotiation.Server);
    var s0 := Start(cfg);
    SkippedInit(cfg, agreed, Negotiation.Client);
    SkippedInit(cfg, agreed, Negotiation.Server);
    var c := Receive(cfg, s0.client, KexInit(cfg.serverInit(0)));
    var s := Receive(cfg, s0.server, KexInit(cfg.clientInit(0)));
    var s1 := System(c.e, s0.server, [], s0.toServer + c.out);
    var s2 := System(c.e, s.e, [] + s.out, c.out);
    assert s0.toClient[1..] == [] && (s0.toServer + c.out)[1..] == c.out;
    assert Step(cfg, s0, toClient) == s1 && Step(cfg, s1, toServer) == s2;
    assert [toClient, toServer][1..] == [toServer] && [toServer][1..] == [];
    assert Run(cfg, s0, [toClient, toServer]) == Run(cfg, s1, [toServer]) == Run(cfg, s2, []) == s2;
  }

  /** So under strict kex the server expects number 0 and has number 1 in front of it. */
  lemma NoneUnderStrictBreaksStep(cfg: Config, agreed: Names)
    requires Lawful(cfg, agreed) && agreed.strict && cfg.skips(agreed.kex)
    ensures !InStep(Reach(cfg, [Deliver(Negotiation.Client), Deliver(Negotiation.Server)]), Negotiation.Server)
  {
    BothSkip(cfg, agreed);
  }

  /** And, strict or not, that NEWKEYS ends the connection exactly if the agreed
      cipher encrypts: it was sealed without keys and meets the new ones. */
  lemma SkippedExchangeNeedsClearCipher(cfg: Config, agreed: Names)
    requires Lawful(cfg, agreed) && cfg.skips(agreed.kex)
    ensures Step(cfg, Reach(cfg, [Deliver(Negotiation.Client), Deliver(Negotiation.Server)]), Deliver(Negotiation.Server)).server.failed
            <==> !cfg.isClear(agreed.cipher)
  {
    BothSkip(cfg, agreed);
  }

  /** Sequence numbers stay in step over every run, exactly unless the two
      sides agree on both strict kex and a key exchange that is skipped. */
  lemma InStepExactly(cfg: Config, agreed: Names)
    requires Lawful(cfg, agreed)
    ensures (forall moves, role :: InStep(Reach(cfg, moves), role)) <==> !(agreed.strict && cfg.skips(agreed.kex))
  {
    if agreed.strict && cfg.skips(agreed.kex) {
      NoneUnderStrictBreaksStep(cfg, agreed);
    } else {
      forall moves, role ensures InStep(Reach(cfg, moves), role) {
        if agreed.strict {
          SeqnLockstep(cfg, agreed, moves, role);
        } else {
          assert NeverStrict(cfg);
          InStepWithoutStrict(cfg, moves, role);
        }
      }
    }
  }
}
