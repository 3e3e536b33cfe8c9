/** Exactly which runs of the two machines end in an error. */
module KexFailures {
  import opened Wire
  import opened KeyExchange
  import Negotiation

  // ---------------------------------------------------------------------
  // An endpoint fails exactly over a late packet
  // ---------------------------------------------------------------------

  /** The endpoint is about to read a packet that was sent between its sender's
      own NEWKEYS and the one its sender waited for. */
  predicate LateNext(s: System, role: Role) {
    !At(s, role).failed && WireTo(s, role) != [] && WireTo(s, role)[0].late
  }

  /** Some move of the run delivers such a packet to `role`. */
  predicate ReadsLate(cfg: Config, s: System, moves: seq<Move>, role: Role)
    decreases |moves|
  {
    moves != [] &&
    ((moves[0] == Deliver(role) && LateNext(s, role)) || ReadsLate(cfg, Step(cfg, s, moves[0]), moves[1..], role))
  }

  /** Only reading can make an endpoint fail. */
  lemma OnlyReadingFails(cfg: Config, s: System, m: Move, role: Role)
    requires m != Deliver(role) || At(s, role).failed || WireTo(s, role) == []
    ensures At(Step(cfg, s, m), role).failed == At(s, role).failed
  {
  }

  lemma StepFailsExactly(cfg: Config, agreed: Names, s: System, m: Move, role: Role)
    requires Lawful(cfg, agreed) && !cfg.skips(agreed.kex) && Inv(cfg, agreed, s)
    ensures At(Step(cfg, s, m), role).failed
            <==> At(s, role).failed || (!cfg.isClear(agreed.cipher) && m == Deliver(role) && LateNext(s, role))
  {
    if m == Deliver(role) && !At(s, role).failed && WireTo(s, role) != [] {
      DeliverKeeps(cfg, agreed, s, role);
      assert At(Step(cfg, s, m), role) == ReadPacket(cfg, At(s, role), WireTo(s, role)[0]).e;
    } else {
      OnlyReadingFails(cfg, s, m, role);
    }
  }

  lemma {:induction false} RunFailsExactly(cfg: Config, agreed: Names, s: System, moves: seq<Move>, role: Role)
    requires Lawful(cfg, agreed) && !cfg.skips(agreed.kex) && Inv(cfg, agreed, s)
    ensures At(Run(cfg, s, moves), role).failed
            <==> At(s, role).failed || (!cfg.isClear(agreed.cipher) && ReadsLate(cfg, s, moves, role))
    decreases |moves|
  {
    if moves != [] {
      StepFailsExactly(cfg, agreed, s, moves[0], role);
      StepKeeps(cfg, agreed, s, moves[0]);
      RunFailsExactly(cfg, agreed, Step(cfg, s, moves[0]), moves[1..], role);
    }
  }

  /** Over any number of rekeys, started by either side or both at once, with
      any other traffic: an endpoint ends in an error exactly when a late
      packet has been delivered to it under a cipher that encrypts. */
  lemma FailsExactlyOverLatePackets(cfg: Config, agreed: Names, moves: seq<Move>, role: Role)
    requires Lawful(cfg, agreed) && !cfg.skips(agreed.kex)
    ensures At(Reach(cfg, moves), role).failed <==> !cfg.isClear(agreed.cipher) && ReadsLate(cfg, Start(cfg), moves, role)
  {
    StartHolds(cfg, agreed);
    RunFailsExactly(cfg, agreed, Start(cfg), moves, role);
  }

  // ---------------------------------------------------------------------
  // A run can be completed without an error exactly if nothing is sent late
  // ---------------------------------------------------------------------

  /** The move sends other traffic while its sender waits for NEWKEYS. */
  predicate IsLateSend(s: System, m: Move) {
    m.SendOther? && !At(s, m.role).failed && At(s, m.role).session.Some? && AwaitsNewKeys(At(s, m.role))
  }

  predicate SendsLate(cfg: Config, s: System, moves: seq<Move>)
    decreases |moves|
  {
    moves != [] && (IsLateSend(s, moves[0]) || SendsLate(cfg, Step(cfg, s, moves[0]), moves[1..]))
  }

  predicate OnlyDelivers(moves: seq<Move>) {
    forall i :: 0 <= i < |moves| ==> moves[i].Deliver?
  }

  predicate SomeFailed(s: System) {
    s.client.failed || s.server.failed
  }

  /** Nobody has failed, and nothing is in flight that would make it so. */
  ghost predicate Calm(cfg: Config, agreed: Names, s: System) {
    !SomeFailed(s) && (cfg.isClear(agreed.cipher) || (AllTimely(s.toClient) && AllTimely(s.toServer)))
  }

  lemma AlsoTimely(a: seq<Packet>, b: seq<Packet>)
    requires AllTimely(a) && AllTimely(b)
    ensures AllTimely(a + b) && (a != [] ==> AllTimely(a[1..] + b) && AllTimely(a[1..]))
  {
  }

  lemma StepStaysCalm(cfg: Config, agreed: Names, s: System, m: Move)
    requires Lawful(cfg, agreed) && !cfg.skips(agreed.kex) && Inv(cfg, agreed, s) && Calm(cfg, agreed, s)
    requires cfg.isClear(agreed.cipher) || !IsLateSend(s, m)
    ensures Calm(cfg, agreed, Step(cfg, s, m))
  {
    StepFailsExactly(cfg, agreed, s, m, Negotiation.Client);
    StepFailsExactly(cfg, agreed, s, m, Negotiation.Server);
    if !cfg.isClear(agreed.cipher) {
      StepSendsTimely(cfg, agreed, s, m);
    }
  }

  /** What a move puts on the wire to the peer is timely. */
  lemma PutIsTimely(s: System, role: Role, t: Stepped)
    requires AllTimely(s.toClient) && AllTimely(s.toServer) && AllTimely(t.out)
    ensures AllTimely(Put(s, role, t).toClient) && AllTimely(Put(s, role, t).toServer)
    ensures WireTo(s, role) != [] ==> AllTimely(Pop(s, role).toClient) && AllTimely(Pop(s, role).toServer)
  {
    AlsoTimely(WireTo(s, PeerOf(role)), t.out);
    AlsoTimely(WireTo(s, role), []);
  }

  lemma StepSendsTimely(cfg: Config, agreed: Names, s: System, m: Move)
    requires Lawful(cfg, agreed) && !cfg.skips(agreed.kex) && Inv(cfg, agreed, s) && !IsLateSend(s, m)
    requires AllTimely(s.toClient) && AllTimely(s.toServer) && !SomeFailed(s)
    ensures var t := Step(cfg, s, m); AllTimely(t.toClient) && AllTimely(t.toServer)
  {
    var e := At(s, m.role);
    match m {
      case SendOther(role) =>
        if e.session.Some? {
          PutIsTimely(s, role, Send(Stepped(e, []), Other));
        }
      case StartRekey(role) =>
        if e.kex == None {
          Begins(cfg, agreed, e);
          PutIsTimely(s, role, BeginRekey(cfg, e));
        }
      case Deliver(role) =>
        if WireTo(s, role) != [] {
          var t := ReadPacket(cfg, e, WireTo(s, role)[0]);
          DeliverKeeps(cfg, agreed, s, role);
          PutIsTimely(s, role, t);
          PutIsTimely(Pop(s, role), role, t);
        }
    }
  }

  lemma {:induction false} RunStaysCalm(cfg: Config, agreed: Names, s: System, moves: seq<Move>)
    requires Lawful(cfg, agreed) && !cfg.skips(agreed.kex) && Inv(cfg, agreed, s) && Calm(cfg, agreed, s)
    requires cfg.isClear(agreed.cipher) || !SendsLate(cfg, s, moves)
    ensures Calm(cfg, agreed, Run(cfg, s, moves))
    decreases |moves|
  {
    if moves != [] {
      StepStaysCalm(cfg, agreed, s, moves[0]);
      StepKeeps(cfg, agreed, s, moves[0]);
      RunStaysCalm(cfg, agreed, Step(cfg, s, moves[0]), moves[1..]);
    }
  }

  ghost predicate HasLate(wire: seq<Packet>) {
    exists i :: 0 <= i < |wire| && wire[i].late
  }

  /** The endpoint has failed, or a late packet is on its way to it. */
  ghost predicate Doomed(s: System, role: Role) {
    At(s, role).failed || HasLate(WireTo(s, role))
  }

  /** What has not been read stays on the wire. */
  lemma OthersStay(cfg: Config, s: System, m: Move, role: Role)
    ensures m != Deliver(role) ==> WireTo(s, role) <= WireTo(Step(cfg, s, m), role)
    ensures m == Deliver(role) && !At(s, role).failed && WireTo(s, role) != [] ==>
              WireTo(Step(cfg, s, m), role) == WireTo(s, role)[1..]
  {
  }

  lemma StepStaysDoomed(cfg: Config, agreed: Names, s: System, m: Move, role: Role)
    requires Lawful(cfg, agreed) && !cfg.skips(agreed.kex) && !cfg.isClear(agreed.cipher) && Inv(cfg, agreed, s) && Doomed(s, role)
    ensures Doomed(Step(cfg, s, m), role)
  {
    StepFailsExactly(cfg, agreed, s, m, role);
    OthersStay(cfg, s, m, role);
    if !At(s, role).failed {
      var wire, rest := WireTo(s, role), WireTo(Step(cfg, s, m), role);
      var i :| 0 <= i < |wire| && wire[i].late;
      if m != Deliver(role) {
        assert rest[i] == wire[i];
      } else if i > 0 {
        assert rest[i - 1] == wire[i];
      }
    }
  }

  lemma LateSendDooms(cfg: Config, s: System, m: Move)
    requires IsLateSend(s, m)
    ensures Doomed(Step(cfg, s, m), PeerOf(m.role))
  {
    var wire := WireTo(Step(cfg, s, m), PeerOf(m.role));
    assert wire[|WireTo(s, PeerOf(m.role))|].late;
  }

  lemma {:induction false} RunStaysDoomed(cfg: Config, agreed: Names, s: System, moves: seq<Move>, role: Role)
    requires Lawful(cfg, agreed) && !cfg.skips(agreed.kex) && !cfg.isClear(agreed.cipher) && Inv(cfg, agreed, s) && Doomed(s, role)
    ensures Doomed(Run(cfg, s, moves), role)
    decreases |moves|
  {
    if moves != [] {
      StepStaysDoomed(cfg, agreed, s, moves[0], role);
      StepKeeps(cfg, agreed, s, moves[0]);
      RunStaysDoomed(cfg, agreed, Step(cfg, s, moves[0]), moves[1..], role);
    }
  }

  lemma {:induction false} LateSendsDoom(cfg: Config, agreed: Names, s: System, moves: seq<Move>) returns (role: Role)
    requires Lawful(cfg, agreed) && !cfg.skips(agreed.kex) && !cfg.isClear(agreed.cipher) && Inv(cfg, agreed, s) && SendsLate(cfg, s, moves)
    ensures Doomed(Run(cfg, s, moves), role)
    decreases |moves|
  {
    var t := Step(cfg, s, moves[0]);
    StepKeeps(cfg, agreed, s, moves[0]);
    if IsLateSend(s, moves[0]) {
      role := PeerOf(moves[0].role);
      LateSendDooms(cfg, s, moves[0]);
      RunStaysDoomed(cfg, agreed, t, moves[1..], role);
    } else {
      role := LateSendsDoom(cfg, agreed, t, moves[1..]);
    }
  }

  lemma ReadingStaysDoomed(cfg: Config, agreed: Names, s: System, role: Role)
    requires Lawful(cfg, agreed) && !cfg.skips(agreed.kex) && !cfg.isClear(agreed.cipher) && Inv(cfg, agreed, s)
    requires Doomed(s, role) && !At(s, role).failed
    ensures var t := Step(cfg, s, Deliver(role));
            Inv(cfg, agreed, t) && Doomed(t, role) && |WireTo(t, role)| < |WireTo(s, role)|
  {
    StepKeeps(cfg, agreed, s, Deliver(role));
    StepStaysDoomed(cfg, agreed, s, Deliver(role), role);
    OthersStay(cfg, s, Deliver(role), role);
  }

  /** Delivering all there is makes a doomed endpoint fail. */
  lemma {:induction false} DeliveryFails(cfg: Config, agreed: Names, s: System, role: Role) returns (more: seq<Move>)
    requires Lawful(cfg, agreed) && !cfg.skips(agreed.kex) && !cfg.isClear(agreed.cipher) && Inv(cfg, agreed, s) && Doomed(s, role)
    ensures OnlyDelivers(more) && At(Run(cfg, s, more), role).failed
    decreases |WireTo(s, role)|
  {
    if At(s, role).failed {
      more := [];
    } else {
      var m := Deliver(role);
      ReadingStaysDoomed(cfg, agreed, s, role);
      var rest := DeliveryFails(cfg, agreed, Step(cfg, s, m), role);
      more := [m] + rest;
      OneMore(cfg, s, m, rest);
    }
  }

  lemma OneMore(cfg: Config, s: System, m: Move, rest: seq<Move>)
    ensures Run(cfg, s, [m] + rest) == Run(cfg, Step(cfg, s, m), rest)
  {
    assert ([m] + rest)[1..] == rest;
  }

  lemma {:induction false} DeliveriesAreNotLateSends(cfg: Config, s: System, moves: seq<Move>)
    requires OnlyDelivers(moves)
    ensures !SendsLate(cfg, s, moves)
    decreases |moves|
  {
    if moves != [] {
      DeliveriesAreNotLateSends(cfg, Step(cfg, s, moves[0]), moves[1..]);
    }
  }

  /** The exact condition under which a run and the delivery of all it leaves
      in flight stay free of errors: the agreed cipher does not encrypt, or no
      endpoint sends other traffic between its own NEWKEYS and the one it waits for. */
  lemma FailsExactlyOverLateSends(cfg: Config, agreed: Names, moves: seq<Move>)
    requires Lawful(cfg, agreed) && !cfg.skips(agreed.kex)
    ensures (exists more :: OnlyDelivers(more) && SomeFailed(Run(cfg, Reach(cfg, moves), more)))
            <==> !cfg.isClear(agreed.cipher) && SendsLate(cfg, Start(cfg), moves)
  {
    var r := Reach(cfg, moves);
    StartHolds(cfg, agreed);
    Reached(cfg, agreed, moves);
    if !cfg.isClear(agreed.cipher) && SendsLate(cfg, Start(cfg), moves) {
      var role := LateSendsDoom(cfg, agreed, Start(cfg), moves);
      var more := DeliveryFails(cfg, agreed, r, role);
      assert SomeFailed(Run(cfg, r, more));
    } else {
      RunStaysCalm(cfg, agreed, Start(cfg), moves);
      forall more | OnlyDelivers(more)
        ensures !SomeFailed(Run(cfg, r, more))
      {
        DeliveriesAreNotLateSends(cfg, r, more);
        RunStaysCalm(cfg, agreed, r, more);
      }
    }
  }

  /** In particular a run in which nothing is sent late has no error. */
  lemma NeverFails(cfg: Config, agreed: Names, moves: seq<Move>)
    requires Lawful(cfg, agreed) && !cfg.skips(agreed.kex) && !SendsLate(cfg, Start(cfg), moves)
    ensures !SomeFailed(Reach(cfg, moves))
  {
    StartHolds(cfg, agreed);
    RunStaysCalm(cfg, agreed, Start(cfg), moves);
  }

  // ---------------------------------------------------------------------
  // Such a run exists
  // ---------------------------------------------------------------------

  const NAMES := Negotiation.Names([1], [1], [1], [1], [1], [1], [1], false, false)

  /** One algorithm of each kind, no group exchange, no strict kex, constant primitives. */
  function Plain(): Config {
    Config([], [], _ => [], _ => [], (_, _, _) => Some(NAMES), _ => false, _ => false, _ => false,
           _ => 0, _ => 0, [], _ => [], _ => true, (_, _) => [], (_, _, _) => [], (_, _, _) => [],
           [], _ => [], (_, _, _) => true, (_, _, _, _, _) => [], _ => 0, _ => 0, _ => 0)
  }

  lemma PlainIsLawful()
    ensures Lawful(Plain(), NAMES) && !Plain().skips(NAMES.kex) && !Plain().isClear(NAMES.cipher)
  {
  }

  function ClientAt(k: nat, stage: Stage, sendSeqn: u32, recvSeqn: u32): Endpoint {
    EndpointAt(Plain(), NAMES, Negotiation.Client, k, stage, sendSeqn, recvSeqn)
  }

  function ServerAt(k: nat, stage: Stage, sendSeqn: u32, recvSeqn: u32): Endpoint {
    EndpointAt(Plain(), NAMES, Negotiation.Server, k, stage, sendSeqn, recvSeqn)
  }

  function Sent(payload: Payload, seqn: u32, epoch: nat): Packet {
    Packet(payload, CipherAt(NAMES, epoch), seqn, epoch, false)
  }

  const INIT := KexInit([])
  const REPLY := DhReply([], [], [])
  const TO_CLIENT := Deliver(Negotiation.Client)
  const TO_SERVER := Deliver(Negotiation.Server)
  const REKEY := StartRekey(Negotiation.Client)
  const LATE := SendOther(Negotiation.Server)

  function Go(s: System, m: Move): System {
    Step(Plain(), s, m)
  }

  /** Up to the server's reply and NEWKEYS. */
  lemma FirstReply()
    ensures var s := Go(Go(Go(Start(Plain()), TO_CLIENT), TO_SERVER), TO_SERVER);
            s == System(ClientAt(0, Dhing, 2, 1), ServerAt(0, Closing, 3, 2), [Sent(REPLY, 1, 0), Sent(NewKeysMsg, 2, 0)], [])
  {
    var s1 := System(ClientAt(0, Dhing, 2, 1), ServerAt(0, Begun, 1, 0), [], [Sent(INIT, 0, 0), Sent(DhInit([]), 1, 0)]);
    var s2 := System(s1.client, ServerAt(0, Dhing, 1, 1), [], [Sent(DhInit([]), 1, 0)]);
    assert Start(Plain()) == System(ClientAt(0, Begun, 1, 0), ServerAt(0, Begun, 1, 0), [Sent(INIT, 0, 0)], [Sent(INIT, 0, 0)]);
    assert Go(Start(Plain()), TO_CLIENT) == s1;
    assert s1.toServer[1..] == [Sent(DhInit([]), 1, 0)];
    assert Go(s1, TO_SERVER) == s2;
  }

  /** Both sides done, and the client begins again. */
  lemma FirstDone(s: System)
    requires s == System(ClientAt(0, Dhing, 2, 1), ServerAt(0, Closing, 3, 2), [Sent(REPLY, 1, 0), Sent(NewKeysMsg, 2, 0)], [])
    ensures Go(Go(Go(Go(s, TO_CLIENT), TO_CLIENT), TO_SERVER), REKEY)
            == System(ClientAt(1, Begun, 4, 3), ServerAt(1, Idle, 3, 3), [], [Sent(INIT, 3, 1)])
  {
    var s1 := System(ClientAt(0, Closing, 3, 2), s.server, [Sent(NewKeysMsg, 2, 0)], [Sent(NewKeysMsg, 2, 0)]);
    var s2 := System(ClientAt(1, Idle, 3, 3), s.server, [], [Sent(NewKeysMsg, 2, 0)]);
    var s3 := System(s2.client, ServerAt(1, Idle, 3, 3), [], []);
    assert s.toClient[1..] == [Sent(NewKeysMsg, 2, 0)];
    assert Go(s, TO_CLIENT) == s1;
    assert Go(s1, TO_CLIENT) == s2;
    assert Go(s2, TO_SERVER) == s3;
  }

  /** The rekey up to the server's NEWKEYS, and one more packet after it. */
  lemma SecondReply(s: System)
    requires s == System(ClientAt(1, Begun, 4, 3), ServerAt(1, Idle, 3, 3), [], [Sent(INIT, 3, 1)])
    ensures var t := Go(Go(Go(s, TO_SERVER), TO_CLIENT), TO_SERVER);
            && t == System(ClientAt(1, Dhing, 5, 4), ServerAt(1, Closing, 6, 5), [Sent(REPLY, 4, 1), Sent(NewKeysMsg, 5, 1)], [])
            && IsLateSend(t, LATE)
  {
    var s1 := System(s.client, ServerAt(1, Dhing, 4, 4), [Sent(INIT, 3, 1)], []);
    var s2 := System(ClientAt(1, Dhing, 5, 4), s1.server, [], [Sent(DhInit([]), 4, 1)]);
    assert [] + [Sent(INIT, 3, 1)] + [] == [Sent(INIT, 3, 1)];
    assert Go(s, TO_SERVER) == s1;
    assert Go(s1, TO_CLIENT) == s2;
  }

  /** The client completes the rekey with the late packet still before it. */
  lemma LateHead(s: System)
    requires s == System(ClientAt(1, Dhing, 5, 4), ServerAt(1, Closing, 6, 5), [Sent(REPLY, 4, 1), Sent(NewKeysMsg, 5, 1)], [])
    ensures LateNext(Go(Go(Go(s, LATE), TO_CLIENT), TO_CLIENT), Negotiation.Client)
  {
    var late := Packet(Other, Some([1]), 6, 1, true);
    var s1 := System(s.client, s.server.(sendSeqn := 7), [Sent(REPLY, 4, 1), Sent(NewKeysMsg, 5, 1), late], []);
    var s2 := System(ClientAt(1, Closing, 6, 5), s1.server, [Sent(NewKeysMsg, 5, 1), late], [Sent(NewKeysMsg, 5, 1)]);
    assert Go(s, LATE) == s1;
    assert s1.toClient[1..] == [Sent(NewKeysMsg, 5, 1), late];
    assert Go(s1, TO_CLIENT) == s2;
    assert s2.toClient[1..] == [late];
    assert Go(s2, TO_CLIENT) == System(ClientAt(2, Idle, 6, 6), s1.server, [late], s2.toServer);
  }

  lemma RunThree(s: System, k: Move, l: Move, m: Move, rest: seq<Move>)
    ensures Run(Plain(), s, [k, l, m] + rest) == Run(Plain(), Go(Go(Go(s, k), l), m), rest)
  {
    var moves := [k, l, m] + rest;
    assert moves[1..] == [l, m] + rest && ([l, m] + rest)[1..] == [m] + rest && ([m] + rest)[1..] == rest;
    assert Run(Plain(), s, moves) == Run(Plain(), Go(s, k), [l, m] + rest);
    assert Run(Plain(), Go(s, k), [l, m] + rest) == Run(Plain(), Go(Go(s, k), l), [m] + rest);
  }

  /** A rekey during which the server sends one other packet after its NEWKEYS
      brings the client to a late packet, over which it then fails. */
  lemma LatePacketIsReachable() returns (moves: seq<Move>)
    ensures Lawful(Plain(), NAMES) && !Plain().skips(NAMES.kex) && !Plain().isClear(NAMES.cipher)
    ensures LateNext(Reach(Plain(), moves), Negotiation.Client)
    ensures Go(Reach(Plain(), moves), TO_CLIENT).client.failed
  {
    var last := [LATE, TO_CLIENT, TO_CLIENT] + [];
    var third := [TO_SERVER, TO_CLIENT, TO_SERVER] + last;
    var second := [TO_CLIENT, TO_CLIENT, TO_SERVER] + ([REKEY] + third);
    moves := [TO_CLIENT, TO_SERVER, TO_SERVER] + second;
    var s0 := Start(Plain());
    var s1 := Go(Go(Go(s0, TO_CLIENT), TO_SERVER), TO_SERVER);
    var s2 := Go(Go(Go(s1, TO_CLIENT), TO_CLIENT), TO_SERVER);
    var s3 := Go(s2, REKEY);
    var s4 := Go(Go(Go(s3, TO_SERVER), TO_CLIENT), TO_SERVER);
    RunThree(s0, TO_CLIENT, TO_SERVER, TO_SERVER, second);
    RunThree(s1, TO_CLIENT, TO_CLIENT, TO_SERVER, [REKEY] + third);
    assert ([REKEY] + third)[1..] == third && Run(Plain(), s2, [REKEY] + third) == Run(Plain(), s3, third);
    RunThree(s3, TO_SERVER, TO_CLIENT, TO_SERVER, last);
    RunThree(s4, LATE, TO_CLIENT, TO_CLIENT, []);
    FirstReply();
    FirstDone(s1);
    SecondReply(s3);
    LateHead(s4);
    assert Reach(Plain(), moves) == Go(Go(Go(s4, LATE), TO_CLIENT), TO_CLIENT);
    PlainIsLawful();
    Reached(Plain(), NAMES, moves);
    StepFailsExactly(Plain(), NAMES, Reach(Plain(), moves), TO_CLIENT, Negotiation.Client);
  }

  // ---------------------------------------------------------------------
  // The strict tables
  // ---------------------------------------------------------------------

  predicate StrictWithSession(s: System) {
    (s.client.strict ==> s.client.session.Some?) && (s.server.strict ==> s.server.session.Some?)
  }

  predicate HasSessionIfStrict(e: Endpoint) {
    e.strict ==> e.session.Some?
  }

  /** Only installing keys turns the flag on, and that makes a session. */
  lemma InitKeepsStrict(cfg: Config, e: Endpoint, payload: Payload)
    requires e.kex.Some? && HasSessionIfStrict(e)
    ensures HasSessionIfStrict(OnKexInit(cfg, e, payload).e)
  {
  }

  lemma ReceiveKeepsStrict(cfg: Config, e: Endpoint, payload: Payload)
    requires HasSessionIfStrict(e)
    ensures HasSessionIfStrict(Receive(cfg, e, payload).e)
  {
    var read := Read(e);
    var begun := if payload.KexInit? && read.kex.None? then BeginRekey(cfg, read).e else read;
    if begun.kex.Some? {
      InitKeepsStrict(cfg, begun, payload);
    }
  }

  lemma StepKeepsStrictWithSession(cfg: Config, s: System, m: Move)
    requires StrictWithSession(s)
    ensures StrictWithSession(Step(cfg, s, m))
  {
    if m.Deliver? && WireTo(s, m.role) != [] {
      ReceiveKeepsStrict(cfg, At(s, m.role), WireTo(s, m.role)[0].payload);
    }
  }

  lemma {:induction false} RunKeepsStrictWithSession(cfg: Config, s: System, moves: seq<Move>)
    requires StrictWithSession(s)
    ensures StrictWithSession(Run(cfg, s, moves))
    decreases |moves|
  {
    if moves != [] {
      StepKeepsStrictWithSession(cfg, s, moves[0]);
      RunKeepsStrictWithSession(cfg, Step(cfg, s, moves[0]), moves[1..]);
    }
  }

  /** Whatever the two sides and the primitives are: in every run an endpoint
      that has turned strict key exchange on has a session. The strict message
      tables are consulted only with the flag and without a session, so never. */
  lemma StrictNeedsSession(cfg: Config, moves: seq<Move>, role: Role)
    ensures At(Reach(cfg, moves), role).strict ==> At(Reach(cfg, moves), role).session.Some?
  {
    RunKeepsStrictWithSession(cfg, Start(cfg), moves);
  }
}
