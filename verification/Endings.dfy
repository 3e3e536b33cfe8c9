/** How a channel ends: what has arrived when EOF and CLOSE are read, exactly
    when CLOSE is answered, and exactly when EOF is sent. */
module Endings {
  import opened Wire
  import opened Channel
  import opened Flow

  // ---------------------------------------------------------------------
  // Farewells arrive after everything
  // ---------------------------------------------------------------------

  /** In every reachable state: when EOF or CLOSE is the next message of an open
      receiver, it has been given every byte that the sender had submitted when
      it queued that message; for CLOSE that is every byte ever submitted. */
  lemma FarewellsMeanEverythingArrived(s: System, moves: seq<Move>, atA: bool)
    requires Start(s)
    ensures var r := Reach(s, moves);
            var me, peer := Me(r, atA), Me(r, !atA);
            me.ch.Some? && InFlight(r, atA) != [] && IsFarewell(InFlight(r, atA)[0]) ==>
              && me.read < |peer.stamps| && peer.stamps[me.read] <= |peer.submitted| && me.delivered == peer.submitted[..peer.stamps[me.read]]
              && (InFlight(r, atA)[0].Close? ==> me.delivered == peer.submitted)
  {
    var r := Reach(s, moves);
    Reached(s, moves);
    var me, peer := Me(r, atA), Me(r, !atA);
    if me.ch.Some? && InFlight(r, atA) != [] && IsFarewell(InFlight(r, atA)[0]) {
      assert Directed(peer, me, r.limit) && Local(peer);
      assert InFlight(r, atA)[0] == peer.log[me.read];
      assert StampedAt(peer.log, peer.stamps, peer.submitted, me.read);
      assert peer.submitted[..|peer.submitted|] == peer.submitted;
    }
  }

  // ---------------------------------------------------------------------
  // CLOSE
  // ---------------------------------------------------------------------

  /** A client answers CLOSE at once exactly when no data waits. */
  lemma ClientAnswersClose(me: Endpoint, next: u32)
    requires SoundIfOpen(me.ch) && me.ch.Some? && me.client
    ensures var you := Handle(me, Close, next);
            (you.log == me.log + [Close] && you.ch.None?) <==> me.ch.value.pending == []
  {
    var you := Handle(me, Close, next);
    if me.ch.value.pending != [] {
      assert |you.log| == |me.log|;
    }
  }

  /** The peer has closed, data waits here, and nothing that could raise the
      window is left to read. */
  predicate Stranded(me: Endpoint, peer: Endpoint) {
    && peer.ch.None? && me.ch.Some? && me.ch.value.pending != []
    && me.read <= |peer.log| && (me.read < |peer.log| ==> me.client && me.read + 1 == |peer.log| && peer.log[me.read].Close?)
  }

  lemma StrandedStays(me: Endpoint, peer: Endpoint, limit: u32, act: Act)
    requires SoundIfOpen(me.ch) && Stranded(me, peer)
    ensures var you := Perform(me, peer.log, limit, act); Stranded(you, peer) && you.log == me.log
  {
    var c := me.ch.value;
    if act.FinishRekey? {
      FlushIsIdle(c);
    }
    if act.SubmitData? && c.confirmed {
      SubmitBehind(c, act.tag, act.buf, act.rekeying);
    }
    assert me.log + [] == me.log;
  }

  lemma ClosedStays(me: Endpoint, peerLog: seq<Msg>, limit: u32, act: Act)
    requires me.ch.None?
    ensures var you := Perform(me, peerLog, limit, act); you.ch.None? && you.log == me.log
  {
  }

  /** From there on nothing more is sent on the channel, whatever the run. */
  lemma {:induction false} StrandedForever(s: System, moves: seq<Move>, atA: bool)
    requires Inv(s) && Stranded(Me(s, atA), Me(s, !atA))
    ensures var r := Run(s, moves); Stranded(Me(r, atA), Me(r, !atA)) && Me(r, atA).log == Me(s, atA).log
    decreases |moves|
  {
    if moves != [] {
      var m := moves[0];
      if m.atA == atA {
        StrandedStays(Me(s, atA), Me(s, !atA), s.limit, m.act);
      } else {
        ClosedStays(Me(s, !atA), Me(s, atA).log, s.limit, m.act);
      }
      StepKeeps(s, m);
      StrandedForever(Step(s, m), moves[1..], atA);
    }
  }

  /** A client with waiting data whose next message is CLOSE never answers it,
      in no later run, and keeps its data. */
  lemma UnansweredForever(s: System, moves: seq<Move>, atA: bool)
    requires Inv(s) && Me(s, atA).client && Me(s, atA).ch.Some? && Me(s, atA).ch.value.pending != []
    requires InFlight(s, atA) != [] && InFlight(s, atA)[0].Close?
    ensures var me := Me(Run(s, moves), atA); !HasClosed(me) && me.ch.Some? && me.ch.value.pending != []
  {
    var me, peer := Me(s, atA), Me(s, !atA);
    assert Local(me) && Local(peer);
    assert peer.log[me.read] == InFlight(s, atA)[0];
    StrandedForever(s, moves, atA);
  }

  /** The run that goes on with `more` contains an answer. */
  ghost predicate AnswersWithin(s: System, more: seq<Move>, atA: bool) {
    HasClosed(Me(Run(s, more), atA))
  }

  lemma AnswersAtOnce(s: System, atA: bool)
    requires Inv(s) && Me(s, atA).client && Me(s, atA).ch.Some? && Me(s, atA).ch.value.pending == []
    requires InFlight(s, atA) != [] && InFlight(s, atA)[0].Close?
    ensures AnswersWithin(s, [Move(atA, Deliver(0))], atA)
  {
    var me, m := Me(s, atA), Move(atA, Deliver(0));
    ClientAnswersClose(me, 0);
    assert Me(s, !atA).log[me.read] == Close;
    assert [m][1..] == [] && Run(s, [m]) == Run(Step(s, m), []) == Step(s, m);
    assert Me(Step(s, m), atA).log[|me.log|] == Close;
  }

  /** In every reachable state in which a client's next message is CLOSE: it
      answers in some later run if and only if no data waits. */
  lemma AnswersCloseExactly(s: System, moves: seq<Move>, atA: bool)
    requires Start(s)
    requires var r := Reach(s, moves);
             && Me(r, atA).client && Me(r, atA).ch.Some?
             && InFlight(r, atA) != [] && InFlight(r, atA)[0].Close?
    ensures var r := Reach(s, moves);
            (exists more :: AnswersWithin(r, more, atA)) <==> Me(r, atA).ch.value.pending == []
  {
    var r := Reach(s, moves);
    Reached(s, moves);
    if Me(r, atA).ch.value.pending == [] {
      AnswersAtOnce(r, atA);
    } else {
      forall more
        ensures !AnswersWithin(r, more, atA)
      {
        UnansweredForever(r, more, atA);
      }
    }
  }

  /** A channel that is gone says nothing more. */
  lemma {:induction false} GoneForever(s: System, moves: seq<Move>, atA: bool)
    requires Inv(s) && Me(s, atA).ch.None?
    ensures var r := Run(s, moves); Me(r, atA).ch.None? && Me(r, atA).log == Me(s, atA).log
    decreases |moves|
  {
    if moves != [] {
      var m := moves[0];
      if m.atA == atA {
        ClosedStays(Me(s, atA), Me(s, !atA).log, s.limit, m.act);
      }
      StepKeeps(s, m);
      GoneForever(Step(s, m), moves[1..], atA);
    }
  }

  /** A side whose next message is CLOSE, and whose channel is open. */
  predicate CloseIsNext(s: System, atA: bool) {
    Me(s, atA).ch.Some? && InFlight(s, atA) != [] && InFlight(s, atA)[0].Close?
  }

  /** Before this side reads anything more it is asked to close with no data waiting. */
  ghost predicate ClosesFirst(s: System, more: seq<Move>, atA: bool)
    decreases |more|
  {
    more != [] &&
    var m, me := more[0], Me(s, atA);
    if m.atA == atA && m.act.SendClose? && me.ch.Some? && me.ch.value.pending == [] then true
    else if m.atA == atA && m.act.Deliver? && m.act.nextTarget <= s.limit && m.act.nextTarget != 1 then false
    else ClosesFirst(Step(s, m), more[1..], atA)
  }

  lemma ServerDrops(s: System, atA: bool, next: u32, more: seq<Move>)
    requires Inv(s) && !Me(s, atA).client && CloseIsNext(s, atA) && next <= s.limit && next != 1
    ensures !AnswersWithin(Step(s, Move(atA, Deliver(next))), more, atA)
  {
    var me, peer, m := Me(s, atA), Me(s, !atA), Move(atA, Deliver(next));
    var t := Step(s, m);
    assert peer.log[me.read] == Close;
    assert Local(me) && Me(t, atA).log == me.log && Me(t, atA).ch.None?;
    StepKeeps(s, m);
    GoneForever(t, more, atA);
  }

  /** An action other than closing or reading keeps the channel open and reads nothing. */
  lemma StaysUnread(me: Endpoint, peerLog: seq<Msg>, limit: u32, act: Act)
    requires SoundIfOpen(me.ch) && me.ch.Some?
    requires act.SendClose? ==> me.ch.value.pending != []
    requires act.Deliver? ==> act.nextTarget > limit || act.nextTarget == 1
    ensures var you := Perform(me, peerLog, limit, act); you.ch.Some? && you.read == me.read && you.client == me.client
  {
  }

  /** A move other than closing or reading leaves CLOSE where it is. */
  lemma CloseStaysNext(s: System, m: Move, atA: bool)
    requires Inv(s) && CloseIsNext(s, atA)
    requires m.atA == atA && m.act.SendClose? ==> Me(s, atA).ch.value.pending != []
    requires m.atA == atA && m.act.Deliver? ==> m.act.nextTarget > s.limit || m.act.nextTarget == 1
    ensures CloseIsNext(Step(s, m), atA) && Me(Step(s, m), atA).client == Me(s, atA).client
  {
    var me, peer := Me(s, m.atA), Me(s, !m.atA);
    assert Local(me);
    if m.atA == atA {
      StaysUnread(me, peer.log, s.limit, m.act);
    } else {
      assert me.log[peer.read].Close?;
      ClosedStays(me, peer.log, s.limit, m.act);
    }
  }

  lemma ClosesNow(s: System, atA: bool)
    requires Inv(s) && CloseIsNext(s, atA) && Me(s, atA).ch.value.pending == []
    ensures HasClosed(Me(Step(s, Move(atA, SendClose)), atA)) && Me(Step(s, Move(atA, SendClose)), atA).ch.None?
  {
    EmitTells(Me(s, atA), None, [Close]);
  }

  lemma {:induction false} ServerAnswersExactly(s: System, more: seq<Move>, atA: bool)
    requires Inv(s) && !Me(s, atA).client && CloseIsNext(s, atA)
    ensures AnswersWithin(s, more, atA) <==> ClosesFirst(s, more, atA)
    decreases |more|
  {
    if more == [] {
      assert Local(Me(s, atA));
    } else {
      var m := more[0];
      StepKeeps(s, m);
      if m.atA == atA && m.act.SendClose? && Me(s, atA).ch.value.pending == [] {
        assert m == Move(atA, SendClose);
        ClosesNow(s, atA);
        GoneForever(Step(s, m), more[1..], atA);
      } else if m.atA == atA && m.act.Deliver? && m.act.nextTarget <= s.limit && m.act.nextTarget != 1 {
        ServerDrops(s, atA, m.act.nextTarget, more[1..]);
        assert m == Move(atA, Deliver(m.act.nextTarget));
      } else {
        CloseStaysNext(s, m, atA);
        ServerAnswersExactly(Step(s, m), more[1..], atA);
      }
    }
  }

  /** A server never answers CLOSE: in every reachable state in which CLOSE is the
      next message of its open channel, a later run contains a CLOSE of its own
      exactly if its application closes, with no data waiting, before CLOSE is
      read; after that none does, whatever is asked of it. */
  lemma ServerNeverAnswers(s: System, moves: seq<Move>, atA: bool, next: u32, more: seq<Move>)
    requires Start(s)
    requires !Me(Reach(s, moves), atA).client && CloseIsNext(Reach(s, moves), atA)
    ensures var r := Reach(s, moves);
            && (AnswersWithin(r, more, atA) <==> ClosesFirst(r, more, atA))
            && (next <= r.limit && next != 1 ==> !AnswersWithin(Step(r, Move(atA, Deliver(next))), more, atA))
  {
    var r := Reach(s, moves);
    Reached(s, moves);
    ServerAnswersExactly(r, more, atA);
    if next <= r.limit && next != 1 {
      ServerDrops(r, atA, next, more);
    }
  }

  // ---------------------------------------------------------------------
  // EOF
  // ---------------------------------------------------------------------

  function Eofs(log: seq<Msg>): nat {
    if log == [] then 0 else (if log[0].Eof? then 1 else 0) + Eofs(log[1..])
  }

  lemma {:induction false} EofsConcat(a: seq<Msg>, b: seq<Msg>)
    ensures Eofs(a + b) == Eofs(a) + Eofs(b)
  {
    if a == [] {
      assert a + b == b;
    } else {
      EofsConcat(a[1..], b);
      assert (a + b)[1..] == a[1..] + b;
    }
  }

  lemma {:induction false} DataHasNoEof(out: seq<Msg>, max: nat)
    requires Acceptable(out, max)
    ensures Eofs(out) == 0
  {
    if out != [] {
      assert Acceptable(out[1..], max);
      DataHasNoEof(out[1..], max);
    }
  }

  /** The action sends EOF: asked for while no data waits, or deferred and read
      off a grant that admits every waiting byte, however often it was sent before. */
  ghost predicate SendsEof(me: Endpoint, peerLog: seq<Msg>, limit: u32, act: Act)
    requires SoundIfOpen(me.ch)
  {
    me.ch.Some? &&
    match act
    case SendEof => me.ch.value.confirmed && me.ch.value.pending == []
    case Deliver(next) =>
      && me.read < |peerLog| && next <= limit && next != 1 && peerLog[me.read].WindowAdjust?
      && me.ch.value.pendingEof && |Waiting(me.ch.value.pending)| <= Raise(me.ch.value.recipientWindow, peerLog[me.read].amount)
    case _ => false
  }

  lemma FlushSendsEof(c: ChannelParams)
    requires Sound(c.(recipientWindow := 0))
    ensures Eofs(FlushPending(c).out) == if c.pendingEof && |Waiting(c.pending)| <= c.recipientWindow then 1 else 0
  {
    FlushDrains(c);
    FlushKeepsOrder(c);
    var (d, data) := FlushChannel(c);
    DataHasNoEof(data, c.recipientMaxPacket);
    if d.pending == [] {
      DrainedFlush(c);
      EofsConcat(data, Farewells(d));
      FarewellEofs(d);
    }
  }

  lemma FarewellEofs(c: ChannelParams)
    ensures Eofs(Farewells(c)) == if c.pendingEof then 1 else 0
  {
    EofsConcat(if c.pendingEof then [Eof] else [], if c.pendingClose then [Close] else []);
  }

  /** What an action adds to the log. */
  lemma EofIsCounted(me: Endpoint, peerLog: seq<Msg>, limit: u32, act: Act)
    requires SoundIfOpen(me.ch)
    ensures Eofs(Perform(me, peerLog, limit, act).log)
            == Eofs(me.log) + (if SendsEof(me, peerLog, limit, act) then 1 else 0)
  {
    if me.ch.Some? {
      var c := me.ch.value;
      if act.Deliver? && me.read < |peerLog| {
        EofInReadingIsCounted(me, peerLog[me.read], act.nextTarget);
      } else if act.SubmitData? && c.confirmed && Short(act.buf, limit) {
        var out := Submit(c, act.tag, act.buf, act.rekeying).1;
        SubmitKeepsOrder(c, act.tag, act.buf, act.rekeying);
        DataHasNoEof(out, c.recipientMaxPacket);
        EofsConcat(me.log, out);
      } else if act.FinishRekey? {
        FlushIsIdle(c);
        EofsConcat(me.log, []);
      } else {
        EofsConcat(me.log, []);
        EofsConcat(me.log, [Eof]);
        EofsConcat(me.log, [Close]);
      }
    }
  }

  lemma EofInReadingIsCounted(me: Endpoint, m: Msg, next: u32)
    requires SoundIfOpen(me.ch) && me.ch.Some?
    ensures var c := me.ch.value;
            Eofs(Handle(me, m, next).log)
            == Eofs(me.log) + (if m.WindowAdjust? && c.pendingEof && |Waiting(c.pending)| <= Raise(c.recipientWindow, m.amount)
                               then 1 else 0)
  {
    var c := me.ch.value;
    match m {
      case WindowAdjust(amount) =>
        var e := c.(recipientWindow := Raise(c.recipientWindow, amount));
        FlushSendsEof(e);
        EofsConcat(me.log, FlushPending(e).out);
      case Data(_, bytes) =>
        var out := Received(c, |bytes|, me.target).1;
        assert out != [] ==> out[1..] == [];
        EofsConcat(me.log, out);
      case Close =>
        EofsConcat(me.log, []);
        EofsConcat(me.log, [Close]);
      case _ =>
    }
  }

  /** How many moves of a run send EOF from one side. */
  ghost function EofMoves(s: System, moves: seq<Move>, atA: bool): nat
    requires Inv(s)
    decreases |moves|
  {
    if moves == [] then 0 else
      StepKeeps(s, moves[0]);
      (if moves[0].atA == atA && SendsEof(Me(s, atA), Me(s, !atA).log, s.limit, moves[0].act) then 1 else 0)
      + EofMoves(Step(s, moves[0]), moves[1..], atA)
  }

  /** Over any run a side sends exactly as many EOFs as it makes such moves: so
      a second one goes out exactly when, after the first, one more grant that
      admits every waiting byte is read with EOF deferred at any time before,
      or EOF is asked for again. */
  lemma {:induction false} EofsAreCounted(s: System, moves: seq<Move>, atA: bool)
    requires Inv(s)
    ensures Eofs(Me(Run(s, moves), atA).log) == Eofs(Me(s, atA).log) + EofMoves(s, moves, atA)
    decreases |moves|
  {
    if moves != [] {
      var m := moves[0];
      if m.atA == atA {
        EofIsCounted(Me(s, atA), Me(s, !atA).log, s.limit, m.act);
      }
      StepKeeps(s, m);
      EofsAreCounted(Step(s, m), moves[1..], atA);
    }
  }

  /** No EOF is deferred here. */
  predicate NothingDeferred(me: Endpoint) {
    me.ch.Some? ==> !me.ch.value.pendingEof
  }

  lemma NothingGetsDeferred(me: Endpoint, peerLog: seq<Msg>, limit: u32, act: Act)
    requires SoundIfOpen(me.ch) && NothingDeferred(me) && !act.SendEof?
    ensures NothingDeferred(Perform(me, peerLog, limit, act)) && !SendsEof(me, peerLog, limit, act)
  {
    if me.ch.Some? {
      if act.FinishRekey? {
        FlushIsIdle(me.ch.value);
      } else if act.Deliver? && me.read < |peerLog| && peerLog[me.read].WindowAdjust? {
        AdjustKeepsOrder(me.ch.value, peerLog[me.read].amount);
      }
    }
  }

  /** An EOF that was not deferred is not repeated: with none deferred a side
      sends no EOF in any run in which it is not asked for. */
  lemma {:induction false} NotDeferredNotRepeated(s: System, moves: seq<Move>, atA: bool)
    requires Inv(s) && NothingDeferred(Me(s, atA))
    requires forall i :: 0 <= i < |moves| && moves[i].atA == atA ==> !moves[i].act.SendEof?
    ensures Eofs(Me(Run(s, moves), atA).log) == Eofs(Me(s, atA).log)
    decreases |moves|
  {
    if moves != [] {
      var m := moves[0];
      if m.atA == atA {
        NothingGetsDeferred(Me(s, atA), Me(s, !atA).log, s.limit, m.act);
        EofIsCounted(Me(s, atA), Me(s, !atA).log, s.limit, m.act);
      }
      assert forall i :: 0 <= i < |moves[1..]| ==> moves[1..][i] == moves[i + 1];
      StepKeeps(s, m);
      NotDeferredNotRepeated(Step(s, m), moves[1..], atA);
    }
  }

  /** EOF is asked for while data waits. */
  predicate DefersEof(me: Endpoint, act: Act) {
    act.SendEof? && me.ch.Some? && me.ch.value.confirmed && me.ch.value.pending != []
  }

  ghost predicate EverDefers(s: System, moves: seq<Move>, atA: bool)
    decreases |moves|
  {
    moves != [] &&
    ((moves[0].atA == atA && DefersEof(Me(s, atA), moves[0].act)) || EverDefers(Step(s, moves[0]), moves[1..], atA))
  }

  /** A channel that is gone stays gone, and one that is left keeps or takes up the flag. */
  predicate Flagged(before: Option<ChannelParams>, after: Option<ChannelParams>, deferred: bool) {
    after.Some? ==> before.Some? && (after.value.pendingEof <==> before.value.pendingEof || deferred)
  }

  lemma ReadingKeepsFlag(me: Endpoint, m: Msg, next: u32)
    requires SoundIfOpen(me.ch)
    ensures Flagged(me.ch, Handle(me, m, next).ch, false)
  {
    if me.ch.Some? && m.WindowAdjust? {
      AdjustKeepsOrder(me.ch.value, m.amount);
    }
  }

  lemma CallSetsFlag(me: Endpoint, peerLog: seq<Msg>, limit: u32, act: Act)
    requires SoundIfOpen(me.ch) && !act.Deliver?
    ensures Flagged(me.ch, Perform(me, peerLog, limit, act).ch, DefersEof(me, act))
  {
    if me.ch.Some? && act.FinishRekey? {
      FlushIsIdle(me.ch.value);
    }
  }

  lemma FlagFollows(me: Endpoint, peerLog: seq<Msg>, limit: u32, act: Act)
    requires SoundIfOpen(me.ch)
    ensures Flagged(me.ch, Perform(me, peerLog, limit, act).ch, DefersEof(me, act))
  {
    if !act.Deliver? {
      CallSetsFlag(me, peerLog, limit, act);
    } else if me.read < |peerLog| {
      ReadingKeepsFlag(me, peerLog[me.read], act.nextTarget);
    }
  }

  /** The flag behind all repeated EOFs is set exactly by an EOF that was asked
      for while data waited: one sent at once never is repeated. */
  lemma {:induction false} DeferredExactly(s: System, moves: seq<Move>, atA: bool)
    requires Inv(s)
    ensures Flagged(Me(s, atA).ch, Me(Run(s, moves), atA).ch, EverDefers(s, moves, atA))
    decreases |moves|
  {
    if moves != [] {
      var m := moves[0];
      if m.atA == atA {
        FlagFollows(Me(s, atA), Me(s, !atA).log, s.limit, m.act);
      }
      StepKeeps(s, m);
      DeferredExactly(Step(s, m), moves[1..], atA);
    }
  }

  // ---------------------------------------------------------------------
  // Runs that get there
  // ---------------------------------------------------------------------

  /** A client that opens a channel to a server, both aiming at a window of 2. */
  function Small(): System {
    System(
      Endpoint(true, true, Some(ChannelParams(0, 0, 2, 0, false, [], false, false)), 2, [], [], 0, [], []),
      Endpoint(false, false, Some(ChannelParams(0, 2, 2, 4, true, [], false, false)), 2, [OpenConfirmation(0, 2, 4)], [0], 0, [], []),
      2)
  }

  const OPENED := Move(true, Deliver(0))
  const GRANTED := Move(false, Deliver(0))

  /** The client has read the confirmation. */
  lemma SmallOpens()
    ensures Start(Small())
    ensures var r := Step(Small(), OPENED);
            && r.limit == 2 && r.a.ch == Some(ChannelParams(0, 2, 2, 4, true, [], false, false))
            && r.a.client && r.a.read == 1 && r.a.log == [] && r.a.target == 2 && r.b == Small().b
  {
  }

  lemma SmallPacket(two: seq<byte>)
    requires |two| == 2
    ensures Packets(None, two, 4) == [Data(None, two)]
  {
    assert two[..2] == two && two[2..] == [];
    assert Packets(None, two, 4) == [Data(None, two[..2])] + Packets(None, two[2..], 4);
  }

  /** The client has submitted some bytes, two of which fit. */
  lemma SmallSubmits(s: System, buf: seq<byte>)
    requires s.limit == 2 && |buf| in {3, 4} && s.a.log == []
    requires s.a.ch == Some(ChannelParams(0, 2, 2, 4, true, [], false, false))
    ensures var r := Step(s, Move(true, SubmitData(None, buf, false)));
            && r.limit == 2 && r.a.ch == Some(ChannelParams(0, 0, 2, 4, true, [Pending(buf, None, 2)], false, false))
            && r.a.log == [Data(None, buf[..2])] && r.a.read == s.a.read && r.a.client == s.a.client && r.b == s.b
  {
    var c := s.a.ch.value;
    SmallPacket(buf[..2]);
    assert c.pending + [Pending(buf, None, 2)] == [Pending(buf, None, 2)];
    assert Submit(c, None, buf, false).1 == [Data(None, buf[..2])];
  }

  lemma {:induction false} RunTwice(s: System, first: seq<Move>, more: seq<Move>)
    ensures Run(s, first + more) == Run(Run(s, first), more)
    decreases |first|
  {
    if first == [] {
      assert first + more == more;
    } else {
      RunTwice(Step(s, first[0]), first[1..], more);
      assert (first + more)[1..] == first[1..] + more;
    }
  }

  lemma RunTwo(s: System, m: Move, n: Move)
    ensures Run(s, [m, n]) == Step(Step(s, m), n)
  {
    assert [m, n][1..] == [n] && [n][1..] == [];
    assert Run(s, [m, n]) == Run(Step(s, m), [n]);
  }

  /** A run after which a client has data waiting and CLOSE before it. */
  lemma CloseMeetsWaitingData() returns (s: System, moves: seq<Move>)
    ensures Start(s)
    ensures var r := Reach(s, moves);
            && r.a.client && r.a.ch.Some? && r.a.ch.value.pending != []
            && InFlight(r, true) != [] && InFlight(r, true)[0].Close?
  {
    s := Small();
    var submit, close := Move(true, SubmitData(None, [0, 0, 0], false)), Move(false, SendClose);
    moves := [OPENED, submit, close];
    SmallOpens();
    var s1 := Step(s, OPENED);
    SmallSubmits(s1, [0, 0, 0]);
    var s3 := Step(Step(s1, submit), close);
    assert s3.b.log == [OpenConfirmation(0, 2, 4), Close];
    assert moves[1..] == [submit, close];
    RunTwo(s1, submit, close);
  }

  /** A run in which a client closes and its server, with nothing waiting, drops
      the channel over it and stays silent. */
  lemma ServerLeavesCloseUnanswered() returns (s: System, moves: seq<Move>)
    ensures Start(s) && moves == [OPENED, Move(true, SendClose), GRANTED]
    ensures var before := Reach(s, moves[..2]);
            !before.b.client && CloseIsNext(before, false) && before.b.ch.value.pending == []
    ensures var r := Reach(s, moves); r.b.ch.None? && HasClosed(r.a) && !HasClosed(r.b) && InFlight(r, false) == []
  {
    s := Small();
    var close := Move(true, SendClose);
    moves := [OPENED, close, GRANTED];
    SmallOpens();
    var s1 := Step(s, OPENED);
    var s2 := Step(s1, close);
    assert s2.a.log == [] + [Close] && s2.b == s.b;
    var s3 := Step(s2, GRANTED);
    assert moves[..2] == [OPENED, close];
    RunTwo(s, OPENED, close);
    assert moves[1..] == [close, GRANTED];
    RunTwo(s1, close, GRANTED);
    assert s3.b.ch.None? && s3.b.log == s.b.log && s3.a == s2.a;
    assert s3.a.log[0].Close?;
  }

  /** Two bytes wait, and EOF behind them. */
  function Deferring(buf: seq<byte>): ChannelParams {
    ChannelParams(0, 0, 2, 4, true, [Pending(buf, None, 2)], true, false)
  }

  lemma SmallDefers(s: System, buf: seq<byte>)
    requires |buf| == 4 && s.a.ch == Some(Deferring(buf).(pendingEof := false))
    ensures var r := Step(s, Move(true, SendEof));
            r.a == s.a.(ch := Some(Deferring(buf))) && r.b == s.b && r.limit == s.limit
  {
    assert s.a.log + [] == s.a.log && s.a.stamps + [] == s.a.stamps;
  }

  lemma SmallFlushes(c: ChannelParams, buf: seq<byte>)
    requires |buf| == 4 && c == Deferring(buf).(recipientWindow := 2)
    ensures FlushPending(c) == Outcome(Some(c.(recipientWindow := 0, pending := [])), [Data(None, buf[2..]), Eof])
  {
    var d := c.(recipientWindow := 0, pending := []);
    assert buf[2..2 + 2] == buf[2..];
    SmallPacket(buf[2..]);
    assert c.pending[1..] == [] && [] + c.pending[1..] == [];
    assert SendHead(c) == (d, [Data(None, buf[2..])]);
    assert FlushChannel(d) == (d, []);
    assert [Data(None, buf[2..])] + [] == [Data(None, buf[2..])];
    assert FlushChannel(c) == (d, [Data(None, buf[2..])]);
    assert Farewells(d) == [Eof] + [] == [Eof];
    assert [Data(None, buf[2..])] + [Eof] == [Data(None, buf[2..]), Eof];
  }

  /** The server reads two bytes and grants two more. */
  lemma SmallGrants(s: System)
    requires s.limit == 2 && s.b.target == 2 && s.b.read < |s.a.log|
    requires s.a.log[s.b.read].Data? && |s.a.log[s.b.read].bytes| == 2
    requires s.b.ch == Some(ChannelParams(0, 2, 2, 4, true, [], false, false)) && !s.b.client
    ensures var r := Step(s, GRANTED);
            && r.a == s.a && r.limit == 2 && r.b.ch == s.b.ch && r.b.target == 2 && !r.b.client
            && r.b.read == s.b.read + 1 && r.b.log == s.b.log + [WindowAdjust(2)]
  {
  }

  lemma SmallDrains(s: System, buf: seq<byte>)
    requires s.limit == 2 && |buf| == 4 && s.a.ch == Some(Deferring(buf))
    requires s.a.read < |s.b.log| && s.b.log[s.a.read] == WindowAdjust(2)
    ensures var r := Step(s, OPENED);
            && r.a.ch == Some(Deferring(buf).(pending := [])) && r.a.log == s.a.log + [Data(None, buf[2..]), Eof]
            && r.a.read == s.a.read + 1 && r.b == s.b && r.limit == s.limit
  {
    SmallFlushes(Deferring(buf).(recipientWindow := 2), buf);
  }

  lemma SmallRepeats(s: System, buf: seq<byte>)
    requires s.limit == 2 && s.a.ch == Some(Deferring(buf).(pending := []))
    requires s.a.read < |s.b.log| && s.b.log[s.a.read] == WindowAdjust(2)
    ensures Step(s, OPENED).a.log == s.a.log + [Eof]
  {
    assert WindowAdjusted(s.a.ch.value, 2).out == [] + ([Eof] + []) == [Eof];
  }

  /** Two bytes are out, two wait, and EOF is deferred behind them. */
  predicate EofWaits(r: System, buf: seq<byte>) {
    && |buf| == 4 && r.limit == 2 && r.a.ch == Some(Deferring(buf)) && r.a.log == [Data(None, buf[..2])] && r.a.read == 1
    && r.b == Small().b
  }

  lemma EofIsDeferred(buf: seq<byte>) returns (moves: seq<Move>)
    requires |buf| == 4
    ensures Start(Small()) && moves == [OPENED, Move(true, SubmitData(None, buf, false)), Move(true, SendEof)]
    ensures EofWaits(Reach(Small(), moves), buf)
  {
    var submit, eof := Move(true, SubmitData(None, buf, false)), Move(true, SendEof);
    moves := [OPENED, submit, eof];
    SmallOpens();
    var s1 := Step(Small(), OPENED);
    SmallSubmits(s1, buf);
    SmallDefers(Step(s1, submit), buf);
    RunTwo(s1, submit, eof);
    assert moves[1..] == [submit, eof];
  }

  /** The first grant lets the waiting bytes and EOF out. */
  lemma FirstEof(s: System, buf: seq<byte>)
    requires EofWaits(s, buf)
    ensures var r := Run(s, [GRANTED, OPENED]);
            && r.limit == 2 && r.a.ch == Some(Deferring(buf).(pending := []))
            && r.a.log == [Data(None, buf[..2])] + [Data(None, buf[2..]), Eof] && r.a.read == 2
            && r.b.ch == Small().b.ch && r.b.target == 2 && !r.b.client && r.b.read == 1 && |r.b.log| == 2
  {
    RunTwo(s, GRANTED, OPENED);
    SmallGrants(s);
    SmallDrains(Step(s, GRANTED), buf);
  }

  /** The second grant lets EOF out again. */
  lemma SecondEof(s: System, buf: seq<byte>)
    requires |buf| == 4 && s.limit == 2 && s.a.ch == Some(Deferring(buf).(pending := [])) && s.a.read == 2
    requires s.a.log == [Data(None, buf[..2])] + [Data(None, buf[2..]), Eof]
    requires s.b.ch == Small().b.ch && s.b.target == 2 && !s.b.client && s.b.read == 1 && |s.b.log| == 2
    ensures Run(s, [GRANTED, OPENED]).a.log == s.a.log + [Eof]
  {
    RunTwo(s, GRANTED, OPENED);
    SmallGrants(s);
    SmallRepeats(Step(s, GRANTED), buf);
  }

  /** A run in which EOF is asked for once and sent twice. */
  lemma EofGoesOutTwice() returns (s: System, moves: seq<Move>)
    ensures Start(s) && |moves| == 7 && (forall i :: 0 <= i < 7 ==> (moves[i].act.SendEof? <==> i == 2))
    ensures Eofs(Reach(s, moves).a.log) == 2
  {
    s := Small();
    var buf: seq<byte> := [0, 0, 0, 0];
    var first := EofIsDeferred(buf);
    var more := [GRANTED, OPENED];
    moves := first + more + more;
    var r := Reach(s, first);
    FirstEof(r, buf);
    SecondEof(Run(r, more), buf);
    RunTwice(s, first, more);
    RunTwice(s, first + more, more);
    TwoEofs(Data(None, buf[..2]), Data(None, buf[2..]), Reach(s, moves).a.log);
  }

  lemma TwoEofs(first: Msg, second: Msg, log: seq<Msg>)
    requires first.Data? && second.Data? && log == [first] + [second, Eof] + [Eof]
    ensures Eofs(log) == 2
  {
    EofsConcat([first] + [second, Eof], [Eof]);
    EofsConcat([first], [second, Eof]);
    assert [first][1..] == [] && [second, Eof][1..] == [Eof] && [Eof][1..] == [];
  }
}
