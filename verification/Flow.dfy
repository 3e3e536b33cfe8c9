/** Two endpoints of one channel joined by two FIFO wires. What an endpoint has
    sent is its `log`; the wire to it is the part of its peer's log beyond
    `read`. A run is any sequence of application calls and deliveries. */
module Flow {
  import opened Wire
  import opened Channel

  datatype Endpoint = Endpoint(
    client: bool,           // which side's handlers run here
    opener: bool,           // sent CHANNEL_OPEN and waits for the confirmation
    ch: Option<ChannelParams>,
    target: u32,            // the window this endpoint aims at as a receiver
    log: seq<Msg>,          // every message queued for the peer
    stamps: seq<nat>,       // bytes submitted here when each of them was queued
    read: nat,              // messages taken from the peer's log
    submitted: seq<Tagged>, // bytes the application handed over
    delivered: seq<Tagged>  // bytes handed to the application
  )

  datatype System = System(a: Endpoint, b: Endpoint, limit: u32)

  datatype Act =
    | SubmitData(tag: Tag, buf: seq<byte>, rekeying: bool)
    | SendEof
    | SendClose
    | FinishRekey              // flushes every queue and drops the results
    | Deliver(nextTarget: u32) // what the handler's adjust_window answers

  // ---------------------------------------------------------------------
  // Steps
  // ---------------------------------------------------------------------

  function Repeat(value: nat, times: nat): (r: seq<nat>)
    ensures |r| == times && forall i :: 0 <= i < times ==> r[i] == value
  {
    if times == 0 then [] else [value] + Repeat(value, times - 1)
  }

  function Emit(me: Endpoint, ch: Option<ChannelParams>, out: seq<Msg>): Endpoint {
    me.(ch := ch, log := me.log + out, stamps := me.stamps + Repeat(|me.submitted|, |out|))
  }

  /** Buffers are short enough that offsets plus window stay below 2^32. */
  predicate Short(buf: seq<byte>, limit: u32) {
    |buf| + limit < U32_BOUND
  }

  ghost predicate AllShort(c: ChannelParams, limit: u32) {
    Bounded(c.pending, U32_BOUND - 1 - limit)
  }

  /** The message handlers of `client_read_authenticated` and `server_read_authenticated`.
      Data is handed to the application even if the channel is gone. */
  ghost function Handle(me: Endpoint, m: Msg, nextTarget: u32): Endpoint
    requires SoundIfOpen(me.ch)
  {
    var next := me.(read := me.read + 1);
    if me.ch.None? then next.(delivered := me.delivered + Bytes(m)) else
      var c := me.ch.value;
      match m
      case OpenConfirmation(sender, window, maxPacket) =>
        next.(ch := Some(Confirm(c, sender, window, maxPacket)))
      case Data(tag, bytes) =>
        var (d, out) := Received(c, |bytes|, me.target);
        var target := if out != [] && nextTarget > 0 && !me.client then nextTarget else me.target;
        Emit(next, Some(d), out).(delivered := me.delivered + TagAll(tag, bytes), target := target)
      case WindowAdjust(amount) =>
        var r := WindowAdjusted(c, amount);
        Emit(next, r.ch, r.out)
      case Eof => next
      case Close =>
        if me.client then var r := CloseChannel(c); Emit(next, r.ch, r.out) else next.(ch := None)
  }

  /** One action of `me` against what its peer has sent so far; an action that
      the source does not allow in this state changes nothing. */
  ghost function Perform(me: Endpoint, peerLog: seq<Msg>, limit: u32, act: Act): Endpoint
    requires SoundIfOpen(me.ch)
  {
    if act.Deliver? then
      if me.read < |peerLog| && act.nextTarget <= limit && act.nextTarget != 1 then
        Handle(me, peerLog[me.read], act.nextTarget)
      else me
    else if me.ch.None? || !me.ch.value.confirmed then me
    else
      var c := me.ch.value;
      match act
      case SubmitData(tag, buf, rekeying) =>
        if !Short(buf, limit) then me else
          var (d, out) := Submit(c, tag, buf, rekeying);
          Emit(me.(submitted := me.submitted + TagAll(tag, buf)), Some(d), out)
      case SendEof => var r := EofChannel(c); Emit(me, r.ch, r.out)
      case SendClose => var r := CloseChannel(c); Emit(me, r.ch, r.out)
      case FinishRekey => var (d, out) := FlushChannel(c); Emit(me, Some(d), out)
  }

  // ---------------------------------------------------------------------
  // Invariant
  // ---------------------------------------------------------------------

  /** Message `i`, if it is an EOF or a CLOSE, was queued only when every byte
      submitted by then had been; nothing is submitted after CLOSE. */
  ghost predicate StampedAt(log: seq<Msg>, stamps: seq<nat>, submitted: seq<Tagged>, i: nat)
    requires i < |stamps| == |log|
  {
    && (IsFarewell(log[i]) ==> stamps[i] <= |submitted| && Stream(log[..i]) == submitted[..stamps[i]])
    && (log[i].Close? ==> stamps[i] == |submitted|)
  }

  ghost predicate Stamped(log: seq<Msg>, stamps: seq<nat>, submitted: seq<Tagged>)
    requires |stamps| == |log|
  {
    forall i :: 0 <= i < |log| ==> StampedAt(log, stamps, submitted, i)
  }

  /** What holds of one endpoint alone. */
  ghost predicate Local(me: Endpoint) {
    && SoundIfOpen(me.ch)
    && 2 <= me.target
    && |me.stamps| == |me.log|
    && Stream(me.log) <= me.submitted
    && (me.ch.Some? ==> Stream(me.log) + Waiting(me.ch.value.pending) == me.submitted)
    && (forall i :: 0 <= i < |me.log| && me.log[i].Close? ==> me.ch.None? && i == |me.log| - 1)
    && Stamped(me.log, me.stamps, me.submitted)
    && (forall i :: 0 <= i < |me.log| && me.log[i].OpenConfirmation? ==> i == 0 && !me.opener)
  }

  /** An unconfirmed channel has read nothing, and the first thing it will
      read is the one confirmation. */
  ghost predicate Opened(me: Endpoint, peer: Endpoint) {
    && me.opener != peer.opener
    && (me.opener ==> |peer.log| > 0 && peer.log[0].OpenConfirmation? && peer.log[0].maxPacket > 0)
    && (me.ch.Some? ==>
          && (me.ch.value.confirmed <==> !me.opener || me.read > 0)
          && (!me.ch.value.confirmed ==> me.ch.value.recipientWindow == 0))
  }

  /** A channel that outlived its peer's CLOSE has data queued and its own CLOSE deferred. */
  ghost predicate HeardClose(heard: seq<Msg>, c: ChannelParams) {
    (exists i :: 0 <= i < |heard| && heard[i].Close?) ==> c.pending != [] && c.pendingClose
  }

  /** Credit and delivery from `snd` to `rcv`. */
  ghost predicate Credit(snd: Endpoint, rcv: Endpoint, limit: u32)
    requires rcv.read <= |snd.log| && snd.read <= |rcv.log|
  {
    rcv.ch.Some? ==>
      && 1 <= rcv.ch.value.senderWindow <= limit
      && (rcv.client ==> rcv.target / 2 <= rcv.ch.value.senderWindow)
      && rcv.target <= limit
      && HeardClose(snd.log[..rcv.read], rcv.ch.value)
      && |Stream(snd.log[rcv.read..])| <= rcv.ch.value.senderWindow
      && (snd.ch.Some? ==>
            snd.ch.value.recipientWindow + |Stream(snd.log[rcv.read..])| + Grants(rcv.log[snd.read..])
            == rcv.ch.value.senderWindow)
  }

  ghost predicate Directed(snd: Endpoint, rcv: Endpoint, limit: u32) {
    && rcv.read <= |snd.log| && snd.read <= |rcv.log|
    && rcv.delivered == Stream(snd.log[..rcv.read])
    && Credit(snd, rcv, limit)
    && (snd.ch.Some? ==>
          && AllShort(snd.ch.value, limit)
          && snd.ch.value.recipientWindow + Grants(rcv.log[snd.read..]) <= limit)
  }

  ghost predicate Pair(me: Endpoint, peer: Endpoint, limit: u32) {
    && Local(me) && Local(peer)
    && Opened(me, peer) && Opened(peer, me)
    && Directed(me, peer, limit) && Directed(peer, me, limit)
  }

  ghost predicate Inv(s: System) {
    Pair(s.a, s.b, s.limit)
  }

  /** The channel just opened: the opener waits, the acceptor has confirmed. */
  predicate Initial(s: System) {
    && s.a.target <= s.limit && s.b.target <= s.limit
    && s.a.opener && !s.b.opener
    && s.a.read == s.b.read == 0
    && s.a.submitted == s.b.submitted == s.a.delivered == s.b.delivered == []
    && s.a.ch.Some? && s.a.ch.value.recipientWindow == 0 && !s.a.ch.value.confirmed
    && s.b.ch.Some? && s.b.ch.value.recipientWindow == s.a.target && s.b.ch.value.confirmed
    && s.b.ch.value.recipientMaxPacket > 0
    && Idle(s.a.ch.value) && s.a.ch.value.senderWindow == s.a.target
    && Idle(s.b.ch.value) && s.b.ch.value.senderWindow == s.b.target
    && s.a.log == [] && s.a.stamps == []
    && |s.b.log| == 1 && s.b.stamps == [0]
    && s.b.log[0].OpenConfirmation? && s.b.log[0].window == s.b.target && s.b.log[0].maxPacket > 0
  }

  predicate Idle(c: ChannelParams) {
    c.pending == [] && !c.pendingEof && !c.pendingClose
  }

  lemma InitialHolds(s: System)
    requires Initial(s) && s.a.target >= 2 && s.b.target >= 2
    ensures Inv(s)
  {
    assert s.b.log[0..] == s.b.log == [s.b.log[0]];
    assert s.b.log[1..] == [];
    assert s.b.log[..0] == [];
    assert Stream(s.b.log) == [] + Stream(s.b.log[1..]);
    assert Grants(s.b.log) == s.b.target;
  }

  // ---------------------------------------------------------------------
  // Every step keeps the invariant: the acting endpoint
  // ---------------------------------------------------------------------

  lemma LogSlices(log: seq<Msg>, out: seq<Msg>, k: nat)
    requires k <= |log|
    ensures (log + out)[..k] == log[..k]
    ensures (log + out)[k..] == log[k..] + out
    ensures Stream((log + out)[k..]) == Stream(log[k..]) + Stream(out)
    ensures Grants((log + out)[k..]) == Grants(log[k..]) + Grants(out)
  {
    assert (log + out)[k..] == log[k..] + out;
    StreamConcat(log[k..], out);
  }

  lemma TakeOne(log: seq<Msg>, k: nat)
    requires k < |log|
    ensures Stream(log[..k + 1]) == Stream(log[..k]) + Bytes(log[k])
    ensures Stream(log[k..]) == Bytes(log[k]) + Stream(log[k + 1..])
    ensures Grants(log[k..]) == Grant(log[k]) + Grants(log[k + 1..])
  {
    assert log[..k + 1] == log[..k] + [log[k]];
    StreamConcat(log[..k], [log[k]]);
    assert [log[k]][1..] == [];
    assert Stream([log[k]]) == Bytes(log[k]);
    assert log[k..][1..] == log[k + 1..];
  }

  lemma AllOf<T>(s: seq<T>)
    ensures s[..|s|] == s
  {
  }

  lemma NothingAdded(s: seq<Tagged>)
    ensures s + [] == s && [] + s == s
  {
  }

  lemma PrefixOfConcat(log: seq<Msg>, out: seq<Msg>, k: nat)
    requires k <= |out|
    ensures (log + out)[..|log| + k] == log + out[..k]
  {
  }

  lemma OldStamp(log: seq<Msg>, stamps: seq<nat>, submitted: seq<Tagged>, out: seq<Msg>, more: seq<nat>, now: seq<Tagged>, i: nat)
    requires i < |stamps| == |log| && StampedAt(log, stamps, submitted, i) && |more| == |out| && submitted <= now && !log[i].Close?
    ensures StampedAt(log + out, stamps + more, now, i)
  {
    assert (log + out)[..i] == log[..i];
    if IsFarewell(log[i]) {
      assert now[..stamps[i]] == submitted[..stamps[i]];
    }
  }

  lemma NewStamp(log: seq<Msg>, stamps: seq<nat>, ch: Option<ChannelParams>, out: seq<Msg>, more: seq<nat>, now: seq<Tagged>, i: nat)
    requires |stamps| == |log| && |more| == |out| && |log| <= i < |log| + |out| && more[i - |log|] == |now|
    requires SoundIfOpen(ch) && Tidy(ch, out) && Stream(log) + Stream(out) + WaitingIn(ch) == now
    ensures StampedAt(log + out, stamps + more, now, i)
  {
    var k: nat := i - |log|;
    if IsFarewell(out[k]) {
      PrefixOfConcat(log, out, k);
      StreamConcat(log, out[..k]);
      NothingAdded(Stream(log) + Stream(out));
      assert now[..|now|] == now;
    }
  }

  lemma StampsKept(log: seq<Msg>, stamps: seq<nat>, submitted: seq<Tagged>, ch: Option<ChannelParams>, out: seq<Msg>, now: seq<Tagged>)
    requires |stamps| == |log| && Stamped(log, stamps, submitted) && submitted <= now
    requires forall i :: 0 <= i < |log| ==> !log[i].Close?
    requires SoundIfOpen(ch) && Tidy(ch, out) && Stream(log) + Stream(out) + WaitingIn(ch) == now
    ensures Stamped(log + out, stamps + Repeat(|now|, |out|), now)
  {
    var more := Repeat(|now|, |out|);
    forall i | 0 <= i < |log + out|
      ensures StampedAt(log + out, stamps + more, now, i)
    {
      if i < |log| {
        assert StampedAt(log, stamps, submitted, i) && !log[i].Close?;
        OldStamp(log, stamps, submitted, out, more, now, i);
      } else {
        assert more[i - |log|] == |now|;
        NewStamp(log, stamps, ch, out, more, now, i);
      }
    }
  }

  /** Sending tidily keeps what holds of one endpoint. `extra` is what the
      application has just submitted. */
  lemma EmitKeepsLocal(me: Endpoint, ch: Option<ChannelParams>, out: seq<Msg>, extra: seq<Tagged>)
    requires Local(me) && me.ch.Some? && SoundIfOpen(ch) && Tidy(ch, out)
    requires Stream(out) + WaitingIn(ch) == Waiting(me.ch.value.pending) + extra
    ensures Local(Emit(me.(submitted := me.submitted + extra), ch, out))
  {
    var you := Emit(me.(submitted := me.submitted + extra), ch, out);
    StreamConcat(me.log, out);
    Balance(Stream(me.log), Waiting(me.ch.value.pending), me.submitted, Stream(out), WaitingIn(ch), extra);
    StampsKept(me.log, me.stamps, me.submitted, ch, out, you.submitted);
  }

  lemma SilenceKeepsLocal(me: Endpoint, ch: Option<ChannelParams>, out: seq<Msg>)
    requires Local(me) && me.ch.Some? && SoundIfOpen(ch) && Tidy(ch, out)
    requires Stream(out) + WaitingIn(ch) == Waiting(me.ch.value.pending)
    ensures Local(Emit(me, ch, out))
  {
    NothingAdded(Waiting(me.ch.value.pending));
    NothingAdded(me.submitted);
    EmitKeepsLocal(me, ch, out, []);
  }

  lemma ReadingKeepsLocal(me: Endpoint, read: nat, delivered: seq<Tagged>, target: u32)
    requires Local(me) && target >= 2
    ensures Local(me.(read := read, delivered := delivered, target := target))
  {
  }

  /** The acting endpoint as sender: what it sends, it pays for with its window
      and with the grants it has just read. */
  lemma SendingKept(me: Endpoint, you: Endpoint, peer: Endpoint, limit: u32, out: seq<Msg>)
    requires Directed(me, peer, limit) && me.ch.Some?
    requires you.log == me.log + out && me.read <= you.read <= |peer.log|
    requires peer.ch.Some? ==>
             var g := Grants(peer.log[me.read..]) - Grants(peer.log[you.read..]);
             && 0 <= g
             && (you.ch.Some? ==> you.ch.value.recipientWindow + |Stream(out)| == me.ch.value.recipientWindow + g)
             && (you.ch.None? ==> |Stream(out)| <= me.ch.value.recipientWindow + g)
    requires you.ch.Some? ==>
               && AllShort(you.ch.value, limit)
               && you.ch.value.recipientWindow + Grants(peer.log[you.read..])
                  <= me.ch.value.recipientWindow + Grants(peer.log[me.read..])
    ensures Directed(you, peer, limit)
  {
    LogSlices(me.log, out, peer.read);
  }

  /** The acting endpoint as receiver: reading takes from its window, granting adds to it. */
  lemma ReceivingKept(peer: Endpoint, me: Endpoint, you: Endpoint, limit: u32, out: seq<Msg>)
    requires Directed(peer, me, limit) && me.ch.Some?
    requires you.log == me.log + out && me.read <= you.read <= |peer.log|
    requires var taken := |Stream(peer.log[me.read..])| - |Stream(peer.log[you.read..])|;
             you.ch.Some? ==>
               && 1 <= you.ch.value.senderWindow <= limit && you.target <= limit
               && (you.client ==> you.target / 2 <= you.ch.value.senderWindow)
               && you.ch.value.senderWindow == me.ch.value.senderWindow - taken + Grants(out)
               && HeardClose(peer.log[..you.read], you.ch.value)
    requires you.delivered == Stream(peer.log[..you.read]) && (you.ch.None? ==> Grants(out) == 0)
    ensures Directed(peer, you, limit)
  {
    LogSlices(me.log, out, peer.read);
  }

  /** An action that reads nothing. */
  lemma EmitKeepsPair(me: Endpoint, peer: Endpoint, limit: u32, d: Option<ChannelParams>, out: seq<Msg>, extra: seq<Tagged>)
    requires Pair(me, peer, limit) && me.ch.Some? && SoundIfOpen(d) && Tidy(d, out)
    requires Stream(out) + WaitingIn(d) == Waiting(me.ch.value.pending) + extra
    requires Grants(out) == 0
    requires d.Some? ==>
               && d.value.recipientWindow + |Stream(out)| == me.ch.value.recipientWindow
               && d.value.senderWindow == me.ch.value.senderWindow
               && d.value.confirmed == me.ch.value.confirmed
               && (me.ch.value.pending != [] ==> d.value.pending != [])
               && (me.ch.value.pendingClose ==> d.value.pendingClose)
               && AllShort(d.value, limit)
    requires d.None? ==> |Stream(out)| <= me.ch.value.recipientWindow
    ensures Pair(Emit(me.(submitted := me.submitted + extra), d, out), peer, limit)
  {
    var you := Emit(me.(submitted := me.submitted + extra), d, out);
    EmitKeepsLocal(me, d, out, extra);
    SendingKept(me, you, peer, limit, out);
    ReceivingKept(peer, me, you, limit, out);
  }

  /** An action that neither reads nor submits. */
  lemma SilenceKeepsPair(me: Endpoint, peer: Endpoint, limit: u32, d: Option<ChannelParams>, out: seq<Msg>)
    requires Pair(me, peer, limit) && me.ch.Some? && SoundIfOpen(d) && Tidy(d, out)
    requires Stream(out) == [] && Grants(out) == 0
    requires d.Some? ==>
               && d.value.(pendingEof := false, pendingClose := false) == me.ch.value.(pendingEof := false, pendingClose := false)
               && (me.ch.value.pendingClose ==> d.value.pendingClose)
    requires d.None? ==> me.ch.value.pending == []
    ensures Pair(Emit(me, d, out), peer, limit)
  {
    NothingAdded(Waiting(me.ch.value.pending));
    NothingAdded(me.submitted);
    EmitKeepsPair(me, peer, limit, d, out, []);
  }

  // ---------------------------------------------------------------------
  // Every action keeps the invariant
  // ---------------------------------------------------------------------

  /** What a submission sends and leaves waiting is what `EmitKeepsPair` asks for. */
  lemma SubmitIsTidy(c: ChannelParams, limit: u32, tag: Tag, buf: seq<byte>, rekeying: bool)
    requires Sound(c) && c.confirmed && AllShort(c, limit) && Short(buf, limit)
    ensures var (d, out) := Submit(c, tag, buf, rekeying);
            && Sound(d) && Tidy(Some(d), out) && Grants(out) == 0 && AllShort(d, limit)
            && Stream(out) + Waiting(d.pending) == Waiting(c.pending) + TagAll(tag, buf)
            && d.recipientWindow + |Stream(out)| == c.recipientWindow
            && d.senderWindow == c.senderWindow && d.confirmed == c.confirmed
            && (c.pending != [] ==> d.pending != [])
            && (c.pendingClose ==> d.pendingClose)
  {
    var (d, out) := Submit(c, tag, buf, rekeying);
    SubmitKeepsOrder(c, tag, buf, rekeying);
    SubmitKeepsQueue(c, tag, buf, rekeying, U32_BOUND - 1 - limit);
    DataIsTidy(d, out, c.recipientMaxPacket);
  }

  lemma SubmitKeepsPair(me: Endpoint, peer: Endpoint, limit: u32, tag: Tag, buf: seq<byte>, rekeying: bool)
    requires Pair(me, peer, limit) && me.ch.Some? && me.ch.value.confirmed && Short(buf, limit)
    ensures var (d, out) := Submit(me.ch.value, tag, buf, rekeying);
            Pair(Emit(me.(submitted := me.submitted + TagAll(tag, buf)), Some(d), out), peer, limit)
  {
    var (d, out) := Submit(me.ch.value, tag, buf, rekeying);
    SubmitIsTidy(me.ch.value, limit, tag, buf, rekeying);
    EmitKeepsPair(me, peer, limit, Some(d), out, TagAll(tag, buf));
  }

  lemma OneFarewell(m: Msg, ch: Option<ChannelParams>)
    requires IsFarewell(m) && SoundIfOpen(ch) && WaitingIn(ch) == [] && (m.Close? ==> ch.None?)
    ensures Stream([m]) == [] && Grants([m]) == 0 && Tidy(ch, [m])
  {
    assert [m][1..] == [] && [m][..0] == [];
  }

  lemma EofKeepsPair(me: Endpoint, peer: Endpoint, limit: u32)
    requires Pair(me, peer, limit) && me.ch.Some?
    ensures Pair(Emit(me, EofChannel(me.ch.value).ch, EofChannel(me.ch.value).out), peer, limit)
  {
    var c := me.ch.value;
    if c.pending != [] {
      SilenceKeepsPair(me, peer, limit, Some(c.(pendingEof := true)), []);
    } else {
      OneFarewell(Eof, Some(c));
      SilenceKeepsPair(me, peer, limit, Some(c), [Eof]);
    }
  }

  lemma CloseKeepsPair(me: Endpoint, peer: Endpoint, limit: u32)
    requires Pair(me, peer, limit) && me.ch.Some?
    ensures Pair(Emit(me, CloseChannel(me.ch.value).ch, CloseChannel(me.ch.value).out), peer, limit)
  {
    var c := me.ch.value;
    if c.pending != [] {
      SilenceKeepsPair(me, peer, limit, Some(c.(pendingClose := true)), []);
    } else {
      OneFarewell(Close, None);
      SilenceKeepsPair(me, peer, limit, None, [Close]);
    }
  }

  /** The flush at the end of a rekey changes nothing at all. */
  lemma FinishRekeyIsIdle(me: Endpoint, peer: Endpoint, limit: u32)
    requires Local(me)
    ensures Perform(me, peer.log, limit, FinishRekey) == me
  {
    if me.ch.Some? && me.ch.value.confirmed {
      FlushIsIdle(me.ch.value);
      assert me.log + [] == me.log && me.stamps + [] == me.stamps;
    }
  }

  /** `me` is about to read `m`. */
  ghost predicate CanRead(me: Endpoint, peer: Endpoint, limit: u32, m: Msg) {
    Pair(me, peer, limit) && me.read < |peer.log| && m == peer.log[me.read]
  }

  /** Nothing is read after CLOSE. */
  lemma ReadingOn(me: Endpoint, peer: Endpoint, limit: u32, m: Msg, c: ChannelParams)
    requires CanRead(me, peer, limit, m)
    requires m.Close? ==> c.pending != [] && c.pendingClose
    ensures HeardClose(peer.log[..me.read + 1], c)
    ensures Stream(peer.log[..me.read + 1]) == Stream(peer.log[..me.read]) + Bytes(m)
    ensures Stream(peer.log[me.read..]) == Bytes(m) + Stream(peer.log[me.read + 1..])
    ensures Grants(peer.log[me.read..]) == Grant(m) + Grants(peer.log[me.read + 1..])
  {
    TakeOne(peer.log, me.read);
  }

  /** The acting endpoint as receiver of one message `m`, which leaves `d` and sends `out`. */
  lemma ReadingKept(peer: Endpoint, me: Endpoint, limit: u32, m: Msg, d: Option<ChannelParams>, out: seq<Msg>, target: u32)
    requires CanRead(me, peer, limit, m) && me.ch.Some? && target <= limit
    requires d.Some? ==>
               && 1 <= d.value.senderWindow <= limit && (me.client ==> target / 2 <= d.value.senderWindow)
               && d.value.senderWindow == me.ch.value.senderWindow - |Bytes(m)| + Grants(out)
               && (m.Close? ==> d.value.pending != [] && d.value.pendingClose)
    requires d.None? ==> Grants(out) == 0
    ensures Directed(peer, Emit(me.(read := me.read + 1), d, out).(delivered := me.delivered + Bytes(m), target := target), limit)
  {
    var you := Emit(me.(read := me.read + 1), d, out).(delivered := me.delivered + Bytes(m), target := target);
    TakeOne(peer.log, me.read);
    if d.Some? {
      NotHeardYet(me, peer, limit, m, d.value);
    }
    assert you.read == me.read + 1 && you.log == me.log + out && you.client == me.client;
    assert you.delivered == Stream(peer.log[..you.read]);
    assert |Stream(peer.log[me.read..])| - |Stream(peer.log[you.read..])| == |Bytes(m)|;
    ReceivingKept(peer, me, you, limit, out);
  }

  lemma NotHeardYet(me: Endpoint, peer: Endpoint, limit: u32, m: Msg, c: ChannelParams)
    requires CanRead(me, peer, limit, m) && (m.Close? ==> c.pending != [] && c.pendingClose)
    ensures HeardClose(peer.log[..me.read + 1], c)
  {
  }

  lemma ReadWhenClosed(me: Endpoint, peer: Endpoint, limit: u32, m: Msg, next: u32)
    requires CanRead(me, peer, limit, m) && me.ch.None?
    ensures Pair(Handle(me, m, next), peer, limit)
  {
    TakeOne(peer.log, me.read);
    ReadingKeepsLocal(me, me.read + 1, me.delivered + Bytes(m), me.target);
  }

  /** Reading on and doing nothing about it, as for EOF. */
  lemma ReadEof(me: Endpoint, peer: Endpoint, limit: u32, next: u32)
    requires CanRead(me, peer, limit, Eof) && me.ch.Some?
    ensures Pair(Handle(me, Eof, next), peer, limit)
  {
    SkipKeepsPair(me, peer, limit, Eof);
    assert Handle(me, Eof, next) == me.(read := me.read + 1);
  }

  lemma SkipKeepsPair(me: Endpoint, peer: Endpoint, limit: u32, m: Msg)
    requires CanRead(me, peer, limit, m) && me.ch.Some? && m.Eof?
    ensures Pair(me.(read := me.read + 1), peer, limit)
  {
    var you := me.(read := me.read + 1);
    TakeOne(peer.log, me.read);
    NothingAdded(Stream(peer.log[..me.read]));
    NoMore(me.log);
    ReadingKeepsLocal(me, you.read, me.delivered, me.target);
    NotHeardYet(me, peer, limit, m, me.ch.value);
    SendingKept(me, you, peer, limit, []);
    ReceivingKept(peer, me, you, limit, []);
  }

  lemma NoMore(log: seq<Msg>)
    ensures log + [] == log
  {
  }

  lemma ReadConfirmation(me: Endpoint, peer: Endpoint, limit: u32, m: Msg, next: u32)
    requires CanRead(me, peer, limit, m) && m.OpenConfirmation? && me.ch.Some?
    ensures Pair(Handle(me, m, next), peer, limit)
  {
    var you := Handle(me, m, next);
    ReadingOn(me, peer, limit, m, you.ch.value);
    NothingAdded(Stream(peer.log[..me.read]));
    assert me.log + [] == me.log;
    SendingKept(me, you, peer, limit, []);
    ReceivingKept(peer, me, you, limit, []);
  }

  /** The receiver's window always covers the data in flight, so no data is
      ever extra. */
  lemma DataFits(me: Endpoint, peer: Endpoint, limit: u32, m: Msg)
    requires CanRead(me, peer, limit, m) && m.Data? && me.ch.Some?
    ensures |m.bytes| <= me.ch.value.senderWindow
  {
    TakeOne(peer.log, me.read);
  }

  /** What reading `len` bytes leaves of a receiver's channel, and what it grants. */
  ghost predicate Refills(c: ChannelParams, len: nat, target: u32, limit: u32, d: ChannelParams, out: seq<Msg>) {
    && Sound(d) && d == c.(senderWindow := d.senderWindow)
    && target / 2 <= d.senderWindow && 1 <= d.senderWindow <= limit
    && Tidy(Some(d), out) && Stream(out) == [] && Grants(out) == d.senderWindow - (c.senderWindow - len)
  }

  lemma ReceivedRefills(c: ChannelParams, len: nat, target: u32, limit: u32)
    requires Sound(c) && len <= c.senderWindow <= limit && 2 <= target <= limit
    ensures var (d, out) := Received(c, len, target); Refills(c, len, target, limit, d, out)
  {
    var out := Received(c, len, target).1;
    assert out != [] ==> out[1..] == [];
  }

  /** The reader of data. */
  ghost function Refilled(me: Endpoint, m: Msg, d: ChannelParams, out: seq<Msg>, target: u32): Endpoint {
    Emit(me.(read := me.read + 1), Some(d), out).(delivered := me.delivered + Bytes(m), target := target)
  }

  lemma RefillLocal(me: Endpoint, m: Msg, limit: u32, d: ChannelParams, out: seq<Msg>, target: u32)
    requires Local(me) && m.Data? && me.ch.Some? && Refills(me.ch.value, |m.bytes|, me.target, limit, d, out) && 2 <= target
    ensures Local(Refilled(me, m, d, out, target))
  {
    NothingAdded(Waiting(d.pending));
    SilenceKeepsLocal(me, Some(d), out);
    ReadingKeepsLocal(Emit(me, Some(d), out), me.read + 1, me.delivered + Bytes(m), target);
  }

  lemma RefillSends(me: Endpoint, peer: Endpoint, limit: u32, m: Msg, d: ChannelParams, out: seq<Msg>, target: u32)
    requires CanRead(me, peer, limit, m) && m.Data? && me.ch.Some? && Refills(me.ch.value, |m.bytes|, me.target, limit, d, out)
    ensures Directed(Refilled(me, m, d, out, target), peer, limit)
  {
    TakeOne(peer.log, me.read);
    SendingKept(me, Refilled(me, m, d, out, target), peer, limit, out);
  }

  lemma RefillKeepsPair(me: Endpoint, peer: Endpoint, limit: u32, m: Msg, d: ChannelParams, out: seq<Msg>, target: u32)
    requires CanRead(me, peer, limit, m) && m.Data? && me.ch.Some? && Refills(me.ch.value, |m.bytes|, me.target, limit, d, out)
    requires 2 <= target <= limit && (me.client ==> target == me.target)
    ensures Pair(Refilled(me, m, d, out, target), peer, limit)
  {
    RefillLocal(me, m, limit, d, out, target);
    RefillSends(me, peer, limit, m, d, out, target);
    ReadingKept(peer, me, limit, m, Some(d), out, target);
  }

  lemma ReadData(me: Endpoint, peer: Endpoint, limit: u32, m: Msg, next: u32)
    requires CanRead(me, peer, limit, m) && m.Data? && me.ch.Some? && next <= limit && next != 1
    ensures Pair(Handle(me, m, next), peer, limit)
  {
    var (d, out) := Received(me.ch.value, |m.bytes|, me.target);
    var target := if out != [] && next > 0 && !me.client then next else me.target;
    DataFits(me, peer, limit, m);
    ReceivedRefills(me.ch.value, |m.bytes|, me.target, limit);
    RefillKeepsPair(me, peer, limit, m, d, out, target);
    assert Handle(me, m, next) == Refilled(me, m, d, out, target);
  }

  lemma AdjustIsTidy(c: ChannelParams, amount: u32, limit: u32)
    requires Sound(c) && AllShort(c, limit)
    ensures var r := WindowAdjusted(c, amount);
            && SoundIfOpen(r.ch) && Tidy(r.ch, r.out)
            && (r.ch.Some? ==> AllShort(r.ch.value, limit))
  {
    var e := c.(recipientWindow := Raise(c.recipientWindow, amount));
    FarewellsComeLast(e);
    FlushKeepsBuffers(e, U32_BOUND - 1 - limit);
  }

  /** No grant makes the addition saturate, whether or not the peer is still open. */
  lemma GrantFits(me: Endpoint, peer: Endpoint, limit: u32, m: Msg)
    requires CanRead(me, peer, limit, m) && m.WindowAdjust? && me.ch.Some?
    ensures me.ch.value.recipientWindow + m.amount <= limit
  {
    TakeOne(peer.log, me.read);
  }

  /** What reading a grant of `amount` may leave of channel `c` and send. */
  ghost predicate Spends(c: ChannelParams, amount: u32, limit: u32, d: Option<ChannelParams>, out: seq<Msg>)
    requires Sound(c)
  {
    && SoundIfOpen(d) && Tidy(d, out) && Grants(out) == 0
    && Stream(out) + WaitingIn(d) == Waiting(c.pending)
    && |Stream(out)| <= c.recipientWindow + amount
    && (d.Some? ==>
          && d.value.recipientWindow + |Stream(out)| == c.recipientWindow + amount
          && d.value.senderWindow == c.senderWindow && d.value.confirmed == c.confirmed
          && d.value.pendingClose == c.pendingClose
          && AllShort(d.value, limit))
  }

  lemma AdjustSpends(c: ChannelParams, amount: u32, limit: u32)
    requires Sound(c) && AllShort(c, limit) && c.recipientWindow + amount <= limit
    ensures var r := WindowAdjusted(c, amount); Spends(c, amount, limit, r.ch, r.out)
  {
    AdjustKeepsOrder(c, amount);
    AdjustIsTidy(c, amount, limit);
  }

  lemma SpendingSends(me: Endpoint, peer: Endpoint, limit: u32, m: Msg, d: Option<ChannelParams>, out: seq<Msg>)
    requires CanRead(me, peer, limit, m) && m.WindowAdjust? && me.ch.Some? && Spends(me.ch.value, m.amount, limit, d, out)
    ensures Directed(Emit(me.(read := me.read + 1), d, out), peer, limit)
  {
    TakeOne(peer.log, me.read);
    SendingKept(me, Emit(me.(read := me.read + 1), d, out), peer, limit, out);
  }

  lemma SpendingReceives(me: Endpoint, peer: Endpoint, limit: u32, m: Msg, d: Option<ChannelParams>, out: seq<Msg>)
    requires CanRead(me, peer, limit, m) && m.WindowAdjust? && me.ch.Some? && Spends(me.ch.value, m.amount, limit, d, out)
    ensures Directed(peer, Emit(me.(read := me.read + 1), d, out), limit)
  {
    var you := Emit(me.(read := me.read + 1), d, out);
    NothingAdded(me.delivered);
    ReadingKept(peer, me, limit, m, d, out, me.target);
    assert you.(delivered := me.delivered + Bytes(m), target := me.target) == you;
  }

  lemma SpendingKeepsPair(me: Endpoint, peer: Endpoint, limit: u32, m: Msg, d: Option<ChannelParams>, out: seq<Msg>)
    requires CanRead(me, peer, limit, m) && m.WindowAdjust? && me.ch.Some? && Spends(me.ch.value, m.amount, limit, d, out)
    ensures Pair(Emit(me.(read := me.read + 1), d, out), peer, limit)
  {
    SilenceKeepsLocal(me, d, out);
    ReadingKeepsLocal(Emit(me, d, out), me.read + 1, me.delivered, me.target);
    SpendingSends(me, peer, limit, m, d, out);
    SpendingReceives(me, peer, limit, m, d, out);
  }

  lemma AdjustKeepsPair(me: Endpoint, peer: Endpoint, limit: u32, m: Msg)
    requires CanRead(me, peer, limit, m) && m.WindowAdjust? && me.ch.Some?
    ensures var r := WindowAdjusted(me.ch.value, m.amount); Pair(Emit(me.(read := me.read + 1), r.ch, r.out), peer, limit)
  {
    var r := WindowAdjusted(me.ch.value, m.amount);
    GrantFits(me, peer, limit, m);
    AdjustSpends(me.ch.value, m.amount, limit);
    SpendingKeepsPair(me, peer, limit, m, r.ch, r.out);
  }

  lemma HandleAdjusts(me: Endpoint, m: Msg, next: u32)
    requires SoundIfOpen(me.ch) && m.WindowAdjust? && me.ch.Some?
    ensures var r := WindowAdjusted(me.ch.value, m.amount); Handle(me, m, next) == Emit(me.(read := me.read + 1), r.ch, r.out)
  {
  }

  lemma ReadAdjust(me: Endpoint, peer: Endpoint, limit: u32, m: Msg, next: u32)
    requires CanRead(me, peer, limit, m) && m.WindowAdjust? && me.ch.Some?
    ensures Pair(Handle(me, m, next), peer, limit)
  {
    AdjustKeepsPair(me, peer, limit, m);
    HandleAdjusts(me, m, next);
  }

  /** A client that reads CLOSE answers it, or defers the answer behind its data. */
  lemma AnsweringKeepsPair(me: Endpoint, peer: Endpoint, limit: u32, d: Option<ChannelParams>, out: seq<Msg>)
    requires CanRead(me, peer, limit, Close) && me.ch.Some? && SoundIfOpen(d) && Tidy(d, out)
    requires Stream(out) == [] && Grants(out) == 0
    requires var c := me.ch.value; if c.pending == [] then d == None else d == Some(c.(pendingClose := true))
    ensures Pair(Emit(me.(read := me.read + 1), d, out), peer, limit)
  {
    var you := Emit(me.(read := me.read + 1), d, out);
    TakeOne(peer.log, me.read);
    NothingAdded(Waiting(me.ch.value.pending));
    SilenceKeepsLocal(me, d, out);
    ReadingKeepsLocal(Emit(me, d, out), you.read, me.delivered, me.target);
    SendingKept(me, you, peer, limit, out);
    NothingAdded(me.delivered);
    ReadingKept(peer, me, limit, Close, d, out, me.target);
    assert you.(delivered := me.delivered + Bytes(Close), target := me.target) == you;
  }

  /** A server that reads CLOSE drops its channel. */
  lemma DroppingKeepsPair(me: Endpoint, peer: Endpoint, limit: u32)
    requires CanRead(me, peer, limit, Close) && me.ch.Some?
    ensures Pair(me.(read := me.read + 1, ch := None), peer, limit)
  {
    var you := me.(read := me.read + 1, ch := None);
    TakeOne(peer.log, me.read);
    NothingAdded(Stream(peer.log[..me.read]));
    NoMore(me.log);
    SendingKept(me, you, peer, limit, []);
    ReceivingKept(peer, me, you, limit, []);
  }

  lemma ReadClose(me: Endpoint, peer: Endpoint, limit: u32, next: u32)
    requires CanRead(me, peer, limit, Close) && me.ch.Some?
    ensures Pair(Handle(me, Close, next), peer, limit)
  {
    if me.client {
      var r := CloseChannel(me.ch.value);
      if me.ch.value.pending == [] {
        OneFarewell(Close, None);
      }
      AnsweringKeepsPair(me, peer, limit, r.ch, r.out);
      assert Handle(me, Close, next) == Emit(me.(read := me.read + 1), r.ch, r.out);
    } else {
      DroppingKeepsPair(me, peer, limit);
      assert Handle(me, Close, next) == me.(read := me.read + 1, ch := None);
    }
  }

  lemma DeliverKeepsPair(me: Endpoint, peer: Endpoint, limit: u32, next: u32)
    requires Pair(me, peer, limit) && me.read < |peer.log| && next <= limit && next != 1
    ensures Pair(Handle(me, peer.log[me.read], next), peer, limit)
  {
    var m := peer.log[me.read];
    if me.ch.None? {
      ReadWhenClosed(me, peer, limit, m, next);
    } else {
      match m
      case OpenConfirmation(_, _, _) => ReadConfirmation(me, peer, limit, m, next);
      case Data(_, _) => ReadData(me, peer, limit, m, next);
      case WindowAdjust(_) => ReadAdjust(me, peer, limit, m, next);
      case Eof => ReadEof(me, peer, limit, next);
      case Close => ReadClose(me, peer, limit, next);
    }
  }

  /** An application call on a confirmed channel. */
  lemma CallKeepsPair(me: Endpoint, peer: Endpoint, limit: u32, act: Act)
    requires Pair(me, peer, limit) && !act.Deliver? && me.ch.Some? && me.ch.value.confirmed
    ensures Pair(Perform(me, peer.log, limit, act), peer, limit)
  {
    var c, you := me.ch.value, Perform(me, peer.log, limit, act);
    match act {
      case SubmitData(tag, buf, rekeying) =>
        if Short(buf, limit) {
          SubmitKeepsPair(me, peer, limit, tag, buf, rekeying);
          var r := Submit(c, tag, buf, rekeying);
          assert you == Emit(me.(submitted := me.submitted + TagAll(tag, buf)), Some(r.0), r.1);
        }
      case SendEof =>
        EofKeepsPair(me, peer, limit);
        assert you == Emit(me, EofChannel(c).ch, EofChannel(c).out);
      case SendClose =>
        CloseKeepsPair(me, peer, limit);
        assert you == Emit(me, CloseChannel(c).ch, CloseChannel(c).out);
      case FinishRekey =>
        FinishRekeyIsIdle(me, peer, limit);
        assert you == me;
    }
  }

  lemma PerformKeepsPair(me: Endpoint, peer: Endpoint, limit: u32, act: Act)
    requires Pair(me, peer, limit)
    ensures Pair(Perform(me, peer.log, limit, act), peer, limit)
  {
    if act.Deliver? {
      if me.read < |peer.log| && act.nextTarget <= limit && act.nextTarget != 1 {
        DeliverKeepsPair(me, peer, limit, act.nextTarget);
      }
    } else if me.ch.Some? && me.ch.value.confirmed {
      CallKeepsPair(me, peer, limit, act);
    }
  }

  // ---------------------------------------------------------------------
  // Runs
  // ---------------------------------------------------------------------

  /** An action of endpoint `a` (`atA`) or of endpoint `b`. */
  datatype Move = Move(atA: bool, act: Act)

  function Me(s: System, atA: bool): Endpoint {
    if atA then s.a else s.b
  }

  function With(s: System, atA: bool, me: Endpoint): System {
    if atA then s.(a := me) else s.(b := me)
  }

  /** One move. A side whose channel is not sound would stay put; `StepKeeps`
      shows that there is none. */
  ghost function Step(s: System, m: Move): System {
    var me, peer := Me(s, m.atA), Me(s, !m.atA);
    if SoundIfOpen(me.ch) then With(s, m.atA, Perform(me, peer.log, s.limit, m.act)) else s
  }

  ghost function Run(s: System, moves: seq<Move>): System
    decreases |moves|
  {
    if moves == [] then s else Run(Step(s, moves[0]), moves[1..])
  }

  lemma StepKeeps(s: System, m: Move)
    requires Inv(s)
    ensures Inv(Step(s, m))
  {
    PerformKeepsPair(Me(s, m.atA), Me(s, !m.atA), s.limit, m.act);
  }

  lemma {:induction false} RunKeeps(s: System, moves: seq<Move>)
    requires Inv(s)
    ensures Inv(Run(s, moves))
    decreases |moves|
  {
    if moves != [] {
      StepKeeps(s, moves[0]);
      RunKeeps(Step(s, moves[0]), moves[1..]);
    }
  }

  /** What is on its way to an endpoint. */
  function InFlight(s: System, toA: bool): seq<Msg> {
    var me, peer := Me(s, toA), Me(s, !toA);
    if me.read <= |peer.log| then peer.log[me.read..] else []
  }

  predicate Start(s: System) {
    Initial(s) && s.a.target >= 2 && s.b.target >= 2
  }

  /** The state a run from `s` reaches. */
  ghost function Reach(s: System, moves: seq<Move>): System
    requires Start(s)
  {
    Run(s, moves)
  }

  lemma Reached(s: System, moves: seq<Move>)
    requires Start(s)
    ensures Inv(Reach(s, moves))
  {
    InitialHolds(s);
    RunKeeps(s, moves);
  }

  // ---------------------------------------------------------------------
  // Main results
  // ---------------------------------------------------------------------

  /** In every reachable state, while both sides are open, the sender's window
      plus the data and the grants in flight is the receiver's window. */
  lemma CreditIsConserved(s: System, moves: seq<Move>, fromA: bool)
    requires Start(s)
    ensures var r := Reach(s, moves);
            var snd, rcv := Me(r, fromA), Me(r, !fromA);
            snd.ch.Some? && rcv.ch.Some? ==>
              snd.ch.value.recipientWindow + |Stream(InFlight(r, !fromA))| + Grants(InFlight(r, fromA))
              == rcv.ch.value.senderWindow
  {
    var r := Reach(s, moves);
    Reached(s, moves);
    assert Directed(Me(r, fromA), Me(r, !fromA), r.limit);
  }

  /** In every reachable state the next message is one its receiver expects:
      data fits the receiver's window, and a grant neither saturates the window
      nor pushes an offset beyond 32 bits, even if its sender has closed since. */
  lemma NextMessageIsExpected(s: System, moves: seq<Move>, atA: bool)
    requires Start(s)
    ensures var r := Reach(s, moves);
            var me, wire := Me(r, atA), InFlight(r, atA);
            me.ch.Some? && wire != [] ==>
              && (wire[0].Data? ==> me.ch.value.confirmed && |wire[0].bytes| <= me.ch.value.senderWindow)
              && (wire[0].WindowAdjust? ==>
                    && me.ch.value.recipientWindow + wire[0].amount <= r.limit
                    && forall p :: p in me.ch.value.pending ==>
                         p.from + me.ch.value.recipientWindow + wire[0].amount < U32_BOUND)
              && (wire[0].OpenConfirmation? ==> !me.ch.value.confirmed && me.ch.value.pending == [])
  {
    var r := Reach(s, moves);
    Reached(s, moves);
    var me, peer := Me(r, atA), Me(r, !atA);
    if me.ch.Some? && me.read < |peer.log| {
      var m := peer.log[me.read];
      if m.Data? {
        DataFits(me, peer, r.limit, m);
      }
      if m.WindowAdjust? {
        GrantFits(me, peer, r.limit, m);
      }
    }
  }

  lemma DeliveredIsPrefix(snd: Endpoint, rcv: Endpoint)
    requires Stream(snd.log) <= snd.submitted && rcv.read <= |snd.log|
    requires rcv.delivered <= Stream(snd.log[..rcv.read])
    ensures rcv.delivered <= snd.submitted
  {
    StreamConcat(snd.log[..rcv.read], snd.log[rcv.read..]);
    assert snd.log[..rcv.read] + snd.log[rcv.read..] == snd.log;
    PrefixOfPrefix(rcv.delivered, Stream(snd.log[..rcv.read]), Stream(snd.log[rcv.read..]), snd.submitted);
  }

  /** In every reachable state the application on either side has been given
      exactly the data of the messages read, whether or not its channel is still
      open, and that is a prefix of what the other side's application submitted:
      nothing lost inside it, nothing doubled, nothing out of order. */
  lemma DeliveryIsAPrefix(s: System, moves: seq<Move>, atA: bool)
    requires Start(s)
    ensures var r := Reach(s, moves);
            var me, peer := Me(r, atA), Me(r, !atA);
            && me.read <= |peer.log| && me.delivered == Stream(peer.log[..me.read])
            && me.delivered <= peer.submitted
  {
    var r := Reach(s, moves);
    Reached(s, moves);
    DeliveredIsPrefix(Me(r, !atA), Me(r, atA));
  }

  /** No flow-control deadlock: when nothing is in flight and both sides are
      open, both windows are open, nothing waits, and everything submitted has
      been delivered. */
  lemma QuietMeansDelivered(s: System, moves: seq<Move>, atA: bool)
    requires Start(s)
    ensures var r := Reach(s, moves);
            var me, peer := Me(r, atA), Me(r, !atA);
            me.ch.Some? && peer.ch.Some? && InFlight(r, true) == [] && InFlight(r, false) == [] ==>
              && peer.ch.value.pending == []
              && me.delivered == peer.submitted
              && me.ch.value.senderWindow == peer.ch.value.recipientWindow >= 1
              && (me.client ==> me.ch.value.senderWindow >= me.target / 2)
  {
    Reached(s, moves);
    QuietIsDelivered(Reach(s, moves), atA);
  }

  lemma QuietIsDelivered(r: System, atA: bool)
    requires Inv(r)
    ensures var me, peer := Me(r, atA), Me(r, !atA);
            me.ch.Some? && peer.ch.Some? && InFlight(r, true) == [] && InFlight(r, false) == [] ==>
              && peer.ch.value.pending == []
              && me.delivered == peer.submitted
              && me.ch.value.senderWindow == peer.ch.value.recipientWindow >= 1
              && (me.client ==> me.ch.value.senderWindow >= me.target / 2)
  {
    var me, peer := Me(r, atA), Me(r, !atA);
    if me.ch.Some? && peer.ch.Some? && InFlight(r, true) == [] && InFlight(r, false) == [] {
      assert Directed(peer, me, r.limit);
      assert me.read == |peer.log| && peer.read == |me.log|;
      assert peer.log[..me.read] == peer.log;
      assert Stream(peer.log[me.read..]) == [] && Grants(me.log[peer.read..]) == 0;
      assert Waiting(peer.ch.value.pending) == [];
      assert Stream(peer.log) + [] == Stream(peer.log);
    }
  }

  /** EOF and CLOSE are never early, CLOSE is last, and a deferred CLOSE always
      has data in front of it. */
  lemma FarewellsAreInTime(s: System, moves: seq<Move>, atA: bool, i: nat)
    requires Start(s) && i < |Me(Reach(s, moves), atA).log|
    ensures var me := Me(Reach(s, moves), atA);
            && |me.stamps| == |me.log|
            && (IsFarewell(me.log[i]) ==>
                  me.stamps[i] <= |me.submitted| && Stream(me.log[..i]) == me.submitted[..me.stamps[i]])
            && (me.log[i].Close? ==> i == |me.log| - 1 && me.ch.None?)
            && (me.ch.Some? && me.ch.value.pendingClose ==> me.ch.value.pending != [])
  {
    var me := Me(Reach(s, moves), atA);
    Reached(s, moves);
    assert Local(me);
    assert StampedAt(me.log, me.stamps, me.submitted, i);
  }

  /** The receiver's window is at least half of what it aims at. */
  predicate HalfOpen(me: Endpoint) {
    me.ch.Some? ==> me.target / 2 <= me.ch.value.senderWindow
  }

  /** No delivery at this endpoint answers with another target. */
  ghost predicate SteadyTarget(s: System, moves: seq<Move>, atA: bool) {
    forall i :: 0 <= i < |moves| && moves[i].atA == atA && moves[i].act.Deliver? ==>
      moves[i].act.nextTarget == 0 || moves[i].act.nextTarget == Me(s, atA).target
  }

  lemma HandleKeepsHalf(me: Endpoint, m: Msg, next: u32)
    requires SoundIfOpen(me.ch) && HalfOpen(me) && (next == 0 || next == me.target)
    ensures var you := Handle(me, m, next); HalfOpen(you) && you.target == me.target
  {
    if me.ch.Some? && m.WindowAdjust? {
      FlushKeepsReceiver(me.ch.value.(recipientWindow := Raise(me.ch.value.recipientWindow, m.amount)));
    }
  }

  lemma PerformKeepsHalf(me: Endpoint, peerLog: seq<Msg>, limit: u32, act: Act)
    requires SoundIfOpen(me.ch) && HalfOpen(me)
    requires act.Deliver? ==> act.nextTarget == 0 || act.nextTarget == me.target
    ensures var you := Perform(me, peerLog, limit, act); HalfOpen(you) && you.target == me.target
  {
    if act.Deliver? {
      if me.read < |peerLog| {
        HandleKeepsHalf(me, peerLog[me.read], act.nextTarget);
      }
    } else if act.FinishRekey? && me.ch.Some? {
      FlushKeepsReceiver(me.ch.value);
    }
  }

  lemma FlushKeepsReceiver(c: ChannelParams)
    requires Offsets(c.pending) && (c.pending != [] ==> c.recipientMaxPacket > 0)
    ensures FlushChannel(c).0.senderWindow == c.senderWindow
  {
    FlushKeepsOrder(c);
  }

  lemma {:induction false} RunKeepsHalf(s: System, moves: seq<Move>, atA: bool)
    requires Inv(s) && HalfOpen(Me(s, atA)) && SteadyTarget(s, moves, atA)
    ensures HalfOpen(Me(Run(s, moves), atA)) && Me(Run(s, moves), atA).target == Me(s, atA).target
    decreases |moves|
  {
    if moves != [] {
      var m := moves[0];
      if m.atA == atA {
        PerformKeepsHalf(Me(s, atA), Me(s, !atA).log, s.limit, m.act);
      }
      assert forall i :: 0 <= i < |moves[1..]| ==> moves[1..][i] == moves[i + 1];
      StepKeeps(s, m);
      RunKeepsHalf(Step(s, m), moves[1..], atA);
    }
  }

  /** A side whose target never changes keeps its window at half the target or
      more in every reachable state, server or client. */
  lemma WindowStaysHalfOpen(s: System, moves: seq<Move>, atA: bool)
    requires Start(s) && SteadyTarget(s, moves, atA)
    ensures var me := Me(Reach(s, moves), atA);
            me.target == Me(s, atA).target && (me.ch.Some? ==> me.target / 2 <= me.ch.value.senderWindow)
  {
    InitialHolds(s);
    RunKeepsHalf(s, moves, atA);
  }

  /** What becomes of a receiver that reads data message `m`; data beyond the
      window is not counted. */
  ghost predicate AnswersData(me: Endpoint, m: Msg, next: u32, you: Endpoint)
    requires me.ch.Some? && m.Data?
  {
    var window := me.ch.value.senderWindow;
    var left := if |m.bytes| <= window then window - |m.bytes| else window;
    if left < me.target / 2 then
      && you.log == me.log + [WindowAdjust(me.target - left)]
      && you.ch == Some(me.ch.value.(senderWindow := me.target))
      && you.target == if next > 0 && !me.client then next else me.target
    else
      you.log == me.log && you.ch == Some(me.ch.value.(senderWindow := left)) && you.target == me.target
  }

  lemma HandleAnswersData(me: Endpoint, m: Msg, next: u32)
    requires SoundIfOpen(me.ch) && me.ch.Some? && m.Data?
    ensures AnswersData(me, m, next, Handle(me, m, next))
  {
    assert me.log + [] == me.log;
  }

  /** In every reachable state the next data message is answered with a grant
      exactly if it leaves less than half the target, with one that restores the
      whole target; with half the target left nothing is sent. Only a server
      that has just granted takes up another target. */
  lemma GrantsExactly(s: System, moves: seq<Move>, atA: bool, next: u32)
    requires Start(s) && next <= s.limit && next != 1
    ensures var r := Reach(s, moves);
            var me, wire := Me(r, atA), InFlight(r, atA);
            me.ch.Some? && wire != [] && wire[0].Data? ==>
              && |wire[0].bytes| <= me.ch.value.senderWindow
              && AnswersData(me, wire[0], next, Me(Step(r, Move(atA, Deliver(next))), atA))
  {
    var r := Reach(s, moves);
    Reached(s, moves);
    LimitStays(s, moves);
    NextMessageIsExpected(s, moves, atA);
    var me, peer := Me(r, atA), Me(r, !atA);
    if me.ch.Some? && me.read < |peer.log| && peer.log[me.read].Data? {
      HandleAnswersData(me, peer.log[me.read], next);
    }
  }

  lemma {:induction false} LimitStays(s: System, moves: seq<Move>)
    ensures Run(s, moves).limit == s.limit
    decreases |moves|
  {
    if moves != [] {
      LimitStays(Step(s, moves[0]), moves[1..]);
    }
  }

  /** Every window adjustment that has been sent is worth more than half the target. */
  ghost predicate LargeGrants(log: seq<Msg>, target: u32) {
    forall i :: 0 <= i < |log| && log[i].WindowAdjust? ==> target - target / 2 < log[i].amount <= target
  }

  lemma MoreGrants(log: seq<Msg>, out: seq<Msg>, target: u32)
    requires LargeGrants(log, target) && LargeGrants(out, target)
    ensures LargeGrants(log + out, target)
  {
  }

  lemma DataGrantsNothing(out: seq<Msg>, max: nat, target: u32)
    requires Acceptable(out, max)
    ensures LargeGrants(out, target)
  {
  }

  lemma FlushGrantsNothing(c: ChannelParams, target: u32)
    requires Offsets(c.pending) && (c.pending != [] ==> c.recipientMaxPacket > 0)
    ensures LargeGrants(FlushChannel(c).1, target) && LargeGrants(FlushPending(c).out, target)
  {
    var (d, out) := FlushChannel(c);
    assert Acceptable(out, c.recipientMaxPacket) by {
      FlushKeepsOrder(c);
    }
    DataGrantsNothing(out, c.recipientMaxPacket, target);
    MoreGrants(out, Farewells(d), target);
  }

  lemma HandleGrantsLarge(me: Endpoint, m: Msg, next: u32)
    requires SoundIfOpen(me.ch) && LargeGrants(me.log, me.target)
    ensures LargeGrants(Handle(me, m, next).log, me.target)
  {
    if me.ch.Some? {
      var c := me.ch.value;
      match m {
        case Data(_, bytes) => MoreGrants(me.log, Received(c, |bytes|, me.target).1, me.target);
        case WindowAdjust(amount) =>
          FlushGrantsNothing(c.(recipientWindow := Raise(c.recipientWindow, amount)), me.target);
          MoreGrants(me.log, WindowAdjusted(c, amount).out, me.target);
        case Close => MoreGrants(me.log, CloseChannel(c).out, me.target);
        case _ =>
      }
    }
  }

  lemma PerformGrantsLarge(me: Endpoint, peerLog: seq<Msg>, limit: u32, act: Act)
    requires SoundIfOpen(me.ch) && LargeGrants(me.log, me.target)
    ensures LargeGrants(Perform(me, peerLog, limit, act).log, me.target)
  {
    if act.Deliver? {
      if me.read < |peerLog| {
        HandleGrantsLarge(me, peerLog[me.read], act.nextTarget);
      }
    } else if me.ch.Some? && me.ch.value.confirmed {
      var c := me.ch.value;
      match act {
        case SubmitData(tag, buf, rekeying) =>
          SubmitKeepsOrder(c, tag, buf, rekeying);
          MoreGrants(me.log, Submit(c, tag, buf, rekeying).1, me.target);
        case SendEof => MoreGrants(me.log, EofChannel(c).out, me.target);
        case SendClose => MoreGrants(me.log, CloseChannel(c).out, me.target);
        case FinishRekey =>
          FlushGrantsNothing(c, me.target);
          MoreGrants(me.log, FlushChannel(c).1, me.target);
      }
    }
  }

  lemma {:induction false} RunGrantsLarge(s: System, moves: seq<Move>, atA: bool)
    requires Inv(s) && HalfOpen(Me(s, atA)) && SteadyTarget(s, moves, atA)
    requires LargeGrants(Me(s, atA).log, Me(s, atA).target)
    ensures LargeGrants(Me(Run(s, moves), atA).log, Me(s, atA).target)
    decreases |moves|
  {
    if moves != [] {
      var m := moves[0];
      if m.atA == atA {
        PerformKeepsHalf(Me(s, atA), Me(s, !atA).log, s.limit, m.act);
        PerformGrantsLarge(Me(s, atA), Me(s, !atA).log, s.limit, m.act);
      }
      assert forall i :: 0 <= i < |moves[1..]| ==> moves[1..][i] == moves[i + 1];
      StepKeeps(s, m);
      RunGrantsLarge(Step(s, m), moves[1..], atA);
    }
  }

  /** So a side whose target never changes never sends a small grant: each one
      is worth more than half the target, and none exceeds it. */
  lemma GrantsAreLarge(s: System, moves: seq<Move>, atA: bool, i: nat)
    requires Start(s) && SteadyTarget(s, moves, atA) && i < |Me(Reach(s, moves), atA).log|
    ensures var m := Me(Reach(s, moves), atA).log[i];
            var target := Me(s, atA).target;
            m.WindowAdjust? ==> target - target / 2 < m.amount <= target
  {
    InitialHolds(s);
    RunGrantsLarge(s, moves, atA);
  }

  // ---------------------------------------------------------------------
  // Everything in flight can be delivered
  // ---------------------------------------------------------------------

  /** A message is worth more than all it can cause. */
  function Worth(m: Msg): nat {
    match m
    case Data(_, _) => 3
    case WindowAdjust(_) => 2
    case _ => 1
  }

  function Total(msgs: seq<Msg>): nat {
    if msgs == [] then 0 else Worth(msgs[0]) + Total(msgs[1..])
  }

  lemma {:induction false} TotalConcat(a: seq<Msg>, b: seq<Msg>)
    ensures Total(a + b) == Total(a) + Total(b)
  {
    if a == [] {
      assert a + b == b;
    } else {
      TotalConcat(a[1..], b);
      assert (a + b)[1..] == a[1..] + b;
    }
  }

  lemma {:induction false} DataIsWorth(out: seq<Msg>, max: nat)
    requires Acceptable(out, max)
    ensures Total(out) <= 3 * |Stream(out)|
  {
    if out != [] {
      assert Acceptable(out[1..], max);
      DataIsWorth(out[1..], max);
    }
  }

  ghost function Load(snd: Endpoint, rcv: Endpoint): nat
    requires SoundIfOpen(snd.ch) && rcv.read <= |snd.log|
  {
    Total(snd.log[rcv.read..]) + (if snd.ch.Some? then 3 * |Waiting(snd.ch.value.pending)| + 1 else 0)
  }

  ghost function Potential(me: Endpoint, peer: Endpoint): nat
    requires SoundIfOpen(me.ch) && SoundIfOpen(peer.ch) && peer.read <= |me.log| && me.read <= |peer.log|
  {
    Load(me, peer) + Load(peer, me)
  }

  lemma FarewellsAreWorth(c: ChannelParams)
    ensures Total(Farewells(c)) <= 1 + (if c.pendingClose then 1 else 0)
  {
    TotalConcat(if c.pendingEof then [Eof] else [], if c.pendingClose then [Close] else []);
  }

  lemma FlushIsWorthIt(c: ChannelParams)
    requires Sound(c.(recipientWindow := 0))
    ensures var r := FlushPending(c);
            && SoundIfOpen(r.ch)
            && Total(r.out) + 3 * |WaitingIn(r.ch)| + (if r.ch.Some? then 1 else 0) <= 3 * |Waiting(c.pending)| + 2
  {
    FlushPendingKeepsOrder(c);
    var (d, data) := FlushChannel(c);
    if d.pending == [] {
      DrainedFlush(c);
      TotalConcat(data, Farewells(d));
      FarewellsAreWorth(d);
    } else {
      FlushKeepsOrder(c);
      assert FlushPending(c) == Outcome(Some(d), data);
    }
    DataIsWorth(data, c.recipientMaxPacket);
  }

  /** `out` and what it leaves of the channel are worth less than `m` and what there was. */
  ghost predicate Cheaper(m: Msg, before: Option<ChannelParams>, after: Option<ChannelParams>, out: seq<Msg>)
    requires SoundIfOpen(before)
  {
    SoundIfOpen(after) &&
    Total(out) + 3 * |WaitingIn(after)| + (if after.Some? then 1 else 0)
    < Worth(m) + 3 * |WaitingIn(before)| + (if before.Some? then 1 else 0)
  }

  lemma GrantIsWorthIt(c: ChannelParams, m: Msg)
    requires Sound(c) && m.WindowAdjust?
    ensures var r := WindowAdjusted(c, m.amount); Cheaper(m, Some(c), r.ch, r.out)
  {
    FlushIsWorthIt(c.(recipientWindow := Raise(c.recipientWindow, m.amount)));
  }

  lemma DataIsWorthIt(c: ChannelParams, m: Msg, target: u32)
    requires Sound(c) && m.Data?
    ensures var (d, out) := Received(c, |m.bytes|, target); Cheaper(m, Some(c), Some(d), out)
  {
    var out := Received(c, |m.bytes|, target).1;
    assert out != [] ==> out[1..] == [];
  }

  lemma Sending(me: Endpoint, read: nat, ch: Option<ChannelParams>, out: seq<Msg>)
    ensures var you := Emit(me.(read := read), ch, out);
            me.log <= you.log && you.read == read && you.ch == ch && you.log[|me.log|..] == out
  {
  }

  /** What handling `m` sends and leaves waiting is worth less than `m`. */
  lemma HandlingIsWorthIt(me: Endpoint, m: Msg, next: u32)
    requires SoundIfOpen(me.ch)
    requires m.OpenConfirmation? && me.ch.Some? ==> m.maxPacket > 0 && me.ch.value.pending == []
    ensures var you := Handle(me, m, next);
            me.log <= you.log && you.read == me.read + 1 && Cheaper(m, me.ch, you.ch, you.log[|me.log|..])
  {
    if me.ch.Some? && m.WindowAdjust? {
      var r := WindowAdjusted(me.ch.value, m.amount);
      GrantIsWorthIt(me.ch.value, m);
      Sending(me, me.read + 1, r.ch, r.out);
    } else if me.ch.Some? && m.Data? {
      var (d, out) := Received(me.ch.value, |m.bytes|, me.target);
      DataIsWorthIt(me.ch.value, m, me.target);
      Sending(me, me.read + 1, Some(d), out);
    } else {
      FarewellIsWorthIt(me, m, next);
    }
  }

  lemma FarewellIsWorthIt(me: Endpoint, m: Msg, next: u32)
    requires SoundIfOpen(me.ch) && (me.ch.None? || !(m.WindowAdjust? || m.Data?))
    requires m.OpenConfirmation? && me.ch.Some? ==> m.maxPacket > 0 && me.ch.value.pending == []
    ensures var you := Handle(me, m, next);
            me.log <= you.log && you.read == me.read + 1 && Cheaper(m, me.ch, you.ch, you.log[|me.log|..])
  {
    var you := Handle(me, m, next);
    var out := you.log[|me.log|..];
    assert out != [] ==> out == [Close] && out[1..] == [];
  }

  /** How reading one message and sending others changes the two loads. */
  lemma LoadsChange(me: Endpoint, you: Endpoint, peer: Endpoint)
    requires me.read < |peer.log| && you.read == me.read + 1 && me.log <= you.log && peer.read <= |me.log|
    ensures Total(you.log[peer.read..]) == Total(me.log[peer.read..]) + Total(you.log[|me.log|..])
    ensures Total(peer.log[me.read..]) == Worth(peer.log[me.read]) + Total(peer.log[you.read..])
  {
    var out := you.log[|me.log|..];
    assert you.log[peer.read..] == me.log[peer.read..] + out;
    TotalConcat(me.log[peer.read..], out);
    assert peer.log[me.read..][1..] == peer.log[me.read + 1..];
  }

  lemma DeliveryLowersPotential(me: Endpoint, peer: Endpoint, limit: u32)
    requires Pair(me, peer, limit) && me.read < |peer.log|
    ensures var you := Handle(me, peer.log[me.read], 0);
            Pair(you, peer, limit) && Potential(you, peer) < Potential(me, peer)
  {
    var m := peer.log[me.read];
    var you := Handle(me, m, 0);
    DeliverKeepsPair(me, peer, limit, 0);
    HandlingIsWorthIt(me, m, 0);
    LoadsChange(me, you, peer);
  }

  predicate OnlyDelivers(moves: seq<Move>) {
    forall i :: 0 <= i < |moves| ==> moves[i].act == Deliver(0)
  }

  /** One delivery keeps the invariant and lowers the potential. */
  lemma DeliverOne(s: System, atA: bool)
    requires Inv(s) && Me(s, atA).read < |Me(s, !atA).log|
    ensures var t := Step(s, Move(atA, Deliver(0))); Inv(t) && Potential(t.a, t.b) < Potential(s.a, s.b)
  {
    DeliveryLowersPotential(Me(s, atA), Me(s, !atA), s.limit);
  }

  /** From every state that satisfies the invariant, delivering what is in
      flight ends: finitely many deliveries empty both wires. */
  lemma {:induction false} Drains(s: System) returns (moves: seq<Move>)
    requires Inv(s)
    ensures OnlyDelivers(moves)
    ensures var r := Run(s, moves); Inv(r) && InFlight(r, true) == [] && InFlight(r, false) == []
    decreases Potential(s.a, s.b)
  {
    if s.a.read == |s.b.log| && s.b.read == |s.a.log| {
      moves := [];
    } else {
      var m := Move(s.a.read < |s.b.log|, Deliver(0));
      DeliverOne(s, m.atA);
      var more := Drains(Step(s, m));
      moves := [m] + more;
      OneMore(s, m, more);
    }
  }

  lemma OneMore(s: System, m: Move, more: seq<Move>)
    ensures Run(s, [m] + more) == Run(Step(s, m), more)
  {
    assert ([m] + more)[1..] == more;
  }

  // ---------------------------------------------------------------------
  // What closing costs
  // ---------------------------------------------------------------------

  ghost predicate HasClosed(me: Endpoint) {
    exists i :: 0 <= i < |me.log| && me.log[i].Close?
  }

  ghost predicate HasHeardClose(me: Endpoint, peerLog: seq<Msg>) {
    exists i :: 0 <= i < me.read && i < |peerLog| && peerLog[i].Close?
  }

  /** A channel is gone only if its side has sent CLOSE or, at a server, has read it. */
  ghost predicate Told(me: Endpoint, peerLog: seq<Msg>) {
    me.ch.None? ==> HasClosed(me) || (!me.client && HasHeardClose(me, peerLog))
  }

  lemma FlushSaysClose(c: ChannelParams)
    requires Offsets(c.pending) && (c.pending != [] ==> c.recipientMaxPacket > 0)
    ensures var r := FlushPending(c); r.ch.None? ==> r.out != [] && r.out[|r.out| - 1].Close?
  {
    FlushKeepsFlags(c);
  }

  lemma EmitTells(me: Endpoint, ch: Option<ChannelParams>, out: seq<Msg>)
    requires out != [] && out[|out| - 1].Close?
    ensures HasClosed(Emit(me, ch, out))
  {
    assert Emit(me, ch, out).log[|me.log| + |out| - 1].Close?;
  }

  lemma HandleTells(me: Endpoint, peerLog: seq<Msg>, next: u32)
    requires SoundIfOpen(me.ch) && me.ch.Some? && me.read < |peerLog|
    ensures Told(Handle(me, peerLog[me.read], next), peerLog)
  {
    var m, c := peerLog[me.read], me.ch.value;
    var read := me.(read := me.read + 1);
    if m.WindowAdjust? {
      var r := WindowAdjusted(c, m.amount);
      FlushSaysClose(c.(recipientWindow := Raise(c.recipientWindow, m.amount)));
      if r.ch.None? {
        EmitTells(read, r.ch, r.out);
      }
    } else if m.Close? && me.client && c.pending == [] {
      EmitTells(read, None, [Close]);
    }
  }

  lemma CallTells(me: Endpoint, peerLog: seq<Msg>, limit: u32, act: Act)
    requires SoundIfOpen(me.ch) && me.ch.Some? && !act.Deliver?
    ensures Told(Perform(me, peerLog, limit, act), peerLog)
  {
    if act.SendClose? && me.ch.value.pending == [] {
      EmitTells(me, None, [Close]);
    }
  }

  /** A channel that is gone stays gone, and what it has said and heard stays. */
  lemma ToldStays(me: Endpoint, peerLog: seq<Msg>, limit: u32, act: Act)
    requires me.ch.None? && Told(me, peerLog)
    ensures Told(Perform(me, peerLog, limit, act), peerLog)
  {
    var you := Perform(me, peerLog, limit, act);
    assert you.log == me.log && me.read <= you.read && you.client == me.client;
  }

  lemma MoreIsHeard(me: Endpoint, log: seq<Msg>, more: seq<Msg>)
    requires Told(me, log)
    ensures Told(me, log + more)
  {
    if HasHeardClose(me, log) {
      var i :| 0 <= i < me.read && i < |log| && log[i].Close?;
      assert (log + more)[i].Close?;
    }
  }

  lemma PerformTells(me: Endpoint, peerLog: seq<Msg>, limit: u32, act: Act)
    requires SoundIfOpen(me.ch) && Told(me, peerLog)
    ensures Told(Perform(me, peerLog, limit, act), peerLog)
  {
    if me.ch.None? {
      ToldStays(me, peerLog, limit, act);
    } else if !act.Deliver? {
      CallTells(me, peerLog, limit, act);
    } else if me.read < |peerLog| {
      HandleTells(me, peerLog, act.nextTarget);
    }
  }

  lemma HandleGrows(me: Endpoint, m: Msg, next: u32)
    requires SoundIfOpen(me.ch)
    ensures me.log <= Handle(me, m, next).log
  {
  }

  lemma LogGrows(me: Endpoint, peerLog: seq<Msg>, limit: u32, act: Act)
    requires SoundIfOpen(me.ch)
    ensures me.log <= Perform(me, peerLog, limit, act).log
  {
    if act.Deliver? && me.read < |peerLog| {
      HandleGrows(me, peerLog[me.read], act.nextTarget);
    }
  }

  lemma BothTold(me: Endpoint, you: Endpoint, peer: Endpoint)
    requires Told(you, peer.log) && Told(peer, me.log) && me.log <= you.log
    ensures Told(peer, you.log)
  {
    MoreIsHeard(peer, me.log, you.log[|me.log|..]);
    assert me.log + you.log[|me.log|..] == you.log;
  }

  lemma StepTells(s: System, m: Move)
    requires Inv(s) && Told(s.a, s.b.log) && Told(s.b, s.a.log)
    ensures var t := Step(s, m); Told(t.a, t.b.log) && Told(t.b, t.a.log)
  {
    var me, peer := Me(s, m.atA), Me(s, !m.atA);
    assert SoundIfOpen(me.ch) && Told(me, peer.log) && Told(peer, me.log);
    PerformTells(me, peer.log, s.limit, m.act);
    LogGrows(me, peer.log, s.limit, m.act);
    BothTold(me, Perform(me, peer.log, s.limit, m.act), peer);
  }

  lemma {:induction false} RunTells(s: System, moves: seq<Move>)
    requires Inv(s) && Told(s.a, s.b.log) && Told(s.b, s.a.log)
    ensures var r := Run(s, moves); Told(r.a, r.b.log) && Told(r.b, r.a.log)
    decreases |moves|
  {
    if moves != [] {
      StepKeeps(s, moves[0]);
      StepTells(s, moves[0]);
      RunTells(Step(s, moves[0]), moves[1..]);
    }
  }

  lemma CloseAddsNothing(log: seq<Msg>)
    requires log != [] && log[|log| - 1].Close?
    ensures Stream(log) == Stream(log[..|log| - 1])
  {
    TakeOne(log, |log| - 1);
    AllOf(log);
    NothingAdded(Stream(log[..|log| - 1]));
  }

  /** A side that has sent CLOSE has sent all that was ever submitted to it. */
  lemma ClosedSentAll(me: Endpoint)
    requires Local(me) && HasClosed(me)
    ensures Stream(me.log) == me.submitted
  {
    var last := |me.log| - 1;
    assert me.log[last].Close?;
    assert StampedAt(me.log, me.stamps, me.submitted, last);
    CloseAddsNothing(me.log);
    AllOf(me.submitted);
  }

  /** With nothing in flight: all that `snd` was given has arrived if it has
      closed or the other side has not; and for a client only then. */
  lemma QuietArrivesExactly(r: System, toA: bool)
    requires Inv(r) && Told(r.a, r.b.log) && Told(r.b, r.a.log)
    requires InFlight(r, true) == [] && InFlight(r, false) == []
    ensures var rcv, snd := Me(r, toA), Me(r, !toA);
            && rcv.delivered == Stream(snd.log)
            && (HasClosed(snd) || !HasClosed(rcv) ==> rcv.delivered == snd.submitted)
            && (snd.client && rcv.delivered == snd.submitted ==> HasClosed(snd) || !HasClosed(rcv))
  {
    var rcv, snd := Me(r, toA), Me(r, !toA);
    assert Directed(snd, rcv, r.limit) && Directed(rcv, snd, r.limit) && Local(snd) && Local(rcv);
    assert snd.log[..rcv.read] == snd.log && rcv.log[..snd.read] == rcv.log;
    if HasClosed(snd) {
      ClosedSentAll(snd);
    } else if !HasClosed(rcv) {
      assert !HasHeardClose(snd, rcv.log) && !HasHeardClose(rcv, snd.log);
      QuietIsDelivered(r, toA);
    } else if snd.client {
      var i :| 0 <= i < |rcv.log| && rcv.log[i].Close?;
      assert snd.ch.Some? && HeardClose(rcv.log[..snd.read], snd.ch.value);
      assert |Waiting(snd.ch.value.pending)| > 0;
    }
  }

  /** From every reachable state there is a way on, by deliveries alone, to a
      state in which nothing is in flight and all that was ever submitted to a
      side has arrived, if that side has closed or the other one has not. When a
      client's peer has closed and it has not, some of its data never arrives. */
  lemma EverythingArrives(s: System, moves: seq<Move>) returns (more: seq<Move>)
    requires Start(s)
    ensures OnlyDelivers(more)
    ensures var r := Run(Reach(s, moves), more);
            && InFlight(r, true) == [] && InFlight(r, false) == []
            && (HasClosed(r.a) || !HasClosed(r.b) ==> r.b.delivered == r.a.submitted)
            && (HasClosed(r.b) || !HasClosed(r.a) ==> r.a.delivered == r.b.submitted)
            && (r.a.client && HasClosed(r.b) && !HasClosed(r.a) ==> r.b.delivered != r.a.submitted)
            && (r.b.client && HasClosed(r.a) && !HasClosed(r.b) ==> r.a.delivered != r.b.submitted)
  {
    var t := Reach(s, moves);
    Reached(s, moves);
    InitialHolds(s);
    RunTells(s, moves);
    more := Drains(t);
    RunTells(t, more);
    QuietArrivesExactly(Run(t, more), true);
    QuietArrivesExactly(Run(t, more), false);
  }

  // ---------------------------------------------------------------------
  // Where the promises end
  // ---------------------------------------------------------------------

  /** A receiver aiming at a window of 0 or 1 never re-grants it: from the very
      start, two submitted bytes reach a state where nothing is in flight and
      data waits. So the absence of deadlock needs targets of at least 2, and
      `QuietMeansDelivered` shows that 2 is enough. */
  lemma TinyTargetStalls(s: System, buf: seq<byte>)
    requires Initial(s) && s.b.target < 2 && |buf| == 2 && Short(buf, s.limit)
    ensures var a1 := Perform(s.a, s.b.log, s.limit, Deliver(0));
            SoundIfOpen(a1.ch) &&
            var a2 := Perform(a1, s.b.log, s.limit, SubmitData(None, buf, false));
            var b1 := if s.b.target == 1 then Perform(s.b, a2.log, s.limit, Deliver(0)) else s.b;
            && a2.read == |b1.log| && b1.read == |a2.log|
            && a2.ch.Some? && b1.ch.Some? && a2.ch.value.pending != []
            && b1.delivered != a2.submitted
  {
    var a1 := Perform(s.a, s.b.log, s.limit, Deliver(0));
    var c := a1.ch.value;
    var t := s.b.target;
    assert c.recipientWindow == t;
    var (d, out) := Submit(c, None, buf, false);
    assert t == 0 ==> out == [];
    if t == 1 {
      var one := buf[..1];
      assert one[1..] == [] && one[..1] == one;
      assert Packets(None, one, c.recipientMaxPacket) == [Data(None, one[..1])] + Packets(None, one[1..], c.recipientMaxPacket);
      assert out == [Data(None, one)];
    }
    assert |TagAll(None, buf)| == 2;
  }
}
