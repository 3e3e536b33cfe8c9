/** A channel down to the bytes of the connection: what one side's session
    queues is encoded, padded and sealed onto a stream of bytes, and the other
    side reads packets off that stream, opens, decodes and handles them. Runs of
    this system are runs of `Flow`, so all that is proved there holds of it. */
module EndToEnd {
  import opened Wire
  import opened Channel
  import Codec
  import Flow
  import Session

  /** One direction: the two ends of the codec, the bytes under way between
      them, and the number of the channel at the reading side. */
  datatype Link = Link(cipher: Codec.Cipher, writer: Codec.End, reader: Codec.End, stream: seq<byte>, number: u32)

  datatype World = World(sys: Flow.System, toA: Link, toB: Link, failed: bool)

  /** Random padding for the packet of a sequence number. */
  type Tape = (u32, nat) -> seq<byte>

  ghost predicate Draws(tape: Tape) {
    forall seqn: u32, n: nat :: |tape(seqn, n)| == n
  }

  /** What data leaves of the maximum packet length for header and padding. */
  const ROOM := Codec.MAXIMUM_PACKET_LEN - Session.MAX_HEADER - 20

  predicate Small(m: Msg) {
    && (m.Data? ==> |m.bytes| <= ROOM)
    && (m.OpenConfirmation? ==> 0 < m.maxPacket <= ROOM)
  }

  // ---------------------------------------------------------------------
  // One direction
  // ---------------------------------------------------------------------

  ghost predicate Writable(link: Link) {
    Codec.Lawful(link.cipher, link.writer.state)
  }

  ghost function ItemOf(link: Link, m: Msg, tape: Tape): Codec.Item
    requires Session.Encodable(Session.Packet(0, m))
  {
    var payload := Session.Encode(Session.Packet(link.number, m));
    Codec.Item(payload, tape(link.writer.seqn, Codec.PaddingLength(link.cipher, |payload|)))
  }

  lemma ItemFits(link: Link, m: Msg, tape: Tape)
    requires Small(m) && Draws(tape)
    ensures Session.Encodable(Session.Packet(0, m)) && Codec.Fits(link.cipher, ItemOf(link, m, tape))
  {
    var payload := Session.Encode(Session.Packet(link.number, m));
    assert |payload| <= ROOM + Session.MAX_HEADER;
    Codec.PaddingAligns(link.cipher, |payload|);
  }

  /** Seal one message onto the stream. */
  ghost function PutOne(link: Link, m: Msg, tape: Tape): Link
    requires Draws(tape)
  {
    if !Writable(link) || !Small(m) then link else
      ItemFits(link, m, tape);
      var item := ItemOf(link, m, tape);
      var (x, t) := Codec.WritePacket(link.cipher, link.writer.state, link.writer.seqn, item.payload, item.padding);
      link.(stream := link.stream + x, writer := Codec.End(t, NextSeqn(link.writer.seqn)))
  }

  ghost function Put(link: Link, out: seq<Msg>, tape: Tape): Link
    requires Draws(tape)
    decreases |out|
  {
    if out == [] then link else Put(PutOne(link, out[0], tape), out[1..], tape)
  }

  /** Read one packet off the stream, and the message in it. */
  ghost function Get(link: Link): Option<(Msg, Link)> {
    if !Codec.Lawful(link.cipher, link.reader.state) then None else
      match Codec.ReadPacket(link.cipher, link.reader.state, link.reader.seqn, link.stream)
      case Fails(_) => None
      case Read(content, rest, next) =>
        if content == [] then None else
          match Session.Decode(content[1..])
          case None => None
          case Some(Packet(number, m)) =>
            if number != link.number then None
            else Some((m, link.(stream := rest, reader := Codec.End(next, NextSeqn(link.reader.seqn)))))
  }

  /** The stream holds exactly these messages, and behind them both ends agree. */
  ghost predicate Carries(link: Link, msgs: seq<Msg>)
    decreases |msgs|
  {
    if msgs == [] then link.stream == [] && link.writer == link.reader
    else
      var got := Get(link);
      got.Some? && got.value.0 == msgs[0] && Carries(got.value.1, msgs[1..])
  }

  /** More bytes behind a packet do not change how it is read. */
  lemma ReadMore(c: Codec.Cipher, s: Codec.State, seqn: u32, stream: seq<byte>, more: seq<byte>)
    requires Codec.Lawful(c, s)
    ensures var r := Codec.ReadPacket(c, s, seqn, stream);
            r.Read? ==> Codec.ReadPacket(c, s, seqn, stream + more) == r.(rest := r.rest + more)
  {
    var l := Codec.Lookahead(c);
    if |stream| >= l {
      assert (stream + more)[..l] == stream[..l];
      var len := Codec.ReadLength(c, s, seqn, stream[..l]);
      if len.Some? {
        var total := len.value + Codec.TagLen(c) + Codec.PACKET_LENGTH_LEN;
        if total <= |stream| {
          assert (stream + more)[..total] == stream[..total];
          assert (stream + more)[total..] == stream[total..] + more;
        }
      }
    }
  }

  lemma PutFirst(link: Link, m: Msg, tape: Tape)
    requires Carries(link, []) && Writable(link) && Small(m) && Draws(tape)
    ensures Carries(PutOne(link, m, tape), [m])
  {
    ItemFits(link, m, tape);
    var item, put := ItemOf(link, m, tape), PutOne(link, m, tape);
    Codec.PacketRoundTrip(link.cipher, link.writer.state, link.writer.seqn, item.payload, item.padding, []);
    var (x, t) := Codec.WritePacket(link.cipher, link.writer.state, link.writer.seqn, item.payload, item.padding);
    assert put.stream == x == x + [];
    Session.PacketRoundTrip(Session.Packet(link.number, m));
    assert ([|item.padding|] + item.payload)[1..] == item.payload;
    assert Get(put) == Some((m, put.(stream := [], reader := put.writer)));
    assert [m][1..] == [];
  }

  lemma PutStaysWritable(link: Link, m: Msg, tape: Tape)
    requires Writable(link) && Draws(tape)
    ensures Writable(PutOne(link, m, tape))
  {
    if Small(m) {
      ItemFits(link, m, tape);
      Codec.WriteStaysLawful(link.cipher, link.writer, ItemOf(link, m, tape));
    }
  }

  /** Writing does not touch what is read next. */
  lemma GetThenPut(link: Link, m: Msg, tape: Tape)
    requires Get(link).Some? && Writable(link) && Small(m) && Draws(tape)
    ensures Get(PutOne(link, m, tape)) == Some((Get(link).value.0, PutOne(Get(link).value.1, m, tape)))
  {
    var rest := Get(link).value.1;
    ItemFits(link, m, tape);
    var item := ItemOf(link, m, tape);
    assert item == ItemOf(rest, m, tape);
    var x := Codec.WritePacket(link.cipher, link.writer.state, link.writer.seqn, item.payload, item.padding).0;
    ReadMore(link.cipher, link.reader.state, link.reader.seqn, link.stream, x);
  }

  /** The first message, and what the link carries behind it. */
  lemma FirstOff(link: Link, msgs: seq<Msg>) returns (rest: Link)
    requires msgs != [] && Carries(link, msgs)
    ensures Get(link) == Some((msgs[0], rest)) && Carries(rest, msgs[1..])
    ensures rest.writer == link.writer && rest.cipher == link.cipher && rest.number == link.number
  {
    rest := Get(link).value.1;
  }

  /** A message put behind what a link carries after its first one. */
  lemma PutBehind(link: Link, head: Msg, rest: Link, m: Msg, msgs: seq<Msg>, tape: Tape)
    requires Get(link) == Some((head, rest)) && Writable(link) && Small(m) && Draws(tape)
    requires Carries(PutOne(rest, m, tape), msgs)
    ensures Carries(PutOne(link, m, tape), [head] + msgs)
  {
    GetThenPut(link, m, tape);
    assert ([head] + msgs)[1..] == msgs;
  }

  lemma HeadFirst(msgs: seq<Msg>, m: Msg)
    requires msgs != []
    ensures [msgs[0]] + (msgs[1..] + [m]) == msgs + [m]
  {
  }

  lemma {:induction false} PutOneKeeps(link: Link, msgs: seq<Msg>, m: Msg, tape: Tape)
    requires Carries(link, msgs) && Writable(link) && Small(m) && Draws(tape)
    ensures Carries(PutOne(link, m, tape), msgs + [m])
    decreases |msgs|
  {
    if msgs == [] {
      PutFirst(link, m, tape);
      assert [] + [m] == [m];
    } else {
      var rest := FirstOff(link, msgs);
      PutOneKeeps(rest, msgs[1..], m, tape);
      PutBehind(link, msgs[0], rest, m, msgs[1..] + [m], tape);
      HeadFirst(msgs, m);
    }
  }

  predicate AllSmall(msgs: seq<Msg>) {
    forall i :: 0 <= i < |msgs| ==> Small(msgs[i])
  }

  lemma {:induction false} PutAllStaysWritable(link: Link, out: seq<Msg>, tape: Tape)
    requires Writable(link) && Draws(tape)
    ensures var put := Put(link, out, tape);
            Writable(put) && put.number == link.number && put.cipher == link.cipher && put.reader == link.reader
    decreases |out|
  {
    if out != [] {
      PutStaysWritable(link, out[0], tape);
      PutAllStaysWritable(PutOne(link, out[0], tape), out[1..], tape);
    }
  }

  lemma MoveOver(msgs: seq<Msg>, out: seq<Msg>)
    requires out != []
    ensures (msgs + [out[0]]) + out[1..] == msgs + out && [out[0]] + out[1..] == out
  {
  }

  lemma PutAgain(link: Link, m: Msg, out: seq<Msg>, tape: Tape)
    requires Draws(tape)
    ensures Put(link, [m] + out, tape) == Put(PutOne(link, m, tape), out, tape)
  {
    assert ([m] + out)[1..] == out;
  }

  /** What is put on a stream is what it carries next. */
  lemma {:induction false} PutKeeps(link: Link, msgs: seq<Msg>, out: seq<Msg>, tape: Tape)
    requires Carries(link, msgs) && Writable(link) && AllSmall(out) && Draws(tape)
    ensures Carries(Put(link, out, tape), msgs + out)
    decreases |out|
  {
    if out == [] {
      assert msgs + [] == msgs;
    } else {
      var m, rest := out[0], out[1..];
      PutOneKeeps(link, msgs, m, tape);
      PutStaysWritable(link, m, tape);
      PutKeeps(PutOne(link, m, tape), msgs + [m], rest, tape);
      MoveOver(msgs, out);
      PutAgain(link, m, rest, tape);
    }
  }

  lemma {:induction false} SmallIsEncodable(out: seq<Msg>)
    requires AllSmall(out)
    ensures Session.AllEncodable(out)
  {
  }

  /** The payloads put on a stream are those that the session queues for the
      peer's channel number, in its order, each sealed by the codec's writer. */
  lemma {:induction false} PutSealsTheQueue(link: Link, out: seq<Msg>, tape: Tape) returns (items: seq<Codec.Item>)
    requires Writable(link) && AllSmall(out) && Draws(tape)
    ensures Session.AllEncodable(out) && Codec.Payloads(items) == Session.EncodeAll(link.number, out)
    ensures Codec.AllFit(link.cipher, items)
    ensures var (x, last) := Codec.WriteAll(link.cipher, link.writer, items);
            Put(link, out, tape).stream == link.stream + x && Put(link, out, tape).writer == last
    decreases |out|
  {
    if out == [] {
      items := [];
      assert link.stream + [] == link.stream;
    } else {
      var next := PutOne(link, out[0], tape);
      PutStaysWritable(link, out[0], tape);
      ItemFits(link, out[0], tape);
      var item := ItemOf(link, out[0], tape);
      var more := PutSealsTheQueue(next, out[1..], tape);
      items := [item] + more;
      assert items[1..] == more;
      Regroup(link.stream, Codec.WritePacket(link.cipher, link.writer.state, link.writer.seqn, item.payload, item.padding).0,
              Codec.WriteAll(link.cipher, next.writer, more).0);
    }
  }

  // ---------------------------------------------------------------------
  // Both directions
  // ---------------------------------------------------------------------

  function To(w: World, atA: bool): Link {
    if atA then w.toA else w.toB
  }

  function Linked(w: World, atA: bool, link: Link): World {
    if atA then w.(toA := link) else w.(toB := link)
  }

  /** The side's session has gone from `me` to `you`: what it has queued is
      sealed onto the stream to the other side. */
  ghost function Written(w: World, atA: bool, you: Flow.Endpoint, tape: Tape): World
    requires Draws(tape)
  {
    var me := Flow.Me(w.sys, atA);
    var out := if |me.log| <= |you.log| then you.log[|me.log|..] else [];
    Linked(w, !atA, Put(To(w, !atA), out, tape)).(sys := Flow.With(w.sys, atA, you))
  }

  /** The side reads one packet off its stream and handles the message in it;
      a packet that cannot be read is the end. */
  ghost function Delivered(w: World, atA: bool, next: u32, tape: Tape): World
    requires Draws(tape) && SoundIfOpen(Flow.Me(w.sys, atA).ch)
  {
    match Get(To(w, atA))
    case None => w.(failed := true)
    case Some((m, rest)) => Written(Linked(w, atA, rest), atA, Flow.Handle(Flow.Me(w.sys, atA), m, next), tape)
  }

  ghost function Step(w: World, m: Flow.Move, tape: Tape): World
    requires Draws(tape)
  {
    var me := Flow.Me(w.sys, m.atA);
    if w.failed || !SoundIfOpen(me.ch) then w
    else if !m.act.Deliver? then Written(w, m.atA, Flow.Perform(me, [], w.sys.limit, m.act), tape)
    else if To(w, m.atA).stream == [] || m.act.nextTarget > w.sys.limit || m.act.nextTarget == 1 then w
    else Delivered(w, m.atA, m.act.nextTarget, tape)
  }

  ghost function Run(w: World, moves: seq<Flow.Move>, tape: Tape): World
    requires Draws(tape)
    decreases |moves|
  {
    if moves == [] then w else Run(Step(w, moves[0], tape), moves[1..], tape)
  }

  // ---------------------------------------------------------------------
  // Invariant
  // ---------------------------------------------------------------------

  /** Messages are small enough to be sealed; `own` and `peers` are the numbers
      by which this side and the other know the channel. */
  ghost predicate Modest(me: Flow.Endpoint, own: u32, peers: u32) {
    && AllSmall(me.log)
    && (forall i :: 0 <= i < |me.log| && me.log[i].OpenConfirmation? ==> me.log[i].senderChannel == own)
    && (me.ch.Some? ==>
          && me.ch.value.recipientMaxPacket <= ROOM
          && (me.ch.value.confirmed ==> me.ch.value.recipientChannel == peers))
  }

  ghost predicate Inv(w: World) {
    && !w.failed && Flow.Inv(w.sys)
    && Modest(w.sys.a, w.toA.number, w.toB.number) && Modest(w.sys.b, w.toB.number, w.toA.number)
    && Writable(w.toA) && Writable(w.toB)
    && Carries(w.toA, Flow.InFlight(w.sys, true)) && Carries(w.toB, Flow.InFlight(w.sys, false))
  }

  // ---------------------------------------------------------------------
  // What a side writes is small
  // ---------------------------------------------------------------------

  /** Small messages, and no confirmation. */
  ghost predicate Plain(out: seq<Msg>) {
    forall i :: 0 <= i < |out| ==> Small(out[i]) && !out[i].OpenConfirmation?
  }

  /** `you` follows `me` in a step that sends only small messages and no confirmation. */
  ghost predicate Follows(me: Flow.Endpoint, you: Flow.Endpoint, own: u32, peers: u32) {
    && me.log <= you.log && AllSmall(you.log[|me.log|..]) && Modest(you, own, peers)
  }

  /** Sending data that the peer accepts, and farewells and grants, stays modest. */
  lemma EmitFollows(me: Flow.Endpoint, read: nat, ch: Option<ChannelParams>, out: seq<Msg>, own: u32, peers: u32)
    requires Modest(me, own, peers) && Plain(out)
    requires ch.Some? ==> ch.value.recipientMaxPacket <= ROOM && (ch.value.confirmed ==> ch.value.recipientChannel == peers)
    ensures Follows(me, Flow.Emit(me.(read := read), ch, out), own, peers)
  {
    var log := me.log + out;
    assert log[|me.log|..] == out;
    assert forall i :: 0 <= i < |log| ==> log[i] == if i < |me.log| then me.log[i] else out[i - |me.log|];
  }

  lemma DataIsPlain(out: seq<Msg>, max: nat)
    requires Acceptable(out, max) && max <= ROOM
    ensures Plain(out)
  {
  }

  lemma PlainConcat(a: seq<Msg>, b: seq<Msg>)
    requires Plain(a) && Plain(b)
    ensures Plain(a + b)
  {
  }

  lemma FarewellsArePlain(c: ChannelParams)
    ensures Plain(Farewells(c))
  {
    PlainConcat(if c.pendingEof then [Eof] else [], if c.pendingClose then [Close] else []);
  }

  lemma FlushInParts(c: ChannelParams)
    requires Offsets(c.pending) && (c.pending != [] ==> c.recipientMaxPacket > 0)
    ensures var (d, data) := FlushChannel(c);
            var r := FlushPending(c);
            r == Outcome(Some(d), data) || (r.out == data + Farewells(d) && (r.ch == None || r.ch == Some(d)))
  {
  }

  /** A flush sends plain messages and keeps numbers and sizes. */
  lemma FlushIsPlain(c: ChannelParams)
    requires Sound(c.(recipientWindow := 0)) && c.recipientMaxPacket <= ROOM
    ensures var r := FlushPending(c);
            && Plain(r.out)
            && (r.ch.Some? ==>
                  && r.ch.value.recipientMaxPacket == c.recipientMaxPacket
                  && r.ch.value.recipientChannel == c.recipientChannel && r.ch.value.confirmed == c.confirmed)
  {
    var (d, data) := FlushChannel(c);
    FlushKeepsOrder(c);
    FlushInParts(c);
    DataIsPlain(data, c.recipientMaxPacket);
    FarewellsArePlain(d);
    PlainConcat(data, Farewells(d));
  }

  lemma AdjustFollows(me: Flow.Endpoint, amount: u32, own: u32, peers: u32)
    requires SoundIfOpen(me.ch) && me.ch.Some? && Modest(me, own, peers)
    ensures var r := WindowAdjusted(me.ch.value, amount); Follows(me, Flow.Emit(me.(read := me.read + 1), r.ch, r.out), own, peers)
  {
    var c := me.ch.value;
    var r := WindowAdjusted(c, amount);
    FlushIsPlain(c.(recipientWindow := Raise(c.recipientWindow, amount)));
    EmitFollows(me, me.read + 1, r.ch, r.out, own, peers);
  }

  lemma HandleFollows(me: Flow.Endpoint, m: Msg, next: u32, own: u32, peers: u32)
    requires SoundIfOpen(me.ch) && Modest(me, own, peers) && Small(m)
    requires m.OpenConfirmation? ==> m.senderChannel == peers
    ensures Follows(me, Flow.Handle(me, m, next), own, peers)
  {
    if me.ch.Some? {
      var c := me.ch.value;
      match m {
        case WindowAdjust(amount) =>
          AdjustFollows(me, amount, own, peers);
        case Data(_, bytes) =>
          var (d, out) := Received(c, |bytes|, me.target);
          EmitFollows(me, me.read + 1, Some(d), out, own, peers);
        case Close =>
          var r := CloseChannel(c);
          EmitFollows(me, me.read + 1, r.ch, r.out, own, peers);
        case _ =>
      }
    }
  }

  lemma PerformFollows(me: Flow.Endpoint, limit: u32, act: Flow.Act, own: u32, peers: u32)
    requires SoundIfOpen(me.ch) && Modest(me, own, peers) && !act.Deliver?
    ensures Follows(me, Flow.Perform(me, [], limit, act), own, peers)
  {
    if me.ch.Some? && me.ch.value.confirmed {
      var c := me.ch.value;
      match act {
        case SubmitData(tag, buf, rekeying) =>
          if Flow.Short(buf, limit) {
            var (d, out) := Submit(c, tag, buf, rekeying);
            SubmitKeepsOrder(c, tag, buf, rekeying);
            DataIsPlain(out, c.recipientMaxPacket);
            EmitFollows(me.(submitted := me.submitted + TagAll(tag, buf)), me.read, Some(d), out, own, peers);
          }
        case SendEof =>
          EmitFollows(me, me.read, EofChannel(c).ch, EofChannel(c).out, own, peers);
        case SendClose =>
          EmitFollows(me, me.read, CloseChannel(c).ch, CloseChannel(c).out, own, peers);
        case FinishRekey =>
          FlushIsIdle(c);
          EmitFollows(me, me.read, Some(c), [], own, peers);
      }
    }
  }

  // ---------------------------------------------------------------------
  // Every step of bytes is a step of messages
  // ---------------------------------------------------------------------

  /** Without a delivery nothing of the peer's log matters. */
  lemma CallNeedsNoLog(me: Flow.Endpoint, log: seq<Msg>, limit: u32, act: Flow.Act)
    requires SoundIfOpen(me.ch) && !act.Deliver?
    ensures Flow.Perform(me, log, limit, act) == Flow.Perform(me, [], limit, act)
    ensures Flow.Perform(me, log, limit, act).read == me.read
  {
  }

  /** The stream to a side is empty exactly when nothing is on its way to it. */
  lemma EmptyExactly(link: Link, msgs: seq<Msg>)
    requires Carries(link, msgs)
    ensures link.stream == [] <==> msgs == []
  {
  }

  /** What the other side has in flight grows by what this one sends. */
  lemma InFlightGrows(s: Flow.System, atA: bool, you: Flow.Endpoint)
    requires Flow.Inv(s) && Flow.Me(s, atA).log <= you.log
    ensures Flow.InFlight(Flow.With(s, atA, you), !atA)
            == Flow.InFlight(s, !atA) + you.log[|Flow.Me(s, atA).log|..]
  {
    var me, peer := Flow.Me(s, atA), Flow.Me(s, !atA);
    assert you.log[peer.read..] == me.log[peer.read..] + you.log[|me.log|..];
  }

  /** Writing what `you` has queued keeps both streams in step with what is in flight. */
  lemma WrittenKeeps(w: World, atA: bool, you: Flow.Endpoint, tape: Tape)
    requires Draws(tape) && !w.failed && Writable(w.toA) && Writable(w.toB)
    requires Flow.Inv(w.sys) && Flow.Inv(Flow.With(w.sys, atA, you))
    requires Modest(Flow.Me(w.sys, !atA), To(w, !atA).number, To(w, atA).number)
    requires Carries(To(w, !atA), Flow.InFlight(w.sys, !atA))
    requires Carries(To(w, atA), Flow.InFlight(Flow.With(w.sys, atA, you), atA))
    requires Follows(Flow.Me(w.sys, atA), you, To(w, atA).number, To(w, !atA).number)
    ensures var r := Written(w, atA, you, tape);
            r.sys == Flow.With(w.sys, atA, you) && Inv(r) && r.toA.number == w.toA.number && r.toB.number == w.toB.number
  {
    var me := Flow.Me(w.sys, atA);
    var out := you.log[|me.log|..];
    PutKeeps(To(w, !atA), Flow.InFlight(w.sys, !atA), out, tape);
    PutAllStaysWritable(To(w, !atA), out, tape);
    InFlightGrows(w.sys, atA, you);
  }

  lemma CallRefines(w: World, m: Flow.Move, tape: Tape)
    requires Inv(w) && Draws(tape) && !m.act.Deliver?
    ensures Step(w, m, tape).sys == Flow.Step(w.sys, m) && Inv(Step(w, m, tape))
  {
    var me, peer := Flow.Me(w.sys, m.atA), Flow.Me(w.sys, !m.atA);
    var you := Flow.Perform(me, [], w.sys.limit, m.act);
    CallNeedsNoLog(me, peer.log, w.sys.limit, m.act);
    PerformFollows(me, w.sys.limit, m.act, To(w, m.atA).number, To(w, !m.atA).number);
    Flow.StepKeeps(w.sys, m);
    WrittenKeeps(w, m.atA, you, tape);
  }

  /** The message next on the stream is the next one of the peer's log. */
  lemma GetIsNext(w: World, atA: bool)
    requires Inv(w) && To(w, atA).stream != []
    ensures var me, peer := Flow.Me(w.sys, atA), Flow.Me(w.sys, !atA);
            && me.read < |peer.log|
            && Get(To(w, atA)).Some? && Get(To(w, atA)).value.0 == peer.log[me.read]
            && var rest := Get(To(w, atA)).value.1;
               Carries(rest, peer.log[me.read + 1..]) && rest.number == To(w, atA).number
               && rest.cipher == To(w, atA).cipher && rest.writer == To(w, atA).writer
  {
    var me, peer := Flow.Me(w.sys, atA), Flow.Me(w.sys, !atA);
    EmptyExactly(To(w, atA), Flow.InFlight(w.sys, atA));
    assert peer.log[me.read..][1..] == peer.log[me.read + 1..];
  }

  /** Once the packet is off the stream, what it leaves there is what is left in flight. */
  lemma TakenCarries(w: World, atA: bool, rest: Link, you: Flow.Endpoint)
    requires Inv(w) && you.read == Flow.Me(w.sys, atA).read + 1 <= |Flow.Me(w.sys, !atA).log|
    requires Carries(rest, Flow.Me(w.sys, !atA).log[you.read..]) && rest.number == To(w, atA).number
    requires rest.cipher == To(w, atA).cipher && rest.writer == To(w, atA).writer
    ensures var t := Linked(w, atA, rest);
            && Writable(t.toA) && Writable(t.toB) && To(t, !atA) == To(w, !atA) && t.sys == w.sys && !t.failed
            && Carries(To(t, atA), Flow.InFlight(Flow.With(t.sys, atA, you), atA))
  {
  }

  /** Taking one packet off the stream and sealing what `you` then sends. */
  lemma TakeAndWrite(w: World, atA: bool, rest: Link, you: Flow.Endpoint, tape: Tape)
    requires Inv(w) && Draws(tape)
    requires you.read == Flow.Me(w.sys, atA).read + 1 <= |Flow.Me(w.sys, !atA).log|
    requires Carries(rest, Flow.Me(w.sys, !atA).log[you.read..]) && rest.number == To(w, atA).number
    requires rest.cipher == To(w, atA).cipher && rest.writer == To(w, atA).writer
    requires Flow.Inv(Flow.With(w.sys, atA, you))
    requires Follows(Flow.Me(w.sys, atA), you, To(w, atA).number, To(w, !atA).number)
    ensures var r := Written(Linked(w, atA, rest), atA, you, tape); r.sys == Flow.With(w.sys, atA, you) && Inv(r)
  {
    TakenCarries(w, atA, rest, you);
    WrittenKeeps(Linked(w, atA, rest), atA, you, tape);
  }

  lemma HandleIsStep(s: Flow.System, atA: bool, next: u32)
    requires Flow.Inv(s) && next <= s.limit && next != 1 && Flow.Me(s, atA).read < |Flow.Me(s, !atA).log|
    ensures var you := Flow.Handle(Flow.Me(s, atA), Flow.Me(s, !atA).log[Flow.Me(s, atA).read], next);
            && Flow.Step(s, Flow.Move(atA, Flow.Deliver(next))) == Flow.With(s, atA, you)
            && Flow.Inv(Flow.With(s, atA, you))
  {
    Flow.StepKeeps(s, Flow.Move(atA, Flow.Deliver(next)));
  }

  lemma NextIsHandled(w: World, atA: bool, next: u32)
    requires Inv(w) && Flow.Me(w.sys, atA).read < |Flow.Me(w.sys, !atA).log|
    ensures var me := Flow.Me(w.sys, atA);
            Follows(me, Flow.Handle(me, Flow.Me(w.sys, !atA).log[me.read], next), To(w, atA).number, To(w, !atA).number)
  {
    var me, peer := Flow.Me(w.sys, atA), Flow.Me(w.sys, !atA);
    assert Modest(peer, To(w, !atA).number, To(w, atA).number);
    HandleFollows(me, peer.log[me.read], next, To(w, atA).number, To(w, !atA).number);
  }

  /** Taking one packet off and handling the message in it. */
  lemma TakeAndHandle(w: World, atA: bool, next: u32, m: Msg, rest: Link, tape: Tape)
    requires Inv(w) && Draws(tape) && next <= w.sys.limit && next != 1
    requires var me, peer := Flow.Me(w.sys, atA), Flow.Me(w.sys, !atA);
             && me.read < |peer.log| && m == peer.log[me.read] && Carries(rest, peer.log[me.read + 1..])
    requires rest.number == To(w, atA).number && rest.cipher == To(w, atA).cipher && rest.writer == To(w, atA).writer
    ensures var you := Flow.Handle(Flow.Me(w.sys, atA), m, next);
            var r := Written(Linked(w, atA, rest), atA, you, tape);
            r.sys == Flow.With(w.sys, atA, you) && Inv(r)
  {
    var me := Flow.Me(w.sys, atA);
    NextIsHandled(w, atA, next);
    HandleIsStep(w.sys, atA, next);
    HandleReads(me, m, next);
    TakeAndWrite(w, atA, rest, Flow.Handle(me, m, next), tape);
  }

  lemma DeliveryRefines(w: World, atA: bool, next: u32, tape: Tape)
    requires Inv(w) && Draws(tape) && To(w, atA).stream != [] && next <= w.sys.limit && next != 1
    ensures var r := Delivered(w, atA, next, tape);
            r.sys == Flow.Step(w.sys, Flow.Move(atA, Flow.Deliver(next))) && Inv(r)
  {
    GetIsNext(w, atA);
    var (m, rest) := Get(To(w, atA)).value;
    TakeAndHandle(w, atA, next, m, rest, tape);
  }

  lemma HandleReads(me: Flow.Endpoint, m: Msg, next: u32)
    requires SoundIfOpen(me.ch)
    ensures Flow.Handle(me, m, next).read == me.read + 1
  {
  }

  lemma StepRefines(w: World, m: Flow.Move, tape: Tape)
    requires Inv(w) && Draws(tape)
    ensures Step(w, m, tape).sys == Flow.Step(w.sys, m) && Inv(Step(w, m, tape))
  {
    if !m.act.Deliver? {
      CallRefines(w, m, tape);
    } else if To(w, m.atA).stream != [] && m.act.nextTarget <= w.sys.limit && m.act.nextTarget != 1 {
      DeliveryRefines(w, m.atA, m.act.nextTarget, tape);
    } else {
      EmptyExactly(To(w, m.atA), Flow.InFlight(w.sys, m.atA));
    }
  }

  lemma {:induction false} RunRefines(w: World, moves: seq<Flow.Move>, tape: Tape)
    requires Inv(w) && Draws(tape)
    ensures Run(w, moves, tape).sys == Flow.Run(w.sys, moves) && Inv(Run(w, moves, tape))
    decreases |moves|
  {
    if moves != [] {
      StepRefines(w, moves[0], tape);
      RunRefines(Step(w, moves[0], tape), moves[1..], tape);
    }
  }

  // ---------------------------------------------------------------------
  // Main results
  // ---------------------------------------------------------------------

  /** Nothing under way, and both ends agree. */
  ghost predicate Fresh(link: Link) {
    link.stream == [] && link.writer == link.reader && Writable(link)
  }

  /** The two sides know each other's channel number, and announce packets that
      leave room for header and padding. */
  predicate Numbered(s: Flow.System, toA: Link, toB: Link)
    requires Flow.Start(s)
  {
    && s.a.ch.value.recipientMaxPacket <= ROOM
    && s.b.ch.value.recipientMaxPacket <= ROOM && s.b.ch.value.recipientChannel == toA.number
    && s.b.log[0].maxPacket <= ROOM && s.b.log[0].senderChannel == toB.number
  }

  /** The channel is open, and the acceptor's confirmation is on the stream. */
  ghost function Opened(s: Flow.System, toA: Link, toB: Link, tape: Tape): World
    requires Draws(tape)
  {
    World(s, Put(toA, s.b.log, tape), toB, false)
  }

  lemma OpenedCarries(toA: Link, confirmed: seq<Msg>, tape: Tape)
    requires Fresh(toA) && AllSmall(confirmed) && Draws(tape)
    ensures Carries(Put(toA, confirmed, tape), confirmed)
  {
    PutKeeps(toA, [], confirmed, tape);
    assert [] + confirmed == confirmed;
  }

  lemma OpenedIsModest(s: Flow.System, toA: Link, toB: Link)
    requires Flow.Start(s) && Numbered(s, toA, toB)
    ensures Modest(s.a, toA.number, toB.number) && Modest(s.b, toB.number, toA.number)
    ensures Flow.InFlight(s, true) == s.b.log && Flow.InFlight(s, false) == []
  {
    assert s.b.log[0..] == s.b.log;
  }

  lemma OpenedHolds(s: Flow.System, toA: Link, toB: Link, tape: Tape)
    requires Flow.Start(s) && Fresh(toA) && Fresh(toB) && Numbered(s, toA, toB) && Draws(tape)
    ensures Inv(Opened(s, toA, toB, tape))
  {
    Flow.InitialHolds(s);
    OpenedIsModest(s, toA, toB);
    OpenedCarries(toA, s.b.log, tape);
    PutAllStaysWritable(toA, s.b.log, tape);
  }

  /** Over any run, whatever cipher either direction uses: every packet can be
      read, the message in it is the one next in the peer's log, and the two
      sides are where the same run of messages takes them. */
  lemma BytesRefineMessages(s: Flow.System, toA: Link, toB: Link, tape: Tape, moves: seq<Flow.Move>)
    requires Flow.Start(s) && Fresh(toA) && Fresh(toB) && Numbered(s, toA, toB) && Draws(tape)
    ensures var r := Run(Opened(s, toA, toB, tape), moves, tape);
            && !r.failed && r.sys == Flow.Reach(s, moves)
            && Carries(r.toA, Flow.InFlight(r.sys, true)) && Carries(r.toB, Flow.InFlight(r.sys, false))
  {
    OpenedHolds(s, toA, toB, tape);
    RunRefines(Opened(s, toA, toB, tape), moves, tape);
  }

  /** What an application call adds to the stream is, packet by packet, what the
      session queues for the peer's channel number, sealed by the codec. */
  lemma CallSealsTheQueue(w: World, m: Flow.Move, tape: Tape) returns (items: seq<Codec.Item>)
    requires Inv(w) && Draws(tape) && !m.act.Deliver?
    requires var me := Flow.Me(w.sys, m.atA); me.ch.Some? && me.ch.value.confirmed
    ensures var me, you := Flow.Me(w.sys, m.atA), Flow.Me(Step(w, m, tape).sys, m.atA);
            && me.log <= you.log && Session.AllEncodable(you.log[|me.log|..])
            && Codec.Payloads(items) == Session.EncodeAll(me.ch.value.recipientChannel, you.log[|me.log|..])
    ensures var link := To(w, !m.atA);
            && Codec.AllFit(link.cipher, items)
            && To(Step(w, m, tape), !m.atA).stream == link.stream + Codec.WriteAll(link.cipher, link.writer, items).0
  {
    var me := Flow.Me(w.sys, m.atA);
    var you := Flow.Perform(me, [], w.sys.limit, m.act);
    PerformFollows(me, w.sys.limit, m.act, To(w, m.atA).number, To(w, !m.atA).number);
    items := PutSealsTheQueue(To(w, !m.atA), you.log[|me.log|..], tape);
  }

  lemma {:induction false} RunTwice(w: World, first: seq<Flow.Move>, more: seq<Flow.Move>, tape: Tape)
    requires Draws(tape)
    ensures Run(w, first + more, tape) == Run(Run(w, first, tape), more, tape)
    decreases |first|
  {
    if first == [] {
      assert first + more == more;
    } else {
      RunTwice(Step(w, first[0], tape), first[1..], more, tape);
      assert (first + more)[1..] == first[1..] + more;
    }
  }

  /** From the bytes submitted on one side to the bytes delivered on the other:
      in every run each application has been given a prefix of what the other
      one submitted, and deliveries alone lead on to a state in which both
      streams are empty and all of it has arrived, if the sender has closed or
      the receiver has not. */
  lemma SubmittedBytesArrive(s: Flow.System, toA: Link, toB: Link, tape: Tape, moves: seq<Flow.Move>) returns (more: seq<Flow.Move>)
    requires Flow.Start(s) && Fresh(toA) && Fresh(toB) && Numbered(s, toA, toB) && Draws(tape)
    ensures Flow.OnlyDelivers(more)
    ensures var r := Run(Opened(s, toA, toB, tape), moves, tape);
            r.sys.a.delivered <= r.sys.b.submitted && r.sys.b.delivered <= r.sys.a.submitted
    ensures var r := Run(Opened(s, toA, toB, tape), moves + more, tape);
            && !r.failed && r.toA.stream == [] && r.toB.stream == []
            && (Flow.HasClosed(r.sys.a) || !Flow.HasClosed(r.sys.b) ==> r.sys.b.delivered == r.sys.a.submitted)
            && (Flow.HasClosed(r.sys.b) || !Flow.HasClosed(r.sys.a) ==> r.sys.a.delivered == r.sys.b.submitted)
  {
    var w := Opened(s, toA, toB, tape);
    BytesRefineMessages(s, toA, toB, tape, moves);
    Flow.DeliveryIsAPrefix(s, moves, true);
    Flow.DeliveryIsAPrefix(s, moves, false);
    more := Flow.EverythingArrives(s, moves);
    OpenedHolds(s, toA, toB, tape);
    RunRefines(w, moves, tape);
    RunRefines(Run(w, moves, tape), more, tape);
    RunTwice(w, moves, more, tape);
    var r := Run(w, moves + more, tape);
    EmptyExactly(r.toA, Flow.InFlight(r.sys, true));
    EmptyExactly(r.toB, Flow.InFlight(r.sys, false));
  }
}
