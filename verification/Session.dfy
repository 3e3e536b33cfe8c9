/** The encrypted session's outgoing side: the channel table, the queue of
    length-prefixed packets in `write`, and the packet writer that drains it.
    Class `Encrypted` is proved against the functions of module `Channel`. */
module Session {
  import opened Wire
  import opened Channel
  import Flow

  const CHANNEL_OPEN_CONFIRMATION: byte := 91
  const CHANNEL_WINDOW_ADJUST: byte := 93
  const CHANNEL_DATA: byte := 94
  const CHANNEL_EXTENDED_DATA: byte := 95
  const CHANNEL_EOF: byte := 96
  const CHANNEL_CLOSE: byte := 97

  /** A message with the channel number that its receiver knows it by. */
  datatype Packet = Packet(channel: u32, msg: Msg)

  // ---------------------------------------------------------------------
  // Bytes of a packet (sections 5.1 to 5.3 of RFC 4254)
  // ---------------------------------------------------------------------

  const MAX_HEADER := 13

  ghost predicate Encodable(p: Packet) {
    p.msg.Data? ==> |p.msg.bytes| + MAX_HEADER < U32_BOUND
  }

  function Encode(p: Packet): (r: seq<byte>)
    requires Encodable(p)
    ensures 0 < |r| < U32_BOUND
  {
    match p.msg
    case OpenConfirmation(sender, window, maxPacket) =>
      [CHANNEL_OPEN_CONFIRMATION] + (EncodeU32(p.channel) + (EncodeU32(sender) + (EncodeU32(window) + EncodeU32(maxPacket))))
    case Data(None, bytes) => [CHANNEL_DATA] + (EncodeU32(p.channel) + EncodeString(bytes))
    case Data(Some(code), bytes) =>
      [CHANNEL_EXTENDED_DATA] + (EncodeU32(p.channel) + (EncodeU32(code) + EncodeString(bytes)))
    case WindowAdjust(amount) => [CHANNEL_WINDOW_ADJUST] + (EncodeU32(p.channel) + EncodeU32(amount))
    case Eof => [CHANNEL_EOF] + EncodeU32(p.channel)
    case Close => [CHANNEL_CLOSE] + EncodeU32(p.channel)
  }

  /** A 32-bit word at the head of `b`, and the rest. */
  function TakeU32(b: seq<byte>): Option<(u32, seq<byte>)> {
    if |b| < 4 then None else Some((DecodeU32(b), b[4..]))
  }

  lemma TakeU32RoundTrip(n: u32, rest: seq<byte>)
    ensures TakeU32(EncodeU32(n) + rest) == Some((n, rest))
  {
    U32RoundTrip(n, rest);
  }

  lemma TakeU32Alone(n: u32)
    ensures TakeU32(EncodeU32(n)) == Some((n, []))
  {
    TakeU32RoundTrip(n, []);
    assert EncodeU32(n) + [] == EncodeU32(n);
  }

  /** What the receiver's message arms read from a packet. */
  function Decode(b: seq<byte>): Option<Packet> {
    if |b| == 0 then None else
      match TakeU32(b[1..])
      case None => None
      case Some((channel, r)) =>
        if b[0] == CHANNEL_EOF then Some(Packet(channel, Eof))
        else if b[0] == CHANNEL_CLOSE then Some(Packet(channel, Close))
        else if b[0] == CHANNEL_WINDOW_ADJUST then DecodeAdjust(channel, r)
        else if b[0] == CHANNEL_DATA then DecodeData(channel, None, r)
        else if b[0] == CHANNEL_EXTENDED_DATA then
          match TakeU32(r)
          case None => None
          case Some((code, s)) => DecodeData(channel, Some(code), s)
        else if b[0] == CHANNEL_OPEN_CONFIRMATION then DecodeConfirmation(channel, r)
        else None
  }

  function DecodeAdjust(channel: u32, r: seq<byte>): Option<Packet> {
    match TakeU32(r)
    case None => None
    case Some((amount, _)) => Some(Packet(channel, WindowAdjust(amount)))
  }

  function DecodeData(channel: u32, tag: Tag, r: seq<byte>): Option<Packet> {
    match DecodeString(r)
    case None => None
    case Some((bytes, _)) => Some(Packet(channel, Data(tag, bytes)))
  }

  function DecodeConfirmation(channel: u32, r: seq<byte>): Option<Packet> {
    match TakeU32(r)
    case None => None
    case Some((sender, s)) =>
      match TakeU32(s)
      case None => None
      case Some((window, t)) =>
        match TakeU32(t)
        case None => None
        case Some((maxPacket, _)) => Some(Packet(channel, OpenConfirmation(sender, window, maxPacket)))
  }

  /** The peer reads back the message that was queued. */
  lemma PacketRoundTrip(p: Packet)
    requires Encodable(p)
    ensures Decode(Encode(p)) == Some(p)
  {
    var e := Encode(p);
    match p.msg {
      case OpenConfirmation(sender, window, maxPacket) =>
        var t := EncodeU32(window) + EncodeU32(maxPacket);
        assert e[1..] == EncodeU32(p.channel) + (EncodeU32(sender) + t);
        TakeU32RoundTrip(p.channel, EncodeU32(sender) + t);
        TakeU32RoundTrip(sender, t);
        TakeU32RoundTrip(window, EncodeU32(maxPacket));
        TakeU32Alone(maxPacket);
      case Data(None, bytes) =>
        assert e[1..] == EncodeU32(p.channel) + EncodeString(bytes);
        TakeU32RoundTrip(p.channel, EncodeString(bytes));
        StringRoundTrip(bytes, []);
        assert EncodeString(bytes) + [] == EncodeString(bytes);
      case Data(Some(code), bytes) =>
        assert e[1..] == EncodeU32(p.channel) + (EncodeU32(code) + EncodeString(bytes));
        TakeU32RoundTrip(p.channel, EncodeU32(code) + EncodeString(bytes));
        TakeU32RoundTrip(code, EncodeString(bytes));
        StringRoundTrip(bytes, []);
        assert EncodeString(bytes) + [] == EncodeString(bytes);
      case WindowAdjust(amount) =>
        assert e[1..] == EncodeU32(p.channel) + EncodeU32(amount);
        TakeU32RoundTrip(p.channel, EncodeU32(amount));
        TakeU32Alone(amount);
      case Eof =>
        assert e[1..] == EncodeU32(p.channel);
        TakeU32Alone(p.channel);
      case Close =>
        assert e[1..] == EncodeU32(p.channel);
        TakeU32Alone(p.channel);
    }
  }

  /** Word `n` lies at the head of `b`, and `rest` behind it. */
  ghost predicate Word(b: seq<byte>, n: u32, rest: seq<byte>) {
    |b| >= 4 && DecodeU32(b) == n && b[4..] == rest
  }

  lemma WordLies(n: u32, rest: seq<byte>)
    ensures Word(EncodeU32(n) + rest, n, rest)
  {
    U32RoundTrip(n, rest);
  }

  lemma WordEnds(n: u32)
    ensures Word(EncodeU32(n), n, [])
  {
    WordLies(n, []);
    assert EncodeU32(n) + [] == EncodeU32(n);
  }

  lemma StringEnds(bytes: seq<byte>)
    requires |bytes| < U32_BOUND
    ensures StartsWith(EncodeString(bytes), [bytes], [])
  {
    OneStringMore(bytes, [], [], []);
    assert EncodeString(bytes) + [] == EncodeString(bytes) && [bytes] + [] == [bytes];
  }

  /** The fields of each message in the order of section 5 of RFC 4254. */
  ghost predicate Fields(m: Msg, r: seq<byte>) {
    match m
    case OpenConfirmation(sender, window, maxPacket) =>
      |r| == 12 && Word(r, sender, r[4..]) && Word(r[4..], window, r[8..]) && Word(r[8..], maxPacket, [])
    case WindowAdjust(amount) => Word(r, amount, [])
    case Data(None, bytes) => StartsWith(r, [bytes], [])
    case Data(Some(code), bytes) => |r| >= 4 && Word(r, code, r[4..]) && StartsWith(r[4..], [bytes], [])
    case _ => r == []
  }

  function Number(m: Msg): byte {
    match m
    case OpenConfirmation(_, _, _) => 91
    case WindowAdjust(_) => 93
    case Data(None, _) => 94
    case Data(Some(_), _) => 95
    case Eof => 96
    case Close => 97
  }

  /** Every message is its number, the receiver's channel number and its fields. */
  lemma MessageLayout(p: Packet)
    requires Encodable(p)
    ensures var b := Encode(p);
            |b| >= 5 && b[0] == Number(p.msg) && Word(b[1..], p.channel, b[5..]) && Fields(p.msg, b[5..])
  {
    var b := Encode(p);
    match p.msg {
      case OpenConfirmation(sender, window, maxPacket) =>
        var t := EncodeU32(window) + EncodeU32(maxPacket);
        var r := EncodeU32(sender) + t;
        assert b[1..] == EncodeU32(p.channel) + r && b[5..] == r;
        WordLies(p.channel, r);
        WordLies(sender, t);
        WordLies(window, EncodeU32(maxPacket));
        WordEnds(maxPacket);
        assert r[4..] == t && r[8..] == EncodeU32(maxPacket);
      case Data(None, bytes) =>
        assert b[1..] == EncodeU32(p.channel) + EncodeString(bytes) && b[5..] == EncodeString(bytes);
        WordLies(p.channel, EncodeString(bytes));
        StringEnds(bytes);
      case Data(Some(code), bytes) =>
        var r := EncodeU32(code) + EncodeString(bytes);
        assert b[1..] == EncodeU32(p.channel) + r && b[5..] == r;
        WordLies(p.channel, r);
        WordLies(code, EncodeString(bytes));
        StringEnds(bytes);
      case WindowAdjust(amount) =>
        assert b[1..] == EncodeU32(p.channel) + EncodeU32(amount) && b[5..] == EncodeU32(amount);
        WordLies(p.channel, EncodeU32(amount));
        WordEnds(amount);
      case _ =>
        assert b[1..] == EncodeU32(p.channel) && b[5..] == [];
        WordEnds(p.channel);
    }
  }

  // ---------------------------------------------------------------------
  // Frames
  // ---------------------------------------------------------------------

  /** Every payload with its length in front, one after the other. */
  ghost function Frames(payloads: seq<seq<byte>>): seq<byte>
    requires forall i :: 0 <= i < |payloads| ==> |payloads[i]| < U32_BOUND
  {
    if payloads == [] then [] else EncodeString(payloads[0]) + Frames(payloads[1..])
  }

  lemma {:induction false} FramesAppend(payloads: seq<seq<byte>>, p: seq<byte>)
    requires forall i :: 0 <= i < |payloads| ==> |payloads[i]| < U32_BOUND
    requires |p| < U32_BOUND
    ensures Frames(payloads + [p]) == Frames(payloads) + EncodeString(p)
  {
    if payloads == [] {
      assert [] + [p] == [p] && [p][1..] == [];
      assert Frames([p]) == EncodeString(p) + Frames([]);
    } else {
      FramesAppend(payloads[1..], p);
      assert (payloads + [p])[1..] == payloads[1..] + [p];
      Regroup(EncodeString(payloads[0]), Frames(payloads[1..]), EncodeString(p));
    }
  }

  /** Reading one frame off a queue of frames. */
  lemma FirstFrame(write: seq<byte>, cursor: nat, payloads: seq<seq<byte>>)
    requires forall i :: 0 <= i < |payloads| ==> 0 < |payloads[i]| < U32_BOUND
    requires cursor < |write| && write[cursor..] == Frames(payloads)
    ensures payloads != []
    ensures var n := |payloads[0]|;
            && cursor + 4 + n <= |write| && DecodeU32(write[cursor..]) == n
            && write[cursor + 4..cursor + 4 + n] == payloads[0]
            && write[cursor + 4 + n..] == Frames(payloads[1..])
  {
    var head, rest := payloads[0], Frames(payloads[1..]);
    var w := write[cursor..];
    U32RoundTrip(|head|, head + rest);
    Regroup(EncodeU32(|head|), head, rest);
    assert w[4..] == head + rest;
    assert write[cursor + 4..cursor + 4 + |head|] == w[4..][..|head|];
    assert write[cursor + 4 + |head|..] == w[4..][|head|..];
  }

  lemma NoFrames(payloads: seq<seq<byte>>)
    requires forall i :: 0 <= i < |payloads| ==> |payloads[i]| < U32_BOUND
    requires Frames(payloads) == []
    ensures payloads == []
  {
  }

  ghost predicate AllEncodable(msgs: seq<Msg>) {
    forall i :: 0 <= i < |msgs| ==> Encodable(Packet(0, msgs[i]))
  }

  /** The payloads of a list of messages to the same channel. */
  ghost function EncodeAll(channel: u32, msgs: seq<Msg>): (r: seq<seq<byte>>)
    requires AllEncodable(msgs)
    ensures |r| == |msgs|
  {
    if msgs == [] then [] else [Encode(Packet(channel, msgs[0]))] + EncodeAll(channel, msgs[1..])
  }

  lemma {:induction false} EncodeAllConcat(channel: u32, a: seq<Msg>, b: seq<Msg>)
    requires AllEncodable(a) && AllEncodable(b)
    ensures AllEncodable(a + b)
    ensures EncodeAll(channel, a + b) == EncodeAll(channel, a) + EncodeAll(channel, b)
  {
    if a == [] {
      assert a + b == b;
    } else {
      assert AllEncodable(a[1..]);
      EncodeAllConcat(channel, a[1..], b);
      assert (a + b)[1..] == a[1..] + b;
      Regroup([Encode(Packet(channel, a[0]))], EncodeAll(channel, a[1..]), EncodeAll(channel, b));
    }
  }

  lemma EncodeOne(channel: u32, m: Msg)
    requires Encodable(Packet(channel, m))
    ensures EncodeAll(channel, [m]) == [Encode(Packet(channel, m))]
  {
    assert [m][1..] == [];
  }

  lemma {:induction false} PacketsAreEncodable(tag: Tag, buf: seq<byte>, max: nat)
    requires max > 0 && |buf| + MAX_HEADER < U32_BOUND
    ensures AllEncodable(Packets(tag, buf, max))
    decreases |buf|
  {
    if buf != [] {
      PacketsAreEncodable(tag, buf[Min(|buf|, max)..], max);
    }
  }

  // ---------------------------------------------------------------------
  // Classes
  // ---------------------------------------------------------------------

  /** Stands for the sealing writer: it takes each non-empty payload once. */
  class PacketWriter {
    var sent: seq<seq<byte>>
    var bytes: nat

    constructor ()
      ensures sent == [] && bytes == 0
    {
      sent, bytes := [], 0;
    }

    method PacketRaw(payload: seq<byte>)
      modifies this
      ensures sent == old(sent) + (if payload == [] then [] else [payload])
      ensures bytes == old(bytes) + |payload|
    {
      if |payload| > 0 {
        sent := sent + [payload];
        bytes := bytes + |payload|;
      }
    }
  }

  ghost function TotalLength(payloads: seq<seq<byte>>): nat {
    if payloads == [] then 0 else |payloads[0]| + TotalLength(payloads[1..])
  }

  /** Every queued buffer fits, with its header, into a frame. */
  ghost predicate Queueable(c: ChannelParams) {
    Bounded(c.pending, U32_BOUND - MAX_HEADER - 1)
  }

  /** The queue can be worked on: frames fit, offsets lie inside, packets can be cut. */
  ghost predicate Sized(c: ChannelParams) {
    Queueable(c) && Offsets(c.pending) && (c.pending != [] ==> c.recipientMaxPacket > 0)
  }

  /** The head's offset can be added to the window in 32 bits, if it is added at all. */
  predicate HeadSplits(c: ChannelParams)
    requires c.pending != []
  {
    c.pending[0].from < |c.pending[0].buf| ==> c.pending[0].from + c.recipientWindow < U32_BOUND
  }

  /** No round of a flush wraps around, so none slices past the end of a buffer. */
  ghost predicate NeverWraps(c: ChannelParams)
    requires Sized(c)
    decreases |c.pending|
  {
    c.pending == [] ||
    (SendHeadKeepsSized(c);
     HeadSplits(c) && (|SendHead(c).0.pending| < |c.pending| ==> NeverWraps(SendHead(c).0)))
  }

  /** What a flush demands. */
  ghost predicate Sendable(c: ChannelParams) {
    Sized(c) && NeverWraps(c)
  }

  /** It is met when every offset can be added to the window. */
  lemma {:induction false} SumsFit(c: ChannelParams)
    requires Sized(c)
    requires forall p :: p in c.pending ==> p.from + c.recipientWindow < U32_BOUND
    ensures Sendable(c)
    decreases |c.pending|
  {
    if c.pending != [] {
      var d := SendHead(c).0;
      SendHeadKeepsSized(c);
      SendHeadPays(c);
      assert c.pending[0] in c.pending;
      if |d.pending| < |c.pending| {
        assert d.pending == [] + c.pending[1..] == c.pending[1..];
        forall p | p in d.pending
          ensures p.from + d.recipientWindow < U32_BOUND
        {
          assert p in c.pending;
        }
        SumsFit(d);
      }
    }
  }

  /** Where the 32-bit comparison of `data_noqueue` ends the slice it sends. */
  function SplitEnd(len: u32, from: u32, window: u32): nat {
    if len > (from + window) % U32_BOUND then from + window else len
  }

  /** The slice is the longest that fits, and inside the buffer, exactly when
      offset plus window does not wrap around. */
  lemma SplitIsExact(len: u32, from: u32, window: u32)
    requires from < len
    ensures SplitEnd(len, from, window) <= len && SplitEnd(len, from, window) == from + Min(len - from, window)
            <==> from + window < U32_BOUND
  {
  }

  /** Only the head of the queue has been sent from. */
  predicate FreshTail(c: ChannelParams) {
    forall i :: 0 < i < |c.pending| ==> c.pending[i].from == 0
  }

  /** That is so on every channel: submitting and sending keep it. */
  lemma FreshTailIsKept(c: ChannelParams, tag: Tag, buf: seq<byte>, rekeying: bool)
    requires Sound(c) && c.confirmed && FreshTail(c)
    ensures FreshTail(Submit(c, tag, buf, rekeying).0)
  {
  }

  lemma {:induction false} FlushKeepsFreshTail(c: ChannelParams)
    requires Offsets(c.pending) && (c.pending != [] ==> c.recipientMaxPacket > 0) && FreshTail(c)
    ensures FreshTail(Channel.FlushChannel(c).0)
    decreases |c.pending|
  {
    if c.pending != [] {
      var d := SendHead(c).0;
      if |d.pending| < |c.pending| {
        assert d.pending == [] + c.pending[1..] == c.pending[1..];
        FlushKeepsFreshTail(d);
      }
    }
  }

  /** So a flush wraps around exactly if its very first round does. */
  lemma SendableExactly(c: ChannelParams)
    requires Sized(c) && c.pending != [] && FreshTail(c)
    ensures Sendable(c) <==> HeadSplits(c)
  {
    var d := SendHead(c).0;
    SendHeadKeepsSized(c);
    SendHeadPays(c);
    if HeadSplits(c) && |d.pending| < |c.pending| {
      assert d.pending == [] + c.pending[1..] == c.pending[1..];
      SumsFit(d);
    }
  }

  /** And a grant can make it: on a fresh channel, confirmed with a window of 2,
      four bytes are submitted, and then a window of 2^32 - 1 is granted. */
  lemma GrantCanWrap() returns (c: ChannelParams)
    ensures c == Submit(Channel.Confirm(ChannelParams(0, 0, 2, 0, false, [], false, false), 0, 2, 4), None, [0, 0, 0, 0], false).0
    ensures Sound(c) && Queueable(c) && FreshTail(c)
    ensures !Sendable(c.(recipientWindow := Raise(c.recipientWindow, U32_BOUND - 1)))
  {
    c := Submit(Channel.Confirm(ChannelParams(0, 0, 2, 0, false, [], false, false), 0, 2, 4), None, [0, 0, 0, 0], false).0;
    assert c.pending == [Pending([0, 0, 0, 0], None, 2)];
    SendableExactly(c.(recipientWindow := U32_BOUND - 1));
  }

  ghost predicate AllSound(channels: map<u32, ChannelParams>) {
    forall id :: id in channels ==> Sound(channels[id]) && Queueable(channels[id])
  }

  lemma OneMoreSound(channels: map<u32, ChannelParams>, id: u32, c: ChannelParams)
    requires AllSound(channels) && Sound(c) && Queueable(c)
    ensures AllSound(channels[id := c])
  {
  }

  lemma AllButOneSound(channels: map<u32, ChannelParams>, id: u32)
    requires AllSound(channels - {id}) && (id in channels ==> Sound(channels[id]) && Queueable(channels[id]))
    ensures AllSound(channels)
  {
    forall i | i in channels
      ensures Sound(channels[i]) && Queueable(channels[i])
    {
      assert i == id || i in channels - {id};
    }
  }

  /** The part of `buf[from..]` that the window admits. */
  ghost function Admitted(window: u32, buf: seq<byte>, from: nat): seq<byte> {
    if from < |buf| then buf[from..from + Fitting(window, buf, from)] else []
  }

  lemma WriteBack<K, V>(m: map<K, V>, k: K)
    requires k in m
    ensures m[k := m[k]] == m
  {
  }

  lemma WriteTwice<K, V>(m: map<K, V>, k: K, v: V, w: V)
    ensures m[k := v][k := w] == m[k := w]
    ensures m[k := v] - {k} == m - {k}
  {
  }

  lemma SendHeadKeepsSized(c: ChannelParams)
    requires Sized(c) && c.pending != []
    ensures Sized(SendHead(c).0)
  {
  }

  /** What the loop does to the head one step at a time comes to `SendHead`. */
  lemma SendHeadInSteps(c: ChannelParams)
    requires Sized(c) && c.pending != []
    ensures var Pending(buf, tag, from) := c.pending[0];
            var size := Fitting(c.recipientWindow, buf, from);
            var charged := c.(pending := c.pending[1..]).(recipientWindow := c.recipientWindow - size);
            && SendHead(c).0 == (if from + size < |buf|
                                 then charged.(pending := [Pending(buf, tag, from + size)] + charged.pending)
                                 else charged)
            && SendHead(c).1 == Packets(tag, Admitted(c.recipientWindow, buf, from), c.recipientMaxPacket)
  {
    var Pending(buf, tag, from) := c.pending[0];
    AdmittedIsSlice(c.recipientWindow, buf, from);
    NothingBefore(c.pending[1..]);
  }

  lemma AdmittedIsSlice(window: u32, buf: seq<byte>, from: nat)
    requires from <= |buf|
    ensures Admitted(window, buf, from) == buf[from..from + Fitting(window, buf, from)]
  {
  }

  lemma NothingBefore(pending: seq<Pending>)
    ensures [] + pending == pending
  {
  }

  /** And what `data` does one step at a time comes to `Submit`. */
  lemma SubmitInSteps(c: ChannelParams, tag: Tag, buf: seq<byte>, rekeying: bool)
    requires c.recipientMaxPacket > 0
    ensures var size := Fitting(c.recipientWindow, buf, 0);
            var charged := c.(recipientWindow := c.recipientWindow - size);
            Submit(c, tag, buf, rekeying)
            == if c.pending != [] && rekeying then (c.(pending := c.pending + [Pending(buf, tag, 0)]), [])
               else (if size < |buf| then charged.(pending := charged.pending + [Pending(buf, tag, size)]) else charged,
                     Packets(tag, Admitted(c.recipientWindow, buf, 0), c.recipientMaxPacket))
  {
    assert Admitted(c.recipientWindow, buf, 0) == buf[..Fitting(c.recipientWindow, buf, 0)];
  }

  /** One round of a flush, and the rest of it. */
  lemma FlushInRounds(c: ChannelParams)
    requires Sized(c) && c.pending != []
    ensures var (d, out) := SendHead(c);
            && Sized(d)
            && Channel.FlushChannel(c)
               == if |d.pending| == |c.pending| then (d, out)
                  else (Channel.FlushChannel(d).0, out + Channel.FlushChannel(d).1)
  {
    SendHeadKeepsSized(c);
    assert [] + c.pending[1..] == c.pending[1..];
  }

  /** What a flush leaves behind is sound but for a CLOSE that is now due. */
  lemma FlushLeaves(c: ChannelParams)
    requires Sound(c.(recipientWindow := 0)) && Sendable(c)
    ensures var d := Channel.FlushChannel(c).0;
            && Queueable(d)
            && d.recipientChannel == c.recipientChannel
            && (if d.pending == [] then Sound(d.(pendingClose := false)) else Sound(d))
  {
    FlushKeepsOrder(c);
    FlushKeepsBuffers(c, U32_BOUND - MAX_HEADER - 1);
  }

  class Encrypted {
    var channels: map<u32, ChannelParams>
    var lastChannelId: u32
    var write: seq<byte>
    var writeCursor: nat
    var rekeyWanted: bool
    ghost var queued: seq<seq<byte>>  // the payloads that `write` holds from the cursor on

    ghost predicate Framed()
      reads this
    {
      && writeCursor <= |write|
      && (forall i :: 0 <= i < |queued| ==> 0 < |queued[i]| < U32_BOUND)
      && write[writeCursor..] == Frames(queued)
    }

    ghost predicate Valid()
      reads this
    {
      Framed() && AllSound(channels)
    }

    constructor ()
      ensures Valid() && channels == map[] && queued == [] && !rekeyWanted
    {
      channels, lastChannelId := map[], 1;
      write, writeCursor, rekeyWanted := [], 0, false;
      queued := [];
    }

    /** The `push_packet!` macro: reserve the length, write the payload, patch the length. */
    method PushPacket(payload: seq<byte>)
      requires Framed() && 0 < |payload| < U32_BOUND
      modifies this`write, this`queued
      ensures Framed() && queued == old(queued) + [payload]
    {
      var i0 := |write|;
      write := write + [0, 0, 0, 0];
      write := write + payload;
      var i1 := |write|;
      write := write[..i0] + EncodeU32(i1 - i0 - 4) + write[i0 + 4..];
      assert write == old(write) + EncodeString(payload);
      assert write[writeCursor..] == old(write)[writeCursor..] + EncodeString(payload);
      FramesAppend(queued, payload);
      queued := queued + [payload];
    }

    method Send(channel: u32, m: Msg)
      requires Framed() && Encodable(Packet(channel, m))
      modifies this`write, this`queued
      ensures Framed() && queued == old(queued) + EncodeAll(channel, [m])
    {
      EncodeOne(channel, m);
      PushPacket(Encode(Packet(channel, m)));
    }

    method Eof(id: u32)
      requires Valid()
      modifies this`channels, this`write, this`queued
      ensures Valid()
      ensures id !in old(channels) ==> channels == old(channels) && queued == old(queued)
      ensures id in old(channels) ==>
                var r := EofChannel(old(channels)[id]);
                && channels == old(channels)[id := r.ch.value]
                && queued == old(queued) + EncodeAll(old(channels)[id].recipientChannel, r.out)
    {
      if id in channels {
        var c := channels[id];
        if c.pending != [] {
          channels := channels[id := c.(pendingEof := true)];
        } else {
          Send(c.recipientChannel, Msg.Eof);
          assert channels == old(channels)[id := c];
        }
      }
    }

    method Close(id: u32)
      requires Valid()
      modifies this`channels, this`write, this`queued
      ensures Valid()
      ensures id !in old(channels) ==> channels == old(channels) && queued == old(queued)
      ensures id in old(channels) ==>
                var r := CloseChannel(old(channels)[id]);
                && channels == Updated(old(channels), id, r.ch)
                && queued == old(queued) + EncodeAll(old(channels)[id].recipientChannel, r.out)
    {
      if id in channels {
        var c := channels[id];
        if c.pending != [] {
          channels := channels[id := c.(pendingClose := true)];
        } else {
          Send(c.recipientChannel, Msg.Close);
          channels := channels - {id};
        }
      }
    }

    method AdjustWindowSize(id: u32, data: seq<byte>, target: u32) returns (adjusted: bool)
      requires Valid() && |data| < U32_BOUND
      modifies this`channels, this`write, this`queued
      ensures Valid()
      ensures id !in old(channels) ==> !adjusted && channels == old(channels) && queued == old(queued)
      ensures id in old(channels) ==>
                var (d, out) := Received(old(channels)[id], |data|, target);
                && adjusted == (out != [])
                && channels == old(channels)[id := d]
                && queued == old(queued) + EncodeAll(d.recipientChannel, out)
    {
      adjusted := false;
      if id in channels {
        var c := channels[id];
        if |data| <= c.senderWindow {
          c := c.(senderWindow := c.senderWindow - |data|);
        }
        if c.senderWindow < target / 2 {
          Send(c.recipientChannel, Msg.WindowAdjust(target - c.senderWindow));
          c := c.(senderWindow := target);
          adjusted := true;
        }
        channels := channels[id := c];
        OneMoreSound(old(channels), id, c);
      }
    }

    /** The packet loop of `data_noqueue`: push all of `buf`, no packet above `max`. */
    method PushPackets(channel: u32, tag: Tag, buf: seq<byte>, max: nat)
      requires Framed() && max > 0 && |buf| + MAX_HEADER < U32_BOUND
      modifies this`write, this`queued
      ensures Framed() && AllEncodable(Packets(tag, buf, max))
      ensures queued == old(queued) + EncodeAll(channel, Packets(tag, buf, max))
    {
      var rest := buf;
      ghost var done: seq<Msg> := [];
      while |rest| > 0
        invariant Framed() && |rest| <= |buf| && AllEncodable(done)
        invariant Packets(tag, buf, max) == done + Packets(tag, rest, max)
        invariant queued == old(queued) + EncodeAll(channel, done)
      {
        var off := Min(|rest|, max);
        var packet := Msg.Data(tag, rest[..off]);
        Send(channel, packet);
        EncodeAllConcat(channel, done, [packet]);
        Regroup(old(queued), EncodeAll(channel, done), EncodeAll(channel, [packet]));
        Regroup(done, [packet], Packets(tag, rest[off..], max));
        done := done + [packet];
        rest := rest[off..];
      }
      assert done + [] == done;
    }

    /** Push as much of `buf0[from..]` as the window admits, in packets. */
    method DataNoqueue(id: u32, buf0: seq<byte>, tag: Tag, from: nat) returns (size: nat)
      requires Framed() && id in channels && channels[id].recipientMaxPacket > 0
      requires |buf0| + MAX_HEADER < U32_BOUND
      requires from < |buf0| ==> from + channels[id].recipientWindow < U32_BOUND
      modifies this`channels, this`write, this`queued
      ensures Framed()
      ensures size == Fitting(old(channels)[id].recipientWindow, buf0, from)
      ensures var c := old(channels)[id];
              channels == old(channels)[id := c.(recipientWindow := c.recipientWindow - size)]
      ensures var c := old(channels)[id];
              var packets := Packets(tag, Admitted(c.recipientWindow, buf0, from), c.recipientMaxPacket);
              AllEncodable(packets) && queued == old(queued) + EncodeAll(c.recipientChannel, packets)
    {
      var c := channels[id];
      if from >= |buf0| {
        WriteBack(channels, id);
        return 0;
      }
      var buf := if |buf0| > (from + c.recipientWindow) % U32_BOUND
                 then buf0[from..from + c.recipientWindow] else buf0[from..];
      size := |buf|;
      assert buf == Admitted(c.recipientWindow, buf0, from);
      PushPackets(c.recipientChannel, tag, buf, c.recipientMaxPacket);
      channels := channels[id := c.(recipientWindow := c.recipientWindow - size)];
    }

    /** `data` (without a tag) and `extended_data` (with one). */
    method Data(id: u32, tag: Tag, buf0: seq<byte>, rekeying: bool)
      requires Valid() && |buf0| + MAX_HEADER < U32_BOUND
      requires id in channels ==> channels[id].confirmed
      modifies this`channels, this`write, this`queued
      ensures Valid()
      ensures id !in old(channels) ==> channels == old(channels) && queued == old(queued)
      ensures id in old(channels) ==>
                var (d, out) := Submit(old(channels)[id], tag, buf0, rekeying);
                && AllEncodable(out)
                && channels == old(channels)[id := d]
                && queued == old(queued) + EncodeAll(d.recipientChannel, out)
    {
      if id in channels {
        var c := channels[id];
        ghost var (e, out) := Submit(c, tag, buf0, rekeying);
        SubmitInSteps(c, tag, buf0, rekeying);
        SubmitKeepsOrder(c, tag, buf0, rekeying);
        SubmitKeepsQueue(c, tag, buf0, rekeying, U32_BOUND - MAX_HEADER - 1);
        OneMoreSound(channels, id, e);
        if c.pending != [] && rekeying {
          channels := channels[id := c.(pending := c.pending + [Pending(buf0, tag, 0)])];
          assert queued == old(queued) + EncodeAll(c.recipientChannel, out);
          return;
        }
        var bufLen := DataNoqueue(id, buf0, tag, 0);
        if bufLen < |buf0| {
          var d := channels[id];
          channels := channels[id := d.(pending := d.pending + [Pending(buf0, tag, bufLen)])];
          WriteTwice(old(channels), id, d, e);
        }
        assert channels == old(channels)[id := e];
      }
    }

    /** One round of the loop of `flush_channel`: pop the head, send what fits, put the rest back. */
    method SendFromHead(id: u32) returns (size: nat, stalled: bool)
      requires Framed() && id in channels && channels[id].pending != [] && Sized(channels[id]) && HeadSplits(channels[id])
      modifies this`channels, this`write, this`queued
      ensures Framed()
      ensures var c := old(channels)[id];
              var (d, out) := SendHead(c);
              && Sized(d)
              && stalled == (|d.pending| == |c.pending|)
              && size == c.recipientWindow - d.recipientWindow
              && channels == old(channels)[id := d]
              && AllEncodable(out)
              && queued == old(queued) + EncodeAll(c.recipientChannel, out)
    {
      var c := channels[id];
      SendHeadKeepsSized(c);
      SendHeadInSteps(c);
      var Pending(buf, tag, from) := c.pending[0];
      var popped := c.(pending := c.pending[1..]);
      channels := channels[id := popped];
      size := DataNoqueue(id, buf, tag, from);
      ghost var charged := popped.(recipientWindow := c.recipientWindow - size);
      WriteTwice(old(channels), id, popped, charged);
      assert channels == old(channels)[id := charged];
      stalled := from + size < |buf|;
      if stalled {
        var d := channels[id];
        channels := channels[id := d.(pending := [Pending(buf, tag, from + size)] + d.pending)];
        WriteTwice(old(channels), id, charged, SendHead(c).0);
      }
    }

    method FlushChannel(id: u32) returns (wrote: nat, complete: bool)
      requires Framed() && id in channels && Sendable(channels[id])
      modifies this`channels, this`write, this`queued
      ensures Framed()
      ensures var c := old(channels)[id];
              var (d, out) := Channel.FlushChannel(c);
              && wrote == c.recipientWindow - d.recipientWindow
              && complete == (d.pending == [])
              && channels == old(channels)[id := d]
              && AllEncodable(out)
              && queued == old(queued) + EncodeAll(c.recipientChannel, out)
    {
      wrote := 0;
      ghost var done: seq<Msg> := [];
      ghost var c := channels[id];
      ghost var left := Channel.FlushChannel(c);
      assert done + left.1 == left.1;
      while channels[id].pending != []
        invariant Framed() && id in channels && Sendable(channels[id]) && AllEncodable(done)
        invariant channels == old(channels)[id := channels[id]]
        invariant channels[id].recipientChannel == c.recipientChannel
        invariant wrote == c.recipientWindow - channels[id].recipientWindow
        invariant left == Channel.FlushChannel(channels[id])
        invariant Channel.FlushChannel(c).0 == left.0 && Channel.FlushChannel(c).1 == done + left.1
        invariant queued == old(queued) + EncodeAll(c.recipientChannel, done)
        decreases |channels[id].pending|
      {
        ghost var before := channels[id];
        ghost var out := SendHead(before).1;
        FlushInRounds(before);
        var size, stalled := SendFromHead(id);
        WriteTwice(old(channels), id, before, channels[id]);
        wrote := wrote + size;
        EncodeAllConcat(c.recipientChannel, done, out);
        Regroup(old(queued), EncodeAll(c.recipientChannel, done), EncodeAll(c.recipientChannel, out));
        if stalled {
          return wrote, false;
        }
        left := Channel.FlushChannel(channels[id]);
        Regroup(done, out, left.1);
        done := done + out;
      }
      assert done + [] == done;
      complete := true;
    }

    /** Every other channel is sound, this one up to its window. */
    ghost predicate Flushable(id: u32)
      reads this
    {
      && Framed()
      && AllSound(channels - {id})
      && (id in channels ==> Sound(channels[id].(recipientWindow := 0)) && Sendable(channels[id]))
    }

    method FlushPending(id: u32) returns (wrote: nat)
      requires Flushable(id)
      modifies this`channels, this`write, this`queued
      ensures Valid()
      ensures id !in old(channels) ==> channels == old(channels) && queued == old(queued) && wrote == 0
      ensures id in old(channels) ==>
                var c := old(channels)[id];
                var r := Channel.FlushPending(c);
                && wrote == c.recipientWindow - Channel.FlushChannel(c).0.recipientWindow
                && AllEncodable(r.out)
                && channels == Updated(old(channels), id, r.ch)
                && queued == old(queued) + EncodeAll(c.recipientChannel, r.out)
    {
      wrote := 0;
      if id in channels {
        ghost var c := channels[id];
        FlushLeaves(c);
        var complete: bool;
        wrote, complete := FlushChannel(id);
        ghost var (d, out) := Channel.FlushChannel(c);
        if complete {
          ghost var left := if d.pendingClose then None else Some(d);
          UpdatedTwice(old(channels), id, d, left);
          SendFarewells(id);
          assert Channel.FlushPending(c) == Outcome(left, out + Farewells(d));
          EncodeAllConcat(c.recipientChannel, out, Farewells(d));
          Regroup(old(queued), EncodeAll(c.recipientChannel, out), EncodeAll(c.recipientChannel, Farewells(d)));
        } else {
          assert Channel.FlushPending(c) == Outcome(Some(d), out);
          WriteTwice(old(channels), id, d, d);
          AllButOneSound(channels, id);
        }
      } else {
        AllButOneSound(channels, id);
      }
    }

    /** `handle_flushed_channel` after a complete flush. */
    method SendFarewells(id: u32)
      requires Framed() && id in channels && channels[id].pending == []
      requires AllSound(channels - {id}) && Sound(channels[id].(pendingClose := false)) && Queueable(channels[id])
      modifies this`channels, this`write, this`queued
      ensures Valid()
      ensures var c := old(channels)[id];
              && AllEncodable(Farewells(c))
              && channels == Updated(old(channels), id, if c.pendingClose then None else Some(c))
              && queued == old(queued) + EncodeAll(c.recipientChannel, Farewells(c))
    {
      var c := channels[id];
      ghost var eof := if c.pendingEof then [Msg.Eof] else [];
      ghost var close := if c.pendingClose then [Msg.Close] else [];
      EncodeAllConcat(c.recipientChannel, eof, close);
      Regroup(old(queued), EncodeAll(c.recipientChannel, eof), EncodeAll(c.recipientChannel, close));
      if c.pendingEof {
        Send(c.recipientChannel, Msg.Eof);
      }
      assert queued == old(queued) + EncodeAll(c.recipientChannel, eof);
      if c.pendingClose {
        Send(c.recipientChannel, Msg.Close);
        channels := channels - {id};
      } else {
        AllButOneSound(channels, id);
      }
      assert queued == old(queued) + EncodeAll(c.recipientChannel, eof) + EncodeAll(c.recipientChannel, close);
    }

    /** The CHANNEL_WINDOW_ADJUST arm of both roles. */
    method WindowAdjust(id: u32, amount: u32)
      requires Valid()
      requires id in channels ==> Sendable(channels[id].(recipientWindow := Raise(channels[id].recipientWindow, amount)))
      modifies this`channels, this`write, this`queued
      ensures Valid()
      ensures id !in old(channels) ==> channels == old(channels) && queued == old(queued)
      ensures id in old(channels) ==>
                var c := old(channels)[id];
                var r := WindowAdjusted(c, amount);
                && AllEncodable(r.out)
                && channels == Updated(old(channels), id, r.ch)
                && queued == old(queued) + EncodeAll(c.recipientChannel, r.out)
    {
      if id in channels {
        var c := channels[id];
        ghost var e := c.(recipientWindow := Raise(c.recipientWindow, amount));
        channels := channels[id := c.(recipientWindow := Raise(c.recipientWindow, amount))];
        var _ := FlushPending(id);
        WriteTwice(old(channels), id, e, if id in channels then channels[id] else e);
      }
    }

    /** `flush_all_pending`, called at the end of a rekey: in a valid session it
        changes neither the channels nor the queue. */
    method FlushAllPending()
      requires Valid()
      modifies this`channels, this`write, this`queued
      ensures Valid() && channels == old(channels) && queued == old(queued)
    {
      var ids := channels.Keys;
      while ids != {}
        invariant ids <= channels.Keys
        invariant Framed() && channels == old(channels) && queued == old(queued)
        decreases ids
      {
        var id :| id in ids;
        ids := ids - {id};
        FlushIsIdle(channels[id]);
        var _, _ := FlushChannel(id);
        assert channels == old(channels);
      }
    }

    /** CHANNEL_OPEN_CONFIRMATION: `false` where the source reports an unknown channel. */
    method Confirm(id: u32, sender: u32, window: u32, maxPacket: u32) returns (known: bool)
      requires Valid()
      modifies this`channels, this`write, this`queued
      ensures Framed() && queued == old(queued) && known == (id in old(channels))
      ensures known ==>
                && id in channels
                && var d := channels[id];
                && d.confirmed && d.recipientChannel == sender && d.recipientWindow == window && d.recipientMaxPacket == maxPacket
                && d.senderWindow == old(channels)[id].senderWindow && d.pending == old(channels)[id].pending
      ensures Valid() <==> (known ==> maxPacket > 0 && (old(channels)[id].pending == [] || window == 0))
      ensures channels == if known then old(channels)[id := Channel.Confirm(old(channels)[id], sender, window, maxPacket)] else old(channels)
    {
      known := id in channels;
      if known {
        var c := channels[id];
        channels := channels[id := c.(recipientChannel := sender, recipientWindow := window,
                                      recipientMaxPacket := maxPacket, confirmed := true)];
        ConfirmationKeepsSoundness(c, sender, window, maxPacket);
        if Sound(channels[id]) {
          OneMoreSound(old(channels), id, channels[id]);
        }
        assert id in channels;
      }
    }

    /** A fresh channel, not confirmed and with a shut window, under the first
        free number after the last one given out, wrapping around. The search
        ends because not every number is taken. */
    method NewChannel(window: u32) returns (id: u32)
      requires Valid() && |channels| < U32_BOUND
      modifies this`channels, this`lastChannelId
      ensures Valid() && lastChannelId == id
      ensures id !in old(channels)
      ensures forall n: u32 :: Gap(old(lastChannelId), n) < Gap(old(lastChannelId), id) ==> n in old(channels)
      ensures channels == old(channels)[id := ChannelParams(0, 0, window, 0, false, [], false, false)]
    {
      ghost var start := lastChannelId;
      ghost var tried: set<u32> := {};
      ghost var steps := 0;
      lastChannelId := (lastChannelId + 1) % U32_BOUND;
      while lastChannelId in channels
        invariant channels == old(channels)
        invariant steps == |tried| && tried <= channels.Keys
        invariant lastChannelId == Nth(start, steps)
        invariant Tried(start, steps, tried)
        decreases |channels| - steps
      {
        SubsetSize(tried, channels.Keys);
        OneMoreTried(start, steps, tried);
        ghost var more := tried + {lastChannelId};
        SubsetSize(more, channels.Keys);
        tried := more;
        steps := steps + 1;
        lastChannelId := (lastChannelId + 1) % U32_BOUND;
      }
      SubsetSize(tried, channels.Keys);
      NthIsAtGap(start, steps);
      id := lastChannelId;
      channels := channels[id := ChannelParams(0, 0, window, 0, false, [], false, false)];
    }

    /** Hand every queued packet to the writer, then ask whether to rekey. */
    method Flush(writer: PacketWriter, skipExchange: bool, writeLimit: nat, overTime: bool) returns (rekey: bool)
      requires Framed()
      modifies this`write, this`writeCursor, this`queued, this`rekeyWanted, writer
      ensures Framed() && queued == [] && write == [] && writeCursor == 0
      ensures writer.sent == old(writer.sent) + old(queued)
      ensures writer.bytes == old(writer.bytes) + TotalLength(old(queued))
      ensures rekey == (!skipExchange && (old(rekeyWanted) || writer.bytes >= writeLimit || overTime))
      ensures rekeyWanted == (skipExchange && old(rekeyWanted))
    {
      ghost var handed: seq<seq<byte>> := [];
      while writeCursor < |write|
        invariant Framed() && write == old(write) && rekeyWanted == old(rekeyWanted)
        invariant handed + queued == old(queued)
        invariant writer.sent == old(writer.sent) + handed
        invariant writer.bytes + TotalLength(queued) == old(writer.bytes) + TotalLength(old(queued))
        decreases |write| - writeCursor
      {
        ghost var head, rest := queued[0], queued[1..];
        FirstFrame(write, writeCursor, queued);
        var len := DecodeU32(write[writeCursor..]);
        var toWrite := write[writeCursor + 4..writeCursor + 4 + len];
        writer.PacketRaw(toWrite);
        writeCursor := writeCursor + 4 + len;
        assert queued == [head] + rest;
        Regroup(handed, [head], rest);
        Regroup(old(writer.sent), handed, [head]);
        handed, queued := handed + [head], rest;
      }
      NoFrames(queued);
      assert handed + [] == handed;
      writeCursor := 0;
      write := [];
      if skipExchange {
        return false;
      }
      rekey := rekeyWanted || writer.bytes >= writeLimit || overTime;
      rekeyWanted := false;
    }
  }

  lemma {:induction false} SubsetSize<T>(a: set<T>, b: set<T>)
    requires a <= b
    ensures |a| <= |b|
    ensures |a| == |b| ==> a == b
  {
    if a != {} {
      var x :| x in a;
      SubsetSize(a - {x}, b - {x});
    }
  }

  /** The number tried after `k` others, counting on from `start` and wrapping. */
  function Nth(start: u32, k: nat): u32 {
    (start + k + 1) % U32_BOUND
  }

  lemma NthSteps(start: u32, k: nat)
    ensures Nth(start, k + 1) == (Nth(start, k) + 1) % U32_BOUND
  {
  }

  /** How many numbers lie between `start` and `n`, counting on and wrapping. */
  function Gap(start: u32, n: u32): nat {
    (n - start - 1) % U32_BOUND
  }

  lemma NthIsAtGap(start: u32, k: nat)
    requires k < U32_BOUND
    ensures Gap(start, Nth(start, k)) == k
    ensures forall n: u32 :: Gap(start, n) == k ==> n == Nth(start, k)
  {
  }

  /** These are the first `steps` numbers after `start`. */
  ghost predicate Tried(start: u32, steps: nat, tried: set<u32>) {
    forall n: u32 :: n in tried <==> Gap(start, n) < steps
  }

  lemma OneMoreTried(start: u32, steps: nat, tried: set<u32>)
    requires Tried(start, steps, tried) && steps < U32_BOUND
    ensures Nth(start, steps) !in tried && Tried(start, steps + 1, tried + {Nth(start, steps)})
    ensures Nth(start, steps + 1) == (Nth(start, steps) + 1) % U32_BOUND
  {
    NthIsAtGap(start, steps);
    NthSteps(start, steps);
  }

  /** The channel table after an operation on channel `id`. */
  function Updated(channels: map<u32, ChannelParams>, id: u32, ch: Option<ChannelParams>): map<u32, ChannelParams> {
    match ch
    case Some(c) => channels[id := c]
    case None => channels - {id}
  }

  lemma UpdatedTwice(channels: map<u32, ChannelParams>, id: u32, d: ChannelParams, ch: Option<ChannelParams>)
    ensures Updated(channels[id := d], id, ch) == Updated(channels, id, ch)
    ensures channels[id := d] - {id} == channels - {id}
  {
  }

  /** In every reachable state of two endpoints the next grant can be handled:
      no offset wraps around when the queue is flushed under the raised window. */
  lemma GrantsAreSendable(s: Flow.System, moves: seq<Flow.Move>, atA: bool)
    requires Flow.Start(s)
    ensures var r := Flow.Reach(s, moves);
            var me, wire := Flow.Me(r, atA), Flow.InFlight(r, atA);
            me.ch.Some? && wire != [] && wire[0].WindowAdjust? && Queueable(me.ch.value) ==>
              Sendable(me.ch.value.(recipientWindow := Raise(me.ch.value.recipientWindow, wire[0].amount)))
  {
    var r := Flow.Reach(s, moves);
    var me, wire := Flow.Me(r, atA), Flow.InFlight(r, atA);
    if me.ch.Some? && wire != [] && wire[0].WindowAdjust? && Queueable(me.ch.value) {
      Flow.NextMessageIsExpected(s, moves, atA);
      Flow.Reached(s, moves);
      assert Flow.Local(me);
      SumsFit(me.ch.value.(recipientWindow := Raise(me.ch.value.recipientWindow, wire[0].amount)));
    }
  }
}
