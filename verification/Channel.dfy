/** One channel of a session: the window counters, the queue of data that did
    not fit, and what each operation makes of them. The functions here are the
    specification of the methods of class `Encrypted`; the lemmas prove what
    they promise together. */
module Channel {
  import opened Wire

  /** `None` for CHANNEL_DATA, `Some(code)` for CHANNEL_EXTENDED_DATA. */
  type Tag = Option<u32>

  /** A buffer waiting for window; its bytes before `from` are already sent. */
  datatype Pending = Pending(buf: seq<byte>, tag: Tag, from: nat)

  datatype ChannelParams = ChannelParams(
    recipientChannel: u32,
    recipientWindow: u32,
    senderWindow: u32,
    recipientMaxPacket: u32,
    confirmed: bool,
    pending: seq<Pending>,
    pendingEof: bool,
    pendingClose: bool
  )

  datatype Msg =
    | OpenConfirmation(senderChannel: u32, window: u32, maxPacket: u32)
    | Data(tag: Tag, bytes: seq<byte>)
    | WindowAdjust(amount: u32)
    | Eof
    | Close

  /** What an operation leaves behind: the channel, if it is still open, and
      the messages it queued for the peer. */
  datatype Outcome = Outcome(ch: Option<ChannelParams>, out: seq<Msg>)

  /** The byte stream of a channel: every byte with the stream it belongs to. */
  type Tagged = (Tag, byte)

  // ---------------------------------------------------------------------
  // Operations
  // ---------------------------------------------------------------------

  /** `buf` cut into packets no larger than the peer accepts. */
  function Packets(tag: Tag, buf: seq<byte>, max: nat): seq<Msg>
    requires max > 0
    decreases |buf|
  {
    if buf == [] then [] else
      var off := Min(|buf|, max);
      [Data(tag, buf[..off])] + Packets(tag, buf[off..], max)
  }

  /** How many bytes of `buf[from..]` fit into the peer's window. */
  function Fitting(window: u32, buf: seq<byte>, from: nat): (n: nat)
    ensures n <= window
    ensures from <= |buf| ==> from + n <= |buf|
  {
    if from >= |buf| then 0 else Min(|buf| - from, window)
  }

  function Submit(c: ChannelParams, tag: Tag, buf: seq<byte>, rekeying: bool): (ChannelParams, seq<Msg>)
    requires c.recipientMaxPacket > 0
  {
    if c.pending != [] && rekeying then
      (c.(pending := c.pending + [Pending(buf, tag, 0)]), [])
    else
      var n := Fitting(c.recipientWindow, buf, 0);
      var sent := c.(recipientWindow := c.recipientWindow - n);
      (if n < |buf| then sent.(pending := c.pending + [Pending(buf, tag, n)]) else sent,
       Packets(tag, buf[..n], c.recipientMaxPacket))
  }

  ghost predicate Offsets(pending: seq<Pending>) {
    forall i :: 0 <= i < |pending| ==> pending[i].from <= |pending[i].buf|
  }

  /** Send what fits of the buffer at the head of the queue; a rest stays at the head. */
  function SendHead(c: ChannelParams): (ChannelParams, seq<Msg>)
    requires c.pending != [] && c.recipientMaxPacket > 0 && Offsets(c.pending)
  {
    var Pending(buf, tag, from) := c.pending[0];
    var n := Fitting(c.recipientWindow, buf, from);
    (c.(recipientWindow := c.recipientWindow - n,
        pending := (if from + n < |buf| then [Pending(buf, tag, from + n)] else []) + c.pending[1..]),
     Packets(tag, buf[from..from + n], c.recipientMaxPacket))
  }

  /** Send heads until one has a rest or none is left. */
  function FlushChannel(c: ChannelParams): (ChannelParams, seq<Msg>)
    requires c.pending != [] ==> c.recipientMaxPacket > 0
    requires Offsets(c.pending)
    decreases |c.pending|
  {
    if c.pending == [] then (c, []) else
      var (d, packets) := SendHead(c);
      if |d.pending| == |c.pending| then (d, packets) else
        assert d.pending == c.pending[1..];
        var (rest, more) := FlushChannel(d);
        (rest, packets + more)
  }

  function EofChannel(c: ChannelParams): Outcome {
    if c.pending != [] then Outcome(Some(c.(pendingEof := true)), []) else Outcome(Some(c), [Eof])
  }

  function CloseChannel(c: ChannelParams): Outcome {
    if c.pending != [] then Outcome(Some(c.(pendingClose := true)), []) else Outcome(None, [Close])
  }

  /** The deferred messages of a channel whose queue has just been emptied. */
  function Farewells(c: ChannelParams): seq<Msg> {
    (if c.pendingEof then [Eof] else []) + (if c.pendingClose then [Close] else [])
  }

  /** Send what fits; once nothing is pending, send the deferred EOF and CLOSE. */
  function FlushPending(c: ChannelParams): Outcome
    requires c.pending != [] ==> c.recipientMaxPacket > 0
    requires Offsets(c.pending)
  {
    var (d, out) := FlushChannel(c);
    if d.pending != [] then Outcome(Some(d), out) else
      Outcome(if d.pendingClose then None else Some(d), out + Farewells(d))
  }

  /** The saturating addition of the WINDOW_ADJUST handlers. */
  function Raise(window: u32, amount: u32): u32 {
    Min(window + amount, U32_BOUND - 1)
  }

  function WindowAdjusted(c: ChannelParams, amount: u32): Outcome
    requires c.pending != [] ==> c.recipientMaxPacket > 0
    requires Offsets(c.pending)
  {
    FlushPending(c.(recipientWindow := Raise(c.recipientWindow, amount)))
  }

  /** Receipt of `len` bytes of data when the receiver aims at `target`. */
  function Received(c: ChannelParams, len: nat, target: u32): (ChannelParams, seq<Msg>) {
    var left := if len <= c.senderWindow then c.senderWindow - len else c.senderWindow;
    if left < target / 2 then
      (c.(senderWindow := target), [WindowAdjust(target - left)])
    else
      (c.(senderWindow := left), [])
  }

  function Confirm(c: ChannelParams, senderChannel: u32, window: u32, maxPacket: u32): ChannelParams {
    c.(recipientChannel := senderChannel, recipientWindow := window, recipientMaxPacket := maxPacket, confirmed := true)
  }

  // ---------------------------------------------------------------------
  // The invariant that order rests on
  // ---------------------------------------------------------------------

  /** Data is queued only while the window is shut, and the queue's head always
      has bytes left to send; a deferred CLOSE is never without queued data. */
  ghost predicate Sound(c: ChannelParams) {
    && (c.confirmed ==> c.recipientMaxPacket > 0)
    && (c.pending != [] ==> c.confirmed && c.recipientWindow == 0 && c.pending[0].from < |c.pending[0].buf|)
    && Offsets(c.pending)
    && (c.pendingClose ==> c.pending != [])
  }

  ghost predicate SoundIfOpen(c: Option<ChannelParams>) {
    c.Some? ==> Sound(c.value)
  }

  // ---------------------------------------------------------------------
  // Streams
  // ---------------------------------------------------------------------

  ghost function TagAll(tag: Tag, buf: seq<byte>): (r: seq<Tagged>)
    ensures |r| == |buf|
  {
    if buf == [] then [] else [(tag, buf[0])] + TagAll(tag, buf[1..])
  }

  ghost function Bytes(m: Msg): seq<Tagged> {
    if m.Data? then TagAll(m.tag, m.bytes) else []
  }

  ghost function Grant(m: Msg): nat {
    match m
    case WindowAdjust(amount) => amount
    case OpenConfirmation(_, window, _) => window
    case _ => 0
  }

  /** The bytes carried by a list of messages, in order. */
  ghost function Stream(msgs: seq<Msg>): seq<Tagged> {
    if msgs == [] then [] else Bytes(msgs[0]) + Stream(msgs[1..])
  }

  /** The window granted by a list of messages. */
  ghost function Grants(msgs: seq<Msg>): nat {
    if msgs == [] then 0 else Grant(msgs[0]) + Grants(msgs[1..])
  }

  /** The bytes still waiting in a queue, in order. */
  ghost function Waiting(pending: seq<Pending>): seq<Tagged>
    requires Offsets(pending)
  {
    if pending == [] then [] else
      TagAll(pending[0].tag, pending[0].buf[pending[0].from..]) + Waiting(pending[1..])
  }

  lemma {:induction false} GrantsConcat(a: seq<Msg>, b: seq<Msg>)
    ensures Grants(a + b) == Grants(a) + Grants(b)
  {
    if a == [] {
      assert a + b == b;
    } else {
      GrantsConcat(a[1..], b);
      assert (a + b)[1..] == a[1..] + b;
    }
  }

  lemma {:induction false} BytesConcat(a: seq<Msg>, b: seq<Msg>)
    ensures Stream(a + b) == Stream(a) + Stream(b)
  {
    if a == [] {
      assert a + b == b;
    } else {
      BytesConcat(a[1..], b);
      assert (a + b)[1..] == a[1..] + b;
      Regroup(Bytes(a[0]), Stream(a[1..]), Stream(b));
    }
  }

  lemma StreamConcat(a: seq<Msg>, b: seq<Msg>)
    ensures Stream(a + b) == Stream(a) + Stream(b)
    ensures Grants(a + b) == Grants(a) + Grants(b)
  {
    BytesConcat(a, b);
    GrantsConcat(a, b);
  }

  lemma {:induction false} WaitingConcat(a: seq<Pending>, b: seq<Pending>)
    requires Offsets(a) && Offsets(b)
    ensures Offsets(a + b)
    ensures Waiting(a + b) == Waiting(a) + Waiting(b)
  {
    if a == [] {
      assert a + b == b;
    } else {
      assert forall i :: 0 <= i < |a[1..]| ==> a[1..][i] == a[i + 1];
      WaitingConcat(a[1..], b);
      assert (a + b)[1..] == a[1..] + b;
      assert Offsets(a + b);
      Regroup(TagAll(a[0].tag, a[0].buf[a[0].from..]), Waiting(a[1..]), Waiting(b));
    }
  }

  lemma {:induction false} TagAllConcat(tag: Tag, a: seq<byte>, b: seq<byte>)
    ensures TagAll(tag, a + b) == TagAll(tag, a) + TagAll(tag, b)
  {
    if a == [] {
      assert a + b == b;
    } else {
      TagAllConcat(tag, a[1..], b);
      assert (a + b)[1..] == a[1..] + b;
      Regroup([(tag, a[0])], TagAll(tag, a[1..]), TagAll(tag, b));
    }
  }

  /** Cutting into packets loses nothing, reorders nothing, makes no empty
      packet and none above the peer's maximum. */
  lemma {:induction false} PacketsCarry(tag: Tag, buf: seq<byte>, max: nat)
    requires max > 0
    ensures Stream(Packets(tag, buf, max)) == TagAll(tag, buf)
    ensures Grants(Packets(tag, buf, max)) == 0
    ensures Acceptable(Packets(tag, buf, max), max)
    decreases |buf|
  {
    if buf != [] {
      var off := Min(|buf|, max);
      PacketsCarry(tag, buf[off..], max);
      var rest := Packets(tag, buf[off..], max);
      assert Packets(tag, buf, max) == [Data(tag, buf[..off])] + rest;
      assert ([Data(tag, buf[..off])] + rest)[1..] == rest;
      CutTags(tag, buf, off);
    }
  }

  /** And no packet before the last is smaller than that. */
  lemma {:induction false} PacketsAreFull(tag: Tag, buf: seq<byte>, max: nat, i: nat)
    requires max > 0 && i + 1 < |Packets(tag, buf, max)|
    ensures var m := Packets(tag, buf, max)[i]; m.Data? && |m.bytes| == max
    decreases |buf|
  {
    var off := Min(|buf|, max);
    var rest := Packets(tag, buf[off..], max);
    assert Packets(tag, buf, max) == [Data(tag, buf[..off])] + rest;
    if i > 0 {
      PacketsAreFull(tag, buf[off..], max, i - 1);
    }
  }

  /** A raised window is the sum, if that is a 32-bit number, and the largest one otherwise. */
  lemma RaiseSaturates(window: u32, amount: u32)
    ensures Raise(window, amount) >= window && Raise(window, amount) >= amount
    ensures Raise(window, amount) == window + amount <==> window + amount <= 0xFFFF_FFFF
    ensures Raise(window, amount) == 0xFFFF_FFFF <==> window + amount >= 0xFFFF_FFFF
  {
  }

  // ---------------------------------------------------------------------
  // What the operations promise
  // ---------------------------------------------------------------------

  ghost predicate Acceptable(out: seq<Msg>, max: nat) {
    forall i :: 0 <= i < |out| ==> out[i].Data? && 0 < |out[i].bytes| <= max
  }

  /** `out` was paid for by `c`'s window: only non-empty data packets the peer
      accepts, as many bytes as the window lost, nothing else changed but the queue. */
  ghost predicate PaidFor(c: ChannelParams, d: ChannelParams, out: seq<Msg>) {
    && d == c.(recipientWindow := d.recipientWindow, pending := d.pending)
    && d.recipientWindow + |Stream(out)| == c.recipientWindow
    && Grants(out) == 0
    && Acceptable(out, c.recipientMaxPacket)
  }

  lemma PaidForTwice(c: ChannelParams, d: ChannelParams, e: ChannelParams, out: seq<Msg>, more: seq<Msg>)
    requires PaidFor(c, d, out) && PaidFor(d, e, more)
    ensures PaidFor(c, e, out + more)
  {
    StreamConcat(out, more);
  }

  /** No queued buffer is longer than `max`. */
  ghost predicate Bounded(pending: seq<Pending>, max: nat) {
    forall i :: 0 <= i < |pending| ==> |pending[i].buf| <= max
  }

  /** `data` and `extended_data`, whether or not a rekey is going on: what is
      emitted followed by what waits grows by exactly the submitted bytes. */
  lemma SubmitKeepsOrder(c: ChannelParams, tag: Tag, buf: seq<byte>, rekeying: bool)
    requires Sound(c) && c.confirmed
    ensures var (d, out) := Submit(c, tag, buf, rekeying);
            && Sound(d)
            && PaidFor(c, d, out)
            && Stream(out) + Waiting(d.pending) == Waiting(c.pending) + TagAll(tag, buf)
  {
    if c.pending == [] {
      SubmitToEmpty(c, tag, buf, rekeying);
    } else {
      SubmitBehind(c, tag, buf, rekeying);
    }
  }

  lemma SubmitKeepsQueue(c: ChannelParams, tag: Tag, buf: seq<byte>, rekeying: bool, max: nat)
    requires c.recipientMaxPacket > 0 && Bounded(c.pending, max) && |buf| <= max
    ensures var d := Submit(c, tag, buf, rekeying).0;
            Bounded(d.pending, max) && (c.pending != [] ==> d.pending != [])
  {
  }

  lemma SubmitToEmpty(c: ChannelParams, tag: Tag, buf: seq<byte>, rekeying: bool)
    requires Sound(c) && c.confirmed && c.pending == []
    ensures var (d, out) := Submit(c, tag, buf, rekeying);
            && Sound(d)
            && PaidFor(c, d, out)
            && Stream(out) + Waiting(d.pending) == TagAll(tag, buf)
  {
    var n := Fitting(c.recipientWindow, buf, 0);
    var out := Packets(tag, buf[..n], c.recipientMaxPacket);
    PacketsCarry(tag, buf[..n], c.recipientMaxPacket);
    CutTags(tag, buf, n);
    if n < |buf| {
      var rest := [Pending(buf, tag, n)];
      WaitingOne(rest[0]);
      assert c.pending + rest == rest;
      assert Submit(c, tag, buf, rekeying) == (c.(recipientWindow := c.recipientWindow - n, pending := rest), out);
    } else {
      assert TagAll(tag, buf[n..]) == [] && Waiting(c.pending) == [];
      assert Submit(c, tag, buf, rekeying) == (c.(recipientWindow := c.recipientWindow - n), out);
    }
  }

  lemma SubmitBehind(c: ChannelParams, tag: Tag, buf: seq<byte>, rekeying: bool)
    requires Sound(c) && c.pending != []
    ensures var (d, out) := Submit(c, tag, buf, rekeying);
            && Sound(d)
            && d.recipientWindow == 0 && out == [] && d == c.(pending := d.pending)
            && Waiting(d.pending) == Waiting(c.pending) + TagAll(tag, buf)
  {
    assert buf[..0] == [] && buf[0..] == buf;
    WaitingConcat(c.pending, [Pending(buf, tag, 0)]);
    WaitingOne(Pending(buf, tag, 0));
  }

  lemma WaitingOne(p: Pending)
    requires p.from <= |p.buf|
    ensures Waiting([p]) == TagAll(p.tag, p.buf[p.from..])
  {
    assert Waiting([p]) == TagAll(p.tag, p.buf[p.from..]) + Waiting([p][1..]);
  }

  lemma CutTags(tag: Tag, buf: seq<byte>, n: nat)
    requires n <= |buf|
    ensures TagAll(tag, buf) == TagAll(tag, buf[..n]) + TagAll(tag, buf[n..])
  {
    TagAllConcat(tag, buf[..n], buf[n..]);
    assert buf[..n] + buf[n..] == buf;
  }

  lemma SplitTags(tag: Tag, buf: seq<byte>, from: nat, n: nat)
    requires from + n <= |buf|
    ensures TagAll(tag, buf[from..]) == TagAll(tag, buf[from..from + n]) + TagAll(tag, buf[from + n..])
  {
    CutTags(tag, buf[from..], n);
    assert buf[from..][..n] == buf[from..from + n] && buf[from..][n..] == buf[from + n..];
  }

  lemma SendHeadPays(c: ChannelParams)
    requires c.pending != [] && c.recipientMaxPacket > 0 && Offsets(c.pending)
    ensures var (d, out) := SendHead(c);
            && Offsets(d.pending)
            && PaidFor(c, d, out)
            && (|d.pending| == |c.pending| ==> d.recipientWindow == 0 && d.pending[0].from < |d.pending[0].buf|)
  {
    var Pending(buf, tag, from) := c.pending[0];
    var n := Fitting(c.recipientWindow, buf, from);
    PacketsCarry(tag, buf[from..from + n], c.recipientMaxPacket);
  }

  lemma SendHeadKeepsOrder(c: ChannelParams)
    requires c.pending != [] && c.recipientMaxPacket > 0 && Offsets(c.pending)
    ensures var (d, out) := SendHead(c);
            && Offsets(d.pending)
            && Stream(out) + Waiting(d.pending) == Waiting(c.pending)
  {
    SendHeadPays(c);
    var Pending(buf, tag, from) := c.pending[0];
    var n := Fitting(c.recipientWindow, buf, from);
    var (d, out) := SendHead(c);
    var tail := c.pending[1..];
    var rest := if from + n < |buf| then [Pending(buf, tag, from + n)] else [];
    assert Offsets(tail) && Offsets(rest);
    assert Stream(out) == TagAll(tag, buf[from..from + n]) by {
      PacketsCarry(tag, buf[from..from + n], c.recipientMaxPacket);
    }
    assert Waiting(rest) == TagAll(tag, buf[from + n..]) by {
      if rest != [] {
        WaitingOne(rest[0]);
      }
    }
    assert Waiting(d.pending) == Waiting(rest) + Waiting(tail) by {
      WaitingConcat(rest, tail);
    }
    assert Waiting(c.pending) == TagAll(tag, buf[from..]) + Waiting(tail);
    SplitTags(tag, buf, from, n);
    Regroup(Stream(out), Waiting(rest), Waiting(tail));
  }

  /** Flushing pays for what it sends, sends a prefix of the waiting bytes,
      leaves the rest waiting, and stops only with the queue empty or the
      window shut. */
  lemma {:induction false} FlushKeepsOrder(c: ChannelParams)
    requires Offsets(c.pending) && (c.pending != [] ==> c.recipientMaxPacket > 0)
    ensures var (d, out) := FlushChannel(c);
            && Offsets(d.pending)
            && PaidFor(c, d, out)
            && (d.pending != [] ==> d.recipientWindow == 0 && d.pending[0].from < |d.pending[0].buf|)
            && Stream(out) + Waiting(d.pending) == Waiting(c.pending)
    decreases |c.pending|
  {
    if c.pending != [] {
      var (d, out) := SendHead(c);
      SendHeadPays(c);
      SendHeadKeepsOrder(c);
      if |d.pending| < |c.pending| {
        FlushKeepsOrder(d);
        var (e, more) := FlushChannel(d);
        PaidForTwice(c, d, e, out, more);
        StreamConcat(out, more);
        Regroup(Stream(out), Stream(more), Waiting(e.pending));
      }
    }
  }

  /** In every sound state flushing without new window changes nothing, so the
      flush at the end of a rekey, whose results are dropped, is harmless. */
  lemma FlushIsIdle(c: ChannelParams)
    requires Sound(c)
    ensures FlushChannel(c) == (c, [])
  {
    if c.pending != [] {
      var Pending(buf, tag, from) := c.pending[0];
      assert buf[from..from] == [];
      assert [Pending(buf, tag, from)] + c.pending[1..] == c.pending;
    }
  }

  ghost function WaitingIn(c: Option<ChannelParams>): seq<Tagged>
    requires c.Some? ==> Offsets(c.value.pending)
  {
    if c.Some? then Waiting(c.value.pending) else []
  }

  lemma FarewellsAreSilent(c: ChannelParams, k: nat)
    requires k <= |Farewells(c)|
    ensures Stream(Farewells(c)[..k]) == [] && Grants(Farewells(c)[..k]) == 0
  {
    StreamConcat(if c.pendingEof then [Eof] else [], if c.pendingClose then [Close] else []);
    assert k == 1 ==> Farewells(c)[..k] == [Farewells(c)[0]];
    assert k == |Farewells(c)| ==> Farewells(c)[..k] == Farewells(c);
  }

  /** A flush that empties the queue has sent every waiting byte before any farewell. */
  lemma DrainedFlush(c: ChannelParams)
    requires Offsets(c.pending) && (c.pending != [] ==> c.recipientMaxPacket > 0)
    requires FlushChannel(c).0.pending == []
    ensures var (d, data) := FlushChannel(c);
            && PaidFor(c, d, data)
            && FlushPending(c).out == data + Farewells(d)
            && Stream(FlushPending(c).out) == Stream(data) == Waiting(c.pending)
            && Grants(FlushPending(c).out) == 0
  {
    FlushKeepsOrder(c);
    var (d, data) := FlushChannel(c);
    FarewellsAreSilent(d, |Farewells(d)|);
    assert Farewells(d)[..|Farewells(d)|] == Farewells(d);
    StreamConcat(data, Farewells(d));
    assert Waiting(d.pending) == [];
  }

  lemma FlushPendingKeepsOrder(c: ChannelParams)
    requires Sound(c.(recipientWindow := 0))
    ensures var r := FlushPending(c);
            && SoundIfOpen(r.ch)
            && Stream(r.out) + WaitingIn(r.ch) == Waiting(c.pending)
            && Grants(r.out) == 0
            && (r.ch.Some? ==>
                  && r.ch.value == c.(recipientWindow := r.ch.value.recipientWindow, pending := r.ch.value.pending)
                  && r.ch.value.recipientWindow + |Stream(r.out)| == c.recipientWindow)
            && (r.ch.None? ==> c.pendingClose && |Stream(r.out)| <= c.recipientWindow)
  {
    if FlushChannel(c).0.pending == [] {
      DrainedFlush(c);
    } else {
      FlushKeepsOrder(c);
    }
  }

  lemma {:induction false} FlushDrains(c: ChannelParams)
    requires Offsets(c.pending) && (c.pending != [] ==> c.recipientMaxPacket > 0)
    ensures FlushChannel(c).0.pending == [] <==> |Waiting(c.pending)| <= c.recipientWindow
  {
    FlushKeepsOrder(c);
    var d := FlushChannel(c).0;
    if d.pending != [] {
      assert |TagAll(d.pending[0].tag, d.pending[0].buf[d.pending[0].from..])| > 0;
    }
  }

  /** A window adjustment restores the invariant, keeps the order and spends
      at most the window; the channel is closed in this step exactly when a
      CLOSE was deferred and the raised window admits every waiting byte. */
  lemma AdjustKeepsOrder(c: ChannelParams, amount: u32)
    requires Sound(c)
    ensures var r := WindowAdjusted(c, amount);
            && SoundIfOpen(r.ch)
            && Stream(r.out) + WaitingIn(r.ch) == Waiting(c.pending)
            && Grants(r.out) == 0
            && (r.ch.Some? ==>
                  && r.ch.value == c.(recipientWindow := r.ch.value.recipientWindow, pending := r.ch.value.pending)
                  && r.ch.value.recipientWindow + |Stream(r.out)| == Raise(c.recipientWindow, amount))
            && (r.ch.None? <==> c.pendingClose && |Waiting(c.pending)| <= Raise(c.recipientWindow, amount))
  {
    var e := c.(recipientWindow := Raise(c.recipientWindow, amount));
    FlushDrains(e);
    FlushPendingKeepsOrder(e);
    assert e.pending == c.pending && e.pendingClose == c.pendingClose;
    FlushKeepsFlags(e);
  }

  lemma {:induction false} FlushKeepsBuffers(c: ChannelParams, max: nat)
    requires Offsets(c.pending) && (c.pending != [] ==> c.recipientMaxPacket > 0)
    requires Bounded(c.pending, max)
    ensures Bounded(FlushChannel(c).0.pending, max)
    decreases |c.pending|
  {
    if c.pending != [] {
      var d := SendHead(c).0;
      SendHeadPays(c);
      if |d.pending| < |c.pending| {
        FlushKeepsBuffers(d, max);
      }
    }
  }

  lemma FlushKeepsFlags(c: ChannelParams)
    requires Offsets(c.pending) && (c.pending != [] ==> c.recipientMaxPacket > 0)
    ensures FlushChannel(c).0.pendingClose == c.pendingClose && FlushChannel(c).0.pendingEof == c.pendingEof
  {
    FlushKeepsOrder(c);
  }

  // ---------------------------------------------------------------------
  // EOF and CLOSE
  // ---------------------------------------------------------------------

  predicate IsFarewell(m: Msg) {
    m.Eof? || m.Close?
  }

  /** EOF and CLOSE appear in `out` only once no byte waits and after the last
      data packet; CLOSE only as the last message, with the channel gone. */
  ghost predicate Tidy(ch: Option<ChannelParams>, out: seq<Msg>)
    requires SoundIfOpen(ch)
  {
    && (forall i :: 0 <= i < |out| && IsFarewell(out[i]) ==> WaitingIn(ch) == [] && Stream(out[..i]) == Stream(out))
    && (forall i :: 0 <= i < |out| && out[i].Close? ==> ch.None? && i == |out| - 1)
    && (forall i :: 0 <= i < |out| ==> !out[i].OpenConfirmation?)
  }

  lemma DataIsTidy(ch: ChannelParams, out: seq<Msg>, max: nat)
    requires Sound(ch) && Acceptable(out, max)
    ensures Tidy(Some(ch), out)
  {
  }

  lemma FarewellsComeLast(c: ChannelParams)
    requires Sound(c.(recipientWindow := 0))
    ensures SoundIfOpen(FlushPending(c).ch) && Tidy(FlushPending(c).ch, FlushPending(c).out)
  {
    FlushPendingKeepsOrder(c);
    var (d, data) := FlushChannel(c);
    if d.pending == [] {
      DrainedFlush(c);
      FarewellsFollow(c, d, data);
    } else {
      FlushKeepsOrder(c);
      DataIsTidy(d, data, c.recipientMaxPacket);
    }
  }

  lemma FarewellsFollow(c: ChannelParams, d: ChannelParams, data: seq<Msg>)
    requires PaidFor(c, d, data)
    ensures var out := data + Farewells(d);
            && (forall i :: 0 <= i < |out| && IsFarewell(out[i]) ==> Stream(out[..i]) == Stream(out))
            && (forall i :: 0 <= i < |out| && out[i].Close? ==> d.pendingClose && i == |out| - 1)
            && (forall i :: 0 <= i < |out| ==> !out[i].OpenConfirmation?)
  {
    var end := Farewells(d);
    var out := data + end;
    assert forall i :: 0 <= i < |data| ==> out[i] == data[i] && !IsFarewell(data[i]);
    forall i | 0 <= i < |out| && IsFarewell(out[i])
      ensures Stream(out[..i]) == Stream(out)
    {
      var k := i - |data|;
      assert out[..i] == data + end[..k];
      StreamConcat(data, end[..k]);
      StreamConcat(data, end);
      FarewellsAreSilent(d, k);
      FarewellsAreSilent(d, |end|);
      assert end[..|end|] == end;
    }
  }

  /** A window adjustment sends EOF exactly when one was ever deferred and the
      raised window admits every waiting byte, however often it was sent before. */
  lemma AdjustSendsEof(c: ChannelParams, amount: u32)
    requires Sound(c)
    ensures Eof in WindowAdjusted(c, amount).out
            <==> c.pendingEof && |Waiting(c.pending)| <= Raise(c.recipientWindow, amount)
  {
    var e := c.(recipientWindow := Raise(c.recipientWindow, amount));
    FlushDrains(e);
    FlushKeepsOrder(e);
    var (d, data) := FlushChannel(e);
    assert Eof !in data;
    if d.pending == [] && c.pendingEof {
      DrainedFlush(e);
      assert Farewells(d)[0] == Eof;
      assert (data + Farewells(d))[|data|] == Eof;
    }
  }

  /** So EOF is not sent at most once: the step that empties the queue sends a
      deferred EOF, and every window adjustment after it sends another. */
  lemma DeferredEofRepeats(c: ChannelParams, amount: u32, again: u32)
    requires Sound(c) && c.pending != [] && !c.pendingClose
    requires |Waiting(c.pending)| <= amount
    ensures var first := WindowAdjusted(EofChannel(c).ch.value, amount);
            && Eof in first.out && first.ch.Some? && Sound(first.ch.value)
            && Eof in WindowAdjusted(first.ch.value, again).out
  {
    var e := EofChannel(c).ch.value;
    AdjustSendsEof(e, amount);
    AdjustKeepsOrder(e, amount);
    FlushDrains(e.(recipientWindow := Raise(e.recipientWindow, amount)));
    var d := WindowAdjusted(e, amount).ch.value;
    AdjustSendsEof(d, again);
  }

  lemma ConfirmationKeepsSoundness(c: ChannelParams, sender: u32, window: u32, maxPacket: u32)
    requires Sound(c)
    ensures Sound(Confirm(c, sender, window, maxPacket)) <==> maxPacket > 0 && (c.pending == [] || window == 0)
  {
  }

  /** Submitting emits, or leaves waiting behind what waits already, exactly
      the submitted bytes. */
  ghost predicate SubmitsInOrder(c: ChannelParams, tag: Tag, buf: seq<byte>, rekeying: bool)
    requires c.recipientMaxPacket > 0 && Offsets(c.pending)
  {
    var (d, out) := Submit(c, tag, buf, rekeying);
    Offsets(d.pending) && Stream(out) + Waiting(d.pending) == Waiting(c.pending) + TagAll(tag, buf)
  }

  /** A confirmation keeps every later submission in order exactly when no data
      waits or it leaves the window shut; otherwise a single byte overtakes
      what waits. */
  lemma ConfirmationKeepsOrder(c: ChannelParams, sender: u32, window: u32, maxPacket: u32)
    requires Sound(c) && maxPacket > 0
    ensures (forall tag, buf, rekeying :: SubmitsInOrder(Confirm(c, sender, window, maxPacket), tag, buf, rekeying))
            <==> c.pending == [] || window == 0
  {
    var d := Confirm(c, sender, window, maxPacket);
    ConfirmationKeepsSoundness(c, sender, window, maxPacket);
    if c.pending == [] || window == 0 {
      forall tag, buf, rekeying
        ensures SubmitsInOrder(d, tag, buf, rekeying)
      {
        SubmitKeepsOrder(d, tag, buf, rekeying);
      }
    } else {
      ByteOvertakes(d, if c.pending[0].tag == None then Some(1) else None);
    }
  }

  lemma ByteOvertakes(c: ChannelParams, tag: Tag)
    requires Offsets(c.pending) && c.recipientMaxPacket > 0 && c.recipientWindow > 0
    requires c.pending != [] && c.pending[0].from < |c.pending[0].buf| && c.pending[0].tag != tag
    ensures !SubmitsInOrder(c, tag, [0], false)
  {
    var out := Submit(c, tag, [0], false).1;
    assert [0][..1] == [0];
    PacketsCarry(tag, [0], c.recipientMaxPacket);
    assert (Stream(out) + Waiting(c.pending))[0].0 == tag;
    assert (Waiting(c.pending) + TagAll(tag, [0]))[0].0 == c.pending[0].tag;
  }
}
