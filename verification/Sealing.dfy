/** What sealed packets are made of, and what each of them changes: the bytes on
    the wire, the cipher state from one packet to the next, and what a tag
    admits. Nothing here is about reading back what was written. */
module Sealing {
  import opened Wire
  import opened Codec
  import KeyMaterial

  // ---------------------------------------------------------------------
  // Exclusive or
  // ---------------------------------------------------------------------

  /** Bit `i` of a number: whether it is odd once it has been halved that often. */
  predicate Bit(x: nat, i: nat) {
    if i == 0 then x % 2 == 1 else Bit(x / 2, i - 1)
  }

  lemma {:induction false} XorBitsBit(a: nat, b: nat, k: nat, i: nat)
    requires i < k
    ensures Bit(XorBits(a, b, k), i) <==> Bit(a, i) != Bit(b, i)
    decreases k
  {
    var y := XorBits(a / 2, b / 2, k - 1);
    var d := if a % 2 == b % 2 then 0 else 1;
    assert XorBits(a, b, k) == d + 2 * y;
    LowestBit(d, y);
    if i > 0 {
      XorBitsBit(a / 2, b / 2, k - 1, i - 1);
    }
  }

  lemma LowestBit(d: nat, y: nat)
    requires d <= 1
    ensures (d + 2 * y) / 2 == y && (d + 2 * y) % 2 == d
  {
  }

  /** Bit by bit, two bytes give the exclusive or. */
  lemma XorIsBitwise(a: byte, b: byte, i: nat)
    requires i < 8
    ensures Bit(Xor(a, b), i) <==> Bit(a, i) != Bit(b, i)
  {
    XorBitsBit(a, b, 8, i);
  }

  // ---------------------------------------------------------------------
  // Ciphertext
  // ---------------------------------------------------------------------

  /** Each block of the ciphertext encrypts its plaintext mixed with the
      ciphertext block before it, the first one with the chain. */
  lemma {:induction false} CbcBlockAt(mode: Mode, chain: seq<byte>, data: seq<byte>, k: nat)
    requires mode.Cbc? && LawfulBlock(mode) && |chain| == mode.block
    requires WholeBlocks(k, mode.block) && k + mode.block <= |data|
    ensures var x := CbcEncrypt(mode, chain, data);
            x[k..k + mode.block]
            == mode.encrypt(XorAll(data[k..k + mode.block], if k == 0 then chain else x[k - mode.block..k]))
    decreases k
  {
    var n := mode.block;
    var first := mode.encrypt(XorAll(data[..n], chain));
    var y := CbcEncrypt(mode, first, data[n..]);
    assert CbcEncrypt(mode, chain, data) == first + y;
    if k > 0 {
      CbcBlockAt(mode, first, data[n..], k - n);
      Behind(first, y, k, n);
      Shifted(data, k, n);
    }
  }

  /** A block behind the first one, and the block before it. */
  lemma Behind(first: seq<byte>, y: seq<byte>, k: nat, n: nat)
    requires |first| == n && n <= k && k + n <= n + |y| && (k == n || k >= n + n)
    ensures (first + y)[k..k + n] == y[k - n..k]
    ensures (first + y)[k - n..k] == if k == n then first else y[k - n - n..k - n]
  {
  }

  lemma Shifted(data: seq<byte>, k: nat, n: nat)
    requires n <= k && k + n <= |data|
    ensures data[n..][k - n..k] == data[k..k + n]
  {
  }

  /** The chain is the last whole block. */
  lemma {:induction false} LastBlockIs(block: nat, chain: seq<byte>, x: seq<byte>, k: nat)
    requires block > 0 && |chain| == block && WholeBlocks(k, block) && k <= |x| < k + block
    ensures LastBlock(block, chain, x) == if k == 0 then chain else x[k - block..k]
    decreases k
  {
    if k > 0 {
      LastBlockIs(block, x[..block], x[block..], k - block);
      if k > block {
        assert x[block..][k - block - block..k - block] == x[k - block..k];
      }
    }
  }

  /** `x` enciphers `p` from this state on. */
  ghost predicate Enciphers(mode: Mode, s: State, p: seq<byte>, x: seq<byte>)
    requires mode.Cbc? ==> LawfulBlock(mode) && |s.chain| == mode.block
  {
    |x| == |p| &&
    match mode
    case Ctr(keystream) => forall k :: 0 <= k < |p| ==> x[k] == Xor(p[k], keystream(s.position + k))
    case Cbc(n, encrypt, _) =>
      forall k :: 0 <= k <= |p| - n && WholeBlocks(k, n) ==>
        x[k..k + n] == encrypt(XorAll(p[k..k + n], if k == 0 then s.chain else x[k - n..k]))
  }

  lemma EncryptDataEnciphers(mode: Mode, s: State, p: seq<byte>)
    requires mode.Cbc? ==> LawfulBlock(mode) && |s.chain| == mode.block
    ensures Enciphers(mode, s, p, EncryptData(mode, s, p).0)
  {
    if mode.Cbc? {
      forall k: nat | k + mode.block <= |p| && WholeBlocks(k, mode.block)
        ensures var x := EncryptData(mode, s, p).0;
                x[k..k + mode.block]
                == mode.encrypt(XorAll(p[k..k + mode.block], if k == 0 then s.chain else x[k - mode.block..k]))
      {
        CbcBlockAt(mode, s.chain, p, k);
      }
    }
  }

  // ---------------------------------------------------------------------
  // A packet on the wire
  // ---------------------------------------------------------------------

  /** `wire` is the packet with these contents, sealed in this state under this
      sequence number: what is encrypted, with what, and what is authenticated. */
  ghost predicate OnTheWire(c: Cipher, s: State, seqn: u32, length: u32, body: seq<byte>, wire: seq<byte>)
    requires Lawful(c, s)
  {
    var head := EncodeU32(length);
    var n := 4 + |body|;
    |wire| == n + TagLen(c) &&
    match c
    case Clear => wire == head + body
    case Block(mode, mac) =>
      if mac.etm then
        && wire[..4] == head && Enciphers(mode, s, body, wire[4..n])
        && wire[n..] == mac.compute(seqn, wire[..n])
      else
        && Enciphers(mode, s, head + body, wire[..n])
        && wire[n..] == mac.compute(seqn, head + body)
    case Gcm(seal, _) => wire[..4] == head && (wire[4..n], wire[n..]) == seal(s.nonce, head, body)
    case ChaCha(hideLength, _, sealBody, _, tag) =>
      && wire[..4] == hideLength(seqn, head) && wire[4..n] == sealBody(seqn, body)
      && wire[n..] == tag(seqn, wire[..n])
  }

  /** A written packet holds the length, the padding length, the payload and the
      padding, in this order, encrypted and authenticated as its cipher asks. */
  lemma WrittenOnTheWire(c: Cipher, s: State, seqn: u32, payload: seq<byte>, padding: seq<byte>)
    requires Lawful(c, s) && |padding| == PaddingLength(c, |payload|) && PacketLength(c, |payload|) < U32_BOUND
    ensures 4 <= |padding| < 0x100 && PacketLength(c, |payload|) == 1 + |payload| + |padding|
    ensures OnTheWire(c, s, seqn, 1 + |payload| + |padding|, [|padding|] + payload + padding,
                      WritePacket(c, s, seqn, payload, padding).0)
  {
    PaddingAligns(c, |payload|);
    var head, body := EncodeU32(PacketLength(c, |payload|)), [|padding|] + payload + padding;
    var packet := head + body;
    var (x, tag, t) := Seal(c, s, seqn, packet);
    SealShape(c, s, seqn, packet);
    SplitAt(head, body);
    SplitAt(x, tag);
    match c {
      case Clear =>
      case Block(mode, mac) =>
        EncryptDataEnciphers(mode, s, if mac.etm then body else packet);
        if mac.etm {
          SplitAt(head, EncryptData(mode, s, body).0);
          assert (x + tag)[4..|x|] == EncryptData(mode, s, body).0;
          assert (x + tag)[..4] == head;
        }
      case Gcm(seal, _) =>
        assert (x + tag)[4..|x|] == seal(s.nonce, head, body).0;
        assert (x + tag)[..4] == head;
      case ChaCha(hideLength, _, sealBody, _, _) =>
        assert (x + tag)[4..|x|] == sealBody(seqn, body);
        assert (x + tag)[..4] == hideLength(seqn, head);
    }
  }

  /** Padding is the least number from 4 on that aligns the packet and does not
      leave it under 16 bytes. */
  lemma PaddingIsLeast(c: Cipher, len: nat, q: nat)
    requires 4 <= q < PaddingLength(c, len)
    ensures (4 + 1 + len + q - ClearPrefix(c)) % Alignment(c) != 0 || 4 + 1 + len + q < 16
  {
    PaddingAligns(c, len);
    var n, p := 5 + len - ClearPrefix(c), PaddingLength(c, len);
    if Alignment(c) == 16 {
      NotTwice(n + q, p - q, 16);
    } else if p < 12 {
      NotTwice(n + q, p - q, 8);
    }
  }

  lemma NotTwice(a: nat, d: nat, m: nat)
    requires m in {8, 16} && 0 < d < m && (a + d) % m == 0
    ensures a % m != 0
  {
  }

  // ---------------------------------------------------------------------
  // The state after a packet
  // ---------------------------------------------------------------------

  /** How many bytes of a packet go through its block cipher. */
  function Enciphered(c: Cipher, len: nat): nat {
    if c.Block? && c.mac.etm then PacketLength(c, len) else 4 + PacketLength(c, len)
  }

  /** `wire` ends with this block, but for a tag of that length. */
  ghost predicate EndsWith(wire: seq<byte>, tag: nat, block: seq<byte>) {
    tag + |block| <= |wire| && block == wire[|wire| - tag - |block|..|wire| - tag]
  }

  /** `t` follows `s` after one packet: the nonce has counted on by one, the
      keystream is used up as far as the packet goes, the chain is the last
      block of its ciphertext. */
  ghost predicate Follows(c: Cipher, s: State, len: nat, wire: seq<byte>, t: State)
    requires Lawful(c, s)
  {
    && |t.chain| == |s.chain|
    && (c.Gcm? ==> t.nonce == KeyMaterial.Advanced(s.nonce, 1))
    && (c.Block? && c.mode.Ctr? ==> t.position == s.position + Enciphered(c, len))
    && (c.Block? && c.mode.Cbc? ==> EndsWith(wire, c.mac.len, t.chain))
  }

  lemma {:induction false} Sixteens(n: nat, block: nat)
    requires block == 8 || block == 16
    ensures WholeBlocks(16 * n, block)
  {
    if n > 0 {
      Sixteens(n - 1, block);
      if block == 8 {
        assert WholeBlocks(16 * n - 8, 8);
      }
    }
  }

  lemma CbcFollows(mode: Mode, s: State, p: seq<byte>)
    requires mode.Cbc? && LawfulBlock(mode) && |s.chain| == mode.block && |p| % 16 == 0 && p != []
    ensures var (x, t) := EncryptData(mode, s, p); t.chain == x[|x| - mode.block..]
  {
    var x := EncryptData(mode, s, p).0;
    Sixteens(|x| / 16, mode.block);
    LastBlockIs(mode.block, s.chain, x, |x|);
    assert x[|x| - mode.block..|x|] == x[|x| - mode.block..];
  }

  lemma SealFollows(c: Cipher, s: State, seqn: u32, payload: seq<byte>, padding: seq<byte>)
    requires Lawful(c, s) && |padding| == PaddingLength(c, |payload|) && PacketLength(c, |payload|) < U32_BOUND
    ensures var (wire, t) := WritePacket(c, s, seqn, payload, padding); Follows(c, s, |payload|, wire, t)
  {
    PaddingAligns(c, |payload|);
    var head, body := EncodeU32(PacketLength(c, |payload|)), [|padding|] + payload + padding;
    var packet := head + body;
    var (x, tag, t) := Seal(c, s, seqn, packet);
    SealShape(c, s, seqn, packet);
    SplitAt(head, body);
    if c.Block? {
      assert |packet| == 4 + PacketLength(c, |payload|);
      BlockFollows(c, s, seqn, packet);
    }
  }

  /** The chain that a block cipher leaves, encrypt-then-MAC or not. */
  lemma ChainFollows(c: Cipher, s: State, clear: seq<byte>, p: seq<byte>, tag: seq<byte>)
    requires Lawful(c, s) && c.Block? && c.mode.Cbc? && |p| % 16 == 0 && p != []
    ensures var (y, t) := EncryptData(c.mode, s, p); EndsWith(clear + y + tag, |tag|, t.chain)
  {
    CbcFollows(c.mode, s, p);
    LastOf(clear, EncryptData(c.mode, s, p).0, tag, c.mode.block);
  }

  /** What a block cipher has consumed, and the chain it leaves. */
  lemma BlockFollows(c: Cipher, s: State, seqn: u32, packet: seq<byte>)
    requires Lawful(c, s) && c.Block? && |packet| > 4
    requires (|packet| - (if c.mac.etm then 4 else 0)) % 16 == 0
    ensures var (x, tag, t) := Seal(c, s, seqn, packet);
            && |t.chain| == |s.chain|
            && (c.mode.Ctr? ==> t.position == s.position + |packet| - (if c.mac.etm then 4 else 0))
            && (c.mode.Cbc? ==> EndsWith(x + tag, |tag|, t.chain))
  {
    var tag := Seal(c, s, seqn, packet).1;
    if c.mode.Cbc? {
      if c.mac.etm {
        ChainFollows(c, s, packet[..4], packet[4..], tag);
      } else {
        ChainFollows(c, s, [], packet, tag);
        var y := EncryptData(c.mode, s, packet).0;
        assert [] + y == y;
      }
    }
  }

  lemma LastOf(a: seq<byte>, b: seq<byte>, c: seq<byte>, n: nat)
    requires n <= |b|
    ensures EndsWith(a + b + c, |c|, b[|b| - n..])
  {
  }

  // ---------------------------------------------------------------------
  // The state along a history
  // ---------------------------------------------------------------------

  /** `a` and `b`, one after the other, are written as both together. */
  ghost predicate Concatenates(c: Cipher, e: End, a: seq<Item>, b: seq<Item>, both: seq<Item>)
    requires Lawful(c, e.state) && AllFit(c, a) && AllFit(c, b) && AllFit(c, both)
  {
    var (x, mid) := WriteAll(c, e, a);
    Lawful(c, mid.state) &&
    var (y, last) := WriteAll(c, mid, b);
    WriteAll(c, e, both) == (x + y, last)
  }

  lemma ConcatenatesOneMore(c: Cipher, e: End, a: seq<Item>, others: seq<Item>, b: seq<Item>, rest: seq<Item>, both: seq<Item>)
    requires Lawful(c, e.state) && AllFit(c, a) && AllFit(c, others) && AllFit(c, b) && AllFit(c, rest) && AllFit(c, both)
    requires a != [] && both != [] && a[0] == both[0] && a[1..] == others && both[1..] == rest
    requires var (x, t) := WritePacket(c, e.state, e.seqn, a[0].payload, a[0].padding);
             Lawful(c, t) && Concatenates(c, End(t, NextSeqn(e.seqn)), others, b, rest)
    ensures Concatenates(c, e, a, b, both)
  {
    var (x, t) := WritePacket(c, e.state, e.seqn, a[0].payload, a[0].padding);
    WriteAllHead(c, e, a, others);
    WriteAllHead(c, e, both, rest);
    var (y, mid) := WriteAll(c, End(t, NextSeqn(e.seqn)), others);
    Regroup(x, y, WriteAll(c, mid, b).0);
  }

  lemma FitTogether(c: Cipher, a: seq<Item>, b: seq<Item>)
    requires AllFit(c, a) && AllFit(c, b)
    ensures AllFit(c, a + b) && (a != [] ==> Fits(c, a[0]) && AllFit(c, a[1..]))
  {
  }

  lemma {:induction false} WriteAllConcat(c: Cipher, e: End, a: seq<Item>, b: seq<Item>)
    requires Lawful(c, e.state) && AllFit(c, a) && AllFit(c, b)
    ensures AllFit(c, a + b) && Concatenates(c, e, a, b, a + b)
    decreases |a|
  {
    FitTogether(c, a, b);
    if a == [] {
      assert a + b == b;
      assert [] + WriteAll(c, e, b).0 == WriteAll(c, e, b).0;
    } else {
      WriteStaysLawful(c, e, a[0]);
      var t := WritePacket(c, e.state, e.seqn, a[0].payload, a[0].padding).1;
      WriteAllConcat(c, End(t, NextSeqn(e.seqn)), a[1..], b);
      FitTogether(c, a[1..], b);
      assert (a + b)[1..] == a[1..] + b;
      ConcatenatesOneMore(c, e, a, a[1..], b, a[1..] + b, a + b);
    }
  }

  /** Writing a list writes its first item, and then the others. */
  lemma WriteAllHead(c: Cipher, e: End, items: seq<Item>, others: seq<Item>)
    requires Lawful(c, e.state) && items != [] && items[1..] == others && Fits(c, items[0]) && AllFit(c, others)
    ensures AllFit(c, items)
    ensures var (x, t) := WritePacket(c, e.state, e.seqn, items[0].payload, items[0].padding);
            var next := End(t, NextSeqn(e.seqn));
            Lawful(c, t) && WriteAll(c, e, items) == (x + WriteAll(c, next, others).0, WriteAll(c, next, others).1)
  {
    WriteStaysLawful(c, e, items[0]);
    assert forall i :: 0 < i < |items| ==> items[i] == others[i - 1];
  }

  /** Where the writer is before packet `i`. */
  ghost function Before(c: Cipher, e: End, items: seq<Item>, i: nat): End
    requires Lawful(c, e.state) && AllFit(c, items) && i <= |items|
  {
    WriteAll(c, e, items[..i]).1
  }

  lemma WriteOne(c: Cipher, e: End, item: Item)
    requires Lawful(c, e.state) && Fits(c, item)
    ensures AllFit(c, [item])
    ensures var (x, t) := WritePacket(c, e.state, e.seqn, item.payload, item.padding);
            WriteAll(c, e, [item]) == (x, End(t, NextSeqn(e.seqn)))
  {
    assert [item][1..] == [];
    WriteStaysLawful(c, e, item);
    var x := WritePacket(c, e.state, e.seqn, item.payload, item.padding).0;
    assert x + [] == x;
  }

  /** Packet `i` of a history is sealed from where its writer then is, right
      behind what was written before, and moves the writer on. */
  lemma PacketAt(c: Cipher, e: End, items: seq<Item>, i: nat)
    requires Lawful(c, e.state) && AllFit(c, items) && i < |items|
    ensures var at, next := Before(c, e, items, i), Before(c, e, items, i + 1);
            && Lawful(c, at.state) && Fits(c, items[i])
            && var wire := WritePacket(c, at.state, at.seqn, items[i].payload, items[i].padding).0;
               && WriteAll(c, e, items[..i + 1]).0 == WriteAll(c, e, items[..i]).0 + wire
               && next.seqn == NextSeqn(at.seqn)
               && Follows(c, at.state, |items[i].payload|, wire, next.state)
  {
    WriteAllConcat(c, e, items[..i], [items[i]]);
    assert items[..i] + [items[i]] == items[..i + 1];
    var at := Before(c, e, items, i);
    WriteOne(c, at, items[i]);
    SealFollows(c, at.state, at.seqn, items[i].payload, items[i].padding);
  }

  /** What is written up to a packet is a prefix of all that is written. */
  lemma WrittenUpTo(c: Cipher, e: End, items: seq<Item>, i: nat)
    requires Lawful(c, e.state) && AllFit(c, items) && i <= |items|
    ensures WriteAll(c, e, items[..i]).0 <= WriteAll(c, e, items).0
  {
    assert items[..i] + items[i..] == items;
    PrefixIsWritten(c, e, items[..i], items[i..]);
  }

  lemma PrefixIsWritten(c: Cipher, e: End, a: seq<Item>, b: seq<Item>)
    requires Lawful(c, e.state) && AllFit(c, a) && AllFit(c, b)
    ensures AllFit(c, a + b) && WriteAll(c, e, a).0 <= WriteAll(c, e, a + b).0
  {
    WriteAllConcat(c, e, a, b);
  }

  lemma NumbersCount(c: Cipher, e: End, items: seq<Item>, i: nat)
    requires Lawful(c, e.state) && AllFit(c, items) && i < |items|
    ensures var at, next := Before(c, e, items, i), Before(c, e, items, i + 1);
            && next.seqn == NextSeqn(at.seqn)
            && (c.Gcm? ==> next.state.nonce == KeyMaterial.Advanced(at.state.nonce, 1))
  {
    PacketAt(c, e, items, i);
  }

  lemma SeqnCounts(n: u32, i: nat)
    ensures NextSeqn((n + i) % U32_BOUND) == (n + i + 1) % U32_BOUND
  {
  }

  lemma FirstBefore(c: Cipher, e: End, items: seq<Item>)
    requires Lawful(c, e.state) && AllFit(c, items)
    ensures Before(c, e, items, 0) == e
  {
    assert items[..0] == [];
  }

  lemma {:induction false} SeqnAt(c: Cipher, e: End, items: seq<Item>, i: nat)
    requires Lawful(c, e.state) && AllFit(c, items) && i <= |items|
    ensures Before(c, e, items, i).seqn == (e.seqn + i) % U32_BOUND
    decreases i
  {
    if i == 0 {
      FirstBefore(c, e, items);
    } else {
      SeqnAt(c, e, items, i - 1);
      NumbersCount(c, e, items, i - 1);
      SeqnCounts(e.seqn, i - 1);
    }
  }

  lemma {:induction false} NonceAt(c: Cipher, e: End, items: seq<Item>, i: nat)
    requires Lawful(c, e.state) && AllFit(c, items) && i <= |items| && c.Gcm?
    ensures Before(c, e, items, i).state.nonce == KeyMaterial.Advanced(e.state.nonce, i)
    decreases i
  {
    if i == 0 {
      FirstBefore(c, e, items);
    } else {
      NonceAt(c, e, items, i - 1);
      NumbersCount(c, e, items, i - 1);
      KeyMaterial.AdvancedTwice(e.state.nonce, i - 1, 1);
    }
  }

  /** After `i` packets number and nonce have counted on by `i`. */
  lemma NumbersAt(c: Cipher, e: End, items: seq<Item>, i: nat)
    requires Lawful(c, e.state) && AllFit(c, items) && i <= |items|
    ensures var at := Before(c, e, items, i);
            && at.seqn == (e.seqn + i) % U32_BOUND
            && (c.Gcm? ==> at.state.nonce == KeyMaterial.Advanced(e.state.nonce, i))
  {
    SeqnAt(c, e, items, i);
    if c.Gcm? {
      NonceAt(c, e, items, i);
    }
  }

  /** Under AES-GCM no two packets of one key are sealed under the same nonce, up
      to 2^96 of them. */
  lemma NoncesNeverRepeat(c: Cipher, e: End, items: seq<Item>, i: nat, j: nat)
    requires Lawful(c, e.state) && AllFit(c, items) && c.Gcm? && |e.state.nonce| == 12
    requires i < j < |items| <= KeyMaterial.Power256(12)
    ensures Before(c, e, items, i).state.nonce != Before(c, e, items, j).state.nonce
  {
    NumbersAt(c, e, items, i);
    NumbersAt(c, e, items, j);
    KeyMaterial.NoncesAreDistinct(e.state.nonce, i, j - i);
  }

  lemma PositionCounts(c: Cipher, e: End, items: seq<Item>, i: nat)
    requires Lawful(c, e.state) && AllFit(c, items) && i < |items| && c.Block? && c.mode.Ctr?
    ensures Before(c, e, items, i + 1).state.position == Before(c, e, items, i).state.position + Enciphered(c, |items[i].payload|)
  {
    PacketAt(c, e, items, i);
  }

  /** And under CTR no two packets use the same keystream: what one consumes ends
      where the next one begins. */
  lemma {:induction false} KeystreamNeverRepeats(c: Cipher, e: End, items: seq<Item>, i: nat, j: nat)
    requires Lawful(c, e.state) && AllFit(c, items) && c.Block? && c.mode.Ctr? && i < j <= |items|
    ensures Before(c, e, items, i).state.position + Enciphered(c, |items[i].payload|) <= Before(c, e, items, j).state.position
    ensures j == i + 1 ==>
              Before(c, e, items, i).state.position + Enciphered(c, |items[i].payload|) == Before(c, e, items, j).state.position
    decreases j
  {
    PositionCounts(c, e, items, j - 1);
    if i < j - 1 {
      KeystreamNeverRepeats(c, e, items, i, j - 1);
    }
  }

  // ---------------------------------------------------------------------
  // What a tag admits
  // ---------------------------------------------------------------------

  /** A packet with any other tag than its own is refused. */
  lemma ForgedTagIsRefused(c: Cipher, s: State, seqn: u32, packet: seq<byte>, other: seq<byte>)
    requires Lawful(c, s) && |packet| >= 4 && (c.Block? || c.ChaCha?) && |other| == TagLen(c)
    requires other != Seal(c, s, seqn, packet).1
    ensures Open(c, s, seqn, Seal(c, s, seqn, packet).0 + other) == None
  {
    var (x, tag, t) := Seal(c, s, seqn, packet);
    SealShape(c, s, seqn, packet);
    SplitAt(x, other);
    if c.Block? && !c.mac.etm {
      DataRoundTrip(c.mode, s, packet);
    }
  }

  /** So reading a written packet whose tag was changed ends in the cipher's own
      refusal, whatever follows on the stream. */
  lemma ForgeryIsRefused(c: Cipher, s: State, seqn: u32, payload: seq<byte>, padding: seq<byte>, other: seq<byte>, rest: seq<byte>)
    requires Lawful(c, s) && |padding| == PaddingLength(c, |payload|) && PacketLength(c, |payload|) <= MAXIMUM_PACKET_LEN
    requires (c.Block? || c.ChaCha?) && |other| == TagLen(c)
    requires var wire := WritePacket(c, s, seqn, payload, padding).0;
             |other| <= |wire| && other != wire[|wire| - |other|..]
    ensures var wire := WritePacket(c, s, seqn, payload, padding).0;
            ReadPacket(c, s, seqn, wire[..|wire| - |other|] + other + rest)
            == Fails(if c.Block? then PacketAuth else DecryptionError)
  {
    PaddingAligns(c, |payload|);
    var plain := [|padding|] + payload + padding;
    var packet := EncodeU32(PacketLength(c, |payload|)) + plain;
    var (x, tag, t) := Seal(c, s, seqn, packet);
    SealShape(c, s, seqn, packet);
    SplitAt(x, tag);
    SplitAt(x + other, rest);
    ForgedTagIsRefused(c, s, seqn, packet, other);
    U32RoundTrip(PacketLength(c, |payload|), plain);
    var stream := x + other + rest;
    assert stream[..Lookahead(c)] == x[..Lookahead(c)];
    LengthOfSealed(c, s, seqn, packet, stream[..Lookahead(c)]);
  }

  /** AES-GCM opens exactly what its AEAD opens under the current nonce, with the
      length in the clear as associated data. */
  lemma GcmOpensExactly(c: Cipher, s: State, seqn: u32, buffer: seq<byte>)
    requires Lawful(c, s) && c.Gcm? && |buffer| >= 20
    ensures var n := |buffer| - 16;
            match c.open(s.nonce, buffer[..4], buffer[4..n], buffer[n..])
            case None => Open(c, s, seqn, buffer) == None
            case Some(plain) => Open(c, s, seqn, buffer).Some? && Open(c, s, seqn, buffer).value.0 == plain
  {
    var n := |buffer| - 16;
    assert buffer[..n][..4] == buffer[..4] && buffer[..n][4..] == buffer[4..n];
  }

  lemma Pieces(head: seq<byte>, rest: seq<byte>, n: nat, t: nat)
    requires n + t <= |rest|
    ensures var b := (head + rest)[..|head| + n + t];
            b[..|head|] == head && b[|head|..|head| + n] == rest[..n] && b[|head| + n..] == rest[n..n + t]
  {
  }

  /** The reader refuses a whole packet of an acceptable length exactly if the AEAD does. */
  lemma GcmRefusesExactly(c: Cipher, s: State, seqn: u32, length: u32, rest: seq<byte>)
    requires Lawful(c, s) && c.Gcm? && length <= MAXIMUM_PACKET_LEN && |rest| >= length + 16
    ensures var head := EncodeU32(length);
            ReadPacket(c, s, seqn, head + rest) == Fails(DecryptionError)
            <==> c.open(s.nonce, head, rest[..length], rest[length..length + 16]) == None
  {
    var head := EncodeU32(length);
    var stream, n := head + rest, 4 + length;
    SplitAt(head, rest);
    U32RoundTrip(length, rest);
    SameWord(stream[..4], stream);
    var buffer := stream[..n + 16];
    Pieces(head, rest, length, 16);
    GcmOpensExactly(c, s, seqn, buffer);
  }

  /** What a tag covers: sequence number and ciphertext, or for
      encrypt-and-MAC the sequence number and what the ciphertext decrypts to.
      Under the tag of a sealed packet other bytes, or another number, open
      exactly if the MAC cannot tell them apart. */
  lemma TagCoversExactly(c: Cipher, s: State, seqn: u32, packet: seq<byte>, r: State, number: u32, y: seq<byte>)
    requires Lawful(c, s) && Lawful(c, r) && |packet| >= 4 && |y| >= 4
    ensures var (x, tag, _) := Seal(c, s, seqn, packet);
            match c
            case Clear => true
            case Gcm(_, _) => true
            case ChaCha(_, _, _, _, mac) => Open(c, r, number, y + tag).Some? <==> mac(number, y) == mac(seqn, x)
            case Block(mode, mac) =>
              Open(c, r, number, y + tag).Some?
              <==> if mac.etm then mac.compute(number, y) == mac.compute(seqn, x)
                   else mac.compute(number, DecryptData(mode, r, y).0) == mac.compute(seqn, packet)
  {
    var (x, tag, t) := Seal(c, s, seqn, packet);
    SealShape(c, s, seqn, packet);
    SplitAt(y, tag);
  }

  // ---------------------------------------------------------------------
  // Faults of reading
  // ---------------------------------------------------------------------

  /** Whatever body is sealed, padded or not: as many bytes are cut off as its
      first byte says, up to all of them; more than there are is an error, and
      so is a body of more than 256 KiB. */
  lemma AnyBodyIsRead(c: Cipher, s: State, seqn: u32, body: seq<byte>, rest: seq<byte>)
    requires Lawful(c, s) && 12 <= |body| < U32_BOUND
    ensures var (x, tag, t) := Seal(c, s, seqn, EncodeU32(|body|) + body);
            ReadPacket(c, s, seqn, x + tag + rest)
            == if |body| > 262144 then Fails(PacketSize(|body|))
               else if body[0] > |body| then Fails(IndexOutOfBounds)
               else Read(body[..|body| - body[0]], rest, t)
  {
    var packet := EncodeU32(|body|) + body;
    var (x, tag, t) := Seal(c, s, seqn, packet);
    OpenSealed(c, s, seqn, packet);
    U32RoundTrip(|body|, body);
    SplitAt(EncodeU32(|body|), body);
    SplitAt(x + tag, rest);
    var stream := x + tag + rest;
    assert stream[..Lookahead(c)] == x[..Lookahead(c)];
    LengthOfSealed(c, s, seqn, packet, stream[..Lookahead(c)]);
  }

  /** A packet that has not arrived as a whole is waited for. */
  lemma PartOfPacketIsIncomplete(c: Cipher, s: State, seqn: u32, payload: seq<byte>, padding: seq<byte>, k: nat)
    requires Lawful(c, s) && |padding| == PaddingLength(c, |payload|) && PacketLength(c, |payload|) <= MAXIMUM_PACKET_LEN
    requires k < |WritePacket(c, s, seqn, payload, padding).0|
    ensures ReadPacket(c, s, seqn, WritePacket(c, s, seqn, payload, padding).0[..k]) == Fails(Incomplete)
  {
    PaddingAligns(c, |payload|);
    LengthIsRead(c, s, seqn, payload, padding, []);
    WrittenOpens(c, s, seqn, payload, padding);
    var wire, l := WritePacket(c, s, seqn, payload, padding).0, Lookahead(c);
    assert wire + [] == wire;
    if k >= l {
      assert wire[..k][..l] == wire[..l];
    }
  }

  /** A length that claims less than what was read to learn it makes the reader
      panic; that needs a block cipher and a tag of less than 12 bytes. */
  lemma ShortLengthPanics(c: Cipher, s: State, seqn: u32, stream: seq<byte>, length: u32)
    requires Lawful(c, s) && c.Block? && |stream| >= 16
    requires ReadLength(c, s, seqn, stream[..16]) == Some(length)
    ensures ReadPacket(c, s, seqn, stream) == Fails(Panics) <==> length + c.mac.len < 12
  {
  }
}
