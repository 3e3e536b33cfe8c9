/** The binary packet protocol (section 6 of RFC 4253): one framing over four
    cipher shapes. Block ciphers, MACs and AEADs are abstract functions that
    satisfy the laws in `Lawful`. */
module Codec {
  import opened Wire
  import KeyMaterial

  const PACKET_LENGTH_LEN := 4
  const PADDING_LENGTH_LEN := 1
  const MINIMUM_PACKET_LEN := 16
  const MAXIMUM_PACKET_LEN := 256 * 1024
  const AEAD_TAG_LEN := 16

  datatype Mac = Mac(len: nat, etm: bool, compute: (u32, seq<byte>) -> seq<byte>)

  /** What drives `encrypt_data` and `decrypt_data` of a block cipher. */
  datatype Mode =
    | Ctr(keystream: nat -> byte)
    | Cbc(block: nat, encrypt: seq<byte> -> seq<byte>, decrypt: seq<byte> -> seq<byte>)

  datatype Cipher =
    | Clear
    | Block(mode: Mode, mac: Mac)
    | Gcm(seal: (seq<byte>, seq<byte>, seq<byte>) -> (seq<byte>, seq<byte>),
          open: (seq<byte>, seq<byte>, seq<byte>, seq<byte>) -> Option<seq<byte>>)
    | ChaCha(hideLength: (u32, seq<byte>) -> seq<byte>,
             showLength: (u32, seq<byte>) -> seq<byte>,
             sealBody: (u32, seq<byte>) -> seq<byte>,
             openBody: (u32, seq<byte>) -> seq<byte>,
             tag: (u32, seq<byte>) -> seq<byte>)

  /** What a cipher carries from one packet to the next: the position in the
      CTR keystream, the last CBC block, or the GCM nonce. */
  datatype State = State(position: nat, chain: seq<byte>, nonce: seq<byte>)

  // ---------------------------------------------------------------------
  // Laws of the primitives
  // ---------------------------------------------------------------------

  ghost predicate Lawful(c: Cipher, s: State) {
    match c
    case Clear => true
    case Block(mode, mac) =>
      && (forall n: u32, x: seq<byte> :: |mac.compute(n, x)| == mac.len)
      && (mode.Cbc? ==> LawfulBlock(mode) && |s.chain| == mode.block)
    case Gcm(seal, open) =>
      forall n: seq<byte>, a: seq<byte>, p: seq<byte> ::
        var (x, t) := seal(n, a, p);
        |x| == |p| && |t| == AEAD_TAG_LEN && open(n, a, x, t) == Some(p)
    case ChaCha(hideLength, showLength, seal, open, tag) =>
      && (forall n: u32, l: seq<byte> :: |l| == 4 ==> |hideLength(n, l)| == 4 && showLength(n, hideLength(n, l)) == l)
      && (forall n: u32, p: seq<byte> :: |seal(n, p)| == |p| && open(n, seal(n, p)) == p)
      && (forall n: u32, x: seq<byte> :: |tag(n, x)| == AEAD_TAG_LEN)
  }

  ghost predicate LawfulBlock(mode: Mode)
    requires mode.Cbc?
  {
    && (mode.block == 8 || mode.block == 16)
    && (forall b: seq<byte> :: |b| == mode.block ==> |mode.encrypt(b)| == mode.block && mode.decrypt(mode.encrypt(b)) == b)
    && (forall b: seq<byte> :: |b| == mode.block ==> |mode.decrypt(b)| == mode.block)
  }

  // ---------------------------------------------------------------------
  // Stream and block encryption
  // ---------------------------------------------------------------------

  /** Exclusive or of the `k` low bits. */
  function XorBits(a: nat, b: nat, k: nat): nat {
    if k == 0 then 0 else
      (if a % 2 == b % 2 then 0 else 1) + 2 * XorBits(a / 2, b / 2, k - 1)
  }

  lemma {:induction false} XorBitsTwice(a: nat, b: nat, k: nat)
    requires a < Pow2(k)
    ensures XorBits(a, b, k) < Pow2(k)
    ensures XorBits(XorBits(a, b, k), b, k) == a
  {
    if k > 0 {
      XorBitsTwice(a / 2, b / 2, k - 1);
      var x := XorBits(a / 2, b / 2, k - 1);
      assert XorBits(a, b, k) / 2 == x;
    }
  }

  lemma ByteIsEightBits()
    ensures Pow2(8) == 0x100
  {
    assert Pow2(4) == 16;
    assert Pow2(6) == 64;
  }

  function Xor(a: byte, b: byte): byte {
    ByteIsEightBits();
    XorBitsTwice(a, b, 8);
    XorBits(a, b, 8)
  }

  lemma XorTwice(a: byte, b: byte)
    ensures Xor(Xor(a, b), b) == a
  {
    ByteIsEightBits();
    XorBitsTwice(a, b, 8);
  }

  function XorAll(a: seq<byte>, b: seq<byte>): (r: seq<byte>)
    requires |a| == |b|
    ensures |r| == |a|
  {
    seq(|a|, i requires 0 <= i < |a| => Xor(a[i], b[i]))
  }

  lemma XorAllTwice(a: seq<byte>, b: seq<byte>)
    requires |a| == |b|
    ensures XorAll(XorAll(a, b), b) == a
  {
    forall i | 0 <= i < |a|
      ensures XorAll(XorAll(a, b), b)[i] == a[i]
    {
      XorTwice(a[i], b[i]);
    }
  }

  function CtrApply(keystream: nat -> byte, position: nat, data: seq<byte>): (r: seq<byte>)
    ensures |r| == |data|
  {
    seq(|data|, i requires 0 <= i < |data| => Xor(data[i], keystream(position + i)))
  }

  /** Whole blocks are chained; a tail shorter than a block is left as it is. */
  function CbcEncrypt(mode: Mode, chain: seq<byte>, data: seq<byte>): (r: seq<byte>)
    requires mode.Cbc? && LawfulBlock(mode) && |chain| == mode.block
    ensures |r| == |data|
    decreases |data|
  {
    if |data| < mode.block then data else
      var x := mode.encrypt(XorAll(data[..mode.block], chain));
      x + CbcEncrypt(mode, x, data[mode.block..])
  }

  function CbcDecrypt(mode: Mode, chain: seq<byte>, data: seq<byte>): (r: seq<byte>)
    requires mode.Cbc? && LawfulBlock(mode) && |chain| == mode.block
    ensures |r| == |data|
    decreases |data|
  {
    if |data| < mode.block then data else
      var x := data[..mode.block];
      XorAll(mode.decrypt(x), chain) + CbcDecrypt(mode, x, data[mode.block..])
  }

  /** The chain after `data` has gone out or come in: the last whole block. */
  function LastBlock(block: nat, chain: seq<byte>, ciphertext: seq<byte>): (r: seq<byte>)
    requires block > 0 && |chain| == block
    ensures |r| == block
    decreases |ciphertext|
  {
    if |ciphertext| < block then chain else LastBlock(block, ciphertext[..block], ciphertext[block..])
  }

  lemma {:induction false} CbcRoundTrip(mode: Mode, chain: seq<byte>, data: seq<byte>)
    requires mode.Cbc? && LawfulBlock(mode) && |chain| == mode.block
    ensures CbcDecrypt(mode, chain, CbcEncrypt(mode, chain, data)) == data
    decreases |data|
  {
    if |data| >= mode.block {
      var head, tail := data[..mode.block], data[mode.block..];
      var x := mode.encrypt(XorAll(head, chain));
      var y := CbcEncrypt(mode, x, tail);
      assert (x + y)[..mode.block] == x && (x + y)[mode.block..] == y;
      XorAllTwice(head, chain);
      CbcRoundTrip(mode, x, tail);
    }
  }

  lemma TakeBeyond(p: seq<byte>, q: seq<byte>, k: nat)
    requires |p| <= k <= |p| + |q|
    ensures (p + q)[..k] == p + q[..k - |p|]
  {
  }

  lemma SplitPrefix(data: seq<byte>, block: nat, k: nat)
    requires block <= k <= |data|
    ensures data[..k][..block] == data[..block] && data[..k][block..] == data[block..][..k - block]
  {
  }

  /** `k` bytes are a whole number of blocks. */
  predicate WholeBlocks(k: nat, block: nat)
    requires block > 0
  {
    k == 0 || (k >= block && WholeBlocks(k - block, block))
  }

  /** Decrypting a whole number of leading blocks gives the leading plaintext. */
  lemma {:induction false} CbcDecryptPrefix(mode: Mode, chain: seq<byte>, data: seq<byte>, k: nat)
    requires mode.Cbc? && LawfulBlock(mode) && |chain| == mode.block
    requires k <= |data| && WholeBlocks(k, mode.block)
    ensures CbcDecrypt(mode, chain, data[..k]) == CbcDecrypt(mode, chain, data)[..k]
    decreases k
  {
    if k > 0 {
      var x, tail := data[..mode.block], data[mode.block..];
      CbcDecryptPrefix(mode, x, tail, k - mode.block);
      SplitPrefix(data, mode.block, k);
      var p, q := XorAll(mode.decrypt(x), chain), CbcDecrypt(mode, x, tail);
      TakeBeyond(p, q, k);
      assert CbcDecrypt(mode, chain, data) == p + q;
      assert CbcDecrypt(mode, chain, data[..k]) == p + q[..k - mode.block];
    }
  }

  /** Bytes beyond the last whole block go out in the clear, so everything is
      encrypted only when the length is a multiple of the block size. */
  lemma {:induction false} CbcLeavesTail(mode: Mode, chain: seq<byte>, data: seq<byte>, n: nat)
    requires mode.Cbc? && LawfulBlock(mode) && |chain| == mode.block
    requires n * mode.block <= |data| < (n + 1) * mode.block
    ensures CbcEncrypt(mode, chain, data)[n * mode.block..] == data[n * mode.block..]
    decreases n
  {
    if n > 0 {
      assert n * mode.block == (n - 1) * mode.block + mode.block;
      var x := mode.encrypt(XorAll(data[..mode.block], chain));
      var tail := data[mode.block..];
      CbcLeavesTail(mode, x, tail, n - 1);
      var y := CbcEncrypt(mode, x, tail);
      assert (x + y)[n * mode.block..] == y[(n - 1) * mode.block..];
      assert data[n * mode.block..] == tail[(n - 1) * mode.block..];
    }
  }

  lemma CtrRoundTrip(keystream: nat -> byte, position: nat, data: seq<byte>)
    ensures CtrApply(keystream, position, CtrApply(keystream, position, data)) == data
  {
    var x := CtrApply(keystream, position, data);
    forall i | 0 <= i < |data|
      ensures CtrApply(keystream, position, x)[i] == data[i]
    {
      XorTwice(data[i], keystream(position + i));
    }
  }

  // ---------------------------------------------------------------------
  // Padding
  // ---------------------------------------------------------------------

  function TagLen(c: Cipher): nat {
    match c
    case Clear => 0
    case Block(_, mac) => mac.len
    case _ => AEAD_TAG_LEN
  }

  /** Raise paddings below 4 by a block. */
  function AtLeastFour(padding: nat, block: nat): nat {
    if padding < 4 then padding + block else padding
  }

  /** `padding_length` of the four sealing keys. */
  function PaddingLength(c: Cipher, len: nat): nat {
    match c
    case Clear => AtLeastFour(8 - (5 + len) % 8, 8)
    case Block(_, mac) =>
      var pll := if mac.etm then 0 else PACKET_LENGTH_LEN;
      var extra := PACKET_LENGTH_LEN + PADDING_LENGTH_LEN + mac.len;
      AtLeastFour(if len + extra <= MINIMUM_PACKET_LEN
                  then MINIMUM_PACKET_LEN - len - PADDING_LENGTH_LEN - pll
                  else 16 - (pll + PADDING_LENGTH_LEN + len) % 16, 16)
    case Gcm(_, _) => AeadPadding(len, 16)
    case ChaCha(_, _, _, _, _) => AeadPadding(len, 8)
  }

  function AeadPadding(len: nat, block: nat): nat
    requires block == 8 || block == 16
  {
    AtLeastFour(if len + PACKET_LENGTH_LEN + PADDING_LENGTH_LEN <= MINIMUM_PACKET_LEN
                then MINIMUM_PACKET_LEN - len - PADDING_LENGTH_LEN
                else block - (PADDING_LENGTH_LEN + len) % block, block)
  }

  /** How many leading bytes of a packet are not encrypted with the body. */
  function ClearPrefix(c: Cipher): nat {
    match c
    case Clear => 0
    case Block(_, mac) => if mac.etm then PACKET_LENGTH_LEN else 0
    case _ => PACKET_LENGTH_LEN
  }

  function Alignment(c: Cipher): nat {
    match c
    case Clear => 8
    case ChaCha(_, _, _, _, _) => 8
    case _ => 16
  }

  function PacketLength(c: Cipher, len: nat): nat {
    PADDING_LENGTH_LEN + len + PaddingLength(c, len)
  }

  lemma FillToEight(n: nat)
    ensures var p := AtLeastFour(8 - n % 8, 8); 4 <= p <= 11 && (n + p) % 8 == 0
  {
    assert n == 8 * (n / 8) + n % 8;
  }

  lemma FillToSixteen(n: nat)
    ensures var p := AtLeastFour(16 - n % 16, 16); 4 <= p <= 19 && (n + p) % 16 == 0
  {
    assert n == 16 * (n / 16) + n % 16;
  }

  /** The padding is at least 4 and less than 20, the encrypted part is a
      multiple of the block size, and no packet is shorter than 16 bytes. */
  lemma PaddingAligns(c: Cipher, len: nat)
    ensures 4 <= PaddingLength(c, len) <= 19
    ensures (PACKET_LENGTH_LEN + PacketLength(c, len) - ClearPrefix(c)) % Alignment(c) == 0
    ensures PACKET_LENGTH_LEN + PacketLength(c, len) >= MINIMUM_PACKET_LEN
  {
    match c {
      case Clear => FillToEight(5 + len);
      case Block(_, mac) => FillToSixteen((if mac.etm then 1 else 5) + len);
      case Gcm(_, _) => FillToSixteen(1 + len);
      case ChaCha(_, _, _, _, _) => FillToEight(1 + len);
    }
  }

  // ---------------------------------------------------------------------
  // Sealing and opening
  // ---------------------------------------------------------------------

  function EncryptData(mode: Mode, s: State, data: seq<byte>): (r: (seq<byte>, State))
    requires mode.Cbc? ==> LawfulBlock(mode) && |s.chain| == mode.block
    ensures |r.0| == |data| && |r.1.chain| == |s.chain|
  {
    match mode
    case Ctr(keystream) =>
      (CtrApply(keystream, s.position, data), s.(position := s.position + |data|))
    case Cbc(block, _, _) =>
      var x := CbcEncrypt(mode, s.chain, data);
      (x, s.(chain := LastBlock(block, s.chain, x)))
  }

  function DecryptData(mode: Mode, s: State, data: seq<byte>): (r: (seq<byte>, State))
    requires mode.Cbc? ==> LawfulBlock(mode) && |s.chain| == mode.block
    ensures |r.0| == |data| && |r.1.chain| == |s.chain|
  {
    match mode
    case Ctr(keystream) =>
      (CtrApply(keystream, s.position, data), s.(position := s.position + |data|))
    case Cbc(block, _, _) =>
      (CbcDecrypt(mode, s.chain, data), s.(chain := LastBlock(block, s.chain, data)))
  }

  /** Both ends end in the same cipher state, with the plaintext back. */
  lemma DataRoundTrip(mode: Mode, s: State, data: seq<byte>)
    requires mode.Cbc? ==> LawfulBlock(mode) && |s.chain| == mode.block
    ensures var (x, t) := EncryptData(mode, s, data); DecryptData(mode, s, x) == (data, t)
  {
    match mode
    case Ctr(keystream) => CtrRoundTrip(keystream, s.position, data);
    case Cbc(_, _, _) => CbcRoundTrip(mode, s.chain, data);
  }

  /** Peeking at the first 16 bytes, with a copy of the cipher, reads what the
      whole decryption starts with. */
  lemma PeekIsPrefix(mode: Mode, s: State, data: seq<byte>)
    requires mode.Cbc? ==> LawfulBlock(mode) && |s.chain| == mode.block
    requires |data| >= 16
    ensures DecryptData(mode, s, data[..16]).0 == DecryptData(mode, s, data).0[..16]
  {
    if mode.Cbc? {
      assert WholeBlocks(16 - mode.block, mode.block);
      CbcDecryptPrefix(mode, s.chain, data, 16);
    }
  }

  /** `seal`: the ciphertext of a packet, its tag, and the next state. */
  function Seal(c: Cipher, s: State, seqn: u32, packet: seq<byte>): (seq<byte>, seq<byte>, State)
    requires Lawful(c, s) && |packet| >= PACKET_LENGTH_LEN
  {
    var head, body := packet[..PACKET_LENGTH_LEN], packet[PACKET_LENGTH_LEN..];
    match c
    case Clear => (packet, [], s)
    case Block(mode, mac) =>
      if mac.etm then
        var (x, t) := EncryptData(mode, s, body);
        (head + x, mac.compute(seqn, head + x), t)
      else
        var (x, t) := EncryptData(mode, s, packet);
        (x, mac.compute(seqn, packet), t)
    case Gcm(seal, _) =>
      var (x, tag) := seal(s.nonce, head, body);
      (head + x, tag, s.(nonce := KeyMaterial.Successor(s.nonce)))
    case ChaCha(hideLength, _, sealBody, _, tag) =>
      var x := hideLength(seqn, head) + sealBody(seqn, body);
      (x, tag(seqn, x), s)
  }

  /** `open`: the plaintext behind the length, or `None` when authentication fails. */
  function Open(c: Cipher, s: State, seqn: u32, buffer: seq<byte>): Option<(seq<byte>, State)>
    requires Lawful(c, s) && |buffer| >= PACKET_LENGTH_LEN + TagLen(c)
  {
    var end := |buffer| - TagLen(c);
    var x, tag := buffer[..end], buffer[end..];
    var head, body := x[..PACKET_LENGTH_LEN], x[PACKET_LENGTH_LEN..];
    match c
    case Clear => Some((body, s))
    case Block(mode, mac) =>
      if mac.etm then
        if mac.compute(seqn, x) != tag then None else
          var (p, t) := DecryptData(mode, s, body);
          Some((p, t))
      else
        var (p, t) := DecryptData(mode, s, x);
        if mac.compute(seqn, p) != tag then None else Some((p[PACKET_LENGTH_LEN..], t))
    case Gcm(_, open) =>
      match open(s.nonce, head, body, tag) {
        case None => None
        case Some(p) => Some((p, s.(nonce := KeyMaterial.Successor(s.nonce))))
      }
    case ChaCha(_, _, _, openBody, expected) =>
      if expected(seqn, x) != tag then None else Some((openBody(seqn, body), s))
  }

  /** How many bytes `decrypt_packet_length` looks at. */
  function Lookahead(c: Cipher): nat {
    if c.Block? then 16 else PACKET_LENGTH_LEN
  }

  /** `decrypt_packet_length`: leaves the cipher state alone. */
  function ReadLength(c: Cipher, s: State, seqn: u32, first: seq<byte>): Option<u32>
    requires Lawful(c, s) && |first| == Lookahead(c)
  {
    match c
    case Block(mode, mac) =>
      if mac.etm then Some(DecodeU32(first)) else Some(DecodeU32(DecryptData(mode, s, first).0))
    case ChaCha(_, showLength, _, _, _) =>
      if |showLength(seqn, first)| >= 4 then Some(DecodeU32(showLength(seqn, first))) else None
    case _ => Some(DecodeU32(first))
  }

  /** The errors of `cipher::read`; a packet that does not authenticate is one error
      or the other according to the cipher, and `Panics` is the slice past the end that a
      length too short for the bytes already read leads to. */
  datatype Fault = Incomplete | PacketSize(len: nat) | IndexOutOfBounds | PacketAuth | DecryptionError | Panics

  /** How a cipher refuses a packet. */
  function Refusal(c: Cipher): Fault {
    if c.Gcm? || c.ChaCha? then DecryptionError else PacketAuth
  }

  datatype ReadResult =
    | Read(content: seq<byte>, rest: seq<byte>, state: State)  // padding length byte and payload
    | Fails(fault: Fault)

  /** A packet that is there as a whole is opened and loses its padding. */
  function Unpack(c: Cipher, s: State, seqn: u32, buffer: seq<byte>): ReadResult
    requires Lawful(c, s) && |buffer| >= PACKET_LENGTH_LEN + TagLen(c)
  {
    match Open(c, s, seqn, buffer)
    case None => Fails(Refusal(c))
    case Some((plain, next)) =>
      var padding: int := if plain == [] then 0 else plain[0];
      if padding > |plain| then Fails(IndexOutOfBounds) else Read(plain[..|plain| - padding], [], next)
  }

  /** `cipher::read` on what the stream holds. */
  function ReadPacket(c: Cipher, s: State, seqn: u32, stream: seq<byte>): ReadResult
    requires Lawful(c, s)
  {
    var l := Lookahead(c);
    if |stream| < l then Fails(Incomplete) else
      match ReadLength(c, s, seqn, stream[..l])
      case None => Fails(Panics)
      case Some(len) =>
        if len > MAXIMUM_PACKET_LEN then Fails(PacketSize(len)) else
          var total := len + TagLen(c) + PACKET_LENGTH_LEN;
          if total < l then Fails(Panics)
          else if |stream| < total then Fails(Incomplete)
          else
            match Unpack(c, s, seqn, stream[..total])
            case Read(content, _, next) => Read(content, stream[total..], next)
            case Fails(f) => Fails(f)
  }

  /** `SealingKey::write`: the bytes appended to the buffer and the next state. */
  function WritePacket(c: Cipher, s: State, seqn: u32, payload: seq<byte>, padding: seq<byte>): (seq<byte>, State)
    requires Lawful(c, s) && |padding| == PaddingLength(c, |payload|) && PacketLength(c, |payload|) < U32_BOUND
  {
    PaddingAligns(c, |payload|);
    var packet := EncodeU32(PacketLength(c, |payload|)) + ([|padding|] + payload + padding);
    var (x, tag, t) := Seal(c, s, seqn, packet);
    (x + tag, t)
  }

  // ---------------------------------------------------------------------
  // Round trip of one packet
  // ---------------------------------------------------------------------

  lemma SealShape(c: Cipher, s: State, seqn: u32, packet: seq<byte>)
    requires Lawful(c, s) && |packet| >= PACKET_LENGTH_LEN
    ensures var (x, tag, t) := Seal(c, s, seqn, packet);
            |x| == |packet| && |tag| == TagLen(c) && Lawful(c, t)
  {
  }

  /** Opening what was sealed gives the packet back, without its length, and
      leaves the same state. */
  lemma OpenSealed(c: Cipher, s: State, seqn: u32, packet: seq<byte>)
    requires Lawful(c, s) && |packet| >= PACKET_LENGTH_LEN
    ensures var (x, tag, t) := Seal(c, s, seqn, packet);
            && |x| == |packet| && |tag| == TagLen(c)
            && Open(c, s, seqn, x + tag) == Some((packet[PACKET_LENGTH_LEN..], t))
  {
    SealShape(c, s, seqn, packet);
    var (x, tag, t) := Seal(c, s, seqn, packet);
    var buffer := x + tag;
    var head, body := packet[..PACKET_LENGTH_LEN], packet[PACKET_LENGTH_LEN..];
    assert buffer[..|x|] == x && buffer[|x|..] == tag;
    assert head + body == packet;
    match c {
      case Clear =>
      case Block(mode, mac) =>
        if mac.etm {
          DataRoundTrip(mode, s, body);
          assert x[PACKET_LENGTH_LEN..] == EncryptData(mode, s, body).0;
        } else {
          DataRoundTrip(mode, s, packet);
        }
      case Gcm(seal, _) =>
        assert x[..PACKET_LENGTH_LEN] == head && x[PACKET_LENGTH_LEN..] == seal(s.nonce, head, body).0;
      case ChaCha(_, _, sealBody, _, _) =>
        assert x[PACKET_LENGTH_LEN..] == sealBody(seqn, body);
    }
  }

  /** The length is readable from the first bytes of the sealed packet. */
  lemma LengthOfSealed(c: Cipher, s: State, seqn: u32, packet: seq<byte>, first: seq<byte>)
    requires Lawful(c, s) && |packet| >= MINIMUM_PACKET_LEN
    requires first == Seal(c, s, seqn, packet).0[..Lookahead(c)]
    ensures ReadLength(c, s, seqn, first) == Some(DecodeU32(packet))
  {
    SealShape(c, s, seqn, packet);
    var x := Seal(c, s, seqn, packet).0;
    var head := packet[..PACKET_LENGTH_LEN];
    match c {
      case Clear =>
      case Block(mode, mac) =>
        if mac.etm {
          assert first[..4] == head;
          SameWord(first, packet);
        } else {
          DataRoundTrip(mode, s, packet);
          PeekIsPrefix(mode, s, x);
          assert DecryptData(mode, s, first).0 == packet[..16];
          SameWord(packet[..16], packet);
        }
      case Gcm(_, _) =>
        assert first == head;
        SameWord(head, packet);
      case ChaCha(hideLength, showLength, _, _, _) =>
        assert first == hideLength(seqn, head);
        assert showLength(seqn, first) == head;
        SameWord(head, packet);
    }
  }

  lemma SplitAt(a: seq<byte>, b: seq<byte>)
    ensures (a + b)[..|a|] == a && (a + b)[|a|..] == b
  {
  }

  /** The reader learns the length of a written packet from its first bytes. */
  lemma LengthIsRead(c: Cipher, s: State, seqn: u32, payload: seq<byte>, padding: seq<byte>, rest: seq<byte>)
    requires Lawful(c, s) && |padding| == PaddingLength(c, |payload|) && PacketLength(c, |payload|) < U32_BOUND
    ensures var stream := WritePacket(c, s, seqn, payload, padding).0 + rest;
            && Lookahead(c) <= |stream|
            && ReadLength(c, s, seqn, stream[..Lookahead(c)]) == Some(PacketLength(c, |payload|))
  {
    PaddingAligns(c, |payload|);
    var plain := [|padding|] + payload + padding;
    var packet := EncodeU32(PacketLength(c, |payload|)) + plain;
    var (x, tag, t) := Seal(c, s, seqn, packet);
    SealShape(c, s, seqn, packet);
    U32RoundTrip(PacketLength(c, |payload|), plain);
    var stream := x + tag + rest;
    assert stream[..Lookahead(c)] == x[..Lookahead(c)];
    LengthOfSealed(c, s, seqn, packet, stream[..Lookahead(c)]);
  }

  /** And opens it. */
  lemma WrittenOpens(c: Cipher, s: State, seqn: u32, payload: seq<byte>, padding: seq<byte>)
    requires Lawful(c, s) && |padding| == PaddingLength(c, |payload|) && PacketLength(c, |payload|) < U32_BOUND
    ensures var (x, t) := WritePacket(c, s, seqn, payload, padding);
            && |x| == PACKET_LENGTH_LEN + PacketLength(c, |payload|) + TagLen(c)
            && Unpack(c, s, seqn, x) == Read([|padding|] + payload, [], t)
  {
    PaddingAligns(c, |payload|);
    var plain := [|padding|] + payload + padding;
    var packet := EncodeU32(PacketLength(c, |payload|)) + plain;
    OpenSealed(c, s, seqn, packet);
    SplitAt(EncodeU32(PacketLength(c, |payload|)), plain);
    SplitAt([|padding|] + payload, padding);
  }

  /** A written packet reads back as its payload, with nothing of what follows
      it touched and both ends in the same cipher state, exactly when it does
      not exceed the maximum length. */
  lemma PacketRoundTrip(c: Cipher, s: State, seqn: u32, payload: seq<byte>, padding: seq<byte>, rest: seq<byte>)
    requires Lawful(c, s) && |padding| == PaddingLength(c, |payload|) && PacketLength(c, |payload|) < U32_BOUND
    ensures var (x, t) := WritePacket(c, s, seqn, payload, padding);
            ReadPacket(c, s, seqn, x + rest)
            == if PacketLength(c, |payload|) <= MAXIMUM_PACKET_LEN
               then Read([|padding|] + payload, rest, t)
               else Fails(PacketSize(PacketLength(c, |payload|)))
  {
    PaddingAligns(c, |payload|);
    LengthIsRead(c, s, seqn, payload, padding, rest);
    WrittenOpens(c, s, seqn, payload, padding);
    SplitAt(WritePacket(c, s, seqn, payload, padding).0, rest);
  }

  // ---------------------------------------------------------------------
  // Round trip of a history
  // ---------------------------------------------------------------------

  /** A payload with the padding drawn for it. */
  datatype Item = Item(payload: seq<byte>, padding: seq<byte>)

  ghost predicate Fits(c: Cipher, item: Item) {
    |item.padding| == PaddingLength(c, |item.payload|) && PacketLength(c, |item.payload|) <= MAXIMUM_PACKET_LEN
  }

  ghost predicate AllFit(c: Cipher, items: seq<Item>) {
    forall i :: 0 <= i < |items| ==> Fits(c, items[i])
  }

  /** One end of a direction: cipher state and sequence number. */
  datatype End = End(state: State, seqn: u32)

  /** Everything written for a list of payloads, and where the writer ends. */
  ghost function WriteAll(c: Cipher, e: End, items: seq<Item>): (seq<byte>, End)
    requires Lawful(c, e.state) && AllFit(c, items)
    decreases |items|
  {
    if items == [] then ([], e) else
      assert Fits(c, items[0]);
      WriteStaysLawful(c, e, items[0]);
      var (x, t) := WritePacket(c, e.state, e.seqn, items[0].payload, items[0].padding);
      var (more, last) := WriteAll(c, End(t, NextSeqn(e.seqn)), items[1..]);
      (x + more, last)
  }

  lemma WriteStaysLawful(c: Cipher, e: End, item: Item)
    requires Lawful(c, e.state) && Fits(c, item)
    ensures Lawful(c, WritePacket(c, e.state, e.seqn, item.payload, item.padding).1)
  {
    PaddingAligns(c, |item.payload|);
    SealShape(c, e.state, e.seqn, EncodeU32(PacketLength(c, |item.payload|)) + ([|item.padding|] + item.payload + item.padding));
  }

  /** Reading `n` packets off a stream, if they are all there and sound. */
  ghost function ReadAll(c: Cipher, e: End, stream: seq<byte>, n: nat): Option<(seq<seq<byte>>, seq<byte>, End)>
    decreases n
  {
    if n == 0 then Some(([], stream, e))
    else if !Lawful(c, e.state) then None
    else
      match ReadPacket(c, e.state, e.seqn, stream)
      case Read(content, rest, next) =>
        if content == [] then None else
          (match ReadAll(c, End(next, NextSeqn(e.seqn)), rest, n - 1)
           case Some((payloads, left, last)) => Some(([content[1..]] + payloads, left, last))
           case None => None)
      case _ => None
  }

  ghost function Payloads(items: seq<Item>): seq<seq<byte>> {
    if items == [] then [] else [items[0].payload] + Payloads(items[1..])
  }

  /** Writing any list of payloads and reading it all back returns the list,
      consumes exactly what was written, and leaves both ends with the same
      cipher state and sequence number, for every cipher shape. */
  lemma {:induction false} HistoryRoundTrip(c: Cipher, e: End, items: seq<Item>, rest: seq<byte>)
    requires Lawful(c, e.state) && AllFit(c, items)
    ensures var (x, last) := WriteAll(c, e, items);
            ReadAll(c, e, x + rest, |items|) == Some((Payloads(items), rest, last))
    decreases |items|
  {
    if items == [] {
      assert [] + rest == rest;
    } else {
      var item := items[0];
      assert Fits(c, item);
      WriteStaysLawful(c, e, item);
      var (x, t) := WritePacket(c, e.state, e.seqn, item.payload, item.padding);
      var next := End(t, NextSeqn(e.seqn));
      var (more, last) := WriteAll(c, next, items[1..]);
      PacketRoundTrip(c, e.state, e.seqn, item.payload, item.padding, more + rest);
      Regroup(x, more, rest);
      HistoryRoundTrip(c, next, items[1..], rest);
      var content := [|item.padding|] + item.payload;
      assert content[1..] == item.payload;
      assert |items| - 1 == |items[1..]|;
    }
  }

  // ---------------------------------------------------------------------
  // The imperative side
  // ---------------------------------------------------------------------

  class SSHBuffer {
    var buffer: seq<byte>
    var len: nat
    var bytes: nat
    var seqn: u32

    constructor ()
      ensures buffer == [] && len == 0 && bytes == 0 && seqn == 0
    {
      buffer, len, bytes, seqn := [], 0, 0, 0;
    }
  }

  /** What the transport still has to deliver. */
  class Stream {
    var data: seq<byte>

    constructor (data: seq<byte>)
      ensures this.data == data
    {
      this.data := data;
    }

    /** `read_exact`: fails when the stream is too short. */
    method ReadExact(n: nat) returns (r: Option<seq<byte>>)
      modifies this
      ensures n > |old(data)| ==> r == None && data == old(data)
      ensures n <= |old(data)| ==> r == Some(old(data)[..n]) && data == old(data)[n..]
    {
      if n > |data| {
        return None;
      }
      r := Some(data[..n]);
      data := data[n..];
    }
  }

  /** Clear and ChaCha keys pad with zeros, the others with random bytes. */
  predicate PadsWithZeros(c: Cipher) {
    c.Clear? || c.ChaCha?
  }

  method FillPadding(c: Cipher, random: seq<byte>) returns (padding: seq<byte>)
    ensures |padding| == |random|
    ensures !PadsWithZeros(c) ==> padding == random
    ensures PadsWithZeros(c) ==> forall i :: 0 <= i < |padding| ==> padding[i] == 0
  {
    padding := random;
    if PadsWithZeros(c) {
      var i := 0;
      while i < |random|
        invariant i <= |random| == |padding|
        invariant forall k :: 0 <= k < i ==> padding[k] == 0
      {
        padding := padding[i := 0];
        i := i + 1;
      }
    }
  }

  class Key {
    const cipher: Cipher
    var state: State

    constructor (cipher: Cipher, state: State)
      ensures this.cipher == cipher && this.state == state
    {
      this.cipher, this.state := cipher, state;
    }

    /** `SealingKey::write`, with the bytes the random generator would give. */
    method Write(payload: seq<byte>, random: seq<byte>, buffer: SSHBuffer) returns (ghost padding: seq<byte>)
      requires Lawful(cipher, state) && |random| == PaddingLength(cipher, |payload|)
      requires PacketLength(cipher, |payload|) < U32_BOUND
      modifies this`state, buffer
      ensures |padding| == |random| && (!PadsWithZeros(cipher) ==> padding == random)
      ensures PadsWithZeros(cipher) ==> forall i :: 0 <= i < |padding| ==> padding[i] == 0
      ensures var (x, t) := WritePacket(cipher, old(state), old(buffer.seqn), payload, padding);
              buffer.buffer == old(buffer.buffer) + x && state == t
      ensures buffer.bytes == old(buffer.bytes) + |payload|
      ensures buffer.seqn == NextSeqn(old(buffer.seqn)) && buffer.len == old(buffer.len)
    {
      PaddingAligns(cipher, |payload|);
      var paddingLength := PaddingLength(cipher, |payload|);
      var packetLength := PADDING_LENGTH_LEN + |payload| + paddingLength;
      var out := EncodeU32(packetLength);
      out := out + [paddingLength];
      out := out + payload;
      var filled := FillPadding(cipher, random);
      padding := filled;
      out := out + filled;
      assert out == EncodeU32(packetLength) + ([|padding|] + payload + padding);
      var (ciphertext, tag, next) := Seal(cipher, state, buffer.seqn, out);
      state := next;
      buffer.buffer := buffer.buffer + (ciphertext + tag);
      buffer.bytes := buffer.bytes + |payload|;
      buffer.seqn := NextSeqn(buffer.seqn);
    }

    /** `cipher::read` at the start of a packet. */
    method ReadFrom(stream: Stream, buffer: SSHBuffer) returns (fault: Option<Fault>)
      requires Lawful(cipher, state) && buffer.len == 0
      modifies this`state, stream, buffer
      ensures match ReadPacket(cipher, old(state), old(buffer.seqn), old(stream.data))
              case Fails(f) => fault == Some(f) && buffer.seqn == old(buffer.seqn)
              case Read(content, rest, next) =>
                && fault == None
                && |buffer.buffer| == PACKET_LENGTH_LEN + |content| && buffer.buffer[PACKET_LENGTH_LEN..] == content
                && stream.data == rest
                && state == next
                && buffer.seqn == NextSeqn(old(buffer.seqn)) && buffer.len == 0
    {
      ghost var all := stream.data;
      var length;
      length, fault := ReadHead(stream, buffer);
      if fault == None {
        fault := ReadRest(all, length, stream, buffer);
      }
    }

    /** What follows the length: read the rest of the packet and open it. */
    method ReadRest(ghost all: seq<byte>, length: u32, stream: Stream, buffer: SSHBuffer) returns (fault: Option<Fault>)
      requires Lawful(cipher, state) && buffer.len == length + TagLen(cipher)
      requires var l := Lookahead(cipher); l <= |all| && buffer.buffer == all[..l] && stream.data == all[l..]
      modifies this`state, stream, buffer
      ensures fault != None ==> buffer.seqn == old(buffer.seqn)
      ensures var total := length + TagLen(cipher) + PACKET_LENGTH_LEN;
              if total < Lookahead(cipher) then fault == Some(Panics)
              else if |all| < total then fault == Some(Incomplete)
              else
                && stream.data == all[total..]
                && match Unpack(cipher, old(state), old(buffer.seqn), all[..total])
                   case Fails(f) => fault == Some(f)
                   case Read(content, _, next) =>
                     && fault == None
                     && buffer.buffer == EncodeU32(length) + content
                     && state == next
                     && buffer.seqn == NextSeqn(old(buffer.seqn)) && buffer.len == 0
    {
      var l := Lookahead(cipher);
      if buffer.len + PACKET_LENGTH_LEN < l {
        return Some(Panics);
      }
      var more := stream.ReadExact(buffer.len + PACKET_LENGTH_LEN - l);
      if more == None {
        return Some(Incomplete);
      }
      ghost var total := buffer.len + PACKET_LENGTH_LEN;
      assert all[..l] + all[l..][..total - l] == all[..total] && all[l..][total - l..] == all[total..];
      buffer.buffer := buffer.buffer + more.value;
      fault := OpenBody(length, buffer);
    }

    /** The first half of `cipher::read`: learn the length and check it. */
    method ReadHead(stream: Stream, buffer: SSHBuffer) returns (length: u32, fault: Option<Fault>)
      requires Lawful(cipher, state) && buffer.len == 0
      modifies stream, buffer
      ensures buffer.seqn == old(buffer.seqn)
      ensures var all, l := old(stream.data), Lookahead(cipher);
              if |all| < l then fault == Some(Incomplete)
              else
                match ReadLength(cipher, state, buffer.seqn, all[..l])
                case None => fault == Some(Panics)
                case Some(len) =>
                  if len > MAXIMUM_PACKET_LEN then fault == Some(PacketSize(len))
                  else fault == None && length == len && buffer.buffer == all[..l]
                       && buffer.len == len + TagLen(cipher) && stream.data == all[l..]
    {
      length, fault := 0, None;
      var first := stream.ReadExact(Lookahead(cipher));
      if first == None {
        fault := Some(Incomplete);
        return;
      }
      buffer.buffer := first.value;
      var read := ReadLength(cipher, state, buffer.seqn, first.value);
      if read == None {
        fault := Some(Panics);
        return;
      }
      length := read.value;
      if length > MAXIMUM_PACKET_LEN {
        fault := Some(PacketSize(length));
        return;
      }
      buffer.len := length + TagLen(cipher);
    }

    /** The second half: open the packet in place and strip the padding. */
    method OpenBody(length: u32, buffer: SSHBuffer) returns (fault: Option<Fault>)
      requires Lawful(cipher, state) && |buffer.buffer| >= PACKET_LENGTH_LEN + TagLen(cipher)
      modifies this`state, buffer
      ensures fault != None ==> buffer.seqn == old(buffer.seqn)
      ensures match Unpack(cipher, old(state), old(buffer.seqn), old(buffer.buffer))
              case Fails(f) => fault == Some(f)
              case Read(content, _, next) =>
                && fault == None
                && buffer.buffer == EncodeU32(length) + content
                && state == next
                && buffer.seqn == NextSeqn(old(buffer.seqn)) && buffer.len == 0
    {
      var plaintext := Open(cipher, state, buffer.seqn, buffer.buffer);
      if plaintext == None {
        return Some(Refusal(cipher));
      }
      var (plain, next) := plaintext.value;
      state := next;
      buffer.buffer := EncodeU32(length) + plain;
      var paddingLength: int := if plain == [] then 0 else plain[0];
      if paddingLength > |plain| {
        return Some(IndexOutOfBounds);
      }
      buffer.seqn := NextSeqn(buffer.seqn);
      buffer.len := 0;
      buffer.buffer := buffer.buffer[..|plain| - paddingLength + PACKET_LENGTH_LEN];
      fault := None;
    }
  }

  /** `copy_from_slice` into a chunk of the buffer. */
  method CopyInto(data: array<byte>, at: nat, s: seq<byte>)
    requires at + |s| <= data.Length
    modifies data
    ensures data[..at + |s|] == old(data[..at]) + s
    ensures data[at + |s|..] == old(data[at..])[|s|..]
  {
    forall k | 0 <= k < |s| {
      data[at + k] := s[k];
    }
  }

  lemma CbcOneBlock(mode: Mode, chain: seq<byte>, data: seq<byte>)
    requires mode.Cbc? && LawfulBlock(mode) && |chain| == mode.block <= |data|
    ensures var x := mode.encrypt(XorAll(data[..mode.block], chain));
            var y := CbcEncrypt(mode, x, data[mode.block..]);
            && CbcEncrypt(mode, chain, data) == x + y
            && LastBlock(mode.block, chain, x + y) == LastBlock(mode.block, x, y)
  {
    var x := mode.encrypt(XorAll(data[..mode.block], chain));
    var y := CbcEncrypt(mode, x, data[mode.block..]);
    assert (x + y)[..mode.block] == x && (x + y)[mode.block..] == y;
  }

  /** The chunk at `i` of a buffer whose rest is still that of `orig`. */
  lemma Slices(now: seq<byte>, orig: seq<byte>, i: nat, n: nat)
    requires |now| == |orig| && i + n <= |now| && now[i..] == orig[i..]
    ensures orig[i..][..n] == now[i..i + n] && orig[i..][n..] == orig[i + n..] == now[i + n..]
  {
    assert now[i..][..n] == now[i..i + n] && now[i..][n..] == now[i + n..];
  }

  /** `CbcWrapper`: one chained cipher, working on the buffer in place. */
  class CbcWrapper {
    const mode: Mode
    var chain: seq<byte>

    constructor (mode: Mode, iv: seq<byte>)
      ensures this.mode == mode && chain == iv
    {
      this.mode, chain := mode, iv;
    }

    method EncryptData(data: array<byte>)
      requires mode.Cbc? && LawfulBlock(mode) && |chain| == mode.block
      modifies this`chain, data
      ensures data[..] == CbcEncrypt(mode, old(chain), old(data[..]))
      ensures chain == LastBlock(mode.block, old(chain), data[..])
    {
      ghost var orig := data[..];
      var i := 0;
      while i + mode.block <= data.Length
        invariant i <= data.Length && |chain| == mode.block
        invariant data[i..] == orig[i..]
        invariant CbcEncrypt(mode, old(chain), orig) == data[..i] + CbcEncrypt(mode, chain, orig[i..])
        invariant LastBlock(mode.block, old(chain), CbcEncrypt(mode, old(chain), orig))
               == LastBlock(mode.block, chain, CbcEncrypt(mode, chain, orig[i..]))
      {
        var block := mode.encrypt(XorAll(data[i..i + mode.block], chain));
        ghost var done, now := data[..i], data[..];
        Slices(now, orig, i, mode.block);
        CbcOneBlock(mode, chain, orig[i..]);
        Regroup(done, block, CbcEncrypt(mode, block, orig[i + mode.block..]));
        CopyInto(data, i, block);
        chain := block;
        i := i + mode.block;
      }
      assert orig[i..] == data[i..] && |orig[i..]| < mode.block;
      assert data[..] == data[..i] + data[i..];
    }
  }
}
