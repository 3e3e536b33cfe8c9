/** Bytes, 32-bit words and length-prefixed strings as they travel in SSH
    messages (section 5 of RFC 4251). */
module Wire {

  datatype Option<+T> = None | Some(value: T)

  type byte = x: int | 0 <= x < 0x100

  const U32_BOUND := 0x1_0000_0000

  type u32 = x: int | 0 <= x < 0x1_0000_0000

  /** Sequence numbers wrap around. */
  function NextSeqn(seqn: u32): u32 {
    (seqn + 1) % U32_BOUND
  }

  /** The `k`th power of two. */
  function Pow2(k: nat): (r: nat)
    ensures r > 0
  {
    if k == 0 then 1 else 2 * Pow2(k - 1)
  }

  function Min(a: int, b: int): int {
    if a <= b then a else b
  }

  lemma Regroup<T>(a: seq<T>, b: seq<T>, c: seq<T>)
    ensures a + (b + c) == (a + b) + c
  {
  }

  lemma PrefixOfPrefix<T>(a: seq<T>, b: seq<T>, rest: seq<T>, c: seq<T>)
    requires a <= b && b + rest <= c
    ensures a <= c
  {
    assert b <= b + rest;
  }

  /** If `sent + waiting` is everything so far, moving `out` from what waits
      (with `extra` added behind) to what is sent keeps it everything. */
  lemma Balance<T>(sent: seq<T>, waiting: seq<T>, all: seq<T>, out: seq<T>, still: seq<T>, extra: seq<T>)
    requires sent + waiting == all
    requires out + still == waiting + extra
    ensures (sent + out) + still == all + extra
    ensures sent + out <= all + extra
  {
    Regroup(sent, out, still);
    Regroup(sent, waiting, extra);
  }

  /** Big-endian encoding of a 32-bit word. */
  function EncodeU32(n: u32): (r: seq<byte>)
    ensures |r| == 4
  {
    [n / 0x100_0000, n / 0x1_0000 % 0x100, n / 0x100 % 0x100, n % 0x100]
  }

  function DecodeU32(b: seq<byte>): u32
    requires |b| >= 4
  {
    var b0: int, b1: int, b2: int, b3: int := b[0], b[1], b[2], b[3];
    b0 * 0x100_0000 + b1 * 0x1_0000 + b2 * 0x100 + b3
  }

  lemma DigitsAddUp(n: u32)
    ensures n / 0x100_0000 * 0x100_0000 + n / 0x1_0000 % 0x100 * 0x1_0000 + n / 0x100 % 0x100 * 0x100 + n % 0x100 == n
  {
    var a: int := n / 0x100;
    var b: int := a / 0x100;
    assert n == a * 0x100 + n % 0x100;
    assert a == b * 0x100 + a % 0x100;
    assert b == n / 0x1_0000;
    assert b / 0x100 == n / 0x100_0000;
  }

  lemma U32RoundTrip(n: u32, rest: seq<byte>)
    ensures DecodeU32(EncodeU32(n) + rest) == n
  {
    var b := EncodeU32(n) + rest;
    assert b[0] == n / 0x100_0000 && b[1] == n / 0x1_0000 % 0x100;
    assert b[2] == n / 0x100 % 0x100 && b[3] == n % 0x100;
    DigitsAddUp(n);
  }

  /** A word is read off the first four bytes. */
  lemma SameWord(a: seq<byte>, b: seq<byte>)
    requires |a| >= 4 && |b| >= 4 && a[..4] == b[..4]
    ensures DecodeU32(a) == DecodeU32(b)
  {
    assert forall i :: 0 <= i < 4 ==> a[i] == a[..4][i] && b[i] == b[..4][i];
  }

  /** A string: its length as a 32-bit word, then its bytes. */
  function EncodeString(s: seq<byte>): (r: seq<byte>)
    requires |s| < U32_BOUND
    ensures |r| == 4 + |s|
  {
    EncodeU32(|s|) + s
  }

  /** The string at the head of `b` and what follows it, if `b` is long enough. */
  function DecodeString(b: seq<byte>): (r: Option<(seq<byte>, seq<byte>)>)
    ensures r.Some? ==> |r.value.0| + |r.value.1| + 4 == |b|
  {
    if |b| < 4 then None
    else
      var n := DecodeU32(b);
      if |b| - 4 < n then None else Some((b[4..4 + n], b[4 + n..]))
  }

  lemma StringRoundTrip(s: seq<byte>, rest: seq<byte>)
    requires |s| < U32_BOUND
    ensures DecodeString(EncodeString(s) + rest) == Some((s, rest))
  {
    var b := EncodeString(s) + rest;
    assert b == EncodeU32(|s|) + (s + rest);
    U32RoundTrip(|s|, s + rest);
    assert b[4..] == s + rest;
    assert b[4..4 + |s|] == s;
    assert b[4 + |s|..] == rest;
  }

  /** Whatever is read as a word was written as that word. */
  lemma WordIsEncoded(b: seq<byte>)
    requires |b| >= 4
    ensures EncodeU32(DecodeU32(b)) == b[..4]
  {
    var a: int, c: int, d: int, e: int := b[0], b[1], b[2], b[3];
    var n := ((a * 256 + c) * 256 + d) * 256 + e;
    assert DecodeU32(b) == n;
    assert n / 256 == (a * 256 + c) * 256 + d && n % 256 == e;
    assert n / 256 / 256 == a * 256 + c && n / 256 % 256 == d;
    assert n / 0x1_0000 == n / 256 / 256 && n / 0x100_0000 == n / 256 / 256 / 256 == a;
    assert n / 0x1_0000 % 256 == c;
  }

  /** And so for a string, with what follows it. */
  lemma StringIsEncoded(b: seq<byte>)
    requires DecodeString(b).Some?
    ensures var (s, rest) := DecodeString(b).value; |s| < U32_BOUND && b == EncodeString(s) + rest
  {
    WordIsEncoded(b);
    var n := DecodeU32(b);
    assert b == b[..4] + (b[4..4 + n] + b[4 + n..]);
    Regroup(b[..4], b[4..4 + n], b[4 + n..]);
  }

  /** The bytes of a word are its digits to the base 256, the highest first. */
  lemma WordIsBigEndian(n: u32)
    ensures var e := EncodeU32(n);
            var a: int, b: int, c: int, d: int := e[0], e[1], e[2], e[3];
            ((a * 256 + b) * 256 + c) * 256 + d == n
  {
    DigitsAddUp(n);
  }

  /** A string is its length in one word, and itself. */
  lemma StringLayout(s: seq<byte>)
    requires |s| < U32_BOUND
    ensures EncodeString(s)[..4] == EncodeU32(|s|) && EncodeString(s)[4..] == s
  {
  }

  /** `b` starts with these strings, one after the other, and `rest` is behind them. */
  predicate StartsWith(b: seq<byte>, strings: seq<seq<byte>>, rest: seq<byte>)
    decreases |strings|
  {
    if strings == [] then b == rest else
      match DecodeString(b)
      case None => false
      case Some((s, r)) => s == strings[0] && StartsWith(r, strings[1..], rest)
  }

  lemma OneStringMore(s: seq<byte>, b: seq<byte>, strings: seq<seq<byte>>, rest: seq<byte>)
    requires |s| < U32_BOUND && StartsWith(b, strings, rest)
    ensures StartsWith(EncodeString(s) + b, [s] + strings, rest)
  {
    StringRoundTrip(s, b);
    assert ([s] + strings)[1..] == strings;
  }
}
