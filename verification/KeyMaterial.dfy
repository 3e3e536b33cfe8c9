/** Key material: the expansion of section 7.2 of RFC 4253, the mpint encoding
    of section 5 of RFC 4251, and the nonce counter of the GCM ciphers. */
module KeyMaterial {
  import opened Wire

  // ---------------------------------------------------------------------
  // Big-endian numbers
  // ---------------------------------------------------------------------

  function Power256(n: nat): (r: nat)
    ensures r >= 1
  {
    if n == 0 then 1 else 256 * Power256(n - 1)
  }

  /** The number a byte string stands for, most significant byte first. */
  function Number(s: seq<byte>): nat {
    if s == [] then 0 else
      var low: int := s[|s| - 1];
      256 * Number(s[..|s| - 1]) + low
  }

  lemma {:induction false} NumberBound(s: seq<byte>)
    ensures Number(s) < Power256(|s|)
  {
    if s != [] {
      NumberBound(s[..|s| - 1]);
    }
  }

  lemma {:induction false} NumberConcat(a: seq<byte>, b: seq<byte>)
    ensures Number(a + b) == Number(a) * Power256(|b|) + Number(b)
    decreases |b|
  {
    if b == [] {
      assert a + b == a;
    } else {
      var front := b[..|b| - 1];
      NumberConcat(a, front);
      assert (a + b)[..|a + b| - 1] == a + front;
      assert (a + b)[|a + b| - 1] == b[|b| - 1];
      assert 256 * (Number(a) * Power256(|front|)) == Number(a) * Power256(|b|);
    }
  }

  /** Strings of equal length that stand for the same number are the same. */
  lemma {:induction false} NumberInjective(a: seq<byte>, b: seq<byte>)
    requires |a| == |b| && Number(a) == Number(b)
    ensures a == b
    decreases |a|
  {
    if a != [] {
      var x, y := a[..|a| - 1], b[..|b| - 1];
      NumberInjective(x, y);
      assert a == x + [a[|a| - 1]] && b == y + [b[|b| - 1]];
    }
  }

  lemma {:induction false} LeadingByteBounds(s: seq<byte>)
    requires s != []
    ensures var high: int := s[0];
            high * Power256(|s| - 1) <= Number(s) < (high + 1) * Power256(|s| - 1)
  {
    assert s == [s[0]] + s[1..];
    NumberConcat([s[0]], s[1..]);
    NumberBound(s[1..]);
    assert [s[0]][..0] == [];
    assert Number([s[0]]) == s[0];
  }

  lemma {:induction false} PowerMonotone(m: nat, n: nat)
    requires m <= n
    ensures Power256(m) <= Power256(n)
  {
    if m < n {
      PowerMonotone(m, n - 1);
    }
  }

  // ---------------------------------------------------------------------
  // mpint
  // ---------------------------------------------------------------------

  ghost predicate HasNonZero(s: seq<byte>) {
    exists i :: 0 <= i < |s| && s[i] != 0
  }

  /** `s` without its leading zeros. */
  function Stripped(s: seq<byte>): (r: seq<byte>)
    ensures HasNonZero(s) ==> r != [] && r[0] != 0
  {
    if s != [] && s[0] == 0 then
      assert HasNonZero(s) ==> HasNonZero(s[1..]) by {
        if HasNonZero(s) {
          var i :| 0 <= i < |s| && s[i] != 0;
          assert s[1..][i - 1] != 0;
        }
      }
      Stripped(s[1..])
    else s
  }

  /** The body of a non-negative mpint: no leading zero but the one that keeps
      the sign bit clear. */
  ghost predicate Minimal(body: seq<byte>) {
    && body != []
    && body[0] < 128
    && (body[0] == 0 ==> |body| > 1 && body[1] >= 128)
  }

  /** `encode_mpint`. It skips every leading zero and then looks at the byte
      behind them, so a string of zeros, the encoding of the number 0, has none:
      the source indexes past its end, which is `None` here. */
  method EncodeMpint(s: seq<byte>) returns (w: Option<seq<byte>>)
    requires |s| + 1 < U32_BOUND
    ensures w.Some? <==> HasNonZero(s)
    ensures w.Some? <==> Number(s) != 0
    ensures w.Some? ==> DecodeString(w.value).Some? && DecodeString(w.value).value.1 == []
    ensures w.Some? ==>
              var body := DecodeString(w.value).value.0;
              && Minimal(body)
              && Number(body) == Number(s)
              && body == (if Stripped(s)[0] >= 128 then [0] else []) + Stripped(s)
  {
    var i := 0;
    while i < |s| && s[i] == 0
      invariant i <= |s|
      invariant forall k :: 0 <= k < i ==> s[k] == 0
      invariant Number(s[i..]) == Number(s)
      invariant Stripped(s[i..]) == Stripped(s)
    {
      DropZero(s[i..]);
      assert s[i..][1..] == s[i + 1..];
      i := i + 1;
    }
    if i == |s| {
      return None;
    }
    LeadingDigit(s[i..]);
    ghost var body: seq<byte>;
    var out;
    if s[i] >= 128 {
      out := EncodeU32(|s| - i + 1) + [0];
      body := [0] + s[i..];
      DropZero(body);
      assert body[1..] == s[i..];
    } else {
      out := EncodeU32(|s| - i);
      body := s[i..];
    }
    out := out + s[i..];
    assert out == EncodeString(body);
    StringRoundTrip(body, []);
    assert out + [] == out;
    w := Some(out);
  }

  lemma LeadingDigit(s: seq<byte>)
    requires s != [] && s[0] != 0
    ensures Number(s) != 0
  {
    assert s == [s[0]] + s[1..];
    NumberConcat([s[0]], s[1..]);
  }

  lemma DropZero(s: seq<byte>)
    requires s != [] && s[0] == 0
    ensures Number(s[1..]) == Number(s)
  {
    assert s == [s[0]] + s[1..];
    NumberConcat([s[0]], s[1..]);
    assert Number([s[0]]) == 0;
  }

  /** A number has one minimal body, so the encoding does not depend on leading
      zeros or on anything but the number. */
  lemma MinimalIsUnique(a: seq<byte>, b: seq<byte>)
    requires Minimal(a) && Minimal(b) && Number(a) == Number(b) > 0
    ensures a == b
  {
    if |a| < |b| {
      MinimalIsLonger(a, b);
    } else if |b| < |a| {
      MinimalIsLonger(b, a);
    } else {
      NumberInjective(a, b);
    }
  }

  lemma Scale(x: nat, y: nat, p: nat)
    requires x <= y
    ensures x * p <= y * p
  {
  }

  lemma MinimalIsLonger(a: seq<byte>, b: seq<byte>)
    requires Minimal(a) && Minimal(b) && |a| < |b|
    ensures Number(a) < Number(b)
  {
    LeadingByteBounds(a);
    Scale(a[0] + 1, 128, Power256(|a| - 1));
    if b[0] > 0 {
      LeadingByteBounds(b);
      Scale(1, b[0], Power256(|b| - 1));
      PowerMonotone(|a|, |b| - 1);
    } else {
      DropZero(b);
      LeadingByteBounds(b[1..]);
      Scale(128, b[1], Power256(|b| - 2));
      PowerMonotone(|a| - 1, |b| - 2);
    }
  }

  // ---------------------------------------------------------------------
  // Nonce counter
  // ---------------------------------------------------------------------

  const NONCE_LEN := 12

  /** `Nonce::advance`: returns the old nonce and counts on, byte by byte with a carry. */
  method Advance(nonce: array<byte>) returns (previous: seq<byte>)
    requires nonce.Length == NONCE_LEN
    modifies nonce
    ensures previous == old(nonce[..])
    ensures nonce[..] == Successor(old(nonce[..]))
  {
    previous := nonce[..];
    var carry := 1;
    var i := NONCE_LEN;
    assert previous[..i] == previous && nonce[i..] == [];
    while i > 0
      invariant 0 <= i <= NONCE_LEN && (carry == 0 || carry == 1)
      invariant nonce[..i] == previous[..i]
      invariant Added(previous, 1) == Added(previous[..i], carry) + nonce[i..]
    {
      i := i - 1;
      ghost var tail := nonce[i + 1..];
      var n: int := nonce[i] + carry;
      assert previous[..i + 1][..i] == previous[..i] && previous[..i + 1][i] == nonce[i];
      nonce[i] := n % 256;
      assert nonce[i..] == [n % 256] + tail;
      Regroup(Added(previous[..i], n / 256), [n % 256], tail);
      carry := n / 256;
    }
    assert nonce[0..] == nonce[..];
    assert Added(previous[..0], carry) == [];
  }

  /** `s` plus `carry` in the same number of bytes, the last carry dropped. */
  function Added(s: seq<byte>, carry: nat): (r: seq<byte>)
    requires carry <= 1
    ensures |r| == |s|
  {
    if s == [] then [] else
      var last := |s| - 1;
      var n: int := s[last] + carry;
      Added(s[..last], n / 256) + [n % 256]
  }

  function Successor(s: seq<byte>): seq<byte> {
    Added(s, 1)
  }

  /** `x` counted round in a ring of size `m`. */
  function Wrapped(x: nat, m: nat): int {
    if x < m then x else x - m
  }

  /** Advancing adds one modulo 256^length. */
  lemma {:induction false} AddedCounts(s: seq<byte>, carry: nat)
    requires carry <= 1
    ensures Number(Added(s, carry)) == Wrapped(Number(s) + carry, Power256(|s|))
  {
    if s == [] {
      assert Added(s, carry) == [];
    } else {
      var last := |s| - 1;
      var n: int := s[last] + carry;
      var r := Added(s, carry);
      AddedCounts(s[..last], n / 256);
      NumberBound(s[..last]);
      assert r[..last] == Added(s[..last], n / 256) && r[last] == n % 256;
    }
  }

  function Advanced(s: seq<byte>, steps: nat): (r: seq<byte>)
    ensures |r| == |s|
  {
    if steps == 0 then s else Successor(Advanced(s, steps - 1))
  }

  lemma {:induction false} AdvancedCounts(s: seq<byte>, steps: nat)
    requires steps <= Power256(|s|)
    ensures Number(Advanced(s, steps)) == Wrapped(Number(s) + steps, Power256(|s|))
  {
    NumberBound(s);
    if steps > 0 {
      var t := Advanced(s, steps - 1);
      AdvancedCounts(s, steps - 1);
      AddedCounts(t, 1);
      assert Number(Advanced(s, steps)) == Wrapped(Number(t) + 1, Power256(|s|));
    }
  }

  lemma {:induction false} AdvancedTwice(s: seq<byte>, j: nat, k: nat)
    ensures Advanced(Advanced(s, j), k) == Advanced(s, j + k)
  {
    if k > 0 {
      AdvancedTwice(s, j, k - 1);
    }
  }

  /** Any 256^length successive nonces are pairwise distinct, and the next one
      is the first again. */
  lemma NoncesAreDistinct(s: seq<byte>, j: nat, d: nat)
    requires 0 < d <= Power256(|s|)
    ensures Advanced(s, j + d) == Advanced(s, j) <==> d == Power256(|s|)
  {
    var t := Advanced(s, j);
    AdvancedTwice(s, j, d);
    AdvancedCounts(t, d);
    NumberBound(t);
    if d == Power256(|s|) {
      NumberInjective(Advanced(t, d), t);
    }
  }

  // ---------------------------------------------------------------------
  // Key expansion
  // ---------------------------------------------------------------------

  /** What one exchange hands to key derivation; the hash stays abstract. */
  datatype Secrets = Secrets(
    hash: seq<byte> -> seq<byte>,
    sharedSecret: seq<byte>,   // already encoded as mpint or string, or empty
    exchangeHash: seq<byte>,
    sessionId: seq<byte>
  )

  /** K1 || K2 || ... || Kn for one letter. */
  function KeyStream(s: Secrets, letter: byte, n: nat): seq<byte>
    requires n > 0
  {
    if n == 1 then s.hash(s.sharedSecret + s.exchangeHash + [letter] + s.sessionId)
    else
      var before := KeyStream(s, letter, n - 1);
      before + s.hash(s.sharedSecret + s.exchangeHash + before)
  }

  ghost predicate NeverEmpty(hash: seq<byte> -> seq<byte>) {
    forall x :: hash(x) != []
  }

  /** The least number of hashes that make `len` bytes, counting up from `n`. */
  ghost function Rounds(s: Secrets, letter: byte, len: nat, n: nat): (r: nat)
    requires NeverEmpty(s.hash) && n > 0
    ensures r >= n && |KeyStream(s, letter, r)| >= len
    decreases len - |KeyStream(s, letter, n)|
  {
    if |KeyStream(s, letter, n)| >= len then n else
      assert |s.hash(s.sharedSecret + s.exchangeHash + KeyStream(s, letter, n))| > 0;
      Rounds(s, letter, len, n + 1)
  }

  /** The key of `len` bytes for a letter. */
  ghost function DerivedKey(s: Secrets, letter: byte, len: nat): (r: seq<byte>)
    requires NeverEmpty(s.hash)
    ensures |r| == len
  {
    KeyStream(s, letter, Rounds(s, letter, len, 1))[..len]
  }

  function Flatten(blocks: seq<seq<byte>>): seq<byte> {
    if blocks == [] then [] else Flatten(blocks[..|blocks| - 1]) + blocks[|blocks| - 1]
  }

  /** K1, K2, ... as section 7.2 of RFC 4253 has them: the first block hashes
      secret, exchange hash, letter and session id, each further one secret,
      exchange hash and all blocks before it. */
  predicate Expands(s: Secrets, letter: byte, blocks: seq<seq<byte>>) {
    && blocks != []
    && blocks[0] == s.hash(s.sharedSecret + s.exchangeHash + [letter] + s.sessionId)
    && forall i :: 0 < i < |blocks| ==> blocks[i] == s.hash(s.sharedSecret + s.exchangeHash + Flatten(blocks[..i]))
  }

  /** The key is the beginning of such blocks. */
  ghost predicate IsKey(s: Secrets, letter: byte, len: nat, key: seq<byte>) {
    exists blocks :: Expands(s, letter, blocks) && |Flatten(blocks)| >= len && key == Flatten(blocks)[..len]
  }

  lemma OneBlockMore(s: Secrets, letter: byte, blocks: seq<seq<byte>>, next: seq<byte>)
    requires Expands(s, letter, blocks) && next == s.hash(s.sharedSecret + s.exchangeHash + Flatten(blocks))
    ensures Expands(s, letter, blocks + [next]) && Flatten(blocks + [next]) == Flatten(blocks) + next
  {
    var more := blocks + [next];
    assert more[..|blocks|] == blocks;
    forall i | 0 < i < |more|
      ensures more[i] == s.hash(s.sharedSecret + s.exchangeHash + Flatten(more[..i]))
    {
      if i < |blocks| {
        assert more[..i] == blocks[..i];
      }
    }
  }

  lemma OneBlock(s: Secrets, letter: byte, first: seq<byte>)
    requires first == s.hash(s.sharedSecret + s.exchangeHash + [letter] + s.sessionId)
    ensures Expands(s, letter, [first]) && Flatten([first]) == first
  {
    assert [first][..0] == [];
    assert Flatten([]) + first == first;
  }

  lemma {:induction false} StreamExpands(s: Secrets, letter: byte, n: nat) returns (blocks: seq<seq<byte>>)
    requires n > 0
    ensures Expands(s, letter, blocks) && |blocks| == n && Flatten(blocks) == KeyStream(s, letter, n)
  {
    if n == 1 {
      blocks := [KeyStream(s, letter, 1)];
      OneBlock(s, letter, blocks[0]);
    } else {
      var before := StreamExpands(s, letter, n - 1);
      var next := s.hash(s.sharedSecret + s.exchangeHash + Flatten(before));
      OneBlockMore(s, letter, before, next);
      blocks := before + [next];
    }
  }

  /** A key of some length is one and the same however many blocks are made. */
  lemma DerivedIsKey(s: Secrets, letter: byte, len: nat)
    requires NeverEmpty(s.hash)
    ensures IsKey(s, letter, len, DerivedKey(s, letter, len))
  {
    var blocks := StreamExpands(s, letter, Rounds(s, letter, len, 1));
  }

  lemma DropLast(s: Secrets, letter: byte, blocks: seq<seq<byte>>)
    requires Expands(s, letter, blocks) && |blocks| > 1
    ensures Expands(s, letter, blocks[..|blocks| - 1])
  {
    var c := blocks[..|blocks| - 1];
    assert forall i :: 0 < i < |c| ==> c[..i] == blocks[..i];
  }

  lemma {:induction false} ExpansionIsUnique(s: Secrets, letter: byte, a: seq<seq<byte>>, b: seq<seq<byte>>)
    requires Expands(s, letter, a) && Expands(s, letter, b) && |a| <= |b|
    ensures Flatten(a) <= Flatten(b)
    ensures |a| == |b| ==> a == b
    decreases |a| + |b|
  {
    if |a| < |b| {
      DropLast(s, letter, b);
      ExpansionIsUnique(s, letter, a, b[..|b| - 1]);
    } else if |a| > 1 {
      var c, d := a[..|a| - 1], b[..|b| - 1];
      DropLast(s, letter, a);
      DropLast(s, letter, b);
      ExpansionIsUnique(s, letter, c, d);
      assert a == c + [a[|a| - 1]] && b == d + [b[|b| - 1]];
    } else {
      assert a == [a[0]] && b == [b[0]];
    }
  }

  lemma KeyIsUnique(s: Secrets, letter: byte, len: nat, a: seq<byte>, b: seq<byte>)
    requires IsKey(s, letter, len, a) && IsKey(s, letter, len, b)
    ensures a == b
  {
    var x :| Expands(s, letter, x) && |Flatten(x)| >= len && a == Flatten(x)[..len];
    var y :| Expands(s, letter, y) && |Flatten(y)| >= len && b == Flatten(y)[..len];
    if |x| <= |y| {
      ExpansionIsUnique(s, letter, x, y);
    } else {
      ExpansionIsUnique(s, letter, y, x);
    }
  }

  /** `compute_key` of `compute_keys` for one letter. */
  method ComputeKey(s: Secrets, letter: byte, len: nat) returns (key: seq<byte>)
    requires NeverEmpty(s.hash)
    ensures key == DerivedKey(s, letter, len)
    ensures IsKey(s, letter, len, key) && |key| == len
  {
    var buffer := s.sharedSecret + s.exchangeHash + [letter] + s.sessionId;
    key := s.hash(buffer);
    ghost var blocks := [key];
    OneBlock(s, letter, key);
    while |key| < len
      invariant Expands(s, letter, blocks) && key == Flatten(blocks)
      decreases len - |key|
    {
      buffer := s.sharedSecret + s.exchangeHash + key;
      var more := s.hash(buffer);
      assert more != [];
      OneBlockMore(s, letter, blocks, more);
      blocks := blocks + [more];
      key := key + more;
    }
    key := key[..len];
    DerivedIsKey(s, letter, len);
    KeyIsUnique(s, letter, len, key, DerivedKey(s, letter, len));
  }

  lemma FirstInput(k: seq<byte>, h: seq<byte>, letter: byte, id: seq<byte>)
    ensures var x, n := k + h + [letter] + id, |k| + |h|;
            x[..|k|] == k && x[|k|..n] == h && x[n] == letter && x[n + 1..] == id
  {
  }

  /** With a hash that keeps everything apart, another letter or session id, or
      another shared secret or exchange hash of the same length, starts other blocks. */
  lemma FirstBlockTellsApart(s: Secrets, t: Secrets, a: byte, b: byte, x: seq<seq<byte>>, y: seq<seq<byte>>)
    requires s.hash == t.hash && forall p, q :: s.hash(p) == s.hash(q) ==> p == q
    requires |s.sharedSecret| == |t.sharedSecret| && |s.exchangeHash| == |t.exchangeHash|
    requires Expands(s, a, x) && Expands(t, b, y) && x[0] == y[0]
    ensures s == t && a == b
  {
    FirstInput(s.sharedSecret, s.exchangeHash, a, s.sessionId);
    FirstInput(t.sharedSecret, t.exchangeHash, b, t.sessionId);
  }

  lemma {:induction false} StreamGrows(s: Secrets, letter: byte, m: nat, n: nat)
    requires 0 < m <= n
    ensures KeyStream(s, letter, m) <= KeyStream(s, letter, n)
  {
    if m < n {
      StreamGrows(s, letter, m, n - 1);
    }
  }

  /** The derived key is a prefix of the key stream however far that is taken. */
  lemma DerivedIsPrefix(s: Secrets, letter: byte, len: nat, n: nat)
    requires NeverEmpty(s.hash) && n > 0 && |KeyStream(s, letter, n)| >= len
    ensures DerivedKey(s, letter, len) == KeyStream(s, letter, n)[..len]
  {
    var r := Rounds(s, letter, len, 1);
    if r <= n {
      StreamGrows(s, letter, r, n);
    } else {
      StreamGrows(s, letter, n, r);
    }
  }

  /** So a shorter request is a prefix of a longer one. */
  lemma ShorterIsPrefix(s: Secrets, letter: byte, short: nat, long: nat)
    requires NeverEmpty(s.hash) && short <= long
    ensures DerivedKey(s, letter, short) == DerivedKey(s, letter, long)[..short]
  {
    var n := Rounds(s, letter, long, 1);
    DerivedIsPrefix(s, letter, short, n);
    var stream := KeyStream(s, letter, n);
    assert stream[..long][..short] == stream[..short];
  }
}
