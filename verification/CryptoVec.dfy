/** The growable buffer for secrets: a heap block of `capacity` bytes of which
    the first `size` are in use. Its promises, that `resize` appends zeros and
    that no freed block holds data, rest on the bytes beyond `size` being zero. */
module CryptoVec {
  import opened Wire

  ghost predicate AllZero(s: seq<byte>) {
    forall i :: 0 <= i < |s| ==> s[i] == 0
  }

  function Zeros(n: nat): (r: seq<byte>)
    ensures |r| == n && AllZero(r)
  {
    seq(n, _ => 0)
  }

  ghost predicate IsPow2(n: nat) {
    exists k: nat :: n == Pow2(k)
  }

  /** `usize::next_power_of_two`: the least power of two that is at least `n`. */
  function NextPow2From(n: nat, k: nat): (r: nat)
    requires n > Pow2(k) || k == 0
    ensures r >= n && r >= 1
    ensures IsPow2(r)
    ensures r > 1 ==> r < 2 * n
    decreases n - Pow2(k)
  {
    if Pow2(k) >= n then Pow2(k)
    else if 2 * Pow2(k) >= n then assert Pow2(k + 1) == 2 * Pow2(k); Pow2(k + 1)
    else NextPow2From(n, k + 1)
  }

  function NextPow2(n: nat): (r: nat)
    ensures r >= n && r >= 1 && IsPow2(r)
    ensures r > 1 ==> r < 2 * n
  {
    NextPow2From(n, 0)
  }

  lemma {:induction false} Pow2Monotone(j: nat, k: nat)
    requires j < k
    ensures 2 * Pow2(j) <= Pow2(k)
  {
    if j + 1 < k {
      Pow2Monotone(j, k - 1);
    }
  }

  /** A power of two above another is at least its double. */
  lemma Doubles(from: nat, next: nat)
    requires IsPow2(from) && IsPow2(next) && next > from
    ensures next >= 2 * from
  {
    var j: nat :| from == Pow2(j);
    var k: nat :| next == Pow2(k);
    if k < j {
      Pow2Monotone(k, j);
    } else if j < k {
      Pow2Monotone(j, k);
    }
  }

  class CryptoVec {
    var p: array<byte>   // the heap block; `capacity` is its length
    var size: nat
    ghost var freed: seq<seq<byte>>  // contents of every block when it was deallocated
    ghost var copied: nat            // bytes copied by reallocations so far

    ghost predicate Valid()
      reads this, p
    {
      && size <= p.Length
      && AllZero(p[size..])
      && (p.Length == 0 || IsPow2(p.Length))
      && (forall i :: 0 <= i < |freed| ==> AllZero(freed[i]))
      && (copied == 0 || copied < p.Length)
    }

    /** The bytes the vector stands for. */
    ghost function Contents(): seq<byte>
      reads this, p
      requires size <= p.Length
    {
      p[..size]
    }

    /** What an operation that started with the block `was` did to the heap: it
        kept the block, or gave it up entirely zero after copying the bytes in
        use; the logs say no more and no less. */
    ghost predicate GrewFrom(was: array<byte>, capacity: nat, used: nat, freedBefore: seq<seq<byte>>, copiedBefore: nat)
      reads this, was
    {
      if p == was then freed == freedBefore && copied == copiedBefore
      else
        && AllZero(was[..])
        && freed == freedBefore + (if capacity > 0 then [was[..]] else [])
        && copied == copiedBefore + (if capacity > 0 then used else 0)
    }

    constructor ()
      ensures Valid() && Contents() == [] && fresh(p) && freed == [] && copied == 0
    {
      p := new byte[0];
      size, freed, copied := 0, [], 0;
    }

    constructor Zeroed(n: nat)
      ensures Valid() && Contents() == Zeros(n) && fresh(p) && freed == [] && copied == 0
    {
      p := new byte[NextPow2(n)](_ => 0);
      size, freed, copied := n, [], 0;
    }

    constructor WithCapacity(n: nat)
      ensures Valid() && Contents() == [] && p.Length >= n && fresh(p) && freed == [] && copied == 0
    {
      p := new byte[NextPow2(n)](_ => 0);
      size, freed, copied := 0, [], 0;
    }

    method Resize(n: nat)
      requires Valid()
      modifies this, p
      ensures Valid()
      ensures p == old(p) || fresh(p)
      ensures size == n
      ensures Contents() == if n <= old(size) then old(Contents())[..n] else old(Contents()) + Zeros(n - old(size))
      ensures p == old(p) <==> n <= old(p.Length)
      ensures GrewFrom(old(p), old(p.Length), old(size), old(freed), old(copied))
    {
      if size < n <= p.Length {
        assert p[size..n] == p[size..][..n - size];
        size := n;
      } else if n <= size {
        Erase(p, n, size);
        size := n;
      } else {
        Reallocate(n);
      }
    }

    /** The branch of `resize` that moves to a larger block. */
    method Reallocate(n: nat)
      requires Valid() && n > p.Length
      modifies this, p
      ensures Valid() && fresh(p) && size == n
      ensures Contents() == old(Contents()) + Zeros(n - old(size))
      ensures GrewFrom(old(p), old(p.Length), old(size), old(freed), old(copied))
    {
      var nextCapacity := NextPow2(n);
      var oldBlock := p;
      var block := new byte[nextCapacity](_ => 0);
      if oldBlock.Length > 0 {
        forall i | 0 <= i < size {
          block[i] := oldBlock[i];
        }
        copied := copied + size;
        Erase(oldBlock, 0, size);
        freed := freed + [oldBlock[..]];
        Doubles(oldBlock.Length, nextCapacity);
      }
      p := block;
      size := n;
    }

    method Clear()
      requires Valid()
      modifies this, p
      ensures Valid() && p == old(p) && Contents() == []
      ensures freed == old(freed) && copied == old(copied)
    {
      Resize(0);
    }

    method Push(b: byte)
      requires Valid()
      modifies this, p
      ensures Valid() && (p == old(p) || fresh(p))
      ensures Contents() == old(Contents()) + [b]
      ensures GrewFrom(old(p), old(p.Length), old(size), old(freed), old(copied))
    {
      var s := size;
      Resize(s + 1);
      p[s] := b;
    }

    method Extend(s: seq<byte>)
      requires Valid()
      modifies this, p
      ensures Valid() && (p == old(p) || fresh(p))
      ensures Contents() == old(Contents()) + s
      ensures GrewFrom(old(p), old(p.Length), old(size), old(freed), old(copied))
    {
      var from := size;
      Resize(from + |s|);
      Store(from, s);
    }

    /** Copy `s` over the bytes from `from` on. */
    method Store(from: nat, s: seq<byte>)
      requires Valid() && from + |s| <= size
      modifies p
      ensures Valid()
      ensures Contents() == old(Contents())[..from] + s + old(Contents())[from + |s|..]
    {
      forall i | 0 <= i < |s| {
        p[from + i] := s[i];
      }
      assert p[size..] == old(p[size..]);
    }

    /** Room for `n` bytes more, which the caller then fills through the slice it is given. */
    method ResizeMut(n: nat) returns (from: nat)
      requires Valid()
      modifies this, p
      ensures Valid() && (p == old(p) || fresh(p))
      ensures from == old(size) && Contents() == old(Contents()) + Zeros(n)
      ensures GrewFrom(old(p), old(p.Length), old(size), old(freed), old(copied))
    {
      from := size;
      Resize(from + n);
    }

    /** Read up to `n` bytes: the reader may scribble over the whole slice
        (`scribbled`) and then reports a count or fails. */
    method Read(n: nat, scribbled: seq<byte>, result: Option<nat>) returns (r: Option<nat>)
      requires Valid() && |scribbled| == n
      modifies this, p
      ensures Valid() && (p == old(p) || fresh(p)) && r == result
      ensures result == None ==> Contents() == old(Contents())
      ensures result.Some? && result.value <= n ==> Contents() == old(Contents()) + scribbled[..result.value]
      ensures result.Some? && result.value > n ==> Contents() == old(Contents()) + scribbled + Zeros(result.value - n)
      ensures result == None || result.value <= n ==> GrewFrom(old(p), old(p.Length), old(size), old(freed), old(copied))
      ensures p != old(p) ==> AllZero(old(p)[..])
    {
      var from := size;
      Resize(from + n);
      Store(from, scribbled);
      assert Contents() == old(Contents()) + scribbled;
      match result {
        case Some(k) => Resize(from + k);
        case None => Resize(from);
      }
      r := result;
    }

    /** Deallocation: the block goes back to the allocator all zero, although
        only the first `size` bytes are wiped. */
    method Drop()
      requires Valid()
      modifies this, p
      ensures Valid() && Contents() == []
      ensures AllZero(old(p)[..])
      ensures freed == old(freed) + (if old(p.Length) > 0 then [old(p)[..]] else [])
    {
      if p.Length > 0 {
        Erase(p, 0, size);
        freed := freed + [p[..]];
      }
      p := new byte[0];
      size, copied := 0, 0;
    }
  }

  /** `memset(p + from, 0, to - from)`. */
  method Erase(p: array<byte>, from: nat, to: nat)
    requires from <= to <= p.Length && AllZero(p[to..])
    modifies p
    ensures AllZero(p[from..]) && p[..from] == old(p[..from])
  {
    forall i | from <= i < to {
      p[i] := 0;
    }
    forall i | from <= i < p.Length
      ensures p[i] == 0
    {
      if i >= to {
        assert old(p[to..])[i - to] == 0;
      }
    }
  }

  method FromSlice(s: seq<byte>) returns (v: CryptoVec)
    ensures fresh(v) && fresh(v.p) && v.Valid() && v.Contents() == s
  {
    v := new CryptoVec();
    v.Resize(|s|);
    assert v.Contents() == Zeros(|s|);
    assert Zeros(|s|)[..0] + s + Zeros(|s|)[|s|..] == s;
    v.Store(0, s);
  }
}
