/** The terminal output that a session keeps for replay to a reconnecting
    browser: chunks, oldest first, within a byte budget. */
module ReplayBuffer {
  import opened Wire

  type Chunk = seq<byte>

  function TotalSize(chunks: seq<Chunk>): nat {
    if chunks == [] then 0 else |chunks[0]| + TotalSize(chunks[1..])
  }

  lemma {:induction false} TotalSizeAppend(chunks: seq<Chunk>, c: Chunk)
    ensures TotalSize(chunks + [c]) == TotalSize(chunks) + |c|
  {
    if chunks == [] {
      assert [] + [c] == [c] && [c][1..] == [];
    } else {
      TotalSizeAppend(chunks[1..], c);
      assert (chunks + [c])[1..] == chunks[1..] + [c];
    }
  }

  /** None of the `n` longest suffixes of `history` fits. */
  ghost predicate TooLarge(history: seq<Chunk>, n: nat, max: nat)
    requires n <= |history|
  {
    forall k :: 0 <= k < n ==> TotalSize(history[k..]) > max
  }

  /** `kept` is all but the `n` first chunks, and no longer suffix fits. */
  ghost predicate Remains(kept: seq<Chunk>, history: seq<Chunk>, n: nat, max: nat) {
    n <= |history| && |kept| == |history| - n && kept == history[n..] && TooLarge(history, n, max)
  }

  /** `kept` is what a budget of `max` leaves of `history`: the longest suffix
      of whole chunks that fits, or the last chunk when not even that fits. */
  ghost predicate LongestFittingSuffix(kept: seq<Chunk>, history: seq<Chunk>, max: nat) {
    && |kept| <= |history|
    && Remains(kept, history, |history| - |kept|, max)
    && (history != [] ==> kept != [])
    && (TotalSize(kept) <= max || |kept| == 1)
  }

  /** It determines what is kept. */
  lemma LongestSuffixIsUnique(a: seq<Chunk>, b: seq<Chunk>, history: seq<Chunk>, max: nat)
    requires LongestFittingSuffix(a, history, max) && LongestFittingSuffix(b, history, max)
    ensures a == b
  {
    if |a| < |b| || |b| < |a| {
      assert false;
    }
  }

  class SshSessionDO {
    var terminalBuffer: seq<Chunk>
    var bufferSize: nat
    var maxBuffer: nat
    ghost var history: seq<Chunk>  // every chunk output since the last cleanup

    ghost predicate Valid()
      reads this
    {
      && bufferSize == TotalSize(terminalBuffer)
      && LongestFittingSuffix(terminalBuffer, history, maxBuffer)
    }

    constructor ()
      ensures Valid() && history == [] && maxBuffer == 100 * 1024
    {
      terminalBuffer, bufferSize, maxBuffer := [], 0, 100 * 1024;
      history := [];
    }

    method BufferOutput(data: Chunk)
      requires Valid()
      modifies this
      ensures Valid()
      ensures history == old(history) + [data] && maxBuffer == old(maxBuffer)
    {
      ghost var n: nat := |history| - |terminalBuffer|;  // chunks evicted so far
      AppendOne(terminalBuffer, history, data, n, maxBuffer);
      history := history + [data];
      terminalBuffer := terminalBuffer + [data];
      bufferSize := bufferSize + |data|;
      while bufferSize > maxBuffer && |terminalBuffer| > 1
        invariant bufferSize == TotalSize(terminalBuffer)
        invariant Remains(terminalBuffer, history, n, maxBuffer) && terminalBuffer != []
        invariant history == old(history) + [data] && maxBuffer == old(maxBuffer)
        decreases |terminalBuffer|
      {
        EvictOne(terminalBuffer, history, n, maxBuffer);
        var evicted := terminalBuffer[0];
        terminalBuffer := terminalBuffer[1..];
        bufferSize := bufferSize - |evicted|;
        n := n + 1;
      }
    }

    method Cleanup()
      requires Valid()
      modifies this
      ensures Valid() && history == [] && terminalBuffer == [] && maxBuffer == old(maxBuffer)
    {
      terminalBuffer, bufferSize := [], 0;
      history := [];
    }
  }

  /** Suffixes that were too large stay too large when output is added. */
  lemma EarlierStaysTooLarge(history: seq<Chunk>, data: Chunk, max: nat, n: nat)
    requires n <= |history| && TooLarge(history, n, max)
    ensures TooLarge(history + [data], n, max)
  {
    forall k | 0 <= k < n
      ensures TotalSize((history + [data])[k..]) > max
    {
      assert (history + [data])[k..] == history[k..] + [data];
      TotalSizeAppend(history[k..], data);
    }
  }

  lemma AppendOne(kept: seq<Chunk>, history: seq<Chunk>, data: Chunk, n: nat, max: nat)
    requires Remains(kept, history, n, max)
    ensures Remains(kept + [data], history + [data], n, max)
    ensures TotalSize(kept + [data]) == TotalSize(kept) + |data|
  {
    EarlierStaysTooLarge(history, data, max, n);
    TotalSizeAppend(kept, data);
    assert (history + [data])[n..] == history[n..] + [data];
  }

  lemma EvictOne(kept: seq<Chunk>, history: seq<Chunk>, n: nat, max: nat)
    requires Remains(kept, history, n, max) && kept != [] && TotalSize(kept) > max
    ensures Remains(kept[1..], history, n + 1, max)
    ensures TotalSize(kept) == |kept[0]| + TotalSize(kept[1..])
  {
    assert history[n + 1..] == history[n..][1..];
  }
}
