/** The fixed-step history reader (src/utils/listener.ts): from a start
    block up to an end block (a number, or the chain head once it is known),
    it asks for `[current, current + step]`, then moves on by `step`. The
    chain client is left out; the windows it is asked for are kept as a log. */
module BlockWindows {
  import opened Common

  /** `toBlock`: a block number, or the 'latest' tag until the head is known. */
  datatype Bound = Latest | Block(n: int)

  /** The windows the loop requests from `lo` while the start is at most `hi`. */
  function Windows(lo: int, hi: int, step: int): seq<(int, int)>
    requires step > 0
    decreases if lo > hi then 0 else hi - lo + 1
  {
    if lo > hi then [] else [(lo, lo + step)] + Windows(lo + step, hi, step)
  }

  /** Where the loop leaves `currentBlock`: the first start past `hi`. */
  function After(lo: int, hi: int, step: int): (c: int)
    requires step > 0
    ensures c > hi && c >= lo
    ensures lo <= hi ==> c - step <= hi
    decreases if lo > hi then 0 else hi - lo + 1
  {
    if lo > hi then lo else After(lo + step, hi, step)
  }

  /** The k-th window starts k steps after `lo`, spans one step, and
      starts no later than `hi`. */
  lemma {:induction false} WindowsAt(lo: int, hi: int, step: int)
    requires step > 0
    ensures forall k :: 0 <= k < |Windows(lo, hi, step)| ==>
              Windows(lo, hi, step)[k] == (lo + k * step, lo + k * step + step) &&
              Windows(lo, hi, step)[k].0 <= hi
    decreases if lo > hi then 0 else hi - lo + 1
  {
    if lo <= hi {
      WindowsAt(lo + step, hi, step);
      var w := Windows(lo, hi, step);
      var rest := Windows(lo + step, hi, step);
      forall k | 1 <= k < |w| ensures w[k] == (lo + k * step, lo + k * step + step) {
        assert w[k] == rest[k - 1];
        assert lo + step + (k - 1) * step == lo + k * step;
      }
    }
  }

  /** The last window starts at most at `hi`, and one more step would pass it. */
  lemma {:induction false} WindowsSpan(lo: int, hi: int, step: int)
    requires step > 0 && lo <= hi
    ensures |Windows(lo, hi, step)| >= 1
    ensures lo + (|Windows(lo, hi, step)| - 1) * step <= hi < lo + |Windows(lo, hi, step)| * step
    decreases hi - lo
  {
    var n := |Windows(lo, hi, step)|;
    assert n == |Windows(lo + step, hi, step)| + 1;
    if lo + step <= hi {
      WindowsSpan(lo + step, hi, step);
      assert (n - 1) * step == (n - 2) * step + step;
      assert n * step == (n - 1) * step + step;
    } else {
      assert Windows(lo + step, hi, step) == [];
    }
  }

  /** The quotient of `x` by `step` is the `q` with `x == q * step + r`, `0 <= r < step`. */
  lemma DivUnique(x: int, step: int, q: int, r: int)
    requires step > 0 && x == q * step + r && 0 <= r < step
    ensures x / step == q
  {
    var d := x / step - q;
    assert d * step == (x / step) * step - q * step;
    assert d * step == r - x % step;
  }

  /** Exactly `(hi - lo) / step + 1` requests, or none when `lo > hi`. */
  lemma WindowsCount(lo: int, hi: int, step: int)
    requires step > 0
    ensures lo > hi ==> |Windows(lo, hi, step)| == 0
    ensures lo <= hi ==> |Windows(lo, hi, step)| == (hi - lo) / step + 1
  {
    if lo <= hi {
      WindowsSpan(lo, hi, step);
      var n := |Windows(lo, hi, step)|;
      DivUnique(hi - lo, step, n - 1, hi - lo - (n - 1) * step);
    }
  }

  /** Consecutive windows share their boundary block, so a log at that block
      is asked for twice. */
  lemma SharedBoundaries(lo: int, hi: int, step: int, k: nat)
    requires step > 0 && k + 1 < |Windows(lo, hi, step)|
    ensures Windows(lo, hi, step)[k].1 == Windows(lo, hi, step)[k + 1].0
  {
    WindowsAt(lo, hi, step);
    assert lo + k * step + step == lo + (k + 1) * step;
  }

  /** The quotient by `step` brackets `x` between two multiples of `step`. */
  lemma DivBrackets(x: int, step: int)
    requires step > 0
    ensures (x / step) * step <= x < (x / step) * step + step
  {
  }

  /** Below `n` steps, the quotient is below `n`. */
  lemma QuotientBelow(x: int, step: int, n: int)
    requires step > 0 && 0 <= x < n * step
    ensures x / step < n
  {
    DivBrackets(x, step);
  }

  /** Every block from `lo` to `hi` lies in some requested window. */
  lemma Covered(lo: int, hi: int, step: int, b: int)
    requires step > 0 && lo <= b <= hi
    ensures exists k :: 0 <= k < |Windows(lo, hi, step)| &&
              Windows(lo, hi, step)[k].0 <= b <= Windows(lo, hi, step)[k].1
  {
    WindowsAt(lo, hi, step);
    WindowsSpan(lo, hi, step);
    var n := |Windows(lo, hi, step)|;
    var k := (b - lo) / step;
    DivBrackets(b - lo, step);
    QuotientBelow(b - lo, step, n);
    assert Windows(lo, hi, step)[k] == (lo + k * step, lo + k * step + step);
  }

  /** Once the loop has run up to `hi`, running it again asks for nothing. */
  lemma RerunIssuesNothing(lo: int, hi: int, step: int)
    requires step > 0
    ensures Windows(After(lo, hi, step), hi, step) == []
  {
  }

  class Chunker {
    var fromBlock: int
    var toBlock: Bound
    const step: int
    var currentBlock: int
    /** Whether the chain-head query started for a 'latest' end is pending. */
    var awaitingHead: bool
    var requests: seq<(int, int)>

    /** useGetPastEvents(..., eventOptions): `fromBlock` defaults to 0 and
        `toBlock` to 'latest', which starts the chain-head query. */
    constructor (fromBlock: Option<int>, toBlock: Option<Bound>, step: int)
      ensures this.fromBlock == GetOr(fromBlock, 0) && this.toBlock == GetOr(toBlock, Latest)
      ensures this.step == step && currentBlock == this.fromBlock && requests == []
      ensures awaitingHead <==> this.toBlock.Latest?
    {
      this.fromBlock := GetOr(fromBlock, 0);
      this.toBlock := GetOr(toBlock, Latest);
      this.step := step;
      currentBlock := GetOr(fromBlock, 0);
      awaitingHead := GetOr(toBlock, Latest).Latest?;
      requests := [];
    }

    /** The chain-head query resolving with block `n`. */
    method HeadResolved(n: int)
      modifies this
      ensures old(awaitingHead) ==> toBlock == Block(n) && !awaitingHead
      ensures !old(awaitingHead) ==> toBlock == old(toBlock) && awaitingHead == old(awaitingHead)
      ensures fromBlock == old(fromBlock)
      ensures currentBlock == old(currentBlock) && requests == old(requests)
    {
      if awaitingHead {
        toBlock := Block(n);
        awaitingHead := false;
      }
    }

    /** getPastEvents(): one request per step while the current block is at
        most the end; against the 'latest' tag the comparison is false and
        nothing is asked. The current block is not reset between calls. */
    method GetPastEvents()
      requires step > 0
      modifies this
      ensures toBlock.Latest? ==> currentBlock == old(currentBlock) && requests == old(requests)
      ensures toBlock.Block? ==>
        requests == old(requests) + Windows(old(currentBlock), toBlock.n, step) &&
        currentBlock == After(old(currentBlock), toBlock.n, step)
      ensures fromBlock == old(fromBlock) && toBlock == old(toBlock)
      ensures awaitingHead == old(awaitingHead)
    {
      if toBlock.Latest? {
        return;
      }
      var hi := toBlock.n;
      while currentBlock <= hi
        invariant fromBlock == old(fromBlock) && toBlock == old(toBlock)
        invariant awaitingHead == old(awaitingHead)
        invariant old(requests) + Windows(old(currentBlock), hi, step) ==
                  requests + Windows(currentBlock, hi, step)
        invariant After(currentBlock, hi, step) == After(old(currentBlock), hi, step)
        decreases hi - currentBlock + 1
      {
        requests := requests + [(currentBlock, currentBlock + step)];
        currentBlock := currentBlock + step;
      }
    }
  }
}
