/** The seeded Fisher–Yates shuffle of a byte window and its inverse.

    `System.Random` is not modelled: a generator created with a seed is a
    deterministic stream of raw samples, given here as a function of the seed
    and the position of the draw. Both directions of the cipher draw from the
    same stream with the same bounds, which is all the round trip needs. */
module FisherYates {
  import opened Bytes

  /** The k-th raw sample of a generator seeded with `seed`. */
  type Sampler = (int, nat) -> nat

  /** `int.MaxValue`; raw samples of the generator lie in [0, IntMax). */
  const IntMax: nat := 0x7FFF_FFFF

  /** `Random.Next(bound)` as the k-th draw: the raw sample scaled into [0, bound). */
  function Next(rng: Sampler, seed: int, k: nat, bound: nat): (r: nat)
    requires bound > 0
    ensures r < bound
  {
    var sample := rng(seed, k) % IntMax;
    ScaleBelow(sample, bound);
    sample * bound / IntMax
  }

  lemma ScaleBelow(sample: nat, bound: nat)
    requires sample < IntMax && bound > 0
    ensures sample * bound / IntMax < bound
  {
    var p := sample * bound;
    assert p < IntMax * bound by {
      assert (IntMax - sample) * bound > 0;
    }
  }

  /** The swap partner `i + Next(count - i)` drawn for position i. */
  function SwapTarget(rng: Sampler, seed: int, count: nat, i: nat): (r: nat)
    requires i < count
    ensures i <= r < count
  {
    i + Next(rng, seed, i, count - i)
  }

  /** The swap partners drawn for positions 0 to n - 1, in draw order. */
  function Draws(rng: Sampler, seed: int, count: nat, n: nat): (ts: seq<nat>)
    requires n <= count
    ensures |ts| == n
    ensures forall i :: 0 <= i < n ==> i <= ts[i] < count
  {
    if n == 0 then [] else Draws(rng, seed, count, n - 1) + [SwapTarget(rng, seed, count, n - 1)]
  }

  /** Draw i is the partner of position i. */
  lemma {:induction false} DrawAt(rng: Sampler, seed: int, count: nat, n: nat, i: nat)
    requires i < n <= count
    ensures Draws(rng, seed, count, n)[i] == SwapTarget(rng, seed, count, i)
  {
    if i < n - 1 {
      DrawAt(rng, seed, count, n - 1, i);
    }
  }

  /** The swap partners of positions 0 to count - 2 of a `count`-byte window. */
  function SwapTargets(rng: Sampler, seed: int, count: nat): (ts: seq<nat>)
    ensures |ts| == if count == 0 then 0 else count - 1
    ensures forall i :: 0 <= i < |ts| ==> i <= ts[i] < count
  {
    Draws(rng, seed, count, if count == 0 then 0 else count - 1)
  }

  /** Swap partners that stay inside a window of `len` bytes. */
  ghost predicate Fits(ts: seq<nat>, len: nat)
  {
    |ts| <= len && forall k :: 0 <= k < |ts| ==> ts[k] < len
  }

  function Swap(s: seq<Byte>, i: nat, j: nat): (r: seq<Byte>)
    requires i < |s| && j < |s|
    ensures |r| == |s|
  {
    seq(|s|, k requires 0 <= k < |s| => if k == i then s[j] else if k == j then s[i] else s[k])
  }

  /** The first n swaps of the shuffle loop, for i = 0, 1, ..., n - 1. */
  function Forward(s: seq<Byte>, ts: seq<nat>, n: nat): (r: seq<Byte>)
    requires Fits(ts, |s|) && n <= |ts|
    ensures |r| == |s|
  {
    if n == 0 then s else Swap(Forward(s, ts, n - 1), n - 1, ts[n - 1])
  }

  /** The same n swaps replayed from i = n - 1 down to 0. */
  function Backward(s: seq<Byte>, ts: seq<nat>, n: nat): (r: seq<Byte>)
    requires Fits(ts, |s|) && n <= |ts|
    ensures |r| == |s|
    decreases n
  {
    if n == 0 then s else Backward(Swap(s, n - 1, ts[n - 1]), ts, n - 1)
  }

  /** What `shuffle` leaves in the window. */
  function Shuffled(rng: Sampler, seed: int, s: seq<Byte>): (r: seq<Byte>)
    ensures |r| == |s|
  {
    var ts := SwapTargets(rng, seed, |s|);
    Forward(s, ts, |ts|)
  }

  /** What `reverseShuffle` leaves in the window. */
  function Unshuffled(rng: Sampler, seed: int, s: seq<Byte>): (r: seq<Byte>)
    ensures |r| == |s|
  {
    var ts := SwapTargets(rng, seed, |s|);
    Backward(s, ts, |ts|)
  }

  lemma SwapTwice(s: seq<Byte>, i: nat, j: nat)
    requires i < |s| && j < |s|
    ensures Swap(Swap(s, i, j), i, j) == s
  {
  }

  lemma SwapPermutes(s: seq<Byte>, i: nat, j: nat)
    requires i < |s| && j < |s|
    ensures multiset(Swap(s, i, j)) == multiset(s)
  {
    assert Swap(s, i, j) == s[i := s[j]][j := s[i]];
  }

  /** Replaying the swaps backwards undoes them. */
  lemma {:induction false} BackwardUndoesForward(s: seq<Byte>, ts: seq<nat>, n: nat)
    requires Fits(ts, |s|) && n <= |ts|
    ensures Backward(Forward(s, ts, n), ts, n) == s
  {
    if n > 0 {
      var prev := Forward(s, ts, n - 1);
      SwapTwice(prev, n - 1, ts[n - 1]);
      BackwardUndoesForward(s, ts, n - 1);
    }
  }

  /** And the swaps undo their backward replay: the shuffle is a bijection. */
  lemma {:induction false} ForwardUndoesBackward(s: seq<Byte>, ts: seq<nat>, n: nat)
    requires Fits(ts, |s|) && n <= |ts|
    ensures Forward(Backward(s, ts, n), ts, n) == s
    decreases n
  {
    if n > 0 {
      var swapped := Swap(s, n - 1, ts[n - 1]);
      ForwardUndoesBackward(swapped, ts, n - 1);
      SwapTwice(s, n - 1, ts[n - 1]);
    }
  }

  /** One more swap keeps the multiset of bytes. */
  lemma ForwardStepPermutes(s: seq<Byte>, ts: seq<nat>, n: nat)
    requires Fits(ts, |s|) && 0 < n <= |ts|
    ensures multiset(Forward(s, ts, n)) == multiset(Forward(s, ts, n - 1))
  {
    SwapPermutes(Forward(s, ts, n - 1), n - 1, ts[n - 1]);
  }

  /** Each step of a trace keeps the multiset, so the last keeps the first's. */
  lemma {:induction false} TracePermutes(trace: seq<seq<Byte>>)
    requires |trace| > 0
    requires forall k :: 0 < k < |trace| ==> multiset(trace[k]) == multiset(trace[k - 1])
    ensures multiset(trace[|trace| - 1]) == multiset(trace[0])
  {
    if |trace| > 1 {
      TracePermutes(trace[..|trace| - 1]);
    }
  }

  /** The n swaps only move bytes around. */
  lemma ForwardPermutes(s: seq<Byte>, ts: seq<nat>, n: nat)
    requires Fits(ts, |s|) && n <= |ts|
    ensures multiset(Forward(s, ts, n)) == multiset(s)
  {
    var trace := seq(n + 1, k requires 0 <= k <= n => Forward(s, ts, k));
    forall k | 0 < k < |trace|
      ensures multiset(trace[k]) == multiset(trace[k - 1])
    {
      ForwardStepPermutes(s, ts, k);
    }
    TracePermutes(trace);
    assert trace[0] == s && trace[n] == Forward(s, ts, n);
  }

  /** `reverseShuffle` with the seed that `shuffle` used restores the window. */
  lemma UnshuffleShuffle(rng: Sampler, seed: int, s: seq<Byte>)
    ensures Unshuffled(rng, seed, Shuffled(rng, seed, s)) == s
  {
    var ts := SwapTargets(rng, seed, |s|);
    BackwardUndoesForward(s, ts, |ts|);
  }

  /** `shuffle` with the seed undoes `reverseShuffle`. */
  lemma ShuffleUnshuffle(rng: Sampler, seed: int, s: seq<Byte>)
    ensures Shuffled(rng, seed, Unshuffled(rng, seed, s)) == s
  {
    var ts := SwapTargets(rng, seed, |s|);
    ForwardUndoesBackward(s, ts, |ts|);
  }

  /** The shuffle only moves bytes around. */
  lemma ShuffledPermutes(rng: Sampler, seed: int, s: seq<Byte>)
    ensures multiset(Shuffled(rng, seed, s)) == multiset(s)
  {
    var ts := SwapTargets(rng, seed, |s|);
    ForwardPermutes(s, ts, |ts|);
  }

  /** The three-assignment swap through `t` that both loops perform. */
  method SwapBytes(data: array<Byte>, count: nat, i: nat, r: nat)
    requires i < count && r < count && count <= data.Length
    modifies data
    ensures data[..count] == Swap(old(data[..count]), i, r)
    ensures data[count..] == old(data[count..])
  {
    var t := data[r];
    data[r] := data[i];
    data[i] := t;
    assert data[..count] == Swap(old(data[..count]), i, r);
  }

  /** `shuffle(data, dataCount, seed)`: an in-place Fisher–Yates pass over the
      first `count` bytes; the bytes after the window are not touched. */
  method Shuffle(data: array<Byte>, count: nat, seed: int, rng: Sampler)
    requires count <= data.Length
    modifies data
    ensures data[..count] == Shuffled(rng, seed, old(data[..count]))
    ensures data[count..] == old(data[count..])
  {
    ghost var window := data[..count];
    ghost var ts := SwapTargets(rng, seed, count);
    var i := 0;
    while i < count - 1
      invariant 0 <= i <= |ts|
      invariant data[..count] == Forward(window, ts, i)
      invariant data[count..] == old(data[count..])
    {
      var r := i + Next(rng, seed, i, count - i);
      DrawAt(rng, seed, count, |ts|, i);
      SwapBytes(data, count, i, r);
      assert data[..count] == Forward(window, ts, i + 1);
      i := i + 1;
    }
  }

  /** The first loop of `reverseShuffle`: the same draws as `shuffle`, kept in
      a list. */
  method DrawSwapTargets(rng: Sampler, seed: int, count: nat) returns (randomNumber: seq<nat>)
    ensures randomNumber == SwapTargets(rng, seed, count)
  {
    randomNumber := [];
    var i := 0;
    while i < count - 1
      invariant 0 <= i <= |SwapTargets(rng, seed, count)|
      invariant randomNumber == Draws(rng, seed, count, i)
    {
      randomNumber := randomNumber + [i + Next(rng, seed, i, count - i)];
      i := i + 1;
    }
  }

  /** `reverseShuffle(data, dataCount, seed)`: draws the same swap partners into
      a list, then replays the swaps from `count - 2` down to 0. */
  method ReverseShuffle(data: array<Byte>, count: nat, seed: int, rng: Sampler)
    requires count <= data.Length
    modifies data
    ensures data[..count] == Unshuffled(rng, seed, old(data[..count]))
    ensures data[count..] == old(data[count..])
  {
    ghost var window := data[..count];
    var randomNumber := DrawSwapTargets(rng, seed, count);
    var j: int := count - 2;
    ghost var left: nat := |randomNumber|;
    while j >= 0
      invariant -2 <= j < |randomNumber| && left <= |randomNumber|
      invariant left == if j < 0 then 0 else j + 1
      invariant Backward(data[..count], randomNumber, left) == Backward(window, randomNumber, |randomNumber|)
      invariant data[count..] == old(data[count..])
    {
      SwapBytes(data, count, j, randomNumber[j]);
      j, left := j - 1, left - 1;
    }
  }
}
