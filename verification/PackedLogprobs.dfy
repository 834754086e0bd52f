/**
 * Next-token log-probabilities of packed sequences, with the sequences cut across context-parallel ranks and the
 * vocabulary across tensor-parallel ranks. All of the cutting, rolling, gathering and unpacking amounts to one formula:
 * entry `j` of sequence `i` is the log-probability of the sequence's token `j + 1` under its logits at `j`.
 */
module PackedLogprobs {
  import opened Seqs
  import opened Lists
  import opened BatchedDataDicts
  import opened ContextParallel
  import opened VocabParallel

  /** The logits of one position, by tensor-parallel rank. */
  type Logits = seq<seq<real>>

  /** `roll(shifts=-1)`. */
  function Roll<T>(s: seq<T>): (r: seq<T>)
    ensures |r| == |s|
  {
    if s == [] then [] else s[1..] + [s[0]]
  }

  /** The log-probability of a token under one position's logits. */
  function TokenLogprob(position: Logits, token: int, exp: real -> real, log: real -> real): real {
    if Flatten(position) == [] then 0.0 else Logprob(Flatten(position), token, exp, log)
  }

  lemma TokenLogprobMeans(position: Logits, token: int, exp: real -> real, log: real -> real)
    requires AreExpLog(exp, log)
    ensures IsLogprob(TokenLogprob(position, token, exp, log), Flatten(position), token, exp, log)
  {
    if Flatten(position) != [] {
      LogprobMeans(Flatten(position), token, exp, log);
    }
  }

  function LogprobFn(exp: real -> real, log: real -> real): (Logits, int) -> real {
    (position, token) => TokenLogprob(position, token, exp, log)
  }

  function Logprobs(positions: seq<Logits>, tokens: seq<int>, exp: real -> real, log: real -> real): (r: seq<real>)
    requires |positions| == |tokens|
    ensures |r| == |positions|
  {
    Pointwise(LogprobFn(exp, log), positions, tokens)
  }

  /** Cumulative sequence starts of a packed batch; every sequence is padded so that it can be cut for the ranks. */
  ghost predicate IsCumulative(cu: seq<nat>, total: nat, cp: nat) {
    && cu != []
    && (forall i :: 0 <= i < |cu| ==> cu[i] <= total && Divisible(cu[i], cp))
    && (forall i, j :: 0 <= i <= j < |cu| ==> cu[i] <= cu[j])
  }

  ghost predicate Divisible(x: nat, cp: nat) { cp == 1 || (cp > 1 && x % (2 * cp) == 0) }

  /** Sequence `i` of packed data. */
  function SequenceOf<T>(packed: seq<T>, cu: seq<nat>, i: nat): seq<T>
    requires i + 1 < |cu| && cu[i] <= cu[i + 1] <= |packed|
  {
    packed[cu[i]..cu[i + 1]]
  }

  /** Where a packed position lies on a rank. */
  function LocalOffset(x: nat, cp: nat): nat
    requires 0 < cp
  {
    x / cp
  }

  /** Sequence `i` on a rank: as long as the whole, divided by the number of ranks. */
  ghost predicate HoldsSequence<T>(local: seq<T>, part: seq<T>, cu: seq<nat>, cp: nat, i: nat)
    requires 0 < cp && i + 1 < |cu|
  {
    LocalOffset(cu[i], cp) <= LocalOffset(cu[i + 1], cp) <= |local| && local[LocalOffset(cu[i], cp)..LocalOffset(cu[i + 1], cp)] == part
  }

  lemma DivMonotone(x: nat, y: nat, cp: nat)
    requires 0 < cp && x <= y
    ensures LocalOffset(x, cp) <= LocalOffset(y, cp)
  {
    var q := x / cp;
    var r := y / cp;
    assert q * cp <= x && y < r * cp + cp;
    assert q >= r + 1 ==> q * cp >= (r + 1) * cp;
  }

  /** How a divisible offset splits. */
  lemma DivisibleOffset(x: nat, cp: nat) returns (half: nat)
    requires 1 < cp && Divisible(x, cp)
    ensures x == 2 * cp * half && LocalOffset(x, cp) == 2 * half
  {
    half := x / (2 * cp);
    assert x == 2 * cp * half;
    assert 2 * cp * half == 2 * half * cp;
    ModUnique(x, 2 * half, 0, cp);
  }

  /** A rank's part of a sequence fits exactly between its local offsets. */
  lemma PartLength<T>(x: seq<T>, low: nat, high: nat, r: nat, cp: nat)
    requires r < cp && low <= high && |x| == high - low && Divisible(low, cp) && Divisible(high, cp)
    ensures LocalOffset(low, cp) <= LocalOffset(high, cp)
    ensures |TokensOnRank(x, r, cp)| == LocalOffset(high, cp) - LocalOffset(low, cp)
  {
    DivMonotone(low, high, cp);
    if cp > 1 {
      var a := DivisibleOffset(low, cp);
      var b := DivisibleOffset(high, cp);
      assert |x| == 2 * cp * (b - a);
      assert a <= b by {
        assert a > b ==> 2 * cp * a > 2 * cp * b;
      }
      ShardHalves(x, cp, b - a, r);
    }
  }

  /** The first `n` parts lie in their slices. */
  ghost predicate HoldsParts<T>(local: seq<T>, parts: seq<seq<T>>, cu: seq<nat>, cp: nat, n: nat)
    requires 0 < cp && n <= |parts| == |cu| - 1
  {
    forall i :: 0 <= i < n ==> HoldsSequence(local, parts[i], cu, cp, i)
  }

  /** What has been written below `low` is unchanged by writing above. */
  lemma KeepsEarlier<T>(before: seq<T>, after: seq<T>, low: nat, cu: seq<nat>, cp: nat, i: nat, part: seq<T>)
    requires 0 < cp && i + 1 < |cu| && low <= |before| == |after| && before[..low] == after[..low] && LocalOffset(cu[i + 1], cp) <= low
    requires HoldsSequence(before, part, cu, cp, i)
    ensures HoldsSequence(after, part, cu, cp, i)
  {
    assert before[LocalOffset(cu[i], cp)..LocalOffset(cu[i + 1], cp)] == before[..low][LocalOffset(cu[i], cp)..LocalOffset(cu[i + 1], cp)];
    assert after[LocalOffset(cu[i], cp)..LocalOffset(cu[i + 1], cp)] == after[..low][LocalOffset(cu[i], cp)..LocalOffset(cu[i + 1], cp)];
  }

  lemma OnePartMore<T>(before: seq<T>, after: seq<T>, parts: seq<seq<T>>, cu: seq<nat>, total: nat, cp: nat, i: nat)
    requires 0 < cp && IsCumulative(cu, total, cp) && i < |parts| == |cu| - 1 && HoldsParts(before, parts, cu, cp, i)
    requires |before| == |after| && LocalOffset(cu[i], cp) <= |before| && before[..LocalOffset(cu[i], cp)] == after[..LocalOffset(cu[i], cp)]
    requires HoldsSequence(after, parts[i], cu, cp, i)
    ensures HoldsParts(after, parts, cu, cp, i + 1)
  {
    forall m | 0 <= m < i ensures HoldsSequence(after, parts[m], cu, cp, m) {
      DivMonotone(cu[m + 1], cu[i], cp);
      KeepsEarlier(before, after, LocalOffset(cu[i], cp), cu, cp, m, parts[m]);
    }
  }

  /** Writes sequence `i`'s part into its slice, as a slice assignment does. */
  method WritePart<T>(a: array<T>, cu: seq<nat>, cp: nat, i: nat, part: seq<T>, ghost parts: seq<seq<T>>, ghost total: nat)
    requires 0 < cp && IsCumulative(cu, total, cp) && i < |parts| == |cu| - 1 && total / cp <= a.Length
    requires HoldsParts(a[..], parts, cu, cp, i) && part == parts[i] && LocalOffset(cu[i], cp) + |part| == LocalOffset(cu[i + 1], cp)
    modifies a
    ensures HoldsParts(a[..], parts, cu, cp, i + 1)
  {
    var low, high := LocalOffset(cu[i], cp), LocalOffset(cu[i + 1], cp);
    DivMonotone(cu[i + 1], total, cp);
    ghost var before := a[..];
    forall k | low <= k < high {
      a[k] := part[k - low];
    }
    assert a[low..high] == part;
    assert a[..][..low] == before[..low];
    OnePartMore(before, a[..], parts, cu, total, cp, i);
  }

  /** What rank `r` must hold of every sequence. */
  function RankParts<T>(parts: seq<seq<T>>, r: nat, cp: nat): seq<seq<T>>
    requires r < cp
  {
    seq(|parts|, i requires 0 <= i < |parts| => TokensOnRank(parts[i], r, cp))
  }

  function Sequences<T>(packed: seq<T>, cu: seq<nat>): seq<seq<T>>
    requires cu != [] && forall i, j :: 0 <= i <= j < |cu| ==> cu[i] <= cu[j] <= |packed|
  {
    seq(|cu| - 1, i requires 0 <= i < |cu| - 1 => SequenceOf(packed, cu, i))
  }

  function Rolled(sequences: seq<seq<int>>): seq<seq<int>> {
    seq(|sequences|, i requires 0 <= i < |sequences| => Roll(sequences[i]))
  }

  /** This rank's tokens of one rolled sequence. */
  method RolledPart(target: seq<int>, cu: seq<nat>, i: nat, r: nat, cp: nat) returns (part: seq<int>)
    requires r < cp && IsCumulative(cu, |target|, cp) && i + 1 < |cu|
    ensures part == RankParts(Rolled(Sequences(target, cu)), r, cp)[i] && LocalOffset(cu[i], cp) + |part| == LocalOffset(cu[i + 1], cp)
  {
    var sequence := Roll(target[cu[i]..cu[i + 1]]);
    PartLength(sequence, cu[i], cu[i + 1], r, cp);
    part := TokensOnRank(sequence, r, cp);
  }

  /** Every sequence rolled by one, and this rank's tokens of it written to this rank's slice. */
  method RolledTargets(target: seq<int>, cu: seq<nat>, r: nat, cp: nat) returns (rolled: seq<int>)
    requires r < cp && IsCumulative(cu, |target|, cp)
    ensures |rolled| == |target| / cp
    ensures HoldsParts(rolled, RankParts(Rolled(Sequences(target, cu)), r, cp), cu, cp, |cu| - 1)
  {
    var buffer := new int[|target| / cp](_ => 0);
    ghost var parts := RankParts(Rolled(Sequences(target, cu)), r, cp);
    for i := 0 to |cu| - 1
      invariant HoldsParts(buffer[..], parts, cu, cp, i)
    {
      var part := RolledPart(target, cu, i, r, cp);
      WritePart(buffer, cu, cp, i, part, parts, |target|);
    }
    rolled := buffer[..];
  }

  // ---- Log-probabilities on a rank ----

  lemma LogprobsSlice(positions: seq<Logits>, tokens: seq<int>, low: nat, high: nat, exp: real -> real, log: real -> real)
    requires low <= high <= |positions| == |tokens|
    ensures Logprobs(positions, tokens, exp, log)[low..high] == Logprobs(positions[low..high], tokens[low..high], exp, log)
  {
  }

  /** What every sequence's log-probabilities are, before any cutting. */
  function SequenceLogprobs(full: seq<Logits>, target: seq<int>, cu: seq<nat>, exp: real -> real, log: real -> real)
    : seq<seq<real>>
    requires |full| == |target| && cu != [] && forall i, j :: 0 <= i <= j < |cu| ==> cu[i] <= cu[j] <= |full|
  {
    seq(|cu| - 1, i requires 0 <= i < |cu| - 1 =>
      Logprobs(SequenceOf(full, cu, i), Roll(SequenceOf(target, cu, i)), exp, log))
  }

  lemma LogprobsOfPart(local: seq<Logits>, rolled: seq<int>, logits: seq<Logits>, tokens: seq<int>, cu: seq<nat>, cp: nat,
                       i: nat, exp: real -> real, log: real -> real)
    requires 0 < cp && i + 1 < |cu| && |local| == |rolled| && |logits| == |tokens|
    requires HoldsSequence(local, logits, cu, cp, i) && HoldsSequence(rolled, tokens, cu, cp, i)
    ensures HoldsSequence(Logprobs(local, rolled, exp, log), Logprobs(logits, tokens, exp, log), cu, cp, i)
  {
    LogprobsSlice(local, rolled, LocalOffset(cu[i], cp), LocalOffset(cu[i + 1], cp), exp, log);
  }

  /** A rank that holds its tokens of the logits and of the rolled targets obtains its tokens of the log-probabilities. */
  lemma RankLogprobs(local: seq<Logits>, rolled: seq<int>, full: seq<Logits>, target: seq<int>, cu: seq<nat>, r: nat,
                     cp: nat, exp: real -> real, log: real -> real)
    requires r < cp && |full| == |target| && |local| == |rolled| && IsCumulative(cu, |target|, cp)
    requires HoldsParts(local, RankParts(Sequences(full, cu), r, cp), cu, cp, |cu| - 1)
    requires HoldsParts(rolled, RankParts(Rolled(Sequences(target, cu)), r, cp), cu, cp, |cu| - 1)
    ensures HoldsParts(Logprobs(local, rolled, exp, log),
                       RankParts(SequenceLogprobs(full, target, cu, exp, log), r, cp), cu, cp, |cu| - 1)
  {
    forall i | 0 <= i < |cu| - 1
      ensures HoldsSequence(Logprobs(local, rolled, exp, log),
                            RankParts(SequenceLogprobs(full, target, cu, exp, log), r, cp)[i], cu, cp, i)
    {
      var logits, tokens := SequenceOf(full, cu, i), Roll(SequenceOf(target, cu, i));
      assert HoldsSequence(local, RankParts(Sequences(full, cu), r, cp)[i], cu, cp, i);
      assert HoldsSequence(rolled, RankParts(Rolled(Sequences(target, cu)), r, cp)[i], cu, cp, i);
      PointwiseOnRank(LogprobFn(exp, log), logits, tokens, r, cp);
      LogprobsOfPart(local, rolled, TokensOnRank(logits, r, cp), TokensOnRank(tokens, r, cp), cu, cp, i, exp, log);
    }
  }

  ghost predicate EvenPositions(positions: seq<Logits>, size: nat) {
    forall p :: 0 <= p < |positions| ==> EvenVocab(positions[p], size)
  }

  /** `DistributedLogprob` or, with a chunk size, `ChunkedDistributedLogprob`. */
  method LocalLogprobs(positions: seq<Logits>, tokens: seq<int>, size: nat, chunkSize: Option<nat>,
                       exp: real -> real, log: real -> real)
    returns (probs: seq<real>)
    requires |positions| == |tokens| && EvenPositions(positions, size) && chunkSize != Some(0)
    ensures probs == Logprobs(positions, tokens, exp, log)
  {
    match chunkSize {
      case Some(n) =>
        probs := ChunkedDistributedLogprob(positions, tokens, size, n, exp, log);
        forall p | 0 <= p < |positions| ensures probs[p] == Logprobs(positions, tokens, exp, log)[p] {
          assert Flatten(positions[p]) != [];
        }
      case None =>
        probs := [];
        for p := 0 to |positions|
          invariant |probs| == p
          invariant forall k :: 0 <= k < p ==> probs[k] == Logprobs(positions, tokens, exp, log)[k]
        {
          DistributedIsLogprob(positions[p], size, tokens[p], exp, log);
          probs := probs + [DistributedLogprob(positions[p], size, tokens[p], exp, log)];
        }
    }
  }

  /** The ranks' tokens of every sequence. */
  ghost predicate AllRanksHold<T>(locals: seq<seq<T>>, parts: seq<seq<T>>, cu: seq<nat>, cp: nat)
    requires |locals| <= cp && |parts| == |cu| - 1
  {
    forall r :: 0 <= r < |locals| ==> HoldsParts(locals[r], RankParts(parts, r, cp), cu, cp, |parts|)
  }

  /** Slice `low..high` of every rank. */
  function RankSlices<T>(locals: seq<seq<T>>, low: nat, high: nat): seq<seq<T>>
    requires low <= high && forall r :: 0 <= r < |locals| ==> high <= |locals[r]|
  {
    seq(|locals|, r requires 0 <= r < |locals| => locals[r][low..high])
  }

  lemma SlicesAreShards<T>(locals: seq<seq<T>>, parts: seq<seq<T>>, cu: seq<nat>, cp: nat, i: nat)
    requires 0 < cp == |locals| && i < |parts| == |cu| - 1 && AllRanksHold(locals, parts, cu, cp)
    ensures LocalOffset(cu[i], cp) <= LocalOffset(cu[i + 1], cp) && forall r :: 0 <= r < |locals| ==> LocalOffset(cu[i + 1], cp) <= |locals[r]|
    ensures RankSlices(locals, LocalOffset(cu[i], cp), LocalOffset(cu[i + 1], cp)) == Sharded(parts[i], cp)
  {
    forall r | 0 <= r < cp
      ensures LocalOffset(cu[i], cp) <= LocalOffset(cu[i + 1], cp) <= |locals[r]|
      ensures locals[r][LocalOffset(cu[i], cp)..LocalOffset(cu[i + 1], cp)] == TokensOnRank(parts[i], r, cp)
    {
      assert HoldsParts(locals[r], RankParts(parts, r, cp), cu, cp, |parts|);
      assert HoldsSequence(locals[r], RankParts(parts, r, cp)[i], cu, cp, i);
    }
    assert LocalOffset(cu[i], cp) <= LocalOffset(cu[i + 1], cp) <= |locals[0]|;
  }

  /** How long a rank's tokens of a divisible part are. */
  lemma EvenShards<T>(x: seq<T>, low: nat, high: nat, cp: nat) returns (half: nat)
    requires 1 < cp && low <= high && |x| == high - low && Divisible(low, cp) && Divisible(high, cp)
    ensures EvenLocals(Sharded(x, cp), half) && |x| % (2 * cp) == 0
  {
    var a := DivisibleOffset(low, cp);
    var b := DivisibleOffset(high, cp);
    assert |x| == 2 * cp * (b - a);
    assert a <= b by {
      assert a > b ==> 2 * cp * a > 2 * cp * b;
    }
    half := b - a;
    ModUnique(|x|, half, 0, 2 * cp);
    forall r | 0 <= r < cp ensures |Sharded(x, cp)[r]| == 2 * half {
      ShardHalves(x, cp, half, r);
    }
  }

  lemma WholeParts<T>(local: seq<T>, parts: seq<seq<T>>, cu: seq<nat>)
    requires |parts| == |cu| - 1 && HoldsParts(local, RankParts(parts, 0, 1), cu, 1, |parts|)
    ensures HoldsParts(local, parts, cu, 1, |parts|)
  {
    assert RankParts(parts, 0, 1) == parts;
  }

  /** A divisible offset is still in bounds after dividing the total by the number of ranks and multiplying again. */
  lemma TotalRoundsDown(x: nat, total: nat, cp: nat)
    requires 1 < cp && x <= total && Divisible(x, cp)
    ensures x <= total / cp * cp
  {
    var half := DivisibleOffset(x, cp);
    DivMonotone(x, total, cp);
    assert 2 * half * cp == x;
    assert 2 * half <= total / cp;
    assert 2 * half * cp <= total / cp * cp;
  }

  /** The per-sequence gather over the ranks. */
  method GatherSequences(probs: seq<seq<real>>, cu: seq<nat>, total: nat, ghost parts: seq<seq<real>>)
    returns (final: seq<real>)
    requires var cp := |probs|; 1 < cp && IsCumulative(cu, total, cp) && |parts| == |cu| - 1
    requires AllRanksHold(probs, parts, cu, |probs|) && forall r :: 0 <= r < |probs| ==> |probs[r]| == total / |probs|
    requires forall i :: 0 <= i < |parts| ==> |parts[i]| == cu[i + 1] - cu[i]
    ensures HoldsParts(final, parts, cu, 1, |parts|)
  {
    var cp := |probs|;
    var buffer := new real[total / cp * cp](_ => 0.0);
    ghost var reach := cu[|cu| - 1];
    TotalRoundsDown(reach, total, cp);
    for i := 0 to |cu| - 1
      invariant HoldsParts(buffer[..], parts, cu, 1, i)
    {
      SlicesAreShards(probs, parts, cu, cp, i);
      ghost var half := EvenShards(parts[i], cu[i], cu[i + 1], cp);
      var full := AllGather(RankSlices(probs, LocalOffset(cu[i], cp), LocalOffset(cu[i + 1], cp)), half);
      GatherUndoesShard(parts[i], cp);
      WritePart(buffer, cu, 1, i, full, parts, reach);
    }
    final := buffer[..];
  }

  // ---- Unpacking ----

  /** Entry `j` of sequence `i`: its token `j + 1` under its logits at `j`, and zero from its last position on. */
  function PackedEntry(full: seq<Logits>, target: seq<int>, cu: seq<nat>, i: nat, j: nat, exp: real -> real, log: real -> real)
    : real
    requires |full| == |target| && i + 1 < |cu| && cu[i + 1] <= |target|
  {
    if cu[i] + j + 1 < cu[i + 1] then TokenLogprob(full[cu[i] + j], target[cu[i] + j + 1], exp, log) else 0.0
  }

  /** Rolling brings the next token to every position but the last. */
  lemma NextToken(full: seq<Logits>, target: seq<int>, cu: seq<nat>, i: nat, j: nat, exp: real -> real, log: real -> real)
    requires |full| == |target| && i + 1 < |cu| && cu[i] + j + 1 < cu[i + 1] <= |full|
    ensures Logprobs(SequenceOf(full, cu, i), Roll(SequenceOf(target, cu, i)), exp, log)[j]
         == PackedEntry(full, target, cu, i, j, exp, log)
  {
    assert Roll(SequenceOf(target, cu, i))[j] == target[cu[i] + j + 1];
  }

  /** The rolled target at `j` is the next token, except at the last position, which is dropped. */
  lemma RolledEntry(full: seq<Logits>, target: seq<int>, cu: seq<nat>, probs: seq<real>, i: nat, j: nat,
                    exp: real -> real, log: real -> real)
    requires |full| == |target| && cu != [] && forall k, m :: 0 <= k <= m < |cu| ==> cu[k] <= cu[m] <= |full|
    requires i + 1 < |cu| && cu[i] + j + 1 < cu[i + 1]
    requires HoldsParts(probs, SequenceLogprobs(full, target, cu, exp, log), cu, 1, |cu| - 1)
    ensures cu[i + 1] <= |probs| && probs[cu[i] + j] == PackedEntry(full, target, cu, i, j, exp, log)
  {
    var part := Logprobs(SequenceOf(full, cu, i), Roll(SequenceOf(target, cu, i)), exp, log);
    assert HoldsSequence(probs, part, cu, 1, i) by {
      assert SequenceLogprobs(full, target, cu, exp, log)[i] == part;
    }
    SliceAt(probs, cu[i], cu[i + 1] - cu[i], j);
    NextToken(full, target, cu, i, j, exp, log);
  }

  /**
   * `from_parallel_logits_to_logprobs_packed_sequences` over all ranks. Rank `r` of the context-parallel group holds
   * its tokens of every sequence's logits; whatever the ranks, the sequence lengths and the chunk size, the result is
   * the same as without any parallelism.
   */
  method PackedSequenceLogprobs(locals: seq<seq<Logits>>, target: seq<int>, cu: seq<nat>, unpackedLen: nat, size: nat,
                                chunkSize: Option<nat>, exp: real -> real, log: real -> real, ghost full: seq<Logits>)
    returns (out: array2<real>)
    requires 0 < |locals| && 0 < unpackedLen && chunkSize != Some(0)
    requires |full| == |target| && IsCumulative(cu, |target|, |locals|)
    requires AllRanksHold(locals, Sequences(full, cu), cu, |locals|)
    requires forall r :: 0 <= r < |locals| ==> |locals[r]| == |target| / |locals| && EvenPositions(locals[r], size)
    ensures out.Length0 == |cu| - 1 && out.Length1 == unpackedLen - 1
    ensures forall i, j :: 0 <= i < out.Length0 && 0 <= j < out.Length1 ==>
                             out[i, j] == PackedEntry(full, target, cu, i, j, exp, log)
    ensures AreExpLog(exp, log) ==> forall i, j :: 0 <= i < out.Length0 && 0 <= j < out.Length1 ==>
              if cu[i] + j + 1 < cu[i + 1]
              then IsLogprob(out[i, j], Flatten(full[cu[i] + j]), target[cu[i] + j + 1], exp, log)
              else out[i, j] == 0.0
  {
    var cp := |locals|;
    ghost var parts := SequenceLogprobs(full, target, cu, exp, log);
    var probs: seq<seq<real>> := [];
    for r := 0 to cp
      invariant |probs| == r && forall k :: 0 <= k < r ==> |probs[k]| == |target| / cp
      invariant AllRanksHold(probs, parts, cu, cp)
    {
      var rolled := RolledTargets(target, cu, r, cp);
      var local := LocalLogprobs(locals[r], rolled, size, chunkSize, exp, log);
      RankLogprobs(locals[r], rolled, full, target, cu, r, cp, exp, log);
      probs := probs + [local];
    }
    var whole := probs[0];
    if cp > 1 {
      whole := GatherSequences(probs, cu, |target|, parts);
    } else {
      WholeParts(whole, parts, cu);
    }
    out := Unpack(whole, target, cu, unpackedLen, exp, log, full);
    if AreExpLog(exp, log) {
      PackedEntriesMean(full, target, cu, exp, log);
    }
  }

  lemma PackedEntriesMean(full: seq<Logits>, target: seq<int>, cu: seq<nat>, exp: real -> real, log: real -> real)
    requires AreExpLog(exp, log) && |full| == |target| && cu != []
    requires forall k, m :: 0 <= k <= m < |cu| ==> cu[k] <= cu[m] <= |full|
    ensures forall i: nat, j: nat {:trigger PackedEntry(full, target, cu, i, j, exp, log)} :: i + 1 < |cu| ==>
              if cu[i] + j + 1 < cu[i + 1]
              then IsLogprob(PackedEntry(full, target, cu, i, j, exp, log), Flatten(full[cu[i] + j]),
                             target[cu[i] + j + 1], exp, log)
              else PackedEntry(full, target, cu, i, j, exp, log) == 0.0
  {
    forall i: nat, j: nat | i + 1 < |cu| && cu[i] + j + 1 < cu[i + 1]
      ensures IsLogprob(PackedEntry(full, target, cu, i, j, exp, log), Flatten(full[cu[i] + j]),
                        target[cu[i] + j + 1], exp, log)
    {
      TokenLogprobMeans(full[cu[i] + j], target[cu[i] + j + 1], exp, log);
    }
  }

  /** One sequence without its last entry, as far as it fits, into its row. */
  method FillRow(out: array2<real>, i: nat, probs: seq<real>, start: nat, end: nat)
    requires i < out.Length0 && start <= end <= |probs|
    modifies out
    ensures forall j :: 0 <= j < out.Length1 ==>
                          out[i, j] == if start + j + 1 < end then probs[start + j] else old(out[i, j])
    ensures forall k, j :: 0 <= k < out.Length0 && k != i && 0 <= j < out.Length1 ==> out[k, j] == old(out[k, j])
  {
    if end > start {
      var sequence := probs[start..end - 1];
      var length := Min(|sequence|, out.Length1);
      forall j | 0 <= j < length {
        out[i, j] := sequence[j];
      }
    }
  }

  /** The last token of each sequence is filtered out and the rest goes to the sequence's row. */
  method Unpack(probs: seq<real>, ghost target: seq<int>, cu: seq<nat>, unpackedLen: nat, exp: real -> real,
                log: real -> real, ghost full: seq<Logits>)
    returns (out: array2<real>)
    requires 0 < unpackedLen && |full| == |target| && cu != []
    requires forall k, m :: 0 <= k <= m < |cu| ==> cu[k] <= cu[m] <= |full|
    requires HoldsParts(probs, SequenceLogprobs(full, target, cu, exp, log), cu, 1, |cu| - 1)
    ensures fresh(out) && out.Length0 == |cu| - 1 && out.Length1 == unpackedLen - 1
    ensures forall i, j :: 0 <= i < out.Length0 && 0 <= j < out.Length1 ==>
                             out[i, j] == PackedEntry(full, target, cu, i, j, exp, log)
  {
    out := new real[|cu| - 1, unpackedLen - 1]((_, _) => 0.0);
    for i := 0 to |cu| - 1
      invariant forall k, j :: 0 <= k < i && 0 <= j < out.Length1 ==> out[k, j] == PackedEntry(full, target, cu, k, j, exp, log)
      invariant forall k, j :: i <= k < |cu| - 1 && 0 <= j < out.Length1 ==> out[k, j] == 0.0
    {
      assert HoldsSequence(probs, SequenceLogprobs(full, target, cu, exp, log)[i], cu, 1, i);
      FillRow(out, i, probs, cu[i], cu[i + 1]);
      forall j | 0 <= j < out.Length1 ensures out[i, j] == PackedEntry(full, target, cu, i, j, exp, log) {
        if cu[i] + j + 1 < cu[i + 1] {
          RolledEntry(full, target, cu, probs, i, j, exp, log);
        }
      }
    }
  }

  // ---- One sequence that is not packed ----

  lemma ShardedLength<T>(x: seq<T>, cp: nat)
    requires 0 < cp && Divisible(|x|, cp)
    ensures |Sharded(x, cp)[0]| * cp == |x|
  {
    if cp > 1 {
      var half := DivisibleOffset(|x|, cp);
      ShardHalves(x, cp, half, 0);
      assert 2 * half * cp == 2 * cp * half;
    }
  }

  /** Every rank's log-probabilities of its tokens. */
  method LogprobsOfRanks(locals: seq<seq<Logits>>, rolled: seq<int>, size: nat, chunkSize: Option<nat>,
                         exp: real -> real, log: real -> real, ghost full: seq<Logits>)
    returns (probs: seq<seq<real>>)
    requires 0 < |locals| && chunkSize != Some(0) && |rolled| == |full| && locals == Sharded(full, |locals|)
    requires forall r :: 0 <= r < |locals| ==> EvenPositions(locals[r], size)
    ensures probs == Sharded(Logprobs(full, rolled, exp, log), |locals|)
  {
    var cp := |locals|;
    probs := [];
    ghost var whole := Logprobs(full, rolled, exp, log);
    for r := 0 to cp
      invariant |probs| == r && forall k :: 0 <= k < r ==> probs[k] == Sharded(whole, cp)[k]
    {
      PointwiseOnRank(LogprobFn(exp, log), full, rolled, r, cp);
      var local := LocalLogprobs(locals[r], TokensOnRank(rolled, r, cp), size, chunkSize, exp, log);
      probs := probs + [local];
    }
  }

  /** The gather over the ranks, where there is more than one. */
  method GatherShards<T>(shards: seq<seq<T>>, ghost whole: seq<T>) returns (gathered: seq<T>)
    requires 0 < |shards| && Divisible(|whole|, |shards|) && shards == Sharded(whole, |shards|)
    ensures gathered == whole
  {
    gathered := shards[0];
    if |shards| > 1 {
      ghost var half := EvenShards(whole, 0, |whole|, |shards|);
      GatherUndoesShard(whole, |shards|);
      gathered := AllGather(shards, half);
    }
  }

  /**
   * `from_parallel_logits_to_logprobs` over all ranks, for one sequence of the batch: the targets are rolled, padded to
   * the length of the logits and cut for the ranks; the gathered log-probabilities lose the padding and the last one.
   */
  method SequenceLogprobsOverRanks(locals: seq<seq<Logits>>, target: seq<int>, size: nat, chunkSize: Option<nat>,
                                   exp: real -> real, log: real -> real, ghost full: seq<Logits>)
    returns (out: seq<real>)
    requires 0 < |locals| && target != [] && chunkSize != Some(0) && Divisible(|full|, |locals|)
    requires locals == Sharded(full, |locals|) && |target| <= |full|
    requires forall r :: 0 <= r < |locals| ==> EvenPositions(locals[r], size)
    ensures |out| == |target| - 1
    ensures forall j :: 0 <= j < |out| ==> out[j] == TokenLogprob(full[j], target[j + 1], exp, log)
    ensures AreExpLog(exp, log) ==> forall j :: 0 <= j < |out| ==>
              IsLogprob(out[j], Flatten(full[j]), target[j + 1], exp, log)
  {
    ShardedLength(full, |locals|);
    var padLen: nat := |locals[0]| * |locals| - |target|;
    var rolled := Roll(target) + seq(padLen, _ => 0);
    var probs := LogprobsOfRanks(locals, rolled, size, chunkSize, exp, log, full);
    var gathered := GatherShards(probs, Logprobs(full, rolled, exp, log));
    out := gathered[..|gathered| - padLen];
    out := out[..|out| - 1];
    forall j | 0 <= j < |out| ensures out[j] == TokenLogprob(full[j], target[j + 1], exp, log) {
      assert rolled[j] == target[j + 1];
    }
    if AreExpLog(exp, log) {
      forall j | 0 <= j < |out| ensures IsLogprob(out[j], Flatten(full[j]), target[j + 1], exp, log) {
        TokenLogprobMeans(full[j], target[j + 1], exp, log);
      }
    }
  }
}
