/** Secure random primitives (src/lib/random.ts) over an explicit stream of
    32-bit draws: rejection-sampled bounded integers, picking a character,
    and the Fisher-Yates shuffle. */
module Random {
  import opened Common

  /** The numerator getSecureRandomInt divides by: 0xFFFFFFFF, not 2^32. */
  const U32_MAX: int := 0xFFFF_FFFF

  /** The largest multiple of `max` that does not exceed `n`. It is written
      recursively, one subtraction of `max` per step, so that no product of
      two variables reaches the proofs that mention AcceptLimit; the product
      form is recovered in LargestMultipleIsFloorProduct. It is a
      specification, not meant to be executed. */
  function LargestMultiple(n: nat, max: int): (m: nat)
    requires max > 0
    ensures m <= n && n - m < max
    decreases n
  {
    if n < max then 0 else max + LargestMultiple(n - max, max)
  }

  /** floor(0xFFFFFFFF / max) * max: draws at or above it are rejected.
      The product is computed as the largest multiple of `max` not above
      0xFFFFFFFF; AcceptLimitIsFloorProduct shows the two agree. */
  function AcceptLimit(max: int): (limit: int)
    requires max > 0
    ensures 0 <= limit <= U32_MAX
    ensures U32_MAX - limit < max
  {
    LargestMultiple(U32_MAX, max)
  }

  lemma {:induction false} LargestMultipleIsFloorProduct(n: nat, max: int)
    requires max > 0
    ensures LargestMultiple(n, max) == (n / max) * max
    decreases n
  {
    if n < max {
      DivModUnique(0, max, n);
    } else {
      LargestMultipleIsFloorProduct(n - max, max);
      var q, k := (n - max) / max, (n - max) % max;
      DivModUnique(q, max, k);
      DivModUnique(q + 1, max, k);
      assert n == (q + 1) * max + k;
    }
  }

  /** The limit is the product getSecureRandomInt writes,
      Math.floor(0xFFFFFFFF / max) * max, and a multiple of `max`. */
  lemma AcceptLimitIsFloorProduct(max: int)
    requires max > 0
    ensures AcceptLimit(max) == (U32_MAX / max) * max
    ensures AcceptLimit(max) % max == 0
  {
    LargestMultipleIsFloorProduct(U32_MAX, max);
    DivModUnique(U32_MAX / max, max, 0);
  }

  predicate Accepted(v: U32, max: int)
    requires max > 0
  {
    v < AcceptLimit(max)
  }

  /** getSecureRandomInt: consume draws until the first accepted one and
      return its residue modulo `max`. Rejected draws are discarded and the
      next draw is tried with the same `max`. */
  function GetSecureRandomInt(max: int, draws: seq<U32>): (r: Result<int>)
    ensures max <= 0 ==> r == Err(MaxNotPositive)
    ensures r.Ok? ==>
              var used := |draws| - |r.rest|;
              && 0 <= r.value < max
              && IsSuffix(r.rest, draws) && used > 0
              && Accepted(draws[used - 1], max)
              && r.value == draws[used - 1] % max
              && (forall k :: 0 <= k < used - 1 ==> !Accepted(draws[k], max))
    ensures max > 0 && r.Err? ==>
              r.error == EntropyExhausted && forall k :: 0 <= k < |draws| ==> !Accepted(draws[k], max)
    decreases |draws|
  {
    if max <= 0 then Err(MaxNotPositive)
    else if |draws| == 0 then Err(EntropyExhausted)
    else if draws[0] >= AcceptLimit(max) then GetSecureRandomInt(max, draws[1..])
    else Ok(draws[0] % max, draws[1..])
  }

  /** The number of values v in [0, n) with v % max == res. */
  function ResidueCount(max: int, res: int, n: nat): nat
    requires max > 0
  {
    if n == 0 then 0
    else ResidueCount(max, res, n - 1) + (if (n - 1) % max == res then 1 else 0)
  }

  lemma MulNonNegative(a: int, b: int)
    requires a >= 0 && b >= 0
    ensures a * b >= 0
  {
  }

  /** A multiple of `max` strictly between -max and max is zero. */
  lemma SmallMultiple(d: int, max: int)
    requires max > 0 && -max < d * max < max
    ensures d == 0
  {
    if d >= 1 {
      MulNonNegative(d - 1, max);
    } else if d <= -1 {
      MulNonNegative(-d - 1, max);
    }
  }

  /** Euclidean division is unique: q*max + k with 0 <= k < max has
      quotient q and remainder k. */
  lemma DivModUnique(q: int, max: int, k: int)
    requires max > 0 && 0 <= k < max
    ensures (q * max + k) % max == k
    ensures (q * max + k) / max == q
  {
    var x := q * max + k;
    var q', k' := x / max, x % max;
    assert x == q' * max + k';
    assert (q - q') * max == k' - k by {
      assert (q - q') * max == q * max - q' * max;
    }
    SmallMultiple(q - q', max);
  }

  lemma {:induction false} ResidueCountBlock(max: int, res: int, q: nat, k: nat)
    requires max > 0 && 0 <= res < max && k <= max
    ensures ResidueCount(max, res, q * max + k) == ResidueCount(max, res, q * max) + (if res < k then 1 else 0)
  {
    if k > 0 {
      ResidueCountBlock(max, res, q, k - 1);
      DivModUnique(q, max, k - 1);
    }
  }

  lemma {:induction false} ResidueCountMultiple(max: int, res: int, q: nat)
    requires max > 0 && 0 <= res < max
    ensures ResidueCount(max, res, q * max) == q
  {
    if q > 0 {
      var below := (q - 1) * max;
      assert below + max == q * max;
      ResidueCountMultiple(max, res, q - 1);
      ResidueCountBlock(max, res, q - 1, max);
    }
  }

  /** No modulo bias: every residue below `max` has exactly
      floor(0xFFFFFFFF / max) accepted preimages among the 32-bit draws. */
  lemma NoModuloBias(max: int, res: int)
    requires 0 < max && 0 <= res < max
    ensures ResidueCount(max, res, AcceptLimit(max)) == U32_MAX / max
  {
    AcceptLimitIsFloorProduct(max);
    ResidueCountMultiple(max, res, U32_MAX / max);
  }

  /** When max does not exceed 0xFFFFFFFF every residue is reachable; above
      it every draw is rejected and getSecureRandomInt would retry for ever. */
  lemma AcceptanceNonEmpty(max: int)
    requires max > 0
    ensures max <= U32_MAX <==> AcceptLimit(max) > 0
  {
  }

  /** getRandomCharacter: a character of `str` at an index drawn with
      GetSecureRandomInt(|str|). */
  function GetRandomCharacter(str: string, draws: seq<U32>): (r: Result<char>)
    ensures |str| == 0 ==> r == Err(EmptyString)
    ensures r.Ok? ==> r.value in str && IsSuffix(r.rest, draws) && |r.rest| < |draws|
    ensures |str| > 0 && r.Err? ==> r.error == EntropyExhausted
    ensures |str| > 0 && r.Err? ==> forall k :: 0 <= k < |draws| ==> !Accepted(draws[k], |str|)
  {
    if |str| == 0 then Err(EmptyString)
    else
      match GetSecureRandomInt(|str|, draws)
      case Err(e) => Err(e)
      case Ok(i, rest) => Ok(str[i], rest)
  }

  /** Exchange the elements at `i` and `j`. */
  function Swap<T>(s: seq<T>, i: nat, j: nat): (t: seq<T>)
    requires i < |s| && j < |s|
    ensures |t| == |s| && multiset(t) == multiset(s)
    ensures t[i] == s[j] && t[j] == s[i]
    ensures forall k :: 0 <= k < |s| && k != i && k != j ==> t[k] == s[k]
  {
    s[i := s[j]][j := s[i]]
  }

  /** The Fisher-Yates loop from index `i` down to 1: swap position `i`
      with a drawn index j in [0, i]. */
  function ShuffleFrom<T>(s: seq<T>, i: nat, draws: seq<U32>): (r: Result<seq<T>>)
    requires i < |s|
    ensures r.Ok? ==> |r.value| == |s| && multiset(r.value) == multiset(s) && IsSuffix(r.rest, draws)
    ensures r.Err? ==> r.error == EntropyExhausted
    decreases i
  {
    if i == 0 then Ok(s, draws)
    else
      match GetSecureRandomInt(i + 1, draws)
      case Err(e) => Err(e)
      case Ok(j, rest) =>
        var r := ShuffleFrom(Swap(s, i, j), i - 1, rest);
        if r.Ok? then SuffixTransitive(r.rest, rest, draws); r else r
  }

  /** shuffleArray: a permutation of the input. Sequences of length 0 or 1
      are returned unchanged without consuming a draw. */
  function ShuffleArray<T>(s: seq<T>, draws: seq<U32>): (r: Result<seq<T>>)
    ensures r.Ok? ==> |r.value| == |s| && multiset(r.value) == multiset(s) && IsSuffix(r.rest, draws)
    ensures |s| <= 1 ==> r == Ok(s, draws)
    ensures r.Err? ==> r.error == EntropyExhausted
  {
    if |s| <= 1 then Ok(s, draws) else ShuffleFrom(s, |s| - 1, draws)
  }

  /** One round of the Fisher-Yates loop: an accepted draw swaps position
      `i` with the drawn index and continues from `i - 1`; a failed draw
      ends the shuffle with its error. */
  lemma ShuffleRound<T>(s: seq<T>, i: nat, draws: seq<U32>)
    requires 0 < i < |s|
    ensures var d := GetSecureRandomInt(i + 1, draws);
            && (d.Ok? ==> 0 <= d.value <= i
                          && ShuffleFrom(s, i, draws) == ShuffleFrom(Swap(s, i, d.value), i - 1, d.rest))
            && (d.Err? ==> ShuffleFrom(s, i, draws) == Err(d.error))
  {
  }

  /** The same shuffle as an in-place loop over a fresh copy of the input,
      the way shuffleArray writes it. */
  method ShuffleCopy<T>(input: seq<T>, draws: seq<U32>) returns (r: Result<seq<T>>)
    ensures r == ShuffleArray(input, draws)
    ensures r.Ok? ==> multiset(r.value) == multiset(input)
  {
    if |input| <= 1 {
      return Ok(input, draws);
    }
    var a := new T[|input|](k requires 0 <= k < |input| => input[k]);
    ghost var s := input;
    assert a[..] == s;
    var i: nat := a.Length - 1;
    var rest := draws;
    while i > 0
      invariant i < a.Length == |s|
      invariant a[..] == s
      invariant ShuffleFrom(s, i, rest) == ShuffleArray(input, draws)
      decreases i
    {
      var d := GetSecureRandomInt(i + 1, rest);
      ShuffleRound(s, i, rest);
      if d.Err? {
        return Err(d.error);
      }
      var j := d.value;
      a[i], a[j] := a[j], a[i];
      s := Swap(s, i, j);
      assert a[..] == s;
      rest := d.rest;
      i := i - 1;
    }
    return Ok(a[..], rest);
  }
}
