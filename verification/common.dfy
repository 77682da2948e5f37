/** Shared vocabulary of the password generator model: the 32-bit draw
    stream that stands in for the browser's entropy source, the error
    conditions the library throws, and the result type that threads the
    unconsumed part of the draw stream through every randomised operation. */
module Common {

  /** One unsigned 32-bit value, as written into a one-element Uint32Array
      by the entropy source. */
  type U32 = x: int | 0 <= x <= 0xFFFF_FFFF

  /** The conditions under which the library throws. `EntropyExhausted` has
      no counterpart in the library: getSecureRandomInt retries without
      bound, here the draw stream is finite. */
  datatype Error =
    | MaxNotPositive        // getSecureRandomInt with max <= 0
    | EmptyString           // getRandomCharacter on ""
    | LengthTooShort        // length < 4
    | LengthTooLong         // length > 128
    | NoClassSelected       // no character class toggled on
    | NoCharactersAvailable // pool empty after the exclusion filters
    | InsufficientLength    // more guaranteed characters than length
    | CountOutOfRange       // batch size outside [1, 50]
    | EntropyExhausted      // the draw stream ran out

  /** Either a value together with the draws left over, or an error. */
  datatype Result<T> = Ok(value: T, rest: seq<U32>) | Err(error: Error)

  /** The outcome of a check that produces no value. */
  datatype Check = Pass | Fail(error: Error)

  /** `rest` is what remains of `draws` after a prefix has been consumed. */
  predicate IsSuffix(rest: seq<U32>, draws: seq<U32>) {
    |rest| <= |draws| && rest == draws[|draws| - |rest|..]
  }

  lemma SuffixTransitive(a: seq<U32>, b: seq<U32>, c: seq<U32>)
    requires IsSuffix(a, b) && IsSuffix(b, c)
    ensures IsSuffix(a, c)
  {
    assert |c| - |b| + (|b| - |a|) == |c| - |a|;
    assert b[|b| - |a|..] == c[|c| - |b|..][|b| - |a|..];
  }

  /** Every character of `s` belongs to `pool`. */
  predicate AllIn(s: string, pool: string) {
    forall k :: 0 <= k < |s| ==> s[k] in pool
  }

  /** Some character of `s` belongs to `pool`. */
  predicate Represented(s: string, pool: string) {
    exists k :: 0 <= k < |s| && s[k] in pool
  }

  /** The concatenation of a list of strings, in order. */
  function Concat(parts: seq<string>): (r: string)
  {
    if |parts| == 0 then "" else parts[0] + Concat(parts[1..])
  }

  lemma {:induction false} ConcatMembership(parts: seq<string>, c: char)
    ensures c in Concat(parts) <==> exists k :: 0 <= k < |parts| && c in parts[k]
  {
    if |parts| > 0 {
      ConcatMembership(parts[1..], c);
      if c in Concat(parts[1..]) {
        var k :| 0 <= k < |parts[1..]| && c in parts[1..][k];
        assert c in parts[k + 1];
      }
      if exists k :: 0 <= k < |parts| && c in parts[k] {
        var k :| 0 <= k < |parts| && c in parts[k];
        if k > 0 {
          assert c in parts[1..][k - 1];
        }
      }
    }
  }

  lemma {:induction false} ConcatAppend(a: seq<string>, b: seq<string>)
    ensures Concat(a + b) == Concat(a) + Concat(b)
  {
    if |a| == 0 {
      assert a + b == b;
    } else {
      assert (a + b)[1..] == a[1..] + b;
      ConcatAppend(a[1..], b);
    }
  }

  lemma ConcatSingle(x: string)
    ensures Concat([x]) == x
  {
    assert [x][1..] == [];
  }
}
