/** Password composition (src/lib/generator.ts): option validation, the
    exclusion filters, the uniform fill, the guaranteed-class fill followed
    by a shuffle, the batch wrapper, and the unit chosen for a crack time. */
module Generator {
  import opened Common
  import opened Charset
  import opened Random

  /** Generation options. `digits` is the field the pool builder and the
      class check read; `numbers` is the field the guaranteed-class path
      reads. The two are independent. The declared options type has only
      `digits`; `numbers` is read off the object as the page and form pass
      it. A field that is absent is `undefined`, modelled as `false`: every
      read of either flag is a truth test, where the two agree. */
  datatype GeneratorOptions = GeneratorOptions(
    length: int,
    lowercase: bool,
    uppercase: bool,
    digits: bool,
    numbers: bool,
    symbols: bool,
    excludeSimilar: bool,
    excludeAmbiguous: bool,
    ensureAllTypes: bool)

  function CharsetOf(o: GeneratorOptions): CharsetOptions {
    CharsetOptions(o.lowercase, o.uppercase, o.digits, o.symbols)
  }

  const MIN_LENGTH: int := 4
  const MAX_LENGTH: int := 128
  const MIN_COUNT: int := 1
  const MAX_COUNT: int := 50

  const SIMILAR_CHARACTERS: string := "il1Lo0O"
  const AMBIGUOUS_CHARACTERS: string := "{}[]()/\\'\"`~,;.<>"
  /** The 26-symbol literal of the guaranteed-class path; it differs from
      Charset.SYMBOLS (it adds `|`, `;`, `:` and lacks `/`). */
  const GUARANTEED_SYMBOLS: string := "!@#$%^&*()_+-=[]{}|;:,.<>?"

  /** validateOptions: the length bounds first, then the class check, which
      reads `digits` and not `numbers`. */
  function ValidateOptions(o: GeneratorOptions): (c: Check)
    ensures c == Fail(LengthTooShort) <==> o.length < MIN_LENGTH
    ensures c == Fail(LengthTooLong) <==> MAX_LENGTH < o.length
    ensures c == Fail(NoClassSelected) <==>
              MIN_LENGTH <= o.length <= MAX_LENGTH && |BuildCharacterPool(CharsetOf(o))| == 0
    ensures c == Pass || c == Fail(LengthTooShort) || c == Fail(LengthTooLong) || c == Fail(NoClassSelected)
  {
    if o.length < MIN_LENGTH then Fail(LengthTooShort)
    else if o.length > MAX_LENGTH then Fail(LengthTooLong)
    else if !HasSelectedOptions(CharsetOf(o)) then Fail(NoClassSelected)
    else Pass
  }

  /** excludeCharacters: the characters of `pool` that do not occur in
      `toExclude`, in their original order. */
  function ExcludeCharacters(pool: string, toExclude: string): (r: string)
    ensures |r| <= |pool|
    ensures forall c :: c in r <==> c in pool && c !in toExclude
  {
    if |pool| == 0 then ""
    else
      (if pool[0] in toExclude then "" else [pool[0]]) + ExcludeCharacters(pool[1..], toExclude)
  }

  /** Each kept character occurs as often as in the pool; each excluded
      one not at all. */
  lemma {:induction false} ExcludeCounts(pool: string, toExclude: string)
    ensures forall c :: multiset(ExcludeCharacters(pool, toExclude))[c] ==
                        if c in toExclude then 0 else multiset(pool)[c]
  {
    if |pool| > 0 {
      assert pool == [pool[0]] + pool[1..];
      ExcludeCounts(pool[1..], toExclude);
    }
  }

  /** Filtering commutes with concatenation, so the kept characters keep
      their relative order. */
  lemma {:induction false} ExcludeAppend(a: string, b: string, x: string)
    ensures ExcludeCharacters(a + b, x) == ExcludeCharacters(a, x) + ExcludeCharacters(b, x)
  {
    if |a| == 0 {
      assert a + b == b;
    } else {
      assert (a + b)[0] == a[0];
      assert (a + b)[1..] == a[1..] + b;
      ExcludeAppend(a[1..], b, x);
      var ta, tb := ExcludeCharacters(a[1..], x), ExcludeCharacters(b, x);
      if a[0] !in x {
        assert [a[0]] + (ta + tb) == ([a[0]] + ta) + tb;
      }
    }
  }

  /** A pool none of whose characters is excluded is left unchanged. */
  lemma {:induction false} ExcludeNothing(pool: string, x: string)
    requires forall c :: c in pool ==> c !in x
    ensures ExcludeCharacters(pool, x) == pool
  {
    if |pool| > 0 {
      ExcludeNothing(pool[1..], x);
      assert pool == [pool[0]] + pool[1..];
    }
  }

  /** Filtering twice by the same set changes nothing. */
  lemma ExcludeIdempotent(pool: string, x: string)
    ensures ExcludeCharacters(ExcludeCharacters(pool, x), x) == ExcludeCharacters(pool, x)
  {
    ExcludeNothing(ExcludeCharacters(pool, x), x);
  }

  /** Filtering by `x` then `y` equals filtering by `y` then `x`. */
  lemma {:induction false} ExcludeCommute(pool: string, x: string, y: string)
    ensures ExcludeCharacters(ExcludeCharacters(pool, x), y) == ExcludeCharacters(ExcludeCharacters(pool, y), x)
  {
    if |pool| > 0 {
      var head, tail := pool[..1], pool[1..];
      assert pool == head + tail;
      ExcludeAppend(head, tail, x);
      ExcludeAppend(head, tail, y);
      ExcludeAppend(ExcludeCharacters(head, x), ExcludeCharacters(tail, x), y);
      ExcludeAppend(ExcludeCharacters(head, y), ExcludeCharacters(tail, y), x);
      ExcludeCommute(tail, x, y);
      assert ExcludeCharacters(ExcludeCharacters(head, x), y) == ExcludeCharacters(ExcludeCharacters(head, y), x) by {
        assert head == [pool[0]];
        assert head[1..] == [];
      }
    }
  }

  /** The filters of generatePassword: the similar-character filter when
      asked for, then the ambiguous-character filter when asked for. */
  function ApplyFilters(pool: string, similar: bool, ambiguous: bool): (r: string)
    ensures forall c :: c in r <==>
              c in pool && !(similar && c in SIMILAR_CHARACTERS) && !(ambiguous && c in AMBIGUOUS_CHARACTERS)
  {
    var p := if similar then ExcludeCharacters(pool, SIMILAR_CHARACTERS) else pool;
    if ambiguous then ExcludeCharacters(p, AMBIGUOUS_CHARACTERS) else p
  }

  /** The two filters may be applied in either order. */
  lemma FilterOrderIrrelevant(pool: string)
    ensures ApplyFilters(pool, true, true)
         == ExcludeCharacters(ExcludeCharacters(pool, AMBIGUOUS_CHARACTERS), SIMILAR_CHARACTERS)
  {
    ExcludeCommute(pool, SIMILAR_CHARACTERS, AMBIGUOUS_CHARACTERS);
  }

  /** The pool of the uniform path: the built pool after the filters. */
  function FilteredPool(o: GeneratorOptions): (pool: string)
    ensures forall c :: c in pool <==>
              c in BuildCharacterPool(CharsetOf(o))
              && !(o.excludeSimilar && c in SIMILAR_CHARACTERS)
              && !(o.excludeAmbiguous && c in AMBIGUOUS_CHARACTERS)
  {
    ApplyFilters(BuildCharacterPool(CharsetOf(o)), o.excludeSimilar, o.excludeAmbiguous)
  }

  /** A string that contains a given set of characters is at least as long
      as that set is large. */
  lemma {:induction false} WitnessesBoundLength(s: string, w: set<char>)
    requires forall c :: c in w ==> c in s
    ensures |s| >= |w|
    decreases |s|
  {
    if |s| > 0 {
      WitnessesBoundLength(s[1..], w - {s[0]});
    } else {
      assert w == {};
    }
  }

  /** Membership in the similar-character string, character by character. */
  lemma SimilarCodes(c: char)
    ensures c in SIMILAR_CHARACTERS <==>
              c == 'i' || c == 'l' || c == '1' || c == 'L' || c == 'o' || c == '0' || c == 'O'
  {
  }

  /** The ambiguous characters are neither letters nor digits, and none is
      among the first eight symbols of either symbol alphabet. */
  lemma AmbiguousCodes(c: char)
    requires c in AMBIGUOUS_CHARACTERS
    ensures !IsAlnum(c)
    ensures c != '!' && c != '@' && c != '#' && c != '$' && c != '%' && c != '^' && c != '&' && c != '*'
  {
  }

  /** `c` belongs to `alphabet` and neither filter removes it. */
  predicate Survives(c: char, alphabet: string) {
    c in alphabet && c !in SIMILAR_CHARACTERS && c !in AMBIGUOUS_CHARACTERS
  }

  /** A filtered alphabet is at least as long as any set of its characters
      that neither filter removes. */
  lemma FiltersKeep(alphabet: string, w: set<char>, similar: bool, ambiguous: bool)
    requires forall c :: c in w ==> Survives(c, alphabet)
    ensures |ApplyFilters(alphabet, similar, ambiguous)| >= |w|
  {
    WitnessesBoundLength(ApplyFilters(alphabet, similar, ambiguous), w);
  }

  /** Eight characters of each alphabet that no filter removes. */
  const LOWER_WITNESSES: set<char> := {'a', 'b', 'c', 'd', 'e', 'f', 'g', 'h'}
  const UPPER_WITNESSES: set<char> := {'A', 'B', 'C', 'D', 'E', 'F', 'G', 'H'}
  const DIGIT_WITNESSES: set<char> := {'2', '3', '4', '5', '6', '7', '8', '9'}
  const SYMBOL_WITNESSES: set<char> := {'!', '@', '#', '$', '%', '^', '&', '*'}

  lemma LowerWitnessCount()
    ensures |LOWER_WITNESSES| == 8
  {
  }

  lemma UpperWitnessCount()
    ensures |UPPER_WITNESSES| == 8
  {
  }

  lemma DigitWitnessCount()
    ensures |DIGIT_WITNESSES| == 8
  {
  }

  lemma SymbolWitnessCount()
    ensures |SYMBOL_WITNESSES| == 8
  {
  }

  lemma LowerSurvives(c: char)
    requires 'a' <= c <= 'h'
    ensures Survives(c, LOWERCASE)
  {
    AlphabetMembership(c);
    SimilarCodes(c);
    if c in AMBIGUOUS_CHARACTERS { AmbiguousCodes(c); }
  }

  lemma UpperSurvives(c: char)
    requires 'A' <= c <= 'H'
    ensures Survives(c, UPPERCASE)
  {
    AlphabetMembership(c);
    SimilarCodes(c);
    if c in AMBIGUOUS_CHARACTERS { AmbiguousCodes(c); }
  }

  lemma DigitSurvives(c: char)
    requires '2' <= c <= '9'
    ensures Survives(c, DIGITS)
  {
    AlphabetMembership(c);
    SimilarCodes(c);
    if c in AMBIGUOUS_CHARACTERS { AmbiguousCodes(c); }
  }

  lemma SymbolSurvives(c: char)
    requires c in SYMBOL_WITNESSES
    ensures Survives(c, SYMBOLS) && Survives(c, GUARANTEED_SYMBOLS)
  {
    SimilarCodes(c);
    if c in AMBIGUOUS_CHARACTERS { AmbiguousCodes(c); }
  }

  lemma LowerWitnessesSurvive()
    ensures forall c :: c in LOWER_WITNESSES ==> Survives(c, LOWERCASE)
  {
    forall c | c in LOWER_WITNESSES ensures Survives(c, LOWERCASE) { LowerSurvives(c); }
  }

  lemma UpperWitnessesSurvive()
    ensures forall c :: c in UPPER_WITNESSES ==> Survives(c, UPPERCASE)
  {
    forall c | c in UPPER_WITNESSES ensures Survives(c, UPPERCASE) { UpperSurvives(c); }
  }

  lemma DigitWitnessesSurvive()
    ensures forall c :: c in DIGIT_WITNESSES ==> Survives(c, DIGITS)
  {
    forall c | c in DIGIT_WITNESSES ensures Survives(c, DIGITS) { DigitSurvives(c); }
  }

  lemma SymbolWitnessesSurvive()
    ensures forall c :: c in SYMBOL_WITNESSES ==> Survives(c, SYMBOLS) && Survives(c, GUARANTEED_SYMBOLS)
  {
    forall c | c in SYMBOL_WITNESSES ensures Survives(c, SYMBOLS) && Survives(c, GUARANTEED_SYMBOLS) {
      SymbolSurvives(c);
    }
  }

  /** Each alphabet keeps at least eight characters under any combination
      of the two filters. */
  lemma LowercaseKeepsEight(similar: bool, ambiguous: bool)
    ensures |ApplyFilters(LOWERCASE, similar, ambiguous)| >= 8
  {
    LowerWitnessesSurvive();
    LowerWitnessCount();
    FiltersKeep(LOWERCASE, LOWER_WITNESSES, similar, ambiguous);
  }

  lemma UppercaseKeepsEight(similar: bool, ambiguous: bool)
    ensures |ApplyFilters(UPPERCASE, similar, ambiguous)| >= 8
  {
    UpperWitnessesSurvive();
    UpperWitnessCount();
    FiltersKeep(UPPERCASE, UPPER_WITNESSES, similar, ambiguous);
  }

  lemma DigitsKeepEight(similar: bool, ambiguous: bool)
    ensures |ApplyFilters(DIGITS, similar, ambiguous)| >= 8
  {
    DigitWitnessesSurvive();
    DigitWitnessCount();
    FiltersKeep(DIGITS, DIGIT_WITNESSES, similar, ambiguous);
  }

  lemma SymbolsKeepEight(similar: bool, ambiguous: bool)
    ensures |ApplyFilters(SYMBOLS, similar, ambiguous)| >= 8
  {
    SymbolWitnessesSurvive();
    SymbolWitnessCount();
    FiltersKeep(SYMBOLS, SYMBOL_WITNESSES, similar, ambiguous);
  }

  lemma GuaranteedSymbolsKeepEight(similar: bool, ambiguous: bool)
    ensures |ApplyFilters(GUARANTEED_SYMBOLS, similar, ambiguous)| >= 8
  {
    SymbolWitnessesSurvive();
    SymbolWitnessCount();
    FiltersKeep(GUARANTEED_SYMBOLS, SYMBOL_WITNESSES, similar, ambiguous);
  }

  /** Once validation passes, the filtered pool is not empty, so the
      "no characters available" error of generatePassword is unreachable. */
  lemma FilteredPoolNonEmpty(o: GeneratorOptions)
    requires ValidateOptions(o) == Pass
    ensures |FilteredPool(o)| > 0
  {
    var c := if o.lowercase then 'a' else if o.uppercase then 'A' else if o.digits then '2' else '!';
    if o.lowercase { LowerSurvives(c); }
    else if o.uppercase { UpperSurvives(c); }
    else if o.digits { DigitSurvives(c); }
    else { SymbolSurvives(c); }
    assert c in FilteredPool(o);
  }

  /** generateRandomPassword: `n` characters, each drawn from `pool`. */
  function GenerateRandomPassword(n: nat, pool: string, draws: seq<U32>): (r: Result<string>)
    ensures r.Ok? ==> |r.value| == n && AllIn(r.value, pool) && IsSuffix(r.rest, draws)
    ensures n == 0 ==> r == Ok("", draws)
    ensures n > 0 && |pool| == 0 ==> r == Err(EmptyString)
    ensures |pool| > 0 && r.Err? ==> r.error == EntropyExhausted
    decreases n
  {
    if n == 0 then Ok("", draws)
    else
      match GetRandomCharacter(pool, draws)
      case Err(e) => Err(e)
      case Ok(c, rest) =>
        match GenerateRandomPassword(n - 1, pool, rest)
        case Err(e) => Err(e)
        case Ok(tail, rest') =>
          SuffixTransitive(rest', rest, draws);
          Ok([c] + tail, rest')
  }

  /** The per-class sub-pools of the guaranteed-class path. Letters and
      digits are filtered only for similar characters, the symbols only for
      ambiguous ones. Each keeps at least eight characters, so the
      `length > 0` guards of that path always pass. */
  function LowerSubPool(o: GeneratorOptions): (p: string)
    ensures |p| >= 8
  {
    LowercaseKeepsEight(o.excludeSimilar, false);
    ApplyFilters(LOWERCASE, o.excludeSimilar, false)
  }

  function UpperSubPool(o: GeneratorOptions): (p: string)
    ensures |p| >= 8
  {
    UppercaseKeepsEight(o.excludeSimilar, false);
    ApplyFilters(UPPERCASE, o.excludeSimilar, false)
  }

  function NumberSubPool(o: GeneratorOptions): (p: string)
    ensures |p| >= 8
  {
    DigitsKeepEight(o.excludeSimilar, false);
    ApplyFilters(DIGITS, o.excludeSimilar, false)
  }

  function SymbolSubPool(o: GeneratorOptions): (p: string)
    ensures |p| >= 8
  {
    GuaranteedSymbolsKeepEight(false, o.excludeAmbiguous);
    ApplyFilters(GUARANTEED_SYMBOLS, false, o.excludeAmbiguous)
  }

  /** Which filter each sub-pool takes: the letters and digits only the
      similar-character one, the symbol literal only the ambiguous one. */
  lemma LowerSubPoolFilter(o: GeneratorOptions, c: char)
    ensures c in LowerSubPool(o) <==> c in LOWERCASE && !(o.excludeSimilar && c in SIMILAR_CHARACTERS)
  {
  }

  lemma UpperSubPoolFilter(o: GeneratorOptions, c: char)
    ensures c in UpperSubPool(o) <==> c in UPPERCASE && !(o.excludeSimilar && c in SIMILAR_CHARACTERS)
  {
  }

  lemma NumberSubPoolFilter(o: GeneratorOptions, c: char)
    ensures c in NumberSubPool(o) <==> c in DIGITS && !(o.excludeSimilar && c in SIMILAR_CHARACTERS)
  {
  }

  lemma SymbolSubPoolFilter(o: GeneratorOptions, c: char)
    ensures c in SymbolSubPool(o) <==> c in GUARANTEED_SYMBOLS && !(o.excludeAmbiguous && c in AMBIGUOUS_CHARACTERS)
  {
  }

  /** The pool of a class when it is selected and not empty, else nothing. */
  function Keep(selected: bool, pool: string): (r: seq<string>)
    ensures |r| <= 1
    ensures forall p :: p in r ==> p == pool && |pool| > 0
  {
    if selected && |pool| > 0 then [pool] else []
  }

  /** A class contributes its pool exactly when it is selected and the
      pool is not empty. */
  lemma KeepSelected(selected: bool, pool: string)
    ensures pool in Keep(selected, pool) <==> selected && |pool| > 0
  {
  }

  /** The sub-pools of the selected classes that are not empty, in the order
      lowercase, uppercase, numbers, symbols (availablePools). */
  function AvailablePools(o: GeneratorOptions): (pools: seq<string>)
    ensures |pools| <= 4
  {
    Keep(o.lowercase, LowerSubPool(o)) + Keep(o.uppercase, UpperSubPool(o))
    + Keep(o.numbers, NumberSubPool(o)) + Keep(o.symbols, SymbolSubPool(o))
  }

  /** Which sub-pools are available: exactly those of the classes selected
      through lowercase, uppercase, numbers and symbols. */
  lemma AvailablePoolsOfSelectedClasses(o: GeneratorOptions)
    ensures |AvailablePools(o)| == (if o.lowercase then 1 else 0) + (if o.uppercase then 1 else 0)
                                 + (if o.numbers then 1 else 0) + (if o.symbols then 1 else 0)
    ensures o.lowercase ==> LowerSubPool(o) in AvailablePools(o)
    ensures o.uppercase ==> UpperSubPool(o) in AvailablePools(o)
    ensures o.numbers ==> NumberSubPool(o) in AvailablePools(o)
    ensures o.symbols ==> SymbolSubPool(o) in AvailablePools(o)
    ensures forall p :: p in AvailablePools(o) ==>
              |p| > 0 && (p == LowerSubPool(o) || p == UpperSubPool(o) || p == NumberSubPool(o) || p == SymbolSubPool(o))
  {
    KeepFour(o.lowercase, o.uppercase, o.numbers, o.symbols,
             LowerSubPool(o), UpperSubPool(o), NumberSubPool(o), SymbolSubPool(o));
  }

  lemma KeepFour(l: bool, u: bool, n: bool, s: bool, a: string, b: string, c: string, d: string)
    requires |a| > 0 && |b| > 0 && |c| > 0 && |d| > 0
    ensures var pools := Keep(l, a) + Keep(u, b) + Keep(n, c) + Keep(s, d);
      && |pools| == (if l then 1 else 0) + (if u then 1 else 0) + (if n then 1 else 0) + (if s then 1 else 0)
      && (l ==> a in pools) && (u ==> b in pools) && (n ==> c in pools) && (s ==> d in pools)
      && forall p :: p in pools ==> |p| > 0 && (p == a || p == b || p == c || p == d)
  {
  }

  /** `c` occurs in one of the four per-class literals of the
      guaranteed-class path. */
  predicate FromClassLiterals(c: char) {
    c in LOWERCASE || c in UPPERCASE || c in DIGITS || c in GUARANTEED_SYMBOLS
  }

  /** A character of the concatenation of kept pools lies in one of them. */
  lemma KeptWithin(l: bool, u: bool, n: bool, s: bool, a: string, b: string, c: string, d: string, x: char)
    requires x in Concat(Keep(l, a) + Keep(u, b) + Keep(n, c) + Keep(s, d))
    ensures x in a || x in b || x in c || x in d
  {
    var pools := Keep(l, a) + Keep(u, b) + Keep(n, c) + Keep(s, d);
    ConcatMembership(pools, x);
    var k :| 0 <= k < |pools| && x in pools[k];
    assert pools[k] in pools;
  }

  /** Every character of an available sub-pool comes from one of the
      per-class literals. */
  lemma AvailableWithinLiterals(o: GeneratorOptions, c: char)
    requires c in Concat(AvailablePools(o))
    ensures FromClassLiterals(c)
  {
    KeptWithin(o.lowercase, o.uppercase, o.numbers, o.symbols,
               LowerSubPool(o), UpperSubPool(o), NumberSubPool(o), SymbolSubPool(o), c);
  }

  /** One required character from each pool, drawn in order. */
  function DrawRequired(pools: seq<string>, draws: seq<U32>): (r: Result<string>)
    ensures r.Ok? ==> |r.value| == |pools| && IsSuffix(r.rest, draws)
    ensures r.Ok? ==> forall k :: 0 <= k < |pools| ==> r.value[k] in pools[k]
    ensures r.Err? ==> r.error == EntropyExhausted || r.error == EmptyString
    ensures r.Err? && r.error == EmptyString ==> exists k :: 0 <= k < |pools| && |pools[k]| == 0
    decreases |pools|
  {
    if |pools| == 0 then Ok("", draws)
    else
      match GetRandomCharacter(pools[0], draws)
      case Err(e) => Err(e)
      case Ok(c, rest) =>
        match DrawRequired(pools[1..], rest)
        case Err(e) =>
          assert e == EmptyString ==> |pools[1..][PickEmpty(pools[1..])]| == 0;
          Err(e)
        case Ok(tail, rest') =>
          SuffixTransitive(rest', rest, draws);
          Ok([c] + tail, rest')
  }

  /** The index of some empty pool, if there is one. */
  function PickEmpty(pools: seq<string>): (k: nat)
    ensures (exists j :: 0 <= j < |pools| && |pools[j]| == 0) ==> k < |pools| && |pools[k]| == 0
  {
    if |pools| == 0 then 0
    else if |pools[0]| == 0 then 0
    else
      assert forall j :: 1 <= j < |pools| ==> pools[j] == pools[1..][j - 1];
      1 + PickEmpty(pools[1..])
  }

  /** The concatenation of non-empty pools is empty only when there are
      no pools. */
  lemma ConcatNonEmpty(pools: seq<string>)
    requires |pools| > 0 && |pools[0]| > 0
    ensures |Concat(pools)| > 0
  {
    ConcatMembership(pools, pools[0][0]);
  }

  /** The unshuffled password of the guaranteed-class path: one character
      per pool, then filler drawn from the pools' concatenation. Too short
      a length is detected only after the required characters are drawn. */
  function ComposeFrom(pools: seq<string>, length: int, draws: seq<U32>): (r: Result<string>)
    ensures r.Ok? ==> |r.value| == length && IsSuffix(r.rest, draws)
    ensures r.Ok? ==> |pools| <= length && forall k :: 0 <= k < |pools| ==> r.value[k] in pools[k]
    ensures r.Ok? ==> AllIn(r.value, Concat(pools))
    ensures r.Err? ==> r.error in {InsufficientLength, EntropyExhausted, EmptyString}
    ensures r.Err? && r.error == InsufficientLength ==> length < |pools|
    ensures r.Err? && r.error == EmptyString ==>
              (exists k :: 0 <= k < |pools| && |pools[k]| == 0) || (|pools| == 0 && length > 0)
  {
    match DrawRequired(pools, draws)
    case Err(e) => Err(e)
    case Ok(required, rest) =>
      if |required| > length then Err(InsufficientLength)
      else
        match GenerateRandomPassword(length - |required|, Concat(pools), rest)
        case Err(e) =>
          if |pools| > 0 && |pools[0]| > 0 then ConcatNonEmpty(pools); Err(e) else Err(e)
        case Ok(filler, rest') =>
          SuffixTransitive(rest', rest, draws);
          RequiredWithinConcat(pools, required);
          Ok(required + filler, rest')
  }

  lemma RequiredWithinConcat(pools: seq<string>, required: string)
    requires |required| == |pools|
    requires forall k :: 0 <= k < |pools| ==> required[k] in pools[k]
    ensures AllIn(required, Concat(pools))
  {
    forall k | 0 <= k < |required|
      ensures required[k] in Concat(pools)
    {
      ConcatMembership(pools, required[k]);
    }
  }

  /** generatePasswordWithAllTypes: the required and filler characters,
      shuffled. The `pool` argument is never read. */
  function GeneratePasswordWithAllTypes(o: GeneratorOptions, pool: string, draws: seq<U32>): (r: Result<string>)
    ensures r.Ok? ==> |r.value| == o.length && IsSuffix(r.rest, draws)
    ensures r.Ok? ==> ComposeFrom(AvailablePools(o), o.length, draws).Ok?
                      && multiset(r.value) == multiset(ComposeFrom(AvailablePools(o), o.length, draws).value)
    ensures r.Ok? ==> AllIn(r.value, Concat(AvailablePools(o)))
    ensures r.Ok? ==> forall p :: p in AvailablePools(o) ==> Represented(r.value, p)
    ensures r.Err? ==> r.error in {InsufficientLength, EntropyExhausted, EmptyString}
    ensures r.Err? && r.error == InsufficientLength ==> o.length < |AvailablePools(o)|
    ensures r.Err? && r.error == EmptyString ==> |AvailablePools(o)| == 0 && o.length > 0
  {
    var pools := AvailablePools(o);
    AvailablePoolsOfSelectedClasses(o);
    match ComposeFrom(pools, o.length, draws)
    case Err(e) => Err(e)
    case Ok(chars, rest) =>
      var r := ShuffleArray(chars, rest);
      if r.Ok? then
        SuffixTransitive(r.rest, rest, draws);
        PermutationKeepsMembership(chars, r.value, Concat(pools));
        PermutationKeepsRepresentatives(pools, chars, r.value);
        r
      else r
  }

  /** The guaranteed-class path does not depend on the pool it is given. */
  lemma PoolArgumentUnused(o: GeneratorOptions, p: string, q: string, draws: seq<U32>)
    ensures GeneratePasswordWithAllTypes(o, p, draws) == GeneratePasswordWithAllTypes(o, q, draws)
  {
  }

  lemma PermutationKeepsMembership(s: string, t: string, pool: string)
    requires multiset(s) == multiset(t) && AllIn(s, pool)
    ensures AllIn(t, pool)
  {
    forall k | 0 <= k < |t| ensures t[k] in pool {
      assert t[k] in multiset(t);
    }
  }

  lemma PermutationKeepsRepresentatives(pools: seq<string>, s: string, t: string)
    requires multiset(s) == multiset(t) && |s| >= |pools|
    requires forall k :: 0 <= k < |pools| ==> s[k] in pools[k]
    ensures forall p :: p in pools ==> Represented(t, p)
  {
    forall p | p in pools ensures Represented(t, p) {
      var k :| 0 <= k < |pools| && pools[k] == p;
      assert s[k] in multiset(t);
      var m :| 0 <= m < |t| && t[m] == s[k];
    }
  }

  /** What a successful generatePassword promises: the requested length, and
      either the filtered pool (uniform path) or the available sub-pools with
      each represented (guaranteed-class path). */
  predicate MeetsOptions(o: GeneratorOptions, password: string) {
    && |password| == o.length
    && if o.ensureAllTypes then
         && AllIn(password, Concat(AvailablePools(o)))
         && forall p :: p in AvailablePools(o) ==> Represented(password, p)
       else AllIn(password, FilteredPool(o))
  }

  /** generatePassword: validation, pool construction and filtering, then
      one of the two fills. Validation errors come before any draw. */
  function GeneratePassword(o: GeneratorOptions, draws: seq<U32>): (r: Result<string>)
    ensures ValidateOptions(o).Fail? ==> r == Err(ValidateOptions(o).error)
    ensures r.Ok? ==> MeetsOptions(o, r.value) && IsSuffix(r.rest, draws)
    ensures ValidateOptions(o) == Pass && r.Err? ==>
              || r.error == EntropyExhausted
              || (r.error == EmptyString && o.ensureAllTypes && |AvailablePools(o)| == 0)
              || (r.error == NoCharactersAvailable && |FilteredPool(o)| == 0)
  {
    match ValidateOptions(o)
    case Fail(e) => Err(e)
    case Pass =>
      var pool := FilteredPool(o);
      if |pool| == 0 then Err(NoCharactersAvailable)
      else if o.ensureAllTypes then GeneratePasswordWithAllTypes(o, pool, draws)
      else GenerateRandomPassword(o.length, pool, draws)
  }

  /** generatePassword fails only by validation, by running out of draws,
      or by the empty-pool pick of the guaranteed-class path: the "no
      characters available" and "insufficient length" errors are
      unreachable. */
  lemma GeneratePasswordErrors(o: GeneratorOptions, draws: seq<U32>)
    ensures var r := GeneratePassword(o, draws);
            r.Err? ==> r.error in {LengthTooShort, LengthTooLong, NoClassSelected, EntropyExhausted, EmptyString}
  {
    var r := GeneratePassword(o, draws);
    if ValidateOptions(o) == Pass {
      FilteredPoolNonEmpty(o);
      assert r.Err? ==> r.error != NoCharactersAvailable;
    }
  }

  /** Several passwords in a row, each from the draws the previous one left. */
  function GenerateMany(n: nat, o: GeneratorOptions, draws: seq<U32>): (r: Result<seq<string>>)
    ensures r.Ok? ==> |r.value| == n && IsSuffix(r.rest, draws)
    ensures r.Ok? ==> forall p :: p in r.value ==> MeetsOptions(o, p)
    ensures n > 0 && ValidateOptions(o).Fail? ==> r == Err(ValidateOptions(o).error)
    decreases n
  {
    if n == 0 then Ok([], draws)
    else
      match GeneratePassword(o, draws)
      case Err(e) => Err(e)
      case Ok(p, rest) =>
        match GenerateMany(n - 1, o, rest)
        case Err(e) => Err(e)
        case Ok(ps, rest') =>
          SuffixTransitive(rest', rest, draws);
          Ok([p] + ps, rest')
  }

  /** generateMultiplePasswords: `count` passwords for a count in [1, 50]. */
  function GenerateMultiplePasswords(count: int, o: GeneratorOptions, draws: seq<U32>): (r: Result<seq<string>>)
    ensures (count < MIN_COUNT || MAX_COUNT < count) ==> r == Err(CountOutOfRange)
    ensures r.Ok? ==> MIN_COUNT <= count <= MAX_COUNT && |r.value| == count
    ensures r.Ok? ==> forall p :: p in r.value ==> MeetsOptions(o, p)
    ensures MIN_COUNT <= count <= MAX_COUNT && ValidateOptions(o).Fail? ==> r == Err(ValidateOptions(o).error)
  {
    if count < MIN_COUNT || count > MAX_COUNT then Err(CountOutOfRange)
    else GenerateMany(count, o, draws)
  }

  /** The unit formatCrackTime reports a duration in. */
  datatype TimeUnit = Seconds | Minutes | Hours | Days | Years | OverTrillionYears

  function UnitSeconds(u: TimeUnit): real {
    match u
    case Seconds => 1.0
    case Minutes => 60.0
    case Hours => 3600.0
    case Days => 86400.0
    case Years => 31536000.0
    case OverTrillionYears => 31536000.0
  }

  function UnitRank(u: TimeUnit): nat {
    match u
    case Seconds => 0
    case Minutes => 1
    case Hours => 2
    case Days => 3
    case Years => 4
    case OverTrillionYears => 5
  }

  const TRILLION: real := 1_000_000_000_000.0

  /** The unit of formatCrackTime: the largest of seconds, minutes, hours,
      days and years that the duration reaches, with durations of more than
      a trillion years reported by a fixed message. */
  function CrackTimeUnit(seconds: real): (u: TimeUnit)
    ensures u != Seconds ==> seconds >= UnitSeconds(u)
    ensures u != Years && u != OverTrillionYears ==> seconds < UnitSeconds(NextUnit(u))
    ensures u == OverTrillionYears <==> seconds / UnitSeconds(Years) > TRILLION
  {
    if seconds < 60.0 then Seconds
    else if seconds < 3600.0 then Minutes
    else if seconds < 86400.0 then Hours
    else if seconds < 31536000.0 then Days
    else if seconds / 31536000.0 > TRILLION then OverTrillionYears
    else Years
  }

  function NextUnit(u: TimeUnit): TimeUnit {
    match u
    case Seconds => Minutes
    case Minutes => Hours
    case Hours => Days
    case Days => Years
    case Years => OverTrillionYears
    case OverTrillionYears => OverTrillionYears
  }

  /** A longer duration is never reported in a smaller unit. */
  lemma CrackTimeUnitMonotone(s: real, t: real)
    requires s <= t
    ensures UnitRank(CrackTimeUnit(s)) <= UnitRank(CrackTimeUnit(t))
  {
  }
}
