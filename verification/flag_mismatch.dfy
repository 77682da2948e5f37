/** Two flags for one character class. The options form toggles `numbers`;
    the pool builder and the class check read `digits`; the guaranteed-class
    path reads `numbers`. The declared options type has only `digits`, so a
    field the caller did not send is `undefined` at run time; it is `false`
    here, which agrees because every read of either flag is a truth test. The lemmas below exhibit the consequences on
    concrete options, and GeneratePasswordUnified is generatePassword with
    the two flags tied together, as the form evidently intends. */
module FlagMismatch {
  import opened Common
  import opened Charset
  import opened Generator

  /** The options the form sends by default (length 16, lower and upper
      case and numbers, guaranteed classes on); `digits` is never set. */
  const FORM_DEFAULTS: GeneratorOptions :=
    GeneratorOptions(16, true, true, false, true, false, false, false, true)

  /** Numbers alone, as the form sends them: validation rejects the options
      as if no class were selected. */
  lemma NumbersOnlyRejected(draws: seq<U32>)
    ensures GeneratePassword(FORM_DEFAULTS.(lowercase := false, uppercase := false), draws)
            == Err(NoClassSelected)
  {
  }

  /** The form defaults with the guaranteed-class path off: the uniform
      pool is built from `digits`, so no password contains a digit although
      numbers are selected. */
  lemma UniformPathIgnoresNumbers(draws: seq<U32>)
    ensures var r := GeneratePassword(FORM_DEFAULTS.(ensureAllTypes := false), draws);
            r.Ok? ==> forall k :: 0 <= k < |r.value| ==> !IsDigit(r.value[k])
  {
    var o := FORM_DEFAULTS.(ensureAllTypes := false);
    var r := GeneratePassword(o, draws);
    if r.Ok? {
      forall k | 0 <= k < |r.value| ensures !IsDigit(r.value[k]) {
        assert r.value[k] in FilteredPool(o);
        AlphabetMembership(r.value[k]);
      }
    }
  }

  /** Digits alone through `digits`, with the guaranteed-class path on:
      validation passes, no sub-pool is available, and the filler is drawn
      from the empty string, whatever the draws. */
  lemma DigitsOnlyEmptyPick(draws: seq<U32>)
    ensures var o := GeneratorOptions(8, false, false, true, false, false, false, false, true);
            ValidateOptions(o) == Pass && GeneratePassword(o, draws) == Err(EmptyString)
  {
    var o := GeneratorOptions(8, false, false, true, false, false, false, false, true);
    FilteredPoolNonEmpty(o);
    assert AvailablePools(o) == [];
    assert DrawRequired([], draws) == Ok("", draws);
    assert Concat([]) == "";
  }

  /** The options with `digits` following `numbers`. */
  function Unified(o: GeneratorOptions): (u: GeneratorOptions)
    ensures u.digits == u.numbers == o.numbers
    ensures u.(digits := o.digits) == o
  {
    o.(digits := o.numbers)
  }

  /** Some class the form offers is selected. */
  predicate AnyFormClass(o: GeneratorOptions) {
    o.lowercase || o.uppercase || o.numbers || o.symbols
  }

  /** With the flags tied, the class check agrees with the form's own. */
  lemma UnifiedValidation(o: GeneratorOptions)
    ensures ValidateOptions(Unified(o)) == Pass <==>
              MIN_LENGTH <= o.length <= MAX_LENGTH && AnyFormClass(o)
    ensures ValidateOptions(Unified(o)) == Fail(NoClassSelected) <==>
              MIN_LENGTH <= o.length <= MAX_LENGTH && !AnyFormClass(o)
  {
  }

  /** With the flags tied, some sub-pool is available whenever some class
      is selected. */
  lemma UnifiedPoolsAvailable(o: GeneratorOptions)
    ensures |AvailablePools(Unified(o))| > 0 <==> AnyFormClass(o)
  {
    AvailablePoolsOfSelectedClasses(Unified(o));
  }

  /** generatePassword with one flag per class. Validation rejects exactly
      the options in which none of the four classes the form offers is
      selected, and once it passes the only failure left is running out of
      draws. */
  function GeneratePasswordUnified(o: GeneratorOptions, draws: seq<U32>): (r: Result<string>)
    ensures r == Err(NoClassSelected) <==>
              MIN_LENGTH <= o.length <= MAX_LENGTH && !AnyFormClass(o)
    ensures (MIN_LENGTH <= o.length <= MAX_LENGTH && AnyFormClass(o) && r.Err?) ==>
              r.error == EntropyExhausted
    ensures r.Ok? ==> MeetsOptions(Unified(o), r.value) && IsSuffix(r.rest, draws)
  {
    var u := Unified(o);
    UnifiedValidation(o);
    if ValidateOptions(u) == Pass then
      FilteredPoolNonEmpty(u);
      UnifiedPoolsAvailable(o);
      GeneratePassword(u, draws)
    else
      GeneratePassword(u, draws)
  }

  /** With the flags tied, selecting numbers puts every digit that the
      similar-character filter leaves into the uniform pool. */
  lemma UnifiedPoolOffersDigits(o: GeneratorOptions, c: char)
    requires o.numbers && IsDigit(c) && !(o.excludeSimilar && c in SIMILAR_CHARACTERS)
    ensures c in FilteredPool(Unified(o))
  {
    AlphabetMembership(c);
    if c in AMBIGUOUS_CHARACTERS {
      AmbiguousCodes(c);
    }
  }
}
