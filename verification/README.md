# Password generator core, in Dafny

A model of the library behind a browser password generator: the character
alphabets and pool builder, the secure random primitives, password
composition (validation, exclusion filters, the uniform fill, the
guaranteed-class fill with its shuffle, the batch wrapper and the unit of the
crack-time text) and the strength heuristics (class variety, the repeat and
sequence detectors, the clamped score, its tier and the improvement
suggestions).

The browser's entropy source is replaced by an explicit, finite stream of
32-bit draws (`seq<U32>`). Every randomised operation takes the stream and
returns either `Ok(value, rest)`, with `rest` the unconsumed suffix, or
`Err(error)`. The library's thrown errors are constructors of
`Common.Error`; `EntropyExhausted` stands for a stream that ran out before
an accepted draw, where the source would keep retrying.

Modules, one per file:

- `Common` (common.dfy): draws, errors, results, suffixes, string concatenation.
- `Charset` (charset.dfy): the four alphabets, the pool, the selected list, the class check.
- `Random` (random.dfy): rejection sampling, picking a character, the Fisher-Yates shuffle as a function and as an in-place loop over a copy.
- `Generator` (generator.dfy): validation, filters, both fills, `generatePassword`, the batch, the crack-time unit.
- `Strength` (strength.dfy): variety, detectors, score, tier, suggestions.
- `FlagMismatch` (flag_mismatch.dfy): the consequences of the two class flags, and generation with the flags tied.

The options type carries both `digits` and `numbers`. The code reads
`digits` in the pool builder and in the class check
(src/lib/charset.ts:25, src/lib/charset.ts:53), and `numbers` in the
guaranteed-class path (src/lib/generator.ts:141). The model keeps the two as
independent flags, as the code does. The declared type of the options
(src/lib/generator.ts:7-12, extending src/lib/charset.ts:8-13) has only
`digits`: reading `numbers` at src/lib/generator.ts:141, and setting it in
the page (src/app/page.tsx:16) and the form
(src/components/OptionsForm.tsx:39), works only in the JavaScript with the
types erased, which is what the model describes. There a field the caller
did not send is `undefined`. The model uses `false` for it, which agrees,
because every read of either flag is a truth test
(src/lib/charset.ts:25, src/lib/charset.ts:41, src/lib/charset.ts:53,
src/lib/generator.ts:141). The guaranteed-class path also uses its
own 26-character symbol literal rather than the 24-character `SYMBOLS`, and
never reads its `pool` argument; the model does the same.

## Model

| member | source | states |
|---|---|---|
| Charset.AlphabetLayout | src/lib/charset.ts:2-5 | the lower-case, upper-case and digit alphabets are the contiguous code ranges a-z, A-Z, 0-9; no symbol is a letter or digit, and no symbol repeats |
| Charset.AlphabetMembership | src/lib/charset.ts:2-5 | a character is in an alphabet iff it is in that alphabet's range; symbols are never alphanumeric |
| Charset.AlphabetsDisjoint | src/lib/charset.ts:2-5 | the four alphabets are pairwise disjoint and each is free of duplicates |
| Charset.BuildCharacterPool | src/lib/charset.ts:20-29 | the pool's length is 26, 26, 10 and 24 summed over the enabled flags, and a character is in it iff it belongs to an enabled alphabet |
| Charset.PoolHasNoDuplicates | src/lib/charset.ts:23-26 | the pool never repeats a character |
| Charset.EmptyOptionsEmptyPool | src/lib/charset.ts:20-29 | with every flag off the pool is the empty string |
| Charset.GetSelectedCharsets | src/lib/charset.ts:36-45 | every entry is one of the four alphabets, each alphabet is listed iff its flag is set, there is one entry per set flag, and their concatenation is exactly the pool (so they appear in the order lowercase, uppercase, digits, symbols) |
| Charset.HasSelectedOptions | src/lib/charset.ts:52-54 | true iff the pool is non-empty, iff the selected list is non-empty |
| Random.AcceptLimit | src/lib/random.ts:21 | the acceptance limit lies in [0, 0xFFFFFFFF] and falls short of 0xFFFFFFFF by less than max |
| Random.AcceptLimitIsFloorProduct | src/lib/random.ts:21 | the acceptance limit equals floor(0xFFFFFFFF / max) * max and is a multiple of max |
| Random.LargestMultipleIsFloorProduct | src/lib/random.ts:21 | the largest multiple of max not above n is floor(n / max) * max |
| Random.GetSecureRandomInt | src/lib/random.ts:10-29 | max <= 0 fails before any draw; otherwise the result is the residue modulo max, in [0, max), of the first accepted draw, every earlier draw having been rejected; failure means no draw of the stream is accepted |
| Random.NoModuloBias | src/lib/random.ts:20-28 | every residue below max has exactly floor(0xFFFFFFFF / max) accepted preimages |
| Random.AcceptanceNonEmpty | src/lib/random.ts:21-26 | some draw is accepted iff max <= 0xFFFFFFFF |
| Random.GetRandomCharacter | src/lib/random.ts:36-43 | the empty string fails; otherwise the result is a member of the string, consuming at least one draw, and failure means every draw was rejected |
| Random.Swap | src/lib/random.ts:55 | exchanges two positions, leaving the others and the multiset unchanged |
| Random.ShuffleFrom | src/lib/random.ts:53-56 | the Fisher-Yates loop from index i keeps length and multiset, and fails only by running out of draws |
| Random.ShuffleArray | src/lib/random.ts:50-59 | a permutation of the input; inputs of length 0 or 1 come back unchanged without a draw |
| Random.ShuffleRound | src/lib/random.ts:53-55 | each round swaps position i with an index in [0, i] and continues from i - 1 |
| Random.ShuffleCopy | src/lib/random.ts:50-59 | the in-place loop over a copy computes exactly ShuffleArray, hence a permutation of the input |
| Generator.ValidateOptions | src/lib/generator.ts:62-74 | fails with the short-length, long-length and no-class errors exactly when length < 4, length > 128, or the length is in range and the pool built from the `digits` flag is empty |
| Generator.ExcludeCharacters | src/lib/generator.ts:82-87 | the result keeps exactly the characters of the pool not in the excluded string |
| Generator.ExcludeCounts | src/lib/generator.ts:82-87 | a kept character occurs as often as in the pool, an excluded one never |
| Generator.ExcludeAppend | src/lib/generator.ts:82-87 | filtering distributes over concatenation, so kept characters stay in their original order |
| Generator.ExcludeNothing | src/lib/generator.ts:82-87 | a pool with nothing to exclude is returned unchanged |
| Generator.ExcludeIdempotent | src/lib/generator.ts:82-87 | filtering twice by the same string equals filtering once |
| Generator.ExcludeCommute | src/lib/generator.ts:82-87 | filtering by x then y equals filtering by y then x |
| Generator.ApplyFilters | src/lib/generator.ts:37-43 | a character survives iff it is in the pool and is not removed by a filter that is switched on |
| Generator.FilterOrderIrrelevant | src/lib/generator.ts:37-43 | the similar filter then the ambiguous filter equals the reverse order |
| Generator.FilteredPool | src/lib/generator.ts:34-43 | the uniform pool holds exactly the enabled alphabets' characters that the chosen filters keep |
| Generator.SimilarCodes | src/lib/generator.ts:17 | the similar characters are exactly i, l, 1, L, o, 0, O |
| Generator.AmbiguousCodes | src/lib/generator.ts:22 | no ambiguous character is a letter, a digit, or one of the first eight symbols |
| Generator.LowercaseKeepsEight | src/lib/generator.ts:119-128 | the lower-case alphabet keeps at least eight characters under any filters |
| Generator.UppercaseKeepsEight | src/lib/generator.ts:130-139 | the upper-case alphabet keeps at least eight characters under any filters |
| Generator.DigitsKeepEight | src/lib/generator.ts:141-150 | the digits keep at least eight characters under any filters |
| Generator.SymbolsKeepEight | src/lib/charset.ts:5 | the 24 symbols keep at least eight characters under any filters |
| Generator.GuaranteedSymbolsKeepEight | src/lib/generator.ts:152-161 | the 26-character symbol literal keeps at least eight characters under any filters |
| Generator.FilteredPoolNonEmpty | src/lib/generator.ts:46-48 | once validation passes the filtered pool is non-empty, so the no-characters error cannot occur |
| Generator.GenerateRandomPassword | src/lib/generator.ts:95-103 | exactly n characters, each a member of the pool; the empty pool fails for n > 0 and otherwise only exhaustion fails |
| Generator.LowerSubPool | src/lib/generator.ts:120-123 | the lower-case sub-pool has at least eight characters |
| Generator.UpperSubPool | src/lib/generator.ts:131-134 | the upper-case sub-pool has at least eight characters |
| Generator.NumberSubPool | src/lib/generator.ts:142-145 | the digit sub-pool has at least eight characters |
| Generator.SymbolSubPool | src/lib/generator.ts:153-156 | the symbol sub-pool has at least eight characters |
| Generator.LowerSubPoolFilter | src/lib/generator.ts:120-123 | a character is in the lower-case sub-pool iff it is a lower-case letter not removed by the similar-character filter when that is on; the ambiguous filter does not apply |
| Generator.UpperSubPoolFilter | src/lib/generator.ts:131-134 | a character is in the upper-case sub-pool iff it is an upper-case letter not removed by the similar-character filter when that is on |
| Generator.NumberSubPoolFilter | src/lib/generator.ts:142-145 | a character is in the digit sub-pool iff it is a digit not removed by the similar-character filter when that is on |
| Generator.SymbolSubPoolFilter | src/lib/generator.ts:153-156 | a character is in the symbol sub-pool iff it is in the 26-character literal and not removed by the ambiguous-character filter when that is on; the similar filter does not apply |
| Generator.Keep | src/lib/generator.ts:124-127 | a class contributes at most one pool, only its own, and only when that pool is non-empty |
| Generator.KeepSelected | src/lib/generator.ts:124-127 | a class contributes its pool iff it is selected and the pool is non-empty |
| Generator.AvailablePoolsOfSelectedClasses | src/lib/generator.ts:119-161 | one sub-pool per flag set among lowercase, uppercase, numbers and symbols; each selected class's filtered sub-pool is present, and every pool is non-empty and one of the four |
| Generator.AvailableWithinLiterals | src/lib/generator.ts:119-170 | every filler character comes from one of the four per-class literals |
| Generator.DrawRequired | src/lib/generator.ts:119-161 | one character per pool, the k-th drawn from the k-th pool; an empty-string failure implies some pool is empty |
| Generator.ComposeFrom | src/lib/generator.ts:163-174 | required characters then filler: the given length, position k in pool k, all from the pools' concatenation; too-short lengths fail only after the required draws |
| Generator.GeneratePasswordWithAllTypes | src/lib/generator.ts:111-178 | a permutation of the required-plus-filler string, of the requested length, drawn from the available pools with every available pool represented; errors are as in ComposeFrom |
| Generator.PoolArgumentUnused | src/lib/generator.ts:111-114 | the guaranteed-class path gives the same result whatever pool it is passed |
| Generator.PermutationKeepsRepresentatives | src/lib/generator.ts:177 | shuffling keeps one character of every pool |
| Generator.PermutationKeepsMembership | src/lib/generator.ts:177 | shuffling keeps every character within the pool |
| Generator.GeneratePassword | src/lib/generator.ts:29-56 | validation errors come before any draw; success gives the requested length and, per path, membership in the filtered pool or in the available pools with each represented |
| Generator.GeneratePasswordErrors | src/lib/generator.ts:29-56 | the only possible failures are the three validation errors, exhaustion, and the empty-string pick; the no-characters and insufficient-length errors are unreachable |
| Generator.GenerateMany | src/lib/generator.ts:196-198 | n passwords in a row, each meeting the single-password guarantees |
| Generator.GenerateMultiplePasswords | src/lib/generator.ts:186-201 | a count outside [1, 50] fails; otherwise exactly count passwords, each meeting the single-password guarantees |
| Generator.CrackTimeUnit | src/lib/generator.ts:234-249 | the chosen unit is the largest one the duration reaches, and the fixed message is chosen iff the years exceed one trillion |
| Generator.CrackTimeUnitMonotone | src/lib/generator.ts:234-249 | a longer duration is never reported in a smaller unit |
| Strength.GetCharsetVariety | src/lib/strength.ts:71-80 | at most 4, and 0 iff the password is empty |
| Strength.HasRepeatingPatterns | src/lib/strength.ts:87-95 | true iff a two-character group reappears at least two positions later with no line terminator in between, or a character other than a line terminator occurs three times in a row |
| Strength.Includes | src/lib/strength.ts:114 | true iff the word occurs as a substring of the password |
| Strength.Reverse | src/lib/strength.ts:114 | the characters in reverse order |
| Strength.HasSequentialPatterns | src/lib/strength.ts:102-121 | true iff some three-character window of one of the five reference strings, or its reversal, occurs in the password |
| Strength.LengthPoints | src/lib/strength.ts:40-42 | at most 3 points, none iff shorter than 8, all iff at least 16 |
| Strength.VarietyPoints | src/lib/strength.ts:45-48 | at most 3 points, none iff fewer than 2 classes, all iff all 4 |
| Strength.PointsMonotone | src/lib/strength.ts:40-48 | more length or more classes never earns fewer points |
| Strength.Clamp | src/lib/strength.ts:61 | the score lies in [0, 4], is unchanged inside it and saturates outside |
| Strength.GetStrengthResult | src/lib/strength.ts:128-164 | the score is kept, the percentage is 25 times the score, and scores outside 0..4 fall back to the weakest tier |
| Strength.StrengthTiersBijective | src/lib/strength.ts:128-164 | scores 0..4 and the five tiers correspond one to one |
| Strength.CalculatePasswordStrength | src/lib/strength.ts:22-64 | the empty password gets the weakest tier with score 0; otherwise the score is the clamp of length points plus variety points minus one per detector that fires; the result is the tier of its score and depends only on the password |
| Strength.Message | src/lib/strength.ts:178-197 | every suggestion has a non-empty text |
| Strength.MessageLength | src/lib/strength.ts:178-197 | the five texts have five different lengths, so different suggestions have different texts |
| Strength.Select | src/lib/strength.ts:178-197 | keeps exactly the suggestions whose condition holds, in their order |
| Strength.SelectIncreasing | src/lib/strength.ts:178-197 | selecting from an ordered list keeps it ordered |
| Strength.SuggestionList | src/lib/strength.ts:178-197 | a suggestion is listed iff its condition holds, in the fixed order, at most five |
| Strength.GetPasswordSuggestions | src/lib/strength.ts:172-200 | each of the five suggestions is present iff its condition holds (under 8, under 12, fewer than 3 classes, repeats, sequences), in the source's order, at most five, depending only on the password |
| FlagMismatch.NumbersOnlyRejected | src/lib/generator.ts:71-73 | options selecting only numbers, as the form sends them, are rejected as selecting no class |
| FlagMismatch.UniformPathIgnoresNumbers | src/lib/charset.ts:25 | with the guaranteed-class path off, the form's default options never yield a digit |
| FlagMismatch.DigitsOnlyEmptyPick | src/lib/generator.ts:141-172 | digits selected through `digits` with the guaranteed-class path on pass validation and then always fail by picking from the empty string |
| FlagMismatch.Unified | src/components/OptionsForm.tsx:37-40 | the tied options read `digits` from `numbers` and differ from the input in nothing else |
| FlagMismatch.UnifiedValidation | src/components/OptionsForm.tsx:37-40 | with the flags tied, validation passes iff the length is in range and one of the form's four classes is selected |
| FlagMismatch.UnifiedPoolsAvailable | src/lib/generator.ts:119-161 | with the flags tied, some sub-pool is available iff some class is selected |
| FlagMismatch.GeneratePasswordUnified | src/lib/generator.ts:29-56 | the no-class error occurs iff the length is in range and none of the form's four classes is selected; after validation the only failure is exhaustion; success meets the single-password guarantees |
| FlagMismatch.UnifiedPoolOffersDigits | src/lib/charset.ts:25 | with the flags tied, selecting numbers puts every digit the similar filter keeps into the uniform pool |

## Left out

- The entropy source (`crypto.getRandomValues`) is the draw-stream parameter, and `isWebCryptoAvailable` is an environment probe that is not modelled.
- The `Math.random` fallback (`getFallbackRandomInt`, `getRandomInt`) uses floating point and is not on the generation path.
- `calculateEntropy` and `estimateCrackTime` are floating-point logarithms and powers and are not modelled.
- The text `formatCrackTime` builds depends on `Math.round` and `toLocaleString`, so only the unit it chooses is modelled (`Generator.CrackTimeUnit`, over `real`).
- The React components and the page are UI state and markup. The form's class check (src/components/OptionsForm.tsx:37-40) is used only to state the finding below.
- Random.GetSecureRandomInt: the source retries without bound, so it terminates only with probability one. The model reads a finite stream and reports `EntropyExhausted` when no draw in it is accepted, and every randomised operation passes that error on.
- Probabilistic properties are not stated: uniformity of characters, of the shuffle, and of the retry count. Only the counting fact behind unbiased rejection sampling is proved (`Random.NoModuloBias`).
- Lengths and counts are mathematical integers. The source's fractional or non-numeric lengths and counts are not modelled.
- Strings are sequences of Unicode scalar values, whereas JavaScript strings are UTF-16 code units. Passwords outside the Basic Multilingual Plane are therefore not modelled faithfully by the strength detectors.
- The user-visible error messages are not modelled. Each thrown message is represented by its `Common.Error` constructor.
- The `label` field of a strength result is named `caption`, because `label` is a Dafny keyword. Its texts and the colours match the source.
- The suggestion messages are available through `Strength.Message`, and `Strength.GetPasswordSuggestions` returns the suggestions as constructors, not as strings.
- The percentage is computed as the integer 25 times the score. This equals `(score / 4) * 100` for the integer scores that occur.

## Findings

| source | as written | input that shows it | evidently intended | confidence | as-written member | corrected member |
|---|---|---|---|---|---|---|
| src/lib/generator.ts:71 | the class check reads `digits`, a field the options form never sets; the form toggles `numbers` | length 16, only numbers selected: rejected as "no class selected" | numbers alone is a valid selection, as the form's own check (src/components/OptionsForm.tsx:37-40) says | high; not executed | FlagMismatch.NumbersOnlyRejected | FlagMismatch.GeneratePasswordUnified |
| src/lib/charset.ts:25 | the uniform pool adds digits only for `digits` | the form defaults (lower, upper and numbers selected) with the guaranteed-class path off: no digit can ever appear | selecting numbers puts the digits into the pool | high; not executed | FlagMismatch.UniformPathIgnoresNumbers | FlagMismatch.UnifiedPoolOffersDigits |
| src/lib/generator.ts:141 | the guaranteed-class path reads `numbers` while validation read `digits` | length 8, only `digits` set, guaranteed classes on: validation passes, no sub-pool is available, and the filler pick throws the empty-string error | after validation only exhaustion of the entropy source can fail | high; not executed | FlagMismatch.DigitsOnlyEmptyPick | FlagMismatch.GeneratePasswordUnified |

The corrected members tie `digits` to `numbers` (`FlagMismatch.Unified`) before calling the code as written. The rest of the model keeps the two flags apart, as the code does.
