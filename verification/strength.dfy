/** Password strength heuristics (src/lib/strength.ts): character-class
    variety, the repeated-pattern and sequence detectors, the clamped score,
    its tier, and the ordered improvement suggestions. */
module Strength {
  import opened Charset

  datatype PasswordStrength = MuitoFraca | Fraca | Media | Forte | MuitoForte

  /** A tier's presentation together with the score it was computed from. */
  datatype StrengthResult = StrengthResult(
    score: int,
    strength: PasswordStrength,
    caption: string,
    color: string,
    percentage: int)

  /** The classes of getCharsetVariety, stated as what each regular
      expression test finds somewhere in the password. */
  predicate HasLower(p: string) { exists k :: 0 <= k < |p| && IsLower(p[k]) }
  predicate HasUpper(p: string) { exists k :: 0 <= k < |p| && IsUpper(p[k]) }
  predicate HasDigit(p: string) { exists k :: 0 <= k < |p| && IsDigit(p[k]) }
  predicate HasOther(p: string) { exists k :: 0 <= k < |p| && !IsAlnum(p[k]) }

  /** getCharsetVariety: the number of the four classes present. The fourth
      class is the complement of the other three, so every character falls
      in at least one. */
  function GetCharsetVariety(p: string): (v: nat)
    ensures v <= 4
    ensures |p| > 0 ==> v >= 1
    ensures v == 0 <==> |p| == 0
  {
    assert |p| > 0 ==> HasLower(p) || HasUpper(p) || HasDigit(p) || HasOther(p) by {
      if |p| > 0 {
        var c := p[0];
        if IsLower(c) { assert HasLower(p); }
        else if IsUpper(c) { assert HasUpper(p); }
        else if IsDigit(c) { assert HasDigit(p); }
        else { assert HasOther(p); }
      }
    }
    (if HasLower(p) then 1 else 0) + (if HasUpper(p) then 1 else 0)
    + (if HasDigit(p) then 1 else 0) + (if HasOther(p) then 1 else 0)
  }

  /** A regular-expression `.` matches anything but these. */
  predicate IsLineTerminator(c: char) {
    c == '\n' || c == '\r' || c == '\U{2028}' || c == '\U{2029}'
  }

  predicate NoLineTerminator(s: string) {
    forall k :: 0 <= k < |s| ==> !IsLineTerminator(s[k])
  }

  /** `(..).*\1` matches with its group at `i` and the repetition at `j`. */
  predicate PairRepeatsAt(p: string, i: int, j: int) {
    && 0 <= i && i + 2 <= j && j + 2 <= |p|
    && p[j] == p[i] && p[j + 1] == p[i + 1]
    && NoLineTerminator(p[i..j + 2])
  }

  /** `(.)\1{2,}` matches at `i`. */
  predicate TripleAt(p: string, i: int) {
    && 0 <= i && i + 3 <= |p|
    && p[i + 1] == p[i] && p[i + 2] == p[i]
    && !IsLineTerminator(p[i])
  }

  /** What hasRepeatingPatterns reports: either regular expression matches
      somewhere in the password. */
  ghost predicate Repeats(p: string) {
    (exists i, j :: PairRepeatsAt(p, i, j)) || (exists i :: TripleAt(p, i))
  }

  /** hasRepeatingPatterns: the two regular-expression searches, as loops
      over every possible match position. */
  method HasRepeatingPatterns(p: string) returns (b: bool)
    ensures b <==> Repeats(p)
  {
    var i := 0;
    while i + 2 <= |p|
      invariant 0 <= i
      invariant forall i', j :: 0 <= i' < i ==> !PairRepeatsAt(p, i', j)
    {
      var j := i + 2;
      while j + 2 <= |p|
        invariant i + 2 <= j
        invariant forall j' :: j' < j ==> !PairRepeatsAt(p, i, j')
      {
        if p[j] == p[i] && p[j + 1] == p[i + 1] && NoLineTerminator(p[i..j + 2]) {
          assert PairRepeatsAt(p, i, j);
          return true;
        }
        j := j + 1;
      }
      i := i + 1;
    }
    assert forall i', j :: !PairRepeatsAt(p, i', j);
    i := 0;
    while i + 3 <= |p|
      invariant 0 <= i
      invariant forall i' :: 0 <= i' < i ==> !TripleAt(p, i')
    {
      if p[i + 1] == p[i] && p[i + 2] == p[i] && !IsLineTerminator(p[i]) {
        assert TripleAt(p, i);
        return true;
      }
      i := i + 1;
    }
    assert forall i' :: !TripleAt(p, i');
    return false;
  }

  const QWERTY_LOWER: string := "qwertyuiopasdfghjklzxcvbnm"
  const QWERTY_UPPER: string := "QWERTYUIOPASDFGHJKLZXCVBNM"

  /** The reference strings of hasSequentialPatterns, in the order it scans
      them. */
  const SEQUENCES: seq<string> := [LOWERCASE, UPPERCASE, DIGITS, QWERTY_LOWER, QWERTY_UPPER]

  /** `w` occurs in `p` starting at `k`. */
  predicate OccursAt(w: string, p: string, k: int) {
    0 <= k && k + |w| <= |p| && p[k..k + |w|] == w
  }

  /** String.prototype.includes. */
  ghost predicate Occurs(w: string, p: string) {
    exists k :: OccursAt(w, p, k)
  }

  function Reverse(s: string): (r: string)
    ensures |r| == |s|
    ensures forall k :: 0 <= k < |s| ==> r[k] == s[|s| - 1 - k]
  {
    if |s| == 0 then "" else Reverse(s[1..]) + [s[0]]
  }

  /** The window of three characters of reference string `t` at `i`. */
  function Window(t: nat, i: nat): string
    requires t < |SEQUENCES| && i + 3 <= |SEQUENCES[t]|
  {
    SEQUENCES[t][i..i + 3]
  }

  /** The window at (`t`, `i`), forwards or backwards, occurs in `p`. */
  ghost predicate WindowFound(p: string, t: int, i: int) {
    && 0 <= t < |SEQUENCES| && 0 <= i && i + 3 <= |SEQUENCES[t]|
    && (Occurs(Window(t, i), p) || Occurs(Reverse(Window(t, i)), p))
  }

  /** What hasSequentialPatterns reports. */
  ghost predicate Sequential(p: string) {
    exists t, i :: WindowFound(p, t, i)
  }

  /** includes: a scan over every start position. */
  method Includes(p: string, w: string) returns (b: bool)
    ensures b <==> Occurs(w, p)
  {
    var k := 0;
    while k + |w| <= |p|
      invariant 0 <= k
      invariant forall k' :: 0 <= k' < k ==> !OccursAt(w, p, k')
    {
      if p[k..k + |w|] == w {
        assert OccursAt(w, p, k);
        return true;
      }
      k := k + 1;
    }
    assert forall k' :: !OccursAt(w, p, k');
    return false;
  }

  /** hasSequentialPatterns: every window of every reference string, each
      looked for forwards and backwards. */
  method HasSequentialPatterns(p: string) returns (b: bool)
    ensures b <==> Sequential(p)
  {
    var t := 0;
    while t < |SEQUENCES|
      invariant 0 <= t <= |SEQUENCES|
      invariant forall t', i :: 0 <= t' < t ==> !WindowFound(p, t', i)
    {
      var i := 0;
      while i + 3 <= |SEQUENCES[t]|
        invariant 0 <= i
        invariant forall i' :: 0 <= i' < i ==> !WindowFound(p, t, i')
      {
        var w := Window(t, i);
        var forwards := Includes(p, w);
        var backwards := Includes(p, Reverse(w));
        if forwards || backwards {
          assert WindowFound(p, t, i);
          return true;
        }
        i := i + 1;
      }
      t := t + 1;
    }
    assert forall t', i :: !WindowFound(p, t', i);
    return false;
  }

  /** One point each for reaching 8, 12 and 16 characters. */
  function LengthPoints(n: nat): (pts: nat)
    ensures pts <= 3
    ensures pts == 0 <==> n < 8
    ensures pts == 3 <==> n >= 16
  {
    (if n >= 8 then 1 else 0) + (if n >= 12 then 1 else 0) + (if n >= 16 then 1 else 0)
  }

  /** One point each for a variety of at least 2, 3 and 4. */
  function VarietyPoints(v: nat): (pts: nat)
    ensures pts <= 3
    ensures pts == 0 <==> v < 2
    ensures pts == 3 <==> v >= 4
  {
    (if v >= 2 then 1 else 0) + (if v >= 3 then 1 else 0) + (if v >= 4 then 1 else 0)
  }

  /** Longer passwords and more varied ones never earn fewer points. */
  lemma PointsMonotone(m: nat, n: nat)
    requires m <= n
    ensures LengthPoints(m) <= LengthPoints(n)
    ensures VarietyPoints(m) <= VarietyPoints(n)
  {
  }

  /** Math.max(0, Math.min(4, x)). */
  function Clamp(x: int): (c: int)
    ensures 0 <= c <= 4
    ensures 0 <= x <= 4 ==> c == x
    ensures x < 0 ==> c == 0
    ensures x > 4 ==> c == 4
  {
    if x < 0 then 0 else if x > 4 then 4 else x
  }

  /** The unclamped score: length and variety points, minus one for each
      detector that fires. */
  ghost function RawScore(p: string): int {
    LengthPoints(|p|) + VarietyPoints(GetCharsetVariety(p))
    - (if Repeats(p) then 1 else 0) - (if Sequential(p) then 1 else 0)
  }

  /** getStrengthResult: the tier of a score in 0..4 and, for any other
      score, the tier of 0; the percentage is score / 4 * 100. */
  function GetStrengthResult(score: int): (r: StrengthResult)
    ensures r.score == score && r.percentage == 25 * score
    ensures !(0 <= score <= 4) ==> r.strength == MuitoFraca
  {
    var (strength, caption, color) :=
      if score == 1 then (Fraca, "Fraca", "bg-red-400")
      else if score == 2 then (Media, "M\U{E9}dia", "bg-yellow-500")
      else if score == 3 then (Forte, "Forte", "bg-green-500")
      else if score == 4 then (MuitoForte, "Muito Forte", "bg-green-600")
      else (MuitoFraca, "Muito Fraca", "bg-red-500");
    StrengthResult(score, strength, caption, color, 25 * score)
  }

  /** The score a tier stands for. */
  function TierScore(s: PasswordStrength): (score: int)
    ensures 0 <= score <= 4
  {
    match s
    case MuitoFraca => 0
    case Fraca => 1
    case Media => 2
    case Forte => 3
    case MuitoForte => 4
  }

  /** Scores 0..4 map one-to-one onto the five tiers: TierScore inverts the
      mapping, and every tier is reached. */
  lemma StrengthTiersBijective(score: int, s: PasswordStrength)
    ensures 0 <= score <= 4 ==> TierScore(GetStrengthResult(score).strength) == score
    ensures GetStrengthResult(TierScore(s)).strength == s
  {
  }

  /** calculatePasswordStrength. The options argument is never read. */
  method CalculatePasswordStrength(p: string, options: CharsetOptions) returns (r: StrengthResult)
    ensures 0 <= r.score <= 4 && r.percentage == 25 * r.score
    ensures |p| == 0 ==> r.score == 0 && r.strength == MuitoFraca && r == GetStrengthResult(0)
    ensures |p| > 0 ==> r.score == Clamp(RawScore(p))
    ensures r == GetStrengthResult(r.score)
  {
    if |p| == 0 {
      return StrengthResult(0, MuitoFraca, "Muito Fraca", "bg-red-500", 0);
    }
    var score := LengthPoints(|p|) + VarietyPoints(GetCharsetVariety(p));
    var repeats := HasRepeatingPatterns(p);
    if repeats {
      score := score - 1;
    }
    var sequential := HasSequentialPatterns(p);
    if sequential {
      score := score - 1;
    }
    score := Clamp(score);
    return GetStrengthResult(score);
  }

  /** The suggestions of getPasswordSuggestions, in the order it emits them. */
  datatype Suggestion = UseAtLeastEight | ConsiderTwelve | MixClasses | AvoidRepeats | AvoidSequences

  function Rank(s: Suggestion): nat {
    match s
    case UseAtLeastEight => 0
    case ConsiderTwelve => 1
    case MixClasses => 2
    case AvoidRepeats => 3
    case AvoidSequences => 4
  }

  /** The text getPasswordSuggestions pushes for a suggestion. */
  function Message(s: Suggestion): (m: string)
    ensures |m| > 0
  {
    match s
    case UseAtLeastEight => "Use pelo menos 8 caracteres"
    case ConsiderTwelve => "Considere usar 12 ou mais caracteres para maior seguran\U{E7}a"
    case MixClasses => "Use uma combina\U{E7}\U{E3}o de letras, n\U{FA}meros e s\U{ED}mbolos"
    case AvoidRepeats => "Evite padr\U{F5}es repetitivos"
    case AvoidSequences => "Evite sequ\U{EA}ncias como \"abc\" ou \"123\""
  }

  /** The length of each suggestion's text. The five lengths differ, so
      different suggestions have different texts. */
  lemma MessageLength(s: Suggestion)
    ensures |Message(s)| == [27, 57, 48, 25, 36][Rank(s)]
  {
    match s
    case UseAtLeastEight =>
    case ConsiderTwelve =>
    case MixClasses =>
    case AvoidRepeats =>
    case AvoidSequences =>
  }

  /** Every suggestion, in the order getPasswordSuggestions considers them. */
  const ORDER: seq<Suggestion> := [UseAtLeastEight, ConsiderTwelve, MixClasses, AvoidRepeats, AvoidSequences]

  predicate Increasing(s: seq<Suggestion>) {
    forall i, j :: 0 <= i < j < |s| ==> Rank(s[i]) < Rank(s[j])
  }

  /** The conditions of getPasswordSuggestions, evaluated on one password. */
  datatype Conditions = Conditions(short: bool, belowTwelve: bool, narrow: bool, repeats: bool, sequential: bool)

  /** Whether a suggestion's condition holds. */
  predicate Applies(c: Conditions, y: Suggestion) {
    match y
    case UseAtLeastEight => c.short
    case ConsiderTwelve => c.belowTwelve
    case MixClasses => c.narrow
    case AvoidRepeats => c.repeats
    case AvoidSequences => c.sequential
  }

  /** The elements of `order` whose condition holds, in their original order. */
  function Select(order: seq<Suggestion>, c: Conditions): (s: seq<Suggestion>)
    ensures |s| <= |order|
    ensures forall y :: y in s <==> y in order && Applies(c, y)
    ensures forall k :: 0 <= k < |s| ==> exists m :: 0 <= m < |order| && Rank(s[k]) == Rank(order[m])
  {
    if |order| == 0 then []
    else
      var rest := Select(order[1..], c);
      if Applies(c, order[0]) then
        assert forall k :: 1 <= k < |[order[0]] + rest| ==> ([order[0]] + rest)[k] == rest[k - 1];
        [order[0]] + rest
      else rest
  }

  /** Selecting from an increasing list keeps it increasing. */
  lemma {:induction false} SelectIncreasing(order: seq<Suggestion>, c: Conditions)
    requires Increasing(order)
    ensures Increasing(Select(order, c))
  {
    if |order| > 0 {
      SelectIncreasing(order[1..], c);
      var rest := Select(order[1..], c);
      if Applies(c, order[0]) {
        var s := [order[0]] + rest;
        forall k | 0 <= k < |rest| ensures Rank(order[0]) < Rank(rest[k]) {
          var m :| 0 <= m < |order[1..]| && Rank(rest[k]) == Rank(order[1..][m]);
          assert order[1..][m] == order[m + 1];
        }
        assert Increasing(s) by {
          forall i, j | 0 <= i < j < |s| ensures Rank(s[i]) < Rank(s[j]) {
            if i > 0 {
              assert s[i] == rest[i - 1] && s[j] == rest[j - 1];
            } else {
              assert s[j] == rest[j - 1];
            }
          }
        }
      }
    }
  }

  /** ORDER lists every suggestion, by increasing rank. */
  lemma OrderComplete(y: Suggestion)
    ensures Increasing(ORDER)
    ensures y in ORDER
  {
    assert ORDER[Rank(y)] == y;
  }

  /** The suggestions whose conditions hold, in the fixed order. */
  function SuggestionList(c: Conditions): (s: seq<Suggestion>)
    ensures forall y :: y in s <==> Applies(c, y)
    ensures Increasing(s)
    ensures |s| <= 5
  {
    forall y ensures y in ORDER && Increasing(ORDER) { OrderComplete(y); }
    OrderComplete(MixClasses);
    SelectIncreasing(ORDER, c);
    Select(ORDER, c)
  }

  /** getPasswordSuggestions: each suggestion exactly when its condition
      holds, in the fixed order. The options argument is never read. */
  method GetPasswordSuggestions(p: string, options: CharsetOptions) returns (s: seq<Suggestion>)
    ensures UseAtLeastEight in s <==> |p| < 8
    ensures ConsiderTwelve in s <==> |p| < 12
    ensures MixClasses in s <==> GetCharsetVariety(p) < 3
    ensures AvoidRepeats in s <==> Repeats(p)
    ensures AvoidSequences in s <==> Sequential(p)
    ensures Increasing(s)
    ensures |s| <= 5
  {
    var repeats := HasRepeatingPatterns(p);
    var sequential := HasSequentialPatterns(p);
    s := SuggestionList(Conditions(|p| < 8, |p| < 12, GetCharsetVariety(p) < 3, repeats, sequential));
  }
}
