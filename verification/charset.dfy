/** The fixed alphabets and the character pool built from the class toggles
    (src/lib/charset.ts). */
module Charset {
  import opened Common

  const LOWERCASE: string := "abcdefghijklmnopqrstuvwxyz"
  const UPPERCASE: string := "ABCDEFGHIJKLMNOPQRSTUVWXYZ"
  const DIGITS: string := "0123456789"
  /** 24 symbols; the guaranteed-class path of the generator uses a
      different, 26-character literal (Generator.GUARANTEED_SYMBOLS). */
  const SYMBOLS: string := "!@#$%^&*()-_=+[]{},.<>/?"

  /** The class toggles read by the pool builder. The field is `digits`
      here; the generator's guaranteed-class path reads a different field,
      `numbers` (see Generator.GeneratorOptions). */
  datatype CharsetOptions = CharsetOptions(lowercase: bool, uppercase: bool, digits: bool, symbols: bool)

  predicate IsLower(c: char) { 'a' <= c <= 'z' }
  predicate IsUpper(c: char) { 'A' <= c <= 'Z' }
  predicate IsDigit(c: char) { '0' <= c <= '9' }
  predicate IsAlnum(c: char) { IsLower(c) || IsUpper(c) || IsDigit(c) }

  /** A string whose characters are pairwise distinct. */
  predicate NoDuplicates(s: string) {
    forall i, j :: 0 <= i < j < |s| ==> s[i] != s[j]
  }

  lemma {:induction false} NoDuplicatesAppend(a: string, b: string)
    requires NoDuplicates(a) && NoDuplicates(b)
    requires forall c :: c in a ==> c !in b
    ensures NoDuplicates(a + b)
  {
    var s := a + b;
    forall i, j | 0 <= i < j < |s|
      ensures s[i] != s[j]
    {
      if j < |a| {
        assert s[i] == a[i] && s[j] == a[j];
      } else if i >= |a| {
        assert s[i] == b[i - |a|] && s[j] == b[j - |a|];
      } else {
        assert s[i] == a[i] && s[j] == b[j - |a|];
        assert s[i] in a && s[j] in b;
      }
    }
  }

  /** Each letter and digit alphabet lists its range in code-point order;
      the symbols are pairwise distinct and none is a letter or digit. */
  lemma AlphabetLayout()
    ensures forall i :: 0 <= i < |LOWERCASE| ==> LOWERCASE[i] as int == 'a' as int + i
    ensures forall i :: 0 <= i < |UPPERCASE| ==> UPPERCASE[i] as int == 'A' as int + i
    ensures forall i :: 0 <= i < |DIGITS| ==> DIGITS[i] as int == '0' as int + i
    ensures forall i :: 0 <= i < |SYMBOLS| ==> !IsAlnum(SYMBOLS[i])
    ensures NoDuplicates(SYMBOLS)
  {
    LowercaseLayout();
    UppercaseLayout();
    DigitsLayout();
    SymbolsLayout();
    SymbolsDistinct();
  }

  lemma LowercaseLayout()
    ensures forall i :: 0 <= i < |LOWERCASE| ==> LOWERCASE[i] as int == 'a' as int + i
  {
  }

  lemma UppercaseLayout()
    ensures forall i :: 0 <= i < |UPPERCASE| ==> UPPERCASE[i] as int == 'A' as int + i
  {
  }

  lemma DigitsLayout()
    ensures forall i :: 0 <= i < |DIGITS| ==> DIGITS[i] as int == '0' as int + i
  {
  }

  lemma SymbolsLayout()
    ensures forall i :: 0 <= i < |SYMBOLS| ==> !IsAlnum(SYMBOLS[i])
  {
  }

  lemma SymbolsDistinct()
    ensures NoDuplicates(SYMBOLS)
  {
  }

  /** Membership in each fixed alphabet, stated as a character range or,
      for the symbols, as "one of the listed non-alphanumerics". */
  lemma AlphabetMembership(c: char)
    ensures c in LOWERCASE <==> IsLower(c)
    ensures c in UPPERCASE <==> IsUpper(c)
    ensures c in DIGITS <==> IsDigit(c)
    ensures c in SYMBOLS ==> !IsAlnum(c)
  {
    LowercaseMembership(c);
    UppercaseMembership(c);
    DigitsMembership(c);
    SymbolsLayout();
  }

  lemma LowercaseMembership(c: char)
    ensures c in LOWERCASE <==> IsLower(c)
  {
    LowercaseLayout();
    if IsLower(c) {
      assert LOWERCASE[c as int - 'a' as int] == c;
    }
  }

  lemma UppercaseMembership(c: char)
    ensures c in UPPERCASE <==> IsUpper(c)
  {
    UppercaseLayout();
    if IsUpper(c) {
      assert UPPERCASE[c as int - 'A' as int] == c;
    }
  }

  lemma DigitsMembership(c: char)
    ensures c in DIGITS <==> IsDigit(c)
  {
    DigitsLayout();
    if IsDigit(c) {
      assert DIGITS[c as int - '0' as int] == c;
    }
  }

  /** The four alphabets of the pool builder share no character, and none
      repeats a character. */
  lemma AlphabetsDisjoint()
    ensures forall c :: c in LOWERCASE ==> c !in UPPERCASE && c !in DIGITS && c !in SYMBOLS
    ensures forall c :: c in UPPERCASE ==> c !in DIGITS && c !in SYMBOLS
    ensures forall c :: c in DIGITS ==> c !in SYMBOLS
    ensures NoDuplicates(LOWERCASE) && NoDuplicates(UPPERCASE)
    ensures NoDuplicates(DIGITS) && NoDuplicates(SYMBOLS)
  {
    forall c ensures c in LOWERCASE <==> IsLower(c) {
      AlphabetMembership(c);
    }
    forall c ensures c in UPPERCASE <==> IsUpper(c) {
      AlphabetMembership(c);
    }
    forall c ensures c in DIGITS <==> IsDigit(c) {
      AlphabetMembership(c);
    }
    forall c ensures c in SYMBOLS ==> !IsAlnum(c) {
      AlphabetMembership(c);
    }
    AlphabetLayout();
  }

  /** buildCharacterPool: the enabled alphabets concatenated in the order
      lowercase, uppercase, digits, symbols. */
  function BuildCharacterPool(o: CharsetOptions): (pool: string)
    ensures |pool| == (if o.lowercase then 26 else 0) + (if o.uppercase then 26 else 0)
                    + (if o.digits then 10 else 0) + (if o.symbols then 24 else 0)
    ensures forall c :: c in pool <==>
              (o.lowercase && c in LOWERCASE) || (o.uppercase && c in UPPERCASE)
              || (o.digits && c in DIGITS) || (o.symbols && c in SYMBOLS)
  {
    (if o.lowercase then LOWERCASE else "")
    + (if o.uppercase then UPPERCASE else "")
    + (if o.digits then DIGITS else "")
    + (if o.symbols then SYMBOLS else "")
  }

  /** The pool never repeats a character, because the alphabets are
      disjoint and individually duplicate-free. */
  lemma PoolHasNoDuplicates(o: CharsetOptions)
    ensures NoDuplicates(BuildCharacterPool(o))
  {
    AlphabetsDisjoint();
    var l := if o.lowercase then LOWERCASE else "";
    var u := if o.uppercase then UPPERCASE else "";
    var d := if o.digits then DIGITS else "";
    var s := if o.symbols then SYMBOLS else "";
    NoDuplicatesAppend(l, u);
    NoDuplicatesAppend(l + u, d);
    NoDuplicatesAppend(l + u + d, s);
  }

  /** With every toggle off the pool is the empty string. */
  lemma EmptyOptionsEmptyPool(o: CharsetOptions)
    requires !o.lowercase && !o.uppercase && !o.digits && !o.symbols
    ensures BuildCharacterPool(o) == ""
  {
  }

  /** The four alphabets are four different strings. */
  lemma AlphabetsDistinct()
    ensures LOWERCASE != UPPERCASE && LOWERCASE != DIGITS && LOWERCASE != SYMBOLS
    ensures UPPERCASE != DIGITS && UPPERCASE != SYMBOLS && DIGITS != SYMBOLS
  {
    assert LOWERCASE[0] == 'a' && UPPERCASE[0] == 'A' && DIGITS[0] == '0' && SYMBOLS[0] == '!';
  }

  /** getSelectedCharsets: the enabled alphabets as a list, in the same
      order as the pool builder uses. */
  function GetSelectedCharsets(o: CharsetOptions): (sets: seq<string>)
    ensures |sets| == (if o.lowercase then 1 else 0) + (if o.uppercase then 1 else 0)
                    + (if o.digits then 1 else 0) + (if o.symbols then 1 else 0)
    ensures Concat(sets) == BuildCharacterPool(o)
    ensures forall k :: 0 <= k < |sets| ==>
              sets[k] == LOWERCASE || sets[k] == UPPERCASE || sets[k] == DIGITS || sets[k] == SYMBOLS
    ensures (LOWERCASE in sets <==> o.lowercase) && (UPPERCASE in sets <==> o.uppercase)
            && (DIGITS in sets <==> o.digits) && (SYMBOLS in sets <==> o.symbols)
  {
    AlphabetsDistinct();
    var sets := (if o.lowercase then [LOWERCASE] else [])
      + (if o.uppercase then [UPPERCASE] else [])
      + (if o.digits then [DIGITS] else [])
      + (if o.symbols then [SYMBOLS] else []);
    SelectedConcat(o);
    sets
  }

  lemma SelectedConcat(o: CharsetOptions)
    ensures Concat((if o.lowercase then [LOWERCASE] else [])
      + (if o.uppercase then [UPPERCASE] else [])
      + (if o.digits then [DIGITS] else [])
      + (if o.symbols then [SYMBOLS] else [])) == BuildCharacterPool(o)
  {
    var l: seq<string> := if o.lowercase then [LOWERCASE] else [];
    var u: seq<string> := if o.uppercase then [UPPERCASE] else [];
    var d: seq<string> := if o.digits then [DIGITS] else [];
    var s: seq<string> := if o.symbols then [SYMBOLS] else [];
    ConcatAppend(l + u + d, s);
    ConcatAppend(l + u, d);
    ConcatAppend(l, u);
    ConcatSingle(LOWERCASE);
    ConcatSingle(UPPERCASE);
    ConcatSingle(DIGITS);
    ConcatSingle(SYMBOLS);
  }

  /** hasSelectedOptions is exactly "the pool is not empty". */
  function HasSelectedOptions(o: CharsetOptions): (b: bool)
    ensures b <==> |BuildCharacterPool(o)| > 0
    ensures b <==> |GetSelectedCharsets(o)| > 0
  {
    o.lowercase || o.uppercase || o.digits || o.symbols
  }
}
