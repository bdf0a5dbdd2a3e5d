/**
 * The key normalisation shared by `extract_info_data` (`normalize_key`) and
 * `extract_financials_data` (the first half of `normalize_category`): drop
 * punctuation, turn each run of whitespace and underscores into one `_`,
 * lower-case, and trim `_` from both ends.
 */
module Normalize {
  import opened Strings

  predicate IsSeparator(c: char) {
    IsSpace(c) || c == '_'
  }

  /** `re.sub(r'[^\w\s]', '', label)`: keeps word characters and whitespace only. */
  function KeepWordAndSpace(s: string): string {
    if s == [] then []
    else if IsWordChar(s[0]) || IsSpace(s[0]) then [s[0]] + KeepWordAndSpace(s[1..])
    else KeepWordAndSpace(s[1..])
  }

  lemma {:induction false} KeepWordAndSpaceChars(s: string)
    ensures forall c :: c in KeepWordAndSpace(s) <==> c in s && (IsWordChar(c) || IsSpace(c))
  {
    if s != [] {
      KeepWordAndSpaceChars(s[1..]);
      assert s == [s[0]] + s[1..];
    }
  }

  /** Drops a leading run of whitespace and underscores. */
  function SkipSeparators(s: string): (r: string)
    ensures |r| <= |s|
    ensures r == [] || !IsSeparator(r[0])
  {
    if s != [] && IsSeparator(s[0]) then SkipSeparators(s[1..]) else s
  }

  /** `re.sub(r'[\s_]+', '_', s)`: every run of whitespace and underscores becomes one `_`. */
  function CollapseSeparators(s: string): (r: string)
    ensures forall i :: 0 <= i < |r| ==> !IsSpace(r[i])
    ensures r != [] && r[0] == '_' <==> s != [] && IsSeparator(s[0])
    decreases |s|
  {
    if s == [] then []
    else if IsSeparator(s[0]) then "_" + CollapseSeparators(SkipSeparators(s[1..]))
    else [s[0]] + CollapseSeparators(s[1..])
  }

  /** A run of separators leaves a single `_`: the result never holds two in a row. */
  lemma {:induction false} CollapseNoDoubleUnderscore(s: string)
    ensures forall i :: 0 <= i < |CollapseSeparators(s)| - 1 ==>
      CollapseSeparators(s)[i] == '_' ==> CollapseSeparators(s)[i + 1] != '_'
    decreases |s|
  {
    if s != [] {
      var rest := if IsSeparator(s[0]) then SkipSeparators(s[1..]) else s[1..];
      CollapseNoDoubleUnderscore(rest);
      var tail := CollapseSeparators(rest);
      assert CollapseSeparators(s) == [if IsSeparator(s[0]) then '_' else s[0]] + tail;
      assert IsSeparator(s[0]) ==> tail == [] || tail[0] != '_';
    }
  }

  lemma {:induction false} SkipKeepsNonSeparators(s: string)
    ensures forall c :: !IsSeparator(c) ==> (c in SkipSeparators(s) <==> c in s)
  {
    if s != [] && IsSeparator(s[0]) {
      SkipKeepsNonSeparators(s[1..]);
    }
  }

  /** Collapsing keeps every character other than whitespace and `_`, and adds none. */
  lemma {:induction false} CollapseKeeps(s: string)
    ensures forall c :: !IsSeparator(c) ==> (c in CollapseSeparators(s) <==> c in s)
    decreases |s|
  {
    if s != [] {
      if IsSeparator(s[0]) {
        SkipKeepsNonSeparators(s[1..]);
        CollapseKeeps(SkipSeparators(s[1..]));
      } else {
        CollapseKeeps(s[1..]);
      }
      assert s == [s[0]] + s[1..];
    }
  }

  /** `s.strip('_')`. */
  function StripUnderscores(s: string): (r: string)
    ensures |r| <= |s|
    ensures r == [] || (r[0] != '_' && r[|r| - 1] != '_')
    decreases |s|
  {
    if s == [] then []
    else if s[0] == '_' then StripUnderscores(s[1..])
    else if s[|s| - 1] == '_' then StripUnderscores(s[..|s| - 1])
    else s
  }

  /** Stripping `_` keeps every other character and adds none. */
  lemma {:induction false} StripUnderscoresChars(s: string)
    ensures forall c :: c in StripUnderscores(s) ==> c in s
    ensures forall c :: c != '_' ==> (c in StripUnderscores(s) <==> c in s)
    decreases |s|
  {
    if s == [] {
    } else if s[0] == '_' {
      StripUnderscoresChars(s[1..]);
    } else if s[|s| - 1] == '_' {
      StripUnderscoresChars(s[..|s| - 1]);
      assert s == s[..|s| - 1] + [s[|s| - 1]];
    }
  }

  /** The first three steps of `normalize_key`, before `_` is trimmed from the ends. */
  function Squashed(labelText: string): string {
    Lower(CollapseSeparators(KeepWordAndSpace(labelText)))
  }

  /** Before trimming, the text is made of lower-case word characters. */
  lemma SquashedIsLowerWordChars(labelText: string)
    ensures forall i :: 0 <= i < |Squashed(labelText)| ==>
      IsWordChar(Squashed(labelText)[i]) && !IsUpper(Squashed(labelText)[i])
  {
    var kept := KeepWordAndSpace(labelText);
    var collapsed := CollapseSeparators(kept);
    KeepWordAndSpaceChars(labelText);
    CollapseKeeps(kept);
    forall i | 0 <= i < |collapsed|
      ensures IsWordChar(collapsed[i])
    {
      var c := collapsed[i];
      if c != '_' {
        assert c in kept;
      }
    }
  }

  /** Before trimming, the text never holds two `_` in a row. */
  lemma SquashedNoDoubleUnderscore(labelText: string)
    ensures forall i :: 0 <= i < |Squashed(labelText)| - 1 ==>
      Squashed(labelText)[i] == '_' ==> Squashed(labelText)[i + 1] != '_'
  {
    var collapsed := CollapseSeparators(KeepWordAndSpace(labelText));
    CollapseNoDoubleUnderscore(KeepWordAndSpace(labelText));
    forall i | 0 <= i < |collapsed| - 1 && Squashed(labelText)[i] == '_'
      ensures Squashed(labelText)[i + 1] != '_'
    {
      assert collapsed[i] == '_';
    }
  }

  /** Trimming `_` from a text of lower-case word characters without `__` gives snake_case. */
  lemma StripUnderscoresSnakeCase(s: string)
    requires forall i :: 0 <= i < |s| ==> IsWordChar(s[i]) && !IsUpper(s[i])
    requires forall i :: 0 <= i < |s| - 1 ==> s[i] == '_' ==> s[i + 1] != '_'
    ensures SnakeCase(StripUnderscores(s))
  {
    var r := StripUnderscores(s);
    StripUnderscoresChars(s);
    StripKeepsNoDoubleUnderscore(s);
    forall i | 0 <= i < |r|
      ensures IsWordChar(r[i]) && !IsUpper(r[i])
    {
      assert r[i] in s;
    }
  }

  /**
   * `normalize_key(label)`: drop punctuation, collapse separators to `_`,
   * lower-case, trim `_`. Every key is snake_case: lower-case word
   * characters, no `__`, no `_` at either end.
   */
  function NormalizeKey(labelText: string): (r: string)
    ensures SnakeCase(r)
  {
    SquashedIsLowerWordChars(labelText);
    SquashedNoDoubleUnderscore(labelText);
    StripUnderscoresSnakeCase(Squashed(labelText));
    StripUnderscores(Squashed(labelText))
  }

  /** Every letter and digit of the label reaches the key, lower-cased. */
  lemma NormalizeKeyKeepsLettersAndDigits(labelText: string, i: int)
    requires 0 <= i < |labelText| && (IsLetter(labelText[i]) || IsDigit(labelText[i]))
    ensures LowerChar(labelText[i]) in NormalizeKey(labelText)
  {
    var kept := KeepWordAndSpace(labelText);
    var collapsed := CollapseSeparators(kept);
    var lowered := Lower(collapsed);
    var c := labelText[i];
    KeepWordAndSpaceChars(labelText);
    CollapseKeeps(kept);
    StripUnderscoresChars(lowered);
    assert c in kept;
    assert c in collapsed;
    var j :| 0 <= j < |collapsed| && collapsed[j] == c;
    assert lowered[j] == LowerChar(c);
  }

  lemma {:induction false} StripKeepsNoDoubleUnderscore(s: string)
    requires forall i :: 0 <= i < |s| - 1 ==> s[i] == '_' ==> s[i + 1] != '_'
    ensures forall i :: 0 <= i < |StripUnderscores(s)| - 1 ==>
      StripUnderscores(s)[i] == '_' ==> StripUnderscores(s)[i + 1] != '_'
    decreases |s|
  {
    if s == [] {
    } else if s[0] == '_' {
      StripKeepsNoDoubleUnderscore(s[1..]);
    } else if s[|s| - 1] == '_' {
      StripKeepsNoDoubleUnderscore(s[..|s| - 1]);
    }
  }

  /** What a normalised key looks like: lower-case word characters, single `_` separators. */
  predicate SnakeCase(s: string) {
    (forall i :: 0 <= i < |s| ==> IsWordChar(s[i]) && !IsUpper(s[i])) &&
    (forall i :: 0 <= i < |s| - 1 ==> s[i] == '_' ==> s[i + 1] != '_') &&
    (s == [] || (s[0] != '_' && s[|s| - 1] != '_'))
  }

  lemma {:induction false} KeepWordAndSpaceFixes(s: string)
    requires forall i :: 0 <= i < |s| ==> IsWordChar(s[i])
    ensures KeepWordAndSpace(s) == s
  {
    if s != [] {
      KeepWordAndSpaceFixes(s[1..]);
    }
  }

  lemma {:induction false} CollapseFixes(s: string)
    requires forall i :: 0 <= i < |s| ==> !IsSpace(s[i])
    requires forall i :: 0 <= i < |s| - 1 ==> s[i] == '_' ==> s[i + 1] != '_'
    ensures CollapseSeparators(s) == s
    decreases |s|
  {
    if s != [] {
      CollapseFixes(s[1..]);
      if IsSeparator(s[0]) {
        assert SkipSeparators(s[1..]) == s[1..];
      }
    }
  }

  lemma LowerFixes(s: string)
    requires forall i :: 0 <= i < |s| ==> !IsUpper(s[i])
    ensures Lower(s) == s
  {
  }

  /** A snake_case string is its own key. */
  lemma NormalizeKeyFixesSnakeCase(s: string)
    requires SnakeCase(s)
    ensures NormalizeKey(s) == s
  {
    KeepWordAndSpaceFixes(s);
    CollapseFixes(s);
    LowerFixes(s);
  }

  /** Normalising a key again changes nothing. */
  lemma NormalizeKeyIdempotent(labelText: string)
    ensures NormalizeKey(NormalizeKey(labelText)) == NormalizeKey(labelText)
  {
    NormalizeKeyFixesSnakeCase(NormalizeKey(labelText));
  }
}
