/**
 * `find_sheet_by_variations`: picks the workbook sheet that plays a role
 * (Setup, COS, info, financials) from a list of candidate names, in three
 * phases, the first phase that finds a sheet deciding:
 *   1. a candidate equals a sheet name case-insensitively;
 *   2. a sheet's normalized name equals some candidate's normalized name;
 *   3. a candidate's normalized name and a sheet's normalized name contain
 *      one another.
 * Fallback names are appended to the primary names and go through the same
 * three phases.
 */
module SheetResolver {
  import opened Strings
  import opened Wrappers

  predicate IsSeparator(c: char) {
    IsSpace(c) || c == '_'
  }

  /** `re.sub(r'[\s_]+', '', s)`: deletes every whitespace character and underscore. */
  function DropSeparators(s: string): (r: string)
    ensures |r| <= |s|
    ensures forall i :: 0 <= i < |r| ==> !IsSeparator(r[i])
    ensures forall c :: c in r <==> c in s && !IsSeparator(c)
  {
    if s == [] then []
    else if IsSeparator(s[0]) then DropSeparators(s[1..])
    else [s[0]] + DropSeparators(s[1..])
  }

  /**
   * The resolver's `normalize`: lower-case, then delete whitespace and
   * underscores. Every other character, the hyphen included, survives.
   */
  function Normalize(name: string): (r: string)
    ensures forall c :: c in r <==> c in Lower(name) && !IsSeparator(c)
    ensures forall i :: 0 <= i < |r| ==> !IsSeparator(r[i]) && !IsUpper(r[i])
  {
    DropSeparators(Lower(name))
  }

  lemma {:induction false} DropSeparatorsKeepsClean(s: string)
    requires forall i :: 0 <= i < |s| ==> !IsSeparator(s[i])
    ensures DropSeparators(s) == s
  {
    if s != [] {
      DropSeparatorsKeepsClean(s[1..]);
    }
  }

  /** Normalizing twice is normalizing once. */
  lemma NormalizeIdempotent(name: string)
    ensures Normalize(Normalize(name)) == Normalize(name)
  {
    var n := Normalize(name);
    assert Lower(n) == n;
    DropSeparatorsKeepsClean(n);
  }

  /** A character that is neither whitespace nor `_` survives normalization, lower-cased. */
  lemma NormalizeKeeps(name: string, i: nat)
    requires i < |name| && !IsSeparator(name[i])
    ensures LowerChar(name[i]) in Normalize(name)
  {
    assert Lower(name)[i] == LowerChar(name[i]);
  }

  /** Case-insensitive equality, the test of phase 1. */
  predicate SameIgnoringCase(a: string, b: string) {
    Lower(a) == Lower(b)
  }

  /** The containment test of phase 3, in either direction. */
  predicate Overlaps(name: string, sheet: string) {
    Contains(Normalize(sheet), Normalize(name)) || Contains(Normalize(name), Normalize(sheet))
  }

  ghost predicate AnyOverlap(names: seq<string>, sheets: seq<string>) {
    exists n, s :: n in names && s in sheets && Overlaps(n, s)
  }

  // Phase 1: for each candidate in order, the first sheet equal to it ignoring case.

  function FirstSameIgnoringCase(name: string, sheets: seq<string>): (r: Option<string>)
    ensures r.Some? ==> r.value in sheets && SameIgnoringCase(name, r.value)
    ensures r.None? ==> forall s :: s in sheets ==> !SameIgnoringCase(name, s)
  {
    if sheets == [] then None
    else if SameIgnoringCase(sheets[0], name) then Some(sheets[0])
    else FirstSameIgnoringCase(name, sheets[1..])
  }

  function ExactPhase(names: seq<string>, sheets: seq<string>): (r: Option<string>)
    ensures r.Some? ==> r.value in sheets && exists n :: n in names && SameIgnoringCase(n, r.value)
    ensures r.None? ==> forall n, s :: n in names && s in sheets ==> !SameIgnoringCase(n, s)
  {
    if names == [] then None
    else
      match FirstSameIgnoringCase(names[0], sheets)
      case Some(s) => Some(s)
      case None => ExactPhase(names[1..], sheets)
  }

  // Phase 2: the first sheet, in workbook order, whose normalized name is a normalized candidate.

  /** `{normalize(name): name for name in all_names}`, of which only the keys are used. */
  function NormalizedTargets(names: seq<string>): set<string> {
    set n | n in names :: Normalize(n)
  }

  function NormalizedPhase(targets: set<string>, sheets: seq<string>): (r: Option<string>)
    ensures r.Some? ==> r.value in sheets && Normalize(r.value) in targets
    ensures r.None? ==> forall s :: s in sheets ==> Normalize(s) !in targets
  {
    if sheets == [] then None
    else if Normalize(sheets[0]) in targets then Some(sheets[0])
    else NormalizedPhase(targets, sheets[1..])
  }

  // Phase 3: for each candidate in order, the first sheet it overlaps.

  function FirstOverlapping(name: string, sheets: seq<string>): (r: Option<string>)
    ensures r.Some? ==> r.value in sheets && Overlaps(name, r.value)
    ensures r.None? ==> forall s :: s in sheets ==> !Overlaps(name, s)
  {
    if sheets == [] then None
    else if Overlaps(name, sheets[0]) then Some(sheets[0])
    else FirstOverlapping(name, sheets[1..])
  }

  function SubstringPhase(names: seq<string>, sheets: seq<string>): (r: Option<string>)
    ensures r.Some? ==> r.value in sheets && exists n :: n in names && Overlaps(n, r.value)
    ensures r.None? ==> !AnyOverlap(names, sheets)
  {
    if names == [] then None
    else
      match FirstOverlapping(names[0], sheets)
      case Some(s) => Some(s)
      case None => SubstringPhase(names[1..], sheets)
  }

  /** `find_sheet_by_variations(workbook, primary, fallback)` over `workbook.sheetnames`. */
  function FindSheet(sheets: seq<string>, primary: seq<string>, fallback: seq<string>): (r: Option<string>)
    ensures r.Some? ==> r.value in sheets
  {
    var names := primary + fallback;
    match ExactPhase(names, sheets)
    case Some(s) => Some(s)
    case None =>
      match NormalizedPhase(NormalizedTargets(names), sheets)
      case Some(s) => Some(s)
      case None => SubstringPhase(names, sheets)
  }

  lemma SameIgnoringCaseOverlaps(n: string, s: string)
    requires SameIgnoringCase(n, s)
    ensures Overlaps(n, s)
  {
    assert Normalize(n) == Normalize(s);
    assert StartsWith(Normalize(s), Normalize(n));
  }

  lemma SameNormalizedOverlaps(n: string, s: string)
    requires Normalize(n) == Normalize(s)
    ensures Overlaps(n, s)
  {
    assert StartsWith(Normalize(s), Normalize(n));
  }

  /**
   * The resolver gives up exactly when no candidate and no sheet name contain
   * one another after normalization: the first two phases only ever find
   * sheets that the third would also find.
   */
  lemma FindSheetNoneIff(sheets: seq<string>, primary: seq<string>, fallback: seq<string>)
    ensures FindSheet(sheets, primary, fallback).None? <==> !AnyOverlap(primary + fallback, sheets)
  {
    var names := primary + fallback;
    var e := ExactPhase(names, sheets);
    if e.Some? {
      var n :| n in names && SameIgnoringCase(n, e.value);
      SameIgnoringCaseOverlaps(n, e.value);
    } else {
      var m := NormalizedPhase(NormalizedTargets(names), sheets);
      if m.Some? {
        var n :| n in names && Normalize(n) == Normalize(m.value);
        SameNormalizedOverlaps(n, m.value);
      }
    }
  }

  lemma {:induction false} FirstSameIgnoringCaseAt(name: string, sheets: seq<string>, j: nat)
    requires j < |sheets| && SameIgnoringCase(name, sheets[j])
    requires forall k :: 0 <= k < j ==> !SameIgnoringCase(name, sheets[k])
    ensures FirstSameIgnoringCase(name, sheets) == Some(sheets[j])
  {
    if j > 0 {
      FirstSameIgnoringCaseAt(name, sheets[1..], j - 1);
    }
  }

  lemma {:induction false} ExactPhaseAt(names: seq<string>, sheets: seq<string>, i: nat, j: nat)
    requires i < |names| && j < |sheets| && SameIgnoringCase(names[i], sheets[j])
    requires forall k, s :: 0 <= k < i && s in sheets ==> !SameIgnoringCase(names[k], s)
    requires forall k :: 0 <= k < j ==> !SameIgnoringCase(names[i], sheets[k])
    ensures ExactPhase(names, sheets) == Some(sheets[j])
  {
    if i == 0 {
      FirstSameIgnoringCaseAt(names[0], sheets, j);
    } else {
      assert FirstSameIgnoringCase(names[0], sheets).None?;
      ExactPhaseAt(names[1..], sheets, i - 1, j);
    }
  }

  /**
   * Phase 1 decides by candidate order, then by sheet order: if candidate `i`
   * is the first candidate equal (ignoring case) to any sheet, and sheet `j`
   * is the first sheet equal to it, the result is sheet `j`, whatever the
   * later phases would have found. Primary names precede fallback names.
   */
  lemma ExactMatchWins(sheets: seq<string>, primary: seq<string>, fallback: seq<string>, i: nat, j: nat)
    requires i < |primary + fallback| && j < |sheets|
    requires SameIgnoringCase((primary + fallback)[i], sheets[j])
    requires forall k, s :: 0 <= k < i && s in sheets ==> !SameIgnoringCase((primary + fallback)[k], s)
    requires forall k :: 0 <= k < j ==> !SameIgnoringCase((primary + fallback)[i], sheets[k])
    ensures FindSheet(sheets, primary, fallback) == Some(sheets[j])
  {
    ExactPhaseAt(primary + fallback, sheets, i, j);
  }

  lemma {:induction false} ExactPhasePrefix(names: seq<string>, more: seq<string>, sheets: seq<string>)
    requires ExactPhase(names, sheets).Some?
    ensures ExactPhase(names + more, sheets) == ExactPhase(names, sheets)
  {
    assert (names + more)[0] == names[0];
    if FirstSameIgnoringCase(names[0], sheets).None? {
      assert (names + more)[1..] == names[1..] + more;
      ExactPhasePrefix(names[1..], more, sheets);
    }
  }

  /**
   * Fallback names are never consulted while some primary name equals a
   * sheet name ignoring case: the result is the one without fallbacks.
   */
  lemma PrimaryExactMatchIgnoresFallback(sheets: seq<string>, primary: seq<string>, fallback: seq<string>)
    requires exists n, s :: n in primary && s in sheets && SameIgnoringCase(n, s)
    ensures FindSheet(sheets, primary, fallback) == FindSheet(sheets, primary, [])
  {
    assert primary + [] == primary;
    ExactPhasePrefix(primary, fallback, sheets);
  }

  lemma {:induction false} NormalizedPhaseAt(targets: set<string>, sheets: seq<string>, j: nat)
    requires j < |sheets| && Normalize(sheets[j]) in targets
    requires forall k :: 0 <= k < j ==> Normalize(sheets[k]) !in targets
    ensures NormalizedPhase(targets, sheets) == Some(sheets[j])
  {
    if j > 0 {
      NormalizedPhaseAt(targets, sheets[1..], j - 1);
    }
  }

  /**
   * Phase 2 decides by workbook order, not candidate order: when no candidate
   * equals any sheet ignoring case, the result is the first sheet whose
   * normalized name equals some candidate's normalized name.
   */
  lemma NormalizedMatchFirstSheetWins(sheets: seq<string>, primary: seq<string>, fallback: seq<string>, n: string, j: nat)
    requires forall m, s :: m in primary + fallback && s in sheets ==> !SameIgnoringCase(m, s)
    requires n in primary + fallback && j < |sheets| && Normalize(sheets[j]) == Normalize(n)
    requires forall k, m :: 0 <= k < j && m in primary + fallback ==> Normalize(sheets[k]) != Normalize(m)
    ensures FindSheet(sheets, primary, fallback) == Some(sheets[j])
  {
    var names := primary + fallback;
    assert Normalize(sheets[j]) in NormalizedTargets(names);
    NormalizedPhaseAt(NormalizedTargets(names), sheets, j);
  }

  lemma {:induction false} FirstOverlappingAt(name: string, sheets: seq<string>, j: nat)
    requires j < |sheets| && Overlaps(name, sheets[j])
    requires forall k :: 0 <= k < j ==> !Overlaps(name, sheets[k])
    ensures FirstOverlapping(name, sheets) == Some(sheets[j])
  {
    if j > 0 {
      FirstOverlappingAt(name, sheets[1..], j - 1);
    }
  }

  lemma {:induction false} SubstringPhaseAt(names: seq<string>, sheets: seq<string>, i: nat, j: nat)
    requires i < |names| && j < |sheets| && Overlaps(names[i], sheets[j])
    requires forall k, s :: 0 <= k < i && s in sheets ==> !Overlaps(names[k], s)
    requires forall k :: 0 <= k < j ==> !Overlaps(names[i], sheets[k])
    ensures SubstringPhase(names, sheets) == Some(sheets[j])
  {
    if i == 0 {
      FirstOverlappingAt(names[0], sheets, j);
    } else {
      assert FirstOverlapping(names[0], sheets).None?;
      SubstringPhaseAt(names[1..], sheets, i - 1, j);
    }
  }

  /**
   * Phase 3 decides by candidate order, then by sheet order: when no
   * normalized candidate equals a normalized sheet name (so phases 1 and 2
   * find nothing), if candidate `i` is the first candidate
   * overlapping any sheet and sheet `j` the first sheet it overlaps, the
   * result is sheet `j`. Primary names precede fallback names.
   */
  lemma SubstringMatchWins(sheets: seq<string>, primary: seq<string>, fallback: seq<string>, i: nat, j: nat)
    requires forall m, s :: m in primary + fallback && s in sheets ==> Normalize(s) != Normalize(m)
    requires i < |primary + fallback| && j < |sheets|
    requires Overlaps((primary + fallback)[i], sheets[j])
    requires forall k, s :: 0 <= k < i && s in sheets ==> !Overlaps((primary + fallback)[k], s)
    requires forall k :: 0 <= k < j ==> !Overlaps((primary + fallback)[i], sheets[k])
    ensures FindSheet(sheets, primary, fallback) == Some(sheets[j])
  {
    var names := primary + fallback;
    var m := NormalizedPhase(NormalizedTargets(names), sheets);
    if m.Some? {
      assert false;
    }
    SubstringPhaseAt(names, sheets, i, j);
  }
}
