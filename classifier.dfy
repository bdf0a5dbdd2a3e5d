/**
 * The rule-based part of `BusinessClassifier`: grouping the reference rows
 * into a sector to sub-sectors table, choosing the sectors relevant to a
 * business summary (a direct substring rule and a fixed table of fuzzy
 * terms), and refusing to classify when no sector is relevant. The language
 * model that makes the final choice is a parameter.
 */
module Classifier {
  import opened Wrappers
  import opened Strings
  import opened Collections
  import opened Document
  import opened SummaryExtractor

  /** The reference table: each sector with its example sub-sectors, sectors in first-seen order. */
  type Reference = Dict<string, seq<string>>

  // ------------------------------------------------------- reference rows

  /** The first two columns of a reference row, as `str()` renders them (a missing cell is "nan"). */
  datatype ReferenceRow = ReferenceRow(sector: string, subsector: string)

  /** A stripped sub-sector that is stored: non-empty and not "nan". */
  predicate StoredSubsector(subsector: string) {
    subsector != "" && subsector != "nan"
  }

  /** The table after the loop of `_load_reference_data` has visited `rows`. */
  function GroupRows(rows: seq<ReferenceRow>): (d: Reference)
    ensures d.Valid()
  {
    if rows == [] then NewDict()
    else
      var d := GroupRows(rows[..|rows| - 1]);
      var sector := Strip(rows[|rows| - 1].sector);
      var subsector := Strip(rows[|rows| - 1].subsector);
      var withSector := if sector in d.entries then d else d.Put(sector, []);
      if StoredSubsector(subsector) then withSector.Put(sector, withSector.entries[sector] + [subsector])
      else withSector
  }

  /** The row-grouping loop of `_load_reference_data`. */
  method LoadReferenceData(rows: seq<ReferenceRow>) returns (reference: Reference)
    ensures reference == GroupRows(rows)
  {
    reference := NewDict();
    for i := 0 to |rows|
      invariant reference == GroupRows(rows[..i])
    {
      assert rows[..i + 1][..i] == rows[..i];
      var sector := Strip(rows[i].sector);
      var subsector := Strip(rows[i].subsector);
      if sector !in reference.entries {
        reference := reference.Put(sector, []);
      }
      if subsector != "" && subsector != "nan" {
        reference := reference.Put(sector, reference.entries[sector] + [subsector]);
      }
    }
    assert rows[..|rows|] == rows;
  }

  /** The stripped sector of every row, in row order. */
  function SectorsOf(rows: seq<ReferenceRow>): (sectors: seq<string>)
    ensures |sectors| == |rows|
  {
    if rows == [] then [] else SectorsOf(rows[..|rows| - 1]) + [Strip(rows[|rows| - 1].sector)]
  }

  /** The stored sub-sectors of the rows of `sector`, in row order. */
  function SubsectorsOf(rows: seq<ReferenceRow>, sector: string): seq<string> {
    if rows == [] then []
    else
      var row := rows[|rows| - 1];
      var subsector := Strip(row.subsector);
      SubsectorsOf(rows[..|rows| - 1], sector) +
        (if Strip(row.sector) == sector && StoredSubsector(subsector) then [subsector] else [])
  }

  /** The table has one key per distinct sector, in the order the sectors first appear. */
  lemma {:induction false} GroupRowsKeys(rows: seq<ReferenceRow>)
    ensures GroupRows(rows).keys == Dedup(SectorsOf(rows))
  {
    if rows != [] {
      var init := rows[..|rows| - 1];
      GroupRowsKeys(init);
      var sector := Strip(rows[|rows| - 1].sector);
      assert SectorsOf(rows)[..|SectorsOf(rows)| - 1] == SectorsOf(init);
      assert sector in GroupRows(init).entries <==> sector in Dedup(SectorsOf(init));
    }
  }

  /**
   * Each sector holds the stored sub-sectors of its rows, in row order; a
   * sector whose rows store none still has its key, with an empty list.
   */
  lemma {:induction false} GroupRowsEntries(rows: seq<ReferenceRow>, s: string)
    ensures s in GroupRows(rows).entries <==> s in SectorsOf(rows)
    ensures s in GroupRows(rows).entries ==> GroupRows(rows).entries[s] == SubsectorsOf(rows, s)
  {
    if rows != [] {
      var init := rows[..|rows| - 1];
      GroupRowsEntries(init, s);
      var sector := Strip(rows[|rows| - 1].sector);
      var subsector := Strip(rows[|rows| - 1].subsector);
      var d := GroupRows(init);
      var withSector := if sector in d.entries then d else d.Put(sector, []);
      assert SectorsOf(rows) == SectorsOf(init) + [sector];
      assert GroupRows(rows) == if StoredSubsector(subsector)
        then withSector.Put(sector, withSector.entries[sector] + [subsector]) else withSector;
      assert SubsectorsOf(rows, s) == SubsectorsOf(init, s) +
        (if sector == s && StoredSubsector(subsector) then [subsector] else []);
      if s == sector && s !in SectorsOf(init) {
        SubsectorsOfAbsent(init, s);
      }
    }
  }

  /** A sector no row names has no sub-sectors. */
  lemma {:induction false} SubsectorsOfAbsent(rows: seq<ReferenceRow>, s: string)
    requires s !in SectorsOf(rows)
    ensures SubsectorsOf(rows, s) == []
  {
    if rows != [] {
      var init := rows[..|rows| - 1];
      assert SectorsOf(rows) == SectorsOf(init) + [Strip(rows[|rows| - 1].sector)];
      SubsectorsOfAbsent(init, s);
    }
  }

  /** No stored sub-sector is empty or "nan". */
  lemma {:induction false} SubsectorsStored(rows: seq<ReferenceRow>, sector: string, i: int)
    requires 0 <= i < |SubsectorsOf(rows, sector)|
    ensures StoredSubsector(SubsectorsOf(rows, sector)[i])
  {
    var init := rows[..|rows| - 1];
    if i < |SubsectorsOf(init, sector)| {
      SubsectorsStored(init, sector, i);
    }
  }

  // ------------------------------------------------------ relevant sectors

  /** The secondary industry is matched only for a "combined" business that names one. */
  function IndustriesToMatch(s: BusinessSummary): seq<string> {
    if Lower(s.industryType) == "combined" && s.secondaryIndustry.Some? && s.secondaryIndustry.value != ""
    then [s.primaryIndustry, s.secondaryIndustry.value]
    else [s.primaryIndustry]
  }

  /** An industry with `/` read as a space, lower-cased; the industry side is also stripped. */
  function Cleaned(text: string): string {
    ReplaceChar(Lower(text), '/', ' ')
  }

  /** The direct rule: the cleaned, stripped industry occurs in the cleaned sector name. */
  predicate DirectMatch(industry: string, sector: string) {
    Contains(Cleaned(sector), Strip(Cleaned(industry)))
  }

  /** One entry of the fuzzy table: a term of the industry and the sector patterns it selects. */
  datatype FuzzyTerm = FuzzyTerm(term: string, patterns: seq<string>)

  const FuzzyTable: seq<FuzzyTerm> := [
    FuzzyTerm("trade", ["Retail / Trade"]),
    FuzzyTerm("retail", ["Retail / Trade"]),
    FuzzyTerm("manufacturing", ["Manufacturing"]),
    FuzzyTerm("agriculture", ["Agri primary production"]),
    FuzzyTerm("transport", ["Transport / logistics"]),
    FuzzyTerm("healthcare", ["Healthcare"]),
    FuzzyTerm("education", ["Education"]),
    FuzzyTerm("hospitality", ["Hospitality"])
  ]

  /** A pattern selects every sector whose lower-cased name contains it, lower-cased. */
  predicate PatternMatch(pattern: string, sector: string) {
    Contains(Lower(sector), Lower(pattern))
  }

  /** The fuzzy rule: some term of `table` occurs in the lower-cased industry and one of its patterns selects the sector. */
  predicate FuzzyMatch(table: seq<FuzzyTerm>, industry: string, sector: string) {
    exists t :: 0 <= t < |table| && Contains(Lower(industry), table[t].term) &&
      exists p :: 0 <= p < |table[t].patterns| && PatternMatch(table[t].patterns[p], sector)
  }

  /** The sectors of `sectors` that the direct rule selects for `industry`, in order. */
  function DirectMatches(sectors: seq<string>, industry: string): (r: seq<string>)
    ensures forall x :: x in r <==> x in sectors && DirectMatch(industry, x)
  {
    if sectors == [] then []
    else
      var last := sectors[|sectors| - 1];
      DirectMatches(sectors[..|sectors| - 1], industry) + (if DirectMatch(industry, last) then [last] else [])
  }

  /** `[s for s in sectors if pattern.lower() in s.lower()]`. */
  function PatternMatches(sectors: seq<string>, pattern: string): (r: seq<string>)
    ensures forall x :: x in r <==> x in sectors && PatternMatch(pattern, x)
  {
    if sectors == [] then []
    else
      var last := sectors[|sectors| - 1];
      PatternMatches(sectors[..|sectors| - 1], pattern) + (if PatternMatch(pattern, last) then [last] else [])
  }

  /** The sectors selected by the patterns in turn. */
  function PatternHits(sectors: seq<string>, patterns: seq<string>): (r: seq<string>)
    ensures forall x :: x in r ==> x in sectors
  {
    if patterns == [] then []
    else PatternHits(sectors, patterns[..|patterns| - 1]) + PatternMatches(sectors, patterns[|patterns| - 1])
  }

  /** The sectors selected by the terms of `table` that occur in `industry`, in table order. */
  function TermHits(sectors: seq<string>, table: seq<FuzzyTerm>, industry: string): (r: seq<string>)
    ensures forall x :: x in r ==> x in sectors
  {
    if table == [] then []
    else
      var entry := table[|table| - 1];
      TermHits(sectors, table[..|table| - 1], industry) +
        (if Contains(Lower(industry), entry.term) then PatternHits(sectors, entry.patterns) else [])
  }

  /** The direct matches of each industry in turn. */
  function DirectHits(sectors: seq<string>, industries: seq<string>): (r: seq<string>)
    ensures forall x :: x in r ==> x in sectors
  {
    if industries == [] then []
    else DirectHits(sectors, industries[..|industries| - 1]) + DirectMatches(sectors, industries[|industries| - 1])
  }

  /** The fuzzy matches of each industry in turn. */
  function FuzzyHits(sectors: seq<string>, table: seq<FuzzyTerm>, industries: seq<string>): (r: seq<string>)
    ensures forall x :: x in r ==> x in sectors
  {
    if industries == [] then []
    else FuzzyHits(sectors, table, industries[..|industries| - 1]) + TermHits(sectors, table, industries[|industries| - 1])
  }

  /** `relevant[s] = reference[s]` for each sector of `hits` in turn, starting from `d`. */
  function Record(reference: Reference, d: Reference, hits: seq<string>): Reference
    requires forall h :: h in hits ==> h in reference.entries
  {
    if hits == [] then d
    else
      var h := hits[|hits| - 1];
      Record(reference, d, hits[..|hits| - 1]).Put(h, reference.entries[h])
  }

  /**
   * Every sector the rules select with fuzzy table `table`, in the order the
   * loops of `get_relevant_sectors` visit them.
   */
  function Hits(reference: Reference, table: seq<FuzzyTerm>, s: BusinessSummary): (r: seq<string>)
    requires reference.Valid()
    ensures forall h :: h in r ==> h in reference.entries
  {
    var industries := IndustriesToMatch(s);
    DirectHits(reference.keys, industries) + FuzzyHits(reference.keys, table, industries)
  }

  /** The relevant sectors with fuzzy table `table`. */
  function Relevant(reference: Reference, table: seq<FuzzyTerm>, s: BusinessSummary): Reference
    requires reference.Valid()
  {
    Record(reference, NewDict(), Hits(reference, table, s))
  }

  /** The result of `get_relevant_sectors`. */
  function RelevantSectors(reference: Reference, s: BusinessSummary): Reference
    requires reference.Valid()
  {
    Relevant(reference, FuzzyTable, s)
  }

  lemma RecordSnoc(reference: Reference, d: Reference, hits: seq<string>, h: string)
    requires forall x :: x in hits ==> x in reference.entries
    requires h in reference.entries
    ensures Record(reference, d, hits + [h]) == Record(reference, d, hits).Put(h, reference.entries[h])
  {
    assert (hits + [h])[..|hits|] == hits;
  }

  /** Recording `a` then `b` is recording `a + b`. */
  lemma {:induction false} RecordConcat(reference: Reference, d: Reference, a: seq<string>, b: seq<string>)
    requires forall x :: x in a ==> x in reference.entries
    requires forall x :: x in b ==> x in reference.entries
    ensures Record(reference, d, a + b) == Record(reference, Record(reference, d, a), b)
    decreases |b|
  {
    if b == [] {
      assert a + b == a;
    } else {
      var init := b[..|b| - 1];
      assert (a + b)[..|a + b| - 1] == a + init;
      RecordConcat(reference, d, a, init);
    }
  }

  /** `relevant[sector] = subsectors` for each sector in turn. */
  method RecordSectors(reference: Reference, relevant: Reference, sectors: seq<string>) returns (r: Reference)
    requires forall x :: x in sectors ==> x in reference.entries
    ensures r == Record(reference, relevant, sectors)
  {
    r := relevant;
    for k := 0 to |sectors|
      invariant r == Record(reference, relevant, sectors[..k])
    {
      RecordSnoc(reference, relevant, sectors[..k], sectors[k]);
      assert sectors[..k + 1] == sectors[..k] + [sectors[k]];
      r := r.Put(sectors[k], reference.entries[sectors[k]]);
    }
    assert sectors[..|sectors|] == sectors;
  }

  /** The inner loop of the direct matching for one industry. */
  method AddDirectMatches(reference: Reference, relevant: Reference, industry: string) returns (r: Reference)
    requires reference.Valid()
    ensures r == Record(reference, relevant, DirectMatches(reference.keys, industry))
  {
    var cleaned := Strip(ReplaceChar(Lower(industry), '/', ' '));
    r := relevant;
    for j := 0 to |reference.keys|
      invariant r == Record(reference, relevant, DirectMatches(reference.keys[..j], industry))
    {
      var sector := reference.keys[j];
      var before := DirectMatches(reference.keys[..j], industry);
      assert reference.keys[..j + 1][..j] == reference.keys[..j];
      if Contains(ReplaceChar(Lower(sector), '/', ' '), cleaned) {
        assert DirectMatches(reference.keys[..j + 1], industry) == before + [sector];
        RecordSnoc(reference, relevant, before, sector);
        r := r.Put(sector, reference.entries[sector]);
      } else {
        assert DirectMatches(reference.keys[..j + 1], industry) == before;
      }
    }
    assert reference.keys[..|reference.keys|] == reference.keys;
  }

  /** The loop over the sector patterns of one fuzzy term. */
  method AddPatternMatches(reference: Reference, relevant: Reference, patterns: seq<string>) returns (r: Reference)
    requires reference.Valid()
    ensures r == Record(reference, relevant, PatternHits(reference.keys, patterns))
  {
    r := relevant;
    for p := 0 to |patterns|
      invariant r == Record(reference, relevant, PatternHits(reference.keys, patterns[..p]))
    {
      assert patterns[..p + 1][..p] == patterns[..p];
      var matching := PatternMatches(reference.keys, patterns[p]);
      RecordConcat(reference, relevant, PatternHits(reference.keys, patterns[..p]), matching);
      r := RecordSectors(reference, r, matching);
    }
    assert patterns[..|patterns|] == patterns;
  }

  /** The loop over the fuzzy table for one industry. */
  method AddFuzzyMatches(reference: Reference, relevant: Reference, industry: string) returns (r: Reference)
    requires reference.Valid()
    ensures r == Record(reference, relevant, TermHits(reference.keys, FuzzyTable, industry))
  {
    var industryLower := Lower(industry);
    r := relevant;
    for t := 0 to |FuzzyTable|
      invariant r == Record(reference, relevant, TermHits(reference.keys, FuzzyTable[..t], industry))
    {
      assert FuzzyTable[..t + 1][..t] == FuzzyTable[..t];
      var entry := FuzzyTable[t];
      var before := TermHits(reference.keys, FuzzyTable[..t], industry);
      if Contains(industryLower, entry.term) {
        RecordConcat(reference, relevant, before, PatternHits(reference.keys, entry.patterns));
        r := AddPatternMatches(reference, r, entry.patterns);
      } else {
        assert TermHits(reference.keys, FuzzyTable[..t + 1], industry) == before;
      }
    }
    assert FuzzyTable[..|FuzzyTable|] == FuzzyTable;
  }

  /** The direct-matching loops: every industry against every sector, in order. */
  method AddAllDirectMatches(reference: Reference, industries: seq<string>) returns (relevant: Reference)
    requires reference.Valid()
    ensures relevant == Record(reference, NewDict(), DirectHits(reference.keys, industries))
  {
    relevant := NewDict();
    for i := 0 to |industries|
      invariant relevant == Record(reference, NewDict(), DirectHits(reference.keys, industries[..i]))
    {
      assert industries[..i + 1][..i] == industries[..i];
      RecordConcat(reference, NewDict(), DirectHits(reference.keys, industries[..i]),
                   DirectMatches(reference.keys, industries[i]));
      relevant := AddDirectMatches(reference, relevant, industries[i]);
    }
    assert industries[..|industries|] == industries;
  }

  /** The fuzzy-matching loops: every industry against the fuzzy table, in order. */
  method AddAllFuzzyMatches(reference: Reference, relevant: Reference, industries: seq<string>) returns (r: Reference)
    requires reference.Valid()
    ensures r == Record(reference, relevant, FuzzyHits(reference.keys, FuzzyTable, industries))
  {
    r := relevant;
    for i := 0 to |industries|
      invariant r == Record(reference, relevant, FuzzyHits(reference.keys, FuzzyTable, industries[..i]))
    {
      assert industries[..i + 1][..i] == industries[..i];
      RecordConcat(reference, relevant, FuzzyHits(reference.keys, FuzzyTable, industries[..i]),
                   TermHits(reference.keys, FuzzyTable, industries[i]));
      r := AddFuzzyMatches(reference, r, industries[i]);
    }
    assert industries[..|industries|] == industries;
  }

  /** `get_relevant_sectors`: the direct matches of every industry, then the fuzzy matches. */
  method GetRelevantSectors(reference: Reference, s: BusinessSummary) returns (relevant: Reference)
    requires reference.Valid()
    ensures relevant == RelevantSectors(reference, s)
  {
    var industries := [s.primaryIndustry];
    if Lower(s.industryType) == "combined" && s.secondaryIndustry.Some? && s.secondaryIndustry.value != "" {
      industries := industries + [s.secondaryIndustry.value];
    }
    assert industries == IndustriesToMatch(s);
    relevant := AddAllDirectMatches(reference, industries);
    relevant := AddAllFuzzyMatches(reference, relevant, industries);
    RecordConcat(reference, NewDict(), DirectHits(reference.keys, industries), FuzzyHits(reference.keys, FuzzyTable, industries));
  }

  // ------------------------------------------------------------ properties

  /** Some industry selects the sector, directly or through the fuzzy table `table`. */
  predicate Selected(table: seq<FuzzyTerm>, industries: seq<string>, sector: string) {
    exists i :: 0 <= i < |industries| &&
      (DirectMatch(industries[i], sector) || FuzzyMatch(table, industries[i], sector))
  }

  lemma {:induction false} DirectHitsExactly(sectors: seq<string>, industries: seq<string>, x: string)
    ensures x in DirectHits(sectors, industries) <==>
      x in sectors && exists i :: 0 <= i < |industries| && DirectMatch(industries[i], x)
  {
    if industries != [] {
      var init := industries[..|industries| - 1];
      DirectHitsExactly(sectors, init, x);
      if exists i :: 0 <= i < |industries| && DirectMatch(industries[i], x) {
        var i :| 0 <= i < |industries| && DirectMatch(industries[i], x);
        if i < |init| {
          assert init[i] == industries[i];
        }
      }
      if exists i :: 0 <= i < |init| && DirectMatch(init[i], x) {
        var i :| 0 <= i < |init| && DirectMatch(init[i], x);
        assert industries[i] == init[i];
      }
    }
  }

  lemma {:induction false} PatternHitsExactly(sectors: seq<string>, patterns: seq<string>, x: string)
    ensures x in PatternHits(sectors, patterns) <==>
      x in sectors && exists p :: 0 <= p < |patterns| && PatternMatch(patterns[p], x)
  {
    if patterns != [] {
      var init := patterns[..|patterns| - 1];
      PatternHitsExactly(sectors, init, x);
      if exists p :: 0 <= p < |patterns| && PatternMatch(patterns[p], x) {
        var p :| 0 <= p < |patterns| && PatternMatch(patterns[p], x);
        if p < |init| {
          assert init[p] == patterns[p];
        }
      }
      if exists p :: 0 <= p < |init| && PatternMatch(init[p], x) {
        var p :| 0 <= p < |init| && PatternMatch(init[p], x);
        assert patterns[p] == init[p];
      }
    }
  }

  lemma {:induction false} TermHitsExactly(sectors: seq<string>, table: seq<FuzzyTerm>, industry: string, x: string)
    ensures x in TermHits(sectors, table, industry) <==> x in sectors && FuzzyMatch(table, industry, x)
  {
    if table != [] {
      var init := table[..|table| - 1];
      var entry := table[|table| - 1];
      TermHitsExactly(sectors, init, industry, x);
      PatternHitsExactly(sectors, entry.patterns, x);
      if FuzzyMatch(table, industry, x) {
        var t :| 0 <= t < |table| && Contains(Lower(industry), table[t].term) &&
          exists p :: 0 <= p < |table[t].patterns| && PatternMatch(table[t].patterns[p], x);
        if t < |init| {
          assert init[t] == table[t];
        }
      }
      if FuzzyMatch(init, industry, x) {
        var t :| 0 <= t < |init| && Contains(Lower(industry), init[t].term) &&
          exists p :: 0 <= p < |init[t].patterns| && PatternMatch(init[t].patterns[p], x);
        assert table[t] == init[t];
      }
      if Contains(Lower(industry), entry.term) && exists p :: 0 <= p < |entry.patterns| && PatternMatch(entry.patterns[p], x) {
        assert table[|table| - 1] == entry;
      }
    }
  }

  lemma {:induction false} FuzzyHitsExactly(sectors: seq<string>, table: seq<FuzzyTerm>, industries: seq<string>, x: string)
    ensures x in FuzzyHits(sectors, table, industries) <==>
      x in sectors && exists i :: 0 <= i < |industries| && FuzzyMatch(table, industries[i], x)
  {
    if industries != [] {
      var init := industries[..|industries| - 1];
      FuzzyHitsExactly(sectors, table, init, x);
      TermHitsExactly(sectors, table, industries[|industries| - 1], x);
      if exists i :: 0 <= i < |industries| && FuzzyMatch(table, industries[i], x) {
        var i :| 0 <= i < |industries| && FuzzyMatch(table, industries[i], x);
        if i < |init| {
          assert init[i] == industries[i];
        }
      }
      if exists i :: 0 <= i < |init| && FuzzyMatch(table, init[i], x) {
        var i :| 0 <= i < |init| && FuzzyMatch(table, init[i], x);
        assert industries[i] == init[i];
      }
    }
  }

  /** Recording sectors into an empty dict gives each recorded sector once, in the order of its first recording. */
  lemma {:induction false} RecordKeys(reference: Reference, hits: seq<string>)
    requires forall h :: h in hits ==> h in reference.entries
    ensures Record(reference, NewDict(), hits).Valid()
    ensures Record(reference, NewDict(), hits).keys == Dedup(hits)
  {
    if hits != [] {
      var init, h := hits[..|hits| - 1], hits[|hits| - 1];
      assert forall x :: x in init ==> x in hits;
      RecordKeys(reference, init);
      var d := Record(reference, NewDict(), init);
      assert h in d.entries <==> h in Dedup(init);
      assert Dedup(hits) == if h in Dedup(init) then Dedup(init) else Dedup(init) + [h];
    }
  }

  /** Each recorded sector is a reference sector and keeps its reference sub-sectors. */
  lemma {:induction false} RecordValues(reference: Reference, hits: seq<string>, k: string)
    requires forall h :: h in hits ==> h in reference.entries
    ensures k in Record(reference, NewDict(), hits).entries <==> k in hits
    ensures k in Record(reference, NewDict(), hits).entries ==>
      k in reference.entries && Record(reference, NewDict(), hits).entries[k] == reference.entries[k]
  {
    if hits != [] {
      var init := hits[..|hits| - 1];
      assert forall x :: x in init ==> x in hits;
      assert hits == init + [hits[|hits| - 1]];
      RecordValues(reference, init, k);
    }
  }

  /**
   * For any fuzzy table: the relevant sectors are exactly the reference
   * sectors that some industry to match selects, directly or through the
   * table; each keeps its reference sub-sectors; they come in the order of
   * their first selection, every direct match before any sector that only a
   * fuzzy term selects.
   */
  lemma RelevantExactly(reference: Reference, table: seq<FuzzyTerm>, s: BusinessSummary, k: string)
    requires reference.Valid()
    ensures Relevant(reference, table, s).Valid()
    ensures Relevant(reference, table, s).keys ==
      Dedup(DirectHits(reference.keys, IndustriesToMatch(s)) + FuzzyHits(reference.keys, table, IndustriesToMatch(s)))
    ensures k in Relevant(reference, table, s).entries <==>
      k in reference.entries && Selected(table, IndustriesToMatch(s), k)
    ensures k in Relevant(reference, table, s).entries ==>
      Relevant(reference, table, s).entries[k] == reference.entries[k]
  {
    var industries := IndustriesToMatch(s);
    RecordKeys(reference, Hits(reference, table, s));
    RecordValues(reference, Hits(reference, table, s), k);
    DirectHitsExactly(reference.keys, industries, k);
    FuzzyHitsExactly(reference.keys, table, industries, k);
    if k in reference.entries && Selected(table, industries, k) {
      var i :| 0 <= i < |industries| && (DirectMatch(industries[i], k) || FuzzyMatch(table, industries[i], k));
    }
  }

  /** `RelevantExactly` for the fuzzy table of `get_relevant_sectors`. */
  lemma RelevantSectorsExactly(reference: Reference, s: BusinessSummary, k: string)
    requires reference.Valid()
    ensures RelevantSectors(reference, s).Valid()
    ensures RelevantSectors(reference, s).keys ==
      Dedup(DirectHits(reference.keys, IndustriesToMatch(s)) + FuzzyHits(reference.keys, FuzzyTable, IndustriesToMatch(s)))
    ensures k in RelevantSectors(reference, s).entries <==>
      k in reference.entries && Selected(FuzzyTable, IndustriesToMatch(s), k)
    ensures k in RelevantSectors(reference, s).entries ==>
      RelevantSectors(reference, s).entries[k] == reference.entries[k]
  {
    RelevantExactly(reference, FuzzyTable, s, k);
  }

  /**
   * A primary industry that is blank once cleaned and stripped (the default
   * "" when no Industry Details item names one) occurs in every sector name,
   * so every reference sector is relevant.
   */
  lemma BlankIndustrySelectsAll(reference: Reference, s: BusinessSummary, k: string)
    requires reference.Valid()
    requires Strip(Cleaned(s.primaryIndustry)) == ""
    requires k in reference.entries
    ensures k in RelevantSectors(reference, s).entries
  {
    assert StartsWith(Cleaned(k), "");
    assert DirectMatch(IndustriesToMatch(s)[0], k);
    RelevantExactly(reference, FuzzyTable, s, k);
  }

  /**
   * The secondary industry plays no part unless the industry type is
   * "combined" (in any case) and the secondary industry is non-empty.
   */
  lemma SecondaryIgnoredUnlessCombined(reference: Reference, s: BusinessSummary)
    requires reference.Valid()
    requires Lower(s.industryType) != "combined" || s.secondaryIndustry == None || s.secondaryIndustry == Some("")
    ensures IndustriesToMatch(s) == [s.primaryIndustry]
    ensures RelevantSectors(reference, s) == RelevantSectors(reference, s.(secondaryIndustry := None))
  {
  }

  // ------------------------------------------------------------ classifying

  datatype Classification = Classification(
    sector: string,
    primarySubsector: string,
    additionalSubsectors: seq<string>,
    level3CategoryCode: string,
    confidenceExplanation: string)

  /** The error raised when no sector is relevant; a missing secondary industry reads "None". */
  function NoMatchMessage(s: BusinessSummary): string {
    "No matching sectors found for industries: " + s.primaryIndustry + ", " +
      (if s.secondaryIndustry.Some? then s.secondaryIndustry.value else "None")
  }

  /**
   * `classify_business`: summarise the document, choose the relevant
   * sectors, and refuse before consulting the model when there are none.
   * The model (prompt, request and reply parsing) is the parameter `model`,
   * which sees the summary and the relevant sectors and may itself fail.
   */
  method ClassifyBusiness(reference: Reference, doc: Extraction,
                          model: (BusinessSummary, Reference) -> Result<Classification, string>)
    returns (r: Result<Classification, string>)
    requires reference.Valid()
    ensures RelevantSectors(reference, Summary(doc)).keys == [] ==> r == Failure(NoMatchMessage(Summary(doc)))
    ensures RelevantSectors(reference, Summary(doc)).keys != [] ==>
      r == model(Summary(doc), RelevantSectors(reference, Summary(doc)))
  {
    var summary := ExtractBusinessSummary(doc);
    var relevant := GetRelevantSectors(reference, summary);
    if relevant.keys == [] {
      return Failure(NoMatchMessage(summary));
    }
    r := model(summary, relevant);
  }

  /** For any fuzzy table: no sector is relevant exactly when no reference sector is selected. */
  lemma RelevantEmptyIff(reference: Reference, table: seq<FuzzyTerm>, s: BusinessSummary)
    requires reference.Valid()
    ensures Relevant(reference, table, s).keys == [] <==>
      forall k :: k in reference.entries ==> !Selected(table, IndustriesToMatch(s), k)
  {
    var relevant := Relevant(reference, table, s);
    if relevant.keys != [] {
      var k := relevant.keys[0];
      RelevantExactly(reference, table, s, k);
      assert k in relevant.entries;
    } else {
      forall k | k in reference.entries
        ensures !Selected(table, IndustriesToMatch(s), k)
      {
        RelevantExactly(reference, table, s, k);
      }
    }
  }

  /**
   * Classification stops with the no-match error exactly when no reference
   * sector is selected by any industry to match.
   */
  lemma NoMatchIff(reference: Reference, s: BusinessSummary)
    requires reference.Valid()
    ensures RelevantSectors(reference, s).keys == [] <==>
      forall k :: k in reference.entries ==> !Selected(FuzzyTable, IndustriesToMatch(s), k)
  {
    RelevantEmptyIff(reference, FuzzyTable, s);
  }
}
