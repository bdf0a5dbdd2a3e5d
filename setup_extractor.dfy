/**
 * `extract_i_setup_data` and `extract_industry_details_subtable`: the Setup
 * sheet's field definitions (columns G, H, I, M), the "Industry Details"
 * sub-table (rows 19-26) and the ten row-range sections whose items follow a
 * "Name"/"Type" header row.
 *
 * Each scan is a method with a loop; next to it stands a function giving the
 * result after the loop has visited a prefix of the rows, and the lemmas
 * state what the source promises about that function.
 */
module SetupExtractor {
  import opened Strings
  import opened Collections
  import opened Sheets

  /**
   * One element of a field's `subTableData`: a section item (keys itemName,
   * itemType, name, type, industry, sub1, sub2, sub3; `kind` is the JSON key
   * "type") or an Industry Details item (keys fieldLabel, fieldType, value).
   */
  datatype SubItem =
    | SectionItem(itemName: string, itemType: string, name: string, kind: string,
                  industry: string, sub1: string, sub2: string, sub3: string)
    | IndustryItem(fieldLabel: string, fieldType: string, value: string)

  datatype FieldRecord = FieldRecord(
    fieldNumber: int,
    fieldType: string,
    value: string,
    hasSubTable: bool,
    subTableData: seq<SubItem>)

  /** `setup_data`: field name to record, in insertion order. */
  type Fields = Dict<string, FieldRecord>

  // ---------------------------------------------------------------- fields

  /** A row defines a field when column G holds a number and column H a string. */
  predicate DefinesField(sheet: Sheet, row: int) {
    sheet.At(row, ColG).Num? && sheet.At(row, ColH).Text?
  }

  function FieldName(sheet: Sheet, row: int): string
    requires DefinesField(sheet, row)
  {
    Strip(sheet.At(row, ColH).s)
  }

  /** Column M as stored: a string verbatim, a number stringified, nothing as "". */
  function FieldValue(c: Cell): (r: string)
    ensures c.Text? ==> r == c.s
    ensures c.Empty? ==> r == ""
    ensures c.Num? ==> r == IntToString(c.n)
  {
    match c
    case Empty => ""
    case Text(s) => s
    case Num(n) => IntToString(n)
  }

  /** The record a defining row creates: no sub-table yet. */
  function BaseRecord(sheet: Sheet, row: int): FieldRecord
    requires DefinesField(sheet, row)
  {
    FieldRecord(sheet.At(row, ColG).n, CellText(sheet.At(row, ColI)),
                FieldValue(sheet.At(row, ColM)), false, [])
  }

  /**
   * `setup_data` after the first loop has visited rows 1..n. Every key is the
   * name of some defining row, and every record is a fresh one without a
   * sub-table.
   */
  function BaseFields(sheet: Sheet, n: nat): (d: Fields)
    ensures d.Valid()
    ensures forall k :: k in d.entries ==>
      !d.entries[k].hasSubTable && d.entries[k].subTableData == []
  {
    if n == 0 then NewDict()
    else
      var d := BaseFields(sheet, n - 1);
      if DefinesField(sheet, n) then d.Put(FieldName(sheet, n), BaseRecord(sheet, n)) else d
  }

  /** Some row in 1..n defines a field named `k`. */
  predicate NamedByRowUpTo(sheet: Sheet, n: nat, k: string) {
    n > 0 && ((DefinesField(sheet, n) && FieldName(sheet, n) == k) || NamedByRowUpTo(sheet, n - 1, k))
  }

  /** The field names are exactly the stripped H values of the defining rows. */
  lemma {:induction false} BaseFieldsKeys(sheet: Sheet, n: nat, k: string)
    ensures k in BaseFields(sheet, n).entries <==> NamedByRowUpTo(sheet, n, k)
  {
    if n > 0 {
      BaseFieldsKeys(sheet, n - 1, k);
    }
  }

  /**
   * A later row with the same field name overwrites an earlier one: the
   * record of a name is the one built from the last row defining it.
   */
  lemma {:induction false} LastDefinitionWins(sheet: Sheet, n: nat, r: nat)
    requires 1 <= r <= n && DefinesField(sheet, r)
    requires forall r' :: r < r' <= n && DefinesField(sheet, r') ==> FieldName(sheet, r') != FieldName(sheet, r)
    ensures FieldName(sheet, r) in BaseFields(sheet, n).entries
    ensures BaseFields(sheet, n).entries[FieldName(sheet, r)] == BaseRecord(sheet, r)
  {
    if r < n {
      LastDefinitionWins(sheet, n - 1, r);
    }
  }

  // ------------------------------------------------------ Industry Details

  const IndustryLabels: seq<string> :=
    ["Industry Type", "Primary Industry", "Secondary Industry", "Benchmarking Business Sector"]

  const IndustryFirstRow := 19
  const IndustryLastRow := 26

  /** Column H holds exactly one of the four industry labels. */
  predicate IsIndustryRow(sheet: Sheet, row: int) {
    var h := sheet.At(row, ColH);
    h.Text? && h.s != "" && h.s in IndustryLabels
  }

  function IndustryItemAt(sheet: Sheet, row: int): SubItem {
    IndustryItem(CellText(sheet.At(row, ColH)), CellText(sheet.At(row, ColI)), CellText(sheet.At(row, ColM)))
  }

  predicate Increasing(rows: seq<int>) {
    forall i, j :: 0 <= i < j < |rows| ==> rows[i] < rows[j]
  }

  /** The rows 19..n-1 that produce an Industry Details item, in row order. */
  function IndustryRows(sheet: Sheet, n: int): (rows: seq<int>)
    ensures forall i :: 0 <= i < |rows| ==> IndustryFirstRow <= rows[i] < n
    ensures Increasing(rows)
    decreases n
  {
    if n <= IndustryFirstRow then []
    else IndustryRows(sheet, n - 1) + (if IsIndustryRow(sheet, n - 1) then [n - 1] else [])
  }

  /** Industry Details items come exactly from the rows 19..26 whose H is one of the four labels. */
  lemma {:induction false} IndustryRowsExactly(sheet: Sheet, n: int, r: int)
    ensures r in IndustryRows(sheet, n) <==> IndustryFirstRow <= r < n && IsIndustryRow(sheet, r)
    decreases n
  {
    if n > IndustryFirstRow {
      IndustryRowsExactly(sheet, n - 1, r);
    }
  }

  function IndustryItemsOf(sheet: Sheet, rows: seq<int>): (items: seq<SubItem>)
    ensures |items| == |rows|
    ensures forall i :: 0 <= i < |rows| ==> items[i] == IndustryItemAt(sheet, rows[i])
  {
    if rows == [] then []
    else IndustryItemsOf(sheet, rows[..|rows| - 1]) + [IndustryItemAt(sheet, rows[|rows| - 1])]
  }

  /**
   * `extract_industry_details_subtable`: one item per row 19..26 whose column
   * H is exactly one of the four labels, in row order.
   */
  method ExtractIndustryDetails(sheet: Sheet) returns (items: seq<SubItem>)
    ensures items == IndustryItems(sheet)
  {
    items := [];
    for row := IndustryFirstRow to IndustryLastRow + 1
      invariant items == IndustryItemsOf(sheet, IndustryRows(sheet, row))
    {
      var labelCell := sheet.At(row, ColH);
      if labelCell.Text? && labelCell.s != "" && labelCell.s in IndustryLabels {
        var item := IndustryItem(CellText(labelCell), CellText(sheet.At(row, ColI)), CellText(sheet.At(row, ColM)));
        items := items + [item];
      }
    }
  }

  function IndustryItems(sheet: Sheet): seq<SubItem> {
    IndustryItemsOf(sheet, IndustryRows(sheet, IndustryLastRow + 1))
  }

  /** Every Industry Details item carries one of the four labels, unchanged. */
  lemma IndustryItemsLabelled(sheet: Sheet, i: int)
    requires 0 <= i < |IndustryItems(sheet)|
    ensures IndustryItems(sheet)[i].IndustryItem? && IndustryItems(sheet)[i].fieldLabel in IndustryLabels
  {
    var row := IndustryRows(sheet, IndustryLastRow + 1)[i];
    IndustryRowsExactly(sheet, IndustryLastRow + 1, row);
    var labelText := sheet.At(row, ColH).s;
    IndustryLabelStrip(labelText);
    assert IndustryItemAt(sheet, row).fieldLabel == labelText;
  }

  /** The four labels carry no surrounding whitespace, so stripping keeps them. */
  lemma IndustryLabelStrip(s: string)
    requires s in IndustryLabels
    ensures Strip(s) == s
  {
    assert forall l :: l in IndustryLabels ==> Unpadded(l);
    StripClean(s);
  }

  // ------------------------------------------------------------ sections

  datatype Section = Section(name: string, startRow: int, endRow: int)

  /** The fields whose sub-table is read from a fixed row range. */
  const SectionTable: seq<Section> := [
    Section("Revenue Streams", 44, 58),
    Section("Cost of Sales", 59, 77),
    Section("Operating Costs", 78, 96),
    Section("Financing Costs", 97, 105),
    Section("Capital Investment", 106, 116),
    Section("Borrowing Details", 117, 129),
    Section("Credit Scoring Details", 130, 136),
    Section("Cash Flow Details", 137, 146),
    Section("Collateral & Other", 147, 158),
    Section("Recommendations", 159, 170)
  ]

  /** The only field names that can ever receive sub-table data. */
  const SubTableOwners: set<string> := {
    "Industry Details", "Revenue Streams", "Cost of Sales", "Operating Costs",
    "Financing Costs", "Capital Investment", "Borrowing Details",
    "Credit Scoring Details", "Cash Flow Details", "Collateral & Other", "Recommendations"
  }

  /** `range(start_row, min(end_row + 1, max_row + 1))` ends before this row. */
  function SectionStop(sheet: Sheet, sec: Section): int {
    if sec.endRow + 1 <= sheet.maxRow + 1 then sec.endRow + 1 else sheet.maxRow + 1
  }

  /** Column M holds "Name" and column O holds "Type". */
  predicate IsHeaderRow(sheet: Sheet, row: int) {
    sheet.At(row, ColM) == Text("Name") && sheet.At(row, ColO) == Text("Type")
  }

  /** Some row in start..row-1 is a header row: the `header_found` flag on reaching `row`. */
  predicate HeaderSeen(sheet: Sheet, start: int, row: int)
    decreases row - start
  {
    row > start && (IsHeaderRow(sheet, row - 1) || HeaderSeen(sheet, start, row - 1))
  }

  /** Column H is a string containing "Category" or "Steam". */
  predicate MarksItem(sheet: Sheet, row: int) {
    var h := sheet.At(row, ColH);
    h.Text? && h.s != "" && (Contains(h.s, "Category") || Contains(h.s, "Steam"))
  }

  function SectionItemAt(sheet: Sheet, row: int): SubItem {
    SectionItem(CellText(sheet.At(row, ColH)), CellText(sheet.At(row, ColI)),
                CellText(sheet.At(row, ColM)), CellText(sheet.At(row, ColO)),
                CellText(sheet.At(row, ColP)), CellText(sheet.At(row, ColQ)),
                CellText(sheet.At(row, ColR)), CellText(sheet.At(row, ColS)))
  }

  /** One of name, type, sub1, sub2, sub3 is non-empty (industry does not count). */
  predicate Meaningful(item: SubItem) {
    item.SectionItem? &&
    (item.name != "" || item.kind != "" || item.sub1 != "" || item.sub2 != "" || item.sub3 != "")
  }

  /** Meaningfulness read off the row: one of M, O, Q, R, S is non-blank. */
  predicate RowMeaningful(sheet: Sheet, row: int) {
    NonBlank(sheet.At(row, ColM)) || NonBlank(sheet.At(row, ColO)) || NonBlank(sheet.At(row, ColQ)) ||
    NonBlank(sheet.At(row, ColR)) || NonBlank(sheet.At(row, ColS))
  }

  lemma RowMeaningfulIff(sheet: Sheet, row: int)
    ensures Meaningful(SectionItemAt(sheet, row)) <==> RowMeaningful(sheet, row)
  {
    CellTextNonEmpty(sheet.At(row, ColM));
    CellTextNonEmpty(sheet.At(row, ColO));
    CellTextNonEmpty(sheet.At(row, ColQ));
    CellTextNonEmpty(sheet.At(row, ColR));
    CellTextNonEmpty(sheet.At(row, ColS));
  }

  /** A row of a section starting at `start` that becomes a sub-table item. */
  predicate YieldsItem(sheet: Sheet, start: int, row: int) {
    !IsHeaderRow(sheet, row) && HeaderSeen(sheet, start, row) &&
    MarksItem(sheet, row) && RowMeaningful(sheet, row)
  }

  /** The rows start..n-1 of a section that produce items, in row order. */
  function SectionRows(sheet: Sheet, start: int, n: int): seq<int>
    decreases n - start
  {
    if n <= start then []
    else SectionRows(sheet, start, n - 1) + (if YieldsItem(sheet, start, n - 1) then [n - 1] else [])
  }

  /** The item rows lie in start..n-1 and come in row order. */
  lemma {:induction false} SectionRowsOrdered(sheet: Sheet, start: int, n: int)
    ensures forall i :: 0 <= i < |SectionRows(sheet, start, n)| ==> start <= SectionRows(sheet, start, n)[i] < n
    ensures Increasing(SectionRows(sheet, start, n))
    decreases n - start
  {
    if n > start {
      SectionRowsOrdered(sheet, start, n - 1);
    }
  }

  lemma {:induction false} SectionRowsExactly(sheet: Sheet, start: int, n: int, r: int)
    ensures r in SectionRows(sheet, start, n) <==> start <= r < n && YieldsItem(sheet, start, r)
    decreases n - start
  {
    if n > start {
      SectionRowsExactly(sheet, start, n - 1, r);
    }
  }

  function SectionItemsOf(sheet: Sheet, rows: seq<int>): (items: seq<SubItem>)
    ensures |items| == |rows|
  {
    if rows == [] then []
    else SectionItemsOf(sheet, rows[..|rows| - 1]) + [SectionItemAt(sheet, rows[|rows| - 1])]
  }

  /** The `i`-th item is built from the `i`-th row. */
  lemma {:induction false} SectionItemsOfAt(sheet: Sheet, rows: seq<int>, i: int)
    requires 0 <= i < |rows|
    ensures SectionItemsOf(sheet, rows)[i] == SectionItemAt(sheet, rows[i])
  {
    if i < |rows| - 1 {
      SectionItemsOfAt(sheet, rows[..|rows| - 1], i);
    }
  }

  /** The items the scan has collected on reaching row `n`. */
  function SectionItemsUpTo(sheet: Sheet, start: int, n: int): seq<SubItem>
    decreases n - start
  {
    if n <= start then []
    else
      var found := if YieldsItem(sheet, start, n - 1) then [SectionItemAt(sheet, n - 1)] else [];
      SectionItemsUpTo(sheet, start, n - 1) + found
  }

  /** The items collected are the items of the yielding rows, in row order. */
  lemma {:induction false} SectionItemsUpToRows(sheet: Sheet, start: int, n: int)
    ensures SectionItemsUpTo(sheet, start, n) == SectionItemsOf(sheet, SectionRows(sheet, start, n))
    decreases n - start
  {
    if n > start {
      SectionItemsUpToRows(sheet, start, n - 1);
      var rows := SectionRows(sheet, start, n - 1);
      if YieldsItem(sheet, start, n - 1) {
        assert SectionRows(sheet, start, n) == rows + [n - 1];
        assert (rows + [n - 1])[..|rows|] == rows;
        assert SectionItemsOf(sheet, rows + [n - 1]) == SectionItemsOf(sheet, rows) + [SectionItemAt(sheet, n - 1)];
      } else {
        assert SectionRows(sheet, start, n) == rows;
      }
    }
  }

  /** The items of a section, as its scan finds them. */
  function SectionItems(sheet: Sheet, sec: Section): seq<SubItem> {
    SectionItemsUpTo(sheet, sec.startRow, SectionStop(sheet, sec))
  }

  /**
   * The scan of one section: rows from the start row to the end row (and not
   * past `max_row`); a header row sets the flag and is skipped; after the
   * flag, a row whose H contains "Category" or "Steam" and that has some
   * meaningful column becomes an item.
   */
  method ExtractSection(sheet: Sheet, sec: Section) returns (items: seq<SubItem>)
    ensures items == SectionItems(sheet, sec)
  {
    var stop := if sec.endRow + 1 <= sheet.maxRow + 1 then sec.endRow + 1 else sheet.maxRow + 1;
    items := [];
    var headerFound := false;
    var row := sec.startRow;
    while row < stop
      invariant sec.startRow <= row && (row <= stop || row == sec.startRow)
      invariant headerFound == HeaderSeen(sheet, sec.startRow, row)
      invariant items == SectionItemsUpTo(sheet, sec.startRow, row)
    {
      if IsHeaderRow(sheet, row) {
        headerFound := true;
      } else if headerFound {
        if MarksItem(sheet, row) {
          var item := SectionItem(CellText(sheet.At(row, ColH)), CellText(sheet.At(row, ColI)),
                                  CellText(sheet.At(row, ColM)), CellText(sheet.At(row, ColO)),
                                  CellText(sheet.At(row, ColP)), CellText(sheet.At(row, ColQ)),
                                  CellText(sheet.At(row, ColR)), CellText(sheet.At(row, ColS)));
          assert item == SectionItemAt(sheet, row);
          RowMeaningfulIff(sheet, row);
          if item.name != "" || item.kind != "" || item.sub1 != "" || item.sub2 != "" || item.sub3 != "" {
            assert YieldsItem(sheet, sec.startRow, row);
            items := items + [item];
          }
        }
      }
      row := row + 1;
    }
  }

  /** Every section item has a non-empty name, type, sub1, sub2 or sub3. */
  lemma SectionItemsMeaningful(sheet: Sheet, sec: Section, i: int)
    requires 0 <= i < |SectionItems(sheet, sec)|
    ensures Meaningful(SectionItems(sheet, sec)[i])
  {
    var rows := SectionRows(sheet, sec.startRow, SectionStop(sheet, sec));
    SectionItemsUpToRows(sheet, sec.startRow, SectionStop(sheet, sec));
    SectionItemsOfAt(sheet, rows, i);
    SectionRowsExactly(sheet, sec.startRow, SectionStop(sheet, sec), rows[i]);
    RowMeaningfulIff(sheet, rows[i]);
  }

  /**
   * Section items come only from rows of the section's range, strictly after
   * a header row, never from a header row, and only when H contains
   * "Category" or "Steam"; every such row with a meaningful column is an
   * item; items keep row order.
   */
  lemma SectionItemsProvenance(sheet: Sheet, sec: Section, r: int)
    ensures r in SectionRows(sheet, sec.startRow, SectionStop(sheet, sec)) <==>
      sec.startRow <= r <= sec.endRow && r <= sheet.maxRow &&
      !IsHeaderRow(sheet, r) && HeaderSeen(sheet, sec.startRow, r) &&
      MarksItem(sheet, r) && Meaningful(SectionItemAt(sheet, r))
    ensures Increasing(SectionRows(sheet, sec.startRow, SectionStop(sheet, sec)))
  {
    SectionRowsExactly(sheet, sec.startRow, SectionStop(sheet, sec), r);
    SectionRowsOrdered(sheet, sec.startRow, SectionStop(sheet, sec));
    RowMeaningfulIff(sheet, r);
  }

  /** The header flag is set only by a header row strictly before `row`. */
  lemma {:induction false} HeaderSeenWitness(sheet: Sheet, start: int, row: int)
    ensures HeaderSeen(sheet, start, row) <==> exists h :: start <= h < row && IsHeaderRow(sheet, h)
    decreases row - start
  {
    if row > start {
      HeaderSeenWitness(sheet, start, row - 1);
    }
  }

  /**
   * A header row is never itself an item, and once a header row of the
   * section's range is passed the flag stays set for every later row.
   */
  lemma HeaderRowNeverItem(sheet: Sheet, sec: Section, r: int)
    requires IsHeaderRow(sheet, r)
    ensures r !in SectionRows(sheet, sec.startRow, SectionStop(sheet, sec))
    ensures sec.startRow <= r ==> forall row :: r < row ==> HeaderSeen(sheet, sec.startRow, row)
  {
    SectionRowsExactly(sheet, sec.startRow, SectionStop(sheet, sec), r);
    forall row | r < row && sec.startRow <= r
      ensures HeaderSeen(sheet, sec.startRow, row)
    {
      HeaderSeenWitness(sheet, sec.startRow, row);
    }
  }

  // ------------------------------------------------------- the whole sheet

  /** `setup_data[name]["hasSubTable"] = True; ...["subTableData"] = items` when items exist. */
  function AttachSubTable(fields: Fields, name: string, items: seq<SubItem>): Fields {
    if name in fields.entries && |items| > 0 then
      fields.Put(name, fields.entries[name].(hasSubTable := true, subTableData := items))
    else fields
  }

  /** The sections of `secs`, attached in order. */
  function ApplySections(sheet: Sheet, fields: Fields, secs: seq<Section>): Fields
    decreases |secs|
  {
    if secs == [] then fields
    else
      var last := secs[|secs| - 1];
      AttachSubTable(ApplySections(sheet, fields, secs[..|secs| - 1]), last.name, SectionItems(sheet, last))
  }

  /** `extract_i_setup_data`'s result. */
  function SetupFields(sheet: Sheet): Fields {
    var base := BaseFields(sheet, sheet.maxRow);
    ApplySections(sheet, AttachSubTable(base, "Industry Details", IndustryItems(sheet)), SectionTable)
  }

  /** `extract_i_setup_data`. */
  method ExtractSetup(sheet: Sheet) returns (fields: Fields)
    ensures fields == SetupFields(sheet)
    ensures fields.Valid()
    ensures forall k :: k in fields.entries ==>
      (fields.entries[k].hasSubTable <==> |fields.entries[k].subTableData| > 0)
    ensures forall k :: k in fields.entries && fields.entries[k].hasSubTable ==> k in SubTableOwners
  {
    fields := NewDict();
    for row := 1 to sheet.maxRow + 1
      invariant fields == BaseFields(sheet, row - 1)
    {
      var numberCell := sheet.At(row, ColG);
      var nameCell := sheet.At(row, ColH);
      if numberCell.Num? && nameCell.Text? {
        var record := FieldRecord(numberCell.n, CellText(sheet.At(row, ColI)),
                                  FieldValue(sheet.At(row, ColM)), false, []);
        fields := fields.Put(Strip(nameCell.s), record);
      }
    }
    ghost var base := fields;

    if "Industry Details" in fields.entries {
      var industry := ExtractIndustryDetails(sheet);
      if |industry| > 0 {
        var r := fields.entries["Industry Details"];
        fields := fields.Put("Industry Details", r.(hasSubTable := true, subTableData := industry));
      }
    }
    assert fields == AttachSubTable(base, "Industry Details", IndustryItems(sheet));
    ghost var withIndustry := fields;

    for i := 0 to |SectionTable|
      invariant fields == ApplySections(sheet, withIndustry, SectionTable[..i])
    {
      var sec := SectionTable[i];
      assert SectionTable[..i + 1][..i] == SectionTable[..i];
      if sec.name in fields.entries {
        var items := ExtractSection(sheet, sec);
        if |items| > 0 {
          var r := fields.entries[sec.name];
          fields := fields.Put(sec.name, r.(hasSubTable := true, subTableData := items));
        }
      }
    }
    assert SectionTable[..|SectionTable|] == SectionTable;
    SetupFieldsShape(sheet);
  }

  /**
   * What the sub-table passes keep: the same keys in the same order, each
   * record's number, type and value as first built, `hasSubTable` true
   * exactly when `subTableData` is non-empty, and only the sub-table owners
   * flagged.
   */
  ghost predicate Consistent(base: Fields, fields: Fields) {
    base.Valid() && fields.Valid() && fields.keys == base.keys &&
    forall k :: k in fields.entries ==>
      k in base.entries &&
      fields.entries[k].(hasSubTable := false, subTableData := []) == base.entries[k] &&
      (fields.entries[k].hasSubTable <==> |fields.entries[k].subTableData| > 0) &&
      (fields.entries[k].hasSubTable ==> k in SubTableOwners)
  }

  lemma AttachKeepsConsistent(base: Fields, fields: Fields, name: string, items: seq<SubItem>)
    requires Consistent(base, fields) && name in SubTableOwners
    ensures Consistent(base, AttachSubTable(fields, name, items))
  {
  }

  lemma {:induction false} ApplySectionsConsistent(sheet: Sheet, base: Fields, fields: Fields, secs: seq<Section>)
    requires Consistent(base, fields)
    requires forall s :: s in secs ==> s.name in SubTableOwners
    ensures Consistent(base, ApplySections(sheet, fields, secs))
  {
    if secs != [] {
      var init := secs[..|secs| - 1];
      assert forall s :: s in init ==> s in secs;
      ApplySectionsConsistent(sheet, base, fields, init);
      AttachKeepsConsistent(base, ApplySections(sheet, fields, init), secs[|secs| - 1].name, SectionItems(sheet, secs[|secs| - 1]));
    }
  }

  /**
   * The Setup result has the field names of the first loop, in the same
   * order, with the records that loop built except for the sub-table parts;
   * `hasSubTable` is true exactly when `subTableData` is non-empty, and only
   * for Industry Details and the ten section names.
   */
  lemma SetupFieldsShape(sheet: Sheet)
    ensures Consistent(BaseFields(sheet, sheet.maxRow), SetupFields(sheet))
  {
    var base := BaseFields(sheet, sheet.maxRow);
    assert Consistent(base, base);
    AttachKeepsConsistent(base, base, "Industry Details", IndustryItems(sheet));
    ApplySectionsConsistent(sheet, base, AttachSubTable(base, "Industry Details", IndustryItems(sheet)), SectionTable);
  }

  /** Sections not named `k` leave the field `k` as it was. */
  lemma {:induction false} ApplySectionsOther(sheet: Sheet, fields: Fields, secs: seq<Section>, k: string)
    requires forall j :: 0 <= j < |secs| ==> secs[j].name != k
    ensures k in ApplySections(sheet, fields, secs).entries <==> k in fields.entries
    ensures k in fields.entries ==> ApplySections(sheet, fields, secs).entries[k] == fields.entries[k]
    decreases |secs|
  {
    if secs != [] {
      ApplySectionsOther(sheet, fields, secs[..|secs| - 1], k);
    }
  }

  /**
   * When section `i` is the only one with its name and that field has no
   * items yet, the field ends with exactly that section's items (none when
   * the scan finds none).
   */
  lemma {:induction false} ApplySectionsAt(sheet: Sheet, fields: Fields, secs: seq<Section>, i: int)
    requires 0 <= i < |secs|
    requires forall j :: 0 <= j < |secs| && j != i ==> secs[j].name != secs[i].name
    requires secs[i].name in fields.entries && fields.entries[secs[i].name].subTableData == []
    ensures secs[i].name in ApplySections(sheet, fields, secs).entries
    ensures ApplySections(sheet, fields, secs).entries[secs[i].name].subTableData == SectionItems(sheet, secs[i])
    decreases |secs|
  {
    var init := secs[..|secs| - 1];
    if i == |secs| - 1 {
      ApplySectionsOther(sheet, fields, init, secs[i].name);
    } else {
      ApplySectionsAt(sheet, fields, init, i);
    }
  }

  /** The ten section names are distinct from each other and from "Industry Details". */
  lemma SectionNamesDistinct()
    ensures forall i, j :: 0 <= i < j < |SectionTable| ==> SectionTable[i].name != SectionTable[j].name
    ensures forall j :: 0 <= j < |SectionTable| ==> SectionTable[j].name != "Industry Details"
  {
  }

  /**
   * A section field defined on the sheet ends with exactly the items of its
   * row-range scan, in row order; the sub-table promises about
   * `SectionItems` hold for the extracted field.
   */
  lemma SectionSubTable(sheet: Sheet, i: int)
    requires 0 <= i < |SectionTable|
    requires SectionTable[i].name in BaseFields(sheet, sheet.maxRow).entries
    ensures SectionTable[i].name in SetupFields(sheet).entries
    ensures SetupFields(sheet).entries[SectionTable[i].name].subTableData == SectionItems(sheet, SectionTable[i])
  {
    var base := BaseFields(sheet, sheet.maxRow);
    var withIndustry := AttachSubTable(base, "Industry Details", IndustryItems(sheet));
    SectionNamesDistinct();
    assert withIndustry.entries[SectionTable[i].name] == base.entries[SectionTable[i].name];
    ApplySectionsAt(sheet, withIndustry, SectionTable, i);
  }

  /**
   * A defined "Industry Details" field ends with exactly the items of the
   * rows 19-26 scan.
   */
  lemma IndustrySubTable(sheet: Sheet)
    requires "Industry Details" in BaseFields(sheet, sheet.maxRow).entries
    ensures "Industry Details" in SetupFields(sheet).entries
    ensures SetupFields(sheet).entries["Industry Details"].subTableData == IndustryItems(sheet)
  {
    var base := BaseFields(sheet, sheet.maxRow);
    var withIndustry := AttachSubTable(base, "Industry Details", IndustryItems(sheet));
    SectionNamesDistinct();
    ApplySectionsOther(sheet, withIndustry, SectionTable, "Industry Details");
  }

  // ---------------------------------------------------------------- counts

  /** `len([f for f in setup_data.values() if f["hasSubTable"]])` over the keys `ks`. */
  function CountWithSubTables(fields: Fields, ks: seq<string>): nat
    requires forall k :: k in ks ==> k in fields.entries
  {
    if ks == [] then 0
    else CountWithSubTables(fields, ks[..|ks| - 1]) + (if fields.entries[ks[|ks| - 1]].hasSubTable then 1 else 0)
  }

  /** `sum(len(f["subTableData"]) for f in setup_data.values())` over the keys `ks`. */
  function CountSubTableItems(fields: Fields, ks: seq<string>): nat
    requires forall k :: k in ks ==> k in fields.entries
  {
    if ks == [] then 0
    else CountSubTableItems(fields, ks[..|ks| - 1]) + |fields.entries[ks[|ks| - 1]].subTableData|
  }

  /**
   * When `hasSubTable` agrees with a non-empty `subTableData`, the number of
   * fields with a sub-table is at most the number of fields and at most the
   * number of sub-table items.
   */
  lemma {:induction false} CountsBounded(fields: Fields, ks: seq<string>)
    requires forall k :: k in ks ==> k in fields.entries
    requires forall k :: k in ks ==> (fields.entries[k].hasSubTable <==> |fields.entries[k].subTableData| > 0)
    ensures CountWithSubTables(fields, ks) <= |ks|
    ensures CountWithSubTables(fields, ks) <= CountSubTableItems(fields, ks)
  {
    if ks != [] {
      assert forall k :: k in ks[..|ks| - 1] ==> k in ks;
      CountsBounded(fields, ks[..|ks| - 1]);
    }
  }
}
