/**
 * `extract_setup_data_to_json` without its I/O: resolve the four sheets of
 * the workbook, run the extractors, and assemble the result record with its
 * count fields. A missing Setup or COS sheet makes the whole extraction fail
 * (the `ValueError` is caught and `None` returned); a missing info or
 * financials sheet leaves that part empty.
 */
module Document {
  import opened Wrappers
  import opened Collections
  import opened Sheets
  import opened SheetResolver
  import opened SetupExtractor
  import opened ProductExtractor
  import opened MetricsExtractor
  import opened FinancialsExtractor

  /** Candidate sheet names for each role, primary names before fallback names. */
  const SetupNames: seq<string> := ["i_Setup", "i Setup", "Setup", "i-Setup"]
  const SetupFallbackNames: seq<string> := ["summary", "Summary", "Summary Sheet"]
  const CosNames: seq<string> := ["i_COS", "i COS", "COS", "i-COS", "Cost of Sales"]
  const InfoNames: seq<string> := ["info", "Info", "Information"]
  const FinancialsNames: seq<string> := ["financials", "Financials", "Financial", "Financial Statements", "FS"]

  /** The `i_Setup` part: the three counts and the fields. */
  datatype SetupPart = SetupPart(totalFields: nat, fieldsWithSubTables: nat, totalSubTableItems: nat, fields: Fields)

  /** The `i_COS` part: the product count and the products. */
  datatype CosPart = CosPart(totalProducts: nat, products: seq<Product>)

  /** The result record, without `extractedAt` and `sourceFile`. */
  datatype Extraction = Extraction(setup: SetupPart, cos: CosPart, info: InfoData, financials: Hierarchy)

  function SetupSheetName(wb: Workbook): Option<string> {
    FindSheet(wb.sheetNames, SetupNames, SetupFallbackNames)
  }

  function CosSheetName(wb: Workbook): Option<string> {
    FindSheet(wb.sheetNames, CosNames, [])
  }

  function InfoSheetName(wb: Workbook): Option<string> {
    FindSheet(wb.sheetNames, InfoNames, [])
  }

  function FinancialsSheetName(wb: Workbook): Option<string> {
    FindSheet(wb.sheetNames, FinancialsNames, [])
  }

  /** The optional parts are read only when the resolved name is truthy (present and non-empty). */
  predicate Resolved(name: Option<string>) {
    name.Some? && name.value != ""
  }

  /** The `i_Setup` part built from the fields, its counts taken over the fields in key order. */
  function SetupPartOf(fields: Fields): SetupPart
    requires fields.Valid()
  {
    SetupPart(|fields.keys|, CountWithSubTables(fields, fields.keys), CountSubTableItems(fields, fields.keys), fields)
  }

  /** The result of `extract_setup_data_to_json`, or `None` when it fails. */
  function ExtractionOf(wb: Workbook): Option<Extraction>
    requires wb.Valid()
  {
    var setupName := SetupSheetName(wb);
    var cosName := CosSheetName(wb);
    if setupName.None? || cosName.None? then None
    else
      var infoName := InfoSheetName(wb);
      var financialsName := FinancialsSheetName(wb);
      var info := if Resolved(infoName) then Info(wb.sheets[infoName.value]) else NewDict();
      var financials := if Resolved(financialsName) then Financials(wb.sheets[financialsName.value]) else NewDict();
      var fields := SetupFields(wb.sheets[setupName.value]);
      SetupFieldsShape(wb.sheets[setupName.value]);
      var products := Products(wb.sheets[cosName.value]);
      Some(Extraction(SetupPartOf(fields), CosPart(|products|, products), info, financials))
  }

  /** `extract_setup_data_to_json`: resolve the sheets, run the extractors, assemble the record. */
  method ExtractWorkbook(wb: Workbook) returns (result: Option<Extraction>)
    requires wb.Valid()
    ensures result == ExtractionOf(wb)
  {
    var setupName := SetupSheetName(wb);
    if setupName.None? {
      return None;
    }
    var cosName := CosSheetName(wb);
    if cosName.None? {
      return None;
    }

    var info: InfoData := NewDict();
    var infoName := InfoSheetName(wb);
    if infoName.Some? && infoName.value != "" {
      info := ExtractInfo(wb.sheets[infoName.value]);
    }

    var financials: Hierarchy := NewDict();
    var financialsName := FinancialsSheetName(wb);
    if financialsName.Some? && financialsName.value != "" {
      financials := ExtractFinancials(wb.sheets[financialsName.value]);
    }

    var fields := ExtractSetup(wb.sheets[setupName.value]);
    var products := ExtractProducts(wb.sheets[cosName.value]);
    var setup := SetupPart(|fields.keys|, CountWithSubTables(fields, fields.keys),
                           CountSubTableItems(fields, fields.keys), fields);
    result := Some(Extraction(setup, CosPart(|products|, products), info, financials));
  }

  /**
   * The extraction fails exactly when no sheet resolves for the Setup role
   * (primary or fallback names) or none resolves for the COS role.
   */
  lemma ExtractionFailsIff(wb: Workbook)
    requires wb.Valid()
    ensures ExtractionOf(wb).None? <==>
      !AnyOverlap(SetupNames + SetupFallbackNames, wb.sheetNames) || !AnyOverlap(CosNames + [], wb.sheetNames)
  {
    FindSheetNoneIff(wb.sheetNames, SetupNames, SetupFallbackNames);
    FindSheetNoneIff(wb.sheetNames, CosNames, []);
  }

  /** An unresolved info or financials sheet leaves that part an empty dict. */
  lemma OptionalPartsEmpty(wb: Workbook)
    requires wb.Valid() && ExtractionOf(wb).Some?
    ensures !Resolved(InfoSheetName(wb)) ==> ExtractionOf(wb).value.info == NewDict()
    ensures !Resolved(FinancialsSheetName(wb)) ==> ExtractionOf(wb).value.financials == NewDict()
    ensures Resolved(InfoSheetName(wb)) ==>
      ExtractionOf(wb).value.info == Info(wb.sheets[InfoSheetName(wb).value])
    ensures Resolved(FinancialsSheetName(wb)) ==>
      ExtractionOf(wb).value.financials == Financials(wb.sheets[FinancialsSheetName(wb).value])
  {
  }

  /**
   * The counts describe the parts: `totalFields` is the number of fields,
   * `totalProducts` the number of products, and the number of fields with a
   * sub-table is at most `totalFields` and at most `totalSubTableItems`.
   */
  lemma ExtractionCounts(wb: Workbook)
    requires wb.Valid() && ExtractionOf(wb).Some?
    ensures var x := ExtractionOf(wb).value;
      x.setup.totalFields == |x.setup.fields.keys| &&
      x.cos.totalProducts == |x.cos.products| &&
      x.setup.fieldsWithSubTables <= x.setup.totalFields &&
      x.setup.fieldsWithSubTables <= x.setup.totalSubTableItems
  {
    var fields := ExtractionOf(wb).value.setup.fields;
    SetupFieldsShape(wb.sheets[SetupSheetName(wb).value]);
    CountsBounded(fields, fields.keys);
  }
}
