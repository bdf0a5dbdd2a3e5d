# Workbook extraction and rule-based business classification

This project models, in Dafny, the deterministic core of a tool that reads a
fixed-layout business-plan workbook and then picks candidate business sectors
for it.

`extract.py` turns the workbook into a nested record in one pass:

- **Sheet resolver.** `find_sheet_by_variations` matches sheet names in three
  phases: exact (ignoring case), then equal after dropping whitespace and
  underscores, then substring in either direction.
- **Setup fields.** A row of the setup sheet defines a field when column G is
  a number and column H a string. Sub-tables come from rows 19-26 (Industry
  Details) and from ten fixed row ranges. A range yields items only after a
  `Name`/`Type` header row.
- **Products.** Rows of the COS sheet with a product name and a
  cost-of-sales category, deduplicated by pair in first-seen order.
- **Info metrics.** Label/value pairs keyed by a snake-case normaliser, plus
  a reverse `_labels` map.
- **Financials hierarchy.** category → subcategory → duplicate-free list of
  sub-subcategories. The category comes from a closed five-value classifier:
  a synonym table first, then substring rules in a fixed precedence.
- **Assembler.** The Setup and COS sheets are required. Info and financials
  are optional. The record carries three count fields.

`classifier.py` adds the rules that run before the language model is called:

- the sector → sub-sectors reference table built from its rows;
- the business summary drawn from the extracted record;
- the direct and fuzzy-term rules that select relevant sectors;
- the guard that refuses to classify when no sector is relevant.

How the program is modelled:

- **Workbook.** A list of sheet names and, for each sheet, `maxRow` and a
  total cell function. A cell is `Empty | Text | Num`.
- **Dictionaries.** A Python dict is a `Dict`: a key sequence in insertion
  order plus a map. `Put` keeps the position of an existing key.
- **Loops.** Every loop of the extractors and of the classifier that builds
  a list or dict is a method with a `while` or `for` loop. It is proved equal
  to a recursive specification function over a row prefix (`ensures items ==
  SectionItems(sheet, sec)`). The source's promises are proved about those
  functions as lemmas. The resolver's lookup loops, which only return the
  first hit, are recursive functions instead.
- **Pure helpers.** The pure helpers stay functions: `normalize`,
  `normalize_key`, `normalize_category` and the resolver's lookup loops.

Two places where the code and its stated design differ, modelled as the code
behaves:

- A setup field name may be empty after stripping. The code only checks that
  column H holds a string.
- In the financials hierarchy, a column-F subcategory spelled `_other` shares
  the sentinel group `_other`. Such a group can be an empty list. The lemma
  that `_other` lists are non-empty therefore assumes no column-F value is
  `_other`.

`classifier.py` cannot be parsed as written: a comma is missing between
`currency` and `benchmark_metrics` at classifier.py:127-128, and a docstring
is dedented at classifier.py:171. The model follows the evident intent.

The summary reads `info_metrics` from the record, but the assembler writes
the metrics under `info`. So `benchmark_metrics` is always empty, and the
model keeps that behaviour (`SummaryExtractor.BenchmarkMetricsEmpty`).

## Model

| member | source | states |
|---|---|---|
| SheetResolver.Normalize | extract.py:25-26 | the normalised name holds exactly the lower-cased characters of the name other than whitespace and `_`; it has no upper-case letter and no separator; hyphens survive |
| SheetResolver.NormalizeIdempotent | extract.py:25-26 | normalising twice is the same as normalising once |
| SheetResolver.NormalizeKeeps | extract.py:25-26 | every non-separator character of the name survives, lower-cased |
| SheetResolver.ExactPhase | extract.py:29-32 | a hit is a workbook sheet equal (ignoring case) to some candidate; a miss means no candidate equals any sheet ignoring case |
| SheetResolver.NormalizedPhase | extract.py:35-39 | a hit is a sheet whose normalised name is a normalised candidate; a miss means no sheet's normalised name is one |
| SheetResolver.SubstringPhase | extract.py:41-46 | a hit is a sheet overlapping (substring either way, after normalising) some candidate; a miss means no candidate/sheet pair overlaps |
| SheetResolver.FindSheet | extract.py:8-48 | the resolved name, when there is one, is one of the workbook's sheet names |
| SheetResolver.FindSheetNoneIff | extract.py:20-48 | resolution fails exactly when no normalised candidate (primary or fallback) and normalised sheet name are substrings of one another |
| SheetResolver.ExactMatchWins | extract.py:29-32 | the first candidate with an exact case-insensitive match decides, and among sheets the first matching one wins, over all later phases |
| SheetResolver.ExactPhasePrefix | extract.py:20-32 | once an exact match exists among the first candidates, appending candidates does not change it |
| SheetResolver.PrimaryExactMatchIgnoresFallback | extract.py:20-32 | when a primary name matches exactly, the fallback names play no part |
| SheetResolver.NormalizedMatchFirstSheetWins | extract.py:35-39 | with no exact match, the first sheet in workbook order whose normalised name equals a normalised candidate wins |
| SheetResolver.SameNormalizedOverlaps | extract.py:35-46 | a normalised-phase match is also a substring-phase match, so the phases agree on failure |
| SheetResolver.FirstOverlappingAt | extract.py:44-46 | for one candidate, the first sheet in workbook order that it overlaps is the one returned |
| SheetResolver.SubstringPhaseAt | extract.py:42-46 | phase 3 returns, for the first candidate overlapping any sheet, the first sheet it overlaps |
| SheetResolver.SubstringMatchWins | extract.py:20-46 | with no exact and no normalised match, candidate order decides (primary names before fallback names), then workbook order among the sheets the winning candidate overlaps |
| Normalize.NormalizeKeyKeepsLettersAndDigits | extract.py:352-358 | every letter and digit of the label appears, lower-cased, in the key |
| Normalize.NormalizeKey | extract.py:352-358 | every key is snake case: lower-case word characters only, never two `_` in a row, no `_` at either end |
| Normalize.SquashedIsLowerWordChars | extract.py:355-357 | before the final trim, the text holds only lower-case word characters |
| Normalize.SquashedNoDoubleUnderscore | extract.py:356-357 | before the final trim, the text never holds two `_` in a row |
| Normalize.NormalizeKeyFixesSnakeCase | extract.py:352-358 | a label already in snake case is its own key |
| Normalize.NormalizeKeyIdempotent | extract.py:352-358 | normalising a key again leaves it unchanged |
| Normalize.CollapseSeparators | extract.py:356 | after collapsing, no whitespace remains, and the result starts with `_` exactly when the input starts with whitespace or `_` |
| Normalize.StripUnderscores | extract.py:357 | the stripped key neither starts nor ends with `_` |
| SetupExtractor.BaseFields | extract.py:171-196 | every record starts with no sub-table; the dict is well formed |
| SetupExtractor.BaseFieldsKeys | extract.py:171-196 | a field name is a key exactly when some row up to the bound defines a field of that stripped name |
| SetupExtractor.LastDefinitionWins | extract.py:190-196 | when several rows define the same name, the record of the last one is kept |
| SetupExtractor.IndustryRowsExactly | extract.py:280-289 | an industry item comes exactly from a row in 19..26 whose column H equals one of the four industry labels |
| SetupExtractor.IndustryRows | extract.py:280 | industry rows lie in 19..26 and keep row order |
| SetupExtractor.ExtractIndustryDetails | extract.py:275-297 | the loop yields exactly the industry items of the qualifying rows, in row order |
| SetupExtractor.IndustryItemsLabelled | extract.py:285-292 | every industry item's label is one of the four industry labels |
| SetupExtractor.RowMeaningfulIff | extract.py:264-265 | an item is kept exactly when one of name, type, sub1, sub2, sub3 is non-empty after stripping |
| SetupExtractor.SectionRowsExactly | extract.py:228-266 | a row yields an item exactly when it lies in the section's range, strictly follows a `Name`/`Type` header row, carries a marker, and is meaningful |
| SetupExtractor.SectionRowsOrdered | extract.py:228 | item rows lie within the scanned range and keep row order |
| SetupExtractor.ExtractSection | extract.py:219-266 | the scan with its `header_found` flag yields exactly the items of the specification, in row order |
| SetupExtractor.SectionItemsMeaningful | extract.py:264-266 | every section item has a non-empty name, type, sub1, sub2 or sub3 |
| SetupExtractor.SectionItemsProvenance | extract.py:228-266 | the item rows are exactly the rows of `start..min(end, maxRow)` that are not header rows, follow a header row, carry a marker and are meaningful, in increasing order; a header row is never itself an item |
| SetupExtractor.HeaderSeenWitness | extract.py:226-237 | the header flag is set at a row exactly when a `Name`/`Type` header row lies earlier in the range |
| SetupExtractor.HeaderRowNeverItem | extract.py:233-238 | a header row never yields an item, and every row after a header row of the range sees the flag set |
| SetupExtractor.ExtractSetup | extract.py:166-273 | the result is the specified field dict; `hasSubTable` holds exactly when `subTableData` is non-empty; only Industry Details and the ten section names can own a sub-table |
| SetupExtractor.AttachKeepsConsistent | extract.py:199-271 | attaching a sub-table keeps every base record except its flag and items, and keeps the flag in step with the items |
| SetupExtractor.ApplySectionsConsistent | extract.py:219-271 | applying all sections keeps the keys and the base values of every field |
| SetupExtractor.SetupFieldsShape | extract.py:166-273 | the final fields have exactly the base keys and values, with `hasSubTable` true exactly when the item list is non-empty |
| SetupExtractor.SectionSubTable | extract.py:219-271 | a section field defined on the sheet ends with exactly the items of its row-range scan, in row order (none when the scan finds none) |
| SetupExtractor.IndustrySubTable | extract.py:199-203 | a defined Industry Details field ends with exactly the items of the rows 19-26 scan |
| SetupExtractor.ApplySectionsAt | extract.py:219-271 | a section whose name no other section shares gives its field exactly the section's items when the field had none |
| SetupExtractor.ApplySectionsOther | extract.py:219-271 | sections with other names leave a field unchanged |
| SetupExtractor.CountsBounded | extract.py:126-128 | the number of fields with a sub-table is at most the number of fields and at most the total of sub-table items |
| ProductExtractor.ExtractProducts | extract.py:299-339 | the filtering loop and the `seen`-set loop yield exactly the specified product list |
| ProductExtractor.CandidateProductsExactly | extract.py:306-327 | a pair is a candidate exactly when some row up to the bound qualifies and yields it |
| ProductExtractor.ProductsExactly | extract.py:306-339 | every qualifying row's (name, category) pair appears in the output, and nothing else does |
| ProductExtractor.ProductsUniqueInFirstSeenOrder | extract.py:329-337 | no two products share a (name, category) pair, and products keep the order of their first qualifying row |
| ProductExtractor.ProductsWellFormed | extract.py:311-322 | every product has a non-empty stripped name and category, neither equal to its header text |
| MetricsExtractor.MetricKeyIsNotLabels | extract.py:352-390 | no metric key can equal `_labels` |
| MetricsExtractor.MetricsFromRows | extract.py:362-386 | each stored metric comes from a row with an accepted label and a present value, and its key is the non-empty normalised label |
| MetricsExtractor.MetricRowsStored | extract.py:362-386 | every row with an accepted label, a present value and a non-empty key is stored |
| MetricsExtractor.MetricRowInInfo | extract.py:362-392 | such a row's key is in the info dict, `_labels` is present, and the key is in the label mapping |
| MetricsExtractor.ExtractInfo | extract.py:341-392 | the row loop and the final `_labels` step yield exactly the specified info dict |
| MetricsExtractor.LabelsMatchValues | extract.py:385-386 | the label map has the same keys as the value dict, and a key is present exactly when some metric has it |
| MetricsExtractor.LastMetricWins | extract.py:385-386 | for a repeated key, the last metric's value and label are kept |
| MetricsExtractor.NoMetricNamedLabels | extract.py:381-386 | no stored metric uses the key `_labels` |
| MetricsExtractor.InfoShape | extract.py:388-392 | `_labels` is present exactly when some metric was stored, and it then maps exactly the data keys to their original labels |
| FinancialsExtractor.TermPrecedence | extract.py:480-502 | the substring rules yield category k exactly when a term of k occurs and no term of an earlier category does (cost_of_sale > opex > revenue > financing > capex) |
| FinancialsExtractor.CategoryByTerms | extract.py:480-502 | a category chosen by the substring rules has one of its indicators in the key; no category is chosen only when no indicator of any category occurs |
| FinancialsExtractor.NoTermsNoCategory | extract.py:480-502 | with no synonym hit and no term, the classifier yields nothing |
| FinancialsExtractor.SynonymsFirst | extract.py:476-478 | a normalised text found in the synonym table is classified by the table, whatever terms it contains |
| FinancialsExtractor.NormalizeCategory | extract.py:410-502 | empty input has no category; a category is assigned only when the normalised text is one of its synonyms, or is not in the table and holds one of that category's indicators |
| FinancialsExtractor.CanonicalKey | extract.py:417-422 | a snake-case key normalises to itself |
| FinancialsExtractor.SynonymReachable | extract.py:425-478 | every synonym-table key in snake case is classified as its table entry |
| FinancialsExtractor.KeyIsSynonym | extract.py:425-474 | each category's own key is in the synonym table and maps to that category |
| FinancialsExtractor.CategoryKeyRoundTrip | extract.py:410-478 | classifying a category's key gives back that category |
| FinancialsExtractor.KeyIsSnakeCase | extract.py:407 | the five category keys are snake case |
| FinancialsExtractor.CostOfRevenueIsCostOfSale | extract.py:440-491 | an example of the table taking precedence: `cost_of_revenue` holds the revenue indicator yet is classified as cost of sale |
| FinancialsExtractor.ItemWellFormed | extract.py:544-562 | an accepted F or G value is non-empty, stripped, not a header word and not a number once `,` `.` `-` are removed |
| FinancialsExtractor.AddToGroupInPlace | extract.py:573-585 | appending a leaf to a group creates the group if needed and adds the leaf only if it is not yet listed |
| FinancialsExtractor.ExtractFinancials | extract.py:504-590 | the row loop with its in-place nested updates yields exactly the specified hierarchy |
| FinancialsExtractor.GroupCategories | extract.py:568-570 | the category keys are the distinct categories of the line items in first-seen order |
| FinancialsExtractor.GroupsValid | extract.py:568-585 | every category's group dict is well formed |
| FinancialsExtractor.GroupGroups | extract.py:573-583 | the groups under a category are the distinct groups of its line items in first-seen order |
| FinancialsExtractor.GroupLeaves | extract.py:578-585 | each leaf list holds the distinct sub-subcategories of its (category, group) in first-seen order |
| FinancialsExtractor.NoEmptyCategory | extract.py:565-585 | a category key exists only with at least one group under it |
| FinancialsExtractor.LineItemsExactly | extract.py:508-566 | a line item is read exactly when some row yields it |
| FinancialsExtractor.FinancialsLeaves | extract.py:508-585 | a sub-subcategory is listed under (c, g) exactly when some row has category c, group g and that sub-subcategory |
| FinancialsExtractor.LeafFiledUnderRowCategory | extract.py:516-585 | a row whose column A yields category c files its sub-subcategory under c and its subcategory (or `_other`), whatever column E holds; column E decides only when column A yields none |
| FinancialsExtractor.FinancialsLeavesUnique | extract.py:578-585 | leaf lists are duplicate-free |
| FinancialsExtractor.OtherGroupRows | extract.py:572-583 | a row lands in `_other` only when it has a sub-subcategory and no subcategory (unless F is literally `_other`) |
| FinancialsExtractor.OtherGroupNonEmpty | extract.py:581-585 | if every `_other` line item has a leaf, each `_other` list is non-empty |
| FinancialsExtractor.FinancialsOtherNonEmpty | extract.py:581-585 | with no column-F value spelled `_other`, every `_other` list of the result is non-empty |
| Document.ExtractWorkbook | extract.py:50-164 | the assembler yields exactly the specified record: the three setup counts, the product count, info and financials when their sheets resolve |
| Document.ExtractionFailsIff | extract.py:67-164 | the extraction fails exactly when no sheet resolves for Setup (primary or fallback names) or none resolves for COS |
| Document.OptionalPartsEmpty | extract.py:92-113 | an unresolved info or financials sheet gives an empty dict; a resolved one gives that sheet's extraction |
| Document.ExtractionCounts | extract.py:125-133 | `totalFields` counts the fields and `totalProducts` the products; `fieldsWithSubTables` is at most `totalFields` and at most `totalSubTableItems` |
| SummaryExtractor.CollectNames | classifier.py:87-99 | the loop collects exactly the non-empty item names, in order |
| SummaryExtractor.NamesOfExactly | classifier.py:87-99 | a name is collected exactly when it is non-empty and is the name of some section item |
| SummaryExtractor.NamesOfConcat | classifier.py:90-92 | collecting names preserves item order: it distributes over concatenation |
| SummaryExtractor.ReadIndustryDetails | classifier.py:74-85 | each of the three industry values is the value of the last item with that label, or its default |
| SummaryExtractor.LastLabelledNoneIff | classifier.py:79-85 | no value is read for a label exactly when no item carries it |
| SummaryExtractor.LastLabelledWins | classifier.py:79-85 | the value read for a label is that of the last item carrying it |
| SummaryExtractor.IndustryDefaults | classifier.py:75-85 | industry type and primary industry default to `""`; the secondary industry stays `None` exactly when no item carries its label |
| SummaryExtractor.CollectProducts | classifier.py:101-116 | the loop yields the kept product names and the deduplicated categories of the specification |
| SummaryExtractor.KeptNamesExactly | classifier.py:110-112 | a name is kept exactly when it is non-empty, does not start with "Cost of Sale" and occurs among the stripped names |
| SummaryExtractor.KeptNamesConcat | classifier.py:106-112 | filtering names preserves order and keeps duplicates: it distributes over concatenation |
| SummaryExtractor.StrippedNamesConcat | classifier.py:106-107 | stripping the names distributes over concatenation |
| SummaryExtractor.ProductNamesShape | classifier.py:106-112 | a product name is listed exactly when some product's stripped name is non-empty and lacks the header prefix; order is kept |
| SummaryExtractor.CategoriesExactly | classifier.py:108-116 | a category is a candidate exactly when it is some product's non-empty stripped category |
| SummaryExtractor.CosCategoriesShape | classifier.py:104-116 | the categories are duplicate-free, are exactly the non-empty stripped categories, and keep first-seen order |
| SummaryExtractor.ExtractBusinessSummary | classifier.py:62-129 | the summary is exactly the specified record built from the extracted document |
| SummaryExtractor.BenchmarkMetricsEmpty | classifier.py:67-128 | the benchmark metrics of every summary are empty, because the record never holds `info_metrics` |
| Classifier.GroupRows | classifier.py:46-56 | the grouped reference table is a well-formed dict |
| Classifier.LoadReferenceData | classifier.py:46-58 | the row loop yields exactly the specified reference table |
| Classifier.GroupRowsKeys | classifier.py:48-53 | there is one key per distinct sector, in first-seen order |
| Classifier.GroupRowsEntries | classifier.py:48-56 | a sector is a key exactly when some row names it, and its list holds its stored sub-sectors in row order |
| Classifier.SubsectorsOfAbsent | classifier.py:52-56 | a sector whose rows all have an empty or `nan` sub-sector gets an empty list |
| Classifier.SubsectorsStored | classifier.py:55-56 | no stored sub-sector is empty or `nan` |
| Classifier.DirectMatches | classifier.py:142-144 | the sectors directly matched for an industry are exactly those whose cleaned name contains the cleaned industry |
| Classifier.PatternMatches | classifier.py:163-164 | the sectors matched by a pattern are exactly those whose lower-cased name contains the lower-cased pattern |
| Classifier.TermHitsExactly | classifier.py:158-166 | a sector is a fuzzy hit for an industry exactly when some table term occurs in the lower-cased industry and one of its patterns matches the sector |
| Classifier.DirectHitsExactly | classifier.py:141-144 | a sector is a direct hit exactly when it is a reference sector directly matched by some industry to match |
| Classifier.PatternHitsExactly | classifier.py:162-166 | a sector is a pattern hit exactly when some pattern matches it |
| Classifier.FuzzyHitsExactly | classifier.py:158-166 | a sector is a fuzzy hit exactly when it is fuzzily matched by some industry to match |
| Classifier.RecordConcat | classifier.py:141-166 | recording two batches of hits is recording the first batch and then the second |
| Classifier.RecordSectors | classifier.py:165-166 | the loop storing each matched sector's reference list yields exactly the recorded dict |
| Classifier.RecordKeys | classifier.py:144-166 | recording hits gives a well-formed dict whose keys are the distinct hits in first-hit order |
| Classifier.RecordValues | classifier.py:144-166 | a recorded sector is a hit and maps to its reference list |
| Classifier.AddDirectMatches | classifier.py:142-144 | the inner direct loop records exactly the sectors matched for one industry |
| Classifier.AddFuzzyMatches | classifier.py:159-166 | the inner fuzzy loop records exactly the term hits for one industry |
| Classifier.AddPatternMatches | classifier.py:162-166 | the pattern loop records exactly the pattern hits |
| Classifier.AddAllDirectMatches | classifier.py:140-144 | the direct phase records exactly the direct hits of all industries to match |
| Classifier.AddAllFuzzyMatches | classifier.py:158-166 | the fuzzy phase records exactly the fuzzy hits of all industries to match |
| Classifier.GetRelevantSectors | classifier.py:131-168 | the method yields exactly the specified relevant-sector dict |
| Classifier.RelevantSectorsExactly | classifier.py:131-168 | every key of the result is a reference sector, selected directly or through the fuzzy table by some industry to match, and maps to exactly its reference list; keys are direct hits first, in hit order |
| Classifier.SecondaryIgnoredUnlessCombined | classifier.py:134-136 | unless the industry type is "combined" in any case and the secondary industry is non-empty, only the primary industry is matched and the secondary value has no effect |
| Classifier.BlankIndustrySelectsAll | classifier.py:141-144 | an industry that is blank after cleaning matches every reference sector directly |
| Classifier.ClassifyBusiness | classifier.py:272-290 | with no relevant sector, the result is the no-match error and the model is never consulted; otherwise the result is the model's answer for the summary and the relevant sectors |
| Classifier.NoMatchIff | classifier.py:279-282 | classification stops with the no-match error exactly when no reference sector is selected by any industry to match |

## Left out

- Workbook loading (openpyxl), JSON file writing, all console output, the command-line interface and directory batch processing are I/O. The model starts from a workbook value and ends at the record value.
- `extractedAt` (the current time) and `sourceFile` (the file's base name) depend on the environment. They are not part of the `Document.Extraction` record.
- Floating-point cells are not modelled. A number is an integer, so `int()` truncation of a field number and Python's `str()` of a float are out of scope. An integer's text is its decimal form.
- Python's bool-is-int quirk in the field-number type check is not modelled, because booleans are not cell values here.
- Unicode semantics are not modelled. Regex `\w`/`\s`, `str.isspace`, `str.isdigit` and `lower()` are restricted to ASCII.
- The catch-all `except` in the assembler is reached in the model only through the two missing-sheet errors. The extractors are total functions of the workbook, so no other exception arises.
- The setup sheet's Industry Details sub-table reads its value with `str()` of any non-empty cell. Number cells use the integer's decimal text, as elsewhere.
- `batch_classify.py` (directory listing, model calls, CSV output) is not part of this model.
- The reference workbook is read by pandas and every cell is passed through `str()`, so an empty cell reads as `nan`. The model takes the reference rows as pairs of strings after that conversion; `Classifier.LoadReferenceData` starts from those pairs.
- The OpenAI client, the prompt text (`create_llm_prompt`), `classify_with_llm` and its JSON reply parsing are foreign calls. They are the `model` function parameter of `Classifier.ClassifyBusiness`; an exception they raise is a `Failure` result.
- `extract_business_summary` takes a JSON dict. The model takes the `Document.Extraction` record, so a missing `i_Setup`/`i_COS` key or a wrong value type cannot occur. A missing field (Business Name, Currency, Industry Details, Revenue Streams, Operating Costs) is still modelled and gives the source's default.
- SheetResolver.FindSheet: its own contract states only that a result is a workbook sheet name. The precedence among the three phases is stated by the lemmas `ExactMatchWins`, `NormalizedMatchFirstSheetWins` and `SubstringMatchWins` (one per phase) rather than in this ensures.
