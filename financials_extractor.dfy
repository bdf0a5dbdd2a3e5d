/**
 * `extract_financials_data`: the line items of the financials sheet grouped
 * as category -> subcategory -> list of sub-subcategories. The category of a
 * row comes from column A or, failing that, column E, through the closed
 * five-way classifier `normalize_category`; the subcategory is column F and
 * the sub-subcategory column G.
 */
module FinancialsExtractor {
  import opened Wrappers
  import opened Strings
  import opened Collections
  import opened Sheets
  import opened Normalize

  // ------------------------------------------------------- normalize_category

  /** The five expected categories. */
  datatype Category = Revenue | CostOfSale | Opex | FinancingCost | Capex {
    /** The category's key in the result (`EXPECTED_CATEGORIES`). */
    function Key(): string {
      match this
      case Revenue => "revenue"
      case CostOfSale => "cost_of_sale"
      case Opex => "opex"
      case FinancingCost => "financing_cost"
      case Capex => "capex"
    }
  }

  /** `category_mapping`: normalised spellings looked up before any substring rule. */
  const Synonyms: map<string, Category> := map[
    "revenues" := Revenue,
    "income" := Revenue,
    "sales" := Revenue,
    "cost_of_sales" := CostOfSale,
    "cogs" := CostOfSale,
    "cost_of_goods_sold" := CostOfSale,
    "cost_of_goods" := CostOfSale,
    "direct_cost" := CostOfSale,
    "direct_costs" := CostOfSale,
    "cost_of_revenue" := CostOfSale,
    "operating_expenses" := Opex,
    "operating_expense" := Opex,
    "operating_costs" := Opex,
    "operating_cost" := Opex,
    "operating_expenditure" := Opex,
    "operating_expenditures" := Opex,
    "expenses" := Opex,
    "expenditure" := Opex,
    "expenditures" := Opex,
    "financing_costs" := FinancingCost,
    "finance_cost" := FinancingCost,
    "finance_costs" := FinancingCost,
    "interest_expense" := FinancingCost,
    "interest_expenses" := FinancingCost,
    "interest_cost" := FinancingCost,
    "interest_costs" := FinancingCost,
    "financial_cost" := FinancingCost,
    "financial_costs" := FinancingCost,
    "capital_expenditure" := Capex,
    "capital_expenditures" := Capex,
    "capital_investment" := Capex,
    "capital_investments" := Capex,
    "capital_expense" := Capex,
    "capital_expenses" := Capex,
    // each category's own key, listed together (the order of a map display does not matter)
    "revenue" := Revenue,
    "cost_of_sale" := CostOfSale,
    "opex" := Opex,
    "financing_cost" := FinancingCost,
    "capex" := Capex
  ]

  /** The substring rules are tried in this order. */
  const Precedence: seq<Category> := [CostOfSale, Opex, Revenue, FinancingCost, Capex]

  /** The indicator substrings of each category's rule. */
  function Terms(c: Category): seq<string> {
    match c
    case CostOfSale => ["cost_of_sale", "cost_of_sales", "cogs", "cost_of_goods", "direct_cost"]
    case Opex => ["opex", "operating_expense", "operating_cost", "operating_expenditure"]
    case Revenue => ["revenue", "income", "sales"]
    case FinancingCost => ["financing", "finance", "interest"]
    case Capex => ["capex", "capital_expenditure", "capital_investment", "capital_expense"]
  }

  /** The substring rules, first hit wins; `None` when no indicator occurs in the key. */
  function CategoryByTerms(key: string): (r: Option<Category>)
    ensures r.Some? ==> ContainsAny(key, Terms(r.value))
    ensures r.None? ==> forall c: Category :: !ContainsAny(key, Terms(c))
  {
    if ContainsAny(key, Terms(CostOfSale)) then Some(CostOfSale)
    else if ContainsAny(key, Terms(Opex)) then Some(Opex)
    else if ContainsAny(key, Terms(Revenue)) then Some(Revenue)
    else if ContainsAny(key, Terms(FinancingCost)) then Some(FinancingCost)
    else if ContainsAny(key, Terms(Capex)) then Some(Capex)
    else None
  }

  /**
   * `normalize_category`: the synonym table on the normalised key, then the
   * substring rules. Empty input has no category; a category is assigned
   * only when the normalised text is one of its synonyms or, failing the
   * table, holds one of its indicators.
   */
  function NormalizeCategory(category: string): (r: Option<Category>)
    ensures category == "" ==> r == None
    ensures r.Some? ==> var key := NormalizeKey(Strip(category));
      (key in Synonyms && Synonyms[key] == r.value) || (key !in Synonyms && ContainsAny(key, Terms(r.value)))
  {
    if category == "" then None
    else
      var key := NormalizeKey(Strip(category));
      if key in Synonyms then Some(Synonyms[key]) else CategoryByTerms(key)
  }

  /**
   * The substring rules pick the first category in precedence order
   * (cost_of_sale, opex, revenue, financing_cost, capex) whose indicators
   * occur in the key: a category is chosen exactly when one of its own
   * indicators occurs and none of an earlier category's does.
   */
  lemma TermPrecedence(key: string, k: nat)
    requires k < |Precedence|
    ensures CategoryByTerms(key) == Some(Precedence[k]) <==>
      ContainsAny(key, Terms(Precedence[k])) &&
      forall j :: 0 <= j < k ==> !ContainsAny(key, Terms(Precedence[j]))
  {
    assert Precedence[0] == CostOfSale && Precedence[1] == Opex && Precedence[2] == Revenue;
    assert Precedence[3] == FinancingCost && Precedence[4] == Capex;
  }

  /** A key with no indicator of any category is left unclassified. */
  lemma NoTermsNoCategory(key: string)
    ensures CategoryByTerms(key) == None <==>
      forall j :: 0 <= j < |Precedence| ==> !ContainsAny(key, Terms(Precedence[j]))
  {
    if CategoryByTerms(key) == None {
      forall j | 0 <= j < |Precedence|
        ensures !ContainsAny(key, Terms(Precedence[j]))
      {
      }
    } else {
      var c := CategoryByTerms(key).value;
      assert c in Precedence;
    }
  }

  /**
   * The synonym table is consulted first: a key it lists gets the table's
   * category even when the substring rules would pick another one.
   */
  lemma SynonymsFirst(category: string)
    requires category != "" && NormalizeKey(Strip(category)) in Synonyms
    ensures NormalizeCategory(category) == Some(Synonyms[NormalizeKey(Strip(category))])
  {
  }

  /** A snake_case text is already in normalised form: stripping and normalising keep it. */
  lemma CanonicalKey(key: string)
    requires SnakeCase(key)
    ensures NormalizeKey(Strip(key)) == key
  {
    assert Unpadded(key);
    StripClean(key);
    NormalizeKeyFixesSnakeCase(key);
  }

  /** A synonym written in normalised form is reached through the table. */
  lemma SynonymReachable(key: string)
    requires key in Synonyms && SnakeCase(key)
    ensures NormalizeCategory(key) == Some(Synonyms[key])
  {
    CanonicalKey(key);
  }

  lemma KeyIsSynonym(c: Category)
    ensures c.Key() in Synonyms && Synonyms[c.Key()] == c
  {
    match c
    case Revenue => assert Synonyms["revenue"] == Revenue;
    case CostOfSale => assert Synonyms["cost_of_sale"] == CostOfSale;
    case Opex => assert Synonyms["opex"] == Opex;
    case FinancingCost => assert Synonyms["financing_cost"] == FinancingCost;
    case Capex => assert Synonyms["capex"] == Capex;
  }

  /** A category's own key classifies as that category. */
  lemma CategoryKeyRoundTrip(c: Category)
    ensures NormalizeCategory(c.Key()) == Some(c)
  {
    KeyIsSynonym(c);
    KeyIsSnakeCase(c);
    SynonymReachable(c.Key());
  }

  lemma KeyIsSnakeCase(c: Category)
    ensures SnakeCase(c.Key())
  {
    match c
    case Revenue =>
    case CostOfSale =>
    case Opex =>
    case FinancingCost =>
    case Capex =>
  }

  /**
   * The table wins over the substring rules: `cost_of_revenue` is a cost of
   * sale, although it holds the revenue indicator `revenue`.
   */
  lemma CostOfRevenueIsCostOfSale()
    ensures ContainsAny("cost_of_revenue", Terms(Revenue))
    ensures NormalizeCategory("cost_of_revenue") == Some(CostOfSale)
  {
    CostOfRevenueHasRevenueTerm();
    CostOfRevenueIsSynonym();
    SynonymReachable("cost_of_revenue");
  }

  lemma CostOfRevenueHasRevenueTerm()
    ensures ContainsAny("cost_of_revenue", Terms(Revenue))
  {
    var s := "cost_of_revenue";
    assert s[8..15] == "revenue";
    ContainsAt(s, "revenue", 8);
    assert Terms(Revenue)[0] == "revenue";
  }

  lemma CostOfRevenueIsSynonym()
    ensures "cost_of_revenue" in Synonyms && Synonyms["cost_of_revenue"] == CostOfSale
    ensures SnakeCase("cost_of_revenue")
  {
  }

  /** `p` occurs in `s` at position `i`. */
  lemma {:induction false} ContainsAt(s: string, p: string, i: nat)
    requires i + |p| <= |s| && s[i..i + |p|] == p
    ensures Contains(s, p)
    decreases i
  {
    if i > 0 {
      assert s[1..][i - 1..i - 1 + |p|] == p;
      ContainsAt(s[1..], p, i - 1);
    }
  }

  // ------------------------------------------------------------ one row

  /** Column A words that mark a header row rather than a category. */
  const CategoryHeadersA: seq<string> := ["", "sub1", "line item", "account", "description", "name"]

  /** Column E words that mark a header row rather than a category. */
  const CategoryHeadersE: seq<string> := ["", "sub1", "category", "type", "comments", "sub3"]

  /** Column F and G words that mark a header row rather than a line item. */
  const ItemHeaders: seq<string> := ["", "sub3", "comments", "type", "category", "subcategory"]

  /** The group key for sub-subcategories of rows without a subcategory. */
  const OtherGroup: string := "_other"

  /** The category in column A, unless it is blank or a header word. */
  function CategoryFromA(sheet: Sheet, row: int): Option<Category> {
    var v := CellText(sheet.At(row, ColA));
    if Lower(v) !in CategoryHeadersA then NormalizeCategory(v) else None
  }

  /** The category in column E, unless it is blank or a header word. */
  function CategoryFromE(sheet: Sheet, row: int): Option<Category> {
    var v := CellText(sheet.At(row, ColE));
    if Lower(v) !in CategoryHeadersE then NormalizeCategory(v) else None
  }

  /** Column A's category when it has one, otherwise column E's. */
  function RowCategory(sheet: Sheet, row: int): (r: Option<Category>)
    ensures CategoryFromA(sheet, row).Some? ==> r == CategoryFromA(sheet, row)
    ensures CategoryFromA(sheet, row).None? ==> r == CategoryFromE(sheet, row)
  {
    var fromA := CategoryFromA(sheet, row);
    if fromA.Some? then fromA else CategoryFromE(sheet, row)
  }

  /** The text looks like a number: only digits once `,`, `.` and `-` are removed. */
  predicate LooksNumeric(v: string) {
    IsDigits(Strip(RemoveChars(v, {',', '.', '-'})))
  }

  /**
   * The subcategory (column F) or sub-subcategory (column G) of a row: the
   * stripped text, unless it is blank, a header word or a number.
   */
  function ItemAt(sheet: Sheet, row: int, col: int): Option<string> {
    var v := CellText(sheet.At(row, col));
    if Lower(v) !in ItemHeaders && !LooksNumeric(v) then Some(v) else None
  }

  /** Items are non-empty stripped texts, never a header word, never a number. */
  lemma ItemWellFormed(sheet: Sheet, row: int, col: int)
    requires ItemAt(sheet, row, col).Some?
    ensures var v := ItemAt(sheet, row, col).value;
      v != "" && Unpadded(v) && Lower(v) !in ItemHeaders && !LooksNumeric(v)
  {
  }

  /** What one row adds to the hierarchy: a leaf (maybe none) under a category and group. */
  datatype LineItem = LineItem(category: Category, group: string, leaf: Option<string>)

  /**
   * The row's line item: it needs a category and at least one of a
   * subcategory and a sub-subcategory; the group is the subcategory, or
   * `_other` when there is none.
   */
  function RowItem(sheet: Sheet, row: int): Option<LineItem> {
    var category := RowCategory(sheet, row);
    var sub := ItemAt(sheet, row, ColF);
    var leaf := ItemAt(sheet, row, ColG);
    if category.None? || (sub.None? && leaf.None?) then None
    else Some(LineItem(category.value, if sub.Some? then sub.value else OtherGroup, leaf))
  }

  /** The line items of rows 1..n, in row order. */
  function LineItemsUpTo(sheet: Sheet, n: int): seq<LineItem>
    decreases n
  {
    if n < 1 then []
    else
      var found := if RowItem(sheet, n).Some? then [RowItem(sheet, n).value] else [];
      LineItemsUpTo(sheet, n - 1) + found
  }

  // ------------------------------------------------------------ the hierarchy

  /** category -> subcategory -> sub-subcategories, each level in insertion order. */
  type Hierarchy = Dict<Category, Dict<string, seq<string>>>

  /** Creates group `g` when missing and appends `leaf` to its list unless already listed. */
  function AddToGroup(groups: Dict<string, seq<string>>, g: string, leaf: Option<string>): (r: Dict<string, seq<string>>)
    ensures groups.Valid() ==> r.Valid()
  {
    var list := if g in groups.entries then groups.entries[g] else [];
    groups.Put(g, if leaf.Some? && leaf.value !in list then list + [leaf.value] else list)
  }

  /** Adds one line item: creates its category when missing, then adds to its group. */
  function AddItem(d: Hierarchy, e: LineItem): (r: Hierarchy)
    ensures d.Valid() ==> r.Valid()
  {
    var groups := if e.category in d.entries then d.entries[e.category] else NewDict();
    d.Put(e.category, AddToGroup(groups, e.group, e.leaf))
  }

  /** The hierarchy built from line items in order. */
  function Group(es: seq<LineItem>): (d: Hierarchy)
    ensures d.Valid()
  {
    if es == [] then NewDict() else AddItem(Group(es[..|es| - 1]), es[|es| - 1])
  }

  lemma GroupStep(es: seq<LineItem>, e: LineItem)
    ensures Group(es + [e]) == AddItem(Group(es), e)
  {
    assert (es + [e])[..|es|] == es;
  }

  /** The result of `extract_financials_data`. */
  function Financials(sheet: Sheet): Hierarchy {
    Group(LineItemsUpTo(sheet, sheet.maxRow))
  }

  /**
   * The body of the two group branches of `extract_financials_data`: create
   * the group's list when missing, append the sub-subcategory when it is new.
   */
  method AddToGroupInPlace(groups: Dict<string, seq<string>>, g: string, leaf: Option<string>)
    returns (r: Dict<string, seq<string>>)
    ensures r == AddToGroup(groups, g, leaf)
  {
    r := groups;
    if g !in r.entries {
      r := r.Put(g, []);
      PutPut(groups, g, [], if leaf.Some? then [leaf.value] else []);
    } else {
      PutSame(groups, g);
    }
    if leaf.Some? && leaf.value !in r.entries[g] {
      r := r.Put(g, r.entries[g] + [leaf.value]);
    }
  }

  /** `extract_financials_data`, updating the nested dicts row by row. */
  method ExtractFinancials(sheet: Sheet) returns (lines: Hierarchy)
    ensures lines == Financials(sheet)
  {
    lines := NewDict();
    for row := 1 to sheet.maxRow + 1
      invariant lines == Group(LineItemsUpTo(sheet, row - 1))
    {
      var category := RowCategory(sheet, row);
      var subcategory := ItemAt(sheet, row, ColF);
      var subSubcategory := ItemAt(sheet, row, ColG);
      if category.None? || (subcategory.None? && subSubcategory.None?) {
        assert LineItemsUpTo(sheet, row) == LineItemsUpTo(sheet, row - 1);
        continue;
      }
      ghost var before := lines;
      ghost var e := LineItem(category.value, if subcategory.Some? then subcategory.value else OtherGroup, subSubcategory);
      assert LineItemsUpTo(sheet, row) == LineItemsUpTo(sheet, row - 1) + [e];
      GroupStep(LineItemsUpTo(sheet, row - 1), e);
      if category.value !in lines.entries {
        lines := lines.Put(category.value, NewDict());
      }
      var groups := lines.entries[category.value];
      if subcategory.Some? {
        groups := AddToGroupInPlace(groups, subcategory.value, subSubcategory);
      } else if subSubcategory.Some? {
        groups := AddToGroupInPlace(groups, OtherGroup, subSubcategory);
      }
      PutPut(before, category.value, NewDict(), groups);
      lines := lines.Put(category.value, groups);
      assert lines == AddItem(before, e);
    }
  }

  // ------------------------------------------------------------ properties

  /** The categories of the line items, in order. */
  function CategoriesOf(es: seq<LineItem>): seq<Category> {
    if es == [] then [] else CategoriesOf(es[..|es| - 1]) + [es[|es| - 1].category]
  }

  /** The groups of the line items of category `c`, in order. */
  function GroupsOf(es: seq<LineItem>, c: Category): seq<string> {
    if es == [] then []
    else
      var e := es[|es| - 1];
      GroupsOf(es[..|es| - 1], c) + (if e.category == c then [e.group] else [])
  }

  /** The leaves of the line items of category `c` and group `g`, in order. */
  function LeavesOf(es: seq<LineItem>, c: Category, g: string): seq<string> {
    if es == [] then []
    else
      var e := es[|es| - 1];
      var found := if e.category == c && e.group == g && e.leaf.Some? then [e.leaf.value] else [];
      LeavesOf(es[..|es| - 1], c, g) + found
  }

  /** The group keys under category `c`, or none when `c` is absent. */
  function GroupsIn(d: Hierarchy, c: Category): seq<string> {
    if c in d.entries then d.entries[c].keys else []
  }

  /** The leaf list of group `g` under category `c`, or none when either is absent. */
  function LeavesIn(d: Hierarchy, c: Category, g: string): seq<string> {
    if c in d.entries && g in d.entries[c].entries then d.entries[c].entries[g] else []
  }

  /** Categories appear once each, in the order of their first line item. */
  lemma {:induction false} GroupCategories(es: seq<LineItem>)
    ensures Group(es).keys == Dedup(CategoriesOf(es))
  {
    if es != [] {
      var init := es[..|es| - 1];
      GroupCategories(init);
      assert CategoriesOf(es)[..|CategoriesOf(es)| - 1] == CategoriesOf(init);
    }
  }

  /** Each category's group dict is well formed. */
  lemma {:induction false} GroupsValid(es: seq<LineItem>, c: Category)
    ensures c in Group(es).entries ==> Group(es).entries[c].Valid()
  {
    if es != [] {
      var init, e := es[..|es| - 1], es[|es| - 1];
      GroupsValid(init, c);
      if e.category == c {
        AddItemGroupsValid(Group(init), e);
      } else {
        AddItemGroupsElsewhere(Group(init), e, c);
      }
    }
  }

  /** Under each category the groups appear once each, in the order of their first line item. */
  lemma {:induction false} GroupGroups(es: seq<LineItem>, c: Category)
    ensures GroupsIn(Group(es), c) == Dedup(GroupsOf(es, c))
  {
    if es == [] {
      assert GroupsIn(Group(es), c) == [];
    } else {
      var init, e := es[..|es| - 1], es[|es| - 1];
      GroupGroups(init, c);
      var d := Group(init);
      var before := GroupsIn(d, c);
      assert Group(es) == AddItem(d, e);
      if e.category == c {
        var l := GroupsOf(es, c);
        assert Dedup(l) == if e.group in before then before else before + [e.group] by {
          assert l == GroupsOf(init, c) + [e.group];
          assert l[..|l| - 1] == GroupsOf(init, c);
        }
        assert e.group in before <==> c in d.entries && e.group in d.entries[c].entries by {
          GroupsValid(init, c);
        }
        AddItemGroupsAt(d, e);
      } else {
        assert GroupsOf(es, c) == GroupsOf(init, c);
        AddItemGroupsElsewhere(d, e, c);
      }
    }
  }

  /** Adding a line item leaves the other categories alone. */
  lemma AddItemGroupsElsewhere(d: Hierarchy, e: LineItem, c: Category)
    requires e.category != c
    ensures c in AddItem(d, e).entries <==> c in d.entries
    ensures c in d.entries ==> AddItem(d, e).entries[c] == d.entries[c]
  {
  }

  /** Adding a line item adds its group under its category when that is new. */
  lemma AddItemGroupsAt(d: Hierarchy, e: LineItem)
    ensures var c := e.category;
      GroupsIn(AddItem(d, e), c) ==
        if c in d.entries && e.group in d.entries[c].entries then GroupsIn(d, c)
        else GroupsIn(d, c) + [e.group]
  {
  }

  /** Adding a line item keeps its category's group dict well formed. */
  lemma AddItemGroupsValid(d: Hierarchy, e: LineItem)
    requires e.category in d.entries ==> d.entries[e.category].Valid()
    ensures AddItem(d, e).entries[e.category].Valid()
  {
  }

  /** Each leaf list holds the group's sub-subcategories once each, in the order of their rows. */
  lemma {:induction false} GroupLeaves(es: seq<LineItem>, c: Category, g: string)
    ensures LeavesIn(Group(es), c, g) == Dedup(LeavesOf(es, c, g))
  {
    if es == [] {
      assert LeavesIn(Group(es), c, g) == [];
    } else {
      var init, e := es[..|es| - 1], es[|es| - 1];
      GroupLeaves(init, c, g);
      var d := Group(init);
      var before := LeavesIn(d, c, g);
      assert Group(es) == AddItem(d, e);
      if e.category == c && e.group == g && e.leaf.Some? {
        var x := e.leaf.value;
        AddItemAt(d, e);
        assert LeavesOf(es, c, g) == LeavesOf(init, c, g) + [x];
        DedupSnoc(LeavesOf(init, c, g), x);
      } else {
        if e.category == c && e.group == g {
          AddItemAt(d, e);
        } else {
          AddItemElsewhere(d, e, c, g);
        }
        assert LeavesOf(es, c, g) == LeavesOf(init, c, g);
      }
    }
  }

  /** Adding a line item extends its own leaf list by its leaf when that is new. */
  lemma AddItemAt(d: Hierarchy, e: LineItem)
    ensures var list := LeavesIn(d, e.category, e.group);
      LeavesIn(AddItem(d, e), e.category, e.group) ==
        if e.leaf.Some? && e.leaf.value !in list then list + [e.leaf.value] else list
  {
  }

  /** Adding a line item leaves every other leaf list alone. */
  lemma AddItemElsewhere(d: Hierarchy, e: LineItem, c: Category, g: string)
    requires e.category != c || e.group != g
    ensures LeavesIn(AddItem(d, e), c, g) == LeavesIn(d, c, g)
  {
  }

  /** A category is present only with at least one group under it. */
  lemma {:induction false} NoEmptyCategory(es: seq<LineItem>, c: Category)
    requires c in Group(es).entries
    ensures Group(es).entries[c].keys != []
  {
    var init, e := es[..|es| - 1], es[|es| - 1];
    if e.category != c {
      NoEmptyCategory(init, c);
    } else if c in Group(init).entries {
      GroupsValid(init, c);
    }
  }

  /** A line item of category `c` comes from the rows, and a row's item is among them. */
  lemma {:induction false} LineItemsExactly(sheet: Sheet, n: int, e: LineItem)
    ensures e in LineItemsUpTo(sheet, n) <==> exists r :: 1 <= r <= n && RowItem(sheet, r) == Some(e)
    decreases n
  {
    if n >= 1 {
      LineItemsExactly(sheet, n - 1, e);
      var item := RowItem(sheet, n);
      var found := if item.Some? then [item.value] else [];
      assert LineItemsUpTo(sheet, n) == LineItemsUpTo(sheet, n - 1) + found;
      if e in LineItemsUpTo(sheet, n) {
        if e !in LineItemsUpTo(sheet, n - 1) {
          assert item == Some(e);
        }
      }
      if exists r :: 1 <= r <= n && RowItem(sheet, r) == Some(e) {
        var r :| 1 <= r <= n && RowItem(sheet, r) == Some(e);
        if r == n {
          assert e in found;
        }
      }
    }
  }

  lemma {:induction false} LeavesOfExactly(es: seq<LineItem>, c: Category, g: string, x: string)
    ensures x in LeavesOf(es, c, g) <==> LineItem(c, g, Some(x)) in es
  {
    if es != [] {
      var init, e := es[..|es| - 1], es[|es| - 1];
      LeavesOfExactly(init, c, g, x);
      assert es == init + [e];
    }
  }

  /**
   * A sub-subcategory is listed under category `c` and group `g` exactly
   * when some row has that category, that group and that sub-subcategory.
   */
  lemma FinancialsLeaves(sheet: Sheet, c: Category, g: string, x: string)
    ensures x in LeavesIn(Financials(sheet), c, g) <==>
      exists r :: 1 <= r <= sheet.maxRow && RowItem(sheet, r) == Some(LineItem(c, g, Some(x)))
  {
    var es := LineItemsUpTo(sheet, sheet.maxRow);
    GroupLeaves(es, c, g);
    LeavesOfExactly(es, c, g, x);
    LineItemsExactly(sheet, sheet.maxRow, LineItem(c, g, Some(x)));
  }

  /**
   * Column A decides the category: a row whose column A yields `c` files its
   * sub-subcategory under `c` (and under its subcategory, or `_other`), whatever
   * column E holds. Column E decides only for a row whose column A yields none.
   */
  lemma LeafFiledUnderRowCategory(sheet: Sheet, r: int, c: Category, x: string)
    requires 1 <= r <= sheet.maxRow && ItemAt(sheet, r, ColG) == Some(x)
    requires CategoryFromA(sheet, r) == Some(c) ||
      (CategoryFromA(sheet, r).None? && CategoryFromE(sheet, r) == Some(c))
    ensures var sub := ItemAt(sheet, r, ColF);
      x in LeavesIn(Financials(sheet), c, if sub.Some? then sub.value else OtherGroup)
  {
    var sub := ItemAt(sheet, r, ColF);
    var g := if sub.Some? then sub.value else OtherGroup;
    assert RowItem(sheet, r) == Some(LineItem(c, g, Some(x)));
    FinancialsLeaves(sheet, c, g, x);
  }

  /** The leaf lists of the result are duplicate-free. */
  lemma FinancialsLeavesUnique(sheet: Sheet, c: Category, g: string)
    ensures NoDup(LeavesIn(Financials(sheet), c, g))
  {
    GroupLeaves(LineItemsUpTo(sheet, sheet.maxRow), c, g);
  }

  /**
   * A row lands in the `_other` group only when it has a sub-subcategory
   * and no subcategory, unless its subcategory is literally `_other`.
   */
  lemma OtherGroupRows(sheet: Sheet, row: int)
    requires RowItem(sheet, row).Some? && RowItem(sheet, row).value.group == OtherGroup
    requires ItemAt(sheet, row, ColF) != Some(OtherGroup)
    ensures ItemAt(sheet, row, ColF).None? && RowItem(sheet, row).value.leaf.Some?
  {
  }

  /** When every `_other` line item carries a leaf, every `_other` list is non-empty. */
  lemma {:induction false} OtherGroupNonEmpty(es: seq<LineItem>, c: Category)
    requires forall i :: 0 <= i < |es| && es[i].group == OtherGroup ==> es[i].leaf.Some?
    requires c in Group(es).entries && OtherGroup in Group(es).entries[c].entries
    ensures Group(es).entries[c].entries[OtherGroup] != []
  {
    var init, e := es[..|es| - 1], es[|es| - 1];
    if !(c in Group(init).entries && OtherGroup in Group(init).entries[c].entries) {
      assert e.category == c && e.group == OtherGroup;
    } else {
      OtherGroupNonEmpty(init, c);
    }
  }

  /**
   * With no subcategory spelled `_other` in column F, an `_other` group of
   * the result is never empty.
   */
  lemma FinancialsOtherNonEmpty(sheet: Sheet, c: Category)
    requires forall r :: 1 <= r <= sheet.maxRow ==> ItemAt(sheet, r, ColF) != Some(OtherGroup)
    requires c in Financials(sheet).entries && OtherGroup in Financials(sheet).entries[c].entries
    ensures Financials(sheet).entries[c].entries[OtherGroup] != []
  {
    var es := LineItemsUpTo(sheet, sheet.maxRow);
    forall i | 0 <= i < |es| && es[i].group == OtherGroup
      ensures es[i].leaf.Some?
    {
      assert es[i] in es;
      LineItemsExactly(sheet, sheet.maxRow, es[i]);
      var r :| 1 <= r <= sheet.maxRow && RowItem(sheet, r) == Some(es[i]);
      OtherGroupRows(sheet, r);
    }
    OtherGroupNonEmpty(es, c);
  }
}
