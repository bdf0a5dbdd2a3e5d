/**
 * `BusinessClassifier.extract_business_summary`: the facts the classifier
 * reads off an extracted document — business name and currency, the three
 * industry labels of the Industry Details sub-table, the names of the
 * revenue streams and operating costs, and the product names and cost of
 * sales categories of the COS part.
 *
 * Each list is built by a loop; next to it stands a function giving the list
 * after the loop has visited a prefix of its input, and the lemmas state
 * what the list holds.
 */
module SummaryExtractor {
  import opened Wrappers
  import opened Strings
  import opened Collections
  import opened SetupExtractor
  import opened ProductExtractor
  import opened MetricsExtractor
  import opened Document

  datatype BusinessSummary = BusinessSummary(
    businessName: string,
    industryType: string,
    primaryIndustry: string,
    secondaryIndustry: Option<string>,
    revenueStreams: seq<string>,
    operatingCosts: seq<string>,
    products: seq<string>,
    cosCategories: seq<string>,
    currency: string,
    benchmarkMetrics: InfoData)

  const TypeLabel := "Industry Type"
  const PrimaryLabel := "Primary Industry"
  const SecondaryLabel := "Secondary Industry"

  /** Product names starting with this prefix are header rows and are dropped. */
  const HeaderPrefix := "Cost of Sale"

  /** `setup_data.get(name, {}).get('value', '')`. */
  function FieldValueOr(fields: Fields, name: string): string {
    if name in fields.entries then fields.entries[name].value else ""
  }

  /** `setup_data.get(name, {}).get('subTableData', [])`. */
  function SubTableOf(fields: Fields, name: string): seq<SubItem> {
    if name in fields.entries then fields.entries[name].subTableData else []
  }

  function ValueOr(o: Option<string>, default: string): string {
    if o.Some? then o.value else default
  }

  /** The item carries `fieldLabel == key` (section items have no `fieldLabel`). */
  predicate Labelled(item: SubItem, key: string) {
    item.IndustryItem? && item.fieldLabel == key
  }

  /** The value of the last item labelled `key`, or `None` when there is none. */
  function LastLabelled(items: seq<SubItem>, key: string): Option<string> {
    if items == [] then None
    else if Labelled(items[|items| - 1], key) then Some(items[|items| - 1].value)
    else LastLabelled(items[..|items| - 1], key)
  }

  /** The non-empty `name` values of the items, in order (industry items have no `name`). */
  function NamesOf(items: seq<SubItem>): seq<string> {
    if items == [] then []
    else
      var item := items[|items| - 1];
      NamesOf(items[..|items| - 1]) + (if item.SectionItem? && item.name != "" then [item.name] else [])
  }

  /** A stripped product name kept in the summary: non-empty, not starting with the header prefix. */
  predicate KeptProductName(name: string, prefix: string) {
    name != "" && !StartsWith(name, prefix)
  }

  /** The product names, each stripped, in product order. */
  function StrippedNames(ps: seq<Product>): (names: seq<string>)
    ensures |names| == |ps|
    ensures forall i :: 0 <= i < |ps| ==> names[i] == Strip(ps[i].productName)
  {
    seq(|ps|, i requires 0 <= i < |ps| => Strip(ps[i].productName))
  }

  /** The names kept, in order, repeats included. */
  function KeptNames(names: seq<string>, prefix: string): seq<string> {
    if names == [] then []
    else
      var name := names[|names| - 1];
      KeptNames(names[..|names| - 1], prefix) + (if KeptProductName(name, prefix) then [name] else [])
  }

  /** The stripped product names kept, in product order, repeats included. */
  function ProductNamesOf(ps: seq<Product>, prefix: string): seq<string> {
    KeptNames(StrippedNames(ps), prefix)
  }

  /** The non-empty stripped categories, in product order, repeats included. */
  function CategoriesOf(ps: seq<Product>): seq<string> {
    if ps == [] then []
    else
      var category := Strip(ps[|ps| - 1].costOfSalesCategory);
      CategoriesOf(ps[..|ps| - 1]) + (if category != "" then [category] else [])
  }

  /**
   * The result of `extract_business_summary` on an extracted document. The
   * benchmark metrics are read from an `info_metrics` key that the extracted
   * document never has (its info part is stored under `info`), so they are
   * always empty.
   */
  function Summary(x: Extraction): BusinessSummary {
    var fields := x.setup.fields;
    var industry := SubTableOf(fields, "Industry Details");
    BusinessSummary(
      FieldValueOr(fields, "Business Name"),
      ValueOr(LastLabelled(industry, TypeLabel), ""),
      ValueOr(LastLabelled(industry, PrimaryLabel), ""),
      LastLabelled(industry, SecondaryLabel),
      NamesOf(SubTableOf(fields, "Revenue Streams")),
      NamesOf(SubTableOf(fields, "Operating Costs")),
      ProductNamesOf(x.cos.products, HeaderPrefix),
      Dedup(CategoriesOf(x.cos.products)),
      FieldValueOr(fields, "Currency"),
      NewDict())
  }

  /** The loop over a sub-table collecting the truthy `name` values. */
  method CollectNames(items: seq<SubItem>) returns (names: seq<string>)
    ensures names == NamesOf(items)
  {
    names := [];
    for i := 0 to |items|
      invariant names == NamesOf(items[..i])
    {
      assert items[..i + 1][..i] == items[..i];
      var item := items[i];
      if item.SectionItem? && item.name != "" {
        names := names + [item.name];
      }
    }
    assert items[..|items|] == items;
  }

  /** The loop over the Industry Details items: for each label, the last item carrying it wins. */
  method ReadIndustryDetails(items: seq<SubItem>) returns (industryType: string, primaryIndustry: string, secondaryIndustry: Option<string>)
    ensures industryType == ValueOr(LastLabelled(items, TypeLabel), "")
    ensures primaryIndustry == ValueOr(LastLabelled(items, PrimaryLabel), "")
    ensures secondaryIndustry == LastLabelled(items, SecondaryLabel)
  {
    industryType := "";
    primaryIndustry := "";
    secondaryIndustry := None;
    for i := 0 to |items|
      invariant industryType == ValueOr(LastLabelled(items[..i], TypeLabel), "")
      invariant primaryIndustry == ValueOr(LastLabelled(items[..i], PrimaryLabel), "")
      invariant secondaryIndustry == LastLabelled(items[..i], SecondaryLabel)
    {
      assert items[..i + 1][..i] == items[..i];
      var item := items[i];
      if Labelled(item, TypeLabel) {
        industryType := item.value;
      } else if Labelled(item, PrimaryLabel) {
        primaryIndustry := item.value;
      } else if Labelled(item, SecondaryLabel) {
        secondaryIndustry := Some(item.value);
      }
    }
    assert items[..|items|] == items;
  }

  /** The loop over the COS products: kept product names, and categories not seen before. */
  method CollectProducts(ps: seq<Product>) returns (products: seq<string>, cosCategories: seq<string>)
    ensures products == ProductNamesOf(ps, HeaderPrefix)
    ensures cosCategories == Dedup(CategoriesOf(ps))
  {
    products := [];
    cosCategories := [];
    ghost var names := StrippedNames(ps);
    for i := 0 to |ps|
      invariant products == KeptNames(names[..i], HeaderPrefix)
      invariant cosCategories == Dedup(CategoriesOf(ps[..i]))
    {
      assert ps[..i + 1][..i] == ps[..i];
      assert names[..i + 1][..i] == names[..i];
      var productName := Strip(ps[i].productName);
      var cosCategory := Strip(ps[i].costOfSalesCategory);
      assert productName == names[i];
      if productName != "" && !StartsWith(productName, HeaderPrefix) {
        products := products + [productName];
      }
      ghost var before := CategoriesOf(ps[..i]);
      if cosCategory != "" {
        assert CategoriesOf(ps[..i + 1]) == before + [cosCategory];
        assert (before + [cosCategory])[..|before|] == before;
        if cosCategory !in cosCategories {
          cosCategories := cosCategories + [cosCategory];
        }
      } else {
        assert CategoriesOf(ps[..i + 1]) == before;
      }
    }
    assert ps[..|ps|] == ps;
    assert names[..|ps|] == names;
  }

  /** `extract_business_summary`. */
  method ExtractBusinessSummary(x: Extraction) returns (s: BusinessSummary)
    ensures s == Summary(x)
  {
    var fields := x.setup.fields;
    var businessName := FieldValueOr(fields, "Business Name");
    var currency := FieldValueOr(fields, "Currency");
    var industryType, primaryIndustry, secondaryIndustry := ReadIndustryDetails(SubTableOf(fields, "Industry Details"));
    var revenueStreams := CollectNames(SubTableOf(fields, "Revenue Streams"));
    var operatingCosts := CollectNames(SubTableOf(fields, "Operating Costs"));
    var products, cosCategories := CollectProducts(x.cos.products);
    s := BusinessSummary(businessName, industryType, primaryIndustry, secondaryIndustry,
                         revenueStreams, operatingCosts, products, cosCategories, currency, NewDict());
  }

  // --------------------------------------------------------- industry labels

  /** No item carries the key exactly when the lookup gives `None`. */
  lemma {:induction false} LastLabelledNoneIff(items: seq<SubItem>, key: string)
    ensures LastLabelled(items, key).None? <==> forall i :: 0 <= i < |items| ==> !Labelled(items[i], key)
  {
    if items != [] {
      var init := items[..|items| - 1];
      LastLabelledNoneIff(init, key);
      if !Labelled(items[|items| - 1], key) {
        assert forall i :: 0 <= i < |init| ==> items[i] == init[i];
      }
    }
  }

  /** The value found is that of the last item carrying the key: a later item overrides an earlier one. */
  lemma {:induction false} LastLabelledWins(items: seq<SubItem>, key: string, i: int)
    requires 0 <= i < |items| && Labelled(items[i], key)
    requires forall j :: i < j < |items| ==> !Labelled(items[j], key)
    ensures LastLabelled(items, key) == Some(items[i].value)
  {
    if i < |items| - 1 {
      var init := items[..|items| - 1];
      assert init[i] == items[i];
      LastLabelledWins(init, key, i);
    }
  }

  /**
   * The industry fields of the summary: the type and primary industry are ""
   * when no item carries their key, and the secondary industry is `None`
   * when none carries its key; otherwise each is the last labelled value.
   */
  lemma IndustryDefaults(x: Extraction)
    ensures var items := SubTableOf(x.setup.fields, "Industry Details");
      (Summary(x).industryType == "" <== forall i :: 0 <= i < |items| ==> !Labelled(items[i], TypeLabel)) &&
      (Summary(x).primaryIndustry == "" <== forall i :: 0 <= i < |items| ==> !Labelled(items[i], PrimaryLabel)) &&
      (Summary(x).secondaryIndustry.None? <==> forall i :: 0 <= i < |items| ==> !Labelled(items[i], SecondaryLabel))
  {
    var items := SubTableOf(x.setup.fields, "Industry Details");
    LastLabelledNoneIff(items, TypeLabel);
    LastLabelledNoneIff(items, PrimaryLabel);
    LastLabelledNoneIff(items, SecondaryLabel);
  }

  // ------------------------------------------------------------------ names

  /** The names are exactly the non-empty `name` values of the section items. */
  lemma {:induction false} NamesOfExactly(items: seq<SubItem>, name: string)
    ensures name in NamesOf(items) <==>
      name != "" && exists i :: 0 <= i < |items| && items[i].SectionItem? && items[i].name == name
  {
    if items != [] {
      var init := items[..|items| - 1];
      NamesOfExactly(init, name);
      if exists i :: 0 <= i < |items| && items[i].SectionItem? && items[i].name == name {
        var i :| 0 <= i < |items| && items[i].SectionItem? && items[i].name == name;
        if i < |init| {
          assert init[i] == items[i];
        }
      }
      if exists i :: 0 <= i < |init| && init[i].SectionItem? && init[i].name == name {
        var i :| 0 <= i < |init| && init[i].SectionItem? && init[i].name == name;
        assert items[i] == init[i];
      }
    }
  }

  /** Collecting names keeps the order of the items: it distributes over concatenation. */
  lemma {:induction false} NamesOfConcat(a: seq<SubItem>, b: seq<SubItem>)
    ensures NamesOf(a + b) == NamesOf(a) + NamesOf(b)
    decreases |b|
  {
    if b != [] {
      var init := b[..|b| - 1];
      assert (a + b)[..|a + b| - 1] == a + init;
      NamesOfConcat(a, init);
    } else {
      assert a + b == a;
    }
  }

  // --------------------------------------------------------------- products

  /** The names kept are exactly those that are non-empty and do not start with the prefix. */
  lemma {:induction false} KeptNamesExactly(names: seq<string>, prefix: string, name: string)
    ensures name in KeptNames(names, prefix) <==> KeptProductName(name, prefix) && name in names
  {
    if names != [] {
      var init := names[..|names| - 1];
      KeptNamesExactly(init, prefix, name);
      assert names == init + [names[|names| - 1]];
    }
  }

  /** Keeping names keeps their order and their repeats: it distributes over concatenation. */
  lemma {:induction false} KeptNamesConcat(a: seq<string>, b: seq<string>, prefix: string)
    ensures KeptNames(a + b, prefix) == KeptNames(a, prefix) + KeptNames(b, prefix)
    decreases |b|
  {
    if b != [] {
      var init := b[..|b| - 1];
      assert (a + b)[..|a + b| - 1] == a + init;
      KeptNamesConcat(a, init, prefix);
    } else {
      assert a + b == a;
    }
  }

  lemma StrippedNamesConcat(ps: seq<Product>, qs: seq<Product>)
    ensures StrippedNames(ps + qs) == StrippedNames(ps) + StrippedNames(qs)
  {
    var l, r := StrippedNames(ps + qs), StrippedNames(ps) + StrippedNames(qs);
    forall k | 0 <= k < |ps| + |qs|
      ensures l[k] == r[k]
    {
      if k < |ps| {
        assert (ps + qs)[k] == ps[k];
      } else {
        assert (ps + qs)[k] == qs[k - |ps|];
      }
    }
  }

  /**
   * The product names of the summary are exactly the stripped names that are
   * non-empty and do not start with "Cost of Sale"; they keep product order
   * and repeats (a product list followed by another gives the names of the
   * first followed by those of the second).
   */
  lemma ProductNamesShape(ps: seq<Product>, qs: seq<Product>, name: string)
    ensures name in ProductNamesOf(ps, HeaderPrefix) <==>
      KeptProductName(name, HeaderPrefix) && exists i :: 0 <= i < |ps| && StrippedNames(ps)[i] == name
    ensures ProductNamesOf(ps + qs, HeaderPrefix) == ProductNamesOf(ps, HeaderPrefix) + ProductNamesOf(qs, HeaderPrefix)
  {
    KeptNamesExactly(StrippedNames(ps), HeaderPrefix, name);
    StrippedNamesConcat(ps, qs);
    KeptNamesConcat(StrippedNames(ps), StrippedNames(qs), HeaderPrefix);
  }

  /** The categories before de-duplication are exactly the non-empty stripped categories. */
  lemma {:induction false} CategoriesExactly(ps: seq<Product>, c: string)
    ensures c in CategoriesOf(ps) <==>
      c != "" && exists i :: 0 <= i < |ps| && Strip(ps[i].costOfSalesCategory) == c
  {
    if ps != [] {
      var init := ps[..|ps| - 1];
      CategoriesExactly(init, c);
      if exists i :: 0 <= i < |ps| && Strip(ps[i].costOfSalesCategory) == c {
        var i :| 0 <= i < |ps| && Strip(ps[i].costOfSalesCategory) == c;
        if i < |init| {
          assert init[i] == ps[i];
        }
      }
      if exists i :: 0 <= i < |init| && Strip(init[i].costOfSalesCategory) == c {
        var i :| 0 <= i < |init| && Strip(init[i].costOfSalesCategory) == c;
        assert ps[i] == init[i];
      }
    }
  }

  /**
   * The cost of sales categories of the summary hold each non-empty stripped
   * category of the products once, and nothing else, in the order in which
   * they first appear.
   */
  lemma CosCategoriesShape(x: Extraction, c: string)
    ensures NoDup(Summary(x).cosCategories)
    ensures c in Summary(x).cosCategories <==>
      c != "" && exists i :: 0 <= i < |x.cos.products| && Strip(x.cos.products[i].costOfSalesCategory) == c
    ensures forall i, j :: 0 <= i < j < |Summary(x).cosCategories| ==>
      FirstIndex(CategoriesOf(x.cos.products), Summary(x).cosCategories[i]) <
      FirstIndex(CategoriesOf(x.cos.products), Summary(x).cosCategories[j])
  {
    CategoriesExactly(x.cos.products, c);
    DedupFirstSeenOrder(CategoriesOf(x.cos.products));
  }

  /** The benchmark metrics of every summary are empty. */
  lemma BenchmarkMetricsEmpty(x: Extraction)
    ensures Summary(x).benchmarkMetrics.keys == []
  {
  }
}
