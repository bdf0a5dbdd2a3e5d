/**
 * `extract_i_cos_data`: the products of the COS sheet, read from column H
 * (product name) and column I (cost of sales category), then de-duplicated
 * on the (name, category) pair, keeping the first occurrence.
 */
module ProductExtractor {
  import opened Strings
  import opened Collections
  import opened Sheets

  datatype Product = Product(productName: string, costOfSalesCategory: string)

  /**
   * Both H and I hold non-empty strings whose stripped forms are non-empty
   * and are not the header words "Product Name" and "Cost of Sales Category".
   */
  predicate QualifiesAsProduct(sheet: Sheet, row: int) {
    var h := sheet.At(row, ColH);
    var i := sheet.At(row, ColI);
    h.Text? && i.Text? && h.s != "" && i.s != "" &&
    Strip(h.s) != "" && Strip(i.s) != "" &&
    Strip(h.s) != "Product Name" && Strip(i.s) != "Cost of Sales Category"
  }

  function ProductAt(sheet: Sheet, row: int): Product
    requires QualifiesAsProduct(sheet, row)
  {
    Product(Strip(sheet.At(row, ColH).s), Strip(sheet.At(row, ColI).s))
  }

  /** `cos_data` after the first loop has visited rows 1..n. */
  function CandidateProducts(sheet: Sheet, n: int): seq<Product>
    decreases n
  {
    if n < 1 then []
    else
      var found := if QualifiesAsProduct(sheet, n) then [ProductAt(sheet, n)] else [];
      CandidateProducts(sheet, n - 1) + found
  }

  /** The result of `extract_i_cos_data`. */
  function Products(sheet: Sheet): seq<Product> {
    Dedup(CandidateProducts(sheet, sheet.maxRow))
  }

  /** `extract_i_cos_data`: collect the qualifying rows, then drop repeated pairs. */
  method ExtractProducts(sheet: Sheet) returns (products: seq<Product>)
    ensures products == Products(sheet)
  {
    var candidates: seq<Product> := [];
    for row := 1 to sheet.maxRow + 1
      invariant candidates == CandidateProducts(sheet, row - 1)
    {
      if QualifiesAsProduct(sheet, row) {
        var productName := Strip(sheet.At(row, ColH).s);
        var cosCategory := Strip(sheet.At(row, ColI).s);
        candidates := candidates + [Product(productName, cosCategory)];
      }
    }

    var seen: set<Product> := {};
    products := [];
    for i := 0 to |candidates|
      invariant products == Dedup(candidates[..i])
      invariant forall p :: p in seen <==> p in products
    {
      var item := candidates[i];
      assert candidates[..i + 1][..i] == candidates[..i];
      if item !in seen {
        seen := seen + {item};
        products := products + [item];
      }
    }
    assert candidates[..|candidates|] == candidates;
  }

  /** A product comes from a qualifying row at or before row `n`, and every such row gives one. */
  lemma {:induction false} CandidateProductsExactly(sheet: Sheet, n: int, p: Product)
    ensures p in CandidateProducts(sheet, n) <==>
      exists r :: 1 <= r <= n && QualifiesAsProduct(sheet, r) && ProductAt(sheet, r) == p
    decreases n
  {
    if n >= 1 {
      CandidateProductsExactly(sheet, n - 1, p);
      if p in CandidateProducts(sheet, n) && p !in CandidateProducts(sheet, n - 1) {
        assert QualifiesAsProduct(sheet, n) && ProductAt(sheet, n) == p;
      }
    }
  }

  /**
   * Every qualifying row of the sheet contributes its (name, category) pair
   * to the result, and the result holds nothing else.
   */
  lemma ProductsExactly(sheet: Sheet, p: Product)
    ensures p in Products(sheet) <==>
      exists r :: 1 <= r <= sheet.maxRow && QualifiesAsProduct(sheet, r) && ProductAt(sheet, r) == p
  {
    CandidateProductsExactly(sheet, sheet.maxRow, p);
  }

  /** No (name, category) pair appears twice, and pairs keep the order of their first row. */
  lemma ProductsUniqueInFirstSeenOrder(sheet: Sheet)
    ensures NoDup(Products(sheet))
    ensures forall i, j :: 0 <= i < j < |Products(sheet)| ==>
      FirstIndex(CandidateProducts(sheet, sheet.maxRow), Products(sheet)[i]) <
      FirstIndex(CandidateProducts(sheet, sheet.maxRow), Products(sheet)[j])
  {
    DedupFirstSeenOrder(CandidateProducts(sheet, sheet.maxRow));
  }

  /**
   * Every product has a non-empty, stripped name and category, neither of
   * them a header word.
   */
  lemma ProductsWellFormed(sheet: Sheet, p: Product)
    requires p in Products(sheet)
    ensures p.productName != "" && p.costOfSalesCategory != ""
    ensures Unpadded(p.productName) && Unpadded(p.costOfSalesCategory)
    ensures p.productName != "Product Name" && p.costOfSalesCategory != "Cost of Sales Category"
  {
    ProductsExactly(sheet, p);
  }
}
