/** The product card of the catalogue screen: the stock it shows (summed
    over the variants when the product has any, over the product's own
    per-branch rows otherwise), the low-stock badge, the profit per unit and
    the markup percentage, and each variant's own stock. */
module ProductCard {
  import opened Common
  import Price

  /** One per-branch stock row. */
  datatype BranchStock = BranchStock(branchId: string, stock: int)

  datatype CardVariant = CardVariant(
    id: string,
    name: string,
    value: string,
    priceAdjustment: int,
    stocks: Option<seq<BranchStock>>)

  /** The product as the card receives it; `None` stands for a missing
      (undefined or null) field. */
  datatype CardProduct = CardProduct(
    id: string,
    name: string,
    price: int,
    costo: int,
    barcode: Option<string>,
    image: Option<string>,
    color: string,
    active: Option<bool>,
    stockMinimo: Option<int>,
    stocks: Option<seq<BranchStock>>,
    categoryName: string,
    categoryColor: string,
    variants: seq<CardVariant>)

  /** `rows.reduce((sum, s) => sum + s.stock, 0)`. */
  function StockSum(rows: seq<BranchStock>): (r: int)
    ensures rows == [] ==> r == 0
  {
    if rows == [] then 0 else StockSum(rows[..|rows| - 1]) + rows[|rows| - 1].stock
  }

  lemma {:induction false} StockSumConcat(a: seq<BranchStock>, b: seq<BranchStock>)
    ensures StockSum(a + b) == StockSum(a) + StockSum(b)
    decreases |b|
  {
    if b == [] {
      assert a + b == a;
    } else {
      assert (a + b)[..|a + b| - 1] == a + b[..|b| - 1];
      StockSumConcat(a, b[..|b| - 1]);
    }
  }

  /** No row below zero. */
  predicate RowsNonNegative(rows: seq<BranchStock>) {
    forall i | 0 <= i < |rows| :: rows[i].stock >= 0
  }

  lemma {:induction false} StockSumNonNegative(rows: seq<BranchStock>)
    requires RowsNonNegative(rows)
    ensures StockSum(rows) >= 0
  {
    if rows != [] {
      StockSumNonNegative(rows[..|rows| - 1]);
    }
  }

  /** The stock shown next to a variant: its own rows, 0 with none. */
  function VariantStock(v: CardVariant): (r: int)
    ensures v.stocks.None? ==> r == 0
    ensures v.stocks.Some? ==> r == StockSum(v.stocks.value)
  {
    StockSum(v.stocks.GetOr([]))
  }

  /** `variants.reduce((acc, v) => acc + VariantStock(v), 0)`. */
  function VariantsTotal(vs: seq<CardVariant>): (r: int)
    ensures vs == [] ==> r == 0
  {
    if vs == [] then 0 else VariantsTotal(vs[..|vs| - 1]) + VariantStock(vs[|vs| - 1])
  }

  /** Every variant's rows, one list after the other. */
  function AllRows(vs: seq<CardVariant>): seq<BranchStock> {
    if vs == [] then [] else AllRows(vs[..|vs| - 1]) + vs[|vs| - 1].stocks.GetOr([])
  }

  /** Summing per variant and then over the variants is summing every row. */
  lemma {:induction false} VariantsTotalIsAllRows(vs: seq<CardVariant>)
    ensures VariantsTotal(vs) == StockSum(AllRows(vs))
  {
    if vs != [] {
      var init := vs[..|vs| - 1];
      VariantsTotalIsAllRows(init);
      StockSumConcat(AllRows(init), vs[|vs| - 1].stocks.GetOr([]));
    }
  }

  /** `totalStock`: with variants, the sum of every variant's rows (the
      product's own rows are not looked at); without, the product's rows,
      none being 0. */
  function TotalStock(p: CardProduct): (r: int)
    ensures p.variants != [] ==> r == StockSum(AllRows(p.variants))
    ensures p.variants == [] && p.stocks.None? ==> r == 0
    ensures p.variants == [] && p.stocks.Some? ==> r == StockSum(p.stocks.value)
  {
    if |p.variants| > 0 then
      VariantsTotalIsAllRows(p.variants);
      VariantsTotal(p.variants)
    else StockSum(p.stocks.GetOr([]))
  }

  /** With variants, replacing the product-level rows changes nothing. */
  lemma TotalStockIgnoresProductRows(p: CardProduct, rows: Option<seq<BranchStock>>)
    requires p.variants != []
    ensures TotalStock(p.(stocks := rows)) == TotalStock(p)
  {
  }

  /** `lowStock`: below the product's minimum, 10 when it has none. */
  predicate LowStock(p: CardProduct) {
    TotalStock(p) < p.stockMinimo.GetOr(10)
  }

  lemma LowStockDefault(p: CardProduct)
    requires p.stockMinimo.None?
    ensures LowStock(p) <==> TotalStock(p) < 10
  {
  }

  /** `ganancia`: the profit on one unit sold at the list price. */
  function Ganancia(p: CardProduct): (r: int)
    ensures r == Price.Ganancia(p.price, p.costo, 1)
  {
    p.price - p.costo
  }

  /** `margen`: the profit as a percentage of the cost (a markup), "0" when
      the cost is not positive. The one-decimal rendering is not modelled. */
  function Margen(p: CardProduct): (r: real)
    ensures p.costo <= 0 ==> r == 0.0
    ensures p.costo > 0 ==> r * p.costo as real == (Ganancia(p) * 100) as real
  {
    if p.costo > 0 then (Ganancia(p) as real / p.costo as real) * 100.0 else 0.0
  }

  lemma MulCancel(m: real, c: real, k: real)
    requires c > 0.0 && m * c == k * c
    ensures m == k
  {
    Price.MulBound(m, c, k);
    Price.MulBound(k, c, m);
  }

  /** A product sold at cost shows a 0 markup; one sold at twice its cost
      shows 100. */
  lemma MargenExamples(p: CardProduct)
    requires p.costo > 0
    ensures p.price == p.costo ==> Margen(p) == 0.0
    ensures p.price == 2 * p.costo ==> Margen(p) == 100.0
  {
    var m, c := Margen(p), p.costo as real;
    if p.price == p.costo {
      assert m * c == 0.0 * c;
      MulCancel(m, c, 0.0);
    }
    if p.price == 2 * p.costo {
      assert Ganancia(p) == p.costo;
      assert (p.costo * 100) as real == 100.0 * c;
      MulCancel(m, c, 100.0);
    }
  }
}
