/** The sales history screen: the five filters over the sales list, the
    product and variant choices offered by the filter boxes, the revenue and
    per-method counts of the filtered sales, the most used method, and the
    count and total of the items of one product variant. */
module SalesHistory {
  import opened Common
  import opened Ledger

  /** A sold line as the screen receives it: the product's name and the
      variant's value when they were loaded. */
  datatype HItem = HItem(productName: Option<string>, variantValue: Option<string>, price: int, quantity: int)

  datatype HSale = HSale(
    id: string,
    userName: Option<string>,
    total: int,
    paymentMethod: PaymentMethod,
    mesa: bool,
    items: seq<HItem>)

  datatype TableFilter = AllTables | WithTable | WithoutTable

  /** The filter boxes. `payment` is `None` for "all"; the product and
      variant boxes hold the text "all" when no choice is made. */
  datatype Filters = Filters(
    searchTerm: string,
    payment: Option<PaymentMethod>,
    product: string,
    variant: string,
    table: TableFilter)

  const All: string := "all"

  /** Every box at "all" and the search empty. */
  const NoFilters: Filters := Filters("", None, All, All, AllTables)

  /* ---------------------------------------------------------------
     filteredSales
     --------------------------------------------------------------- */

  predicate MatchesSearch(s: HSale, searchTerm: string) {
    var q := ToLower(searchTerm);
    Contains(ToLower(s.id), q) || (s.userName.Some? && Contains(ToLower(s.userName.value), q))
  }

  predicate MatchesPayment(s: HSale, payment: Option<PaymentMethod>) {
    payment.None? || s.paymentMethod == payment.value
  }

  predicate MatchesProduct(s: HSale, product: string) {
    product == All || exists i | 0 <= i < |s.items| :: s.items[i].productName == Some(product)
  }

  predicate MatchesVariant(s: HSale, variant: string) {
    variant == All || exists i | 0 <= i < |s.items| :: s.items[i].variantValue == Some(variant)
  }

  predicate MatchesTable(s: HSale, table: TableFilter) {
    match table
    case AllTables => true
    case WithTable => s.mesa
    case WithoutTable => !s.mesa
  }

  predicate Keep(s: HSale, f: Filters) {
    && MatchesSearch(s, f.searchTerm)
    && MatchesPayment(s, f.payment)
    && MatchesProduct(s, f.product)
    && MatchesVariant(s, f.variant)
    && MatchesTable(s, f.table)
  }

  /** `filteredSales`: the sales passing all five filters, in list order. */
  function FilteredSales(sales: seq<HSale>, f: Filters): (r: seq<HSale>)
    ensures forall s :: s in r <==> s in sales && Keep(s, f)
    ensures forall i | 0 <= i < |r| :: Keep(r[i], f)
    ensures IsSubseq(r, sales)
  {
    FilterIsSubseq(sales, s => Keep(s, f));
    Filter(sales, s => Keep(s, f))
  }

  /** With no filter set, every sale is listed, in order. */
  lemma NoFiltersKeepsAll(sales: seq<HSale>)
    ensures FilteredSales(sales, NoFilters) == sales
  {
    assert ToLower("") == "";
    forall i | 0 <= i < |sales| ensures Keep(sales[i], NoFilters) {
      ContainsEmpty(ToLower(sales[i].id));
    }
    FilterAll(sales, s => Keep(s, NoFilters));
  }

  predicate AtTable(s: HSale) {
    s.mesa
  }

  predicate NotAtTable(s: HSale) {
    !s.mesa
  }

  /** Choosing "with table" or "without table" filters what "all tables"
      lists by `p`, the choice's test on `mesa`. */
  lemma TableChoice(sales: seq<HSale>, f: Filters, t: TableFilter, p: HSale -> bool)
    requires forall x :: p(x) == MatchesTable(x, t)
    ensures FilteredSales(sales, f.(table := t)) == Filter(FilteredSales(sales, f.(table := AllTables)), p)
  {
    var all, chosen := f.(table := AllTables), f.(table := t);
    assert FilteredSales(sales, chosen) == Filter(sales, s => Keep(s, chosen));
    assert FilteredSales(sales, all) == Filter(sales, s => Keep(s, all));
    FilterFilter(sales, s => Keep(s, all), p, s => Keep(s, chosen));
  }

  /** The table filter's two choices split what "all tables" lists, and its
      revenue. */
  lemma TableFilterPartitions(sales: seq<HSale>, f: Filters)
    ensures |FilteredSales(sales, f.(table := WithTable))| + |FilteredSales(sales, f.(table := WithoutTable))|
            == |FilteredSales(sales, f.(table := AllTables))|
    ensures Revenue(FilteredSales(sales, f.(table := WithTable))) + Revenue(FilteredSales(sales, f.(table := WithoutTable)))
            == Revenue(FilteredSales(sales, f.(table := AllTables)))
  {
    var base := FilteredSales(sales, f.(table := AllTables));
    TableChoice(sales, f, WithTable, AtTable);
    TableChoice(sales, f, WithoutTable, NotAtTable);
    FilterPartition(base, AtTable, NotAtTable);
    RevenuePartition(base, AtTable, NotAtTable);
  }

  /* ---------------------------------------------------------------
     Totals
     --------------------------------------------------------------- */

  /** `totalRevenue`: the sum of the sales' totals. */
  function Revenue(sales: seq<HSale>): int {
    if sales == [] then 0 else sales[0].total + Revenue(sales[1..])
  }

  /** A predicate and its negation split the revenue between them. */
  lemma {:induction false} RevenuePartition(sales: seq<HSale>, p: HSale -> bool, q: HSale -> bool)
    requires forall x :: q(x) == !p(x)
    ensures Revenue(Filter(sales, p)) + Revenue(Filter(sales, q)) == Revenue(sales)
  {
    if sales != [] {
      RevenuePartition(sales[1..], p, q);
      var fp, fq := Filter(sales, p), Filter(sales, q);
      if p(sales[0]) {
        assert fp[0] == sales[0] && fp[1..] == Filter(sales[1..], p);
        assert fq == Filter(sales[1..], q);
      } else {
        assert fq[0] == sales[0] && fq[1..] == Filter(sales[1..], q);
        assert fp == Filter(sales[1..], p);
      }
    }
  }

  /** The number of sales paid by `m`. */
  function CountMethod(sales: seq<HSale>, m: PaymentMethod): (r: nat)
    ensures r <= |sales|
  {
    if sales == [] then 0
    else CountMethod(sales[..|sales| - 1], m) + (if sales[|sales| - 1].paymentMethod == m then 1 else 0)
  }

  /** Every sale is paid by exactly one of the three methods. */
  lemma {:induction false} MethodCountsSum(sales: seq<HSale>)
    ensures CountMethod(sales, Efectivo) + CountMethod(sales, Tarjeta) + CountMethod(sales, Transferencia) == |sales|
  {
    if sales != [] {
      MethodCountsSum(sales[..|sales| - 1]);
    }
  }

  /** `paymentMethods`: one pass over the filtered sales bumping the counter
      of each sale's method. */
  method PaymentCounts(filtered: seq<HSale>) returns (efectivo: nat, tarjeta: nat, transferencia: nat)
    ensures efectivo == CountMethod(filtered, Efectivo)
    ensures tarjeta == CountMethod(filtered, Tarjeta)
    ensures transferencia == CountMethod(filtered, Transferencia)
    ensures efectivo + tarjeta + transferencia == |filtered|
  {
    efectivo, tarjeta, transferencia := 0, 0, 0;
    var i := 0;
    while i < |filtered|
      invariant 0 <= i <= |filtered|
      invariant efectivo == CountMethod(filtered[..i], Efectivo)
      invariant tarjeta == CountMethod(filtered[..i], Tarjeta)
      invariant transferencia == CountMethod(filtered[..i], Transferencia)
    {
      assert filtered[..i + 1][..i] == filtered[..i];
      if filtered[i].paymentMethod == Efectivo {
        efectivo := efectivo + 1;
      } else if filtered[i].paymentMethod == Tarjeta {
        tarjeta := tarjeta + 1;
      } else {
        transferencia := transferencia + 1;
      }
      i := i + 1;
    }
    assert filtered[..i] == filtered;
    MethodCountsSum(filtered);
  }

  /** "Método Popular": the method with the largest count, cash winning
      every tie and card winning a tie with transfer. */
  function PopularMethod(efectivo: nat, tarjeta: nat, transferencia: nat): (r: PaymentMethod)
    ensures var c := (m: PaymentMethod) => match m case Efectivo => efectivo case Tarjeta => tarjeta case Transferencia => transferencia;
      c(r) >= efectivo && c(r) >= tarjeta && c(r) >= transferencia
    ensures r == Efectivo <==> efectivo >= tarjeta && efectivo >= transferencia
    ensures r == Transferencia ==> transferencia > efectivo && transferencia > tarjeta
  {
    if efectivo >= tarjeta && efectivo >= transferencia then Efectivo
    else if tarjeta >= transferencia then Tarjeta
    else Transferencia
  }

  /* ---------------------------------------------------------------
     Collecting from every item of every sale, in order
     --------------------------------------------------------------- */

  /** The value held, as a list of zero or one elements. */
  function Listed<U>(o: Option<U>): seq<U> {
    if o.Some? then [o.value] else []
  }

  /** The values `pick` yields for `items`, in order. */
  function ItemPicks<U>(items: seq<HItem>, pick: HItem -> Option<U>): seq<U> {
    if items == [] then [] else ItemPicks(items[..|items| - 1], pick) + Listed(pick(items[|items| - 1]))
  }

  /** The values `pick` yields for every item of every sale, in order. */
  function Collected<U>(sales: seq<HSale>, pick: HItem -> Option<U>): seq<U> {
    if sales == [] then [] else Collected(sales[..|sales| - 1], pick) + ItemPicks(sales[|sales| - 1].items, pick)
  }

  lemma {:induction false} ItemPicksIn<U>(items: seq<HItem>, pick: HItem -> Option<U>, v: U)
    ensures v in ItemPicks(items, pick) <==> exists j | 0 <= j < |items| :: pick(items[j]) == Some(v)
  {
    if items != [] {
      var init := items[..|items| - 1];
      ItemPicksIn(init, pick, v);
      assert forall j | 0 <= j < |init| :: init[j] == items[j];
    }
  }

  lemma {:induction false} CollectedIn<U>(sales: seq<HSale>, pick: HItem -> Option<U>, v: U)
    ensures v in Collected(sales, pick) <==>
      exists i, j | 0 <= i < |sales| && 0 <= j < |sales[i].items| :: pick(sales[i].items[j]) == Some(v)
  {
    if sales != [] {
      var init := sales[..|sales| - 1];
      CollectedIn(init, pick, v);
      ItemPicksIn(sales[|sales| - 1].items, pick, v);
      assert forall i | 0 <= i < |init| :: init[i] == sales[i];
    }
  }

  /** What has been picked grows by the next item's pick. */
  lemma PickStep<U>(prefix: seq<U>, items: seq<HItem>, j: nat, pick: HItem -> Option<U>)
    requires j < |items|
    ensures prefix + ItemPicks(items[..j + 1], pick) == (prefix + ItemPicks(items[..j], pick)) + Listed(pick(items[j]))
  {
    assert items[..j + 1][..j] == items[..j];
  }

  /** `Collected` one sale further. */
  lemma CollectedStep<U>(sales: seq<HSale>, i: nat, pick: HItem -> Option<U>)
    requires i < |sales|
    ensures Collected(sales[..i + 1], pick) == Collected(sales[..i], pick) + ItemPicks(sales[i].items[..|sales[i].items|], pick)
  {
    assert sales[..i + 1][..i] == sales[..i];
    assert sales[i].items[..|sales[i].items|] == sales[i].items;
  }

  lemma NoPicksYet<U>(prefix: seq<U>, items: seq<HItem>, pick: HItem -> Option<U>)
    ensures prefix + ItemPicks(items[..0], pick) == prefix
  {
    assert items[..0] == [];
  }

  /** Adding a value to a `Set` and then listing it. */
  lemma DedupSnoc<T(!new)>(s: seq<T>, o: Option<T>)
    ensures Dedup(s + Listed(o)) == if o.Some? && o.value !in Dedup(s) then Dedup(s) + [o.value] else Dedup(s)
  {
    if o.Some? {
      assert (s + [o.value])[..|s|] == s;
    } else {
      assert s + [] == s;
    }
  }

  /** Two `forEach` loops adding every picked value to a `Set`, then
      `Array.from`: each distinct value once, in order of first pick. */
  method CollectDistinct(sales: seq<HSale>, pick: HItem -> Option<string>) returns (values: seq<string>)
    ensures values == Dedup(Collected(sales, pick))
  {
    values := [];
    var i := 0;
    while i < |sales|
      invariant 0 <= i <= |sales|
      invariant values == Dedup(Collected(sales[..i], pick))
    {
      var items := sales[i].items;
      ghost var before := Collected(sales[..i], pick);
      ghost var seen := before;
      NoPicksYet(before, items, pick);
      var j := 0;
      while j < |items|
        invariant 0 <= j <= |items|
        invariant seen == before + ItemPicks(items[..j], pick)
        invariant values == Dedup(seen)
      {
        var v := pick(items[j]);
        PickStep(before, items, j, pick);
        DedupSnoc(seen, v);
        if v.Some? && v.value !in values {
          values := values + [v.value];
        }
        seen := seen + Listed(v);
        j := j + 1;
      }
      CollectedStep(sales, i, pick);
      i := i + 1;
    }
    assert sales[..i] == sales;
  }

  /** The product names worth listing: present and not empty. */
  function ProductPick(it: HItem): Option<string> {
    if it.productName.Some? && it.productName.value != "" then it.productName else None
  }

  /** The variant values worth listing for `product`. */
  function VariantPick(it: HItem, product: string): Option<string> {
    if it.productName == Some(product) && it.variantValue.Some? && it.variantValue.value != "" then it.variantValue else None
  }

  /** `availableProducts`: each non-empty product name sold, once. */
  method AvailableProducts(sales: seq<HSale>) returns (names: seq<string>)
    ensures NoDuplicates(names)
    ensures forall n :: n in names <==>
      n != "" && exists i, j | 0 <= i < |sales| && 0 <= j < |sales[i].items| :: sales[i].items[j].productName == Some(n)
  {
    names := CollectDistinct(sales, ProductPick);
    forall n ensures n in names <==>
      n != "" && exists i, j | 0 <= i < |sales| && 0 <= j < |sales[i].items| :: sales[i].items[j].productName == Some(n)
    {
      CollectedIn(sales, ProductPick, n);
    }
  }

  /** `availableVariants`: nothing while no product is chosen; otherwise
      each non-empty variant value sold with that product, once. */
  method AvailableVariants(sales: seq<HSale>, product: string) returns (values: seq<string>)
    ensures product == All ==> values == []
    ensures NoDuplicates(values)
    ensures product != All ==> forall v :: v in values <==>
      v != "" && exists i, j | 0 <= i < |sales| && 0 <= j < |sales[i].items| ::
        sales[i].items[j].productName == Some(product) && sales[i].items[j].variantValue == Some(v)
  {
    if product == All {
      return [];
    }
    var pick := (it: HItem) => VariantPick(it, product);
    values := CollectDistinct(sales, pick);
    forall v ensures v in values <==>
      v != "" && exists i, j | 0 <= i < |sales| && 0 <= j < |sales[i].items| ::
        sales[i].items[j].productName == Some(product) && sales[i].items[j].variantValue == Some(v)
    {
      CollectedIn(sales, pick, v);
    }
  }

  /* ---------------------------------------------------------------
     variantStats
     --------------------------------------------------------------- */

  datatype VariantStats = VariantStats(count: nat, total: int)

  /** The item as picked when it is of `product` in `variant`. */
  function MatchPick(it: HItem, product: string, variant: string): Option<HItem> {
    if it.productName == Some(product) && it.variantValue == Some(variant) then Some(it) else None
  }

  /** The items of the filtered sales that are of `product` in `variant`. */
  function MatchingItems(filtered: seq<HSale>, product: string, variant: string): seq<HItem> {
    Collected(filtered, (it: HItem) => MatchPick(it, product, variant))
  }

  /** `Σ price × quantity`. */
  function LineTotal(items: seq<HItem>): int {
    if items == [] then 0 else LineTotal(items[..|items| - 1]) + items[|items| - 1].price * items[|items| - 1].quantity
  }

  lemma LineTotalSnoc(items: seq<HItem>, it: HItem)
    ensures LineTotal(items + [it]) == LineTotal(items) + it.price * it.quantity
  {
    assert (items + [it])[..|items|] == items;
  }

  /** One more item counted, or none. */
  lemma StatsStep(seen: seq<HItem>, v: Option<HItem>)
    ensures |seen + Listed(v)| == |seen| + (if v.Some? then 1 else 0)
    ensures LineTotal(seen + Listed(v)) == LineTotal(seen) + (if v.Some? then v.value.price * v.value.quantity else 0)
  {
    if v.Some? {
      LineTotalSnoc(seen, v.value);
    } else {
      assert seen + [] == seen;
    }
  }

  /** Every item counted is of the chosen product and variant and comes from
      a filtered sale, and every such item is counted. */
  lemma MatchingItemsExact(filtered: seq<HSale>, product: string, variant: string, it: HItem)
    ensures it in MatchingItems(filtered, product, variant) <==>
      it.productName == Some(product) && it.variantValue == Some(variant) &&
      exists i, j | 0 <= i < |filtered| && 0 <= j < |filtered[i].items| :: filtered[i].items[j] == it
  {
    CollectedIn(filtered, (x: HItem) => MatchPick(x, product, variant), it);
  }

  /** The two nested loops of `variantStats`: the number of items picked
      and their `Σ price × quantity`. */
  method TallyPicks(sales: seq<HSale>, pick: HItem -> Option<HItem>) returns (count: nat, total: int)
    ensures count == |Collected(sales, pick)|
    ensures total == LineTotal(Collected(sales, pick))
  {
    count, total := 0, 0;
    var i := 0;
    while i < |sales|
      invariant 0 <= i <= |sales|
      invariant count == |Collected(sales[..i], pick)| && total == LineTotal(Collected(sales[..i], pick))
    {
      var items := sales[i].items;
      ghost var before := Collected(sales[..i], pick);
      ghost var seen := before;
      NoPicksYet(before, items, pick);
      var j := 0;
      while j < |items|
        invariant 0 <= j <= |items|
        invariant seen == before + ItemPicks(items[..j], pick)
        invariant count == |seen| && total == LineTotal(seen)
      {
        PickStep(before, items, j, pick);
        var v := pick(items[j]);
        StatsStep(seen, v);
        if v.Some? {
          count := count + 1;
          total := total + v.value.price * v.value.quantity;
        }
        seen := seen + Listed(v);
        j := j + 1;
      }
      CollectedStep(sales, i, pick);
      i := i + 1;
    }
    assert sales[..i] == sales;
  }

  /** `variantStats`: nothing unless a product and a variant are chosen;
      otherwise the number of matching items of the filtered sales and their
      `Σ price × quantity`, from two nested loops. */
  method ComputeVariantStats(filtered: seq<HSale>, product: string, variant: string) returns (stats: Option<VariantStats>)
    ensures stats.None? <==> variant == All || product == All
    ensures stats.Some? ==>
      stats.value.count == |MatchingItems(filtered, product, variant)| &&
      stats.value.total == LineTotal(MatchingItems(filtered, product, variant))
  {
    if variant == All || product == All {
      return None;
    }
    var count, total := TallyPicks(filtered, (it: HItem) => MatchPick(it, product, variant));
    stats := Some(VariantStats(count, total));
  }
}
