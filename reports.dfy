/** The reports screen: total revenue and estimated profit, the average
    margin, the low-stock list, and three rankings — products and categories
    grouped from the sale lines, sellers grouped from the sales — each built
    in a `Map` keyed by id or name and then sorted by revenue. */
module Reports {
  import opened Common
  import Price

  /** One sale line with the product and category it points to; a missing
      cost is `None`. */
  datatype RItem = RItem(
    quantity: int,
    price: int,
    subtotal: int,
    productId: string,
    productName: string,
    costo: Option<int>,
    categoryName: string,
    categoryColor: string)

  datatype RSale = RSale(id: string, total: int, userId: string, userName: string, items: seq<RItem>)

  datatype RProduct = RProduct(id: string, name: string, price: int, costo: Option<int>, stock: int)

  /* ---------------------------------------------------------------
     Sums
     --------------------------------------------------------------- */

  /** `rs.reduce((acc, r) => acc + f(r), 0)`. */
  function SumOf<R>(rs: seq<R>, f: R -> int): int {
    if rs == [] then 0 else SumOf(rs[..|rs| - 1], f) + f(rs[|rs| - 1])
  }

  lemma {:induction false} SumOfConcat<R>(a: seq<R>, b: seq<R>, f: R -> int)
    ensures SumOf(a + b, f) == SumOf(a, f) + SumOf(b, f)
    decreases |b|
  {
    if b == [] {
      assert a + b == a;
    } else {
      assert (a + b)[..|a + b| - 1] == a + b[..|b| - 1];
      SumOfConcat(a, b[..|b| - 1], f);
    }
  }

  /** Taking `x` out of the middle of a list. */
  lemma SumOfMiddle<R>(front: seq<R>, x: R, back: seq<R>, f: R -> int)
    ensures SumOf(front + [x] + back, f) == SumOf(front + back, f) + f(x)
  {
    SumOfConcat(front, [x], f);
    SumOfConcat(front + [x], back, f);
    SumOfConcat(front, back, f);
  }

  /** Removing the last element of `a` and one equal element of `b` keeps
      the two lists permutations of each other. */
  lemma MultisetRemove<R>(a: seq<R>, b: seq<R>, p: nat)
    requires a != [] && p < |b| && b[p] == a[|a| - 1]
    requires multiset(a) == multiset(b)
    ensures multiset(a[..|a| - 1]) == multiset(b[..p] + b[p + 1..])
  {
    var init, x, front, back := a[..|a| - 1], a[|a| - 1], b[..p], b[p + 1..];
    assert a == init + [x];
    assert b == front + [x] + back;
    forall y ensures multiset(init)[y] == multiset(front + back)[y] {
      assert multiset(a)[y] == multiset(init)[y] + multiset([x])[y];
      assert multiset(b)[y] == multiset(front)[y] + multiset([x])[y] + multiset(back)[y];
    }
  }

  /** The order of the summands does not matter. */
  lemma {:induction false} SumOfPermutation<R>(a: seq<R>, b: seq<R>, f: R -> int)
    requires multiset(a) == multiset(b)
    ensures SumOf(a, f) == SumOf(b, f)
    decreases |a|
  {
    if a != [] {
      var x := a[|a| - 1];
      assert x in multiset(b) by {
        assert x in multiset(a);
      }
      var p :| 0 <= p < |b| && b[p] == x;
      MultisetRemove(a, b, p);
      SumOfPermutation(a[..|a| - 1], b[..p] + b[p + 1..], f);
      assert b == b[..p] + [x] + b[p + 1..];
      SumOfMiddle(b[..p], x, b[p + 1..], f);
    }
  }

  lemma {:induction false} SumOfNonNegative<R>(rs: seq<R>, f: R -> int)
    requires forall i | 0 <= i < |rs| :: f(rs[i]) >= 0
    ensures SumOf(rs, f) >= 0
  {
    if rs != [] {
      SumOfNonNegative(rs[..|rs| - 1], f);
    }
  }

  /** The sum of `f` over the elements whose key is `k`. */
  function SumWhere<R>(rs: seq<R>, key: R -> string, k: string, f: R -> int): int {
    if rs == [] then 0
    else SumWhere(rs[..|rs| - 1], key, k, f) + (if key(rs[|rs| - 1]) == k then f(rs[|rs| - 1]) else 0)
  }

  /** Each element's key, in order. */
  function KeysOf<R>(rs: seq<R>, key: R -> string): (r: seq<string>)
    ensures |r| == |rs|
    ensures forall i | 0 <= i < |rs| :: r[i] == key(rs[i])
  {
    if rs == [] then [] else KeysOf(rs[..|rs| - 1], key) + [key(rs[|rs| - 1])]
  }

  lemma {:induction false} SumWhereAbsent<R>(rs: seq<R>, key: R -> string, k: string, f: R -> int)
    requires k !in KeysOf(rs, key)
    ensures SumWhere(rs, key, k, f) == 0
  {
    if rs != [] {
      var init := rs[..|rs| - 1];
      assert KeysOf(rs, key) == KeysOf(init, key) + [key(rs[|rs| - 1])];
      SumWhereAbsent(init, key, k, f);
    }
  }

  /* ---------------------------------------------------------------
     Totals
     --------------------------------------------------------------- */

  function SaleTotal(s: RSale): int {
    s.total
  }

  /** `totalRevenue`: the sum of the sale totals. */
  function TotalRevenue(sales: seq<RSale>): int {
    SumOf(sales, SaleTotal)
  }

  /** `calcularGanancia(price, costo ?? 0, quantity)` for one line. */
  function LineProfit(it: RItem): int {
    Price.Ganancia(it.price, it.costo.GetOr(0), it.quantity)
  }

  function SaleProfit(s: RSale): int {
    SumOf(s.items, LineProfit)
  }

  /** `totalProfit`: per sale the sum of its lines' profit, then the sum of
      those. */
  function TotalProfit(sales: seq<RSale>): int {
    SumOf(sales, SaleProfit)
  }

  /** Every sale's lines, one sale after the other. */
  function Lines(sales: seq<RSale>): seq<RItem> {
    if sales == [] then [] else Lines(sales[..|sales| - 1]) + sales[|sales| - 1].items
  }

  /** The nested reduce is the sum, over every line of every sale, of
      (price − cost) × quantity with a missing cost taken as 0. */
  lemma {:induction false} TotalProfitOverLines(sales: seq<RSale>)
    ensures TotalProfit(sales) == SumOf(Lines(sales), LineProfit)
  {
    if sales != [] {
      var init := sales[..|sales| - 1];
      TotalProfitOverLines(init);
      SumOfConcat(Lines(init), sales[|sales| - 1].items, LineProfit);
    }
  }

  /** No line sold below its cost makes the total profit negative. */
  lemma ProfitNonNegative(sales: seq<RSale>)
    requires forall it | it in Lines(sales) :: it.price >= it.costo.GetOr(0) && it.quantity >= 0
    ensures TotalProfit(sales) >= 0
  {
    TotalProfitOverLines(sales);
    var lines := Lines(sales);
    assert forall i | 0 <= i < |lines| :: LineProfit(lines[i]) >= 0 by {
      forall i | 0 <= i < |lines| ensures LineProfit(lines[i]) >= 0 {
        assert lines[i] in lines;
      }
    }
    SumOfNonNegative(lines, LineProfit);
  }

  /** `avgMarginPct`: 0 without revenue, otherwise the margin of the revenue
      over the cost it implies (revenue − profit), that is the profit as a
      percentage of the revenue. */
  function AvgMarginPct(totalRevenue: int, totalProfit: int): (r: real)
    ensures totalRevenue == 0 ==> r == 0.0
    ensures totalRevenue < 0 ==> r == 0.0
    ensures totalRevenue > 0 ==> r * totalRevenue as real == (totalProfit * 100) as real
  {
    if totalRevenue == 0 then 0.0 else Price.Margen(totalRevenue, totalRevenue - totalProfit)
  }

  /** A profit between nothing and the whole revenue gives a margin between
      0 and 100. */
  lemma AvgMarginBounds(totalRevenue: int, totalProfit: int)
    requires totalRevenue > 0 && 0 <= totalProfit <= totalRevenue
    ensures 0.0 <= AvgMarginPct(totalRevenue, totalProfit) <= 100.0
  {
    Price.MargenBounds(totalRevenue, totalRevenue - totalProfit);
  }

  predicate IsLowStock(p: RProduct) {
    p.stock < 10
  }

  /** `lowStockProducts`: exactly the products with fewer than 10 units, in
      list order. */
  function LowStockProducts(products: seq<RProduct>): (r: seq<RProduct>)
    ensures forall p :: p in r <==> p in products && p.stock < 10
    ensures IsSubseq(r, products)
  {
    FilterIsSubseq(products, IsLowStock);
    Filter(products, IsLowStock)
  }

  /* ---------------------------------------------------------------
     Grouping in a Map
     --------------------------------------------------------------- */

  /** A JavaScript `Map` with string keys: the keys in insertion order and
      the entry of each. */
  datatype Table<E> = Table(keys: seq<string>, m: map<string, E>)

  /** `Array.from(map.values())`: the entries in key insertion order. */
  function Values<E>(t: Table<E>): seq<E> {
    ValuesOf(t.keys, t.m)
  }

  /** The entries of `keys` that `m` holds, in the order of `keys`. */
  function ValuesOf<E>(keys: seq<string>, m: map<string, E>): seq<E> {
    if keys == [] then []
    else ValuesOf(keys[..|keys| - 1], m) + (if keys[|keys| - 1] in m then [m[keys[|keys| - 1]]] else [])
  }

  /** One record folded in: the entry of its key is bumped when there is
      one, otherwise a new entry is set, which appends the key. */
  function GroupStep<R, E>(t: Table<E>, r: R, key: R -> string, create: R -> E, bump: (E, R) -> E): Table<E> {
    var k := key(r);
    if k in t.m then Table(t.keys, t.m[k := bump(t.m[k], r)])
    else Table(t.keys + [k], t.m[k := create(r)])
  }

  /** The `forEach` that fills the map, record by record: one entry per
      distinct key, the keys in the order they first occur. */
  function Group<R, E>(rs: seq<R>, key: R -> string, create: R -> E, bump: (E, R) -> E): (t: Table<E>)
  {
    if rs == [] then Table([], map[])
    else
      assert KeysOf(rs, key)[..|rs| - 1] == KeysOf(rs[..|rs| - 1], key);
      GroupStep(Group(rs[..|rs| - 1], key, create, bump), rs[|rs| - 1], key, create, bump)
  }

  lemma GroupSnoc<R, E>(rs: seq<R>, r: R, key: R -> string, create: R -> E, bump: (E, R) -> E)
    ensures Group(rs + [r], key, create, bump) == GroupStep(Group(rs, key, create, bump), r, key, create, bump)
  {
    assert (rs + [r])[..|rs|] == rs;
  }

  /** One entry per distinct key, the keys in the order they first occur,
      and an entry for every key listed. */
  lemma {:induction false} GroupKeys<R, E>(rs: seq<R>, key: R -> string, create: R -> E, bump: (E, R) -> E)
    ensures Group(rs, key, create, bump).keys == Dedup(KeysOf(rs, key))
    ensures forall k :: k in Group(rs, key, create, bump).m <==> k in Group(rs, key, create, bump).keys
  {
    if rs != [] {
      var init := rs[..|rs| - 1];
      GroupKeys(init, key, create, bump);
      assert KeysOf(rs, key)[..|rs| - 1] == KeysOf(init, key);
    }
  }

  /** With an entry for every key, the values are those entries, one per key. */
  lemma {:induction false} ValuesOfAll<E>(keys: seq<string>, m: map<string, E>)
    requires forall k | k in keys :: k in m
    ensures |ValuesOf(keys, m)| == |keys|
    ensures forall i | 0 <= i < |keys| :: ValuesOf(keys, m)[i] == m[keys[i]]
  {
    if keys != [] {
      ValuesOfAll(keys[..|keys| - 1], m);
    }
  }

  /** Setting a key not listed leaves the values as they are. */
  lemma {:induction false} ValuesOfUnlisted<E>(keys: seq<string>, m: map<string, E>, k: string, e: E)
    requires k !in keys
    ensures ValuesOf(keys, m[k := e]) == ValuesOf(keys, m)
  {
    if keys != [] {
      ValuesOfUnlisted(keys[..|keys| - 1], m, k, e);
    }
  }

  /** A new key and its entry come last. */
  lemma ValuesOfAppend<E>(keys: seq<string>, m: map<string, E>, k: string, e: E)
    requires k !in keys
    ensures ValuesOf(keys + [k], m[k := e]) == ValuesOf(keys, m) + [e]
  {
    assert (keys + [k])[..|keys|] == keys;
    ValuesOfUnlisted(keys, m, k, e);
  }

  /** Replacing the entry of a listed key changes the sum of `fe` over the
      values by the difference. */
  lemma {:induction false} SumValuesUpdate<E>(keys: seq<string>, m: map<string, E>, k: string, e: E, fe: E -> int)
    requires NoDuplicates(keys) && k in keys && k in m
    ensures SumOf(ValuesOf(keys, m[k := e]), fe) == SumOf(ValuesOf(keys, m), fe) - fe(m[k]) + fe(e)
  {
    var init, last := keys[..|keys| - 1], keys[|keys| - 1];
    assert keys == init + [last];
    var tail := if last in m then [m[last]] else [];
    var tail' := if last in m[k := e] then [m[k := e][last]] else [];
    SumOfConcat(ValuesOf(init, m), tail, fe);
    SumOfConcat(ValuesOf(init, m[k := e]), tail', fe);
    if last == k {
      assert k !in init;
      ValuesOfUnlisted(init, m, k, e);
    } else {
      assert tail' == tail;
      assert k in init;
      SumValuesUpdate(init, m, k, e, fe);
    }
  }

  /** A field that a new entry takes from its record and that bumping
      increases by the record's amount sums that amount per key. */
  lemma {:induction false} GroupSum<R, E>(rs: seq<R>, key: R -> string, create: R -> E, bump: (E, R) -> E,
                                          fe: E -> int, fr: R -> int)
    requires forall r :: fe(create(r)) == fr(r)
    requires forall e, r :: fe(bump(e, r)) == fe(e) + fr(r)
    ensures forall k | k in Group(rs, key, create, bump).m :: fe(Group(rs, key, create, bump).m[k]) == SumWhere(rs, key, k, fr)
  {
    if rs != [] {
      var init, r := rs[..|rs| - 1], rs[|rs| - 1];
      GroupSum(init, key, create, bump, fe, fr);
      var t := Group(init, key, create, bump);
      var t' := GroupStep(t, r, key, create, bump);
      assert Group(rs, key, create, bump) == t';
      forall k | k in t'.m ensures fe(t'.m[k]) == SumWhere(rs, key, k, fr) {
        assert SumWhere(rs, key, k, fr) == SumWhere(init, key, k, fr) + (if key(r) == k then fr(r) else 0);
        if k == key(r) {
          if k in t.m {
            assert fe(bump(t.m[k], r)) == fe(t.m[k]) + fr(r);
          } else {
            GroupKeys(init, key, create, bump);
            assert k !in KeysOf(init, key);
            SumWhereAbsent(init, key, k, fr);
          }
        }
      }
    }
  }

  /** A field that a new entry sets to its key and bumping keeps is the
      entry's key. */
  lemma {:induction false} GroupLabel<R, E>(rs: seq<R>, key: R -> string, create: R -> E, bump: (E, R) -> E,
                                            tag: E -> string)
    requires forall r :: tag(create(r)) == key(r)
    requires forall e, r :: tag(bump(e, r)) == tag(e)
    ensures forall k | k in Group(rs, key, create, bump).m :: tag(Group(rs, key, create, bump).m[k]) == k
  {
    if rs != [] {
      var init, r := rs[..|rs| - 1], rs[|rs| - 1];
      GroupLabel(init, key, create, bump, tag);
      var t := Group(init, key, create, bump);
      var t' := GroupStep(t, r, key, create, bump);
      assert Group(rs, key, create, bump) == t';
      forall k | k in t'.m ensures tag(t'.m[k]) == k {
        if k == key(r) && k in t.m {
          assert tag(bump(t.m[k], r)) == tag(t.m[k]);
        }
      }
    }
  }

  /** Summed over the map's values, such a field gives the amount summed
      over every record. */
  lemma {:induction false} GroupTotal<R, E>(rs: seq<R>, key: R -> string, create: R -> E, bump: (E, R) -> E,
                                            fe: E -> int, fr: R -> int)
    requires forall r :: fe(create(r)) == fr(r)
    requires forall e, r :: fe(bump(e, r)) == fe(e) + fr(r)
    ensures SumOf(Values(Group(rs, key, create, bump)), fe) == SumOf(rs, fr)
  {
    if rs != [] {
      var init, r := rs[..|rs| - 1], rs[|rs| - 1];
      GroupTotal(init, key, create, bump, fe, fr);
      var t := Group(init, key, create, bump);
      var t' := GroupStep(t, r, key, create, bump);
      assert Group(rs, key, create, bump) == t';
      var k := key(r);
      assert SumOf(rs, fr) == SumOf(init, fr) + fr(r);
      GroupKeys(init, key, create, bump);
      if k in t.m {
        SumValuesUpdate(t.keys, t.m, k, bump(t.m[k], r), fe);
        assert fe(bump(t.m[k], r)) == fe(t.m[k]) + fr(r);
      } else {
        ValuesOfAppend(t.keys, t.m, k, create(r));
        SumOfConcat(Values(t), [create(r)], fe);
        assert fe(create(r)) == fr(r);
      }
    }
  }

  /** Every element after the first n of a descending sort is no larger
      than any of the first n; together they are the whole list. */
  lemma TopOfSorted<T>(s: seq<T>, key: T -> int, n: nat)
    requires SortedDesc(s, key)
    ensures multiset(Take(s, n)) <= multiset(s)
    ensures |s| <= n ==> Take(s, n) == s
    ensures forall x, y | x in Take(s, n) && y in multiset(s) - multiset(Take(s, n)) :: key(x) >= key(y)
  {
    if |s| > n {
      assert s == s[..n] + s[n..];
      assert multiset(s) - multiset(s[..n]) == multiset(s[n..]);
      forall x, y | x in s[..n] && y in multiset(s[n..]) ensures key(x) >= key(y) {
        var i :| 0 <= i < n && s[i] == x;
        var j :| 0 <= j < |s[n..]| && s[n..][j] == y;
        assert s[n + j] == y;
      }
    }
  }

  /* ---------------------------------------------------------------
     Top products
     --------------------------------------------------------------- */

  datatype ProductEntry = ProductEntry(name: string, quantity: int, revenue: int, profit: int)

  function ProductKey(it: RItem): string {
    it.productId
  }

  function NewProduct(it: RItem): ProductEntry {
    ProductEntry(it.productName, it.quantity, it.subtotal, LineProfit(it))
  }

  function AddToProduct(e: ProductEntry, it: RItem): ProductEntry {
    e.(quantity := e.quantity + it.quantity, revenue := e.revenue + it.subtotal, profit := e.profit + LineProfit(it))
  }

  function ProductTable(lines: seq<RItem>): Table<ProductEntry> {
    Group(lines, ProductKey, NewProduct, AddToProduct)
  }

  function LineQuantity(it: RItem): int { it.quantity }
  function LineSubtotal(it: RItem): int { it.subtotal }
  function ProductQuantity(e: ProductEntry): int { e.quantity }
  function ProductRevenue(e: ProductEntry): int { e.revenue }
  function ProductProfit(e: ProductEntry): int { e.profit }

  /** `before` followed by the first `j` items, one item further. */
  lemma LinesPrefixStep(before: seq<RItem>, items: seq<RItem>, j: nat)
    requires j < |items|
    ensures before + items[..j + 1] == (before + items[..j]) + [items[j]]
  {
    assert items[..j + 1] == items[..j] + [items[j]];
  }

  lemma LinesStep(sales: seq<RSale>, i: nat)
    requires i < |sales|
    ensures Lines(sales[..i + 1]) == Lines(sales[..i]) + sales[i].items[..|sales[i].items|]
  {
    assert sales[..i + 1][..i] == sales[..i];
    assert sales[i].items[..|sales[i].items|] == sales[i].items;
  }

  lemma NoLinesYet(before: seq<RItem>, items: seq<RItem>)
    ensures before + items[..0] == before
  {
    assert items[..0] == [];
  }

  /** The grouping step for one line, written out as the loop performs it. */
  lemma ProductStep(t: Table<ProductEntry>, it: RItem)
    ensures GroupStep(t, it, ProductKey, NewProduct, AddToProduct) ==
      if it.productId in t.m then
        Table(t.keys, t.m[it.productId := t.m[it.productId].(
          quantity := t.m[it.productId].quantity + it.quantity,
          revenue := t.m[it.productId].revenue + it.subtotal,
          profit := t.m[it.productId].profit + LineProfit(it))])
      else
        Table(t.keys + [it.productId], t.m[it.productId :=
          ProductEntry(it.productName, it.quantity, it.subtotal, LineProfit(it))])
  {
  }

  /** `topProducts`: the lines of every sale grouped by product id, sorted by
      revenue, the first five kept. */
  method TopProducts(sales: seq<RSale>) returns (top: seq<ProductEntry>)
    ensures top == Take(SortDesc(Values(ProductTable(Lines(sales))), ProductRevenue), 5)
  {
    var table: Table<ProductEntry> := Table([], map[]);
    var i := 0;
    while i < |sales|
      invariant 0 <= i <= |sales|
      invariant table == ProductTable(Lines(sales[..i]))
    {
      var items := sales[i].items;
      ghost var before := Lines(sales[..i]);
      NoLinesYet(before, items);
      var j := 0;
      while j < |items|
        invariant 0 <= j <= |items|
        invariant table == ProductTable(before + items[..j])
      {
        var it := items[j];
        ghost var prev := table;
        GroupSnoc(before + items[..j], it, ProductKey, NewProduct, AddToProduct);
        LinesPrefixStep(before, items, j);
        if it.productId in table.m {
          var existing := table.m[it.productId];
          table := Table(table.keys, table.m[it.productId := existing.(
            quantity := existing.quantity + it.quantity,
            revenue := existing.revenue + it.subtotal,
            profit := existing.profit + LineProfit(it))]);
        } else {
          table := Table(table.keys + [it.productId], table.m[it.productId :=
            ProductEntry(it.productName, it.quantity, it.subtotal, LineProfit(it))]);
        }
        ProductStep(prev, it);
        j := j + 1;
      }
      LinesStep(sales, i);
      i := i + 1;
    }
    assert sales[..i] == sales;
    top := Take(SortDesc(Values(table), ProductRevenue), 5);
  }

  /** One entry per distinct product id of the lines, in order of first
      sale; each entry's quantity, revenue and profit are the sums over that
      product's lines. */
  lemma ProductGrouping(lines: seq<RItem>)
    ensures ProductTable(lines).keys == Dedup(KeysOf(lines, ProductKey))
    ensures |Values(ProductTable(lines))| == |Dedup(KeysOf(lines, ProductKey))|
    ensures forall k | k in ProductTable(lines).m ::
      && ProductTable(lines).m[k].quantity == SumWhere(lines, ProductKey, k, LineQuantity)
      && ProductTable(lines).m[k].revenue == SumWhere(lines, ProductKey, k, LineSubtotal)
      && ProductTable(lines).m[k].profit == SumWhere(lines, ProductKey, k, LineProfit)
  {
    GroupKeys(lines, ProductKey, NewProduct, AddToProduct);
    ValuesOfAll(ProductTable(lines).keys, ProductTable(lines).m);
    GroupSum(lines, ProductKey, NewProduct, AddToProduct, ProductQuantity, LineQuantity);
    GroupSum(lines, ProductKey, NewProduct, AddToProduct, ProductRevenue, LineSubtotal);
    GroupSum(lines, ProductKey, NewProduct, AddToProduct, ProductProfit, LineProfit);
  }

  /** At most five entries, by non-increasing revenue, drawn from the
      grouped products, and none left out sold more than one kept. */
  lemma TopProductsShape(sales: seq<RSale>)
    ensures var all := Values(ProductTable(Lines(sales)));
      var top := Take(SortDesc(all, ProductRevenue), 5);
      && |top| <= 5
      && SortedDesc(top, ProductRevenue)
      && multiset(top) <= multiset(all)
      && (|all| <= 5 ==> multiset(top) == multiset(all))
      && forall x, y | x in top && y in multiset(all) - multiset(top) :: x.revenue >= y.revenue
  {
    var all := Values(ProductTable(Lines(sales)));
    var sorted := SortDesc(all, ProductRevenue);
    TopSorted(sorted, ProductRevenue, 5);
    TopOfSorted(sorted, ProductRevenue, 5);
  }

  /* ---------------------------------------------------------------
     Sales by category
     --------------------------------------------------------------- */

  datatype CategoryEntry = CategoryEntry(name: string, color: string, revenue: int, profit: int)

  function CategoryKey(it: RItem): string {
    it.categoryName
  }

  function NewCategory(it: RItem): CategoryEntry {
    CategoryEntry(it.categoryName, it.categoryColor, it.subtotal, LineProfit(it))
  }

  function AddToCategory(e: CategoryEntry, it: RItem): CategoryEntry {
    e.(revenue := e.revenue + it.subtotal, profit := e.profit + LineProfit(it))
  }

  function CategoryTable(lines: seq<RItem>): Table<CategoryEntry> {
    Group(lines, CategoryKey, NewCategory, AddToCategory)
  }

  function CategoryName(e: CategoryEntry): string { e.name }
  function CategoryRevenue(e: CategoryEntry): int { e.revenue }
  function CategoryProfit(e: CategoryEntry): int { e.profit }

  /** The grouping step for one line, written out as the loop performs it. */
  lemma CategoryStep(t: Table<CategoryEntry>, it: RItem)
    ensures GroupStep(t, it, CategoryKey, NewCategory, AddToCategory) ==
      if it.categoryName in t.m then
        Table(t.keys, t.m[it.categoryName := t.m[it.categoryName].(
          revenue := t.m[it.categoryName].revenue + it.subtotal,
          profit := t.m[it.categoryName].profit + LineProfit(it))])
      else
        Table(t.keys + [it.categoryName], t.m[it.categoryName :=
          CategoryEntry(it.categoryName, it.categoryColor, it.subtotal, LineProfit(it))])
  {
  }

  /** `salesByCategory`: the lines of every sale grouped by category name,
      sorted by revenue. */
  method SalesByCategory(sales: seq<RSale>) returns (ranking: seq<CategoryEntry>)
    ensures ranking == SortDesc(Values(CategoryTable(Lines(sales))), CategoryRevenue)
  {
    var table: Table<CategoryEntry> := Table([], map[]);
    var i := 0;
    while i < |sales|
      invariant 0 <= i <= |sales|
      invariant table == CategoryTable(Lines(sales[..i]))
    {
      var items := sales[i].items;
      ghost var before := Lines(sales[..i]);
      NoLinesYet(before, items);
      var j := 0;
      while j < |items|
        invariant 0 <= j <= |items|
        invariant table == CategoryTable(before + items[..j])
      {
        var it := items[j];
        ghost var prev := table;
        GroupSnoc(before + items[..j], it, CategoryKey, NewCategory, AddToCategory);
        LinesPrefixStep(before, items, j);
        if it.categoryName in table.m {
          var existing := table.m[it.categoryName];
          table := Table(table.keys, table.m[it.categoryName := existing.(
            revenue := existing.revenue + it.subtotal,
            profit := existing.profit + LineProfit(it))]);
        } else {
          table := Table(table.keys + [it.categoryName], table.m[it.categoryName :=
            CategoryEntry(it.categoryName, it.categoryColor, it.subtotal, LineProfit(it))]);
        }
        CategoryStep(prev, it);
        j := j + 1;
      }
      LinesStep(sales, i);
      i := i + 1;
    }
    assert sales[..i] == sales;
    ranking := SortDesc(Values(table), CategoryRevenue);
  }

  /** One entry per category name, named after it, with the sums of its
      lines' subtotals and profit. */
  lemma CategoryGrouping(lines: seq<RItem>)
    ensures CategoryTable(lines).keys == Dedup(KeysOf(lines, CategoryKey))
    ensures |Values(CategoryTable(lines))| == |Dedup(KeysOf(lines, CategoryKey))|
    ensures forall k | k in CategoryTable(lines).m ::
      && CategoryTable(lines).m[k].name == k
      && CategoryTable(lines).m[k].revenue == SumWhere(lines, CategoryKey, k, LineSubtotal)
      && CategoryTable(lines).m[k].profit == SumWhere(lines, CategoryKey, k, LineProfit)
  {
    GroupKeys(lines, CategoryKey, NewCategory, AddToCategory);
    ValuesOfAll(CategoryTable(lines).keys, CategoryTable(lines).m);
    GroupLabel(lines, CategoryKey, NewCategory, AddToCategory, CategoryName);
    GroupSum(lines, CategoryKey, NewCategory, AddToCategory, CategoryRevenue, LineSubtotal);
    GroupSum(lines, CategoryKey, NewCategory, AddToCategory, CategoryProfit, LineProfit);
  }

  /** The ranking is sorted, and between them its entries hold every
      line's subtotal and the whole estimated profit. */
  lemma CategoryTotals(sales: seq<RSale>)
    ensures var ranking := SortDesc(Values(CategoryTable(Lines(sales))), CategoryRevenue);
      && SortedDesc(ranking, CategoryRevenue)
      && SumOf(ranking, CategoryRevenue) == SumOf(Lines(sales), LineSubtotal)
      && SumOf(ranking, CategoryProfit) == TotalProfit(sales)
  {
    var lines := Lines(sales);
    var all := Values(CategoryTable(lines));
    var ranking := SortDesc(all, CategoryRevenue);
    GroupTotal(lines, CategoryKey, NewCategory, AddToCategory, CategoryRevenue, LineSubtotal);
    GroupTotal(lines, CategoryKey, NewCategory, AddToCategory, CategoryProfit, LineProfit);
    SumOfPermutation(ranking, all, CategoryRevenue);
    SumOfPermutation(ranking, all, CategoryProfit);
    TotalProfitOverLines(sales);
  }

  /* ---------------------------------------------------------------
     Top sellers
     --------------------------------------------------------------- */

  datatype SellerEntry = SellerEntry(name: string, count: int, revenue: int)

  function SellerKey(s: RSale): string {
    s.userId
  }

  function NewSeller(s: RSale): SellerEntry {
    SellerEntry(s.userName, 1, s.total)
  }

  function AddToSeller(e: SellerEntry, s: RSale): SellerEntry {
    e.(count := e.count + 1, revenue := e.revenue + s.total)
  }

  function SellerTable(sales: seq<RSale>): Table<SellerEntry> {
    Group(sales, SellerKey, NewSeller, AddToSeller)
  }

  function One(s: RSale): int { 1 }
  function SellerCount(e: SellerEntry): int { e.count }
  function SellerRevenue(e: SellerEntry): int { e.revenue }

  /** The grouping step for one sale, written out as the loop performs it. */
  lemma SellerStep(t: Table<SellerEntry>, sale: RSale)
    ensures GroupStep(t, sale, SellerKey, NewSeller, AddToSeller) ==
      if sale.userId in t.m then
        Table(t.keys, t.m[sale.userId := t.m[sale.userId].(
          count := t.m[sale.userId].count + 1,
          revenue := t.m[sale.userId].revenue + sale.total)])
      else
        Table(t.keys + [sale.userId], t.m[sale.userId := SellerEntry(sale.userName, 1, sale.total)])
  {
  }

  /** `topSellers`: the sales grouped by the seller's user id, sorted by
      revenue. */
  method TopSellers(sales: seq<RSale>) returns (ranking: seq<SellerEntry>)
    ensures ranking == SortDesc(Values(SellerTable(sales)), SellerRevenue)
  {
    var table: Table<SellerEntry> := Table([], map[]);
    var i := 0;
    while i < |sales|
      invariant 0 <= i <= |sales|
      invariant table == SellerTable(sales[..i])
    {
      var sale := sales[i];
      ghost var prev := table;
      GroupSnoc(sales[..i], sale, SellerKey, NewSeller, AddToSeller);
      assert sales[..i + 1] == sales[..i] + [sale];
      if sale.userId in table.m {
        var existing := table.m[sale.userId];
        table := Table(table.keys, table.m[sale.userId := existing.(
          count := existing.count + 1,
          revenue := existing.revenue + sale.total)]);
      } else {
        table := Table(table.keys + [sale.userId], table.m[sale.userId := SellerEntry(sale.userName, 1, sale.total)]);
      }
      SellerStep(prev, sale);
      i := i + 1;
    }
    assert sales[..i] == sales;
    ranking := SortDesc(Values(table), SellerRevenue);
  }

  lemma {:induction false} SumOfOnes(sales: seq<RSale>)
    ensures SumOf(sales, One) == |sales|
  {
    if sales != [] {
      SumOfOnes(sales[..|sales| - 1]);
    }
  }

  /** One entry per seller id; each count is that seller's number of sales
      and each revenue the sum of their totals. */
  lemma SellerGrouping(sales: seq<RSale>)
    ensures SellerTable(sales).keys == Dedup(KeysOf(sales, SellerKey))
    ensures |Values(SellerTable(sales))| == |Dedup(KeysOf(sales, SellerKey))|
    ensures forall k | k in SellerTable(sales).m ::
      && SellerTable(sales).m[k].count == SumWhere(sales, SellerKey, k, One)
      && SellerTable(sales).m[k].revenue == SumWhere(sales, SellerKey, k, SaleTotal)
  {
    GroupKeys(sales, SellerKey, NewSeller, AddToSeller);
    ValuesOfAll(SellerTable(sales).keys, SellerTable(sales).m);
    GroupSum(sales, SellerKey, NewSeller, AddToSeller, SellerCount, One);
    GroupSum(sales, SellerKey, NewSeller, AddToSeller, SellerRevenue, SaleTotal);
  }

  /** The ranking is sorted, its counts add up to the number of sales and
      its revenues to the total revenue. */
  lemma SellerTotals(sales: seq<RSale>)
    ensures var ranking := SortDesc(Values(SellerTable(sales)), SellerRevenue);
      && SortedDesc(ranking, SellerRevenue)
      && SumOf(ranking, SellerCount) == |sales|
      && SumOf(ranking, SellerRevenue) == TotalRevenue(sales)
  {
    var all := Values(SellerTable(sales));
    var ranking := SortDesc(all, SellerRevenue);
    GroupTotal(sales, SellerKey, NewSeller, AddToSeller, SellerCount, One);
    GroupTotal(sales, SellerKey, NewSeller, AddToSeller, SellerRevenue, SaleTotal);
    SumOfPermutation(ranking, all, SellerCount);
    SumOfPermutation(ranking, all, SellerRevenue);
    SumOfOnes(sales);
  }
}
