/** The product server actions. A create seeds one product counter per
    branch and one variant counter per (variant, branch); an update keeps the
    existing product counters, adds the missing ones, and throws away and
    regenerates every variant with its counters; delete and restore only flip
    the `active` flag. */
module Products {
  import opened Common
  import opened Ledger

  datatype VariantInput = VariantInput(id: Option<string>, name: string, value: string, priceAdjustment: int)

  datatype ProductInput = ProductInput(
    name: string,
    price: int,
    costo: int,
    barcode: Option<string>,
    categoryId: string,
    color: string,
    stock: int,
    image: Option<string>,
    variants: Option<seq<VariantInput>>)

  datatype ProductError = InvalidInput | ProductNotFound

  /** The input schema: a non-empty name, positive price and cost, and an
      initial stock that is a non-negative integer. */
  predicate InputValid(d: ProductInput) {
    |d.name| >= 1 && d.price > 0 && d.costo > 0 && d.stock >= 0
  }

  /** `x || null` on an optional string: absent and empty both become null. */
  function EmptyToNone(s: Option<string>): (r: Option<string>)
    ensures r.Some? <==> s.Some? && s.value != ""
    ensures r.Some? ==> r == s
  {
    if s.Some? && s.value != "" then s else None
  }

  /** The stored product row for an input; `active` is passed in because a
      create sets it and an update leaves it alone. */
  function ProductRow(d: ProductInput, active: bool): Product {
    Product(d.name, d.price, d.costo, EmptyToNone(d.barcode), d.categoryId, d.color,
            EmptyToNone(d.image), active)
  }

  /** The variants to create; a client-sent variant id is ignored. */
  function VariantInputs(d: ProductInput): seq<VariantInput> {
    d.variants.GetOr([])
  }

  /** Fresh variant rows for product `p`, numbered from `base` in input order. */
  function NewVariants(p: ProductId, vs: seq<VariantInput>, base: nat): (m: map<VariantId, Variant>)
    ensures forall v :: v in m <==> base <= v < base + |vs|
    ensures forall i | 0 <= i < |vs| ::
      m[base + i] == Variant(p, vs[i].name, vs[i].value, vs[i].priceAdjustment)
  {
    map i | i in IdRange(base, |vs|) :: Variant(p, vs[i - base].name, vs[i - base].value, vs[i - base].priceAdjustment)
  }

  /** The ids `base`, ..., `base + n - 1`. */
  function IdRange(base: nat, n: nat): (r: set<nat>)
    ensures forall i :: i in r <==> base <= i < base + n
  {
    var ids := seq(n, j => base + j);
    assert forall i | base <= i < base + n :: i in ids by {
      forall i | base <= i < base + n ensures i in ids { assert ids[i - base] == i; }
    }
    set i | i in ids
  }

  lemma IdRangeCount(base: nat, n: nat)
    requires n > 0
    ensures |IdRange(base, n)| == |IdRange(base, n - 1)| + 1
  {
    var s, x := IdRange(base, n - 1), base + n - 1;
    assert IdRange(base, n) == s + {x};
    assert s * {x} == {};
  }

  lemma {:induction false} IdRangeSize(base: nat, n: nat)
    ensures |IdRange(base, n)| == n
  {
    if n == 0 {
      assert IdRange(base, n) == {};
    } else {
      IdRangeCount(base, n);
      IdRangeSize(base, n - 1);
    }
  }

  /** The counter keys of one subject: (s, b) for every branch b. */
  function Row(s: nat, branches: set<BranchId>): (r: set<(nat, BranchId)>)
    ensures forall k :: k in r <==> k.0 == s && k.1 in branches
  {
    set b | b in branches :: (s, b)
  }

  /** The counter keys of the subjects `base`, ..., `base + n - 1`: one per
      (subject, branch) pair. */
  function Rows(base: nat, n: nat, branches: set<BranchId>): (r: set<(nat, BranchId)>)
    ensures forall k :: k in r <==> base <= k.0 < base + n && k.1 in branches
  {
    set i, b | i in IdRange(base, n) && b in branches :: (i, b)
  }

  /** One counter per key, each at `stock`. */
  function Seed<K>(keys: set<K>, stock: int): (m: map<K, int>)
    ensures m.Keys == keys
    ensures forall k | k in keys :: m[k] == stock
  {
    map k | k in keys :: stock
  }

  lemma RowCount(s: nat, branches: set<BranchId>, b: BranchId)
    requires b in branches
    ensures |Row(s, branches)| == |Row(s, branches - {b})| + 1
  {
    var rest := branches - {b};
    assert Row(s, branches) == Row(s, rest) + {(s, b)};
    assert Row(s, rest) * {(s, b)} == {};
  }

  lemma {:induction false} RowSize(s: nat, branches: set<BranchId>)
    ensures |Row(s, branches)| == |branches|
  {
    if branches == {} {
      assert Row(s, branches) == {};
    } else {
      var b :| b in branches;
      RowCount(s, branches, b);
      RowSize(s, branches - {b});
    }
  }

  /** Each subject adds its own, disjoint row of |branches| counters. */
  lemma RowsCount(base: nat, n: nat, branches: set<BranchId>)
    requires n > 0
    ensures |Rows(base, n, branches)| == |Rows(base, n - 1, branches)| + |branches|
  {
    RowSize(base + n - 1, branches);
    var head, last := Rows(base, n - 1, branches), Row(base + n - 1, branches);
    assert Rows(base, n, branches) == head + last;
    assert head * last == {};
  }

  lemma MulStep(n: nat, m: nat)
    requires n > 0
    ensures (n - 1) * m + m == n * m
  {
  }

  /** The seeding creates n × |branches| counters. */
  lemma {:induction false} RowsSize(base: nat, n: nat, branches: set<BranchId>)
    ensures |Rows(base, n, branches)| == n * |branches|
  {
    if n == 0 {
      assert Rows(base, n, branches) == {};
    } else {
      RowsCount(base, n, branches);
      RowsSize(base, n - 1, branches);
      MulStep(n, |branches|);
    }
  }

  /* ---------------------------------------------------------------
     The update's reconciliation of product counters
     --------------------------------------------------------------- */

  /** The counters after making sure product `p` has one at every branch of
      `bs`: an existing counter is kept as it is, a missing one is created at
      `stock`. */
  function FillMissing(m: map<(ProductId, BranchId), int>, p: ProductId, bs: set<BranchId>, stock: int)
    : map<(ProductId, BranchId), int>
  {
    map k | k in m.Keys + Row(p, bs) :: if k in m then m[k] else stock
  }

  /** FillMissing never changes or drops an existing counter, adds counters
      only for `p` at branches of `bs`, at the requested stock, and leaves
      no branch of `bs` without a counter for `p`. */
  lemma FillMissingSpec(m: map<(ProductId, BranchId), int>, p: ProductId, bs: set<BranchId>, stock: int)
    ensures var r := FillMissing(m, p, bs, stock);
      && (forall k | k in m :: k in r && r[k] == m[k])
      && (forall k | k in r && k !in m :: k.0 == p && k.1 in bs && r[k] == stock)
      && (forall b | b in bs :: (p, b) in r)
  {
    var r := FillMissing(m, p, bs, stock);
    forall b | b in bs ensures (p, b) in r {
      assert (p, b) in Row(p, bs);
    }
  }

  /** Running the reconciliation again changes nothing. */
  lemma FillMissingIdempotent(m: map<(ProductId, BranchId), int>, p: ProductId, bs: set<BranchId>, stock: int)
    ensures FillMissing(FillMissing(m, p, bs, stock), p, bs, stock) == FillMissing(m, p, bs, stock)
  {
    var r := FillMissing(m, p, bs, stock);
    FillMissingSpec(m, p, bs, stock);
    assert FillMissing(r, p, bs, stock).Keys == r.Keys;
  }

  /** One more branch handled by the loop. */
  lemma FillMissingStep(m: map<(ProductId, BranchId), int>, p: ProductId, done: set<BranchId>, b: BranchId, stock: int)
    requires b !in done
    ensures var cur := FillMissing(m, p, done, stock);
      FillMissing(m, p, done + {b}, stock) == if (p, b) in cur then cur else cur[(p, b) := stock]
  {
    var cur := FillMissing(m, p, done, stock);
    var nxt := FillMissing(m, p, done + {b}, stock);
    var want := if (p, b) in cur then cur else cur[(p, b) := stock];
    assert Row(p, done + {b}) == Row(p, done) + {(p, b)};
    assert nxt.Keys == want.Keys;
  }

  /** The variant counters that survive the update's first delete: those of
      variants that do not belong to `p`. */
  function DropOwnedStock(vs: map<(VariantId, BranchId), int>, variants: map<VariantId, Variant>, p: ProductId)
    : (r: map<(VariantId, BranchId), int>)
    ensures forall k :: k in r <==> k in vs && !OwnedBy(variants, k.0, p)
    ensures forall k | k in r :: r[k] == vs[k]
  {
    map k | k in vs && !OwnedBy(variants, k.0, p) :: vs[k]
  }

  /** The variants that survive the update's second delete. */
  function DropVariants(variants: map<VariantId, Variant>, p: ProductId): (r: map<VariantId, Variant>)
    ensures forall v :: v in r <==> v in variants && variants[v].productId != p
    ensures forall v | v in r :: r[v] == variants[v]
  {
    map v | v in variants && variants[v].productId != p :: variants[v]
  }

  /** The products with `id`'s `active` flag set to `a` and nothing else
      changed. */
  function WithActive(products: map<ProductId, Product>, id: ProductId, a: bool): (r: map<ProductId, Product>)
    requires id in products
    ensures r.Keys == products.Keys && r[id].active == a
    ensures r[id] == products[id].(active := a)
    ensures forall q | q in products && q != id :: r[q] == products[q]
  {
    products[id := products[id].(active := a)]
  }

  /** A soft delete undone by a restore gives back the products as they
      were, for a product that was active. */
  lemma {:induction false} RestoreUndoesDelete(products: map<ProductId, Product>, id: ProductId)
    requires id in products && products[id].active
    ensures WithActive(WithActive(products, id, false), id, true) == products
  {
    var r := WithActive(WithActive(products, id, false), id, true);
    assert r[id] == products[id];
    assert r.Keys == products.Keys;
  }

  /** Without variants there is nothing to seed, which is why the source
      may skip the variant-counter write. */
  lemma NoVariantsNoSeed(m: map<(VariantId, BranchId), int>, base: nat, bs: set<BranchId>, stock: int)
    ensures m + Seed(Rows(base, 0, bs), stock) == m
  {
    assert Rows(base, 0, bs) == {};
  }

  /* ---------------------------------------------------------------
     The catalog: the tables a product action writes
     --------------------------------------------------------------- */

  datatype Catalog = Catalog(
    products: map<ProductId, Product>,
    variants: map<VariantId, Variant>,
    productStock: map<(ProductId, BranchId), int>,
    variantStock: map<(VariantId, BranchId), int>,
    nextId: nat)

  /* A create: the product takes the next free id `p` and its variants the
     ids after it; the product gets a counter at every branch and each
     variant a counter at every branch, all at the input stock. */

  function CreatedProducts(products: map<ProductId, Product>, p: ProductId, d: ProductInput)
    : map<ProductId, Product>
  {
    products[p := ProductRow(d, true)]
  }

  function CreatedVariants(variants: map<VariantId, Variant>, p: ProductId, d: ProductInput)
    : map<VariantId, Variant>
  {
    variants + NewVariants(p, VariantInputs(d), p + 1)
  }

  function CreatedProductStock(productStock: map<(ProductId, BranchId), int>, p: ProductId,
                               bs: set<BranchId>, d: ProductInput): map<(ProductId, BranchId), int>
  {
    productStock + Seed(Row(p, bs), d.stock)
  }

  function CreatedVariantStock(variantStock: map<(VariantId, BranchId), int>, p: ProductId,
                               bs: set<BranchId>, d: ProductInput): map<(VariantId, BranchId), int>
  {
    variantStock + Seed(Rows(p + 1, |VariantInputs(d)|, bs), d.stock)
  }

  function Created(c: Catalog, bs: set<BranchId>, d: ProductInput): Catalog {
    var p := c.nextId;
    Catalog(CreatedProducts(c.products, p, d), CreatedVariants(c.variants, p, d),
            CreatedProductStock(c.productStock, p, bs, d), CreatedVariantStock(c.variantStock, p, bs, d),
            p + 1 + |VariantInputs(d)|)
  }

  /* An update of product `id`: its row takes the input's fields but keeps
     `active`, its variants and their counters are replaced by fresh ones
     numbered from `next`, and its product counters are completed
     (`FillMissing`). */

  function UpdatedProducts(products: map<ProductId, Product>, id: ProductId, d: ProductInput)
    : map<ProductId, Product>
    requires id in products
  {
    products[id := ProductRow(d, products[id].active)]
  }

  function UpdatedVariants(variants: map<VariantId, Variant>, id: ProductId, next: nat, d: ProductInput)
    : map<VariantId, Variant>
  {
    DropVariants(variants, id) + NewVariants(id, VariantInputs(d), next)
  }

  function UpdatedVariantStock(variantStock: map<(VariantId, BranchId), int>, variants: map<VariantId, Variant>,
                               id: ProductId, next: nat, bs: set<BranchId>, d: ProductInput)
    : map<(VariantId, BranchId), int>
  {
    DropOwnedStock(variantStock, variants, id) + Seed(Rows(next, |VariantInputs(d)|, bs), d.stock)
  }

  function Updated(c: Catalog, bs: set<BranchId>, id: ProductId, d: ProductInput): Catalog
    requires id in c.products
  {
    Catalog(UpdatedProducts(c.products, id, d), UpdatedVariants(c.variants, id, c.nextId, d),
            FillMissing(c.productStock, id, bs, d.stock),
            UpdatedVariantStock(c.variantStock, c.variants, id, c.nextId, bs, d),
            c.nextId + |VariantInputs(d)|)
  }

  /** The store invariant, for a catalog next to the other tables. */
  ghost predicate CatalogValid(branches: map<BranchId, Branch>, users: map<UserId, User>, sales: seq<Sale>, c: Catalog) {
    ValidState(branches, users, c.products, c.variants, c.productStock, c.variantStock, sales, c.nextId)
  }

  lemma MergeNonNegative<K>(m: map<K, int>, n: map<K, int>)
    requires NonNegative(m) && NonNegative(n)
    ensures NonNegative(m + n)
  {
  }

  lemma SeedNonNegative<K>(keys: set<K>, stock: int)
    requires stock >= 0
    ensures NonNegative(Seed(keys, stock))
  {
  }

  /* The invariant, table by table */

  /** The product counters after a create are non-negative and belong to
      existing products. */
  lemma CreatedProductStockValid(products: map<ProductId, Product>, productStock: map<(ProductId, BranchId), int>,
                                 p: ProductId, bs: set<BranchId>, d: ProductInput)
    requires NonNegative(productStock) && d.stock >= 0
    requires forall k | k in productStock :: k.0 in products
    ensures var ps := CreatedProductStock(productStock, p, bs, d);
      NonNegative(ps) && forall k | k in ps :: k.0 in CreatedProducts(products, p, d)
  {
    SeedNonNegative(Row(p, bs), d.stock);
    MergeNonNegative(productStock, Seed(Row(p, bs), d.stock));
  }

  /** The variant counters after a create are non-negative and belong to
      existing variants. */
  lemma CreatedVariantStockValid(variants: map<VariantId, Variant>, variantStock: map<(VariantId, BranchId), int>,
                                 p: ProductId, bs: set<BranchId>, d: ProductInput)
    requires NonNegative(variantStock) && d.stock >= 0
    requires forall k | k in variantStock :: k.0 in variants
    ensures var vs := CreatedVariantStock(variantStock, p, bs, d);
      NonNegative(vs) && forall k | k in vs :: k.0 in CreatedVariants(variants, p, d)
  {
    var rows := Rows(p + 1, |VariantInputs(d)|, bs);
    SeedNonNegative(rows, d.stock);
    MergeNonNegative(variantStock, Seed(rows, d.stock));
  }

  /** The rows a create adds take ids from `p` on, and its variants refer
      to the new product. */
  lemma CreatedRowsValid(products: map<ProductId, Product>, variants: map<VariantId, Variant>,
                         p: ProductId, d: ProductInput)
    requires forall v | v in variants :: variants[v].productId in products
    requires forall q | q in products :: q < p
    requires forall v | v in variants :: v < p
    ensures var ps, vs, next := CreatedProducts(products, p, d), CreatedVariants(variants, p, d),
                                 p + 1 + |VariantInputs(d)|;
      && (forall v | v in vs :: vs[v].productId in ps)
      && (forall q | q in ps :: q < next)
      && (forall v | v in vs :: v < next)
  {
  }

  /** A create preserves the store invariant. */
  lemma CreatedKeepsValid(branches: map<BranchId, Branch>, users: map<UserId, User>, sales: seq<Sale>,
                          c: Catalog, d: ProductInput)
    requires CatalogValid(branches, users, sales, c) && d.stock >= 0
    ensures CatalogValid(branches, users, sales, Created(c, branches.Keys, d))
  {
    CreatedProductStockValid(c.products, c.productStock, c.nextId, branches.Keys, d);
    CreatedVariantStockValid(c.variants, c.variantStock, c.nextId, branches.Keys, d);
    CreatedRowsValid(c.products, c.variants, c.nextId, d);
  }

  /** The product counters after an update are non-negative and belong to
      existing products. */
  lemma UpdatedProductStockValid(products: map<ProductId, Product>, productStock: map<(ProductId, BranchId), int>,
                                 id: ProductId, bs: set<BranchId>, d: ProductInput)
    requires id in products
    requires NonNegative(productStock) && d.stock >= 0
    requires forall k | k in productStock :: k.0 in products
    ensures var ps := FillMissing(productStock, id, bs, d.stock);
      NonNegative(ps) && forall k | k in ps :: k.0 in UpdatedProducts(products, id, d)
  {
    FillMissingSpec(productStock, id, bs, d.stock);
  }

  /** The variant counters after an update are non-negative and belong to
      existing variants. */
  lemma UpdatedVariantStockValid(variants: map<VariantId, Variant>, variantStock: map<(VariantId, BranchId), int>,
                                 id: ProductId, next: nat, bs: set<BranchId>, d: ProductInput)
    requires NonNegative(variantStock) && d.stock >= 0
    requires forall k | k in variantStock :: k.0 in variants
    ensures var vs := UpdatedVariantStock(variantStock, variants, id, next, bs, d);
      NonNegative(vs) && forall k | k in vs :: k.0 in UpdatedVariants(variants, id, next, d)
  {
    var rows := Rows(next, |VariantInputs(d)|, bs);
    SeedNonNegative(rows, d.stock);
    MergeNonNegative(DropOwnedStock(variantStock, variants, id), Seed(rows, d.stock));
  }

  /** The variants an update leaves refer to existing products, and every
      id stays below the new `nextId`. */
  lemma UpdatedRowsValid(products: map<ProductId, Product>, variants: map<VariantId, Variant>,
                         id: ProductId, next: nat, d: ProductInput)
    requires id in products
    requires forall v | v in variants :: variants[v].productId in products
    requires forall q | q in products :: q < next
    requires forall v | v in variants :: v < next
    ensures var ps, vs, next' := UpdatedProducts(products, id, d), UpdatedVariants(variants, id, next, d),
                                  next + |VariantInputs(d)|;
      && (forall v | v in vs :: vs[v].productId in ps)
      && (forall q | q in ps :: q < next')
      && (forall v | v in vs :: v < next')
  {
  }

  /** An update preserves the store invariant. */
  lemma UpdatedKeepsValid(branches: map<BranchId, Branch>, users: map<UserId, User>, sales: seq<Sale>,
                          c: Catalog, id: ProductId, d: ProductInput)
    requires CatalogValid(branches, users, sales, c) && id in c.products && d.stock >= 0
    ensures CatalogValid(branches, users, sales, Updated(c, branches.Keys, id, d))
  {
    UpdatedProductStockValid(c.products, c.productStock, id, branches.Keys, d);
    UpdatedVariantStockValid(c.variants, c.variantStock, id, c.nextId, branches.Keys, d);
    UpdatedRowsValid(c.products, c.variants, id, c.nextId, d);
  }

  /* What a create and an update promise beyond the invariant */

  /** A create stores the product, active, under an id no product has, and
      keeps every existing product as it was. */
  lemma CreateKeepsProducts(products: map<ProductId, Product>, p: ProductId, d: ProductInput)
    requires forall q | q in products :: q < p
    ensures var ps := CreatedProducts(products, p, d);
      && p !in products
      && ps[p] == ProductRow(d, true) && ps[p].active
      && (forall q | q in products :: ps[q] == products[q])
  {
  }

  /** After a create, the new product has a counter at exactly the
      branches, each at the input stock, and every older counter is as it
      was. */
  lemma CreateSeedsProductCounters(products: map<ProductId, Product>, productStock: map<(ProductId, BranchId), int>,
                                   p: ProductId, bs: set<BranchId>, d: ProductInput)
    requires forall q | q in products :: q < p
    requires forall k | k in productStock :: k.0 in products
    ensures var ps := CreatedProductStock(productStock, p, bs, d);
      && (forall b :: (p, b) in ps <==> b in bs)
      && (forall b | b in bs :: ps[(p, b)] == d.stock)
      && (forall k | k in productStock :: k in ps && ps[k] == productStock[k])
  {
  }

  /** The i-th input variant becomes variant `p + 1 + i` of the new
      product, and existing variants are as they were. */
  lemma CreateNumbersVariants(variants: map<VariantId, Variant>, p: ProductId, d: ProductInput)
    requires forall v | v in variants :: v < p
    ensures var vs, vm := VariantInputs(d), CreatedVariants(variants, p, d);
      && (forall i | 0 <= i < |vs| ::
            vm[p + 1 + i] == Variant(p, vs[i].name, vs[i].value, vs[i].priceAdjustment))
      && (forall v | v in variants :: vm[v] == variants[v])
  {
  }

  /** Every new variant has a counter at every branch, at the input stock,
      and these are the only counters the create adds. */
  lemma CreateSeedsVariantCounters(variantStock: map<(VariantId, BranchId), int>, p: ProductId,
                                   bs: set<BranchId>, d: ProductInput)
    ensures var n, counters := |VariantInputs(d)|, CreatedVariantStock(variantStock, p, bs, d);
      && (forall v, b | p + 1 <= v < p + 1 + n && b in bs ::
            (v, b) in counters && counters[(v, b)] == d.stock)
      && (forall k | k in counters && k !in variantStock :: p + 1 <= k.0 < p + 1 + n && k.1 in bs)
  {
  }

  /** Counters whose subjects all lie below `base` are disjoint from the
      rows seeded from `base` on. */
  lemma FreshRows(m: map<(nat, BranchId), int>, owners: set<nat>, base: nat, n: nat, bs: set<BranchId>)
    requires forall v | v in owners :: v < base
    requires forall k | k in m :: k.0 in owners
    ensures m.Keys * Rows(base, n, bs) == {}
  {
    assert forall k | k in m.Keys * Rows(base, n, bs) :: k.0 < base && base <= k.0;
  }

  /** A create leaves every existing variant counter as it was. */
  lemma CreateKeepsVariantCounters(variants: map<VariantId, Variant>, variantStock: map<(VariantId, BranchId), int>,
                                   p: ProductId, bs: set<BranchId>, d: ProductInput)
    requires forall v | v in variants :: v < p
    requires forall k | k in variantStock :: k.0 in variants
    ensures var counters := CreatedVariantStock(variantStock, p, bs, d);
      forall k | k in variantStock :: k in counters && counters[k] == variantStock[k]
  {
    FreshRows(variantStock, variants.Keys, p + 1, |VariantInputs(d)|, bs);
  }

  /** Seeding fresh keys adds exactly one counter per key. */
  lemma SeedCount<K>(m: map<K, int>, keys: set<K>, stock: int)
    requires m.Keys * keys == {}
    ensures |m + Seed(keys, stock)| == |m| + |keys|
  {
    assert (m + Seed(keys, stock)).Keys == m.Keys + keys;
  }

  /** A create adds exactly |branches| product counters. */
  lemma CreateCountsProductCounters(products: map<ProductId, Product>, productStock: map<(ProductId, BranchId), int>,
                                    p: ProductId, bs: set<BranchId>, d: ProductInput)
    requires forall q | q in products :: q < p
    requires forall k | k in productStock :: k.0 in products
    ensures |CreatedProductStock(productStock, p, bs, d)| == |productStock| + |bs|
  {
    FreshRows(productStock, products.Keys, p, 1, bs);
    assert Row(p, bs) == Rows(p, 1, bs);
    SeedCount(productStock, Row(p, bs), d.stock);
    RowSize(p, bs);
  }

  /** A create adds exactly V × |branches| variant counters. */
  lemma CreateCountsVariantCounters(variants: map<VariantId, Variant>, variantStock: map<(VariantId, BranchId), int>,
                                    p: ProductId, bs: set<BranchId>, d: ProductInput)
    requires forall v | v in variants :: v < p
    requires forall k | k in variantStock :: k.0 in variants
    ensures |CreatedVariantStock(variantStock, p, bs, d)| == |variantStock| + |VariantInputs(d)| * |bs|
  {
    var n := |VariantInputs(d)|;
    FreshRows(variantStock, variants.Keys, p + 1, n, bs);
    SeedCount(variantStock, Rows(p + 1, n, bs), d.stock);
    RowsSize(p + 1, n, bs);
  }

  /** An update keeps the product's `active` flag and every other product. */
  lemma UpdateKeepsActive(products: map<ProductId, Product>, id: ProductId, d: ProductInput)
    requires id in products
    ensures var ps := UpdatedProducts(products, id, d);
      && ps.Keys == products.Keys
      && ps[id] == ProductRow(d, products[id].active)
      && (forall q | q in products && q != id :: ps[q] == products[q])
  {
  }

  /** An update removes every old variant of the product, keeps every other
      variant, and adds the input variants under fresh ids from `next`. */
  lemma UpdateReplacesVariants(variants: map<VariantId, Variant>, id: ProductId, next: nat, d: ProductInput)
    requires forall v | v in variants :: v < next
    ensures var vs, vm := VariantInputs(d), UpdatedVariants(variants, id, next, d);
      && (forall v | v in variants && variants[v].productId == id :: v !in vm)
      && (forall v | v in variants && variants[v].productId != id :: v in vm && vm[v] == variants[v])
      && (forall i | 0 <= i < |vs| ::
            vm[next + i] == Variant(id, vs[i].name, vs[i].value, vs[i].priceAdjustment))
  {
  }

  /** An update drops the counters of the product's old variants, keeps
      every other variant counter unchanged, and gives each new variant a
      counter at every branch at the input stock. */
  lemma UpdateReplacesVariantCounters(variants: map<VariantId, Variant>, variantStock: map<(VariantId, BranchId), int>,
                                      id: ProductId, next: nat, bs: set<BranchId>, d: ProductInput)
    requires forall v | v in variants :: v < next
    requires forall k | k in variantStock :: k.0 in variants
    ensures var n, counters := |VariantInputs(d)|, UpdatedVariantStock(variantStock, variants, id, next, bs, d);
      && (forall k | k in variantStock && OwnedBy(variants, k.0, id) :: k !in counters)
      && (forall k | k in variantStock && !OwnedBy(variants, k.0, id) ::
            k in counters && counters[k] == variantStock[k])
      && (forall v, b | next <= v < next + n && b in bs ::
            (v, b) in counters && counters[(v, b)] == d.stock)
      && (forall k | k in counters ::
            (k in variantStock && !OwnedBy(variants, k.0, id)) || (next <= k.0 < next + n && k.1 in bs))
  {
    FreshRows(variantStock, variants.Keys, next, |VariantInputs(d)|, bs);
  }

  /** An update leaves the other products' variant counters and adds
      exactly V × |branches| new ones. */
  lemma UpdateCountsVariantCounters(variants: map<VariantId, Variant>, variantStock: map<(VariantId, BranchId), int>,
                                    id: ProductId, next: nat, bs: set<BranchId>, d: ProductInput)
    requires forall v | v in variants :: v < next
    requires forall k | k in variantStock :: k.0 in variants
    ensures |UpdatedVariantStock(variantStock, variants, id, next, bs, d)|
            == |DropOwnedStock(variantStock, variants, id)| + |VariantInputs(d)| * |bs|
  {
    var n := |VariantInputs(d)|;
    var kept := DropOwnedStock(variantStock, variants, id);
    FreshRows(kept, variants.Keys, next, n, bs);
    SeedCount(kept, Rows(next, n, bs), d.stock);
    RowsSize(next, n, bs);
  }

  /* ---------------------------------------------------------------
     The server actions
     --------------------------------------------------------------- */

  /** Writes the product tables of a create or an update. */
  method Commit(st: Store, c: Catalog)
    requires CatalogValid(st.branches, st.users, st.sales, c)
    requires HistoryKnown(c.products, st.sales, st.movements)
    modifies st
    ensures st.Valid()
    ensures Catalog(st.products, st.variants, st.productStock, st.variantStock, st.nextId) == c
    ensures st.branches == old(st.branches) && st.users == old(st.users)
    ensures st.sales == old(st.sales) && st.movements == old(st.movements)
  {
    st.products, st.variants, st.nextId := c.products, c.variants, c.nextId;
    st.productStock, st.variantStock := c.productStock, c.variantStock;
  }

  method CreateProduct(st: Store, d: ProductInput) returns (r: Result<ProductId, ProductError>)
    requires st.Valid()
    modifies st
    ensures st.Valid()
    ensures st.branches == old(st.branches) && st.users == old(st.users)
    ensures st.movements == old(st.movements) && st.sales == old(st.sales)
    ensures !InputValid(d) <==> r == Err(InvalidInput)
    ensures InputValid(d) ==> r.Ok?
    ensures r.Err? ==> unchanged(st)
    ensures r.Ok? ==>
      && r.value == old(st.nextId)
      && Catalog(st.products, st.variants, st.productStock, st.variantStock, st.nextId)
         == Created(old(Catalog(st.products, st.variants, st.productStock, st.variantStock, st.nextId)),
                    old(st.branches).Keys, d)
  {
    if !InputValid(d) {
      return Err(InvalidInput);
    }
    // the product row with its variants, a product counter per branch and a
    // variant counter per (variant, branch), as `Created` lists them; the
    // source skips the last write when there are no variants, which seeds
    // nothing (`NoVariantsNoSeed`)
    var p := st.nextId;
    var c0 := Catalog(st.products, st.variants, st.productStock, st.variantStock, st.nextId);
    var c := Created(c0, st.branches.Keys, d);
    CreatedKeepsValid(st.branches, st.users, st.sales, c0, d);
    assert c0.products.Keys <= c.products.Keys;
    HistoryKnownGrows(c0.products, c.products, st.sales, st.movements);
    Commit(st, c);
    r := Ok(p);
  }

  /** The update's loop over the branches: a counter is created, at
      `stock`, only where product `id` has none. */
  method EnsureProductStock(ps: map<(ProductId, BranchId), int>, id: ProductId, bs: set<BranchId>, stock: int)
    returns (r: map<(ProductId, BranchId), int>)
    ensures r == FillMissing(ps, id, bs, stock)
  {
    r := ps;
    var todo := bs;
    while todo != {}
      invariant todo <= bs
      invariant r == FillMissing(ps, id, bs - todo, stock)
      decreases |todo|
    {
      var b :| b in todo;
      FillMissingStep(ps, id, bs - todo, b, stock);
      if (id, b) !in r {
        r := r[(id, b) := stock];
      }
      assert bs - todo + {b} == bs - (todo - {b});
      todo := todo - {b};
    }
    assert bs - todo == bs;
  }

  method UpdateProduct(st: Store, id: ProductId, d: ProductInput) returns (r: Outcome<ProductError>)
    requires st.Valid()
    modifies st
    ensures st.Valid()
    ensures st.branches == old(st.branches) && st.users == old(st.users)
    ensures st.movements == old(st.movements) && st.sales == old(st.sales)
    ensures r == Fail(InvalidInput) <==> !InputValid(d)
    ensures r == Fail(ProductNotFound) <==> InputValid(d) && id !in old(st.products)
    ensures InputValid(d) && id in old(st.products) ==> r == Pass
    ensures r.Fail? ==> unchanged(st)
    ensures r == Pass ==>
      && id in old(st.products)
      && Catalog(st.products, st.variants, st.productStock, st.variantStock, st.nextId)
         == Updated(old(Catalog(st.products, st.variants, st.productStock, st.variantStock, st.nextId)),
                    old(st.branches).Keys, id, d)
  {
    if !InputValid(d) {
      return Fail(InvalidInput);
    }
    if id !in st.products {
      return Fail(ProductNotFound);
    }
    var bs := st.branches.Keys;
    var vs := VariantInputs(d);
    var base := st.nextId;

    // delete the old variants' counters, then the old variants
    var variantStock := DropOwnedStock(st.variantStock, st.variants, id);
    var variants := DropVariants(st.variants, id);
    // update the product, keeping its `active` flag, and create the new variants
    var products := st.products[id := ProductRow(d, st.products[id].active)];
    variants := variants + NewVariants(id, vs, base);
    // make sure a product counter exists at every branch, never overwriting one
    var productStock := EnsureProductStock(st.productStock, id, bs, d.stock);
    // regenerate the variant counters (nothing to seed without variants)
    variantStock := variantStock + Seed(Rows(base, |vs|, bs), d.stock);

    ghost var c0 := Catalog(st.products, st.variants, st.productStock, st.variantStock, st.nextId);
    var c := Catalog(products, variants, productStock, variantStock, base + |vs|);
    assert c == Updated(c0, bs, id, d);
    UpdatedKeepsValid(st.branches, st.users, st.sales, c0, id, d);
    HistoryKnownGrows(st.products, products, st.sales, st.movements);
    Commit(st, c);
    r := Pass;
  }

  /** Soft delete: only `active` changes, to false. */
  method DeleteProduct(st: Store, id: ProductId) returns (r: Outcome<ProductError>)
    requires st.Valid()
    modifies st`products
    ensures st.Valid()
    ensures r == Fail(ProductNotFound) <==> id !in old(st.products)
    ensures id in old(st.products) ==> r == Pass
    ensures r.Fail? ==> st.products == old(st.products)
    ensures r == Pass ==> st.products == WithActive(old(st.products), id, false)
  {
    if id !in st.products {
      return Fail(ProductNotFound);
    }
    st.products := WithActive(st.products, id, false);
    r := Pass;
  }

  /** Soft restore: only `active` changes, to true. */
  method RestoreProduct(st: Store, id: ProductId) returns (r: Outcome<ProductError>)
    requires st.Valid()
    modifies st`products
    ensures st.Valid()
    ensures r == Fail(ProductNotFound) <==> id !in old(st.products)
    ensures id in old(st.products) ==> r == Pass
    ensures r.Fail? ==> st.products == old(st.products)
    ensures r == Pass ==> st.products == WithActive(old(st.products), id, true)
  {
    if id !in st.products {
      return Fail(ProductNotFound);
    }
    st.products := WithActive(st.products, id, true);
    r := Pass;
  }
}
