/** The persistent state the server actions read and write: branches, users,
    products and their variants, the per-branch stock counters, the
    append-only inventory-movement log and the sales. One `Store` object
    stands for the database; each server action is a sequential step on it. */
module Ledger {
  import opened Common

  /* Every row id is drawn from one counter (`Store.nextId`), so an id handed
     out by a create is never in use already. */
  type ProductId = nat
  type VariantId = nat
  type BranchId = nat
  type UserId = nat
  type SaleId = nat

  datatype MovementType = Entrada | Salida | Ajuste

  datatype PaymentMethod = Efectivo | Tarjeta | Transferencia

  datatype Role = Admin | Supervisor | Vendedor

  /** One audit record of a stock change. */
  datatype Movement = Movement(
    productId: ProductId,
    variantId: Option<VariantId>,
    kind: MovementType,
    quantity: int,
    reason: string,
    userId: UserId,
    branchId: BranchId)

  datatype User = User(name: string, role: Role, branchId: Option<BranchId>)

  datatype Branch = Branch(name: string, address: Option<string>)

  /** Money is a whole number in the unit of the stored prices (cents);
      typed amounts are read in the same unit. */
  datatype Product = Product(
    name: string,
    price: int,
    costo: int,
    barcode: Option<string>,
    categoryId: string,
    color: string,
    image: Option<string>,
    active: bool)

  datatype Variant = Variant(productId: ProductId, name: string, value: string, priceAdjustment: int)

  datatype SaleItem = SaleItem(
    productId: ProductId,
    variantId: Option<VariantId>,
    quantity: int,
    price: int,
    subtotal: int)

  datatype Sale = Sale(
    id: SaleId,
    userId: UserId,
    branchId: BranchId,
    total: int,
    paymentMethod: PaymentMethod,
    cashAmount: Option<int>,
    change: Option<int>,
    mesa: bool,
    mesaNumber: Option<string>,
    observaciones: Option<string>,
    items: seq<SaleItem>)

  /** No stock counter holds a negative value. */
  predicate NonNegative<K>(m: map<K, int>) {
    forall k | k in m :: m[k] >= 0
  }

  /** No two branches share a name. */
  predicate UniqueNames(branches: map<BranchId, Branch>) {
    forall a, b | a in branches && b in branches && a != b :: branches[a].name != branches[b].name
  }

  /** The branch a user is assigned to, if the user exists and has one. */
  function BranchOf(users: map<UserId, User>, u: UserId): (b: Option<BranchId>)
    ensures b.Some? <==> u in users && users[u].branchId.Some?
    ensures b.Some? ==> b.value == users[u].branchId.value
  {
    if u in users then users[u].branchId else None
  }

  /** `variant` exists and belongs to `product`. */
  predicate OwnedBy(variants: map<VariantId, Variant>, variant: VariantId, product: ProductId) {
    variant in variants && variants[variant].productId == product
  }

  /** The database invariant: no negative stock, counters and variants refer
      to existing rows, users and sales refer to existing branches, branch
      names are unique and every id in use is below `nextId`. */
  ghost predicate ValidState(
    branches: map<BranchId, Branch>,
    users: map<UserId, User>,
    products: map<ProductId, Product>,
    variants: map<VariantId, Variant>,
    productStock: map<(ProductId, BranchId), int>,
    variantStock: map<(VariantId, BranchId), int>,
    sales: seq<Sale>,
    nextId: nat)
  {
    && NonNegative(productStock)
    && NonNegative(variantStock)
    && (forall k | k in productStock :: k.0 in products)
    && (forall k | k in variantStock :: k.0 in variants)
    && (forall v | v in variants :: variants[v].productId in products)
    && (forall u | u in users && users[u].branchId.Some? :: users[u].branchId.value in branches)
    && (forall i | 0 <= i < |sales| :: sales[i].branchId in branches && sales[i].id < nextId)
    && UniqueNames(branches)
    && (forall p | p in products :: p < nextId)
    && (forall v | v in variants :: v < nextId)
    && (forall b | b in branches :: b < nextId)
  }

  /** Every item of the sale names an existing product. */
  ghost predicate SaleNamesProducts(products: map<ProductId, Product>, sale: Sale) {
    forall j | 0 <= j < |sale.items| :: sale.items[j].productId in products
  }

  /** The history refers to the catalogue: every sale item and every logged
      movement names an existing product (products are never removed, only
      deactivated). */
  ghost predicate HistoryKnown(products: map<ProductId, Product>, sales: seq<Sale>, movements: seq<Movement>) {
    && (forall i | 0 <= i < |sales| :: SaleNamesProducts(products, sales[i]))
    && (forall i | 0 <= i < |movements| :: movements[i].productId in products)
  }

  /** The history stays known while the catalogue only grows. */
  lemma HistoryKnownGrows(products: map<ProductId, Product>, products': map<ProductId, Product>,
                          sales: seq<Sale>, movements: seq<Movement>)
    requires HistoryKnown(products, sales, movements)
    requires products.Keys <= products'.Keys
    ensures HistoryKnown(products', sales, movements)
  {
    forall i | 0 <= i < |sales| ensures SaleNamesProducts(products', sales[i]) {
      assert SaleNamesProducts(products, sales[i]);
    }
  }

  /** Logging a movement of an existing product keeps the history known. */
  lemma HistoryKnownAppend(products: map<ProductId, Product>, sales: seq<Sale>, movements: seq<Movement>, m: Movement)
    requires HistoryKnown(products, sales, movements)
    requires m.productId in products
    ensures HistoryKnown(products, sales, movements + [m])
  {
  }

  /** Recording a sale at an existing branch under the next id, with
      counters that keep their keys and stay non-negative, keeps the state
      valid. */
  lemma SaleKeepsValid(
    branches: map<BranchId, Branch>, users: map<UserId, User>,
    products: map<ProductId, Product>, variants: map<VariantId, Variant>,
    productStock: map<(ProductId, BranchId), int>, variantStock: map<(VariantId, BranchId), int>,
    productStock': map<(ProductId, BranchId), int>, variantStock': map<(VariantId, BranchId), int>,
    sales: seq<Sale>, sale: Sale, nextId: nat)
    requires ValidState(branches, users, products, variants, productStock, variantStock, sales, nextId)
    requires NonNegative(productStock') && NonNegative(variantStock')
    requires productStock'.Keys == productStock.Keys && variantStock'.Keys == variantStock.Keys
    requires sale.branchId in branches && sale.id == nextId
    ensures ValidState(branches, users, products, variants, productStock', variantStock', sales + [sale], nextId + 1)
  {
    forall i | 0 <= i < |sales| + 1
      ensures (sales + [sale])[i].branchId in branches && (sales + [sale])[i].id < nextId + 1
    {
      if i < |sales| { assert (sales + [sale])[i] == sales[i]; }
    }
  }

  /** Recording a sale whose items name existing products, with a log of
      such movements, keeps the history known. */
  lemma HistoryKnownSale(products: map<ProductId, Product>, sales: seq<Sale>, sale: Sale, log: seq<Movement>)
    requires HistoryKnown(products, sales, [])
    requires SaleNamesProducts(products, sale)
    requires forall i | 0 <= i < |log| :: log[i].productId in products
    ensures HistoryKnown(products, sales + [sale], log)
  {
    forall i | 0 <= i < |sales| + 1 ensures SaleNamesProducts(products, (sales + [sale])[i]) {
      if i < |sales| { assert (sales + [sale])[i] == sales[i]; }
    }
  }

  class Store {
    var branches: map<BranchId, Branch>
    var users: map<UserId, User>
    var products: map<ProductId, Product>
    var variants: map<VariantId, Variant>
    /** ProductStock: one counter per (product, branch). */
    var productStock: map<(ProductId, BranchId), int>
    /** VariantStock: one counter per (variant, branch). */
    var variantStock: map<(VariantId, BranchId), int>
    var movements: seq<Movement>
    var sales: seq<Sale>
    var nextId: nat

    /** The store's invariant: `ValidState` of its fields, and a history
        that names only existing products. */
    ghost predicate Valid()
      reads this
    {
      && ValidState(branches, users, products, variants, productStock, variantStock, sales, nextId)
      && HistoryKnown(products, sales, movements)
    }

    constructor ()
      ensures Valid()
      ensures branches == map[] && users == map[] && products == map[] && variants == map[]
      ensures productStock == map[] && variantStock == map[]
      ensures movements == [] && sales == [] && nextId == 0
    {
      branches, users, products, variants := map[], map[], map[], map[];
      productStock, variantStock := map[], map[];
      movements, sales := [], [];
      nextId := 0;
    }
  }
}
