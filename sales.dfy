/** `processSale`: validates an order, then, inside one transaction, creates
    the sale with its items and walks the lines in order, decrementing the
    variant counter (line with a variant) or the product counter (line
    without one) at the seller's branch and appending one SALIDA movement per
    line. A missing counter or a short stock on any line aborts the whole
    transaction. */
module Sales {
  import opened Common
  import opened Ledger

  datatype LineInput = LineInput(productId: ProductId, variantId: Option<VariantId>, quantity: int, price: int)

  datatype SaleInput = SaleInput(
    userId: UserId,
    items: seq<LineInput>,
    total: int,
    paymentMethod: PaymentMethod,
    cashAmount: Option<int>,
    change: Option<int>,
    mesa: bool,
    mesaNumber: Option<string>,
    observaciones: Option<string>)

  datatype SaleError =
    | InvalidInput        // the base schema rejects the order
    | CashAmountRequired  // "Debe indicar el monto recibido en efectivo."
    | MesaNumberRequired  // "Debe ingresar un número de mesa."
    | NoBranch            // the seller is unknown or has no branch
    | UnknownItem         // an item names a product or variant that does not exist
    | NoVariantStock      // a variant line without a counter at the branch
    | NoProductStock      // a product line without a counter at the branch
    | InsufficientStock

  /* ---------------------------------------------------------------
     The input schema and its two refinements
     --------------------------------------------------------------- */

  /** Every line has a positive integer quantity and a positive price, and
      the total is positive. */
  predicate SchemaValid(input: SaleInput) {
    && input.total > 0
    && forall i | 0 <= i < |input.items| :: input.items[i].quantity > 0 && input.items[i].price > 0
  }

  /** Cash payments must state a positive amount received. */
  predicate CashOk(input: SaleInput) {
    input.paymentMethod == Efectivo ==> input.cashAmount.Some? && input.cashAmount.value > 0
  }

  /** A sale at a table must name the table. */
  predicate MesaOk(input: SaleInput) {
    input.mesa ==> input.mesaNumber.Some? && !IsBlank(input.mesaNumber.value)
  }

  function Validate(input: SaleInput): (r: Outcome<SaleError>)
    ensures r == Pass <==> SchemaValid(input) && CashOk(input) && MesaOk(input)
    ensures SchemaValid(input) && input.paymentMethod == Efectivo && (input.cashAmount.None? || input.cashAmount.value <= 0)
            ==> r == Fail(CashAmountRequired)
    ensures SchemaValid(input) && CashOk(input) && input.mesa && (input.mesaNumber.None? || Trim(input.mesaNumber.value) == "")
            ==> r == Fail(MesaNumberRequired)
  {
    if !SchemaValid(input) then Fail(InvalidInput)
    else if !CashOk(input) then Fail(CashAmountRequired)
    else if !MesaOk(input) then Fail(MesaNumberRequired)
    else Pass
  }

  /* ---------------------------------------------------------------
     The sale record
     --------------------------------------------------------------- */

  function SaleItems(lines: seq<LineInput>): (r: seq<SaleItem>)
    ensures |r| == |lines|
    ensures forall i | 0 <= i < |r| ::
      && r[i].productId == lines[i].productId
      && r[i].variantId == lines[i].variantId
      && r[i].quantity == lines[i].quantity
      && r[i].price == lines[i].price
      && r[i].subtotal == lines[i].price * lines[i].quantity
  {
    seq(|lines|, i requires 0 <= i < |lines| =>
      SaleItem(lines[i].productId, lines[i].variantId, lines[i].quantity, lines[i].price,
               lines[i].price * lines[i].quantity))
  }

  /** The sale's items can be inserted: each names an existing product and,
      when it has one, an existing variant. */
  predicate ItemsKnown(products: map<ProductId, Product>, variants: map<VariantId, Variant>, lines: seq<LineInput>) {
    forall i | 0 <= i < |lines| ::
      lines[i].productId in products && (lines[i].variantId.Some? ==> lines[i].variantId.value in variants)
  }

  /** The stored sale: the table number only for a sale at a table; cash and
      change as sent. */
  function BuildSale(id: SaleId, input: SaleInput, branch: BranchId): (s: Sale)
    ensures s.id == id && s.userId == input.userId && s.branchId == branch
    ensures s.mesaNumber == if input.mesa then input.mesaNumber else None
    ensures s.items == SaleItems(input.items)
  {
    Sale(id, input.userId, branch, input.total, input.paymentMethod, input.cashAmount, input.change,
         input.mesa, if input.mesa then input.mesaNumber else None, input.observaciones,
         SaleItems(input.items))
  }

  /* ---------------------------------------------------------------
     The transaction's effect on the counters and the log
     --------------------------------------------------------------- */

  datatype Counters = Counters(
    product: map<(ProductId, BranchId), int>,
    variant: map<(VariantId, BranchId), int>,
    log: seq<Movement>)

  /** The reason written on each sale movement; it names the sale. */
  function SaleReason(saleId: SaleId, isVariant: bool): string {
    "Venta #" + NatToString(saleId) + (if isVariant then " (variante)" else "")
  }

  function SaleMovement(line: LineInput, saleId: SaleId, user: UserId, branch: BranchId): Movement {
    Movement(line.productId, line.variantId, Salida, line.quantity,
             SaleReason(saleId, line.variantId.Some?), user, branch)
  }

  /** One line: check that its counter exists and holds at least the
      quantity, then decrement it and log one SALIDA. */
  function DecrementLine(c: Counters, line: LineInput, saleId: SaleId, user: UserId, branch: BranchId)
    : Result<Counters, SaleError>
  {
    match line.variantId
    case Some(v) =>
      var k := (v, branch);
      if k !in c.variant then Err(NoVariantStock)
      else if c.variant[k] < line.quantity then Err(InsufficientStock)
      else Ok(c.(variant := c.variant[k := c.variant[k] - line.quantity],
                 log := c.log + [SaleMovement(line, saleId, user, branch)]))
    case None =>
      var k := (line.productId, branch);
      if k !in c.product then Err(NoProductStock)
      else if c.product[k] < line.quantity then Err(InsufficientStock)
      else Ok(c.(product := c.product[k := c.product[k] - line.quantity],
                 log := c.log + [SaleMovement(line, saleId, user, branch)]))
  }

  /** The lines in order, each one seeing the counters the earlier ones left;
      the first failing line fails the whole order. */
  function DecrementAll(c: Counters, lines: seq<LineInput>, saleId: SaleId, user: UserId, branch: BranchId)
    : Result<Counters, SaleError>
  {
    if lines == [] then Ok(c)
    else
      match DecrementAll(c, lines[..|lines| - 1], saleId, user, branch)
      case Err(e) => Err(e)
      case Ok(c') => DecrementLine(c', lines[|lines| - 1], saleId, user, branch)
  }

  /** Once a prefix of the order fails, the whole order fails. */
  lemma {:induction false} PrefixFailureIsFinal(c: Counters, lines: seq<LineInput>, n: nat, saleId: SaleId, user: UserId, branch: BranchId)
    requires n <= |lines|
    requires DecrementAll(c, lines[..n], saleId, user, branch).Err?
    ensures DecrementAll(c, lines, saleId, user, branch) == DecrementAll(c, lines[..n], saleId, user, branch)
  {
    if n < |lines| {
      assert lines[..|lines| - 1][..n] == lines[..n];
      PrefixFailureIsFinal(c, lines[..|lines| - 1], n, saleId, user, branch);
    } else {
      assert lines[..n] == lines;
    }
  }

  /** A successful order leaves every counter non-negative and creates no
      counter. */
  lemma {:induction false} DecrementAllKeepsInvariant(c: Counters, lines: seq<LineInput>, saleId: SaleId, user: UserId, branch: BranchId)
    requires NonNegative(c.product) && NonNegative(c.variant)
    requires DecrementAll(c, lines, saleId, user, branch).Ok?
    ensures var c' := DecrementAll(c, lines, saleId, user, branch).value;
      NonNegative(c'.product) && NonNegative(c'.variant) &&
      c'.product.Keys == c.product.Keys && c'.variant.Keys == c.variant.Keys
  {
    if lines != [] {
      DecrementAllKeepsInvariant(c, lines[..|lines| - 1], saleId, user, branch);
    }
  }

  /** A successful order appends exactly one movement per line, in line
      order: a SALIDA of the line's quantity whose reason names the sale. */
  lemma {:induction false} DecrementAllLog(c: Counters, lines: seq<LineInput>, saleId: SaleId, user: UserId, branch: BranchId)
    requires DecrementAll(c, lines, saleId, user, branch).Ok?
    ensures var c' := DecrementAll(c, lines, saleId, user, branch).value;
      && |c'.log| == |c.log| + |lines|
      && c'.log[..|c.log|] == c.log
      && forall j | 0 <= j < |lines| :: c'.log[|c.log| + j] == SaleMovement(lines[j], saleId, user, branch)
  {
    if lines != [] {
      var pre := lines[..|lines| - 1];
      DecrementAllLog(c, pre, saleId, user, branch);
      var mid := DecrementAll(c, pre, saleId, user, branch).value;
      var c' := DecrementAll(c, lines, saleId, user, branch).value;
      assert c'.log == mid.log + [SaleMovement(lines[|lines| - 1], saleId, user, branch)];
      forall j | 0 <= j < |lines|
        ensures c'.log[|c.log| + j] == SaleMovement(lines[j], saleId, user, branch)
      {
        if j < |pre| { assert lines[j] == pre[j]; }
      }
    }
  }

  /* ---------------------------------------------------------------
     A reference description: the order succeeds exactly when every line
     has a counter and no counter is asked for more than it holds
     --------------------------------------------------------------- */

  /** The total quantity the lines without a variant ask of product `p`. */
  function ProductDemand(lines: seq<LineInput>, p: ProductId): int {
    if lines == [] then 0
    else
      var l := lines[|lines| - 1];
      ProductDemand(lines[..|lines| - 1], p) + (if l.variantId.None? && l.productId == p then l.quantity else 0)
  }

  /** The total quantity the lines ask of variant `v`. */
  function VariantDemand(lines: seq<LineInput>, v: VariantId): int {
    if lines == [] then 0
    else
      var l := lines[|lines| - 1];
      VariantDemand(lines[..|lines| - 1], v) + (if l.variantId == Some(v) then l.quantity else 0)
  }

  /** The line's counter exists at the branch. */
  predicate LineCovered(c: Counters, line: LineInput, branch: BranchId) {
    match line.variantId
    case Some(v) => (v, branch) in c.variant
    case None => (line.productId, branch) in c.product
  }

  /** Every line's counter exists at the branch. */
  predicate Covered(c: Counters, lines: seq<LineInput>, branch: BranchId) {
    forall i | 0 <= i < |lines| :: LineCovered(c, lines[i], branch)
  }

  /** No counter at the branch is asked for more than it holds. */
  predicate WithinStock(c: Counters, lines: seq<LineInput>, branch: BranchId) {
    && (forall k | k in c.product && k.1 == branch :: ProductDemand(lines, k.0) <= c.product[k])
    && (forall k | k in c.variant && k.1 == branch :: VariantDemand(lines, k.0) <= c.variant[k])
  }

  predicate PositiveQuantities(lines: seq<LineInput>) {
    forall i | 0 <= i < |lines| :: lines[i].quantity > 0
  }

  /** What a successful order leaves in each counter: its value less the
      whole demand on it (counters at other branches are untouched). */
  predicate DecrementedBy(c: Counters, c': Counters, lines: seq<LineInput>, branch: BranchId) {
    && c'.product.Keys == c.product.Keys
    && c'.variant.Keys == c.variant.Keys
    && (forall k | k in c.product :: c'.product[k] == c.product[k] - (if k.1 == branch then ProductDemand(lines, k.0) else 0))
    && (forall k | k in c.variant :: c'.variant[k] == c.variant[k] - (if k.1 == branch then VariantDemand(lines, k.0) else 0))
  }

  lemma CoveredSnoc(c: Counters, lines: seq<LineInput>, branch: BranchId)
    requires lines != []
    ensures Covered(c, lines, branch) <==>
      Covered(c, lines[..|lines| - 1], branch) && LineCovered(c, lines[|lines| - 1], branch)
  {
    var pre := lines[..|lines| - 1];
    assert forall i | 0 <= i < |pre| :: pre[i] == lines[i];
  }

  /** With positive quantities, demand only grows as lines are added. */
  lemma WithinStockPrefix(c: Counters, lines: seq<LineInput>, branch: BranchId)
    requires lines != [] && lines[|lines| - 1].quantity > 0
    requires WithinStock(c, lines, branch)
    ensures WithinStock(c, lines[..|lines| - 1], branch)
  {
    var pre := lines[..|lines| - 1];
    forall k | k in c.product && k.1 == branch ensures ProductDemand(pre, k.0) <= c.product[k] {
      assert ProductDemand(lines, k.0) <= c.product[k];
    }
    forall k | k in c.variant && k.1 == branch ensures VariantDemand(pre, k.0) <= c.variant[k] {
      assert VariantDemand(lines, k.0) <= c.variant[k];
    }
  }

  /** The last line of an order is a variant line: it succeeds on what the
      earlier lines left exactly when the whole order stays within stock. */
  lemma StepVariant(c: Counters, mid: Counters, lines: seq<LineInput>, saleId: SaleId, user: UserId, branch: BranchId)
    requires lines != [] && lines[|lines| - 1].variantId.Some?
    requires (lines[|lines| - 1].variantId.value, branch) in c.variant
    requires WithinStock(c, lines[..|lines| - 1], branch)
    requires DecrementedBy(c, mid, lines[..|lines| - 1], branch)
    ensures DecrementLine(mid, lines[|lines| - 1], saleId, user, branch).Ok? <==> WithinStock(c, lines, branch)
    ensures DecrementLine(mid, lines[|lines| - 1], saleId, user, branch).Ok? ==>
      DecrementedBy(c, DecrementLine(mid, lines[|lines| - 1], saleId, user, branch).value, lines, branch)
  {
    var pre := lines[..|lines| - 1];
    var l := lines[|lines| - 1];
    var k := (l.variantId.value, branch);
    var r := DecrementLine(mid, l, saleId, user, branch);
    assert forall p :: ProductDemand(lines, p) == ProductDemand(pre, p);
    assert forall v | v != k.0 :: VariantDemand(lines, v) == VariantDemand(pre, v);
    assert VariantDemand(lines, k.0) == VariantDemand(pre, k.0) + l.quantity;
    if r.Ok? {
      assert r.value.variant == mid.variant[k := mid.variant[k] - l.quantity];
    } else {
      assert VariantDemand(lines, k.0) > c.variant[k];
    }
  }

  /** The last line of an order is a product line: the same as `StepVariant`
      for the product counter. */
  lemma StepProduct(c: Counters, mid: Counters, lines: seq<LineInput>, saleId: SaleId, user: UserId, branch: BranchId)
    requires lines != [] && lines[|lines| - 1].variantId.None?
    requires (lines[|lines| - 1].productId, branch) in c.product
    requires WithinStock(c, lines[..|lines| - 1], branch)
    requires DecrementedBy(c, mid, lines[..|lines| - 1], branch)
    ensures DecrementLine(mid, lines[|lines| - 1], saleId, user, branch).Ok? <==> WithinStock(c, lines, branch)
    ensures DecrementLine(mid, lines[|lines| - 1], saleId, user, branch).Ok? ==>
      DecrementedBy(c, DecrementLine(mid, lines[|lines| - 1], saleId, user, branch).value, lines, branch)
  {
    var pre := lines[..|lines| - 1];
    var l := lines[|lines| - 1];
    var k := (l.productId, branch);
    var r := DecrementLine(mid, l, saleId, user, branch);
    assert forall v :: VariantDemand(lines, v) == VariantDemand(pre, v);
    assert forall p | p != k.0 :: ProductDemand(lines, p) == ProductDemand(pre, p);
    assert ProductDemand(lines, k.0) == ProductDemand(pre, k.0) + l.quantity;
    if r.Ok? {
      assert r.value.product == mid.product[k := mid.product[k] - l.quantity];
    } else {
      assert ProductDemand(lines, k.0) > c.product[k];
    }
  }

  /** Processing the lines one at a time, each checked against what the
      earlier lines left, accepts the order exactly when every counter exists
      and covers the whole demand; the counters then end at their value less
      that demand. So a later line on the same counter is checked against the
      already-decremented value. */
  lemma {:induction false} DecrementAllSucceedsIff(c: Counters, lines: seq<LineInput>, saleId: SaleId, user: UserId, branch: BranchId)
    requires NonNegative(c.product) && NonNegative(c.variant)
    requires PositiveQuantities(lines)
    ensures DecrementAll(c, lines, saleId, user, branch).Ok? <==> Covered(c, lines, branch) && WithinStock(c, lines, branch)
    ensures DecrementAll(c, lines, saleId, user, branch).Ok? ==>
      DecrementedBy(c, DecrementAll(c, lines, saleId, user, branch).value, lines, branch)
  {
    if lines == [] {
      return;
    }
    var pre := lines[..|lines| - 1];
    var l := lines[|lines| - 1];
    assert PositiveQuantities(pre) by {
      assert forall i | 0 <= i < |pre| :: pre[i] == lines[i];
    }
    DecrementAllSucceedsIff(c, pre, saleId, user, branch);
    CoveredSnoc(c, lines, branch);
    if WithinStock(c, lines, branch) {
      WithinStockPrefix(c, lines, branch);
    }
    var rp := DecrementAll(c, pre, saleId, user, branch);
    if rp.Err? || !LineCovered(c, l, branch) {
      return;
    }
    if l.variantId.Some? {
      StepVariant(c, rp.value, lines, saleId, user, branch);
    } else {
      StepProduct(c, rp.value, lines, saleId, user, branch);
    }
  }

  /* ---------------------------------------------------------------
     The server action
     --------------------------------------------------------------- */

  /** The loop of the transaction, on copies of the counters and the log:
      it stops at the first line whose counter is missing or short. */
  method RunLines(c0: Counters, items: seq<LineInput>, saleId: SaleId, user: UserId, branch: BranchId)
    returns (r: Result<Counters, SaleError>)
    ensures r == DecrementAll(c0, items, saleId, user, branch)
  {
    var ps, vs, log := c0.product, c0.variant, c0.log;
    var i := 0;
    while i < |items|
      invariant 0 <= i <= |items|
      invariant DecrementAll(c0, items[..i], saleId, user, branch) == Ok(Counters(ps, vs, log))
    {
      var item := items[i];
      assert items[..i + 1][..i] == items[..i];
      assert items[..i + 1][i] == item;
      if item.variantId.Some? {
        var k := (item.variantId.value, branch);
        if k !in vs {
          PrefixFailureIsFinal(c0, items, i + 1, saleId, user, branch);
          return Err(NoVariantStock);
        }
        if vs[k] < item.quantity {
          PrefixFailureIsFinal(c0, items, i + 1, saleId, user, branch);
          return Err(InsufficientStock);
        }
        vs := vs[k := vs[k] - item.quantity];
        log := log + [Movement(item.productId, item.variantId, Salida, item.quantity,
                               SaleReason(saleId, true), user, branch)];
      } else {
        var k := (item.productId, branch);
        if k !in ps {
          PrefixFailureIsFinal(c0, items, i + 1, saleId, user, branch);
          return Err(NoProductStock);
        }
        if ps[k] < item.quantity {
          PrefixFailureIsFinal(c0, items, i + 1, saleId, user, branch);
          return Err(InsufficientStock);
        }
        ps := ps[k := ps[k] - item.quantity];
        log := log + [Movement(item.productId, None, Salida, item.quantity,
                               SaleReason(saleId, false), user, branch)];
      }
      i := i + 1;
    }
    assert items[..i] == items;
    r := Ok(Counters(ps, vs, log));
  }

  /** A sale whose items all exist stores items and movements that name
      existing products only. */
  lemma SaleHistoryKnown(products: map<ProductId, Product>, variants: map<VariantId, Variant>, c: Counters,
                         input: SaleInput, saleId: SaleId, branch: BranchId)
    requires forall i | 0 <= i < |c.log| :: c.log[i].productId in products
    requires ItemsKnown(products, variants, input.items)
    requires DecrementAll(c, input.items, saleId, input.userId, branch).Ok?
    ensures SaleNamesProducts(products, BuildSale(saleId, input, branch))
    ensures var log := DecrementAll(c, input.items, saleId, input.userId, branch).value.log;
      forall i | 0 <= i < |log| :: log[i].productId in products
  {
    DecrementAllLog(c, input.items, saleId, input.userId, branch);
    var log := DecrementAll(c, input.items, saleId, input.userId, branch).value.log;
    forall i | 0 <= i < |log| ensures log[i].productId in products {
      if i >= |c.log| {
        assert log[i] == SaleMovement(input.items[i - |c.log|], saleId, input.userId, branch);
      } else {
        assert log[..|c.log|][i] == c.log[i];
      }
    }
  }

  /** The end of the transaction: the new counters, the log and the sale
      become visible together, and the sale's id is consumed. */
  method CommitSale(st: Store, c: Counters, sale: Sale)
    requires st.Valid()
    requires NonNegative(c.product) && NonNegative(c.variant)
    requires c.product.Keys == st.productStock.Keys && c.variant.Keys == st.variantStock.Keys
    requires sale.branchId in st.branches && sale.id == st.nextId
    requires SaleNamesProducts(st.products, sale)
    requires forall i | 0 <= i < |c.log| :: c.log[i].productId in st.products
    modifies st
    ensures st.Valid()
    ensures st.productStock == c.product && st.variantStock == c.variant && st.movements == c.log
    ensures st.sales == old(st.sales) + [sale] && st.nextId == old(st.nextId) + 1
    ensures st.branches == old(st.branches) && st.users == old(st.users)
    ensures st.products == old(st.products) && st.variants == old(st.variants)
  {
    HistoryKnownSale(st.products, st.sales, sale, c.log);
    SaleKeepsValid(st.branches, st.users, st.products, st.variants, st.productStock, st.variantStock,
                   c.product, c.variant, st.sales, sale, st.nextId);
    st.productStock, st.variantStock, st.movements := c.product, c.variant, c.log;
    st.sales := st.sales + [sale];
    st.nextId := st.nextId + 1;
  }

  method ProcessSale(st: Store, input: SaleInput) returns (r: Result<SaleId, SaleError>)
    requires st.Valid()
    modifies st
    ensures st.Valid()
    ensures st.branches == old(st.branches) && st.users == old(st.users)
    ensures st.products == old(st.products) && st.variants == old(st.variants)
    // all or nothing: a failed order changes nothing at all
    ensures r.Err? ==> unchanged(st)
    ensures Validate(input).Fail? ==> r == Err(Validate(input).error)
    ensures Validate(input) == Pass && BranchOf(old(st.users), input.userId).None? ==> r == Err(NoBranch)
    // the items are inserted before the stock loop runs
    ensures (&& Validate(input) == Pass && BranchOf(old(st.users), input.userId).Some?
             && !ItemsKnown(old(st.products), old(st.variants), input.items)) ==> r == Err(UnknownItem)
    ensures r.Ok? <==>
      && Validate(input) == Pass
      && BranchOf(old(st.users), input.userId).Some?
      && ItemsKnown(old(st.products), old(st.variants), input.items)
      && DecrementAll(Counters(old(st.productStock), old(st.variantStock), old(st.movements)), input.items,
                      old(st.nextId), input.userId, BranchOf(old(st.users), input.userId).value).Ok?
    ensures (&& Validate(input) == Pass && BranchOf(old(st.users), input.userId).Some?
             && ItemsKnown(old(st.products), old(st.variants), input.items)) ==>
      var b := BranchOf(old(st.users), input.userId).value;
      var d := DecrementAll(Counters(old(st.productStock), old(st.variantStock), old(st.movements)), input.items,
                            old(st.nextId), input.userId, b);
      d.Err? ==> r == Err(d.error)
    ensures r.Ok? ==>
      var b := BranchOf(old(st.users), input.userId).value;
      var c := DecrementAll(Counters(old(st.productStock), old(st.variantStock), old(st.movements)), input.items,
                            old(st.nextId), input.userId, b).value;
      && r.value == old(st.nextId)
      && st.productStock == c.product
      && st.variantStock == c.variant
      && st.movements == c.log
      && st.sales == old(st.sales) + [BuildSale(old(st.nextId), input, b)]
      && st.nextId == old(st.nextId) + 1
  {
    var v := Validate(input);
    if v.Fail? {
      return Err(v.error);
    }
    var ob := BranchOf(st.users, input.userId);
    if ob.None? {
      return Err(NoBranch);
    }
    var branchId := ob.value;
    var saleId := st.nextId;
    // creating the sale inserts its items, each referring to its product
    // and variant: an unknown one fails the insert and the transaction
    if !ItemsKnown(st.products, st.variants, input.items) {
      return Err(UnknownItem);
    }

    // the transaction works on copies and commits only at the end
    var sale := BuildSale(saleId, input, branchId);
    var res := RunLines(Counters(st.productStock, st.variantStock, st.movements), input.items,
                        saleId, input.userId, branchId);
    if res.Err? {
      return Err(res.error);
    }
    DecrementAllKeepsInvariant(Counters(st.productStock, st.variantStock, st.movements), input.items,
                               saleId, input.userId, branchId);
    SaleHistoryKnown(st.products, st.variants, Counters(st.productStock, st.variantStock, st.movements),
                     input, saleId, branchId);

    CommitSale(st, res.value, sale);
    r := Ok(saleId);
  }
}
