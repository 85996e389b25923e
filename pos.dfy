/** The point-of-sale screen: the product search box, the cart (add a line,
    change its quantity, remove it), its totals, and the conversion of the
    cart into the items sent to the payment step. Money is in cents. */
module Pos {
  import opened Common

  datatype Category = Category(id: string, name: string, color: string)

  /** A product as the sale screen receives it, with its stock at the
      seller's branch. */
  datatype ProductPos = ProductPos(
    id: string,
    name: string,
    price: int,
    costo: int,
    barcode: Option<string>,
    image: Option<string>,
    color: string,
    active: bool,
    category: Category,
    stock: int)

  datatype SelectedVariant = SelectedVariant(id: string, name: string, value: string, priceAdjustment: int)

  /** One line of the cart held by the screen. */
  datatype CartLine = CartLine(product: ProductPos, quantity: int, selectedVariant: Option<SelectedVariant>)

  /** One line as the payment step receives it. */
  datatype CartItem = CartItem(
    productId: string,
    name: string,
    price: int,
    quantity: int,
    subtotal: int,
    image: Option<string>,
    color: Option<string>,
    variantId: Option<string>,
    variantName: Option<string>,
    variantValue: Option<string>)

  /* ---------------------------------------------------------------
     Search
     --------------------------------------------------------------- */

  /** The product's name or category name contains `term`, both lower-cased. */
  predicate Matches(p: ProductPos, term: string) {
    Contains(ToLower(p.name), term) || Contains(ToLower(p.category.name), term)
  }

  /** `filteredProducts`: nothing for a blank search, otherwise the first
      eight matches in catalogue order. Only the blank test trims the term. */
  function FilteredProducts(products: seq<ProductPos>, searchTerm: string): (r: seq<ProductPos>)
    ensures IsBlank(searchTerm) ==> r == []
    ensures |r| <= 8
    ensures forall i | 0 <= i < |r| :: r[i] in products && Matches(r[i], ToLower(searchTerm))
  {
    if Trim(searchTerm) == [] then []
    else
      var term := ToLower(searchTerm);
      Take(Filter(products, p => Matches(p, term)), 8)
  }

  /** While at most eight products match, the search shows every one of them. */
  lemma SearchShowsAllFewMatches(products: seq<ProductPos>, searchTerm: string, p: ProductPos)
    requires !IsBlank(searchTerm)
    requires |Filter(products, q => Matches(q, ToLower(searchTerm)))| <= 8
    requires p in products && Matches(p, ToLower(searchTerm))
    ensures p in FilteredProducts(products, searchTerm)
  {
    var term := ToLower(searchTerm);
    var all := Filter(products, q => Matches(q, term));
    assert all == Filter(products, q => Matches(q, ToLower(searchTerm)));
    assert p in all;
    assert FilteredProducts(products, searchTerm) == all;
  }

  /* ---------------------------------------------------------------
     Cart lines
     --------------------------------------------------------------- */

  function VariantKey(v: Option<SelectedVariant>): Option<string> {
    if v.Some? then Some(v.value.id) else None
  }

  /** `item.product.id === product.id && item.selectedVariant?.id === variant?.id`. */
  predicate SameLine(l: CartLine, productId: string, variant: Option<string>) {
    l.product.id == productId && VariantKey(l.selectedVariant) == variant
  }

  /** `findIndex`: the first line for the pair, or -1. */
  function FindLine(lines: seq<CartLine>, productId: string, variant: Option<string>): (r: int)
    ensures -1 <= r < |lines|
    ensures r >= 0 ==> SameLine(lines[r], productId, variant)
    ensures r >= 0 ==> forall j | 0 <= j < r :: !SameLine(lines[j], productId, variant)
    ensures r < 0 <==> forall j | 0 <= j < |lines| :: !SameLine(lines[j], productId, variant)
  {
    if lines == [] then -1
    else if SameLine(lines[0], productId, variant) then 0
    else
      var k := FindLine(lines[1..], productId, variant);
      assert forall j | 1 <= j < |lines| :: lines[j] == lines[1..][j - 1];
      if k < 0 then -1 else k + 1
  }

  /** At most one line per (product, variant) pair. */
  predicate UniqueLines(lines: seq<CartLine>) {
    forall i, j | 0 <= i < j < |lines| ::
      !SameLine(lines[j], lines[i].product.id, VariantKey(lines[i].selectedVariant))
  }

  predicate PositiveQuantities(lines: seq<CartLine>) {
    forall i | 0 <= i < |lines| :: lines[i].quantity > 0
  }

  /** The cart after `addToCart(product, variant)`. */
  function Added(lines: seq<CartLine>, product: ProductPos, variant: Option<SelectedVariant>): seq<CartLine> {
    var i := FindLine(lines, product.id, VariantKey(variant));
    if i < 0 then lines + [CartLine(product, 1, variant)]
    else if lines[i].quantity < product.stock then lines[i := lines[i].(quantity := lines[i].quantity + 1)]
    else lines
  }

  /** Adding a pair already in the cart adds no line: it raises that line's
      quantity by one while it is below the product's stock, and leaves every
      other line alone. */
  lemma AddExistingPair(lines: seq<CartLine>, product: ProductPos, variant: Option<SelectedVariant>, i: int)
    requires 0 <= i < |lines| && SameLine(lines[i], product.id, VariantKey(variant))
    requires UniqueLines(lines)
    ensures |Added(lines, product, variant)| == |lines|
    ensures Added(lines, product, variant)[i].quantity ==
      if lines[i].quantity < product.stock then lines[i].quantity + 1 else lines[i].quantity
    ensures forall j | 0 <= j < |lines| && j != i :: Added(lines, product, variant)[j] == lines[j]
  {
    var k := FindLine(lines, product.id, VariantKey(variant));
    assert k == i;
  }

  /** Adding a new pair appends one line with quantity 1, whatever the stock. */
  lemma AddNewPair(lines: seq<CartLine>, product: ProductPos, variant: Option<SelectedVariant>)
    requires forall j | 0 <= j < |lines| :: !SameLine(lines[j], product.id, VariantKey(variant))
    ensures Added(lines, product, variant) == lines + [CartLine(product, 1, variant)]
  {
  }

  lemma AddKeepsInvariant(lines: seq<CartLine>, product: ProductPos, variant: Option<SelectedVariant>)
    requires UniqueLines(lines) && PositiveQuantities(lines)
    ensures UniqueLines(Added(lines, product, variant))
    ensures PositiveQuantities(Added(lines, product, variant))
  {
    var r := Added(lines, product, variant);
    var i := FindLine(lines, product.id, VariantKey(variant));
    if i >= 0 {
      assert forall j | 0 <= j < |r| :: r[j].product == lines[j].product && r[j].selectedVariant == lines[j].selectedVariant;
    } else {
      forall a, b | 0 <= a < b < |r|
        ensures !SameLine(r[b], r[a].product.id, VariantKey(r[a].selectedVariant))
      {
        if b == |lines| {
          assert !SameLine(lines[a], product.id, VariantKey(variant));
        } else {
          assert r[a] == lines[a] && r[b] == lines[b];
        }
      }
    }
  }

  /** The cart after `updateQuantity(index, delta)`. */
  function QuantityUpdated(lines: seq<CartLine>, index: nat, delta: int): (r: seq<CartLine>)
    requires index < |lines|
    ensures lines[index].quantity + delta <= 0 ==> r == RemoveAt(lines, index)
    ensures lines[index].quantity + delta > lines[index].product.stock && lines[index].quantity + delta > 0 ==> r == lines
    ensures 0 < lines[index].quantity + delta <= lines[index].product.stock ==>
      |r| == |lines| && r[index].quantity == lines[index].quantity + delta
      && forall j | 0 <= j < |lines| && j != index :: r[j] == lines[j]
  {
    var q := lines[index].quantity + delta;
    if q <= 0 then RemoveAt(lines, index)
    else if q <= lines[index].product.stock then lines[index := lines[index].(quantity := q)]
    else lines
  }

  /** A quantity change never takes a line above the product's stock unless
      it was there already. */
  lemma UpdateRespectsStock(lines: seq<CartLine>, index: nat, delta: int)
    requires index < |lines|
    requires |QuantityUpdated(lines, index, delta)| == |lines|
    ensures QuantityUpdated(lines, index, delta)[index].quantity <= lines[index].product.stock
      || QuantityUpdated(lines, index, delta)[index] == lines[index]
  {
  }

  lemma RemoveKeepsInvariant(lines: seq<CartLine>, index: int)
    requires UniqueLines(lines) && PositiveQuantities(lines)
    ensures UniqueLines(RemoveAt(lines, index)) && PositiveQuantities(RemoveAt(lines, index))
  {
    var r := RemoveAt(lines, index);
    if 0 <= index < |lines| {
      forall a, b | 0 <= a < b < |r|
        ensures !SameLine(r[b], r[a].product.id, VariantKey(r[a].selectedVariant))
      {
        var a', b' := if a < index then a else a + 1, if b < index then b else b + 1;
        assert r[a] == lines[a'] && r[b] == lines[b'];
      }
    }
  }

  lemma UpdateKeepsInvariant(lines: seq<CartLine>, index: nat, delta: int)
    requires index < |lines|
    requires UniqueLines(lines) && PositiveQuantities(lines)
    ensures UniqueLines(QuantityUpdated(lines, index, delta))
    ensures PositiveQuantities(QuantityUpdated(lines, index, delta))
  {
    var r := QuantityUpdated(lines, index, delta);
    if lines[index].quantity + delta <= 0 {
      RemoveKeepsInvariant(lines, index);
    } else {
      assert forall j | 0 <= j < |r| :: r[j].product == lines[j].product && r[j].selectedVariant == lines[j].selectedVariant;
    }
  }

  /* ---------------------------------------------------------------
     Totals and the hand-over to payment
     --------------------------------------------------------------- */

  function UnitPrice(l: CartLine): int {
    l.product.price + (if l.selectedVariant.Some? then l.selectedVariant.value.priceAdjustment else 0)
  }

  /** `total`: the sum of (price + adjustment) × quantity. */
  function Total(lines: seq<CartLine>): int {
    if lines == [] then 0 else Total(lines[..|lines| - 1]) + UnitPrice(lines[|lines| - 1]) * lines[|lines| - 1].quantity
  }

  /** `totalItems`: the sum of the quantities. */
  function TotalItems(lines: seq<CartLine>): int {
    if lines == [] then 0 else TotalItems(lines[..|lines| - 1]) + lines[|lines| - 1].quantity
  }

  /** Changing one line's quantity changes the item count by the difference. */
  lemma {:induction false} TotalItemsUpdate(lines: seq<CartLine>, i: nat, l: CartLine)
    requires i < |lines|
    ensures TotalItems(lines[i := l]) == TotalItems(lines) - lines[i].quantity + l.quantity
  {
    var m := lines[i := l];
    var n := |lines| - 1;
    if i < n {
      assert m[..n] == lines[..n][i := l];
      TotalItemsUpdate(lines[..n], i, l);
    } else {
      assert m[..n] == lines[..n];
    }
  }

  /** Adding to the cart raises the item count by one, except on a line
      already at the product's stock. */
  lemma AddCountsOne(lines: seq<CartLine>, product: ProductPos, variant: Option<SelectedVariant>)
    ensures var i := FindLine(lines, product.id, VariantKey(variant));
      TotalItems(Added(lines, product, variant)) ==
        TotalItems(lines) + (if i >= 0 && lines[i].quantity >= product.stock then 0 else 1)
  {
    var i := FindLine(lines, product.id, VariantKey(variant));
    if i >= 0 && lines[i].quantity < product.stock {
      TotalItemsUpdate(lines, i, lines[i].(quantity := lines[i].quantity + 1));
    } else if i < 0 {
      var r := lines + [CartLine(product, 1, variant)];
      assert r[..|r| - 1] == lines;
    }
  }

  function ToItem(l: CartLine): CartItem {
    var price := UnitPrice(l);
    var v := l.selectedVariant;
    CartItem(l.product.id, l.product.name, price, l.quantity, price * l.quantity,
      l.product.image, Some(l.product.color),
      if v.Some? then Some(v.value.id) else None,
      if v.Some? then Some(v.value.name) else None,
      if v.Some? then Some(v.value.value) else None)
  }

  /** `cartToGlobal`: one item per line, in order, priced at the unit price
      with subtotal = price × quantity, and no variant fields for a line
      without a variant. */
  function CartToGlobal(lines: seq<CartLine>): (r: seq<CartItem>)
    ensures |r| == |lines|
    ensures forall i | 0 <= i < |r| ::
      && r[i].productId == lines[i].product.id
      && r[i].quantity == lines[i].quantity
      && r[i].price == UnitPrice(lines[i])
      && r[i].subtotal == r[i].price * r[i].quantity
      && (r[i].variantId.None? <==> lines[i].selectedVariant.None?)
      && (lines[i].selectedVariant.None? ==> r[i].variantName.None? && r[i].variantValue.None?)
  {
    seq(|lines|, i requires 0 <= i < |lines| => ToItem(lines[i]))
  }

  function Subtotals(items: seq<CartItem>): int {
    if items == [] then 0 else Subtotals(items[..|items| - 1]) + items[|items| - 1].subtotal
  }

  /** The items handed to payment add up to the cart's total. */
  lemma {:induction false} GlobalMatchesTotal(lines: seq<CartLine>)
    ensures Subtotals(CartToGlobal(lines)) == Total(lines)
  {
    if lines != [] {
      var n := |lines| - 1;
      assert CartToGlobal(lines)[..n] == CartToGlobal(lines[..n]);
      GlobalMatchesTotal(lines[..n]);
    }
  }

  /** The cart state of the sale screen. `addToCart` and `updateQuantity`
      change one line in place on a copy of the list. */
  class Cart {
    var lines: seq<CartLine>

    constructor ()
      ensures lines == []
    {
      lines := [];
    }

    method AddToCart(product: ProductPos, variant: Option<SelectedVariant>)
      modifies this
      ensures lines == Added(old(lines), product, variant)
    {
      var i := FindLine(lines, product.id, VariantKey(variant));
      if i >= 0 {
        if lines[i].quantity < product.stock {
          lines := lines[i := lines[i].(quantity := lines[i].quantity + 1)];
        }
      } else {
        lines := lines + [CartLine(product, 1, variant)];
      }
    }

    method UpdateQuantity(index: nat, delta: int)
      requires index < |lines|
      modifies this
      ensures lines == QuantityUpdated(old(lines), index, delta)
    {
      var item := lines[index];
      var q := item.quantity + delta;
      if q <= 0 {
        lines := RemoveAt(lines, index);
        return;
      }
      if q <= item.product.stock {
        lines := lines[index := item.(quantity := q)];
      }
    }

    method RemoveFromCart(index: int)
      modifies this
      ensures lines == RemoveAt(old(lines), index)
    {
      lines := RemoveAt(lines, index);
    }

    /** After a completed sale. */
    method ClearCart()
      modifies this
      ensures lines == []
    {
      lines := [];
    }
  }
}
