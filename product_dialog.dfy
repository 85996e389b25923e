/** The product create/edit dialog: the stock total it shows, the form it
    loads from a product, the list of variant rows the user edits, and the
    request it sends to `createProduct` or `updateProduct`. Numbers typed in
    the form are read by `Number`; a field that is not a number gives no
    request (the server's schema would refuse one). */
module ProductForm {
  import opened Common
  import ProductCard
  import Products

  /** The product the dialog is opened on; `None` is a missing field. */
  datatype LoadedProduct = LoadedProduct(
    id: string,
    name: Option<string>,
    price: Option<int>,
    costo: Option<int>,
    barcode: Option<string>,
    categoryId: Option<string>,
    color: Option<string>,
    stock: Option<int>,
    image: Option<string>,
    variants: Option<seq<ProductCard.CardVariant>>)

  /** `product.variants?.length > 0`. */
  predicate HasVariants(p: LoadedProduct) {
    p.variants.Some? && |p.variants.value| > 0
  }

  /** `getTotalStock`: 0 with no product; with variants, every variant's
      per-branch rows summed (a variant without rows adds 0); without, the
      product's `stock`, or 0 when it has none. */
  function GetTotalStock(product: Option<LoadedProduct>): (r: int)
    ensures product.None? ==> r == 0
    ensures product.Some? && HasVariants(product.value) ==>
      r == ProductCard.StockSum(ProductCard.AllRows(product.value.variants.value))
    ensures product.Some? && !HasVariants(product.value) ==> r == product.value.stock.GetOr(0)
  {
    match product
    case None => 0
    case Some(p) =>
      if HasVariants(p) then
        ProductCard.VariantsTotalIsAllRows(p.variants.value);
        ProductCard.VariantsTotal(p.variants.value)
      else p.stock.GetOr(0)
  }

  /** The dialog opens on the stock the product's card shows. */
  lemma DialogStockIsCardStock(p: LoadedProduct, card: ProductCard.CardProduct)
    requires p.variants == Some(card.variants) && card.variants != []
    ensures GetTotalStock(Some(p)) == ProductCard.TotalStock(card)
  {
  }

  /** The form's text fields. */
  datatype FormData = FormData(
    name: string,
    price: string,
    costo: string,
    barcode: string,
    categoryId: string,
    color: string,
    stock: string,
    image: string)

  /** One editable variant row; `id` is kept only for rows loaded from the
      product. */
  datatype VariantForm = VariantForm(id: Option<string>, name: string, value: string, priceAdjustment: string)

  const DefaultColor: string := "#10b981"

  /** `x ? x.toString() : ""`: a missing or zero amount shows as empty. */
  function AmountText(x: Option<int>): (r: string)
    ensures x.None? || x.value == 0 ==> r == ""
    ensures x.Some? && x.value != 0 ==> NumberOf(r) == x
  {
    if x.Some? && x.value != 0 then
      NumberOfIntToString(x.value);
      IntToString(x.value)
    else ""
  }

  /** The load effect's form: the product's fields, or the blank form for a
      new product; the category defaults to the first one listed. */
  function LoadForm(product: Option<LoadedProduct>, firstCategory: Option<string>): (f: FormData)
    ensures product.None? ==> f == FormData("", "", "", "", firstCategory.GetOr(""), DefaultColor, "", "")
    ensures product.Some? ==> NumberOf(f.stock) == Some(GetTotalStock(product))
    ensures product.Some? ==> f.color == product.value.color.GetOr(DefaultColor)
  {
    match product
    case None => FormData("", "", "", "", firstCategory.GetOr(""), DefaultColor, "", "")
    case Some(p) =>
      NumberOfIntToString(GetTotalStock(product));
      FormData(
        p.name.GetOr(""),
        AmountText(p.price),
        AmountText(p.costo),
        p.barcode.GetOr(""),
        if p.categoryId.Some? then p.categoryId.value else firstCategory.GetOr(""),
        p.color.GetOr(DefaultColor),
        IntToString(GetTotalStock(product)),
        p.image.GetOr(""))
  }

  /** The load effect's variant rows: one per product variant, in order,
      keeping its id; none for a new product. */
  function LoadVariants(product: Option<LoadedProduct>): (r: seq<VariantForm>)
    ensures product.None? || product.value.variants.None? ==> r == []
    ensures product.Some? && product.value.variants.Some? ==>
      var vs := product.value.variants.value;
      && |r| == |vs|
      && forall i | 0 <= i < |vs| ::
           && r[i].id == Some(vs[i].id) && r[i].name == vs[i].name && r[i].value == vs[i].value
           && NumberOf(r[i].priceAdjustment) == Some(vs[i].priceAdjustment)
  {
    if product.None? || product.value.variants.None? then []
    else
      var vs := product.value.variants.value;
      forall i | 0 <= i < |vs| ensures NumberOf(IntToString(vs[i].priceAdjustment)) == Some(vs[i].priceAdjustment) {
        NumberOfIntToString(vs[i].priceAdjustment);
      }
      seq(|vs|, i requires 0 <= i < |vs| => VariantForm(Some(vs[i].id), vs[i].name, vs[i].value, IntToString(vs[i].priceAdjustment)))
  }

  /** The row `addVariant` appends. */
  const BlankVariant: VariantForm := VariantForm(None, "", "", "0")

  /** `addVariant`: one blank row at the end. */
  function AddVariant(vs: seq<VariantForm>): (r: seq<VariantForm>)
    ensures |r| == |vs| + 1
    ensures r[..|vs|] == vs && r[|vs|] == BlankVariant
  {
    vs + [BlankVariant]
  }

  /** `removeVariant`: row `index` goes, the others keep their order; an
      index that names no row removes nothing. */
  function RemoveVariant(vs: seq<VariantForm>, index: int): (r: seq<VariantForm>)
    ensures 0 <= index < |vs| ==> |r| == |vs| - 1
    ensures 0 <= index < |vs| ==> forall j | 0 <= j < |r| :: r[j] == if j < index then vs[j] else vs[j + 1]
    ensures !(0 <= index < |vs|) ==> r == vs
  {
    RemoveAt(vs, index)
  }

  /** Removing the row just added gives the rows back. */
  lemma RemoveAddedVariant(vs: seq<VariantForm>)
    ensures RemoveVariant(AddVariant(vs), |vs|) == vs
  {
    var r := RemoveVariant(AddVariant(vs), |vs|);
    assert |r| == |vs|;
    assert forall j | 0 <= j < |r| :: r[j] == vs[j];
  }

  /** The fields the variant rows let the user type into. */
  datatype VariantField = NameField | ValueField | PriceAdjustmentField

  function FieldOf(v: VariantForm, field: VariantField): string {
    match field
    case NameField => v.name
    case ValueField => v.value
    case PriceAdjustmentField => v.priceAdjustment
  }

  /** `updateVariant`: row `index`'s `field` becomes `value`; its other
      fields, its id and every other row stay as they were. */
  function UpdateVariant(vs: seq<VariantForm>, index: nat, field: VariantField, value: string): (r: seq<VariantForm>)
    requires index < |vs|
    ensures |r| == |vs|
    ensures forall j | 0 <= j < |vs| && j != index :: r[j] == vs[j]
    ensures FieldOf(r[index], field) == value && r[index].id == vs[index].id
    ensures forall f | f != field :: FieldOf(r[index], f) == FieldOf(vs[index], f)
  {
    var v := vs[index];
    var w := match field
      case NameField => v.(name := value)
      case ValueField => v.(value := value)
      case PriceAdjustmentField => v.(priceAdjustment := value);
    vs[index := w]
  }

  /** Typing the old text back undoes an edit. */
  lemma UpdateVariantUndo(vs: seq<VariantForm>, index: nat, field: VariantField, value: string)
    requires index < |vs|
    ensures UpdateVariant(UpdateVariant(vs, index, field, value), index, field, FieldOf(vs[index], field)) == vs
  {
    var r := UpdateVariant(UpdateVariant(vs, index, field, value), index, field, FieldOf(vs[index], field));
    assert FieldOf(r[index], NameField) == vs[index].name;
    assert FieldOf(r[index], ValueField) == vs[index].value;
    assert FieldOf(r[index], PriceAdjustmentField) == vs[index].priceAdjustment;
    assert r[index] == vs[index];
    assert forall j | 0 <= j < |vs| :: r[j] == vs[j];
  }

  /** The variants sent: name, value and the number typed as price
      adjustment, never an id; `None` when an adjustment is not a number. */
  function PayloadVariants(vs: seq<VariantForm>): (r: Option<seq<Products.VariantInput>>)
    ensures r.Some? <==> forall i | 0 <= i < |vs| :: NumberOf(vs[i].priceAdjustment).Some?
    ensures r.Some? ==> |r.value| == |vs|
    ensures r.Some? ==> forall i | 0 <= i < |vs| ::
      && r.value[i].id.None? && r.value[i].name == vs[i].name && r.value[i].value == vs[i].value
      && r.value[i].priceAdjustment == NumberOf(vs[i].priceAdjustment).value
  {
    if forall i | 0 <= i < |vs| :: NumberOf(vs[i].priceAdjustment).Some? then
      Some(seq(|vs|, i requires 0 <= i < |vs| =>
        Products.VariantInput(None, vs[i].name, vs[i].value, NumberOf(vs[i].priceAdjustment).value)))
    else None
  }

  /** `handleSubmit`'s payload: the form's texts, price, cost and stock
      read as numbers, and the variant rows without their ids. */
  function Payload(f: FormData, vs: seq<VariantForm>): (r: Option<Products.ProductInput>)
    ensures r.Some? <==>
      NumberOf(f.price).Some? && NumberOf(f.costo).Some? && NumberOf(f.stock).Some? && PayloadVariants(vs).Some?
    ensures r.Some? ==>
      && r.value.name == f.name && r.value.categoryId == f.categoryId && r.value.color == f.color
      && r.value.barcode == Some(f.barcode) && r.value.image == Some(f.image)
      && r.value.price == NumberOf(f.price).value && r.value.costo == NumberOf(f.costo).value
      && r.value.stock == NumberOf(f.stock).value
      && r.value.variants == PayloadVariants(vs)
  {
    var price, costo, stock, variants := NumberOf(f.price), NumberOf(f.costo), NumberOf(f.stock), PayloadVariants(vs);
    if price.Some? && costo.Some? && stock.Some? && variants.Some? then
      Some(Products.ProductInput(f.name, price.value, costo.value, Some(f.barcode), f.categoryId, f.color,
                                 stock.value, Some(f.image), variants))
    else None
  }

  lemma SubmitNumbers(f: FormData, vs: seq<VariantForm>, price: int, costo: int, stock: int)
    requires NumberOf(f.price) == Some(price) && NumberOf(f.costo) == Some(costo) && NumberOf(f.stock) == Some(stock)
    requires PayloadVariants(vs).Some?
    ensures var r := Payload(f, vs);
      r.Some? && r.value.name == f.name && r.value.price == price && r.value.costo == costo && r.value.stock == stock
      && r.value.variants == PayloadVariants(vs)
  {
  }

  /** The rows loaded from a product are sent back as its own variants. */
  lemma LoadedVariantsSent(p: LoadedProduct)
    ensures var r := PayloadVariants(LoadVariants(Some(p)));
      && r.Some?
      && (p.variants.Some? ==>
            var vs := p.variants.value;
            && |r.value| == |vs|
            && forall i | 0 <= i < |vs| ::
                 r.value[i] == Products.VariantInput(None, vs[i].name, vs[i].value, vs[i].priceAdjustment))
  {
    var rows := LoadVariants(Some(p));
    assert forall i | 0 <= i < |rows| :: NumberOf(rows[i].priceAdjustment).Some?;
  }

  /** Opening a product and saving it untouched sends its own price, cost,
      shown stock and variants (without ids). */
  lemma LoadThenSubmit(p: LoadedProduct, firstCategory: Option<string>)
    requires p.price.Some? && p.price.value != 0 && p.costo.Some? && p.costo.value != 0
    ensures var r := Payload(LoadForm(Some(p), firstCategory), LoadVariants(Some(p)));
      && r.Some?
      && r.value.name == p.name.GetOr("")
      && r.value.price == p.price.value && r.value.costo == p.costo.value
      && r.value.stock == GetTotalStock(Some(p))
      && (p.variants.Some? ==>
            var vs := p.variants.value;
            && |r.value.variants.value| == |vs|
            && forall i | 0 <= i < |vs| ::
                 r.value.variants.value[i] == Products.VariantInput(None, vs[i].name, vs[i].value, vs[i].priceAdjustment))
  {
    var f, rows := LoadForm(Some(p), firstCategory), LoadVariants(Some(p));
    LoadedVariantsSent(p);
    SubmitNumbers(f, rows, p.price.value, p.costo.value, GetTotalStock(Some(p)));
  }
}
