/** The inventory adjustment dialog: the movement kind the user may pick,
    the quantity and reason typed, the stock preview, the submit guard, the
    reset when the dialog closes, and the request sent to `adjustInventory`.
    A quantity text is read by `Number.parseInt`; `None` is NaN. */
module AdjustDialog {
  import opened Common
  import opened Ledger
  import Inventory

  /** The kinds the dialog offers: entry and exit, never a set-to. */
  type DialogKind = k: MovementType | k != Ajuste witness Entrada

  /** The product the dialog is opened on, with the stock it shows. */
  datatype AdjustProduct = AdjustProduct(id: ProductId, name: string, stock: int)

  /** `Number.parseInt(quantity || "0")`: the empty field reads as 0. */
  function QuantityRead(quantityText: string): (r: Option<int>)
    ensures quantityText == "" ==> r == Some(0)
  {
    if quantityText == "" then
      ParseIntNatToString(0);
      assert NatToString(0) == "0";
      ParseInt("0")
    else ParseInt(quantityText)
  }

  /** The stock after adding or removing `quantity`; 0 with no product and
      `None` when the quantity is NaN. */
  function Adjusted(product: Option<AdjustProduct>, kind: DialogKind, quantity: Option<int>): (r: Option<int>)
    ensures product.None? ==> r == Some(0)
    ensures product.Some? ==> (r.None? <==> quantity.None?)
    ensures product.Some? && r.Some? && kind == Entrada ==> r.value == product.value.stock + quantity.value
    ensures product.Some? && r.Some? && kind == Salida ==> r.value == product.value.stock - quantity.value
  {
    match product
    case None => Some(0)
    case Some(p) =>
      match quantity
      case None => None
      case Some(q) => Some(if kind == Entrada then p.stock + q else p.stock - q)
  }

  /** `newStock`: the preview for the typed quantity. */
  function Preview(product: Option<AdjustProduct>, kind: DialogKind, quantityText: string): Option<int> {
    Adjusted(product, kind, QuantityRead(quantityText))
  }

  /** The submit button is disabled while saving or while the preview is
      negative; a NaN preview compares false and leaves it enabled. */
  predicate SubmitDisabled(loading: bool, preview: Option<int>) {
    loading || (preview.Some? && preview.value < 0)
  }

  /** With the field empty the preview is the current stock. */
  lemma EmptyQuantityPreview(p: AdjustProduct, kind: DialogKind)
    ensures Preview(Some(p), kind, "") == Some(p.stock)
  {
  }

  /** The preview is the stock the server action computes for the same
      kind and quantity. */
  lemma PreviewIsServerStock(p: AdjustProduct, kind: DialogKind, quantityText: string)
    requires QuantityRead(quantityText).Some?
    ensures Preview(Some(p), kind, quantityText) == Some(Inventory.NewStock(p.stock, kind, QuantityRead(quantityText).value))
  {
    AdjustedIsServerStock(p, kind, QuantityRead(quantityText).value);
  }

  lemma AdjustedIsServerStock(p: AdjustProduct, kind: DialogKind, q: int)
    ensures Adjusted(Some(p), kind, Some(q)) == Some(Inventory.NewStock(p.stock, kind, q))
  {
  }

  /** `handleSubmit`: nothing without a product; otherwise a product-level
      request (no variant) with the chosen kind, `Number.parseInt` of the
      quantity and the reason. A NaN quantity is sent as 0, a value the
      server's schema refuses exactly as it refuses NaN. */
  function Submit(product: Option<AdjustProduct>, kind: DialogKind, quantityText: string, reason: string): (r: Option<Inventory.AdjustRequest>)
    ensures r.None? <==> product.None?
    ensures r.Some? ==> r.value.productId == product.value.id && r.value.reason == reason
    ensures r.Some? ==> r.value.variantId.None? && r.value.kind == kind && r.value.kind != Ajuste
    ensures r.Some? && ParseInt(quantityText).Some? ==> r.value.quantity == ParseInt(quantityText).value
    ensures r.Some? && ParseInt(quantityText).None? ==> !Inventory.RequestValid(r.value)
  {
    match product
    case None => None
    case Some(p) => Some(Inventory.AdjustRequest(p.id, None, kind, ParseInt(quantityText).GetOr(0), reason))
  }

  /** When the shown stock is the branch counter and the submit button is
      enabled, a request the schema accepts passes the server's negativity
      check. */
  lemma EnabledSubmitNotNegative(p: AdjustProduct, kind: DialogKind, quantityText: string, reason: string)
    requires !SubmitDisabled(false, Preview(Some(p), kind, quantityText))
    requires Inventory.RequestValid(Submit(Some(p), kind, quantityText, reason).value)
    ensures var req := Submit(Some(p), kind, quantityText, reason).value;
      Inventory.NewStock(p.stock, req.kind, req.quantity) >= 0
  {
    assert quantityText != "";
    assert QuantityRead(quantityText) == ParseInt(quantityText);
  }

  class InventoryAdjustDialog {
    var kind: DialogKind
    var quantityText: string
    var reason: string

    constructor ()
      ensures kind == Entrada && quantityText == "" && reason == ""
    {
      kind, quantityText, reason := Entrada, "", "";
    }

    method ChooseKind(k: DialogKind)
      modifies this
      ensures kind == k && quantityText == old(quantityText) && reason == old(reason)
    {
      kind := k;
    }

    method TypeQuantity(text: string)
      modifies this
      ensures quantityText == text && kind == old(kind) && reason == old(reason)
    {
      quantityText := text;
    }

    method TypeReason(text: string)
      modifies this
      ensures reason == text && kind == old(kind) && quantityText == old(quantityText)
    {
      reason := text;
    }

    /** The effect on `open`: closing resets the kind to entry and clears
        both fields; opening leaves them as they are. */
    method OpenChanged(open: bool)
      modifies this
      ensures !open ==> kind == Entrada && quantityText == "" && reason == ""
      ensures open ==> kind == old(kind) && quantityText == old(quantityText) && reason == old(reason)
    {
      if !open {
        kind, quantityText, reason := Entrada, "", "";
      }
    }

    /** The request the submit handler sends for the current fields. */
    method HandleSubmit(product: Option<AdjustProduct>) returns (req: Option<Inventory.AdjustRequest>)
      ensures req == Submit(product, kind, quantityText, reason)
    {
      req := Submit(product, kind, quantityText, reason);
    }
  }
}
