/** The payment step of the sale screen: the method chosen, the cash typed
    by the seller, the change shown, whether the sale may go on, and what is
    handed to the sale action when it does. The typed cash is read as a whole
    number in the unit of `total`; a text that is not a number is `None`
    (JavaScript's NaN). */
module Payment {
  import opened Common
  import opened Ledger
  import Sales

  /** What the dialog hands on when the seller confirms. */
  datatype PaymentData = PaymentData(paymentMethod: PaymentMethod, cashAmount: Option<int>, change: Option<int>)

  /** `Number(cashAmount || 0)`: the empty field reads as 0. */
  function CashReceived(cashText: string): (r: Option<int>)
    ensures cashText == "" ==> r == Some(0)
  {
    NumberOf(cashText)
  }

  /** The change shown: the excess of the cash over the total, never below
      zero, and 0 for a card or a transfer; `None` when the typed cash is not
      a number. */
  function Change(paymentMethod: PaymentMethod, cashText: string, total: int): (r: Option<int>)
    ensures paymentMethod != Efectivo ==> r == Some(0)
    ensures r.Some? ==> r.value >= 0
    ensures paymentMethod == Efectivo ==> (r.None? <==> CashReceived(cashText).None?)
    ensures paymentMethod == Efectivo && r.Some? ==> r.value >= CashReceived(cashText).value - total
    ensures paymentMethod == Efectivo && r.Some? && CashReceived(cashText).value <= total ==> r.value == 0
  {
    if paymentMethod != Efectivo then Some(0)
    else match CashReceived(cashText)
      case None => None
      case Some(cash) => Some(if cash - total > 0 then cash - total else 0)
  }

  /** A card or a transfer may always go on; cash only once the amount
      received covers the total. */
  predicate CanProceed(paymentMethod: PaymentMethod, cashText: string, total: int) {
    paymentMethod != Efectivo || (CashReceived(cashText).Some? && CashReceived(cashText).value >= total)
  }

  /** With nothing typed, cash may go on only for a total of at most 0. */
  lemma EmptyCashCountsAsZero(total: int)
    ensures CanProceed(Efectivo, "", total) <==> total <= 0
    ensures Change(Efectivo, "", total) == Some(if total < 0 then -total else 0)
  {
  }

  /** Once cash may go on, the change is exactly the cash minus the total. */
  lemma ChangeWhenProceeding(cashText: string, total: int)
    requires CanProceed(Efectivo, cashText, total)
    ensures Change(Efectivo, cashText, total) == Some(CashReceived(cashText).value - total)
  {
  }

  /** The data `handleNext` sends: the cash and the change for a cash
      payment, neither for a card or a transfer. */
  function Payload(paymentMethod: PaymentMethod, cashText: string, total: int): (r: PaymentData)
    requires CanProceed(paymentMethod, cashText, total)
    ensures r.paymentMethod == paymentMethod
    ensures paymentMethod != Efectivo ==> r.cashAmount.None? && r.change.None?
    ensures paymentMethod == Efectivo ==> r.cashAmount == CashReceived(cashText) && r.cashAmount.Some?
    ensures paymentMethod == Efectivo ==> r.change == Some(r.cashAmount.value - total) && r.change.value >= 0
  {
    if paymentMethod == Efectivo then
      ChangeWhenProceeding(cashText, total);
      PaymentData(paymentMethod, NumberOf(cashText), Change(paymentMethod, cashText, total))
    else PaymentData(paymentMethod, None, None)
  }

  /** A confirmed payment of a positive total, carried into the sale request
      unchanged, passes the sale action's cash rule. */
  lemma ConfirmedPaymentPassesCashRule(paymentMethod: PaymentMethod, cashText: string, total: int, input: Sales.SaleInput)
    requires CanProceed(paymentMethod, cashText, total) && total > 0
    requires input.paymentMethod == paymentMethod && input.cashAmount == Payload(paymentMethod, cashText, total).cashAmount
    ensures Sales.CashOk(input)
  {
  }

  /** The dialog's state: the chosen method and the cash field's text. */
  class PaymentDialog {
    var paymentMethod: PaymentMethod
    var cashText: string

    /** The dialog opens on cash, with the field empty. */
    constructor ()
      ensures paymentMethod == Efectivo && cashText == ""
    {
      paymentMethod, cashText := Efectivo, "";
    }

    method ChooseMethod(m: PaymentMethod)
      modifies this
      ensures paymentMethod == m && cashText == old(cashText)
    {
      paymentMethod := m;
    }

    method TypeCash(text: string)
      modifies this
      ensures cashText == text && paymentMethod == old(paymentMethod)
    {
      cashText := text;
    }

    /** `handleNext`: nothing happens while the sale may not go on; otherwise
        the payload is sent and the dialog returns to cash with an empty
        field. */
    method HandleNext(total: int) returns (sent: Option<PaymentData>)
      modifies this
      ensures sent.None? <==> !CanProceed(old(paymentMethod), old(cashText), total)
      ensures sent.None? ==> paymentMethod == old(paymentMethod) && cashText == old(cashText)
      ensures sent.Some? ==> sent.value == Payload(old(paymentMethod), old(cashText), total)
      ensures sent.Some? ==> paymentMethod == Efectivo && cashText == ""
    {
      if !CanProceed(paymentMethod, cashText, total) {
        return None;
      }
      sent := Some(Payload(paymentMethod, cashText, total));
      cashText := "";
      paymentMethod := Efectivo;
    }
  }
}
