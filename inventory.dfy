/** `adjustInventory`: a manual stock adjustment at the acting user's branch.
    The request is validated, the user's branch and the product are looked
    up, a counter for (variant, branch) or (product, branch) is found or
    created with stock 0, the new stock is computed by the movement kind, a
    negative result is rejected, and otherwise the counter is overwritten
    and one movement is appended. */
module Inventory {
  import opened Common
  import opened Ledger

  datatype AdjustRequest = AdjustRequest(
    productId: ProductId,
    variantId: Option<VariantId>,
    kind: MovementType,
    quantity: int,
    reason: string)

  datatype AdjustError =
    | InvalidRequest       // the input schema rejects the request
    | NotAuthorized        // no session
    | NoBranchAssigned     // the acting user is unknown or has no branch
    | ProductNotFound
    | VariantNotInProduct
    | InsufficientStock    // the computed stock would be negative

  /** The input schema: a positive integer quantity and a non-empty reason. */
  predicate RequestValid(req: AdjustRequest) {
    req.quantity > 0 && |req.reason| >= 1
  }

  /** ENTRADA adds, SALIDA subtracts, AJUSTE sets the stock outright. */
  function NewStock(current: int, kind: MovementType, quantity: int): int {
    match kind
    case Entrada => current + quantity
    case Salida => current - quantity
    case Ajuste => quantity
  }

  /** The checks made before any write, in the order the action makes them;
      on success, the branch the adjustment targets. */
  function Precheck(
    users: map<UserId, User>, products: map<ProductId, Product>, variants: map<VariantId, Variant>,
    session: Option<UserId>, req: AdjustRequest): (r: Result<BranchId, AdjustError>)
    ensures r.Ok? <==>
      && RequestValid(req)
      && session.Some?
      && BranchOf(users, session.value).Some?
      && req.productId in products
      && (req.variantId.Some? ==> OwnedBy(variants, req.variantId.value, req.productId))
    ensures r.Ok? ==> r.value == BranchOf(users, session.value).value
    ensures !RequestValid(req) ==> r == Err(InvalidRequest)
    ensures RequestValid(req) && session.None? ==> r == Err(NotAuthorized)
  {
    if !RequestValid(req) then Err(InvalidRequest)
    else if session.None? then Err(NotAuthorized)
    else
      var b := BranchOf(users, session.value);
      if b.None? then Err(NoBranchAssigned)
      else if req.productId !in products then Err(ProductNotFound)
      else if req.variantId.Some? && !OwnedBy(variants, req.variantId.value, req.productId) then
        Err(VariantNotInProduct)
      else Ok(b.value)
  }

  /** Find-or-create: the counter map with `k` present, created at 0 if it
      was missing; nothing else changes. */
  function WithCounter<K>(m: map<K, int>, k: K): (r: map<K, int>)
    ensures k in r && r[k] == (if k in m then m[k] else 0)
    ensures r.Keys == m.Keys + {k}
    ensures forall j | j in m :: r[j] == m[j]
  {
    if k in m then m else m[k := 0]
  }

  /** The movement written by an accepted adjustment: the entered type and
      quantity, and for a variant its id and the reason marked " (Variante)". */
  function AdjustMovement(req: AdjustRequest, branch: BranchId, user: UserId): (m: Movement)
    ensures m.productId == req.productId && m.variantId == req.variantId
    ensures m.kind == req.kind && m.quantity == req.quantity
    ensures m.userId == user && m.branchId == branch
    ensures m.reason == if req.variantId.Some? then req.reason + " (Variante)" else req.reason
  {
    Movement(req.productId, req.variantId, req.kind, req.quantity,
             if req.variantId.Some? then req.reason + " (Variante)" else req.reason,
             user, branch)
  }

  method AdjustInventory(st: Store, session: Option<UserId>, req: AdjustRequest) returns (r: Outcome<AdjustError>)
    requires st.Valid()
    modifies st
    ensures st.Valid()
    ensures st.branches == old(st.branches) && st.users == old(st.users)
    ensures st.products == old(st.products) && st.variants == old(st.variants)
    ensures st.sales == old(st.sales) && st.nextId == old(st.nextId)
    // a failed check changes nothing
    ensures var pre := Precheck(old(st.users), old(st.products), old(st.variants), session, req);
      pre.Err? ==>
        && r == Fail(pre.error)
        && st.productStock == old(st.productStock)
        && st.variantStock == old(st.variantStock)
        && st.movements == old(st.movements)
    // variant path: the (variant, branch) counter is found or created, then written or rejected
    ensures var pre := Precheck(old(st.users), old(st.products), old(st.variants), session, req);
      pre.Ok? && req.variantId.Some? ==>
        var k := (req.variantId.value, pre.value);
        var seeded := WithCounter(old(st.variantStock), k);
        var n := NewStock(seeded[k], req.kind, req.quantity);
        && st.productStock == old(st.productStock)
        && (n < 0 ==> r == Fail(InsufficientStock) && st.variantStock == seeded && st.movements == old(st.movements))
        && (n >= 0 ==>
              && r == Pass
              && st.variantStock == seeded[k := n]
              && st.movements == old(st.movements) + [AdjustMovement(req, pre.value, session.value)])
    // product path: the same on the (product, branch) counter
    ensures var pre := Precheck(old(st.users), old(st.products), old(st.variants), session, req);
      pre.Ok? && req.variantId.None? ==>
        var k := (req.productId, pre.value);
        var seeded := WithCounter(old(st.productStock), k);
        var n := NewStock(seeded[k], req.kind, req.quantity);
        && st.variantStock == old(st.variantStock)
        && (n < 0 ==> r == Fail(InsufficientStock) && st.productStock == seeded && st.movements == old(st.movements))
        && (n >= 0 ==>
              && r == Pass
              && st.productStock == seeded[k := n]
              && st.movements == old(st.movements) + [AdjustMovement(req, pre.value, session.value)])
  {
    var pre := Precheck(st.users, st.products, st.variants, session, req);
    if pre.Err? {
      return Fail(pre.error);
    }
    if req.variantId.Some? {
      r := AdjustVariantCounter(st, req, pre.value, session.value);
    } else {
      r := AdjustProductCounter(st, req, pre.value, session.value);
    }
  }

  /** Case A of the action: the (variant, branch) counter. */
  method AdjustVariantCounter(st: Store, req: AdjustRequest, branchId: BranchId, userId: UserId)
    returns (r: Outcome<AdjustError>)
    requires st.Valid() && req.variantId.Some? && OwnedBy(st.variants, req.variantId.value, req.productId)
    modifies st`variantStock, st`movements
    ensures st.Valid()
    ensures var k := (req.variantId.value, branchId);
      var seeded := WithCounter(old(st.variantStock), k);
      var n := NewStock(seeded[k], req.kind, req.quantity);
      && (n < 0 ==> r == Fail(InsufficientStock) && st.variantStock == seeded && st.movements == old(st.movements))
      && (n >= 0 ==>
            && r == Pass
            && st.variantStock == seeded[k := n]
            && st.movements == old(st.movements) + [AdjustMovement(req, branchId, userId)])
  {
    var k := (req.variantId.value, branchId);
    // the counter is created outside the transaction, before the check
    if k !in st.variantStock {
      st.variantStock := st.variantStock[k := 0];
    }
    var newStock := st.variantStock[k];
    if req.kind == Entrada {
      newStock := newStock + req.quantity;
    } else if req.kind == Salida {
      newStock := newStock - req.quantity;
    } else if req.kind == Ajuste {
      newStock := req.quantity;
    }
    if newStock < 0 {
      return Fail(InsufficientStock);
    }
    HistoryKnownAppend(st.products, st.sales, st.movements, AdjustMovement(req, branchId, userId));
    st.variantStock := st.variantStock[k := newStock];
    st.movements := st.movements + [AdjustMovement(req, branchId, userId)];
    r := Pass;
  }

  /** Case B of the action: the (product, branch) counter. */
  method AdjustProductCounter(st: Store, req: AdjustRequest, branchId: BranchId, userId: UserId)
    returns (r: Outcome<AdjustError>)
    requires st.Valid() && req.productId in st.products
    modifies st`productStock, st`movements
    ensures st.Valid()
    ensures var k := (req.productId, branchId);
      var seeded := WithCounter(old(st.productStock), k);
      var n := NewStock(seeded[k], req.kind, req.quantity);
      && (n < 0 ==> r == Fail(InsufficientStock) && st.productStock == seeded && st.movements == old(st.movements))
      && (n >= 0 ==>
            && r == Pass
            && st.productStock == seeded[k := n]
            && st.movements == old(st.movements) + [AdjustMovement(req, branchId, userId)])
  {
    var k := (req.productId, branchId);
    if k !in st.productStock {
      st.productStock := st.productStock[k := 0];
    }
    var newStock := st.productStock[k];
    if req.kind == Entrada {
      newStock := newStock + req.quantity;
    } else if req.kind == Salida {
      newStock := newStock - req.quantity;
    } else if req.kind == Ajuste {
      newStock := req.quantity;
    }
    if newStock < 0 {
      return Fail(InsufficientStock);
    }
    HistoryKnownAppend(st.products, st.sales, st.movements, AdjustMovement(req, branchId, userId));
    st.productStock := st.productStock[k := newStock];
    st.movements := st.movements + [AdjustMovement(req, branchId, userId)];
    r := Pass;
  }

  /* ---------------------------------------------------------------
     The history of one counter under repeated adjustments
     --------------------------------------------------------------- */

  /** One adjustment as it reaches a single counter. */
  datatype Step = Step(kind: MovementType, quantity: int)

  /** The counter after the steps, each accepted only when its new stock is
      not negative and ignored otherwise. */
  function Final(s0: int, steps: seq<Step>): int {
    if steps == [] then s0
    else
      var s := Final(s0, steps[..|steps| - 1]);
      var n := NewStock(s, steps[|steps| - 1].kind, steps[|steps| - 1].quantity);
      if n < 0 then s else n
  }

  /** The movements written for those steps: exactly the accepted ones. */
  function Logged(s0: int, steps: seq<Step>): seq<Step> {
    if steps == [] then []
    else
      var s := Final(s0, steps[..|steps| - 1]);
      var last := steps[|steps| - 1];
      if NewStock(s, last.kind, last.quantity) < 0 then Logged(s0, steps[..|steps| - 1])
      else Logged(s0, steps[..|steps| - 1]) + [last]
  }

  /** Applying logged movements to a starting value, with no check. */
  function Replay(s0: int, log: seq<Step>): int {
    if log == [] then s0
    else NewStock(Replay(s0, log[..|log| - 1]), log[|log| - 1].kind, log[|log| - 1].quantity)
  }

  /** Starting from a non-negative counter, no sequence of adjustments ever
      makes it negative. */
  lemma {:induction false} FinalNonNegative(s0: int, steps: seq<Step>)
    requires s0 >= 0
    ensures Final(s0, steps) >= 0
  {
    if steps != [] {
      FinalNonNegative(s0, steps[..|steps| - 1]);
    }
  }

  /** The movement log accounts for the counter: replaying exactly the logged
      movements on the starting value gives the current stock, and a
      rejected step leaves no movement. */
  lemma {:induction false} LogReplaysCounter(s0: int, steps: seq<Step>)
    ensures Replay(s0, Logged(s0, steps)) == Final(s0, steps)
    ensures |Logged(s0, steps)| <= |steps|
  {
    if steps != [] {
      var pre := steps[..|steps| - 1];
      LogReplaysCounter(s0, pre);
      var last := steps[|steps| - 1];
      if NewStock(Final(s0, pre), last.kind, last.quantity) >= 0 {
        var log := Logged(s0, pre) + [last];
        assert log[..|log| - 1] == Logged(s0, pre);
      }
    }
  }

  /** With a valid request an AJUSTE never leaves the counter below 1, so it
      is never rejected. */
  lemma AjusteNeverRejected(current: int, req: AdjustRequest)
    requires RequestValid(req) && req.kind == Ajuste
    ensures NewStock(current, req.kind, req.quantity) >= 1
  {
  }

  /** A SALIDA on a counter that did not exist is rejected, yet the map
      already holds the zero counter created for it. */
  lemma RejectedSalidaKeepsNewRow<K>(m: map<K, int>, k: K, req: AdjustRequest)
    requires RequestValid(req) && req.kind == Salida && k !in m
    ensures NewStock(WithCounter(m, k)[k], req.kind, req.quantity) < 0
    ensures WithCounter(m, k) == m[k := 0] && WithCounter(m, k) != m
  {
    assert k in WithCounter(m, k);
  }
}
