/** The branch table: `createOrUpdateBranch` and `deleteBranch`. Names are
    stored trimmed and kept unique, a new branch is assigned to the user who
    created it, and a branch that users or sales still refer to is not
    deleted. */
module Branches {
  import opened Common
  import opened Ledger

  /** The action's argument. `id` absent (or the empty string) means create;
      `userId` absent (or empty) means nobody is assigned. */
  datatype BranchInput = BranchInput(
    id: Option<BranchId>,
    name: string,
    address: Option<string>,
    userId: Option<UserId>)

  datatype BranchError =
    | NameRequired
    | BranchNotFound
    | DuplicateOther
    | DuplicateName
    | MissingId
    | DeleteFailed

  /** The message each failure reaches the caller with. */
  function Message(e: BranchError): string {
    match e
    case NameRequired => "El nombre de la sucursal es obligatorio."
    case BranchNotFound => "No se encontró la sucursal especificada."
    case DuplicateOther => "Ya existe otra sucursal con ese nombre."
    case DuplicateName => "Ya existe una sucursal con ese nombre."
    case MissingId => "El ID de la sucursal es obligatorio."
    case DeleteFailed => "No se pudo eliminar la sucursal."
  }

  /** `address?.trim() || null`. */
  function NormalizeAddress(a: Option<string>): (r: Option<string>)
    ensures r.Some? <==> a.Some? && !IsBlank(a.value)
    ensures r.Some? ==> r.value == Trim(a.value) && r.value != []
  {
    if a.None? then None
    else
      var t := Trim(a.value);
      if t == [] then None else Some(t)
  }

  /** The row the action writes. */
  function StoredBranch(d: BranchInput): Branch {
    Branch(Trim(d.name), NormalizeAddress(d.address))
  }

  /** Some branch other than `except` already carries `name` (the
      `findFirst({name, NOT: {id}})` of an update, or with `except` absent the
      `findUnique({name})` of a create). */
  predicate NameTaken(branches: map<BranchId, Branch>, name: string, except: Option<BranchId>) {
    exists b | b in branches :: branches[b].name == name && except != Some(b)
  }

  /** Writing `br` at `id` keeps the names unique exactly when no other
      branch already has its name. */
  lemma PutKeepsUnique(branches: map<BranchId, Branch>, id: BranchId, br: Branch)
    requires UniqueNames(branches)
    ensures UniqueNames(branches[id := br]) <==> !NameTaken(branches, br.name, Some(id))
  {
    var m := branches[id := br];
    if NameTaken(branches, br.name, Some(id)) {
      var b :| b in branches && branches[b].name == br.name && Some(id) != Some(b);
      assert m[b].name == m[id].name;
    } else {
      forall a, b | a in m && b in m && a != b ensures m[a].name != m[b].name {
        if a != id && b != id {
          assert m[a] == branches[a] && m[b] == branches[b];
        }
      }
    }
  }

  /** For an id not in the table, excluding it changes nothing: the update's
      duplicate test and the create's agree. */
  lemma TakenFresh(branches: map<BranchId, Branch>, id: BranchId, name: string)
    requires id !in branches
    ensures NameTaken(branches, name, Some(id)) <==> NameTaken(branches, name, None)
  {
  }

  /** The users table after a create: the creator, if it exists, now
      belongs to branch `b`; every other user, and every other field, is as
      before. */
  function Assigned(users: map<UserId, User>, u: Option<UserId>, b: BranchId): (r: map<UserId, User>)
    ensures r.Keys == users.Keys
    ensures forall w | w in r :: r[w].name == users[w].name && r[w].role == users[w].role
    ensures forall w | w in r :: r[w].branchId == if u == Some(w) then Some(b) else users[w].branchId
  {
    if u.Some? && u.value in users then users[u.value := users[u.value].(branchId := Some(b))]
    else users
  }

  /** An unknown (or absent) creator leaves the users table as it was. */
  lemma UnknownCreatorChangesNothing(users: map<UserId, User>, u: Option<UserId>, b: BranchId)
    requires u.None? || u.value !in users
    ensures Assigned(users, u, b) == users
  {
    var r := Assigned(users, u, b);
    forall w | w in r ensures r[w] == users[w] {
      assert r[w].branchId == users[w].branchId;
    }
  }

  /** Writing a row whose name no other branch has, under an id below the
      (possibly raised) counter, and pointing users only at branches of the
      new table, keeps the database invariant. */
  lemma PutKeepsValid(
    branches: map<BranchId, Branch>, users: map<UserId, User>,
    products: map<ProductId, Product>, variants: map<VariantId, Variant>,
    productStock: map<(ProductId, BranchId), int>, variantStock: map<(VariantId, BranchId), int>,
    sales: seq<Sale>, nextId: nat,
    id: BranchId, row: Branch, users2: map<UserId, User>, nextId2: nat)
    requires ValidState(branches, users, products, variants, productStock, variantStock, sales, nextId)
    requires !NameTaken(branches, row.name, Some(id))
    requires id < nextId2 && nextId <= nextId2
    requires forall u | u in users2 && users2[u].branchId.Some? ::
      users2[u].branchId.value in branches || users2[u].branchId.value == id
    ensures ValidState(branches[id := row], users2, products, variants, productStock, variantStock, sales, nextId2)
  {
    PutKeepsUnique(branches, id, row);
  }

  /** What `createOrUpdateBranch` answers for `d` against the branch table:
      the id it writes, or the first check that refuses it. */
  function SaveOutcome(branches: map<BranchId, Branch>, nextId: nat, d: BranchInput): (r: Result<BranchId, BranchError>)
    ensures r == Err(NameRequired) <==> IsBlank(d.name)
    ensures r == Err(BranchNotFound) <==> !IsBlank(d.name) && d.id.Some? && d.id.value !in branches
    ensures r == Err(DuplicateOther) <==>
      !IsBlank(d.name) && d.id.Some? && d.id.value in branches && NameTaken(branches, Trim(d.name), d.id)
    ensures r == Err(DuplicateName) <==> !IsBlank(d.name) && d.id.None? && NameTaken(branches, Trim(d.name), None)
    ensures r.Err? ==> r.error in {NameRequired, BranchNotFound, DuplicateOther, DuplicateName}
    ensures r.Ok? ==> r.value == if d.id.Some? then d.id.value else nextId
  {
    var name := Trim(d.name);
    if name == [] then Err(NameRequired)
    else if d.id.Some? then
      if d.id.value !in branches then Err(BranchNotFound)
      else if NameTaken(branches, name, d.id) then Err(DuplicateOther)
      else Ok(d.id.value)
    else if NameTaken(branches, name, None) then Err(DuplicateName)
    else Ok(nextId)
  }

  /** A save that succeeds never breaks name uniqueness, and a create
      always gets an id not yet in the table. */
  lemma SaveKeepsUnique(branches: map<BranchId, Branch>, nextId: nat, d: BranchInput)
    requires UniqueNames(branches)
    requires forall b | b in branches :: b < nextId
    requires SaveOutcome(branches, nextId, d).Ok?
    ensures UniqueNames(branches[SaveOutcome(branches, nextId, d).value := StoredBranch(d)])
    ensures d.id.None? ==> SaveOutcome(branches, nextId, d).value !in branches
  {
    var id := SaveOutcome(branches, nextId, d).value;
    if d.id.None? {
      TakenFresh(branches, id, Trim(d.name));
    }
    PutKeepsUnique(branches, id, StoredBranch(d));
  }

  /** Writes the branch and user tables and the id counter in one step. */
  method Write(st: Store, branches: map<BranchId, Branch>, users: map<UserId, User>, nextId: nat)
    requires ValidState(branches, users, st.products, st.variants, st.productStock, st.variantStock, st.sales, nextId)
    requires HistoryKnown(st.products, st.sales, st.movements)
    modifies st`branches, st`users, st`nextId
    ensures st.Valid()
    ensures st.branches == branches && st.users == users && st.nextId == nextId
  {
    st.branches, st.users, st.nextId := branches, users, nextId;
  }

  /** `createOrUpdateBranch`. An update rewrites the named row and touches
      no user; a create inserts a row under a fresh id and assigns it to the
      creator. Every failure leaves the store as it was. */
  method CreateOrUpdateBranch(st: Store, d: BranchInput) returns (r: Result<BranchId, BranchError>)
    requires st.Valid()
    modifies st`branches, st`users, st`nextId
    ensures st.Valid()
    ensures r == SaveOutcome(old(st.branches), old(st.nextId), d)
    ensures r.Err? ==>
      st.branches == old(st.branches) && st.users == old(st.users) && st.nextId == old(st.nextId)
    ensures r.Ok? ==> st.branches == old(st.branches)[r.value := StoredBranch(d)]
    ensures r.Ok? && d.id.Some? ==>
      r.value == d.id.value && st.users == old(st.users) && st.nextId == old(st.nextId)
    ensures r.Ok? && d.id.None? ==>
      st.users == Assigned(old(st.users), d.userId, r.value)
      && st.nextId == old(st.nextId) + 1
  {
    var name := Trim(d.name);
    if name == [] {
      return Err(NameRequired);
    }
    var row := StoredBranch(d);
    if d.id.Some? {
      var id := d.id.value;
      if id !in st.branches {
        return Err(BranchNotFound);
      }
      if NameTaken(st.branches, name, d.id) {
        return Err(DuplicateOther);
      }
      PutKeepsValid(st.branches, st.users, st.products, st.variants, st.productStock, st.variantStock,
        st.sales, st.nextId, id, row, st.users, st.nextId);
      Write(st, st.branches[id := row], st.users, st.nextId);
      r := Ok(id);
    } else {
      TakenFresh(st.branches, st.nextId, name);
      if NameTaken(st.branches, name, None) {
        return Err(DuplicateName);
      }
      var id := st.nextId;
      var users := Assigned(st.users, d.userId, id);
      PutKeepsValid(st.branches, st.users, st.products, st.variants, st.productStock, st.variantStock,
        st.sales, st.nextId, id, row, users, id + 1);
      Write(st, st.branches[id := row], users, id + 1);
      r := Ok(id);
    }
  }

  /* ---------------------------------------------------------------
     deleteBranch
     --------------------------------------------------------------- */

  /** `prisma.user.count({ where: { branchId } })`. */
  function UserCount(users: map<UserId, User>, b: BranchId): nat {
    |set u | u in users && users[u].branchId == Some(b)|
  }

  /** `prisma.sale.count({ where: { branchId } })`. */
  function SaleCount(sales: seq<Sale>, b: BranchId): nat {
    if sales == [] then 0
    else SaleCount(sales[..|sales| - 1], b) + (if sales[|sales| - 1].branchId == b then 1 else 0)
  }

  lemma UserCountPositive(users: map<UserId, User>, b: BranchId)
    ensures UserCount(users, b) > 0 <==> exists u | u in users :: users[u].branchId == Some(b)
  {
    var s := set u | u in users && users[u].branchId == Some(b);
    if exists u | u in users :: users[u].branchId == Some(b) {
      var u :| u in users && users[u].branchId == Some(b);
      assert u in s;
    }
  }

  lemma {:induction false} SaleCountPositive(sales: seq<Sale>, b: BranchId)
    ensures SaleCount(sales, b) > 0 <==> exists i | 0 <= i < |sales| :: sales[i].branchId == b
  {
    if sales != [] {
      var init := sales[..|sales| - 1];
      SaleCountPositive(init, b);
      if exists i | 0 <= i < |init| :: init[i].branchId == b {
        var i :| 0 <= i < |init| && init[i].branchId == b;
        assert sales[i] == init[i];
      }
      if exists i | 0 <= i < |sales| :: sales[i].branchId == b {
        var i :| 0 <= i < |sales| && sales[i].branchId == b;
        if i < |init| { assert init[i] == sales[i]; }
      }
    }
  }

  /** Some user or some sale still refers to branch `b`. */
  predicate Referenced(users: map<UserId, User>, sales: seq<Sale>, b: BranchId) {
    (exists u | u in users :: users[u].branchId == Some(b))
    || (exists i | 0 <= i < |sales| :: sales[i].branchId == b)
  }

  /** The reference guard, as the source writes it, refuses exactly the
      branches some user or sale refers to. */
  lemma GuardIsReferenced(users: map<UserId, User>, sales: seq<Sale>, b: BranchId)
    ensures (UserCount(users, b) > 0 || SaleCount(sales, b) > 0) <==> Referenced(users, sales, b)
  {
    UserCountPositive(users, b);
    SaleCountPositive(sales, b);
  }

  /** `deleteBranch`: refused while any user or sale refers to the branch;
      otherwise only that row goes. */
  method DeleteBranch(st: Store, id: Option<BranchId>) returns (r: Outcome<BranchError>)
    requires st.Valid()
    modifies st`branches
    ensures st.Valid()
    ensures r == Fail(MissingId) <==> id.None?
    ensures r.Fail? ==> r.error in {MissingId, DeleteFailed}
    ensures r.Fail? && r.error != MissingId ==> Message(r.error) == "No se pudo eliminar la sucursal."
    ensures r == Fail(DeleteFailed) <==>
      id.Some? && (Referenced(st.users, st.sales, id.value) || id.value !in old(st.branches))
    ensures r.Fail? ==> st.branches == old(st.branches)
    ensures r == Pass ==> st.branches == old(st.branches) - {id.value}
  {
    if id.None? {
      return Fail(MissingId);
    }
    var b := id.value;
    var hasUsers := UserCount(st.users, b);
    var hasSales := SaleCount(st.sales, b);
    GuardIsReferenced(st.users, st.sales, b);
    if hasUsers > 0 || hasSales > 0 {
      return Fail(DeleteFailed);
    }
    if b !in st.branches {
      return Fail(DeleteFailed);
    }
    st.branches := st.branches - {b};
    r := Pass;
  }
}
