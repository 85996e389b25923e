/** The catalogue screen's product list: the normal and trash views, the
    search box and category filter, the per-category count, and the local
    soft delete and restore applied after the server confirms them. */
module ProductsManager {
  import opened Common

  datatype ManagedProduct = ManagedProduct(
    id: string,
    name: string,
    barcode: Option<string>,
    categoryId: string,
    active: bool,
    variantValues: seq<string>)

  /** The category filter's sentinel for "every category". */
  const AllCategories: string := "all"

  /** The trash view shows the inactive products, the normal view the rest. */
  predicate InView(p: ManagedProduct, showDeleted: bool) {
    if showDeleted then !p.active else p.active
  }

  /** Case-insensitive substring match on the name, the barcode or any
      variant value. */
  predicate MatchesSearch(p: ManagedProduct, searchTerm: string) {
    var q := ToLower(searchTerm);
    || Contains(ToLower(p.name), q)
    || (p.barcode.Some? && Contains(ToLower(p.barcode.value), q))
    || (exists i | 0 <= i < |p.variantValues| :: Contains(ToLower(p.variantValues[i]), q))
  }

  predicate MatchesCategory(p: ManagedProduct, selectedCategory: string) {
    selectedCategory == AllCategories || p.categoryId == selectedCategory
  }

  predicate Shown(p: ManagedProduct, showDeleted: bool, searchTerm: string, selectedCategory: string) {
    InView(p, showDeleted) && MatchesSearch(p, searchTerm) && MatchesCategory(p, selectedCategory)
  }

  /** `filteredProducts`: the view's products, then those matching the search
      and the category, in list order. */
  function FilteredProducts(products: seq<ManagedProduct>, showDeleted: bool, searchTerm: string, selectedCategory: string)
    : (r: seq<ManagedProduct>)
    ensures forall p :: p in r <==> p in products && Shown(p, showDeleted, searchTerm, selectedCategory)
    ensures IsSubseq(r, products)
  {
    var inView := Filter(products, p => InView(p, showDeleted));
    var shown := Filter(inView, p => MatchesSearch(p, searchTerm) && MatchesCategory(p, selectedCategory));
    FilterFilter(products, p => InView(p, showDeleted),
                 p => MatchesSearch(p, searchTerm) && MatchesCategory(p, selectedCategory),
                 p => Shown(p, showDeleted, searchTerm, selectedCategory));
    FilterIsSubseq(products, p => Shown(p, showDeleted, searchTerm, selectedCategory));
    shown
  }

  /** The empty search matches every product. */
  lemma EmptySearchMatches(p: ManagedProduct)
    ensures MatchesSearch(p, "")
  {
    ContainsEmpty(ToLower(p.name));
  }

  /** With an empty search and every category, the two views are the
      inactive and the active products, and between them they hold each
      product of the list once. */
  lemma ViewsPartition(products: seq<ManagedProduct>)
    ensures forall p :: p in FilteredProducts(products, true, "", AllCategories) <==> p in products && !p.active
    ensures forall p :: p in FilteredProducts(products, false, "", AllCategories) <==> p in products && p.active
    ensures |FilteredProducts(products, true, "", AllCategories)| + |FilteredProducts(products, false, "", AllCategories)|
            == |products|
  {
    forall p | p in products ensures MatchesSearch(p, "") {
      EmptySearchMatches(p);
    }
    forall deleted: bool ensures FilteredProducts(products, deleted, "", AllCategories) == Filter(products, p => InView(p, deleted)) {
      var inView := Filter(products, p => InView(p, deleted));
      forall i | 0 <= i < |inView| ensures MatchesSearch(inView[i], "") && MatchesCategory(inView[i], AllCategories) {
        EmptySearchMatches(inView[i]);
      }
      FilterAll(inView, p => MatchesSearch(p, "") && MatchesCategory(p, AllCategories));
    }
    FilterPartition(products, p => InView(p, true), p => InView(p, false));
  }

  predicate Counts(p: ManagedProduct, categoryId: string) {
    p.categoryId == categoryId && p.active
  }

  /** `countByCategory`: the active products of the category. */
  function CountByCategory(products: seq<ManagedProduct>, categoryId: string): (r: nat)
    ensures r <= |products|
    ensures r == 0 <==> forall p | p in products :: !Counts(p, categoryId)
  {
    var counted := Filter(products, p => Counts(p, categoryId));
    assert counted != [] ==> counted[0] in counted;
    |counted|
  }

  /** The count shown for a category is the length of the normal view with
      that category chosen and the search empty. */
  lemma CountIsNormalView(products: seq<ManagedProduct>, categoryId: string)
    requires categoryId != AllCategories
    ensures CountByCategory(products, categoryId) == |FilteredProducts(products, false, "", categoryId)|
  {
    var inView := Filter(products, p => InView(p, false));
    forall p | p in products ensures MatchesSearch(p, "") {
      EmptySearchMatches(p);
    }
    FilterFilter(products, p => InView(p, false),
                 p => MatchesSearch(p, "") && MatchesCategory(p, categoryId),
                 p => Counts(p, categoryId));
  }

  /** The local update after a soft delete (`active := false`) or a restore
      (`active := true`): every product with that id gets the flag, nothing
      else changes. */
  function SetActive(products: seq<ManagedProduct>, id: string, active: bool): (r: seq<ManagedProduct>)
    ensures |r| == |products|
    ensures forall i | 0 <= i < |products| && products[i].id == id :: r[i] == products[i].(active := active)
    ensures forall i | 0 <= i < |products| && products[i].id != id :: r[i] == products[i]
  {
    seq(|products|, i requires 0 <= i < |products| =>
      if products[i].id == id then products[i].(active := active) else products[i])
  }

  function SoftDelete(products: seq<ManagedProduct>, id: string): seq<ManagedProduct> {
    SetActive(products, id, false)
  }

  function Restore(products: seq<ManagedProduct>, id: string): seq<ManagedProduct> {
    SetActive(products, id, true)
  }

  /** After a soft delete the product is in the trash view and no longer in
      the normal one; the restore brings it back. */
  lemma SoftDeleteMovesToTrash(products: seq<ManagedProduct>, i: nat)
    requires i < |products|
    ensures var d := SoftDelete(products, products[i].id);
      d[i] in FilteredProducts(d, true, "", AllCategories) && d[i] !in FilteredProducts(d, false, "", AllCategories)
    ensures var r := Restore(products, products[i].id);
      r[i] in FilteredProducts(r, false, "", AllCategories) && r[i] !in FilteredProducts(r, true, "", AllCategories)
  {
    ViewsPartition(SoftDelete(products, products[i].id));
    ViewsPartition(Restore(products, products[i].id));
  }

  /** Restoring a product that was active before its deletion gives back
      the list as it was. */
  lemma RestoreUndoesDelete(products: seq<ManagedProduct>, id: string)
    requires forall i | 0 <= i < |products| && products[i].id == id :: products[i].active
    ensures Restore(SoftDelete(products, id), id) == products
  {
    var r := Restore(SoftDelete(products, id), id);
    assert forall i | 0 <= i < |products| :: r[i] == products[i];
  }
}
