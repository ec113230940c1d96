// The catalog view of components/ItemSelector.tsx: the search and
// category filter, the cart-quantity lookup, the category buttons, and the
// rules of the plus / minus controls and the weight badge.

module ItemSelector {
  import opened Types
  import opened Strings
  import opened Seqs
  import Constants
  import Cart

  /** The category filter value that lets every category through. */
  const ALL: string := "All"

  // ---------------------------------------------------------------------
  // Filtering
  // ---------------------------------------------------------------------

  /** The filter's test for one item. */
  predicate Matches(item: ItemDef, searchTerm: string, categoryFilter: string)
  {
    Contains(ToLower(item.name), ToLower(searchTerm))
    && (categoryFilter == ALL || CategoryName(item.category) == categoryFilter)
  }

  /** `catalog.filter(...)` with the test above. */
  function Filter(catalog: seq<ItemDef>, searchTerm: string, categoryFilter: string): (r: seq<ItemDef>)
    ensures IsSubsequence(r, catalog)
    ensures forall x :: x in r <==> x in catalog && Matches(x, searchTerm, categoryFilter)
  {
    if catalog == [] then []
    else
      var rest := Filter(catalog[1..], searchTerm, categoryFilter);
      if Matches(catalog[0], searchTerm, categoryFilter) then [catalog[0]] + rest else rest
  }

  /** `filteredItems`: the catalog items the current search and filter show. */
  function FilteredItems(searchTerm: string, categoryFilter: string): (r: seq<ItemDef>)
    ensures IsSubsequence(r, Constants.ITEMS)
    ensures forall x :: x in r <==> x in Constants.ITEMS && Matches(x, searchTerm, categoryFilter)
  {
    Filter(Constants.ITEMS, searchTerm, categoryFilter)
  }

  lemma {:induction false} FilterAll(catalog: seq<ItemDef>)
    ensures Filter(catalog, "", ALL) == catalog
  {
    if catalog != [] {
      ContainsEmpty(ToLower(catalog[0].name));
      FilterAll(catalog[1..]);
      assert [catalog[0]] + catalog[1..] == catalog;
    }
  }

  /** An empty search with the filter at 'All' shows the whole catalog, in order. */
  lemma EmptySearchShowsAll()
    ensures FilteredItems("", ALL) == Constants.ITEMS
  {
    FilterAll(Constants.ITEMS);
  }

  /** The search ignores case. */
  lemma SearchIgnoresCase(searchTerm: string, categoryFilter: string)
    ensures FilteredItems(ToLower(searchTerm), categoryFilter) == FilteredItems(searchTerm, categoryFilter)
  {
    ToLowerIdempotent(searchTerm);
    FilterIgnoresCase(Constants.ITEMS, searchTerm, categoryFilter);
  }

  lemma {:induction false} FilterIgnoresCase(catalog: seq<ItemDef>, searchTerm: string, categoryFilter: string)
    ensures Filter(catalog, ToLower(searchTerm), categoryFilter) == Filter(catalog, searchTerm, categoryFilter)
  {
    ToLowerIdempotent(searchTerm);
    if catalog != [] {
      FilterIgnoresCase(catalog[1..], searchTerm, categoryFilter);
    }
  }

  // ---------------------------------------------------------------------
  // Cart quantities
  // ---------------------------------------------------------------------

  /** `cart.find(c => c.id === itemId)?.quantity || 0`. */
  function GetCartQuantity(cart: seq<CartItem>, itemId: string): (q: nat)
    ensures Cart.Absent(cart, itemId) ==> q == 0
    ensures forall k :: 0 <= k < |cart| && cart[k].Id() == itemId && Cart.UniqueIds(cart) ==> q == cart[k].quantity
  {
    match Cart.Find(cart, itemId)
    case Some(k) => cart[k].quantity
    case None => 0
  }

  /** The quantity shown for an item of `cart`. */
  lemma QuantityOfEntry(cart: seq<CartItem>, k: nat)
    requires Cart.UniqueIds(cart) && k < |cart|
    ensures GetCartQuantity(cart, cart[k].Id()) == cart[k].quantity
  {
    Cart.FindUnique(cart, cart[k].Id(), k);
  }

  /** The minus control is disabled when the item's quantity is zero. */
  predicate MinusDisabled(cart: seq<CartItem>, itemId: string)
    ensures Cart.Absent(cart, itemId) ==> MinusDisabled(cart, itemId)
  {
    GetCartQuantity(cart, itemId) == 0
  }

  /** In a cart of positive entries, minus is disabled exactly for items not in the cart. */
  lemma MinusDisabledIffAbsent(cart: seq<CartItem>, itemId: string)
    requires Cart.UniqueIds(cart) && Cart.AllPositive(cart)
    ensures MinusDisabled(cart, itemId) <==> Cart.Absent(cart, itemId)
  {
    if !Cart.Absent(cart, itemId) {
      var k :| 0 <= k < |cart| && cart[k].Id() == itemId;
      QuantityOfEntry(cart, k);
    }
  }

  /** The quantity the plus control adds. */
  const PLUS_QUANTITY: nat := 1

  /** Plus raises the quantity shown by exactly one; minus, when enabled,
      lowers it by exactly one. */
  lemma PlusMinusStep(cart: seq<CartItem>, item: ItemDef)
    requires Cart.UniqueIds(cart) && Cart.AllPositive(cart)
    ensures GetCartQuantity(Cart.AddToCart(cart, item, PLUS_QUANTITY), item.id)
            == GetCartQuantity(cart, item.id) + 1
    ensures !MinusDisabled(cart, item.id) ==>
              GetCartQuantity(Cart.RemoveFromCart(cart, item.id), item.id) + 1
              == GetCartQuantity(cart, item.id)
  {
    PlusStep(cart, item);
    if !MinusDisabled(cart, item.id) {
      MinusStep(cart, item.id);
    }
  }

  lemma PlusStep(cart: seq<CartItem>, item: ItemDef)
    requires Cart.UniqueIds(cart)
    ensures GetCartQuantity(Cart.AddToCart(cart, item, PLUS_QUANTITY), item.id)
            == GetCartQuantity(cart, item.id) + 1
  {
    var added := Cart.AddToCart(cart, item, PLUS_QUANTITY);
    Cart.AddKeepsUnique(cart, item, PLUS_QUANTITY);
    match Cart.Find(cart, item.id)
    case Some(k) =>
      Cart.AddExisting(cart, item, PLUS_QUANTITY, k);
      QuantityOfEntry(cart, k);
      QuantityOfEntry(added, k);
    case None =>
      Cart.AddNew(cart, item, PLUS_QUANTITY);
      QuantityOfEntry(added, |cart|);
  }

  lemma MinusStep(cart: seq<CartItem>, itemId: string)
    requires Cart.UniqueIds(cart) && Cart.AllPositive(cart)
    requires !MinusDisabled(cart, itemId)
    ensures GetCartQuantity(Cart.RemoveFromCart(cart, itemId), itemId) + 1
            == GetCartQuantity(cart, itemId)
  {
    var k := Cart.Find(cart, itemId).value;
    QuantityOfEntry(cart, k);
    var removed := Cart.RemoveFromCart(cart, itemId);
    Cart.RemoveKeepsUnique(cart, itemId);
    if cart[k].quantity > 1 {
      Cart.RemoveDecrements(cart, itemId, k);
      QuantityOfEntry(removed, k);
    } else {
      Cart.RemoveDrops(cart, itemId, k);
      assert Cart.Absent(removed, itemId) by {
        forall j | 0 <= j < |removed| ensures removed[j].Id() != itemId {
          assert removed[j] == cart[if j < k then j else j + 1];
        }
      }
    }
  }

  /** The weight badge of an item card: `qty * weightKg`, shown only when `qty > 0`. */
  function WeightBadge(qty: nat, item: ItemDef): (badge: Option<nat>)
    ensures badge.Some? <==> qty > 0
    ensures badge.Some? ==> badge.value == qty * item.weightKg
  {
    if qty > 0 then Some(qty * item.weightKg) else None
  }

  /** The badge of an item in the cart shows that entry's share of the total weight. */
  lemma BadgeIsEntryWeight(cart: seq<CartItem>, k: nat)
    requires Cart.UniqueIds(cart) && Cart.AllPositive(cart) && k < |cart|
    ensures WeightBadge(GetCartQuantity(cart, cart[k].Id()), cart[k].item) == Some(Cart.EntryWeight(cart[k]))
  {
    QuantityOfEntry(cart, k);
  }

  // ---------------------------------------------------------------------
  // Category buttons
  // ---------------------------------------------------------------------

  /** `catalog.map(i => i.category)`. */
  function CategoriesOf(catalog: seq<ItemDef>): (r: seq<Category>)
    ensures |r| == |catalog|
    ensures forall i :: 0 <= i < |catalog| ==> r[i] == catalog[i].category
  {
    seq(|catalog|, i requires 0 <= i < |catalog| => catalog[i].category)
  }

  /** The names of a sequence of categories. */
  function Names(cs: seq<Category>): (r: seq<string>)
    ensures |r| == |cs|
    ensures forall i :: 0 <= i < |cs| ==> r[i] == CategoryName(cs[i])
  {
    seq(|cs|, i requires 0 <= i < |cs| => CategoryName(cs[i]))
  }

  /** The category names of the catalog's items, in catalog order. */
  function CategoryNames(catalog: seq<ItemDef>): seq<string>
  {
    Names(CategoriesOf(catalog))
  }

  lemma NameInNames(cs: seq<Category>, c: Category)
    ensures CategoryName(c) in Names(cs) <==> c in cs
  {
    if CategoryName(c) in Names(cs) {
      var i :| 0 <= i < |cs| && Names(cs)[i] == CategoryName(c);
      assert cs[i] == c;
    }
  }

  /** Removing repeated names is removing repeated categories, since no two
      categories share a name. */
  lemma {:induction false} DistinctNames(cs: seq<Category>)
    ensures Distinct(Names(cs)) == Names(Distinct(cs))
  {
    if cs != [] {
      var init := cs[..|cs| - 1];
      var last := cs[|cs| - 1];
      assert Names(cs)[..|cs| - 1] == Names(init);
      DistinctNames(init);
      NameInNames(Distinct(init), last);
      if last !in Distinct(init) {
        assert Names(Distinct(init) + [last]) == Names(Distinct(init)) + [CategoryName(last)];
      }
    }
  }

  /** `['All', ...Array.from(new Set(catalog.map(i => i.category)))]`. */
  function Categories(catalog: seq<ItemDef>): (r: seq<string>)
    ensures |r| >= 1 && r[0] == ALL
    ensures forall c :: c in r[1..] <==> c in CategoryNames(catalog)
  {
    DistinctProperties(CategoryNames(catalog));
    var r := [ALL] + Distinct(CategoryNames(catalog));
    assert r[1..] == Distinct(CategoryNames(catalog));
    r
  }

  /** The buttons are 'All' and then each category of the catalog once, in
      the order in which the catalog first uses it. */
  lemma CategoriesProperties(catalog: seq<ItemDef>)
    ensures Categories(catalog)[0] == ALL
    ensures forall c :: c in Categories(catalog)[1..] <==> c in CategoryNames(catalog)
    ensures forall i, j :: 1 <= i < j < |Categories(catalog)| ==>
              Categories(catalog)[i] != Categories(catalog)[j]
    ensures forall i, j :: 1 <= i < j < |Categories(catalog)| ==>
              FirstIndex(CategoryNames(catalog), Categories(catalog)[i])
              < FirstIndex(CategoryNames(catalog), Categories(catalog)[j])
  {
    var d := Distinct(CategoryNames(catalog));
    DistinctProperties(CategoryNames(catalog));
    assert Categories(catalog)[1..] == d;
    forall i, j | 1 <= i < j < |Categories(catalog)|
      ensures Categories(catalog)[i] == d[i - 1] && Categories(catalog)[j] == d[j - 1]
    {
    }
  }

  // The proof that the shipped catalog gives the buttons All, Sack, Bale,
  // Box and Pack. Unfolding `Distinct` over the sixteen items at once is too
  // much work for the solver, so the categories are copied out as a literal
  // (proved equal to the catalog's) and de-duplicated in chunks: each
  // `DistinctCategoriesUpToN` lemma extends the result from one prefix to a
  // longer one, using only the categories of the items in between.

  /** The categories of the sixteen catalog items, in catalog order. */
  const CATALOG_CATEGORIES: seq<Category> :=
    [Sack, Sack, Sack, Sack, Bale, Box, Box, Box, Box, Box, Box, Box, Pack, Sack, Sack, Sack]

  lemma CatalogCategoriesOf()
    ensures CategoriesOf(Constants.ITEMS) == CATALOG_CATEGORIES
  {
  }

  lemma DistinctCategoriesUpTo4(cs: seq<Category>)
    requires |cs| == 16 && cs[0] == Sack && cs[1] == Sack && cs[2] == Sack && cs[3] == Sack
    ensures Distinct(cs[..4]) == [Sack]
  {
    assert cs[..0] == [];
    DistinctStep(cs, 0);
    DistinctStep(cs, 1);
    DistinctStep(cs, 2);
    DistinctStep(cs, 3);
  }

  lemma DistinctCategoriesUpTo5(cs: seq<Category>)
    requires |cs| == 16 && cs[4] == Bale
    requires Distinct(cs[..4]) == [Sack]
    ensures Distinct(cs[..5]) == [Sack, Bale]
  {
    DistinctStep(cs, 4);
  }

  lemma DistinctCategoriesUpTo6(cs: seq<Category>)
    requires |cs| == 16 && cs[5] == Box
    requires Distinct(cs[..5]) == [Sack, Bale]
    ensures Distinct(cs[..6]) == [Sack, Bale, Box]
  {
    DistinctStep(cs, 5);
  }

  lemma DistinctCategoriesUpTo8(cs: seq<Category>)
    requires |cs| == 16 && cs[6] == Box && cs[7] == Box
    requires Distinct(cs[..6]) == [Sack, Bale, Box]
    ensures Distinct(cs[..8]) == [Sack, Bale, Box]
  {
    DistinctStep(cs, 6);
    DistinctStep(cs, 7);
  }

  lemma DistinctCategoriesUpTo12(cs: seq<Category>)
    requires |cs| == 16 && cs[8] == Box && cs[9] == Box && cs[10] == Box && cs[11] == Box
    requires Distinct(cs[..8]) == [Sack, Bale, Box]
    ensures Distinct(cs[..12]) == [Sack, Bale, Box]
  {
    DistinctStep(cs, 8);
    DistinctStep(cs, 9);
    DistinctStep(cs, 10);
    DistinctStep(cs, 11);
  }

  lemma DistinctCategoriesUpTo13(cs: seq<Category>)
    requires |cs| == 16 && cs[12] == Pack
    requires Distinct(cs[..12]) == [Sack, Bale, Box]
    ensures Distinct(cs[..13]) == [Sack, Bale, Box, Pack]
  {
    DistinctStep(cs, 12);
  }

  lemma DistinctCategoriesUpTo16(cs: seq<Category>)
    requires |cs| == 16 && cs[13] == Sack && cs[14] == Sack && cs[15] == Sack
    requires Distinct(cs[..13]) == [Sack, Bale, Box, Pack]
    ensures Distinct(cs[..16]) == [Sack, Bale, Box, Pack]
  {
    DistinctStep(cs, 13);
    DistinctStep(cs, 14);
    DistinctStep(cs, 15);
  }

  lemma CatalogCategoriesAt()
    ensures |CATALOG_CATEGORIES| == 16
    ensures CATALOG_CATEGORIES[0] == Sack && CATALOG_CATEGORIES[1] == Sack && CATALOG_CATEGORIES[2] == Sack && CATALOG_CATEGORIES[3] == Sack && CATALOG_CATEGORIES[4] == Bale && CATALOG_CATEGORIES[5] == Box && CATALOG_CATEGORIES[6] == Box && CATALOG_CATEGORIES[7] == Box && CATALOG_CATEGORIES[8] == Box && CATALOG_CATEGORIES[9] == Box && CATALOG_CATEGORIES[10] == Box && CATALOG_CATEGORIES[11] == Box && CATALOG_CATEGORIES[12] == Pack && CATALOG_CATEGORIES[13] == Sack && CATALOG_CATEGORIES[14] == Sack && CATALOG_CATEGORIES[15] == Sack
  {
  }

  lemma DistinctCatalogCategories()
    ensures Distinct(CATALOG_CATEGORIES) == [Sack, Bale, Box, Pack]
  {
    var cs := CATALOG_CATEGORIES;
    CatalogCategoriesAt();
    DistinctCategoriesUpTo4(cs);
    DistinctCategoriesUpTo5(cs);
    DistinctCategoriesUpTo6(cs);
    DistinctCategoriesUpTo8(cs);
    DistinctCategoriesUpTo12(cs);
    DistinctCategoriesUpTo13(cs);
    DistinctCategoriesUpTo16(cs);
    assert cs[..16] == cs;
  }

  /** For the catalog at hand the buttons are All, Sack, Bale, Box and Pack. */
  lemma CatalogCategories()
    ensures Categories(Constants.ITEMS) == [ALL, "Sack", "Bale", "Box", "Pack"]
  {
    CatalogCategoriesOf();
    DistinctCatalogCategories();
    DistinctNames(CATALOG_CATEGORIES);
  }
}
