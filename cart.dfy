// The cart of App.tsx as values: the pure updaters handed to `setCart`
// (add, remove), the total-weight reduce, and what they preserve.
// A cart is a list of entries, at most one per item id.

module Cart {
  import opened Types

  // ---------------------------------------------------------------------
  // Invariants of a cart
  // ---------------------------------------------------------------------

  /** No two entries share an item id. */
  predicate UniqueIds(cart: seq<CartItem>)
  {
    forall i, j :: 0 <= i < j < |cart| ==> cart[i].Id() != cart[j].Id()
  }

  /** Every entry holds at least one unit. */
  predicate AllPositive(cart: seq<CartItem>)
  {
    forall i :: 0 <= i < |cart| ==> cart[i].quantity > 0
  }

  /** No entry has id `id`. */
  predicate Absent(cart: seq<CartItem>, id: string)
  {
    forall j :: 0 <= j < |cart| ==> cart[j].Id() != id
  }

  // ---------------------------------------------------------------------
  // Lookup
  // ---------------------------------------------------------------------

  /** The position of the first entry with id `id`, as `prev.find` finds it. */
  function Find(cart: seq<CartItem>, id: string): (r: Option<nat>)
    ensures r.Some? ==> r.value < |cart| && cart[r.value].Id() == id
    ensures r.Some? ==> forall j :: 0 <= j < r.value ==> cart[j].Id() != id
    ensures r.None? <==> Absent(cart, id)
  {
    if cart == [] then None
    else if cart[0].Id() == id then Some(0)
    else
      match Find(cart[1..], id)
      case None => None
      case Some(k) => Some(k + 1)
  }

  /** In a cart with unique ids, an entry with id `id` is the one `Find` finds. */
  lemma FindUnique(cart: seq<CartItem>, id: string, k: nat)
    requires UniqueIds(cart)
    requires k < |cart| && cart[k].Id() == id
    ensures Find(cart, id) == Some(k)
  {
  }

  // ---------------------------------------------------------------------
  // The updaters
  // ---------------------------------------------------------------------

  /** `prev.map(i => i.id === id ? { ...i, quantity: i.quantity + qty } : i)`. */
  function Increment(cart: seq<CartItem>, id: string, qty: nat): (r: seq<CartItem>)
    ensures |r| == |cart|
    ensures forall k :: 0 <= k < |cart| ==> r[k].item == cart[k].item
    ensures forall k :: 0 <= k < |cart| && cart[k].Id() != id ==> r[k] == cart[k]
    ensures forall k :: 0 <= k < |cart| && cart[k].Id() == id ==> r[k].quantity == cart[k].quantity + qty
  {
    seq(|cart|, k requires 0 <= k < |cart| =>
      if cart[k].Id() == id then cart[k].(quantity := cart[k].quantity + qty) else cart[k])
  }

  /** `prev.map(i => i.id === id ? { ...i, quantity: i.quantity - 1 } : i)`;
      an entry already at zero stays at zero (see README). */
  function Decrement(cart: seq<CartItem>, id: string): (r: seq<CartItem>)
    ensures |r| == |cart|
    ensures forall k :: 0 <= k < |cart| ==> r[k].item == cart[k].item
    ensures forall k :: 0 <= k < |cart| && cart[k].Id() != id ==> r[k] == cart[k]
    ensures forall k :: 0 <= k < |cart| && cart[k].Id() == id && cart[k].quantity > 0 ==>
              r[k].quantity + 1 == cart[k].quantity
  {
    seq(|cart|, k requires 0 <= k < |cart| =>
      if cart[k].Id() == id && cart[k].quantity > 0
      then cart[k].(quantity := cart[k].quantity - 1) else cart[k])
  }

  /** `prev.filter(i => i.id !== id)`. */
  function Without(cart: seq<CartItem>, id: string): (r: seq<CartItem>)
    ensures |r| <= |cart|
    ensures Absent(r, id)
    ensures forall x :: x in r <==> x in cart && x.Id() != id
    ensures Absent(cart, id) ==> r == cart
  {
    if cart == [] then []
    else (if cart[0].Id() == id then [] else [cart[0]]) + Without(cart[1..], id)
  }

  /** The `setCart` updater of `handleAddToCart`. */
  function AddToCart(prev: seq<CartItem>, item: ItemDef, qtyToAdd: nat): (r: seq<CartItem>)
    ensures |r| == if Absent(prev, item.id) then |prev| + 1 else |prev|
    ensures forall k :: 0 <= k < |prev| ==> r[k].item == prev[k].item
    ensures !Absent(r, item.id)
    ensures forall x: CartItem :: x.Id() != item.id ==> (x in r <==> x in prev)
  {
    if Find(prev, item.id).Some? then Increment(prev, item.id, qtyToAdd)
    else
      var r := prev + [CartItem(item, qtyToAdd)];
      assert r[|prev|].Id() == item.id;
      r
  }

  /** The `setCart` updater of `handleRemoveFromCart`. */
  function RemoveFromCart(prev: seq<CartItem>, itemId: string): (r: seq<CartItem>)
    ensures |r| <= |prev|
    ensures forall x: CartItem :: x.Id() != itemId ==> (x in r <==> x in prev)
    ensures Absent(prev, itemId) ==> r == prev
  {
    match Find(prev, itemId)
    case Some(k) => if prev[k].quantity > 1 then Decrement(prev, itemId) else Without(prev, itemId)
    case None => Without(prev, itemId)
  }

  // ---------------------------------------------------------------------
  // Total weight
  // ---------------------------------------------------------------------

  function EntryWeight(e: CartItem): nat
  {
    e.quantity * e.item.weightKg
  }

  /** `cart.reduce((acc, item) => acc + item.quantity * item.weightKg, acc)`. */
  function WeightFrom(acc: nat, cart: seq<CartItem>): nat
    decreases |cart|
  {
    if cart == [] then acc else WeightFrom(acc + EntryWeight(cart[0]), cart[1..])
  }

  /** The cart's total weight in kilograms, as App.tsx and the prompt compute it. */
  function TotalWeight(cart: seq<CartItem>): (w: nat)
    ensures w == WeightSum(cart)
    ensures cart == [] ==> w == 0
  {
    WeightFromIsSum(0, cart);
    WeightFrom(0, cart)
  }

  /** The sum of quantity times unit weight over the entries. */
  function WeightSum(cart: seq<CartItem>): nat
  {
    if cart == [] then 0 else EntryWeight(cart[0]) + WeightSum(cart[1..])
  }

  lemma {:induction false} WeightFromIsSum(acc: nat, cart: seq<CartItem>)
    ensures WeightFrom(acc, cart) == acc + WeightSum(cart)
    decreases |cart|
  {
    if cart != [] {
      WeightFromIsSum(acc + EntryWeight(cart[0]), cart[1..]);
    }
  }


  lemma {:induction false} WeightSumAppend(a: seq<CartItem>, b: seq<CartItem>)
    ensures WeightSum(a + b) == WeightSum(a) + WeightSum(b)
  {
    if a == [] {
      assert a + b == b;
    } else {
      assert (a + b)[1..] == a[1..] + b;
      WeightSumAppend(a[1..], b);
    }
  }

  lemma {:induction false} WeightSumUpdate(cart: seq<CartItem>, k: nat, e: CartItem)
    requires k < |cart|
    ensures WeightSum(cart[k := e]) + EntryWeight(cart[k]) == WeightSum(cart) + EntryWeight(e)
  {
    if k > 0 {
      assert cart[k := e][1..] == cart[1..][k - 1 := e];
      WeightSumUpdate(cart[1..], k - 1, e);
    }
  }

  lemma {:induction false} WeightSumDrop(cart: seq<CartItem>, k: nat)
    requires k < |cart|
    ensures WeightSum(cart[..k] + cart[k + 1..]) + EntryWeight(cart[k]) == WeightSum(cart)
  {
    assert cart == cart[..k] + [cart[k]] + cart[k + 1..];
    WeightSumAppend(cart[..k] + [cart[k]], cart[k + 1..]);
    WeightSumAppend(cart[..k], [cart[k]]);
    WeightSumAppend(cart[..k], cart[k + 1..]);
    assert WeightSum([cart[k]]) == EntryWeight(cart[k]) by {
      assert [cart[k]][1..] == [];
    }
  }

  lemma MulAddRight(a: nat, b: nat, w: nat)
    ensures (a + b) * w == a * w + b * w
  {
  }

  // ---------------------------------------------------------------------
  // What the updaters change, and what they keep
  // ---------------------------------------------------------------------

  lemma {:induction false} WithoutUnique(cart: seq<CartItem>, id: string, k: nat)
    requires UniqueIds(cart)
    requires k < |cart| && cart[k].Id() == id
    ensures Without(cart, id) == cart[..k] + cart[k + 1..]
  {
    var rest := Without(cart[1..], id);
    assert Without(cart, id) == (if cart[0].Id() == id then [] else [cart[0]]) + rest;
    if k == 0 {
      assert Absent(cart[1..], id);
      assert rest == cart[1..];
      assert cart[..0] + cart[1..] == cart[1..];
    } else {
      assert cart[0].Id() != cart[k].Id();
      assert UniqueIds(cart[1..]);
      WithoutUnique(cart[1..], id, k - 1);
      assert cart[..k] == [cart[0]] + cart[1..][..k - 1];
      assert cart[k + 1..] == cart[1..][k..];
    }
  }

  lemma IncrementUnique(cart: seq<CartItem>, id: string, qty: nat, k: nat)
    requires UniqueIds(cart)
    requires k < |cart| && cart[k].Id() == id
    ensures Increment(cart, id, qty) == cart[k := cart[k].(quantity := cart[k].quantity + qty)]
  {
  }

  lemma DecrementUnique(cart: seq<CartItem>, id: string, k: nat)
    requires UniqueIds(cart)
    requires k < |cart| && cart[k].Id() == id && cart[k].quantity > 0
    ensures Decrement(cart, id) == cart[k := cart[k].(quantity := cart[k].quantity - 1)]
  {
  }

  /** Adding an item that is in the cart raises that entry's quantity by
      `qtyToAdd` and changes nothing else: same length, same order. */
  lemma AddExisting(cart: seq<CartItem>, item: ItemDef, qtyToAdd: nat, k: nat)
    requires UniqueIds(cart)
    requires k < |cart| && cart[k].Id() == item.id
    ensures AddToCart(cart, item, qtyToAdd) == cart[k := cart[k].(quantity := cart[k].quantity + qtyToAdd)]
  {
    IncrementUnique(cart, item.id, qtyToAdd, k);
  }

  /** Adding an item that is not in the cart appends one entry at the end. */
  lemma AddNew(cart: seq<CartItem>, item: ItemDef, qtyToAdd: nat)
    requires Absent(cart, item.id)
    ensures AddToCart(cart, item, qtyToAdd) == cart + [CartItem(item, qtyToAdd)]
  {
  }

  /** Removing an entry with more than one unit takes exactly one unit off it. */
  lemma RemoveDecrements(cart: seq<CartItem>, itemId: string, k: nat)
    requires UniqueIds(cart)
    requires k < |cart| && cart[k].Id() == itemId && cart[k].quantity > 1
    ensures RemoveFromCart(cart, itemId) == cart[k := cart[k].(quantity := cart[k].quantity - 1)]
  {
    FindUnique(cart, itemId, k);
    DecrementUnique(cart, itemId, k);
  }

  /** Removing an entry with one unit (or none) drops it and keeps the others in order. */
  lemma RemoveDrops(cart: seq<CartItem>, itemId: string, k: nat)
    requires UniqueIds(cart)
    requires k < |cart| && cart[k].Id() == itemId && cart[k].quantity <= 1
    ensures RemoveFromCart(cart, itemId) == cart[..k] + cart[k + 1..]
  {
    FindUnique(cart, itemId, k);
    WithoutUnique(cart, itemId, k);
  }

  lemma DropKeepsUnique(cart: seq<CartItem>, k: nat)
    requires UniqueIds(cart) && k < |cart|
    ensures UniqueIds(cart[..k] + cart[k + 1..])
  {
    var r := cart[..k] + cart[k + 1..];
    forall i, j | 0 <= i < j < |r| ensures r[i].Id() != r[j].Id() {
      var i' := if i < k then i else i + 1;
      var j' := if j < k then j else j + 1;
      assert r[i] == cart[i'] && r[j] == cart[j'];
    }
  }

  /** Both updaters keep the ids unique. */
  lemma UpdatesKeepUnique(cart: seq<CartItem>, item: ItemDef, qtyToAdd: nat, itemId: string)
    requires UniqueIds(cart)
    ensures UniqueIds(AddToCart(cart, item, qtyToAdd))
    ensures UniqueIds(RemoveFromCart(cart, itemId))
  {
    AddKeepsUnique(cart, item, qtyToAdd);
    RemoveKeepsUnique(cart, itemId);
  }

  lemma AddKeepsUnique(cart: seq<CartItem>, item: ItemDef, qtyToAdd: nat)
    requires UniqueIds(cart)
    ensures UniqueIds(AddToCart(cart, item, qtyToAdd))
  {
    match Find(cart, item.id)
    case Some(k) =>
      AddExisting(cart, item, qtyToAdd, k);
      var r := AddToCart(cart, item, qtyToAdd);
      assert forall i :: 0 <= i < |r| ==> r[i].Id() == cart[i].Id();
    case None =>
      AddNew(cart, item, qtyToAdd);
  }

  lemma RemoveKeepsUnique(cart: seq<CartItem>, itemId: string)
    requires UniqueIds(cart)
    ensures UniqueIds(RemoveFromCart(cart, itemId))
  {
    match Find(cart, itemId)
    case Some(k) =>
      if cart[k].quantity > 1 {
        RemoveDecrements(cart, itemId, k);
        var r := RemoveFromCart(cart, itemId);
        assert forall i :: 0 <= i < |r| ==> r[i].Id() == cart[i].Id();
      } else {
        RemoveDrops(cart, itemId, k);
        DropKeepsUnique(cart, k);
      }
    case None =>
      assert RemoveFromCart(cart, itemId) == cart;
  }

  /** With at least one unit added, every entry keeps a positive quantity
      after an add and after a remove. */
  lemma UpdatesKeepPositive(cart: seq<CartItem>, item: ItemDef, qtyToAdd: nat, itemId: string)
    requires UniqueIds(cart) && AllPositive(cart)
    ensures qtyToAdd >= 1 ==> AllPositive(AddToCart(cart, item, qtyToAdd))
    ensures AllPositive(RemoveFromCart(cart, itemId))
  {
    RemoveKeepsPositive(cart, itemId);
  }

  lemma RemoveKeepsPositive(cart: seq<CartItem>, itemId: string)
    requires UniqueIds(cart) && AllPositive(cart)
    ensures AllPositive(RemoveFromCart(cart, itemId))
  {
    match Find(cart, itemId)
    case Some(k) =>
      if cart[k].quantity > 1 {
        RemoveDecrements(cart, itemId, k);
      } else {
        RemoveDrops(cart, itemId, k);
        var r := cart[..k] + cart[k + 1..];
        forall i | 0 <= i < |r| ensures r[i].quantity > 0 {
          assert r[i] == cart[if i < k then i else i + 1];
        }
      }
    case None =>
      assert RemoveFromCart(cart, itemId) == cart;
  }

  /** Adding one unit and then removing the same id gives the original cart
      back, whether or not the item was in it. */
  lemma AddThenRemove(cart: seq<CartItem>, item: ItemDef)
    requires UniqueIds(cart) && AllPositive(cart)
    ensures RemoveFromCart(AddToCart(cart, item, 1), item.id) == cart
  {
    var added := AddToCart(cart, item, 1);
    match Find(cart, item.id)
    case Some(k) =>
      AddExisting(cart, item, 1, k);
      UpdatesKeepUnique(cart, item, 1, item.id);
      RemoveDecrements(added, item.id, k);
      assert added[k := added[k].(quantity := added[k].quantity - 1)] == cart;
    case None =>
      AddNew(cart, item, 1);
      UpdatesKeepUnique(cart, item, 1, item.id);
      RemoveDrops(added, item.id, |cart|);
      assert added[..|cart|] == cart;
  }

  /** Adding `qtyToAdd` units raises the total by `qtyToAdd` times the unit
      weight of the entry that receives them. */
  lemma AddWeight(cart: seq<CartItem>, item: ItemDef, qtyToAdd: nat)
    requires UniqueIds(cart)
    ensures Absent(cart, item.id) ==>
              TotalWeight(AddToCart(cart, item, qtyToAdd)) == TotalWeight(cart) + qtyToAdd * item.weightKg
    ensures forall k :: 0 <= k < |cart| && cart[k].Id() == item.id ==>
              TotalWeight(AddToCart(cart, item, qtyToAdd)) == TotalWeight(cart) + qtyToAdd * cart[k].item.weightKg
  {
    var r := AddToCart(cart, item, qtyToAdd);
    match Find(cart, item.id)
    case Some(k) =>
      var e := cart[k].(quantity := cart[k].quantity + qtyToAdd);
      AddExisting(cart, item, qtyToAdd, k);
      WeightSumUpdate(cart, k, e);
      assert EntryWeight(e) == EntryWeight(cart[k]) + qtyToAdd * cart[k].item.weightKg by {
        MulAddRight(cart[k].quantity, qtyToAdd, cart[k].item.weightKg);
      }
      forall k' | 0 <= k' < |cart| && cart[k'].Id() == item.id
        ensures TotalWeight(r) == TotalWeight(cart) + qtyToAdd * cart[k'].item.weightKg
      {
        assert k' == k;
      }
    case None =>
      AddNew(cart, item, qtyToAdd);
      WeightSumAppend(cart, [CartItem(item, qtyToAdd)]);
      assert WeightSum([CartItem(item, qtyToAdd)]) == qtyToAdd * item.weightKg by {
        assert [CartItem(item, qtyToAdd)][1..] == [];
      }
  }

  /** Removing takes one unit's weight off the total when the id is in a
      cart of positive entries, and nothing when it is absent. */
  lemma RemoveWeight(cart: seq<CartItem>, itemId: string)
    requires UniqueIds(cart) && AllPositive(cart)
    ensures Absent(cart, itemId) ==> TotalWeight(RemoveFromCart(cart, itemId)) == TotalWeight(cart)
    ensures forall k :: 0 <= k < |cart| && cart[k].Id() == itemId ==>
              TotalWeight(RemoveFromCart(cart, itemId)) + cart[k].item.weightKg == TotalWeight(cart)
  {
    var r := RemoveFromCart(cart, itemId);
    match Find(cart, itemId)
    case Some(k) =>
      if cart[k].quantity > 1 {
        var e := cart[k].(quantity := cart[k].quantity - 1);
        RemoveDecrements(cart, itemId, k);
        WeightSumUpdate(cart, k, e);
        assert EntryWeight(cart[k]) == EntryWeight(e) + cart[k].item.weightKg by {
          MulAddRight(cart[k].quantity - 1, 1, cart[k].item.weightKg);
        }
      } else {
        RemoveDrops(cart, itemId, k);
        WeightSumDrop(cart, k);
      }
      forall k' | 0 <= k' < |cart| && cart[k'].Id() == itemId
        ensures TotalWeight(r) + cart[k'].item.weightKg == TotalWeight(cart)
      {
        assert k' == k;
      }
    case None =>
      assert RemoveFromCart(cart, itemId) == cart;
  }
}
