/** The cart endpoints. Each user's cart is a list of lines in insertion order; a line names
    a product and a quantity. Prices are read from the live catalog when a total is taken. */
module CartController {
  import opened Common
  import opened Catalog

  datatype CartLine = CartLine(id: nat, productId: nat, quantity: int)

  const ValidationFailed := Reply(422, "Validation failed")

  /** At most one line per product, no two lines with the same id, every quantity at least
      one and every id issued by the store. */
  ghost predicate WellFormedLines(lines: seq<CartLine>, nextLineId: nat) {
    && (forall i :: 0 <= i < |lines| ==> lines[i].quantity >= 1 && lines[i].id < nextLineId)
    && (forall i, j :: 0 <= i < j < |lines| ==> lines[i].productId != lines[j].productId && lines[i].id != lines[j].id)
  }

  /** `CartItem::where('cart_id', ...)->where('product_id', ...)->first()` */
  function LineOfProduct(lines: seq<CartLine>, productId: nat): (r: Option<nat>)
    ensures r.Some? ==> r.value < |lines| && lines[r.value].productId == productId
    ensures r.Some? ==> forall j :: 0 <= j < r.value ==> lines[j].productId != productId
    ensures r.None? ==> forall i :: 0 <= i < |lines| ==> lines[i].productId != productId
  {
    FirstIndex(lines, (l: CartLine) => l.productId == productId)
  }

  /** `CartItem::where('cart_id', ...)->where('id', ...)->firstOrFail()` */
  function LineWithId(lines: seq<CartLine>, id: nat): (r: Option<nat>)
    ensures r.Some? ==> r.value < |lines| && lines[r.value].id == id
    ensures r.None? ==> forall i :: 0 <= i < |lines| ==> lines[i].id != id
  {
    FirstIndex(lines, (l: CartLine) => l.id == id)
  }

  /** How many units of `productId` the cart holds. */
  function QuantityOf(lines: seq<CartLine>, productId: nat): int {
    match LineOfProduct(lines, productId)
    case Some(k) => lines[k].quantity
    case None => 0
  }

  /** The lines after `addToCart`: a product already in the cart has its quantity raised,
      another is appended as a new line with id `newId`. */
  function AddLine(lines: seq<CartLine>, productId: nat, quantity: int, newId: nat): seq<CartLine> {
    match LineOfProduct(lines, productId)
    case Some(k) => lines[k := lines[k].(quantity := lines[k].quantity + quantity)]
    case None => lines + [CartLine(newId, productId, quantity)]
  }

  function RemoveAt(lines: seq<CartLine>, k: nat): (r: seq<CartLine>)
    requires k < |lines|
    ensures |r| == |lines| - 1
    ensures forall i :: 0 <= i < k ==> r[i] == lines[i]
    ensures forall i :: k <= i < |r| ==> r[i] == lines[i + 1]
  {
    lines[..k] + lines[k + 1..]
  }

  /** The cart's total at current prices, `None` when a line's product is gone (reading
      its price then raises an error). */
  function LinesTotal(lines: seq<CartLine>, products: map<nat, Product>): Option<int> {
    if |lines| == 0 then Some(0)
    else
      var last := lines[|lines| - 1];
      match LinesTotal(lines[..|lines| - 1], products)
      case None => None
      case Some(t) => if last.productId in products then Some(t + products[last.productId].price * last.quantity) else None
  }

  predicate AllPriced(lines: seq<CartLine>, products: map<nat, Product>) {
    forall i :: 0 <= i < |lines| ==> lines[i].productId in products
  }

  lemma {:induction false} LinesTotalDefined(lines: seq<CartLine>, products: map<nat, Product>)
    ensures LinesTotal(lines, products).Some? <==> AllPriced(lines, products)
  {
    if |lines| > 0 {
      var init := lines[..|lines| - 1];
      LinesTotalDefined(init, products);
      assert forall i :: 0 <= i < |init| ==> init[i] == lines[i];
    }
  }

  /** Raising one line's quantity by `q` raises the total by that product's price times `q`. */
  lemma {:induction false} LinesTotalRaise(lines: seq<CartLine>, products: map<nat, Product>, k: nat, q: int)
    requires k < |lines| && LinesTotal(lines, products).Some? && lines[k].productId in products
    ensures LinesTotal(lines[k := lines[k].(quantity := lines[k].quantity + q)], products)
         == Some(LinesTotal(lines, products).value + products[lines[k].productId].price * q)
  {
    var n := |lines|;
    var raised := lines[k := lines[k].(quantity := lines[k].quantity + q)];
    var init := lines[..n - 1];
    LinesTotalDefined(lines, products);
    if k == n - 1 {
      assert raised[..n - 1] == init;
    } else {
      assert raised[..n - 1] == init[k := init[k].(quantity := init[k].quantity + q)];
      LinesTotalRaise(init, products, k, q);
    }
  }

  lemma LinesTotalAppend(lines: seq<CartLine>, products: map<nat, Product>, line: CartLine)
    ensures LinesTotal(lines + [line], products) ==
      if LinesTotal(lines, products).Some? && line.productId in products
      then Some(LinesTotal(lines, products).value + products[line.productId].price * line.quantity)
      else None
  {
    assert (lines + [line])[..|lines|] == lines;
  }

  lemma LinesTotalAppendPriced(lines: seq<CartLine>, products: map<nat, Product>, line: CartLine)
    requires LinesTotal(lines, products).Some? && line.productId in products
    ensures LinesTotal(lines + [line], products) == Some(LinesTotal(lines, products).value + products[line.productId].price * line.quantity)
  {
    assert (lines + [line])[..|lines|] == lines;
  }

  /** Two line lists with the same product at every position find a product at the same place. */
  lemma LineOfProductByKeys(a: seq<CartLine>, b: seq<CartLine>, p: nat)
    requires |a| == |b| && forall i :: 0 <= i < |a| ==> a[i].productId == b[i].productId
    ensures LineOfProduct(a, p) == LineOfProduct(b, p)
  {
    var ra, rb := LineOfProduct(a, p), LineOfProduct(b, p);
    if ra.Some? {
      assert b[ra.value].productId == p;
      assert a[rb.value].productId == p;
    } else {
      assert forall i :: 0 <= i < |b| ==> a[i].productId != p;
    }
  }

  lemma LineOfProductAppend(lines: seq<CartLine>, x: CartLine, p: nat)
    ensures LineOfProduct(lines + [x], p) ==
      if LineOfProduct(lines, p).Some? then LineOfProduct(lines, p)
      else if x.productId == p then Some(|lines|) else None
  {
    var s := lines + [x];
    var r, r0 := LineOfProduct(s, p), LineOfProduct(lines, p);
    if r0.Some? {
      assert s[r0.value] == lines[r0.value];
      assert r.value <= r0.value;
      assert s[r.value] == lines[r.value];
    } else {
      assert forall i :: 0 <= i < |lines| ==> s[i] == lines[i];
      assert s[|lines|] == x;
    }
  }

  /** Adding `q` units of a product raises that product's quantity by `q` and leaves every
      other product's quantity alone; a line is added only for a product not yet in the cart. */
  lemma AddLineQuantity(lines: seq<CartLine>, productId: nat, q: int, newId: nat, p: nat)
    ensures QuantityOf(AddLine(lines, productId, q, newId), p) == QuantityOf(lines, p) + (if p == productId then q else 0)
    ensures |AddLine(lines, productId, q, newId)| == |lines| + (if LineOfProduct(lines, productId).Some? then 0 else 1)
  {
    var r := AddLine(lines, productId, q, newId);
    match LineOfProduct(lines, productId) {
      case Some(k) =>
        LineOfProductByKeys(r, lines, p);
      case None =>
        LineOfProductAppend(lines, CartLine(newId, productId, q), p);
    }
  }

  lemma AddExistingLineTotal(lines: seq<CartLine>, products: map<nat, Product>, productId: nat, q: int, newId: nat, k: nat)
    requires LinesTotal(lines, products).Some? && productId in products && LineOfProduct(lines, productId) == Some(k)
    ensures LinesTotal(AddLine(lines, productId, q, newId), products) ==
      Some(LinesTotal(lines, products).value + products[productId].price * q)
  {
    AddLineRaises(lines, productId, q, newId, k);
    LinesTotalRaise(lines, products, k, q);
  }

  lemma AddLineRaises(lines: seq<CartLine>, productId: nat, q: int, newId: nat, k: nat)
    requires LineOfProduct(lines, productId) == Some(k)
    ensures k < |lines| && lines[k].productId == productId
    ensures AddLine(lines, productId, q, newId) == lines[k := lines[k].(quantity := lines[k].quantity + q)]
  {
  }

  lemma AddNewLineTotal(lines: seq<CartLine>, products: map<nat, Product>, productId: nat, q: int, newId: nat)
    requires LinesTotal(lines, products).Some? && productId in products && LineOfProduct(lines, productId).None?
    ensures LinesTotal(AddLine(lines, productId, q, newId), products) ==
      Some(LinesTotal(lines, products).value + products[productId].price * q)
  {
    LinesTotalAppendPriced(lines, products, CartLine(newId, productId, q));
  }

  /** Adding `q` units of a product raises the total by its price times `q`. */
  lemma AddLineTotal(lines: seq<CartLine>, products: map<nat, Product>, productId: nat, q: int, newId: nat)
    requires LinesTotal(lines, products).Some? && productId in products
    ensures LinesTotal(AddLine(lines, productId, q, newId), products) ==
      Some(LinesTotal(lines, products).value + products[productId].price * q)
  {
    match LineOfProduct(lines, productId) {
      case Some(k) => AddExistingLineTotal(lines, products, productId, q, newId, k);
      case None => AddNewLineTotal(lines, products, productId, q, newId);
    }
  }

  /** Adding a product twice leaves one line with the sum of the quantities. */
  lemma AddTwiceMerges(lines: seq<CartLine>, productId: nat, q1: int, q2: int, newId1: nat, newId2: nat)
    ensures var once := AddLine(lines, productId, q1, newId1);
      var twice := AddLine(once, productId, q2, newId2);
      |twice| == |once| && QuantityOf(twice, productId) == QuantityOf(lines, productId) + q1 + q2
  {
    var once := AddLine(lines, productId, q1, newId1);
    AddLineQuantity(lines, productId, q1, newId1, productId);
    match LineOfProduct(lines, productId) {
      case Some(k) => assert once[k].productId == productId;
      case None => assert once[|lines|].productId == productId;
    }
    AddLineQuantity(once, productId, q2, newId2, productId);
  }

  /** The lines of the cart after each operation keep the cart well formed. */
  lemma AddLineWellFormed(lines: seq<CartLine>, productId: nat, q: int, nextLineId: nat)
    requires WellFormedLines(lines, nextLineId) && q >= 1
    ensures WellFormedLines(AddLine(lines, productId, q, nextLineId),
      nextLineId + (if LineOfProduct(lines, productId).Some? then 0 else 1))
  {
  }

  lemma RemoveAtWellFormed(lines: seq<CartLine>, k: nat, nextLineId: nat)
    requires WellFormedLines(lines, nextLineId) && k < |lines|
    ensures WellFormedLines(RemoveAt(lines, k), nextLineId)
  {
    var r := RemoveAt(lines, k);
    forall i, j | 0 <= i < j < |r|
      ensures r[i].productId != r[j].productId && r[i].id != r[j].id
    {
      var i', j' := if i < k then i else i + 1, if j < k then j else j + 1;
      assert r[i] == lines[i'] && r[j] == lines[j'] && i' < j';
    }
  }

  ghost predicate CartsWellFormed(carts: map<nat, seq<CartLine>>, nextLineId: nat) {
    forall u :: u in carts ==> WellFormedLines(carts[u], nextLineId)
  }

  /** Storing a well-formed cart, with the line counter possibly advanced, keeps every cart well formed. */
  lemma PutKeepsWellFormed(carts: map<nat, seq<CartLine>>, userId: nat, lines: seq<CartLine>, n: nat, m: nat)
    requires CartsWellFormed(carts, n) && n <= m && WellFormedLines(lines, m)
    ensures CartsWellFormed(carts[userId := lines], m)
  {
  }

  /** The carts of every user: `carts[u]` is the cart of user `u` when it exists. */
  class CartStore {
    var carts: map<nat, seq<CartLine>>
    var nextLineId: nat

    ghost predicate Valid()
      reads this
    {
      CartsWellFormed(carts, nextLineId)
    }

    constructor ()
      ensures Valid() && carts == map[] && nextLineId == 1
    {
      carts, nextLineId := map[], 1;
    }
  }

  /** The running total of `getCart` (and of checkout). */
  method SumLines(lines: seq<CartLine>, products: map<nat, Product>) returns (total: Option<int>)
    ensures total == LinesTotal(lines, products)
  {
    var sum := 0;
    var i := 0;
    while i < |lines|
      invariant 0 <= i <= |lines|
      invariant LinesTotal(lines[..i], products) == Some(sum)
    {
      var line := lines[i];
      if line.productId !in products {
        LinesTotalDefined(lines, products);
        return None;
      }
      assert lines[..i + 1] == lines[..i] + [line];
      LinesTotalAppend(lines[..i], products, line);
      sum := sum + products[line.productId].price * line.quantity;
      i := i + 1;
    }
    assert lines[..i] == lines;
    total := Some(sum);
  }

  /** `getCart`: the caller's cart, created when absent, and its total (`None` stands for the
      server error a line whose product is gone raises). */
  method GetCart(store: CartStore, products: map<nat, Product>, userId: nat) returns (lines: seq<CartLine>, total: Option<int>)
    requires store.Valid()
    modifies store`carts
    ensures store.Valid()
    ensures store.carts == if userId in old(store.carts) then old(store.carts) else old(store.carts)[userId := []]
    ensures lines == store.carts[userId]
    ensures total == LinesTotal(lines, products)
    ensures total.Some? <==> AllPriced(lines, products)
  {
    if userId !in store.carts {
      store.carts := store.carts[userId := []];
    }
    lines := store.carts[userId];
    total := SumLines(lines, products);
    LinesTotalDefined(lines, products);
  }

  method AddToCart(store: CartStore, products: map<nat, Product>, userId: nat, productId: Field<nat>, quantity: Field<int>)
    returns (r: Reply)
    requires store.Valid()
    modifies store
    ensures store.Valid()
    ensures !(productId.Given? && productId.value in products && quantity.Given? && quantity.value >= 1) ==>
      r == ValidationFailed && store.carts == old(store.carts) && store.nextLineId == old(store.nextLineId)
    ensures productId.Given? && productId.value in products && quantity.Given? && quantity.value >= 1 ==>
      var before := if userId in old(store.carts) then old(store.carts[userId]) else [];
      && r == Reply(200, "Product added to cart successfully")
      && store.carts == old(store.carts)[userId := AddLine(before, productId.value, quantity.value, old(store.nextLineId))]
      && store.nextLineId == old(store.nextLineId) + (if LineOfProduct(before, productId.value).Some? then 0 else 1)
  {
    if !(productId.Given? && productId.value in products && quantity.Given? && quantity.value >= 1) {
      return ValidationFailed;
    }
    var lines := if userId in store.carts then store.carts[userId] else [];
    var p, q, next := productId.value, quantity.value, store.nextLineId;
    AddLineWellFormed(lines, p, q, next);
    var k := LineOfProduct(lines, p);
    var added: seq<CartLine>;
    if k.Some? {
      var line := lines[k.value];
      line := line.(quantity := line.quantity + q);
      added := lines[k.value := line];
    } else {
      added := lines + [CartLine(next, p, q)];
      next := next + 1;
    }
    assert added == AddLine(lines, p, q, store.nextLineId);
    PutKeepsWellFormed(store.carts, userId, added, store.nextLineId, next);
    store.carts := store.carts[userId := added];
    store.nextLineId := next;
    r := Reply(200, "Product added to cart successfully");
  }

  method UpdateCartItem(store: CartStore, userId: nat, id: nat, quantity: Field<int>) returns (r: Reply)
    requires store.Valid()
    modifies store`carts
    ensures store.Valid()
    ensures !(quantity.Given? && quantity.value >= 1) ==> r == ValidationFailed && store.carts == old(store.carts)
    ensures quantity.Given? && quantity.value >= 1 && (userId !in old(store.carts) || LineWithId(old(store.carts[userId]), id).None?) ==>
      r == ModelNotFound && store.carts == old(store.carts)
    ensures quantity.Given? && quantity.value >= 1 && userId in old(store.carts) && LineWithId(old(store.carts[userId]), id).Some? ==>
      var lines, k := old(store.carts[userId]), LineWithId(old(store.carts[userId]), id).value;
      && r == Reply(200, "Cart item updated successfully")
      && store.carts == old(store.carts)[userId := lines[k := lines[k].(quantity := quantity.value)]]
  {
    if !(quantity.Given? && quantity.value >= 1) {
      return ValidationFailed;
    }
    if userId !in store.carts {
      return ModelNotFound;
    }
    var lines := store.carts[userId];
    var k := LineWithId(lines, id);
    if k.None? {
      return ModelNotFound;
    }
    var line := lines[k.value];
    line := line.(quantity := quantity.value);
    store.carts := store.carts[userId := lines[k.value := line]];
    r := Reply(200, "Cart item updated successfully");
  }

  method RemoveCartItem(store: CartStore, userId: nat, id: nat) returns (r: Reply)
    requires store.Valid()
    modifies store`carts
    ensures store.Valid()
    ensures (userId !in old(store.carts) || LineWithId(old(store.carts[userId]), id).None?) ==>
      r == ModelNotFound && store.carts == old(store.carts)
    ensures userId in old(store.carts) && LineWithId(old(store.carts[userId]), id).Some? ==>
      && r == Reply(200, "Item removed from cart successfully")
      && store.carts == old(store.carts)[userId := RemoveAt(old(store.carts[userId]), LineWithId(old(store.carts[userId]), id).value)]
  {
    if userId !in store.carts {
      return ModelNotFound;
    }
    var lines := store.carts[userId];
    var k := LineWithId(lines, id);
    if k.None? {
      return ModelNotFound;
    }
    RemoveAtWellFormed(lines, k.value, store.nextLineId);
    store.carts := store.carts[userId := RemoveAt(lines, k.value)];
    r := Reply(200, "Item removed from cart successfully");
  }

  method ClearCart(store: CartStore, userId: nat) returns (r: Reply)
    requires store.Valid()
    modifies store`carts
    ensures store.Valid()
    ensures userId !in old(store.carts) ==> r == ModelNotFound && store.carts == old(store.carts)
    ensures userId in old(store.carts) ==> r == Reply(200, "Cart cleared successfully") && store.carts == old(store.carts)[userId := []]
  {
    if userId !in store.carts {
      return ModelNotFound;
    }
    store.carts := store.carts[userId := []];
    r := Reply(200, "Cart cleared successfully");
  }
}
