/** The shopping cart held by the storefront's `CartProvider`
    (`client/src/context/CartContext.jsx`): a list of cart lines, each a product
    together with a quantity, and the two summaries derived from it, the number of
    units and the total price. Prices are integer cents; a sale price of 0 stands
    for a missing (falsy) `salePrice`. */
module Cart {
  import opened Js

  /** The product fields the cart reads. */
  datatype Product = Product(id: string, name: string, price: int, salePrice: int)

  /** `{ ...product, quantity }`. */
  datatype Line = Line(product: Product, quantity: int)

  // ---------------------------------------------------------------------------
  // Specification on line lists

  /** Some line carries the product id (`cartItems.some(item => item.id === id)`). */
  predicate HasId(items: seq<Line>, id: string)
  {
    exists i :: 0 <= i < |items| && items[i].product.id == id
  }

  /** No two lines share a product id. */
  ghost predicate UniqueIds(items: seq<Line>)
  {
    forall i, j :: 0 <= i < j < |items| ==> items[i].product.id != items[j].product.id
  }

  /** `items.findIndex(item => item.id === id)`. */
  function FindIndex(items: seq<Line>, id: string): (r: int)
    ensures -1 <= r < |items|
    ensures r == -1 <==> !HasId(items, id)
    ensures r >= 0 ==> items[r].product.id == id
    ensures forall j :: 0 <= j < r ==> items[j].product.id != id
    ensures r == -1 ==> forall j :: 0 <= j < |items| ==> items[j].product.id != id
  {
    if items == [] then -1
    else if items[0].product.id == id then 0
    else
      var r := FindIndex(items[1..], id);
      assert HasId(items[1..], id) ==> HasId(items, id) by {
        if HasId(items[1..], id) {
          var i :| 0 <= i < |items[1..]| && items[1..][i].product.id == id;
          assert items[i + 1].product.id == id;
        }
      }
      if r == -1 then -1 else r + 1
  }

  /** The price a line is charged at: `item.salePrice || item.price`. */
  function UnitPrice(p: Product): (c: int)
    ensures p.salePrice != 0 ==> c == p.salePrice
    ensures p.salePrice == 0 ==> c == p.price
  {
    if p.salePrice != 0 then p.salePrice else p.price
  }

  function Quantity(l: Line): int { l.quantity }
  function LineTotal(l: Line): int { UnitPrice(l.product) * l.quantity }

  /** `items.reduce((acc, item) => acc + f(item), 0)`. */
  function SumOf(items: seq<Line>, f: Line -> int): int
  {
    if items == [] then 0 else f(items[0]) + SumOf(items[1..], f)
  }

  /** `cartCount`: the number of units in the cart. */
  function Count(items: seq<Line>): int { SumOf(items, Quantity) }

  /** `cartTotal`: the sum of unit price times quantity. */
  function Total(items: seq<Line>): int { SumOf(items, LineTotal) }

  /** The list `addToCart` produces. */
  function AddSpec(items: seq<Line>, product: Product, quantity: int): (r: seq<Line>)
  {
    var i := FindIndex(items, product.id);
    if i != -1 then items[i := items[i].(quantity := items[i].quantity + quantity)]
    else items + [Line(product, quantity)]
  }

  /** The list `removeFromCart` produces: `items.filter(item => item.id !== id)`. */
  function RemoveSpec(items: seq<Line>, id: string): (r: seq<Line>)
    ensures |r| <= |items|
    ensures !HasId(r, id)
    ensures forall l :: l in r <==> l in items && l.product.id != id
  {
    if items == [] then []
    else if items[0].product.id == id then RemoveSpec(items[1..], id)
    else [items[0]] + RemoveSpec(items[1..], id)
  }

  /** The list `updateCartItemQuantity` produces. */
  function UpdateSpec(items: seq<Line>, id: string, quantity: int): (r: seq<Line>)
  {
    if quantity <= 0 then RemoveSpec(items, id)
    else
      seq(|items|, k requires 0 <= k < |items| =>
        if items[k].product.id == id then items[k].(quantity := quantity) else items[k])
  }

  /** `getCartItem`: the first line with the id (`cartItems.find`). */
  function Find(items: seq<Line>, id: string): (r: Option<Line>)
    ensures r.Some? <==> HasId(items, id)
    ensures r.Some? ==> r.value in items && r.value.product.id == id
    ensures r.Some? ==> r.value == items[FindIndex(items, id)]
  {
    var i := FindIndex(items, id);
    if i == -1 then None else Some(items[i])
  }

  // ---------------------------------------------------------------------------
  // Lemmas

  lemma {:induction false} SumAppend(a: seq<Line>, b: seq<Line>, f: Line -> int)
    ensures SumOf(a + b, f) == SumOf(a, f) + SumOf(b, f)
  {
    if a != [] {
      assert (a + b)[0] == a[0] && (a + b)[1..] == a[1..] + b;
      SumAppend(a[1..], b, f);
    } else {
      assert a + b == b;
    }
  }

  lemma {:induction false} SumUpdate(s: seq<Line>, i: nat, x: Line, f: Line -> int)
    requires i < |s|
    ensures SumOf(s[i := x], f) == SumOf(s, f) - f(s[i]) + f(x)
  {
    if i > 0 {
      assert s[i := x][1..] == s[1..][i - 1 := x];
      SumUpdate(s[1..], i - 1, x, f);
    } else {
      assert s[i := x][1..] == s[1..];
    }
  }

  /** Adding an id already in the cart raises that line's quantity and changes
      nothing else; adding a new id appends one line at the end. */
  lemma AddShape(items: seq<Line>, product: Product, quantity: int)
    ensures var r := AddSpec(items, product, quantity);
      if HasId(items, product.id) then
        var i := FindIndex(items, product.id);
        && |r| == |items|
        && r[i] == items[i].(quantity := items[i].quantity + quantity)
        && (forall k :: 0 <= k < |items| && k != i ==> r[k] == items[k])
      else
        r == items + [Line(product, quantity)]
  {
  }

  /** `addToCart` never creates a second line for an id. */
  lemma AddKeepsIdsUnique(items: seq<Line>, product: Product, quantity: int)
    requires UniqueIds(items)
    ensures UniqueIds(AddSpec(items, product, quantity))
    ensures HasId(AddSpec(items, product, quantity), product.id)
  {
    var r := AddSpec(items, product, quantity);
    var i := FindIndex(items, product.id);
    if i == -1 {
      assert r[|items|].product.id == product.id;
    } else {
      assert r[i].product.id == product.id;
    }
  }

  /** `addToCart` raises the unit count by the quantity added, and the total by
      that quantity at the unit price of the line it lands on. */
  lemma AddSummaries(items: seq<Line>, product: Product, quantity: int)
    ensures Count(AddSpec(items, product, quantity)) == Count(items) + quantity
    ensures var i := FindIndex(items, product.id);
      Total(AddSpec(items, product, quantity)) ==
        Total(items) + UnitPrice(if i == -1 then product else items[i].product) * quantity
  {
    var i := FindIndex(items, product.id);
    if i == -1 {
      var l := Line(product, quantity);
      SumAppend(items, [l], Quantity);
      SumAppend(items, [l], LineTotal);
    } else {
      var l := items[i].(quantity := items[i].quantity + quantity);
      SumUpdate(items, i, l, Quantity);
      SumUpdate(items, i, l, LineTotal);
      assert LineTotal(l) == LineTotal(items[i]) + UnitPrice(items[i].product) * quantity;
    }
  }

  /** Removal distributes over concatenation, so it keeps the surviving lines in order. */
  lemma {:induction false} RemoveConcat(a: seq<Line>, b: seq<Line>, id: string)
    ensures RemoveSpec(a + b, id) == RemoveSpec(a, id) + RemoveSpec(b, id)
  {
    if a != [] {
      assert (a + b)[0] == a[0] && (a + b)[1..] == a[1..] + b;
      RemoveConcat(a[1..], b, id);
    } else {
      assert a + b == b;
    }
  }

  /** Removing an id that no line carries leaves the list as it is. */
  lemma {:induction false} RemoveAbsent(items: seq<Line>, id: string)
    requires !HasId(items, id)
    ensures RemoveSpec(items, id) == items
  {
    if items != [] {
      assert items[0].product.id != id;
      forall j | 0 <= j < |items[1..]| ensures items[1..][j].product.id != id {
        assert items[1..][j] == items[j + 1];
      }
      RemoveAbsent(items[1..], id);
    }
  }

  /** In a cart with unique ids, removing a line lowers the unit count by that
      line's quantity. */
  lemma RemoveCount(items: seq<Line>, id: string)
    requires UniqueIds(items) && HasId(items, id)
    ensures Count(RemoveSpec(items, id)) == Count(items) - items[FindIndex(items, id)].quantity
  {
    var i := FindIndex(items, id);
    var pre, rest := items[..i], items[i + 1..];
    assert items == (pre + [items[i]]) + rest;
    assert !HasId(pre, id) by {
      forall j | 0 <= j < |pre| ensures pre[j].product.id != id {
        assert pre[j] == items[j];
      }
    }
    assert !HasId(rest, id) by {
      forall j | 0 <= j < |rest| ensures rest[j].product.id != id {
        assert rest[j] == items[i + 1 + j];
      }
    }
    RemoveMiddle(pre, items[i], rest, id);
  }

  /** Removing the one line with the id out of the middle of a cart. */
  lemma RemoveMiddle(pre: seq<Line>, x: Line, rest: seq<Line>, id: string)
    requires x.product.id == id && !HasId(pre, id) && !HasId(rest, id)
    ensures RemoveSpec((pre + [x]) + rest, id) == pre + rest
    ensures Count((pre + [x]) + rest) == Count(pre + rest) + x.quantity
  {
    RemoveAbsent(pre, id);
    RemoveAbsent(rest, id);
    assert RemoveSpec([x], id) == [];
    RemoveConcat(pre, [x], id);
    assert RemoveSpec(pre + [x], id) == pre;
    RemoveConcat(pre + [x], rest, id);
    CountMiddle(pre, x, rest);
  }

  lemma CountMiddle(pre: seq<Line>, x: Line, rest: seq<Line>)
    ensures Count((pre + [x]) + rest) == Count(pre + rest) + x.quantity
  {
    SumAppend(pre, [x], Quantity);
    assert SumOf([x], Quantity) == x.quantity;
    SumAppend(pre + [x], rest, Quantity);
    SumAppend(pre, rest, Quantity);
  }

  /** A quantity of zero or less removes the lines like `removeFromCart`; a
      positive one sets the quantity of the matching lines only. */
  lemma UpdateShape(items: seq<Line>, id: string, quantity: int)
    ensures quantity <= 0 ==> UpdateSpec(items, id, quantity) == RemoveSpec(items, id)
    ensures quantity > 0 ==>
      var r := UpdateSpec(items, id, quantity);
      && |r| == |items|
      && (forall k :: 0 <= k < |items| && items[k].product.id == id ==> r[k] == items[k].(quantity := quantity))
      && (forall k :: 0 <= k < |items| && items[k].product.id != id ==> r[k] == items[k])
      && (HasId(r, id) <==> HasId(items, id))
  {
    if quantity > 0 {
      var r := UpdateSpec(items, id, quantity);
      if HasId(r, id) {
        var k :| 0 <= k < |r| && r[k].product.id == id;
        assert items[k].product.id == id;
      }
      if HasId(items, id) {
        var k :| 0 <= k < |items| && items[k].product.id == id;
        assert r[k].product.id == id;
      }
    }
  }

  /** After `removeFromCart(id)`, `getCartItem(id)` finds nothing. */
  lemma FindAfterRemove(items: seq<Line>, id: string)
    ensures Find(RemoveSpec(items, id), id) == None
  {
  }

  // ---------------------------------------------------------------------------
  // The provider

  /** The provider's state: the lines and the two summaries the effect keeps in
      step with them. */
  class CartStore {
    var items: seq<Line>
    var count: int
    var total: int

    ghost predicate Valid()
      reads this
    {
      count == Count(items) && total == Total(items)
    }

    constructor ()
      ensures Valid() && items == []
    {
      items := [];
      count := 0;
      total := 0;
    }

    /** The effect that runs whenever the lines change. */
    method Summarise()
      modifies this
      ensures items == old(items) && Valid()
    {
      count := Count(items);
      total := Total(items);
    }

    method AddToCart(product: Product, quantity: int)
      modifies this
      ensures items == AddSpec(old(items), product, quantity)
      ensures Valid()
    {
      var i := FindIndex(items, product.id);
      if i != -1 {
        var updated := items;
        updated := updated[i := updated[i].(quantity := updated[i].quantity + quantity)];
        items := updated;
      } else {
        items := items + [Line(product, quantity)];
      }
      Summarise();
    }

    /** `addToCart(product)`: the quantity defaults to 1. */
    method AddOneToCart(product: Product)
      modifies this
      ensures items == AddSpec(old(items), product, 1)
      ensures Valid()
    {
      AddToCart(product, 1);
    }

    method RemoveFromCart(id: string)
      modifies this
      ensures items == RemoveSpec(old(items), id)
      ensures Valid() && !IsInCart(id)
    {
      items := RemoveSpec(items, id);
      Summarise();
    }

    method UpdateCartItemQuantity(id: string, quantity: int)
      modifies this
      ensures items == UpdateSpec(old(items), id, quantity)
      ensures Valid()
    {
      if quantity <= 0 {
        RemoveFromCart(id);
        return;
      }
      items := UpdateSpec(items, id, quantity);
      Summarise();
    }

    method ClearCart()
      modifies this
      ensures items == [] && count == 0 && total == 0
    {
      items := [];
      Summarise();
    }

    function IsInCart(id: string): (b: bool)
      reads this
      ensures b <==> GetCartItem(id).Some?
    {
      HasId(items, id)
    }

    function GetCartItem(id: string): (r: Option<Line>)
      reads this
      ensures r.Some? ==> r.value in items && r.value.product.id == id
    {
      Find(items, id)
    }
  }
}
