/** The wishlist of `client/src/context/WishlistContext.jsx`: the exported
    `wishlistReducer` over an immutable `{ items, totalItems }` record, and the
    `WishlistProvider` whose `wishlistItems` list the provider operations replace. */
module Wishlist {

  /** The product fields the wishlist reads. */
  datatype Item = Item(id: string, name: string)

  datatype State = State(items: seq<Item>, totalItems: int)

  /** The reducer's actions; `Other` is any action type it does not know. */
  datatype Action =
    | AddItem(payload: Item)
    | RemoveItem(productId: string)
    | ClearWishlist
    | Other(kind: string)

  const InitialState := State([], 0)

  /** `items.some(item => item.id === id)`. */
  predicate HasId(items: seq<Item>, id: string)
  {
    exists i :: 0 <= i < |items| && items[i].id == id
  }

  ghost predicate UniqueIds(items: seq<Item>)
  {
    forall i, j :: 0 <= i < j < |items| ==> items[i].id != items[j].id
  }

  /** The count field agrees with the list. */
  ghost predicate Consistent(s: State)
  {
    s.totalItems == |s.items|
  }

  /** `items.filter(item => item.id !== id)`. */
  function Without(items: seq<Item>, id: string): (r: seq<Item>)
    ensures |r| <= |items|
    ensures !HasId(r, id)
    ensures forall x :: x in r <==> x in items && x.id != id
  {
    if items == [] then []
    else if items[0].id == id then Without(items[1..], id)
    else [items[0]] + Without(items[1..], id)
  }

  /** `wishlistReducer`. */
  function Reduce(s: State, a: Action): (r: State)
  {
    match a
    case AddItem(p) =>
      if HasId(s.items, p.id) then s else s.(items := s.items + [p], totalItems := s.totalItems + 1)
    case RemoveItem(id) =>
      var filtered := Without(s.items, id);
      s.(items := filtered, totalItems := |filtered|)
    case ClearWishlist => InitialState
    case Other(_) => s
  }

  /** The list the provider's `addToWishlist` updater returns. */
  function AddSpec(items: seq<Item>, p: Item): (r: seq<Item>)
  {
    if HasId(items, p.id) then items else items + [p]
  }

  // ---------------------------------------------------------------------------
  // Lemmas

  /** Each action does what its case promises: a duplicate add changes nothing,
      a new item is appended with the count raised by one, a removal drops every
      item with the id and recounts, a clear or an unknown action returns the
      initial or the same state. */
  lemma ReduceCases(s: State, a: Action)
    ensures a.AddItem? && HasId(s.items, a.payload.id) ==> Reduce(s, a) == s
    ensures a.AddItem? && !HasId(s.items, a.payload.id) ==>
      Reduce(s, a).items == s.items + [a.payload] && Reduce(s, a).totalItems == s.totalItems + 1
    ensures a.RemoveItem? ==>
      && !HasId(Reduce(s, a).items, a.productId)
      && (forall x :: x in Reduce(s, a).items <==> x in s.items && x.id != a.productId)
      && Reduce(s, a).totalItems == |Reduce(s, a).items|
    ensures a.ClearWishlist? ==> Reduce(s, a) == State([], 0)
    ensures a.Other? ==> Reduce(s, a) == s
  {
  }

  /** Every action keeps the count equal to the list length and the ids unique. */
  lemma ReducePreserves(s: State, a: Action)
    requires Consistent(s) && UniqueIds(s.items)
    ensures Consistent(Reduce(s, a)) && UniqueIds(Reduce(s, a).items)
  {
    if a.RemoveItem? {
      WithoutUnique(s.items, a.productId);
    }
  }

  lemma {:induction false} WithoutUnique(items: seq<Item>, id: string)
    requires UniqueIds(items)
    ensures UniqueIds(Without(items, id))
  {
    if items != [] {
      WithoutUnique(items[1..], id);
      if items[0].id != id {
        var r := Without(items, id);
        forall j | 1 <= j < |r| ensures r[0].id != r[j].id {
          assert r[j] in Without(items[1..], id);
          assert r[j] in items[1..];
        }
      }
    }
  }

  /** Adding the same item twice is the same as adding it once. */
  lemma AddTwice(s: State, p: Item)
    ensures Reduce(Reduce(s, AddItem(p)), AddItem(p)) == Reduce(s, AddItem(p))
  {
    if !HasId(s.items, p.id) {
      assert (s.items + [p])[|s.items|] == p;
    }
  }

  /** The provider's list evolves like the reducer's `items`, and
      `wishlistCount` (the list length) like its `totalItems`. */
  lemma ProviderAgreesWithReducer(items: seq<Item>, p: Item, id: string)
    ensures Reduce(State(items, |items|), AddItem(p)) == State(AddSpec(items, p), |AddSpec(items, p)|)
    ensures Reduce(State(items, |items|), RemoveItem(id)) == State(Without(items, id), |Without(items, id)|)
    ensures Reduce(State(items, |items|), ClearWishlist) == State([], 0)
  {
  }

  /** After adding an item its id is in the list, after removing an id it is not. */
  lemma MembershipAfter(items: seq<Item>, p: Item, id: string)
    ensures HasId(AddSpec(items, p), p.id)
    ensures !HasId(Without(items, id), id)
    ensures UniqueIds(items) ==> UniqueIds(AddSpec(items, p))
  {
    if !HasId(items, p.id) {
      assert (items + [p])[|items|] == p;
    }
  }

  // ---------------------------------------------------------------------------
  // The provider

  class WishlistStore {
    var wishlistItems: seq<Item>

    constructor ()
      ensures wishlistItems == []
    {
      wishlistItems := [];
    }

    method AddToWishlist(p: Item)
      modifies this
      ensures wishlistItems == AddSpec(old(wishlistItems), p)
      ensures IsInWishlist(p.id)
    {
      if HasId(wishlistItems, p.id) {
        return;
      }
      wishlistItems := wishlistItems + [p];
      assert wishlistItems[|wishlistItems| - 1] == p;
    }

    method RemoveFromWishlist(id: string)
      modifies this
      ensures wishlistItems == Without(old(wishlistItems), id)
      ensures !IsInWishlist(id)
    {
      wishlistItems := Without(wishlistItems, id);
    }

    method ClearWishlist()
      modifies this
      ensures wishlistItems == [] && WishlistCount() == 0
    {
      wishlistItems := [];
    }

    predicate IsInWishlist(id: string)
      reads this
    {
      HasId(wishlistItems, id)
    }

    /** `wishlistCount`. */
    function WishlistCount(): nat
      reads this
    {
      |wishlistItems|
    }
  }
}
