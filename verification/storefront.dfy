/** The customer storefront (shop.js): product search, the cart and wishlist
    handlers and the cart view. The cart and the wishlist are mirrors of the
    signed-in user's `cart/<uid>` and `wishlist/<uid>` records; a handler never
    edits the mirror, it issues one write and the mirror follows once the store
    echoes it. Handlers are therefore modelled as functions from the current
    mirror to the write they issue (or to the refusal they show). */
module Storefront {
  import opened Common
  import opened Inventory

  // ---------------------------------------------------------------------------
  // Search

  /** ASCII `toLowerCase`. */
  function LowerChar(c: char): char
  {
    if 'A' <= c <= 'Z' then (c as int - 'A' as int + 'a' as int) as char else c
  }

  function Lower(s: string): (r: string)
    ensures |r| == |s|
    ensures forall i :: 0 <= i < |s| ==> r[i] == LowerChar(s[i])
  {
    if s == [] then [] else [LowerChar(s[0])] + Lower(s[1..])
  }

  /** Lower-casing twice changes nothing more. */
  lemma LowerIdempotent(s: string)
    ensures Lower(Lower(s)) == Lower(s)
  {
  }

  /** `s.includes(t)`, scanning start positions left to right. */
  predicate Includes(s: string, t: string)
    decreases |s|
  {
    t <= s || (s != [] && Includes(s[1..], t))
  }

  /** An occurrence at any position is found by the scan. */
  lemma {:induction false} IncludesAt(s: string, t: string, i: nat)
    requires i <= |s| && t <= s[i..]
    ensures Includes(s, t)
    decreases i
  {
    if i > 0 {
      assert s[1..][i - 1..] == s[i..];
      IncludesAt(s[1..], t, i - 1);
    } else {
      assert s[i..] == s;
    }
  }

  /** The scan only succeeds on a real occurrence. */
  lemma {:induction false} IncludesWitness(s: string, t: string) returns (i: nat)
    requires Includes(s, t)
    ensures i <= |s| && t <= s[i..]
    decreases |s|
  {
    if t <= s {
      assert s[0..] == s;
      return 0;
    }
    var j := IncludesWitness(s[1..], t);
    assert s[1..][j..] == s[j + 1..];
    return j + 1;
  }

  /** Includes agrees with the textbook definition: `t` occurs at some position of `s`. */
  lemma IncludesIff(s: string, t: string)
    ensures Includes(s, t) <==> exists i :: 0 <= i <= |s| && t <= s[i..]
  {
    if Includes(s, t) {
      var i := IncludesWitness(s, t);
    }
    if exists i :: 0 <= i <= |s| && t <= s[i..] {
      var i :| 0 <= i <= |s| && t <= s[i..];
      IncludesAt(s, t, i);
    }
  }

  /** The search box's test, with `term` already lower-cased: name, description,
      or a non-empty category contains it. */
  predicate MatchesTerm(p: Product, term: string)
  {
    || Includes(Lower(p.name), term)
    || Includes(Lower(p.description), term)
    || (p.category != [] && Includes(Lower(p.category), term))
  }

  /** The products the search box shows for what the customer typed. */
  function Search(products: seq<Product>, typed: string): (r: seq<Product>)
    ensures IsSubsequence(r, products)
    ensures forall p :: p in r <==> p in products && MatchesTerm(p, Lower(typed))
    ensures forall p :: multiset(r)[p] == if MatchesTerm(p, Lower(typed)) then multiset(products)[p] else 0
  {
    var term := Lower(typed);
    Filter(products, p => MatchesTerm(p, term))
  }

  /** An empty search box shows every product, in order. */
  lemma SearchEmptyShowsAll(products: seq<Product>)
    ensures Search(products, "") == products
  {
    forall p | p in products ensures MatchesTerm(p, Lower("")) {
      assert [] <= Lower(p.name);
    }
    FilterKeepsAll(products, p => MatchesTerm(p, Lower("")));
  }

  /** Search ignores the case of what was typed. */
  lemma SearchIgnoresCase(products: seq<Product>, typed: string)
    ensures Search(products, Lower(typed)) == Search(products, typed)
  {
    LowerIdempotent(typed);
  }

  // ---------------------------------------------------------------------------
  // Cart writes

  /** The single write a cart handler issues to `cart/<uid>/<id>`. */
  datatype CartWrite = SetLine(id: string, qty: int) | RemoveLine(id: string)

  /** The cart mirror once the store has echoed a write. */
  function ApplyCartWrite(cart: map<string, int>, w: CartWrite): (c: map<string, int>)
    ensures w.SetLine? ==> w.id in c && c[w.id] == w.qty
    ensures w.RemoveLine? ==> w.id !in c
    ensures forall k :: k != w.id ==> (k in c <==> k in cart) && (k in c ==> c[k] == cart[k])
  {
    match w
    case SetLine(id, q) => cart[id := q]
    case RemoveLine(id) => cart - {id}
  }

  /** updateCartCount: the badge shows the sum of the cart's quantities. */
  function CartCount(keys: seq<string>, cart: map<string, int>): (n: int)
    ensures KeyOrder(keys, cart) ==> n == MapSum(cart)
  {
    assert KeyOrder(keys, cart) ==> ValueSum(keys, cart) == MapSum(cart) by {
      if KeyOrder(keys, cart) { ValueSumIsMapSum(keys, cart); }
    }
    ValueSum(keys, cart)
  }

  /** The badge after a write, whatever key order the store delivers, moves by the
      difference the write makes to that one line. */
  lemma CartCountAfterWrite(keys: seq<string>, cart: map<string, int>, w: CartWrite, keys': seq<string>)
    requires KeyOrder(keys, cart) && KeyOrder(keys', ApplyCartWrite(cart, w))
    ensures CartCount(keys', ApplyCartWrite(cart, w)) ==
      CartCount(keys, cart) - QtyOf(cart, w.id) + (if w.SetLine? then w.qty else 0)
  {
    ValueSumIsMapSum(keys, cart);
    ValueSumIsMapSum(keys', ApplyCartWrite(cart, w));
    match w
    case SetLine(id, q) => MapSumUpdate(cart, id, q);
    case RemoveLine(id) => MapSumDelete(cart, id);
  }

  // ---------------------------------------------------------------------------
  // addToCart

  datatype AddReply =
    | ProductNotFound
    | OutOfStock
    | StockLimitReached
    | AddWrite(write: CartWrite)

  /** addToCart: refuse an unknown product, a product without stock and a line that
      already holds all the stock; otherwise raise the line by one. */
  function AddToCart(products: Snapshot, cart: map<string, int>, id: string): (r: AddReply)
    ensures r == ProductNotFound <==> id !in products
    ensures r == OutOfStock <==> id in products && Available(products[id]) <= 0
    ensures r == StockLimitReached <==>
      id in products && 0 < Available(products[id]) <= QtyOf(cart, id)
    ensures r.AddWrite? ==>
      && id in products
      && r.write == SetLine(id, QtyOf(cart, id) + 1)
      && r.write.qty <= Available(products[id])
  {
    if id !in products then ProductNotFound
    else
      var available := Available(products[id]);
      if available <= 0 then OutOfStock
      else
        var current := QtyOf(cart, id);
        if current >= available then StockLimitReached
        else AddWrite(SetLine(id, current + 1))
  }

  /** A line within stock stays within stock, and an accepted add raises the badge by one. */
  lemma AddToCartKeepsWithinStock(products: Snapshot, cart: map<string, int>, id: string,
                                  keys: seq<string>, keys': seq<string>)
    requires KeyOrder(keys, cart)
    requires AddToCart(products, cart, id).AddWrite?
    requires KeyOrder(keys', ApplyCartWrite(cart, AddToCart(products, cart, id).write))
    ensures var c := ApplyCartWrite(cart, AddToCart(products, cart, id).write);
      && c[id] <= Available(products[id])
      && CartCount(keys', c) == CartCount(keys, cart) + 1
  {
    CartCountAfterWrite(keys, cart, AddToCart(products, cart, id).write, keys');
  }

  // ---------------------------------------------------------------------------
  // updateCartQty and removeFromCart

  datatype QtyReply =
    | NoSuchProduct
    | QtyWrite(write: CartWrite)
    | OverStock(available: int)

  /** updateCartQty: the line moves by `change`; at zero or below it is removed,
      above the stock the change is refused and the line is left as it is. */
  function UpdateCartQty(products: Snapshot, cart: map<string, int>, id: string, change: int): (r: QtyReply)
    ensures r == NoSuchProduct <==> id !in products
    ensures r.OverStock? <==>
      id in products && 0 < QtyOf(cart, id) + change && QtyOf(cart, id) + change > Available(products[id])
    ensures r.OverStock? ==> r.available == Available(products[id])
    ensures r.QtyWrite? ==> r.write.id == id
    ensures r == QtyWrite(RemoveLine(id)) <==> id in products && QtyOf(cart, id) + change <= 0
    ensures id in products && 0 < QtyOf(cart, id) + change <= Available(products[id]) ==>
      r == QtyWrite(SetLine(id, QtyOf(cart, id) + change))
  {
    if id !in products then NoSuchProduct
    else
      var next := QtyOf(cart, id) + change;
      var available := Available(products[id]);
      if next <= 0 then QtyWrite(RemoveFromCart(id))
      else if next > available then OverStock(available)
      else QtyWrite(SetLine(id, next))
  }

  /** Every line updateCartQty writes is positive and within stock, and a written
      line moves the badge by exactly the change. */
  lemma UpdateCartQtyWritesWithinStock(products: Snapshot, cart: map<string, int>, id: string, change: int,
                                       keys: seq<string>, keys': seq<string>)
    requires KeyOrder(keys, cart)
    requires UpdateCartQty(products, cart, id, change).QtyWrite?
    requires UpdateCartQty(products, cart, id, change).write.SetLine?
    requires KeyOrder(keys', ApplyCartWrite(cart, UpdateCartQty(products, cart, id, change).write))
    ensures var w := UpdateCartQty(products, cart, id, change).write;
      && 0 < w.qty <= Available(products[id])
      && CartCount(keys', ApplyCartWrite(cart, w)) == CartCount(keys, cart) + change
  {
    CartCountAfterWrite(keys, cart, UpdateCartQty(products, cart, id, change).write, keys');
  }

  /** removeFromCart: delete the line, whether or not it exists. */
  function RemoveFromCart(id: string): (w: CartWrite)
    ensures w.RemoveLine? && w.id == id
  {
    RemoveLine(id)
  }

  /** Removing a line takes exactly its quantity off the badge. */
  lemma RemoveFromCartCount(keys: seq<string>, cart: map<string, int>, id: string, keys': seq<string>)
    requires KeyOrder(keys, cart) && KeyOrder(keys', ApplyCartWrite(cart, RemoveFromCart(id)))
    ensures id !in ApplyCartWrite(cart, RemoveFromCart(id))
    ensures CartCount(keys', ApplyCartWrite(cart, RemoveFromCart(id))) == CartCount(keys, cart) - QtyOf(cart, id)
  {
    CartCountAfterWrite(keys, cart, RemoveFromCart(id), keys');
  }

  // ---------------------------------------------------------------------------
  // Wishlist

  /** Whether a product shows as wished for: its entry exists and is truthy. */
  predicate Wished(wishlist: map<string, bool>, id: string)
  {
    id in wishlist && wishlist[id]
  }

  /** The wishlist mirror after toggleWishlist's write has been echoed: a wished-for
      entry is removed, anything else is set to `true`. */
  function ToggleWishlist(wishlist: map<string, bool>, id: string): (w: map<string, bool>)
    ensures Wished(w, id) <==> !Wished(wishlist, id)
    ensures Wished(wishlist, id) ==> id !in w
    ensures forall k :: k != id ==> (k in w <==> k in wishlist) && (k in w ==> w[k] == wishlist[k])
  {
    if Wished(wishlist, id) then wishlist - {id} else wishlist[id := true]
  }

  /** Toggling twice restores whether the product is wished for; on a wishlist the
      shop wrote itself (every entry `true`) it restores the whole wishlist. */
  lemma ToggleTwiceRestores(wishlist: map<string, bool>, id: string)
    ensures Wished(ToggleWishlist(ToggleWishlist(wishlist, id), id), id) == Wished(wishlist, id)
    ensures (forall k :: k in wishlist ==> wishlist[k]) ==>
      ToggleWishlist(ToggleWishlist(wishlist, id), id) == wishlist
  {
  }

  /** updateWishlistCount: the number of keys, which a toggle moves by one up or down
      (or not at all for an entry stored as `false`). */
  function WishlistCount(wishlist: map<string, bool>): (n: nat)
    ensures n == 0 <==> wishlist == map[]
  {
    assert wishlist != map[] ==> exists k :: k in wishlist.Keys;
    |wishlist.Keys|
  }

  lemma ToggleWishlistCount(wishlist: map<string, bool>, id: string)
    ensures WishlistCount(ToggleWishlist(wishlist, id)) ==
      WishlistCount(wishlist) + (if id !in wishlist then 1 else if wishlist[id] then -1 else 0)
  {
    var w := ToggleWishlist(wishlist, id);
    if Wished(wishlist, id) {
      assert w.Keys == wishlist.Keys - {id};
    } else if id in wishlist {
      assert w.Keys == wishlist.Keys;
    } else {
      assert w.Keys == wishlist.Keys + {id};
    }
  }

  // ---------------------------------------------------------------------------
  // displayCart

  /** One rendered cart row. */
  datatype CartRow = CartRow(
    id: string,
    name: string,
    price: int,
    available: int,
    shownQty: int,
    lineTotal: int,
    plusDisabled: bool,
    warning: bool)

  datatype CartView = CartView(rows: seq<CartRow>, total: int)

  /** The row displayCart renders for a cart line whose product is known. */
  function RowOf(p: Product, id: string, cartQty: int): (row: CartRow)
    ensures row.id == id && row.name == DisplayName(p) && row.available == Available(p)
    ensures row.shownQty == Effective(cartQty, p)
    ensures row.lineTotal == UnitPrice(p) * row.shownQty
    ensures row.plusDisabled <==> cartQty >= Available(p)
    ensures row.warning <==> cartQty > Available(p)
  {
    var available := Available(p);
    var shown := Min(cartQty, available);
    CartRow(id, DisplayName(p), UnitPrice(p), available, shown, UnitPrice(p) * shown,
            shown >= available, cartQty > available)
  }

  /** The rows of the cart in key order; lines whose product is gone are skipped. */
  function CartRows(products: Snapshot, ids: seq<string>, cart: map<string, int>): seq<CartRow>
    decreases |ids|
  {
    if ids == [] then []
    else
      var id := ids[|ids| - 1];
      CartRows(products, ids[..|ids| - 1], cart)
        + (if id in products then [RowOf(products[id], id, QtyOf(cart, id))] else [])
  }

  /** The ids of the rendered rows, in order. */
  function RowIds(rows: seq<CartRow>): (r: seq<string>)
    ensures |r| == |rows|
    decreases |rows|
  {
    if rows == [] then [] else RowIds(rows[..|rows| - 1]) + [rows[|rows| - 1].id]
  }

  /** There is a row for exactly the cart lines whose product exists, in key order. */
  lemma {:induction false} CartRowsCover(products: Snapshot, ids: seq<string>, cart: map<string, int>)
    ensures |CartRows(products, ids, cart)| <= |ids|
    ensures forall k :: 0 <= k < |CartRows(products, ids, cart)| ==>
      var row := CartRows(products, ids, cart)[k];
      row.id in ids && row.id in products && row == RowOf(products[row.id], row.id, QtyOf(cart, row.id))
    ensures forall id :: id in ids && id in products <==>
      exists k :: 0 <= k < |CartRows(products, ids, cart)| && CartRows(products, ids, cart)[k].id == id
    decreases |ids|
  {
    if ids != [] {
      var init := ids[..|ids| - 1];
      var id := ids[|ids| - 1];
      CartRowsCover(products, init, cart);
      assert forall x :: x in ids <==> x in init || x == id by {
        assert ids == init + [id];
      }
      var rows := CartRows(products, init, cart);
      var all := CartRows(products, ids, cart);
      assert all[..|rows|] == rows;
      if id in products {
        assert all[|rows|].id == id;
      }
    }
  }

  /** The rows' ids are the cart's keys that name a known product, in key order
      and once each. */
  lemma {:induction false} CartRowIds(products: Snapshot, ids: seq<string>, cart: map<string, int>)
    ensures RowIds(CartRows(products, ids, cart)) == Filter(ids, Known(products))
    decreases |ids|
  {
    if ids != [] {
      var init := ids[..|ids| - 1];
      var id := ids[|ids| - 1];
      var keep := Known(products);
      CartRowIds(products, init, cart);
      FilterDropLast(ids, keep);
      var rows := CartRows(products, init, cart);
      var all := CartRows(products, ids, cart);
      if id in products {
        var row := RowOf(products[id], id, QtyOf(cart, id));
        assert keep(id);
        assert all == rows + [row];
        RowIdsSnoc(rows, row);
      } else {
        assert !keep(id);
        assert all == rows;
      }
    }
  }

  lemma RowIdsSnoc(rows: seq<CartRow>, row: CartRow)
    ensures RowIds(rows + [row]) == RowIds(rows) + [row.id]
  {
    assert (rows + [row])[..|rows|] == rows;
  }

  /** With an empty cart there are no rows and the total is zero. */
  lemma EmptyCartView(products: Snapshot, ids: seq<string>, cart: map<string, int>)
    requires KeyOrder(ids, cart) && cart == map[]
    ensures CartRows(products, ids, cart) == [] && LedgerTotal(products, ids, cart) == 0
  {
    KeyOrderEmpty(ids, cart);
  }

  /** displayCart: walk the cart in key order, render a row for every line whose
      product is known and add its line total. */
  method DisplayCart(products: Snapshot, ids: seq<string>, cart: map<string, int>) returns (view: CartView)
    requires KeyOrder(ids, cart)
    ensures view.rows == CartRows(products, ids, cart)
    ensures view.total == LedgerTotal(products, ids, cart)
    ensures cart == map[] ==> view == CartView([], 0)
  {
    KeyOrderEmpty(ids, cart);
    if |ids| == 0 {
      return CartView([], 0);
    }
    var rows: seq<CartRow> := [];
    var total := 0;
    for i := 0 to |ids|
      invariant rows == CartRows(products, ids[..i], cart)
      invariant total == LedgerTotal(products, ids[..i], cart)
    {
      var id := ids[i];
      assert ids[..i + 1][..i] == ids[..i];
      if id in products {
        var p := products[id];
        var cartQty := QtyOf(cart, id);
        var available := Available(p);
        var qty := Min(cartQty, available);
        var price := UnitPrice(p);
        var itemTotal := price * qty;
        total := total + itemTotal;
        rows := rows + [CartRow(id, DisplayName(p), price, available, qty, itemTotal,
                                qty >= available, cartQty > available)];
      }
    }
    assert ids[..|ids|] == ids;
    view := CartView(rows, total);
  }
}
