/** The inventory snapshot: the client-side mirror of the `products` collection
    that every page refreshes from its realtime subscription, and the multi-path
    stock update that settlement writes back. */
module Inventory {
  import opened Common

  /** A product record as the store delivers it. Prices are integer minor
      currency units; `None` stands for a value that does not parse as a number.
      Stock may sit in the canonical `quantity` field or in the legacy `qty` field. */
  datatype Product = Product(
    name: string,
    category: string,
    description: string,
    price: Option<int>,
    quantity: Option<int>,
    qty: Option<int>)

  /** Products by store-assigned id, as last delivered by the subscription. */
  type Snapshot = map<string, Product>

  /** Stock on hand: `quantity`, else `qty`, else 0. */
  function Available(p: Product): (a: int)
    ensures p.quantity.Some? ==> a == p.quantity.value
    ensures p.quantity.None? && p.qty.Some? ==> a == p.qty.value
    ensures p.quantity.None? && p.qty.None? ==> a == 0
  {
    match p.quantity
    case Some(q) => q
    case None => match p.qty { case Some(q) => q case None => 0 }
  }

  /** `parseFloat(product.price) || 0`. */
  function UnitPrice(p: Product): (price: int)
    ensures p.price.Some? ==> price == p.price.value
    ensures p.price.None? ==> price == 0
  {
    match p.price
    case Some(v) => v
    case None => 0
  }

  /** `product.name || 'Unnamed Product'`. */
  function DisplayName(p: Product): (n: string)
    ensures n != []
    ensures p.name != [] ==> n == p.name
    ensures p.name == [] ==> n == "Unnamed Product"
  {
    if p.name == [] then "Unnamed Product" else p.name
  }

  /** The quantity a ledger line can actually use: `Math.min(requested, available)`. */
  function Effective(requested: int, p: Product): (q: int)
    ensures q <= requested && q <= Available(p)
    ensures q == requested || q == Available(p)
  {
    Min(requested, Available(p))
  }

  /** Writing `products/<id>/quantity`: the canonical field now decides the stock,
      whatever the legacy field held. */
  function WithQuantity(p: Product, v: int): (p': Product)
    ensures Available(p') == v
    ensures p'.name == p.name && p'.price == p.price
  {
    p.(quantity := Some(v))
  }

  /** The snapshot the store delivers after an atomic multi-path update that sets
      `products/<id>/quantity` to `updates[id]` for every id of `updates`. */
  function ApplyQuantityWrites(s: Snapshot, updates: map<string, int>): (s': Snapshot)
    requires updates.Keys <= s.Keys
    ensures s'.Keys == s.Keys
    ensures forall id :: id in updates ==> Available(s'[id]) == updates[id]
    ensures forall id :: id in updates ==> s'[id] == s[id].(quantity := Some(updates[id]))
    ensures forall id :: id in s && id !in updates ==> s'[id] == s[id]
  {
    map id | id in s :: if id in updates then WithQuantity(s[id], updates[id]) else s[id]
  }

  /** The test "this id names a product of the snapshot". */
  function Known(products: Snapshot): string -> bool
  {
    id => id in products
  }

  /** What one ledger line (a POS bag line or a cart line) is shown to cost:
      price times min(requested, available), nothing for a product that is gone. */
  function LineAmount(products: Snapshot, ledger: map<string, int>, id: string): int
  {
    if id in products then UnitPrice(products[id]) * Effective(QtyOf(ledger, id), products[id]) else 0
  }

  /** The total shown under a ledger, accumulated over its keys in order. */
  function LedgerTotal(products: Snapshot, ids: seq<string>, ledger: map<string, int>): int
    decreases |ids|
  {
    if ids == [] then 0
    else LedgerTotal(products, ids[..|ids| - 1], ledger) + LineAmount(products, ledger, ids[|ids| - 1])
  }

  /** With prices, stock and requested quantities all non-negative, the shown total is too. */
  lemma {:induction false} LedgerTotalNonNegative(products: Snapshot, ids: seq<string>, ledger: map<string, int>)
    requires forall id :: id in products ==> UnitPrice(products[id]) >= 0 && Available(products[id]) >= 0
    requires forall id :: id in ledger ==> ledger[id] >= 0
    ensures LedgerTotal(products, ids, ledger) >= 0
    decreases |ids|
  {
    if ids != [] {
      LedgerTotalNonNegative(products, ids[..|ids| - 1], ledger);
      var id := ids[|ids| - 1];
      if id in products {
        var q := Effective(QtyOf(ledger, id), products[id]);
        assert q >= 0;
        assert UnitPrice(products[id]) * q >= 0;
      }
    }
  }
}
