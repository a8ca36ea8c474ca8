/** The point-of-sale bag of the admin dashboard (admin.js): a dictionary from
    product id to requested quantity that the operator edits in place, the totals
    shown under it, and the sale that settles it against the inventory snapshot. */
module PointOfSale {
  import opened Common
  import opened Inventory

  // ---------------------------------------------------------------------------
  // Totals shown under the bag (renderPosBag)

  /** The discount field after parsing: negative or unparsable input counts as 0. */
  function DiscountInput(field: Option<int>): (d: int)
    ensures d >= 0
    ensures field.None? || field.value < 0 ==> d == 0
    ensures field.Some? && field.value >= 0 ==> d == field.value
  {
    match field
    case Some(v) => if v < 0 then 0 else v
    case None => 0
  }

  datatype Totals = Totals(subtotal: int, discount: int, total: int, sellEnabled: bool)

  /** renderPosBag's arithmetic: an empty bag shows zeros with selling disabled;
      otherwise the discount is capped at the subtotal, the total is never negative,
      and selling is enabled exactly when the total is positive. */
  method RenderTotals(products: Snapshot, order: seq<string>, bag: map<string, int>, field: Option<int>)
    returns (t: Totals)
    ensures order == [] ==> t == Totals(0, 0, 0, false)
    ensures t.subtotal == LedgerTotal(products, order, bag)
    ensures t.discount == Min(DiscountInput(field), t.subtotal)
    ensures t.total == Max(0, t.subtotal - t.discount) && t.total >= 0
    ensures t.sellEnabled <==> t.total > 0
  {
    var posDiscount := DiscountInput(field);
    if |order| == 0 {
      return Totals(0, 0, 0, false);
    }
    var subtotal := 0;
    for i := 0 to |order|
      invariant subtotal == LedgerTotal(products, order[..i], bag)
    {
      var id := order[i];
      if id in products {
        var p := products[id];
        var qty := Min(QtyOf(bag, id), Available(p));
        subtotal := subtotal + UnitPrice(p) * qty;
      }
      assert order[..i + 1][..i] == order[..i];
    }
    assert order[..|order|] == order;
    var discount := Min(posDiscount, subtotal);
    var total := Max(0, subtotal - discount);
    t := Totals(subtotal, discount, total, !(total <= 0));
  }

  // ---------------------------------------------------------------------------
  // The sale (sellBag)

  datatype SaleItem = SaleItem(id: string, name: string, qty: int, price: int)

  /** What the sale loop builds: one stock write per sellable line, the sold
      items in bag order, and their subtotal. */
  datatype SalePlan = SalePlan(updates: map<string, int>, items: seq<SaleItem>, subtotal: int)

  /** The quantity the sale takes from a line: min(requested, available), 0 if the product is gone. */
  function SellQty(products: Snapshot, bag: map<string, int>, id: string): int
  {
    if id in products then Effective(QtyOf(bag, id), products[id]) else 0
  }

  predicate Sellable(products: Snapshot, bag: map<string, int>, id: string)
  {
    id in products && SellQty(products, bag, id) > 0
  }

  function ItemsSubtotal(items: seq<SaleItem>): int
    decreases |items|
  {
    if items == [] then 0
    else ItemsSubtotal(items[..|items| - 1]) + items[|items| - 1].price * items[|items| - 1].qty
  }

  /** The sale loop over the bag's keys in order: every sellable line adds a
      stock write, an item and its amount. */
  function SalePlanOf(products: Snapshot, ids: seq<string>, bag: map<string, int>): SalePlan
    decreases |ids|
  {
    if ids == [] then SalePlan(map[], [], 0)
    else
      var acc := SalePlanOf(products, ids[..|ids| - 1], bag);
      var id := ids[|ids| - 1];
      if !Sellable(products, bag, id) then acc
      else
        var p := products[id];
        var q := SellQty(products, bag, id);
        SalePlan(acc.updates[id := Available(p) - q],
                 acc.items + [SaleItem(id, DisplayName(p), q, UnitPrice(p))],
                 acc.subtotal + UnitPrice(p) * q)
  }

  /** The update map has exactly one key per sellable line, and the stock it
      writes there is the available stock minus the quantity sold, never negative. */
  lemma {:induction false} SalePlanUpdates(products: Snapshot, ids: seq<string>, bag: map<string, int>)
    ensures var plan := SalePlanOf(products, ids, bag);
      && (forall id :: id in plan.updates <==> id in ids && Sellable(products, bag, id))
      && (forall id :: id in plan.updates ==>
            id in products && plan.updates[id] == Available(products[id]) - SellQty(products, bag, id) >= 0)
    decreases |ids|
  {
    if ids != [] {
      var init := ids[..|ids| - 1];
      SalePlanUpdates(products, init, bag);
      assert forall x :: x in ids <==> x in init || x == ids[|ids| - 1];
    }
  }

  /** Every item is a sellable line sold at its effective quantity and current
      price, and the subtotal is the sum of the items' amounts. */
  lemma {:induction false} SalePlanItems(products: Snapshot, ids: seq<string>, bag: map<string, int>)
    ensures var plan := SalePlanOf(products, ids, bag);
      && (forall it :: it in plan.items ==>
            && it.id in ids && Sellable(products, bag, it.id)
            && it.qty == SellQty(products, bag, it.id) && it.price == UnitPrice(products[it.id])
            && it.name == DisplayName(products[it.id]))
      && (forall id :: id in ids && Sellable(products, bag, id) ==> exists it :: it in plan.items && it.id == id)
      && plan.subtotal == ItemsSubtotal(plan.items)
    decreases |ids|
  {
    if ids != [] {
      var init := ids[..|ids| - 1];
      var last := ids[|ids| - 1];
      SalePlanItems(products, init, bag);
      var acc := SalePlanOf(products, init, bag);
      var plan := SalePlanOf(products, ids, bag);
      assert forall x :: x in init ==> x in ids;
      assert forall x :: x in ids ==> x in init || x == last;
      assert forall it :: it in acc.items ==> it in plan.items;
      if Sellable(products, bag, last) {
        assert plan.items[..|plan.items| - 1] == acc.items;
        assert plan.items[|plan.items| - 1] in plan.items;
      }
    }
  }

  /** One item per stock write: the sale has items exactly when it has writes,
      and as many of each when the bag's keys are distinct. */
  lemma {:induction false} SalePlanSizes(products: Snapshot, ids: seq<string>, bag: map<string, int>)
    ensures var plan := SalePlanOf(products, ids, bag);
      && (plan.items == [] <==> plan.updates == map[])
      && (Distinct(ids) ==> |plan.items| == |plan.updates|)
    decreases |ids|
  {
    if ids != [] {
      var init := ids[..|ids| - 1];
      var id := ids[|ids| - 1];
      SalePlanSizes(products, init, bag);
      SalePlanUpdates(products, init, bag);
      var acc := SalePlanOf(products, init, bag);
      if Sellable(products, bag, id) {
        assert id in SalePlanOf(products, ids, bag).updates;
        assert Distinct(ids) ==> id !in init && id !in acc.updates;
      }
    }
  }

  /** sellBag's loop (admin.js:439-452). */
  method PlanSale(products: Snapshot, order: seq<string>, bag: map<string, int>) returns (plan: SalePlan)
    ensures plan == SalePlanOf(products, order, bag)
  {
    var subtotal := 0;
    var updates: map<string, int> := map[];
    var items: seq<SaleItem> := [];
    for i := 0 to |order|
      invariant SalePlan(updates, items, subtotal) == SalePlanOf(products, order[..i], bag)
    {
      var id := order[i];
      assert order[..i + 1][..i] == order[..i];
      if id in products {
        var p := products[id];
        var available := Available(p);
        var qty := Min(QtyOf(bag, id), available);
        if qty > 0 {
          var price := UnitPrice(p);
          updates := updates[id := available - qty];
          subtotal := subtotal + price * qty;
          items := items + [SaleItem(id, DisplayName(p), qty, price)];
        }
      }
    }
    assert order[..|order|] == order;
    plan := SalePlan(updates, items, subtotal);
  }

  /** sellBag's discount: unparsable or negative input gives 0, otherwise the
      input capped at the subtotal. */
  function SaleDiscount(field: Option<int>, subtotal: int): (d: int)
    ensures field.None? || field.value < 0 ==> d == 0
    ensures 0 <= subtotal ==> 0 <= d <= subtotal
    ensures field.Some? && 0 <= field.value <= subtotal ==> d == field.value
    ensures field.Some? && 0 <= subtotal < field.value ==> d == subtotal
  {
    match field
    case None => 0
    case Some(v) => if v < 0 then 0 else Min(v, subtotal)
  }

  /** The signed-in operator, when there is one. */
  datatype Operator = Operator(uid: string, email: string)

  /** The record appended under `sales` (its server timestamp is left to the store). */
  datatype SaleRecord = SaleRecord(
    items: seq<SaleItem>,
    subtotal: int,
    discount: int,
    total: int,
    adminUid: Option<string>,
    adminEmail: Option<string>)

  function SaleRecordOf(plan: SalePlan, field: Option<int>, user: Option<Operator>): (r: SaleRecord)
    ensures r.items == plan.items && r.subtotal == plan.subtotal
    ensures r.discount == SaleDiscount(field, plan.subtotal)
    ensures 0 <= plan.subtotal ==> 0 <= r.discount <= r.subtotal && r.total == r.subtotal - r.discount
    ensures r.total >= 0
    ensures r.adminUid.Some? <==> user.Some?
    ensures user.Some? ==> r.adminUid == Some(user.value.uid)
    ensures r.adminEmail.Some? <==> user.Some? && user.value.email != []
    ensures r.adminEmail.Some? ==> r.adminEmail.value == user.value.email
  {
    var discount := SaleDiscount(field, plan.subtotal);
    SaleRecord(
      plan.items, plan.subtotal, discount, Max(0, plan.subtotal - discount),
      match user case Some(u) => Some(u.uid) case None => None,
      match user case Some(u) => (if u.email == [] then None else Some(u.email)) case None => None)
  }

  /** The sale's discount agrees with the one shown under the bag whenever the subtotal is not negative. */
  lemma SaleDiscountMatchesDisplay(field: Option<int>, subtotal: int)
    requires subtotal >= 0
    ensures SaleDiscount(field, subtotal) == Min(DiscountInput(field), subtotal)
  {
  }

  /** The sale record's figures: the subtotal is the sum over the sold items,
      the discount is the non-negative input capped at that subtotal, and the
      total is what remains, never negative. */
  lemma SaleRecordAccounting(products: Snapshot, order: seq<string>, bag: map<string, int>,
                             field: Option<int>, user: Option<Operator>)
    requires forall id :: id in products ==> UnitPrice(products[id]) >= 0
    ensures var r := SaleRecordOf(SalePlanOf(products, order, bag), field, user);
      && r.subtotal == ItemsSubtotal(r.items)
      && r.subtotal >= 0
      && r.discount == Min(DiscountInput(field), r.subtotal)
      && 0 <= r.discount <= r.subtotal
      && r.total == r.subtotal - r.discount >= 0
  {
    var plan := SalePlanOf(products, order, bag);
    SalePlanItems(products, order, bag);
    ItemsSubtotalNonNegative(products, bag, plan.items);
  }

  lemma {:induction false} ItemsSubtotalNonNegative(products: Snapshot, bag: map<string, int>, items: seq<SaleItem>)
    requires forall it :: it in items ==> Sellable(products, bag, it.id) && it.qty == SellQty(products, bag, it.id) && it.price == UnitPrice(products[it.id])
    requires forall id :: id in products ==> UnitPrice(products[id]) >= 0
    ensures ItemsSubtotal(items) >= 0
    decreases |items|
  {
    if items != [] {
      var last := items[|items| - 1];
      assert last in items;
      assert forall it :: it in items[..|items| - 1] ==> it in items;
      ItemsSubtotalNonNegative(products, bag, items[..|items| - 1]);
      assert last.price * last.qty >= 0;
    }
  }

  /** When no stock and no requested quantity is negative, the sale charges
      exactly the subtotal that was shown under the bag. */
  lemma {:induction false} SaleSubtotalMatchesDisplay(products: Snapshot, ids: seq<string>, bag: map<string, int>)
    requires forall id :: id in products ==> Available(products[id]) >= 0
    requires forall id :: id in bag ==> bag[id] >= 0
    ensures SalePlanOf(products, ids, bag).subtotal == LedgerTotal(products, ids, bag)
    decreases |ids|
  {
    if ids != [] {
      var init := ids[..|ids| - 1];
      var id := ids[|ids| - 1];
      SaleSubtotalMatchesDisplay(products, init, bag);
      if id in products && !Sellable(products, bag, id) {
        assert SellQty(products, bag, id) == 0;
        assert LineAmount(products, bag, id) == 0;
      }
    }
  }

  /** Writing the sale's update map leaves every sold product at its old stock
      minus the quantity sold, never below zero, and every other product as it was. */
  lemma SaleStockNeverNegative(products: Snapshot, ids: seq<string>, bag: map<string, int>)
    ensures var plan := SalePlanOf(products, ids, bag);
      && plan.updates.Keys <= products.Keys
      && var after := ApplyQuantityWrites(products, plan.updates);
      && after.Keys == products.Keys
      && (forall id :: id in plan.updates ==>
            Available(after[id]) == Available(products[id]) - SellQty(products, bag, id) >= 0)
      && (forall id :: id in products && id !in plan.updates ==> after[id] == products[id])
  {
    SalePlanUpdates(products, ids, bag);
  }

  // ---------------------------------------------------------------------------
  // The bag itself (posBag and the handlers that edit it)

  datatype AddOutcome = Added | UnknownProduct | InsufficientStock

  datatype ChangeOutcome = UnknownLine | LineRemoved | Clamped(available: int) | QtySet

  datatype SellOutcome =
    | EmptyBag
    | NothingSellable
    | SaleFailed(updates: map<string, int>, stockWritten: bool)
    | Sold(updates: map<string, int>, record: SaleRecord)

  /** Every line whose product is known asks for no more than that product's stock. */
  ghost predicate WithinStock(bag: map<string, int>, products: Snapshot)
  {
    forall id :: id in bag && id in products ==> bag[id] <= Available(products[id])
  }

  /** The operator's bag: `bag` holds the quantities and `order` the keys in
      insertion order, which is the order `Object.keys` enumerates them. */
  class Terminal {
    var bag: map<string, int>
    var order: seq<string>

    ghost predicate Valid()
      reads this
    {
      KeyOrder(order, bag)
    }

    constructor ()
      ensures Valid() && bag == map[] && order == []
    {
      bag := map[];
      order := [];
    }

    /** addToBag: one more unit, unless the product is gone, out of stock, or
        already fully in the bag. */
    method AddToBag(products: Snapshot, id: string) returns (r: AddOutcome)
      requires Valid()
      modifies this
      ensures Valid()
      ensures r == UnknownProduct <==> id !in products
      ensures r == Added <==>
        id in products && 0 < Available(products[id]) && QtyOf(old(bag), id) < Available(products[id])
      ensures r == Added ==>
        && bag == old(bag)[id := QtyOf(old(bag), id) + 1]
        && bag[id] <= Available(products[id])
        && order == WithKey(old(order), id)
      ensures r != Added ==> bag == old(bag) && order == old(order)
      ensures WithinStock(old(bag), products) ==> WithinStock(bag, products)
    {
      if id !in products {
        return UnknownProduct;
      }
      var availableQty := Available(products[id]);
      var currentQty := QtyOf(bag, id);
      if availableQty <= 0 || currentQty >= availableQty {
        return InsufficientStock;
      }
      WithKeyOrder(order, bag, id, currentQty + 1);
      bag := bag[id := currentQty + 1];
      order := WithKey(order, id);
      r := Added;
    }

    /** changeBagQty: a result of zero or less deletes the line; a result above
        the stock is clamped to exactly the stock (which may itself be zero);
        otherwise the line takes the new quantity. */
    method ChangeBagQty(products: Snapshot, id: string, delta: int) returns (r: ChangeOutcome)
      requires Valid()
      modifies this
      ensures Valid()
      ensures id !in products ==> r == UnknownLine && bag == old(bag) && order == old(order)
      ensures id in products ==>
        var next := QtyOf(old(bag), id) + delta;
        var available := Available(products[id]);
        && (next <= 0 ==> r == LineRemoved && bag == old(bag) - {id} && order == WithoutKey(old(order), id))
        && (0 < next && available < next ==>
              r == Clamped(available) && bag == old(bag)[id := available] && order == WithKey(old(order), id))
        && (0 < next <= available ==>
              r == QtySet && bag == old(bag)[id := next] && order == WithKey(old(order), id))
      ensures WithinStock(old(bag), products) ==> WithinStock(bag, products)
    {
      if id !in products {
        return UnknownLine;
      }
      var availableQty := Available(products[id]);
      var currentQty := QtyOf(bag, id);
      var nextQty := currentQty + delta;
      if nextQty <= 0 {
        WithoutKeyOrder(order, bag, id);
        bag := bag - {id};
        order := WithoutKey(order, id);
        r := LineRemoved;
      } else if nextQty > availableQty {
        nextQty := availableQty;
        WithKeyOrder(order, bag, id, nextQty);
        bag := bag[id := nextQty];
        order := WithKey(order, id);
        r := Clamped(availableQty);
      } else {
        WithKeyOrder(order, bag, id, nextQty);
        bag := bag[id := nextQty];
        order := WithKey(order, id);
        r := QtySet;
      }
    }

    /** removeFromBag: deletes that line and nothing else. */
    method RemoveFromBag(id: string)
      requires Valid()
      modifies this
      ensures Valid()
      ensures bag == old(bag) - {id} && order == WithoutKey(old(order), id)
    {
      WithoutKeyOrder(order, bag, id);
      bag := bag - {id};
      order := WithoutKey(order, id);
    }

    /** clearPosBag. */
    method ClearPosBag()
      modifies this
      ensures Valid() && bag == map[] && order == []
    {
      bag := map[];
      order := [];
    }

    /** sellBag: settle the bag against `products`. `updateOk` and `recordOk`
        are the outcomes of the stock update and of the sale-record write; the
        bag is emptied (unsold remainders included) only when both succeed. */
    method SellBag(products: Snapshot, field: Option<int>, user: Option<Operator>, updateOk: bool, recordOk: bool)
      returns (out: SellOutcome)
      requires Valid()
      modifies this
      ensures Valid()
      ensures var plan := SalePlanOf(products, old(order), old(bag));
        && (out == EmptyBag <==> old(bag) == map[])
        && (out == NothingSellable <==> old(bag) != map[] && plan.updates == map[])
        && (out.Sold? <==> old(bag) != map[] && plan.updates != map[] && updateOk && recordOk)
        && (out.SaleFailed? ==> out.updates == plan.updates && plan.updates != map[] && out.stockWritten == updateOk)
        && (out.Sold? ==> out.updates == plan.updates && out.record == SaleRecordOf(plan, field, user))
        && (out.Sold? ==> bag == map[] && order == [])
        && (!out.Sold? ==> bag == old(bag) && order == old(order))
    {
      if |order| == 0 {
        KeyOrderEmpty(order, bag);
        return EmptyBag;
      }
      assert order[0] in bag;
      var plan := PlanSale(products, order, bag);
      SalePlanSizes(products, order, bag);
      if |plan.items| == 0 {
        return NothingSellable;
      }
      var record := SaleRecordOf(plan, field, user);
      if !updateOk {
        return SaleFailed(plan.updates, false);
      }
      if !recordOk {
        return SaleFailed(plan.updates, true);
      }
      ClearPosBag();
      out := Sold(plan.updates, record);
    }
  }

  // ---------------------------------------------------------------------------
  // Worked scenarios

  /** Stock 10: ten adds succeed, the eleventh and twelfth report insufficient stock. */
  method ScenarioAddPastStock()
  {
    var p := Product("Lamp", "Home", "Desk lamp", Some(100), Some(10), None);
    var products := map["P" := p];
    var t := new Terminal();
    for i := 0 to 10
      invariant t.Valid()
      invariant t.bag == if i == 0 then map[] else map["P" := i]
    {
      var r := t.AddToBag(products, "P");
      assert r == Added;
    }
    var r := t.AddToBag(products, "P");
    assert r == InsufficientStock;
    r := t.AddToBag(products, "P");
    assert r == InsufficientStock && t.bag == map["P" := 10];
  }

  /** Three units at 50 with a discount of 200: the discount is capped at the
      subtotal of 150, the total is 0, and selling stays disabled. */
  method ScenarioDiscountCapped()
  {
    var p := Product("Mug", "Home", "Tea mug", Some(50), Some(10), None);
    var t := RenderTotals(map["P" := p], ["P"], map["P" := 3], Some(200));
    assert LedgerTotal(map["P" := p], ["P"], map["P" := 3]) == 150;
    assert t == Totals(150, 150, 0, false);
  }

  /** Five requested while only two remain: the sale sells two, writes stock 0,
      records the two at full price, and empties the bag. */
  method ScenarioSellShortLine()
  {
    var p := Product("Pen", "Office", "Blue pen", Some(100), Some(2), None);
    var products := map["P" := p];
    var plan := SalePlanOf(products, ["P"], map["P" := 5]);
    assert plan == SalePlan(map["P" := 0], [SaleItem("P", "Pen", 2, 100)], 200);
    var t := new Terminal();
    t.bag, t.order := map["P" := 5], ["P"];
    var out := t.SellBag(products, None, None, true, true);
    assert out == Sold(map["P" := 0], SaleRecord([SaleItem("P", "Pen", 2, 100)], 200, 0, 200, None, None));
    assert t.bag == map[];
  }
}
