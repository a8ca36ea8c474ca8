/** Storefront checkout (shop.js `checkout`): every cart line is classified
    against the stock in the snapshot and filled in full, in part or not at all;
    the stock of the filled lines is written in one atomic multi-path update;
    then the cart is cleaned up line by line against the snapshot as it is at
    that moment. */
module Checkout {
  import opened Common
  import opened Inventory
  import opened Storefront

  /** A line of the order: what was bought and what it costs. */
  datatype Purchase = Purchase(id: string, name: string, qty: int, amount: int)

  /** A line that could not be filled, or only in part. */
  datatype Unfilled =
    | NotFound
    | NoStock(name: string)
    | Short(name: string, requested: int, available: int)

  datatype CheckoutPlan = CheckoutPlan(
    updates: map<string, int>,
    purchased: seq<Purchase>,
    unfilled: seq<Unfilled>,
    totalAmount: int)

  /** How checkout treats one cart line with `cartQty` requested and `available` in stock. */
  predicate FillsInFull(cartQty: int, available: int) { available >= cartQty }

  predicate FillsInPart(cartQty: int, available: int) { available < cartQty && available > 0 }

  /** The plan after the lines of `ids`, in that order. */
  function CheckoutPlanOf(products: Snapshot, ids: seq<string>, cart: map<string, int>): (plan: CheckoutPlan)
    ensures forall id :: id in plan.updates ==> id in products && id in ids
    decreases |ids|
  {
    if ids == [] then CheckoutPlan(map[], [], [], 0)
    else
      var plan := CheckoutPlanOf(products, ids[..|ids| - 1], cart);
      var id := ids[|ids| - 1];
      if id !in products then plan.(unfilled := plan.unfilled + [NotFound])
      else
        var p := products[id];
        var cartQty := QtyOf(cart, id);
        var available := Available(p);
        var price := UnitPrice(p);
        var name := DisplayName(p);
        if FillsInFull(cartQty, available) then
          CheckoutPlan(plan.updates[id := available - cartQty],
                       plan.purchased + [Purchase(id, name, cartQty, price * cartQty)],
                       plan.unfilled,
                       plan.totalAmount + price * cartQty)
        else if FillsInPart(cartQty, available) then
          CheckoutPlan(plan.updates[id := 0],
                       plan.purchased + [Purchase(id, name, available, price * available)],
                       plan.unfilled + [Short(name, cartQty, available)],
                       plan.totalAmount + price * available)
        else plan.(unfilled := plan.unfilled + [NoStock(name)])
  }

  /** The stock writes: exactly the lines filled in full or in part get one, and it
      is the stock left after taking the quantity bought, never below zero. */
  lemma {:induction false} CheckoutStockWrites(products: Snapshot, ids: seq<string>, cart: map<string, int>)
    ensures var plan := CheckoutPlanOf(products, ids, cart);
      forall id ::
        && (id in plan.updates <==>
              id in ids && id in products
              && (FillsInFull(QtyOf(cart, id), Available(products[id]))
                  || FillsInPart(QtyOf(cart, id), Available(products[id]))))
        && (id in plan.updates ==>
              && plan.updates[id] == Available(products[id]) - Effective(QtyOf(cart, id), products[id])
              && plan.updates[id] >= 0)
    decreases |ids|
  {
    if ids != [] {
      var init := ids[..|ids| - 1];
      CheckoutStockWrites(products, init, cart);
      assert ids == init + [ids[|ids| - 1]];
    }
  }

  /** Every purchase line fits its cart line. */
  lemma {:induction false} CheckoutPurchases(products: Snapshot, ids: seq<string>, cart: map<string, int>)
    ensures forall u :: u in CheckoutPlanOf(products, ids, cart).purchased ==> PurchaseFits(products, ids, cart, u)
    decreases |ids|
  {
    if ids != [] {
      var init := ids[..|ids| - 1];
      var id := ids[|ids| - 1];
      CheckoutPurchases(products, init, cart);
      var plan := CheckoutPlanOf(products, init, cart);
      var next := CheckoutPlanOf(products, ids, cart);
      forall u | u in next.purchased ensures PurchaseFits(products, ids, cart, u) {
        if u in plan.purchased {
          assert PurchaseFits(products, init, cart, u);
          assert u.id in init;
        } else {
          assert u.id == id;
        }
      }
    }
  }

  /** A purchase line is a known product of the cart, bought at the quantity the
      cart view shows for it (the request capped by the stock) and priced accordingly. */
  ghost predicate PurchaseFits(products: Snapshot, ids: seq<string>, cart: map<string, int>, u: Purchase)
  {
    && u.id in ids && u.id in products
    && u.name == DisplayName(products[u.id])
    && u.qty == Effective(QtyOf(cart, u.id), products[u.id])
    && u.amount == UnitPrice(products[u.id]) * u.qty
    && (u.qty > 0 || FillsInFull(QtyOf(cart, u.id), Available(products[u.id])))
  }

  /** How checkout reports one cart line: a missing product as not found; a line
      filled in full as a purchase of the whole request; a line filled in part as
      a purchase of the stock plus a shortfall naming request and stock; any other
      line as out of stock. */
  ghost predicate LineReported(products: Snapshot, cart: map<string, int>, plan: CheckoutPlan, id: string)
  {
    if id !in products then NotFound in plan.unfilled
    else
      var p := products[id];
      var cartQty := QtyOf(cart, id);
      var available := Available(p);
      if FillsInFull(cartQty, available) then
        Purchase(id, DisplayName(p), cartQty, UnitPrice(p) * cartQty) in plan.purchased
      else if FillsInPart(cartQty, available) then
        && Purchase(id, DisplayName(p), available, UnitPrice(p) * available) in plan.purchased
        && Short(DisplayName(p), cartQty, available) in plan.unfilled
      else NoStock(DisplayName(p)) in plan.unfilled
  }

  /** Every cart line is reported, and every shortfall is a real one: some but
      not all of the request was in stock. */
  lemma {:induction false} CheckoutReportsEveryLine(products: Snapshot, ids: seq<string>, cart: map<string, int>)
    ensures var plan := CheckoutPlanOf(products, ids, cart);
      && (forall id :: id in ids ==> LineReported(products, cart, plan, id))
      && (forall f :: f in plan.unfilled && f.Short? ==> 0 < f.available < f.requested)
    decreases |ids|
  {
    if ids != [] {
      var init := ids[..|ids| - 1];
      var id := ids[|ids| - 1];
      CheckoutReportsEveryLine(products, init, cart);
      var plan := CheckoutPlanOf(products, init, cart);
      var next := CheckoutPlanOf(products, ids, cart);
      assert forall x :: x in ids <==> x in init || x == id by {
        assert ids == init + [id];
      }
      assert forall u :: u in plan.purchased ==> u in next.purchased;
      assert forall f :: f in plan.unfilled ==> f in next.unfilled;
      forall x | x in ids ensures LineReported(products, cart, next, x) {
        if x != id {
          assert LineReported(products, cart, plan, x);
        }
      }
    }
  }

  /** The entry the failure report holds for one cart line: none for a line
      filled in full, otherwise not found, a shortfall, or out of stock. */
  function UnfilledEntry(products: Snapshot, cart: map<string, int>, id: string): Option<Unfilled>
  {
    if id !in products then Some(NotFound)
    else
      var p := products[id];
      var cartQty := QtyOf(cart, id);
      var available := Available(p);
      if FillsInFull(cartQty, available) then None
      else if FillsInPart(cartQty, available) then Some(Short(DisplayName(p), cartQty, available))
      else Some(NoStock(DisplayName(p)))
  }

  /** The test "this line is not filled in full", which puts an entry in the report. */
  function NotFilledInFull(products: Snapshot, cart: map<string, int>): string -> bool
  {
    id => UnfilledEntry(products, cart, id).Some?
  }

  /** The test "something of this line is bought". */
  function Buys(products: Snapshot, cart: map<string, int>): string -> bool
  {
    id => id in products && (FillsInFull(QtyOf(cart, id), Available(products[id]))
                             || FillsInPart(QtyOf(cart, id), Available(products[id])))
  }

  /** The failure report holds nothing but the entries of the cart's lines: each
      entry is the one of some line that was not filled in full. */
  lemma {:induction false} CheckoutReportsOnlyLines(products: Snapshot, ids: seq<string>, cart: map<string, int>)
    ensures forall f :: f in CheckoutPlanOf(products, ids, cart).unfilled ==>
      exists id :: id in ids && UnfilledEntry(products, cart, id) == Some(f)
    decreases |ids|
  {
    if ids != [] {
      var init := ids[..|ids| - 1];
      var id := ids[|ids| - 1];
      CheckoutReportsOnlyLines(products, init, cart);
      var plan := CheckoutPlanOf(products, init, cart);
      var next := CheckoutPlanOf(products, ids, cart);
      forall f | f in next.unfilled
        ensures exists x :: x in ids && UnfilledEntry(products, cart, x) == Some(f)
      {
        if f in plan.unfilled {
          var x :| x in init && UnfilledEntry(products, cart, x) == Some(f);
          assert x in ids;
        } else {
          assert UnfilledEntry(products, cart, id) == Some(f);
        }
      }
    }
  }

  /** One report entry per line not filled in full. */
  lemma {:induction false} CheckoutUnfilledCount(products: Snapshot, ids: seq<string>, cart: map<string, int>)
    ensures |CheckoutPlanOf(products, ids, cart).unfilled| == |Filter(ids, NotFilledInFull(products, cart))|
    decreases |ids|
  {
    if ids != [] {
      var init := ids[..|ids| - 1];
      var id := ids[|ids| - 1];
      var keep := NotFilledInFull(products, cart);
      CheckoutUnfilledCount(products, init, cart);
      FilterDropLast(ids, keep);
      UnfilledStep(products, ids, cart);
      if UnfilledEntry(products, cart, id).Some? {
        assert keep(id);
        assert |Filter(ids, keep)| == |Filter(init, keep)| + 1;
      } else {
        assert !keep(id);
        assert Filter(ids, keep) == Filter(init, keep);
      }
    }
  }

  /** Classifying one more line adds its own entry to the report, if it has one. */
  lemma UnfilledStep(products: Snapshot, ids: seq<string>, cart: map<string, int>)
    requires ids != []
    ensures var id := ids[|ids| - 1];
      CheckoutPlanOf(products, ids, cart).unfilled ==
        CheckoutPlanOf(products, ids[..|ids| - 1], cart).unfilled
          + (match UnfilledEntry(products, cart, id) case Some(f) => [f] case None => [])
  {
  }

  /** One purchase per line something of which is bought. */
  lemma {:induction false} CheckoutPurchaseCount(products: Snapshot, ids: seq<string>, cart: map<string, int>)
    ensures |CheckoutPlanOf(products, ids, cart).purchased| == |Filter(ids, Buys(products, cart))|
    decreases |ids|
  {
    if ids != [] {
      var init := ids[..|ids| - 1];
      var id := ids[|ids| - 1];
      CheckoutPurchaseCount(products, init, cart);
      FilterDropLast(ids, Buys(products, cart));
    }
  }

  /** With distinct keys, every purchase has its own stock write. */
  lemma {:induction false} CheckoutWritePerPurchase(products: Snapshot, ids: seq<string>, cart: map<string, int>)
    requires Distinct(ids)
    ensures |CheckoutPlanOf(products, ids, cart).purchased| == |CheckoutPlanOf(products, ids, cart).updates|
    decreases |ids|
  {
    if ids != [] {
      var init := ids[..|ids| - 1];
      var id := ids[|ids| - 1];
      assert Distinct(init);
      CheckoutWritePerPurchase(products, init, cart);
      assert id !in init;
      assert id !in CheckoutPlanOf(products, init, cart).updates;
    }
  }

  /** Sum of the purchase amounts. */
  function PurchasesTotal(purchased: seq<Purchase>): int
    decreases |purchased|
  {
    if purchased == [] then 0
    else PurchasesTotal(purchased[..|purchased| - 1]) + purchased[|purchased| - 1].amount
  }

  /** The order total is the sum of what was bought, and something was bought
      exactly when some stock is written. */
  lemma {:induction false} CheckoutAccounting(products: Snapshot, ids: seq<string>, cart: map<string, int>)
    ensures var plan := CheckoutPlanOf(products, ids, cart);
      && plan.totalAmount == PurchasesTotal(plan.purchased)
      && (plan.purchased == [] <==> plan.updates == map[])
      && |plan.purchased| + |plan.unfilled| >= |ids|
    decreases |ids|
  {
    if ids != [] {
      var init := ids[..|ids| - 1];
      var plan := CheckoutPlanOf(products, init, cart);
      CheckoutAccounting(products, init, cart);
      var next := CheckoutPlanOf(products, ids, cart);
      if |next.purchased| > |plan.purchased| {
        assert next.purchased[..|next.purchased| - 1] == plan.purchased;
        assert ids[|ids| - 1] in next.updates;
      }
    }
  }

  /** While no stock is negative, the order total is the total the cart view showed. */
  lemma {:induction false} CheckoutTotalMatchesCartView(products: Snapshot, ids: seq<string>, cart: map<string, int>)
    requires forall id :: id in products ==> Available(products[id]) >= 0
    ensures CheckoutPlanOf(products, ids, cart).totalAmount == LedgerTotal(products, ids, cart)
    decreases |ids|
  {
    if ids != [] {
      CheckoutTotalMatchesCartView(products, ids[..|ids| - 1], cart);
      var id := ids[|ids| - 1];
      if id in products {
        var p := products[id];
        if !FillsInFull(QtyOf(cart, id), Available(p)) && !FillsInPart(QtyOf(cart, id), Available(p)) {
          assert Effective(QtyOf(cart, id), p) == 0;
        }
      }
    }
  }

  /** A line left at zero by an earlier checkout counts as bought: an order of
      nothing at all is placed. */
  lemma ZeroLineIsPurchased(products: Snapshot, id: string)
    requires id in products && Available(products[id]) >= 0
    ensures CheckoutPlanOf(products, [id], map[id := 0]).purchased ==
      [Purchase(id, DisplayName(products[id]), 0, 0)]
    ensures CheckoutPlanOf(products, [id], map[id := 0]).updates == map[id := Available(products[id])]
  {
    assert [id][..0] == [];
  }

  /** The loop that classifies the cart lines and builds the stock update. */
  method PlanCheckout(products: Snapshot, ids: seq<string>, cart: map<string, int>) returns (plan: CheckoutPlan)
    ensures plan == CheckoutPlanOf(products, ids, cart)
  {
    var updates: map<string, int> := map[];
    var totalAmount := 0;
    var purchased: seq<Purchase> := [];
    var unfilled: seq<Unfilled> := [];
    for i := 0 to |ids|
      invariant CheckoutPlan(updates, purchased, unfilled, totalAmount) == CheckoutPlanOf(products, ids[..i], cart)
    {
      var id := ids[i];
      assert ids[..i + 1][..i] == ids[..i];
      if id !in products {
        unfilled := unfilled + [NotFound];
        continue;
      }
      var p := products[id];
      var cartQty := QtyOf(cart, id);
      var available := Available(p);
      var price := UnitPrice(p);
      var name := DisplayName(p);
      if available >= cartQty {
        updates := updates[id := available - cartQty];
        totalAmount := totalAmount + price * cartQty;
        purchased := purchased + [Purchase(id, name, cartQty, price * cartQty)];
      } else if available > 0 {
        updates := updates[id := 0];
        totalAmount := totalAmount + price * available;
        purchased := purchased + [Purchase(id, name, available, price * available)];
        unfilled := unfilled + [Short(name, cartQty, available)];
      } else {
        unfilled := unfilled + [NoStock(name)];
      }
    }
    assert ids[..|ids|] == ids;
    plan := CheckoutPlan(updates, purchased, unfilled, totalAmount);
  }

  // ---------------------------------------------------------------------------
  // Cart clean-up

  /** The clean-up write for one line, judged against the snapshot `now` seen after
      the stock update: removed while the stock covers the line or is positive,
      set to zero when the stock is exactly zero, otherwise left alone. Lines
      whose product is gone are left alone too. */
  function CleanupWrite(now: Snapshot, cart: map<string, int>, id: string): (w: Option<CartWrite>)
    ensures w.Some? ==> w.value.id == id && id in now
    ensures w == Some(RemoveLine(id)) <==>
      id in now && (Available(now[id]) >= QtyOf(cart, id) || Available(now[id]) > 0)
    ensures w == Some(SetLine(id, 0)) <==>
      id in now && Available(now[id]) < QtyOf(cart, id) && Available(now[id]) == 0
    ensures w.Some? ==> w == Some(RemoveLine(id)) || w == Some(SetLine(id, 0))
  {
    if id !in now then None
    else
      var available := Available(now[id]);
      var cartQty := QtyOf(cart, id);
      if available >= cartQty || available > 0 then Some(RemoveLine(id))
      else if available == 0 then Some(SetLine(id, 0))
      else None
  }

  function CleanupOf(now: Snapshot, ids: seq<string>, cart: map<string, int>): seq<CartWrite>
    decreases |ids|
  {
    if ids == [] then []
    else
      var id := ids[|ids| - 1];
      CleanupOf(now, ids[..|ids| - 1], cart)
        + (match CleanupWrite(now, cart, id) case Some(w) => [w] case None => [])
  }

  /** The cart mirror after a sequence of writes has been echoed. */
  function ApplyCartWrites(cart: map<string, int>, writes: seq<CartWrite>): map<string, int>
    decreases |writes|
  {
    if writes == [] then cart
    else ApplyCartWrite(ApplyCartWrites(cart, writes[..|writes| - 1]), writes[|writes| - 1])
  }

  /** The cart after clean-up, line by line: a line of `ids` that clean-up removes
      is gone, one it zeroes holds 0, every other line is as it was. */
  function CleanedCart(now: Snapshot, ids: seq<string>, cart: map<string, int>): map<string, int>
  {
    map id | id in cart && !(id in ids && CleanupWrite(now, cart, id) == Some(RemoveLine(id)))
      :: if id in ids && CleanupWrite(now, cart, id) == Some(SetLine(id, 0)) then 0 else cart[id]
  }

  /** Cleaning one more line is performing its clean-up write on the cart cleaned so far. */
  lemma CleanedCartStep(now: Snapshot, init: seq<string>, id: string, cart: map<string, int>)
    requires id in cart
    ensures CleanupWrite(now, cart, id).None? ==> CleanedCart(now, init + [id], cart) == CleanedCart(now, init, cart)
    ensures CleanupWrite(now, cart, id).Some? ==>
      CleanedCart(now, init + [id], cart) == ApplyCartWrite(CleanedCart(now, init, cart), CleanupWrite(now, cart, id).value)
  {
    var ids := init + [id];
    assert forall x :: x in ids <==> x in init || x == id;
    var before := CleanedCart(now, init, cart);
    var after := CleanedCart(now, ids, cart);
    match CleanupWrite(now, cart, id)
    case None =>
      assert after.Keys == before.Keys;
    case Some(w) =>
      var applied := ApplyCartWrite(before, w);
      assert after.Keys == applied.Keys;
      forall x | x in after ensures after[x] == applied[x] {
      }
  }

  /** Performing the clean-up writes one after the other yields the cleaned cart. */
  lemma {:induction false} CleanupAppliesLineByLine(now: Snapshot, ids: seq<string>, cart: map<string, int>)
    requires forall id :: id in ids ==> id in cart
    ensures ApplyCartWrites(cart, CleanupOf(now, ids, cart)) == CleanedCart(now, ids, cart)
    decreases |ids|
  {
    if ids == [] {
      assert CleanedCart(now, ids, cart) == cart;
    } else {
      var init := ids[..|ids| - 1];
      var id := ids[|ids| - 1];
      assert forall x :: x in init ==> x in ids;
      CleanupAppliesLineByLine(now, init, cart);
      assert ids == init + [id];
      CleanedCartStep(now, init, id, cart);
      var before := CleanupOf(now, init, cart);
      var all := CleanupOf(now, ids, cart);
      match CleanupWrite(now, cart, id)
      case None =>
        assert all == before;
      case Some(w) =>
        assert all == before + [w];
        assert all[..|all| - 1] == before;
        assert ApplyCartWrites(cart, all) == ApplyCartWrite(ApplyCartWrites(cart, before), w);
    }
  }

  /** The clean-up writes in order, as the second loop of checkout issues them. */
  method PlanCleanup(now: Snapshot, ids: seq<string>, cart: map<string, int>) returns (writes: seq<CartWrite>)
    ensures writes == CleanupOf(now, ids, cart)
  {
    writes := [];
    for i := 0 to |ids|
      invariant writes == CleanupOf(now, ids[..i], cart)
    {
      var id := ids[i];
      assert ids[..i + 1][..i] == ids[..i];
      if id in now {
        var available := Available(now[id]);
        var cartQty := QtyOf(cart, id);
        if available >= cartQty || available > 0 {
          writes := writes + [RemoveLine(id)];
        } else if available == 0 {
          writes := writes + [SetLine(id, 0)];
        }
      }
    }
    assert ids[..|ids|] == ids;
  }

  /** Judged against the snapshot checkout planned with, clean-up removes exactly
      the lines that were bought; an unbought line stays, zeroed when its stock is zero. */
  lemma CleanupRemovesPurchasedLines(products: Snapshot, ids: seq<string>, cart: map<string, int>)
    requires KeyOrder(ids, cart)
    ensures var plan := CheckoutPlanOf(products, ids, cart);
      var c := CleanedCart(products, ids, cart);
      forall id :: id in cart ==>
        && (id !in c <==> id in plan.updates)
        && (id in c ==> c[id] == if id in products && Available(products[id]) == 0 then 0 else cart[id])
  {
    CheckoutStockWrites(products, ids, cart);
  }

  /** Judged against the snapshot that already shows checkout's own stock update,
      a positive line is removed only when the stock exceeded it; a line bought to
      the last unit or only in part stays in the cart at zero. */
  lemma CleanupAfterStockEcho(products: Snapshot, ids: seq<string>, cart: map<string, int>, id: string)
    requires KeyOrder(ids, cart)
    requires id in CheckoutPlanOf(products, ids, cart).updates && QtyOf(cart, id) > 0
    ensures var plan := CheckoutPlanOf(products, ids, cart);
      var now := ApplyQuantityWrites(products, plan.updates);
      var c := CleanedCart(now, ids, cart);
      && (id !in c <==> Available(products[id]) > cart[id])
      && (id in c ==> c[id] == 0)
  {
    CheckoutStockWrites(products, ids, cart);
  }

  datatype CheckoutOutcome =
    | CartIsEmpty
    | NothingPurchasable(unfilled: seq<Unfilled>)
    | OrderFailed(plan: CheckoutPlan)
    | OrderPlaced(plan: CheckoutPlan, cartWrites: seq<CartWrite>)

  /** checkout: refuse an empty cart; plan the order; refuse it when nothing can be
      bought; write the stock update (`stockWriteOk` is the store's answer); then
      clean the cart up against the snapshot `now` seen at that point. */
  method PlaceOrder(products: Snapshot, ids: seq<string>, cart: map<string, int>,
                    stockWriteOk: bool, now: Snapshot) returns (out: CheckoutOutcome)
    requires KeyOrder(ids, cart)
    ensures out == CartIsEmpty <==> cart == map[]
    ensures out.NothingPurchasable? ==> CheckoutPlanOf(products, ids, cart).purchased == []
    ensures out.OrderFailed? || out.OrderPlaced? ==>
      && out.plan == CheckoutPlanOf(products, ids, cart)
      && out.plan.purchased != [] && out.plan.updates != map[]
      && out.plan.totalAmount == PurchasesTotal(out.plan.purchased)
    ensures out.OrderFailed? <==> cart != map[] && CheckoutPlanOf(products, ids, cart).purchased != [] && !stockWriteOk
    ensures out.OrderPlaced? ==>
      && stockWriteOk
      && out.cartWrites == CleanupOf(now, ids, cart)
      && ApplyCartWrites(cart, out.cartWrites) == CleanedCart(now, ids, cart)
  {
    KeyOrderEmpty(ids, cart);
    if |ids| == 0 {
      return CartIsEmpty;
    }
    var plan := PlanCheckout(products, ids, cart);
    CheckoutAccounting(products, ids, cart);
    if |plan.purchased| == 0 {
      return NothingPurchasable(plan.unfilled);
    }
    if !stockWriteOk {
      return OrderFailed(plan);
    }
    var writes := PlanCleanup(now, ids, cart);
    CleanupAppliesLineByLine(now, ids, cart);
    return OrderPlaced(plan, writes);
  }
}
