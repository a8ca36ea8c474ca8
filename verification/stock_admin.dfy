/** The admin dashboard's inventory helpers (admin.js): the stock classes behind
    the product filters, the dashboard counters and the low-stock badge; restocking;
    and the validation of the add/edit product form. */
module StockAdmin {
  import opened Common
  import opened Inventory

  // ---------------------------------------------------------------------------
  // Stock classes

  predicate IsLowStock(q: int) { 0 < q < 5 }

  predicate IsInStock(q: int) { q >= 5 }

  predicate IsOutOfStock(q: int) { q == 0 }

  /** The condition of the notification badge: anything under five, zero and negative included. */
  predicate NeedsRestock(q: int) { q < 5 }

  /** For every stock level that is not negative exactly one of the three classes
      holds; a negative level is in none of them, yet it raises the badge. */
  lemma StockClassesPartition(q: int)
    ensures q >= 0 ==>
      && (IsLowStock(q) || IsInStock(q) || IsOutOfStock(q))
      && !(IsLowStock(q) && IsInStock(q))
      && !(IsLowStock(q) && IsOutOfStock(q))
      && !(IsInStock(q) && IsOutOfStock(q))
    ensures q < 0 ==> !IsLowStock(q) && !IsInStock(q) && !IsOutOfStock(q) && NeedsRestock(q)
    ensures NeedsRestock(q) <==> IsLowStock(q) || IsOutOfStock(q) || q < 0
  {
  }

  predicate LowProduct(p: Product) { IsLowStock(Available(p)) }

  predicate InStockProduct(p: Product) { IsInStock(Available(p)) }

  predicate OutOfStockProduct(p: Product) { IsOutOfStock(Available(p)) }

  predicate RestockProduct(p: Product) { NeedsRestock(Available(p)) }

  datatype FilterKind = AllProducts | LowStock | InStock | OutOfStock

  /** The filter names the dashboard uses; anything else shows all products. */
  function FilterKindOf(name: string): (kind: FilterKind)
    ensures kind == LowStock <==> name == "low"
    ensures kind == InStock <==> name == "instock"
    ensures kind == OutOfStock <==> name == "outofstock"
  {
    if name == "low" then LowStock
    else if name == "instock" then InStock
    else if name == "outofstock" then OutOfStock
    else AllProducts
  }

  /** filterProducts: the products of the chosen class, in snapshot order. */
  function FilterProducts(products: seq<Product>, kind: FilterKind): (r: seq<Product>)
    ensures IsSubsequence(r, products)
    ensures kind == AllProducts ==> r == products
    ensures kind == LowStock ==> forall p :: p in r <==> p in products && IsLowStock(Available(p))
    ensures kind == InStock ==> forall p :: p in r <==> p in products && IsInStock(Available(p))
    ensures kind == OutOfStock ==> forall p :: p in r <==> p in products && IsOutOfStock(Available(p))
    ensures kind == LowStock ==>
      forall p :: multiset(r)[p] == if IsLowStock(Available(p)) then multiset(products)[p] else 0
    ensures kind == InStock ==>
      forall p :: multiset(r)[p] == if IsInStock(Available(p)) then multiset(products)[p] else 0
    ensures kind == OutOfStock ==>
      forall p :: multiset(r)[p] == if IsOutOfStock(Available(p)) then multiset(products)[p] else 0
  {
    match kind
    case AllProducts =>
      assert IsSubsequence(products, products) by { SubsequenceRefl(products); }
      products
    case LowStock => Filter(products, LowProduct)
    case InStock => Filter(products, InStockProduct)
    case OutOfStock => Filter(products, OutOfStockProduct)
  }

  lemma {:induction false} SubsequenceRefl<T>(s: seq<T>)
    ensures IsSubsequence(s, s)
    decreases |s|
  {
    if s != [] {
      SubsequenceRefl(s[1..]);
    }
  }

  datatype Stats = Stats(total: nat, low: nat, inStock: nat, outOfStock: nat)

  /** updateStats: the four dashboard counters. */
  function StockStats(products: seq<Product>): (s: Stats)
    ensures s.total == |products|
    ensures s.low == |FilterProducts(products, LowStock)|
    ensures s.inStock == |FilterProducts(products, InStock)|
    ensures s.outOfStock == |FilterProducts(products, OutOfStock)|
    ensures s.low <= s.total && s.inStock <= s.total && s.outOfStock <= s.total
    ensures s.low == 0 <==> forall p :: p in products ==> !IsLowStock(Available(p))
    ensures s.inStock == 0 <==> forall p :: p in products ==> !IsInStock(Available(p))
    ensures s.outOfStock == 0 <==> forall p :: p in products ==> !IsOutOfStock(Available(p))
  {
    Stats(|products|,
          |Filter(products, LowProduct)|,
          |Filter(products, InStockProduct)|,
          |Filter(products, OutOfStockProduct)|)
  }

  /** When no stock level is negative, the low, in-stock and out-of-stock counters
      add up to the number of products. */
  lemma {:induction false} StatsPartition(products: seq<Product>)
    requires forall p :: p in products ==> Available(p) >= 0
    ensures var s := StockStats(products); s.low + s.inStock + s.outOfStock == s.total
    decreases |products|
  {
    if products != [] {
      assert forall p :: p in products[1..] ==> p in products;
      StatsPartition(products[1..]);
      StockClassesPartition(Available(products[0]));
    }
  }

  /** checkLowStock: the badge shows exactly when some product has fewer than five in stock. */
  function ShowRestockBadge(products: seq<Product>): (shown: bool)
    ensures shown <==> exists p :: p in products && NeedsRestock(Available(p))
  {
    var low := Filter(products, RestockProduct);
    assert low != [] ==> low[0] in low;
    |low| > 0
  }

  // ---------------------------------------------------------------------------
  // Restocking (addQuantity)

  datatype RestockReply =
    | InvalidQuantity
    | ProductMissing
    | SetQuantity(id: string, quantity: int)

  /** addQuantity: a missing, zero or negative amount is rejected; for a known
      product the canonical `quantity` field is written with the normalised
      current stock plus the amount. */
  function AddQuantity(products: Snapshot, id: string, amount: Option<int>): (r: RestockReply)
    ensures r == InvalidQuantity <==> amount.None? || amount.value < 1
    ensures r == ProductMissing <==> amount.Some? && amount.value >= 1 && id !in products
    ensures r.SetQuantity? ==>
      && r.id == id && id in products
      && r.quantity == Available(products[id]) + amount.value
      && r.quantity > Available(products[id])
  {
    match amount
    case None => InvalidQuantity
    case Some(n) =>
      if n < 1 then InvalidQuantity
      else if id !in products then ProductMissing
      else SetQuantity(id, Available(products[id]) + n)
  }

  /** Once the write lands, the product's stock has grown by exactly the amount
      entered, even when it used to be kept in the legacy `qty` field. */
  lemma RestockAddsAmount(products: Snapshot, id: string, n: int)
    requires id in products && n >= 1
    ensures var r := AddQuantity(products, id, Some(n));
      && r.SetQuantity?
      && Available(ApplyQuantityWrites(products, map[id := r.quantity])[id]) == Available(products[id]) + n
  {
  }

  // ---------------------------------------------------------------------------
  // The product form (addProduct / updateProduct)

  predicate IsSpace(c: char)
  {
    c == ' ' || c == '\t' || c == '\n' || c == '\r' || c == '\U{B}' || c == '\U{C}'
  }

  /** Where the text starts: the index of the first visible character at or after `i`. */
  function TextStart(s: string, i: nat): (k: nat)
    requires i <= |s|
    ensures i <= k <= |s|
    ensures forall j :: i <= j < k ==> IsSpace(s[j])
    ensures k < |s| ==> !IsSpace(s[k])
    decreases |s| - i
  {
    if i < |s| && IsSpace(s[i]) then TextStart(s, i + 1) else i
  }

  /** Where the text ends: one past the last visible character in `s[lo..e]`. */
  function TextEnd(s: string, lo: nat, e: nat): (k: nat)
    requires lo <= e <= |s|
    ensures lo <= k <= e
    ensures forall j :: k <= j < e ==> IsSpace(s[j])
    ensures k > lo ==> !IsSpace(s[k - 1])
    decreases e
  {
    if e > lo && IsSpace(s[e - 1]) then TextEnd(s, lo, e - 1) else e
  }

  /** `String.prototype.trim` over ASCII white space. */
  function Trim(s: string): string
  {
    var k := TextStart(s, 0);
    s[k..TextEnd(s, k, |s|)]
  }

  /** The trimmed field is the middle of the raw field: everything cut off on either
      side is white space, and what is kept starts and ends with a visible character. */
  lemma TrimProperties(s: string)
    ensures exists k, e {:trigger s[k..e]} ::
      && 0 <= k <= e <= |s| && Trim(s) == s[k..e]
      && (forall i :: 0 <= i < k ==> IsSpace(s[i]))
      && (forall i :: e <= i < |s| ==> IsSpace(s[i]))
      && (k < e ==> !IsSpace(s[k]) && !IsSpace(s[e - 1]))
    ensures Trim(s) == [] <==> forall i :: 0 <= i < |s| ==> IsSpace(s[i])
  {
    var k := TextStart(s, 0);
    var e := TextEnd(s, k, |s|);
    assert Trim(s) == s[k..e];
    if Trim(s) == [] {
      assert k == e;
    }
  }

  /** The raw fields of the add/edit product form; `price` and `quantity` are
      `None` when they do not parse as numbers. */
  datatype ProductForm = ProductForm(
    name: string,
    category: string,
    description: string,
    price: Option<int>,
    quantity: Option<int>,
    image: string)

  /** What addProduct pushes (together with a server timestamp) and updateProduct writes. */
  datatype ProductFields = ProductFields(
    name: string,
    category: string,
    description: string,
    price: int,
    quantity: int,
    image: string)

  const PlaceholderImage: string := "https://via.placeholder.com/300x150?text=No+Image"

  /** The form check shared by addProduct and updateProduct: the trimmed name and
      description and the category must be non-empty and price and quantity must
      parse; nothing bounds price or quantity, so negative values pass. */
  function ValidateProductForm(f: ProductForm): (r: Option<ProductFields>)
    ensures r.Some? <==>
      && Trim(f.name) != [] && f.category != [] && Trim(f.description) != []
      && f.price.Some? && f.quantity.Some?
    ensures r.Some? ==>
      && r.value.name == Trim(f.name) && r.value.category == f.category
      && r.value.description == Trim(f.description)
      && r.value.price == f.price.value && r.value.quantity == f.quantity.value
      && r.value.image == (if Trim(f.image) == [] then PlaceholderImage else Trim(f.image))
      && r.value.image != []
  {
    var name := Trim(f.name);
    var description := Trim(f.description);
    var image := Trim(f.image);
    if name == [] || f.category == [] || description == [] || f.price.None? || f.quantity.None? then None
    else Some(ProductFields(name, f.category, description, f.price.value, f.quantity.value,
                            if image == [] then PlaceholderImage else image))
  }
}
