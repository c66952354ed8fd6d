/** The point-of-sale screen (src/pages/POS.tsx): the product grid with its
    category tabs and search, the cart, the totals with the 10% discount
    toggle, and checkout. Prices are whole cents; the discount and the total
    are exact reals. Line ids come from the clock in the source and are a
    parameter here. */
module Pos {
  import opened Wrappers
  import opened Text
  import opened Collections

  /** A product of the catalogue; `price` in cents. */
  datatype Product = Product(id: string, name: string, category: string, sku: string, price: nat, stock: int)

  /** `CartItem`: a product in the cart with its quantity and line total. */
  datatype CartLine = CartLine(id: string, productId: string, name: string, price: int, quantity: int, total: int)

  function ProductCategories(products: seq<Product>): (cs: seq<string>)
    ensures |cs| == |products|
    ensures forall i :: 0 <= i < |products| ==> cs[i] == products[i].category
  {
    seq(|products|, i requires 0 <= i < |products| => products[i].category)
  }

  /** `['all', ...new Set(categories)]`: the tab row. */
  function Categories(products: seq<Product>): (tabs: seq<string>)
    ensures |tabs| >= 1 && tabs[0] == "all"
    ensures NoDuplicates(tabs[1..])
    ensures forall c :: c in tabs[1..] <==> exists i :: 0 <= i < |products| && products[i].category == c
    ensures |tabs| <= |products| + 1
  {
    var cs := ProductCategories(products);
    var d := Distinct(cs);
    assert forall c :: c in cs <==> exists i :: 0 <= i < |products| && products[i].category == c by {
      forall c | c in cs ensures exists i :: 0 <= i < |products| && products[i].category == c {
        var i :| 0 <= i < |cs| && cs[i] == c;
      }
    }
    assert (["all"] + d)[1..] == d;
    ["all"] + d
  }

  /** The tabs after "all" follow the order in which each category first
      appears in the catalogue. */
  lemma CategoriesInFirstOccurrenceOrder(products: seq<Product>)
    ensures var tabs := Categories(products);
      forall i, j :: 1 <= i < j < |tabs| ==>
        FirstIndex(ProductCategories(products), tabs[i]) < FirstIndex(ProductCategories(products), tabs[j])
  {
    var tabs := Categories(products);
    var d := Distinct(ProductCategories(products));
    DistinctFirstOccurrenceOrder(ProductCategories(products));
    forall i, j | 1 <= i < j < |tabs|
      ensures FirstIndex(ProductCategories(products), tabs[i]) < FirstIndex(ProductCategories(products), tabs[j])
    {
      assert tabs[i] == d[i - 1] && tabs[j] == d[j - 1];
    }
  }

  /** The grid test: name or SKU contains the term ignoring ASCII case (the
      term is not trimmed), and the tab is "all" or the product's category. */
  predicate Listed(p: Product, term: string, category: string) {
    (ContainsFolded(p.name, term) || ContainsFolded(p.sku, term))
    && (category == "all" || p.category == category)
  }

  /** `filteredProducts`. */
  function FilterProducts(products: seq<Product>, term: string, category: string): (r: seq<Product>)
    ensures forall p :: p in r <==> p in products && Listed(p, term, category)
    ensures term == "" ==> forall p :: p in r <==> p in products && (category == "all" || p.category == category)
    ensures forall p :: multiset(r)[p] == if Listed(p, term, category) then multiset(products)[p] else 0
    ensures IsSubsequence(r, products)
  {
    forall p: Product { ContainsEmpty(Lower(p.name)); }
    FilterIsSubsequence(products, p => Listed(p, term, category));
    FilterMultiset(products, p => Listed(p, term, category));
    Filter(products, p => Listed(p, term, category))
  }

  /** `findIndex` on the product id. */
  function FindLine(cart: seq<CartLine>, productId: string): (r: Option<nat>)
    ensures r.None? <==> forall i :: 0 <= i < |cart| ==> cart[i].productId != productId
    ensures r.Some? ==> r.value < |cart| && cart[r.value].productId == productId
    ensures r.Some? ==> forall j :: 0 <= j < r.value ==> cart[j].productId != productId
  {
    if |cart| == 0 then None
    else if cart[0].productId == productId then Some(0)
    else match FindLine(cart[1..], productId)
      case None => None
      case Some(k) => Some(k + 1)
  }

  /** `addToCart`: a product already in the cart gets one more on its line,
      repriced from the product; a new one is appended with quantity one. */
  function AddToCart(cart: seq<CartLine>, p: Product, newId: string): (r: seq<CartLine>)
    ensures FindLine(cart, p.id).Some? ==>
      var k := FindLine(cart, p.id).value;
      && |r| == |cart|
      && r[k] == cart[k].(quantity := cart[k].quantity + 1, total := LineTotal(cart[k].quantity + 1, p.price))
      && forall i :: 0 <= i < |cart| && i != k ==> r[i] == cart[i]
    ensures FindLine(cart, p.id).None? ==>
      && |r| == |cart| + 1 && r[..|cart|] == cart
      && r[|cart|] == CartLine(newId, p.id, p.name, p.price, 1, p.price)
  {
    match FindLine(cart, p.id)
    case Some(k) =>
      var q := cart[k].quantity + 1;
      cart[k := cart[k].(quantity := q, total := LineTotal(q, p.price))]
    case None =>
      cart + [CartLine(newId, p.id, p.name, p.price, 1, p.price)]
  }

  /** A line's total: its quantity times its price. */
  function LineTotal(quantity: int, price: int): int {
    quantity * price
  }

  /** The cart invariant: one line per product, every quantity at least one,
      every total its quantity times its price. */
  predicate ValidCart(cart: seq<CartLine>) {
    && (forall i, j :: 0 <= i < j < |cart| ==> cart[i].productId != cart[j].productId)
    && (forall i :: 0 <= i < |cart| ==> ValidLine(cart[i]))
  }

  /** One line: a quantity of at least one, a non-negative price, and the
      total their product. */
  predicate ValidLine(l: CartLine) {
    l.quantity >= 1 && l.price >= 0 && l.total == LineTotal(l.quantity, l.price)
  }

  /** Every line carries the price and name of the catalogue product it
      was added from. */
  predicate FromCatalogue(cart: seq<CartLine>, products: seq<Product>) {
    forall i :: 0 <= i < |cart| ==>
      exists k :: 0 <= k < |products| && products[k].id == cart[i].productId
                  && products[k].price == cart[i].price && products[k].name == cart[i].name
  }

  predicate UniqueProductIds(products: seq<Product>) {
    forall i, j :: 0 <= i < j < |products| ==> products[i].id != products[j].id
  }

  /** Adding a catalogue product keeps the cart invariant and its tie to the
      catalogue. */
  lemma AddKeepsCartValid(cart: seq<CartLine>, products: seq<Product>, k: nat, newId: string)
    requires ValidCart(cart) && FromCatalogue(cart, products) && UniqueProductIds(products)
    requires k < |products|
    ensures var r := AddToCart(cart, products[k], newId);
      ValidCart(r) && FromCatalogue(r, products)
  {
    var p := products[k];
    var r := AddToCart(cart, p, newId);
    match FindLine(cart, p.id)
    case Some(m) =>
      assert cart[m].price == p.price by {
        var k2 :| 0 <= k2 < |products| && products[k2].id == cart[m].productId
                  && products[k2].price == cart[m].price && products[k2].name == cart[m].name;
        assert k2 == k;
      }
      assert forall i :: 0 <= i < |r| ==> r[i].productId == cart[i].productId && r[i].price == cart[i].price
                                          && r[i].name == cart[i].name;
    case None =>
      assert forall i :: 0 <= i < |cart| ==> r[i] == cart[i];
  }

  /** Adding the same new product twice leaves a single line for it with
      quantity two. */
  lemma AddTwiceMerges(cart: seq<CartLine>, p: Product, id1: string, id2: string)
    requires FindLine(cart, p.id).None?
    ensures var r := AddToCart(AddToCart(cart, p, id1), p, id2);
      && |r| == |cart| + 1
      && r[|cart|] == CartLine(id1, p.id, p.name, p.price, 2, 2 * p.price)
  {
    var once := AddToCart(cart, p, id1);
    assert FindLine(once, p.id) == Some(|cart|);
  }

  /** `removeFromCart`: drops the lines with that id, keeps the others in
      order. */
  function RemoveFromCart(cart: seq<CartLine>, lineId: string): (r: seq<CartLine>)
    ensures forall l :: l in r <==> l in cart && l.id != lineId
    ensures forall l: CartLine :: l.id != lineId ==> multiset(r)[l] == multiset(cart)[l]
    ensures IsSubsequence(r, cart)
  {
    var keep := (l: CartLine) => l.id != lineId;
    FilterIsSubsequence(cart, keep);
    forall l { FilterCounts(cart, keep, l); }
    Filter(cart, keep)
  }

  /** Dropping lines keeps the cart invariant. */
  lemma RemoveKeepsCartValid(cart: seq<CartLine>, lineId: string)
    requires ValidCart(cart)
    ensures ValidCart(RemoveFromCart(cart, lineId))
  {
    var keep := (l: CartLine) => l.id != lineId;
    var apart := (a: CartLine, b: CartLine) => a.productId != b.productId;
    assert forall i, j :: 0 <= i < j < |cart| ==> apart(cart[i], cart[j]);
    KeepKeepsPairwise(cart, keep, apart);
    KeepKeepsAll(cart, keep, ValidLine);
    KeepIsFilter(cart, keep);
  }

  /** `updateQuantity`: below one nothing happens; otherwise every line with
      that id takes the quantity and its total is recomputed. */
  function UpdateQuantity(cart: seq<CartLine>, lineId: string, quantity: int): (r: seq<CartLine>)
    ensures quantity < 1 ==> r == cart
    ensures |r| == |cart|
    ensures quantity >= 1 ==> forall i :: 0 <= i < |cart| && cart[i].id == lineId ==>
      && r[i].quantity == quantity && r[i].total == LineTotal(quantity, cart[i].price)
      && r[i].(quantity := cart[i].quantity, total := cart[i].total) == cart[i]
    ensures forall i :: 0 <= i < |cart| && cart[i].id != lineId ==> r[i] == cart[i]
  {
    if quantity < 1 then cart
    else seq(|cart|, i requires 0 <= i < |cart| =>
               if cart[i].id == lineId then cart[i].(quantity := quantity, total := LineTotal(quantity, cart[i].price))
               else cart[i])
  }

  /** Quantity updates keep the cart invariant, so no line drops below one. */
  lemma UpdateKeepsCartValid(cart: seq<CartLine>, lineId: string, quantity: int)
    requires ValidCart(cart)
    ensures ValidCart(UpdateQuantity(cart, lineId, quantity))
  {
    var r := UpdateQuantity(cart, lineId, quantity);
    assert forall i :: 0 <= i < |r| ==> r[i].productId == cart[i].productId && r[i].price == cart[i].price;
  }

  /** `cart.reduce((sum, item) => sum + item.total, 0)`. */
  function Subtotal(cart: seq<CartLine>): (s: int)
    ensures (forall i :: 0 <= i < |cart| ==> cart[i].total >= 0) ==> s >= 0
  {
    if |cart| == 0 then 0 else cart[0].total + Subtotal(cart[1..])
  }

  lemma {:induction false} SubtotalAppend(a: seq<CartLine>, b: seq<CartLine>)
    ensures Subtotal(a + b) == Subtotal(a) + Subtotal(b)
  {
    if |a| > 0 {
      SubtotalAppend(a[1..], b);
      assert (a + b)[0] == a[0];
      assert (a + b)[1..] == a[1..] + b;
    } else {
      assert a + b == b;
    }
  }

  lemma {:induction false} SubtotalUpdate(cart: seq<CartLine>, k: nat, line: CartLine)
    requires k < |cart|
    ensures Subtotal(cart[k := line]) == Subtotal(cart) - cart[k].total + line.total
  {
    if k > 0 {
      SubtotalUpdate(cart[1..], k - 1, line);
      assert cart[k := line][1..] == cart[1..][k - 1 := line];
    }
  }

  /** One more unit costs one more price. */
  lemma OneMoreUnit(quantity: int, price: int)
    ensures LineTotal(quantity + 1, price) == LineTotal(quantity, price) + price
  {
  }

  /** Adding a product whose price the cart agrees with raises the subtotal by
      exactly that price. */
  lemma SubtotalAfterAdd(cart: seq<CartLine>, p: Product, newId: string)
    requires ValidCart(cart)
    requires forall i :: 0 <= i < |cart| && cart[i].productId == p.id ==> cart[i].price == p.price
    ensures Subtotal(AddToCart(cart, p, newId)) == Subtotal(cart) + p.price
  {
    match FindLine(cart, p.id)
    case Some(k) =>
      assert ValidLine(cart[k]);
      SubtotalAfterMerge(cart, p, newId, k);
    case None =>
      SubtotalAfterAppend(cart, p, newId);
  }

  lemma SubtotalAfterMerge(cart: seq<CartLine>, p: Product, newId: string, k: nat)
    requires FindLine(cart, p.id) == Some(k)
    requires ValidLine(cart[k]) && cart[k].price == p.price
    ensures Subtotal(AddToCart(cart, p, newId)) == Subtotal(cart) + p.price
  {
    var q := cart[k].quantity + 1;
    var line := cart[k].(quantity := q, total := LineTotal(q, p.price));
    calc {
      Subtotal(AddToCart(cart, p, newId));
      { MergeUpdatesLine(cart, p, newId, k); }
      Subtotal(cart[k := line]);
      { SubtotalUpdate(cart, k, line); }
      Subtotal(cart) - cart[k].total + line.total;
      { OneMoreUnit(cart[k].quantity, p.price); }
      Subtotal(cart) + p.price;
    }
  }

  /** Adding a product already in the cart rewrites its line in place. */
  lemma MergeUpdatesLine(cart: seq<CartLine>, p: Product, newId: string, k: nat)
    requires FindLine(cart, p.id) == Some(k)
    ensures var q := cart[k].quantity + 1;
      AddToCart(cart, p, newId) == cart[k := cart[k].(quantity := q, total := LineTotal(q, p.price))]
  {
    var q := cart[k].quantity + 1;
    var line := cart[k].(quantity := q, total := LineTotal(q, p.price));
    var r := AddToCart(cart, p, newId);
    assert |r| == |cart| && r[k] == line;
    forall i | 0 <= i < |r| ensures r[i] == cart[k := line][i] {
      if i != k {
        assert r[i] == cart[i];
      }
    }
  }

  lemma SubtotalAfterAppend(cart: seq<CartLine>, p: Product, newId: string)
    requires FindLine(cart, p.id).None?
    ensures Subtotal(AddToCart(cart, p, newId)) == Subtotal(cart) + p.price
  {
    var line := CartLine(newId, p.id, p.name, p.price, 1, p.price);
    assert AddToCart(cart, p, newId) == cart + [line];
    SubtotalAppend(cart, [line]);
    assert Subtotal([line]) == p.price;
  }


  /** `(subtotal * discountPercent) / 100`. */
  function DiscountAmount(subtotal: int, percent: int): (d: real)
    ensures subtotal >= 0 && 0 <= percent <= 100 ==> 0.0 <= d <= subtotal as real
    ensures percent == 0 ==> d == 0.0
  {
    (subtotal as real * percent as real) / 100.0
  }

  /** `subtotal - discountAmount`. */
  function Total(subtotal: int, percent: int): (t: real)
    ensures subtotal >= 0 && 0 <= percent <= 100 ==> 0.0 <= t <= subtotal as real
    ensures t + DiscountAmount(subtotal, percent) == subtotal as real
  {
    subtotal as real - DiscountAmount(subtotal, percent)
  }

  /** The percent button: 0 becomes 10, anything else becomes 0. */
  function ToggleDiscount(percent: int): (r: int)
    ensures percent == 0 <==> r == 10
    ensures r == 0 || r == 10
  {
    if percent == 0 then 10 else 0
  }

  /** The discount after `n` presses of the button. */
  function Presses(percent: int, n: nat): int
    decreases n
  {
    if n == 0 then percent else Presses(ToggleDiscount(percent), n - 1)
  }

  /** From the initial 0%, the discount is always 0% or 10%, and an even
      number of presses restores it. */
  lemma {:induction false} DiscountStaysInRange(percent: int, n: nat)
    requires percent == 0 || percent == 10
    ensures Presses(percent, n) == 0 || Presses(percent, n) == 10
    ensures n % 2 == 0 <==> Presses(percent, n) == percent
    decreases n
  {
    if n > 0 {
      DiscountStaysInRange(ToggleDiscount(percent), n - 1);
    }
  }

  /** Whatever the cart holds, the total shown lies between zero and the
      subtotal. */
  lemma TotalWithinSubtotal(cart: seq<CartLine>, percent: int)
    requires ValidCart(cart)
    requires percent == 0 || percent == 10
    ensures 0.0 <= Total(Subtotal(cart), percent) <= Subtotal(cart) as real
  {
    assert forall i :: 0 <= i < |cart| ==> cart[i].total >= 0 by {
      forall i | 0 <= i < |cart| ensures cart[i].total >= 0 {
        assert cart[i].quantity >= 1 && cart[i].price >= 0;
      }
    }
  }

  /** The screen's state. */
  datatype PosState = PosState(searchTerm: string, cart: seq<CartLine>, activeCategory: string,
                               selectedCustomer: string, discountPercent: int, paymentMethod: string)

  function InitialPos(): (s: PosState)
    ensures s.cart == [] && s.discountPercent == 0 && s.paymentMethod == "cash"
    ensures s.selectedCustomer == "" && s.searchTerm == "" && s.activeCategory == "all"
  {
    PosState("", [], "all", "", 0, "cash")
  }

  /** `handleCheckout`: the sale is cleared; the search and the tab stay. */
  function Checkout(s: PosState): (r: PosState)
    ensures r.cart == [] && r.discountPercent == 0 && r.paymentMethod == "cash" && r.selectedCustomer == ""
    ensures r.searchTerm == s.searchTerm && r.activeCategory == s.activeCategory
  {
    s.(cart := [], discountPercent := 0, paymentMethod := "cash", selectedCustomer := "")
  }

  /** The Pay and Receipt buttons are enabled only with something in the
      cart. */
  function CanPay(s: PosState): (enabled: bool)
    ensures enabled <==> |s.cart| > 0
  {
    |s.cart| != 0
  }

  /** Checkout brings the sale back to the opening state, so paying is
      disabled until a product is added; adding one enables it. */
  lemma CheckoutThenAdd(s: PosState, p: Product, newId: string)
    ensures Checkout(s) == InitialPos().(searchTerm := s.searchTerm, activeCategory := s.activeCategory)
    ensures !CanPay(Checkout(s))
    ensures CanPay(Checkout(s).(cart := AddToCart(Checkout(s).cart, p, newId)))
  {
  }
}
