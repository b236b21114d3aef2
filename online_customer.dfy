/** The on-line shop: a cart of line items, adding a searched product to it, editing a line,
    the cart totals, the main menu, and checkout over the database connection. */
module OnlineCustomer {
  import opened Objects
  import opened Database
  import opened ProductSearch

  // ---------------------------------------------------------------------------------------
  // The cart

  /** What every cart line keeps: a quantity in [1, maxQty], and one line per product. */
  predicate ValidCart(cart: seq<CartItem>)
  {
    && (forall i :: 0 <= i < |cart| ==> 1 <= cart[i].qty <= cart[i].maxQty)
    && (forall i, j :: 0 <= i < j < |cart| ==> cart[i].productId != cart[j].productId)
  }

  /** The first line for `productId` (the stream filter and findFirst in showAvailability). */
  function FindItem(cart: seq<CartItem>, productId: int): (r: Option<nat>)
    ensures r.Some? ==> r.value < |cart| && cart[r.value].productId == productId
    ensures r.Some? ==> forall j :: 0 <= j < r.value ==> cart[j].productId != productId
    ensures r.None? ==> forall j :: 0 <= j < |cart| ==> cart[j].productId != productId
  {
    if cart == [] then None
    else if cart[0].productId == productId then Some(0)
    else match FindItem(cart[1..], productId)
      case None => None
      case Some(k) => Some(k + 1)
  }

  /** An answer to a number prompt bounded by [lo, hi]; any other answer never reaches the cart. */
  predicate InRange(answer: int, lo: int, hi: int)
  {
    lo <= answer <= hi
  }

  /** editItem with an accepted new quantity: 0 removes line `i`, anything else replaces its
      quantity. */
  function Edit(cart: seq<CartItem>, i: nat, newQty: int): (r: seq<CartItem>)
    requires i < |cart|
    ensures newQty == 0 ==> |r| == |cart| - 1
    ensures newQty == 0 ==> forall j :: 0 <= j < i ==> r[j] == cart[j]
    ensures newQty == 0 ==> forall j :: i <= j < |r| ==> r[j] == cart[j + 1]
    ensures newQty != 0 ==> |r| == |cart| && r[i].qty == newQty
    ensures newQty != 0 ==> r[i] == CartItem(cart[i].productId, cart[i].productName, newQty, cart[i].maxQty, cart[i].unitPrice)
    ensures newQty != 0 ==> forall j :: 0 <= j < |cart| && j != i ==> r[j] == cart[j]
  {
    if newQty == 0 then cart[..i] + cart[i + 1..] else cart[i := cart[i].(qty := newQty)]
  }

  /** Editing with an answer in [0, maxQty] keeps the cart valid. */
  lemma EditPreservesValid(cart: seq<CartItem>, i: nat, newQty: int)
    requires ValidCart(cart) && i < |cart| && InRange(newQty, 0, cart[i].maxQty)
    ensures ValidCart(Edit(cart, i, newQty))
  {
    var r := Edit(cart, i, newQty);
    if newQty == 0 {
      forall a, b | 0 <= a < b < |r| ensures r[a].productId != r[b].productId {
        var a' := if a < i then a else a + 1;
        var b' := if b < i then b else b + 1;
        assert r[a] == cart[a'] && r[b] == cart[b'] && a' < b';
      }
    }
  }

  /** Removing a line leaves no line for its product. */
  lemma EditToZeroRemovesProduct(cart: seq<CartItem>, i: nat)
    requires ValidCart(cart) && i < |cart|
    ensures FindItem(Edit(cart, i, 0), cart[i].productId) == None
  {
    var r := Edit(cart, i, 0);
    forall j | 0 <= j < |r| ensures r[j].productId != cart[i].productId {
      if j >= i { assert r[j] == cart[j + 1]; }
    }
  }

  /** The line added for a product that is not yet in the cart (CartItem(stock, wanted)). */
  function NewItem(prod: Product, stock: Stock, wanted: int): (item: CartItem)
    ensures item.productId == prod.id && item.qty == wanted
    ensures item.maxQty == stock.qty && item.unitPrice == stock.unitPrice
  {
    CartItem(prod.id, prod.name, wanted, stock.qty, stock.unitPrice)
  }

  /** The cart after showAvailability(prod): a product already in the cart goes to editItem; a
      product without stock rows, a cancelled request (0) or an answer outside [0, stock qty]
      leaves the cart as it is; otherwise one new line is appended. `stock` is None when the
      stock query returns no row; `answer` is the user's answer to the quantity prompt. */
  function AfterAvailability(cart: seq<CartItem>, prod: Product, stock: Option<Stock>, answer: int): seq<CartItem>
  {
    match FindItem(cart, prod.id)
    case Some(k) => if InRange(answer, 0, cart[k].maxQty) then Edit(cart, k, answer) else cart
    case None =>
      if stock.None? || !InRange(answer, 0, stock.value.qty) || answer == 0 then cart
      else cart + [NewItem(prod, stock.value, answer)]
  }

  /** A product already in the cart is never added a second time: its line is edited instead. */
  lemma AvailabilityRoutesToEdit(cart: seq<CartItem>, prod: Product, stock: Option<Stock>, answer: int)
    requires FindItem(cart, prod.id).Some?
    ensures var k := FindItem(cart, prod.id).value;
      AfterAvailability(cart, prod, stock, answer) ==
        if InRange(answer, 0, cart[k].maxQty) then Edit(cart, k, answer) else cart
    ensures |AfterAvailability(cart, prod, stock, answer)| <= |cart|
  {
  }

  /** For a new product: no stock, a 0 answer or an answer outside [0, stock qty] leaves the
      cart unchanged; an answer in [1, stock qty] appends exactly the new line, at the end. */
  lemma AvailabilityAddsNewProduct(cart: seq<CartItem>, prod: Product, stock: Option<Stock>, answer: int)
    requires FindItem(cart, prod.id).None?
    ensures stock.None? || answer == 0 ==> AfterAvailability(cart, prod, stock, answer) == cart
    ensures stock.Some? && !InRange(answer, 0, stock.value.qty) ==> AfterAvailability(cart, prod, stock, answer) == cart
    ensures stock.Some? && 1 <= answer <= stock.value.qty ==>
      AfterAvailability(cart, prod, stock, answer) == cart + [NewItem(prod, stock.value, answer)]
    ensures var r := AfterAvailability(cart, prod, stock, answer);
      r == cart ||
      (stock.Some? && |r| == |cart| + 1 && r[..|cart|] == cart &&
       r[|cart|] == NewItem(prod, stock.value, answer) && 1 <= r[|cart|].qty <= stock.value.qty)
  {
  }

  /** showAvailability keeps the cart valid, in particular one line per product. */
  lemma AvailabilityPreservesValid(cart: seq<CartItem>, prod: Product, stock: Option<Stock>, answer: int)
    requires ValidCart(cart)
    ensures ValidCart(AfterAvailability(cart, prod, stock, answer))
  {
    match FindItem(cart, prod.id)
    case Some(k) =>
      if InRange(answer, 0, cart[k].maxQty) {
        EditPreservesValid(cart, k, answer);
      }
    case None =>
  }

  // ---------------------------------------------------------------------------------------
  // Totals

  /** The exact sum of the line quantities. */
  function SumQty(cart: seq<CartItem>): int
  {
    if cart == [] then 0 else SumQty(cart[..|cart| - 1]) + cart[|cart| - 1].qty
  }

  lemma {:induction false} SumQtyConcat(a: seq<CartItem>, b: seq<CartItem>)
    ensures SumQty(a + b) == SumQty(a) + SumQty(b)
  {
    if b == [] {
      assert a + b == a;
    } else {
      assert (a + b)[..|a + b| - 1] == a + b[..|b| - 1];
      SumQtyConcat(a, b[..|b| - 1]);
    }
  }

  /** Narrowing the left operand of an addition first does not change the narrowed sum. */
  lemma ToIntAddLeft(x: int, y: int)
    ensures ToInt(ToInt(x) + y) == ToInt(x + y)
  {
    var q := (x + 0x8000_0000) / 0x1_0000_0000;
    assert ToInt(x) == x - q * 0x1_0000_0000;
    var z := x + y + 0x8000_0000;
    assert (z - q * 0x1_0000_0000) / 0x1_0000_0000 == z / 0x1_0000_0000 - q;
  }

  /** Narrowing both operands of an addition first does not change the narrowed sum. */
  lemma ToIntAddBoth(x: int, y: int)
    ensures ToInt(ToInt(x) + ToInt(y)) == ToInt(x + y)
  {
    ToIntAddLeft(x, ToInt(y));
    ToIntAddLeft(y, x);
  }

  /** totalCartItems: the int stream sum of the quantities, which adds with Java int
      wrap-around. It is the exact sum narrowed to an int, and so the exact sum whenever that
      fits in an int. */
  function TotalCartItems(cart: seq<CartItem>): (r: int)
    ensures cart == [] ==> r == 0
    ensures IntMin <= r <= IntMax
    ensures r == ToInt(SumQty(cart))
    ensures IntMin <= SumQty(cart) <= IntMax ==> r == SumQty(cart)
  {
    if cart == [] then 0
    else
      var pre := cart[..|cart| - 1];
      ToIntAddLeft(SumQty(pre), cart[|cart| - 1].qty);
      ToInt(TotalCartItems(pre) + cart[|cart| - 1].qty)
  }

  /** The item count of two carts put together is the int sum of their counts. */
  lemma TotalCartItemsConcat(a: seq<CartItem>, b: seq<CartItem>)
    ensures TotalCartItems(a + b) == ToInt(TotalCartItems(a) + TotalCartItems(b))
  {
    SumQtyConcat(a, b);
    ToIntAddBoth(SumQty(a), SumQty(b));
  }

  /** totalCartPrice: the sum of the line totals, in cents. A line's total (CartItem.getTotal)
      is given by `itemTotal`. */
  function TotalCartPrice(cart: seq<CartItem>, itemTotal: CartItem -> int): (r: int)
    ensures cart == [] ==> r == 0
    ensures (forall i :: 0 <= i < |cart| ==> itemTotal(cart[i]) >= 0) ==> r >= 0
  {
    if cart == [] then 0 else TotalCartPrice(cart[..|cart| - 1], itemTotal) + itemTotal(cart[|cart| - 1])
  }

  /** The price total of a one-line cart is that line's total. */
  lemma TotalCartPriceSingle(x: CartItem, itemTotal: CartItem -> int)
    ensures TotalCartPrice([x], itemTotal) == itemTotal(x)
  {
  }

  lemma {:induction false} TotalCartPriceConcat(a: seq<CartItem>, b: seq<CartItem>, itemTotal: CartItem -> int)
    ensures TotalCartPrice(a + b, itemTotal) == TotalCartPrice(a, itemTotal) + TotalCartPrice(b, itemTotal)
  {
    if b == [] {
      assert a + b == a;
    } else {
      assert (a + b)[..|a + b| - 1] == a + b[..|b| - 1];
      TotalCartPriceConcat(a, b[..|b| - 1], itemTotal);
    }
  }

  /** The item count of a cart split around one line. */
  lemma SumQtySplit(pre: seq<CartItem>, x: CartItem, post: seq<CartItem>)
    ensures SumQty(pre + [x] + post) == SumQty(pre) + x.qty + SumQty(post)
  {
    SumQtyConcat(pre + [x], post);
    SumQtyConcat(pre, [x]);
    assert [x][..0] == [];
  }

  /** The item count of a cart split around line `i`. */
  lemma SumQtyAt(cart: seq<CartItem>, i: nat)
    requires i < |cart|
    ensures SumQty(cart) == SumQty(cart[..i]) + cart[i].qty + SumQty(cart[i + 1..])
  {
    assert cart == cart[..i] + [cart[i]] + cart[i + 1..];
    SumQtySplit(cart[..i], cart[i], cart[i + 1..]);
  }

  /** An edit as a concatenation around line `i`. */
  lemma EditAsConcat(cart: seq<CartItem>, i: nat, newQty: int)
    requires i < |cart|
    ensures newQty == 0 ==> Edit(cart, i, newQty) == cart[..i] + cart[i + 1..]
    ensures newQty != 0 ==> Edit(cart, i, newQty) == cart[..i] + [cart[i].(qty := newQty)] + cart[i + 1..]
  {
    if newQty != 0 {
      assert cart[i := cart[i].(qty := newQty)] == cart[..i] + [cart[i].(qty := newQty)] + cart[i + 1..];
    }
  }

  /** Editing a line's quantity changes the exact item count by the difference. */
  lemma EditChangesSumQty(cart: seq<CartItem>, i: nat, newQty: int)
    requires i < |cart|
    ensures SumQty(Edit(cart, i, newQty)) == SumQty(cart) - cart[i].qty + newQty
  {
    var pre, post := cart[..i], cart[i + 1..];
    SumQtyAt(cart, i);
    EditAsConcat(cart, i, newQty);
    if newQty == 0 {
      SumQtyConcat(pre, post);
    } else {
      SumQtySplit(pre, cart[i].(qty := newQty), post);
    }
  }

  /** The plural suffix `s(val)`: "s" for every count except 1. */
  function PluralSuffix(n: int): (r: string)
    ensures |r| <= 1
    ensures r == "" <==> n == 1
    ensures n != 1 ==> r == "s"
  {
    if n != 1 then "s" else ""
  }

  // ---------------------------------------------------------------------------------------
  // The main menu

  datatype MenuChoice = AddToCartChoice | EditCartChoice | CheckoutChoice

  /** The options showMenu offers: editing and checkout only for a non-empty cart. */
  function MenuOptions(cart: seq<CartItem>): (r: seq<MenuChoice>)
    ensures |r| >= 1 && r[0] == AddToCartChoice
    ensures EditCartChoice in r <==> cart != []
    ensures CheckoutChoice in r <==> cart != []
  {
    [AddToCartChoice] + if cart != [] then [EditCartChoice, CheckoutChoice] else []
  }

  // ---------------------------------------------------------------------------------------
  // Checkout

  /** The purchase_product call made for one line. */
  function PurchaseFor(item: CartItem): Event
  {
    Purchase(item.productId, item.qty, item.unitPrice)
  }

  /** One purchase_product call per line, in cart order. */
  function PurchaseCalls(items: seq<CartItem>): (r: seq<Event>)
    ensures |r| == |items|
    ensures forall k :: 0 <= k < |items| ==> r[k] == PurchaseFor(items[k])
  {
    if items == [] then [] else PurchaseCalls(items[..|items| - 1]) + [PurchaseFor(items[|items| - 1])]
  }

  /** The calls for one more line. */
  lemma PurchaseCallsExtend(items: seq<CartItem>, i: nat)
    requires i < |items|
    ensures PurchaseCalls(items[..i + 1]) == PurchaseCalls(items[..i]) + [PurchaseFor(items[i])]
  {
    assert items[..i + 1][..i] == items[..i];
  }

  /** The calls checkout makes after confirmation. With `failedAt` None every purchase returned
      and the transaction is rolled back; with Some(k) the k-th purchase threw, and the calls
      stop there (the exception handler restores nothing). */
  function CheckoutLog(cart: seq<CartItem>, failedAt: Option<nat>): seq<Event>
    requires failedAt.Some? ==> failedAt.value < |cart|
  {
    match failedAt
    case None => [AutoCommitSet(false)] + PurchaseCalls(cart) + [RolledBack, AutoCommitSet(true)]
    case Some(k) => [AutoCommitSet(false)] + PurchaseCalls(cart[..k + 1])
  }

  /** On the normal path: auto-commit off, one call per line in order with that line's
      product, quantity and price, then one rollback and auto-commit on again. */
  lemma CheckoutCallsEveryLineInOrder(cart: seq<CartItem>)
    ensures var log := CheckoutLog(cart, None);
      && |log| == |cart| + 3
      && log[0] == AutoCommitSet(false)
      && (forall k :: 0 <= k < |cart| ==>
            log[k + 1] == Purchase(cart[k].productId, cart[k].qty, cart[k].unitPrice))
      && log[|cart| + 1] == RolledBack
      && log[|cart| + 2] == AutoCommitSet(true)
  {
    var log := CheckoutLog(cart, None);
    forall k | 0 <= k < |cart|
      ensures log[k + 1] == Purchase(cart[k].productId, cart[k].qty, cart[k].unitPrice)
    {
      assert log[k + 1] == PurchaseCalls(cart)[k];
    }
  }

  /** Checkout never commits; it rolls back exactly once on the normal path and not at all when
      a purchase threw. */
  lemma CheckoutNeverCommits(cart: seq<CartItem>, failedAt: Option<nat>)
    requires failedAt.Some? ==> failedAt.value < |cart|
    ensures Count(CheckoutLog(cart, failedAt), Committed) == 0
    ensures Count(CheckoutLog(cart, failedAt), RolledBack) == if failedAt.None? then 1 else 0
  {
    var items := if failedAt.None? then cart else cart[..failedAt.value + 1];
    var calls := PurchaseCalls(items);
    assert Committed !in calls && RolledBack !in calls by {
      forall k | 0 <= k < |calls| ensures calls[k].Purchase? { }
    }
    CountConcat([AutoCommitSet(false)], calls, Committed);
    CountConcat([AutoCommitSet(false)], calls, RolledBack);
    if failedAt.None? {
      var tail := [RolledBack, AutoCommitSet(true)];
      CountConcat([AutoCommitSet(false)] + calls, tail, Committed);
      CountConcat([AutoCommitSet(false)] + calls, tail, RolledBack);
    }
  }

  /** Exactly one purchase call per line reached: all lines on the normal path, the lines up to
      the failing one otherwise. */
  lemma CheckoutPurchaseCount(cart: seq<CartItem>, failedAt: Option<nat>)
    requires failedAt.Some? ==> failedAt.value < |cart|
    ensures PurchaseCount(CheckoutLog(cart, failedAt)) == if failedAt.None? then |cart| else failedAt.value + 1
  {
    var items := if failedAt.None? then cart else cart[..failedAt.value + 1];
    PurchaseCallsCount(items);
    PurchaseCountConcat([AutoCommitSet(false)], PurchaseCalls(items));
    if failedAt.None? {
      PurchaseCountConcat([AutoCommitSet(false)] + PurchaseCalls(items), [RolledBack, AutoCommitSet(true)]);
    }
  }

  lemma {:induction false} PurchaseCallsCount(items: seq<CartItem>)
    ensures PurchaseCount(PurchaseCalls(items)) == |items|
  {
    if items != [] {
      PurchaseCallsCount(items[..|items| - 1]);
      PurchaseCountConcat(PurchaseCalls(items[..|items| - 1]), [PurchaseFor(items[|items| - 1])]);
    }
  }

  /** Auto-commit is off during every purchase call; afterwards it is on again on the normal
      path and still off after a failed purchase. */
  lemma CheckoutAutoCommit(initial: bool, cart: seq<CartItem>, failedAt: Option<nat>)
    requires failedAt.Some? ==> failedAt.value < |cart|
    ensures var log := CheckoutLog(cart, failedAt);
      forall j :: 0 <= j < |log| && log[j].Purchase? ==> !AutoCommitAfter(initial, log[..j])
    ensures AutoCommitAfter(initial, CheckoutLog(cart, failedAt)) == failedAt.None?
  {
    var log := CheckoutLog(cart, failedAt);
    var items := if failedAt.None? then cart else cart[..failedAt.value + 1];
    var calls := PurchaseCalls(items);
    assert log[..|calls| + 1] == [AutoCommitSet(false)] + calls;
    forall j | 0 <= j < |log| && log[j].Purchase? ensures !AutoCommitAfter(initial, log[..j]) {
      assert 1 <= j <= |calls|;
      assert log[..j] == [AutoCommitSet(false)] + calls[..j - 1];
      AutoCommitAfterConcat(initial, [AutoCommitSet(false)], calls[..j - 1]);
      AutoCommitAfterUntouched(false, calls[..j - 1]);
    }
    if failedAt.Some? {
      AutoCommitAfterConcat(initial, [AutoCommitSet(false)], calls);
      AutoCommitAfterUntouched(false, calls);
    }
  }

  class OnlineCustomerInterface {
    /** The cart, in insertion order. */
    var cart: seq<CartItem>
    /** The database connection the checkout runs on. */
    const db: Connection

    ghost predicate Valid()
      reads this
    {
      ValidCart(cart)
    }

    /** A new session starts with an empty cart. */
    constructor (db: Connection)
      ensures Valid() && cart == [] && this.db == db
    {
      this.db := db;
      cart := [];
    }

    /** editItem(cart[i]): `answer` is the user's reply to "Enter new quantity (0 to remove)",
        which only accepts [0, maxQty]. */
    method EditItem(i: nat, answer: int) returns (accepted: bool)
      requires Valid() && i < |cart|
      modifies this
      ensures Valid()
      ensures accepted <==> InRange(answer, 0, old(cart)[i].maxQty)
      ensures cart == if accepted then Edit(old(cart), i, answer) else old(cart)
    {
      accepted := InRange(answer, 0, cart[i].maxQty);
      if !accepted {
        return;
      }
      EditPreservesValid(cart, i, answer);
      var newQty := answer;
      if newQty == 0 {
        cart := cart[..i] + cart[i + 1..];
      } else {
        cart := cart[i := cart[i].(qty := newQty)];
      }
    }

    /** editCart: the user picks a line (None when the menu is left) and edits it. */
    method EditCart(choice: Option<nat>, answer: int)
      requires Valid() && (choice.Some? ==> choice.value < |cart|)
      modifies this
      ensures Valid()
      ensures cart == match choice
        case None => old(cart)
        case Some(i) => if InRange(answer, 0, old(cart)[i].maxQty) then Edit(old(cart), i, answer) else old(cart)
    {
      if choice.Some? {
        var _ := EditItem(choice.value, answer);
      }
    }

    /** showAvailability(prod). */
    method ShowAvailability(prod: Product, stock: Option<Stock>, answer: int)
      requires Valid()
      modifies this
      ensures Valid()
      ensures cart == AfterAvailability(old(cart), prod, stock, answer)
    {
      AvailabilityPreservesValid(cart, prod, stock, answer);
      var item := FindItem(cart, prod.id);
      if item.Some? {
        var _ := EditItem(item.value, answer);
        return;
      }
      if stock.None? {
        return;
      }
      var wanted := answer;
      if !InRange(wanted, 0, stock.value.qty) || wanted == 0 {
        return;
      }
      cart := cart + [NewItem(prod, stock.value, wanted)];
    }

    /** productSearch: runs a fresh search screen and, when it chose a product, shows that
        product's availability. */
    method SearchProduct(rounds: seq<Round>, stock: Option<Stock>, answer: int)
      requires Valid() && ValidRounds(rounds)
      modifies this
      ensures Valid()
      ensures cart == match RunResult(SearchState(None, []), rounds).state.chosen
        case None => old(cart)
        case Some(p) => AfterAvailability(old(cart), p, stock, answer)
    {
      var search := new ProductSearchInterface();
      var _ := search.Run(rounds);
      if search.chosenProduct.Some? {
        ShowAvailability(search.chosenProduct.value, stock, answer);
      }
    }

    /** checkout. `confirmed` is the answer to "Are you sure you would like to checkout?".
        The returned index is the line whose purchase_product call threw, if one did. The menu
        only offers checkout for a non-empty cart. */
    method Checkout(confirmed: bool) returns (failedAt: Option<nat>)
      requires Valid() && cart != []
      modifies db
      ensures Valid() && cart == old(cart)
      ensures !confirmed ==> failedAt == None && db.log == old(db.log) && db.autoCommit == old(db.autoCommit)
      ensures failedAt.Some? ==> failedAt.value < |cart|
      ensures confirmed ==> db.log == old(db.log) + CheckoutLog(cart, failedAt)
      ensures confirmed ==> db.autoCommit == failedAt.None?
    {
      if !confirmed {
        return None;
      }
      db.SetAutoCommit(false);
      ghost var start := db.log;
      var i := 0;
      while i < |cart|
        invariant 0 <= i <= |cart|
        invariant !db.autoCommit
        invariant db.log == start + PurchaseCalls(cart[..i])
      {
        var item := cart[i];
        ghost var before := db.log;
        var result := db.PurchaseProduct(item.productId, item.qty, item.unitPrice);
        PurchaseCallsExtend(cart, i);
        assert db.log == start + PurchaseCalls(cart[..i + 1]) by {
          assert db.log == before + [PurchaseFor(item)];
        }
        if result.Failed? {
          // The exception handler only prints the stack trace.
          assert db.log == old(db.log) + CheckoutLog(cart, Some(i));
          return Some(i);
        }
        i := i + 1;
      }
      assert cart[..i] == cart;
      // `problem` is fixed to true in the source, so the commit branch never runs.
      db.Rollback();
      db.SetAutoCommit(true);
      failedAt := None;
    }
  }
}
