/**
 * placeOrder and checkout. One placement takes stock, writes an order with its lines, records the key with the
 * answer and leaves an event; one purchase moves stock and balance. A failure leaves every table as it was; request
 * hashes are injective, so a record stores the request itself.
 */
module Shop {
  import opened Common

  const MAX_INT4: int := 0x7fff_ffff

  datatype Product = Product(price: nat, stock: nat, active: bool)
  datatype Item = Item(product: nat, quantity: int)
  datatype Request = Request(user: nat, items: seq<Item>, country: string)
  datatype Line = Line(product: nat, quantity: int, unitPrice: nat, lineTotal: int)

  /** Checkout orders were paid from the balance, placed ones were not. */
  datatype Order = Order(user: nat, country: string, lines: seq<Line>, total: int, debited: bool)

  datatype Body = Body(orderId: nat, lines: seq<Line>, total: int)
  datatype Record = Record(request: Request, body: Body)

  datatype Db = Db(
    products: map<nat, Product>,
    balances: map<nat, nat>,         // users, with their balance
    orders: map<nat, Order>,
    records: map<string, Record>,
    outbox: map<nat, nat>,           // event id to order id
    jobs: set<nat>)                  // orders with a receipt job

  datatype Failure = NotFound(product: nat) | InsufficientStock(product: nat) | InsufficientFunds | ConstraintViolated

  datatype Answer = Created(body: Body) | Replayed(body: Body) | KeyReused | Failed(failure: Failure)

  datatype Taken = Taken(products: map<nat, Product>, lines: seq<Line>) | Refused(failure: Failure)

  // ---- Sorting: the stable lock order ----

  function Insert(item: Item, sorted: seq<Item>): seq<Item> {
    if sorted == [] || item.product <= sorted[0].product then [item] + sorted
    else [sorted[0]] + Insert(item, sorted[1..])
  }

  /** Stable: equal products keep the order of the request. */
  function SortItems(items: seq<Item>): seq<Item> {
    if items == [] then [] else Insert(items[0], SortItems(items[1..]))
  }

  ghost predicate Ascending(items: seq<Item>) {
    forall i, j :: 0 <= i < j < |items| ==> items[i].product <= items[j].product
  }

  lemma {:induction false} InsertSorts(item: Item, sorted: seq<Item>)
    requires Ascending(sorted)
    ensures Ascending(Insert(item, sorted))
    ensures multiset(Insert(item, sorted)) == multiset{item} + multiset(sorted)
  {
    if sorted != [] && item.product > sorted[0].product {
      InsertSorts(item, sorted[1..]);
      assert sorted == [sorted[0]] + sorted[1..];
      PrependKeepsOrder(sorted[0], item, sorted[1..], Insert(item, sorted[1..]));
    }
  }

  lemma PrependKeepsOrder(first: Item, item: Item, tail: seq<Item>, rest: seq<Item>)
    requires Ascending(rest) && multiset(rest) == multiset{item} + multiset(tail)
    requires first.product <= item.product && forall k :: 0 <= k < |tail| ==> first.product <= tail[k].product
    ensures Ascending([first] + rest)
  {
    forall k | 0 <= k < |rest| ensures first.product <= rest[k].product {
      assert rest[k] in multiset(rest);
      assert rest[k] == item || rest[k] in tail;
    }
  }

  lemma {:induction false} SortSorts(items: seq<Item>)
    ensures Ascending(SortItems(items)) && multiset(SortItems(items)) == multiset(items)
  {
    if items != [] {
      SortSorts(items[1..]);
      InsertSorts(items[0], SortItems(items[1..]));
      assert items == [items[0]] + items[1..];
    }
  }

  // ---- The order transaction ----

  /** UPDATE products SET stock = stock - q WHERE id = p AND is_active AND stock >= q, and the diagnosis when no row matched. */
  function TakeOne(products: map<nat, Product>, item: Item): Taken {
    if item.product !in products || !products[item.product].active then Refused(NotFound(item.product))
    else
      var p := products[item.product];
      if p.stock < item.quantity then Refused(InsufficientStock(item.product))
      else Taken(products[item.product := p.(stock := p.stock - item.quantity)],
                 [Line(item.product, item.quantity, p.price, p.price * item.quantity)])
  }

  function TakeAll(products: map<nat, Product>, items: seq<Item>): Taken
    decreases |items|
  {
    if items == [] then Taken(products, [])
    else
      match TakeAll(products, items[..|items| - 1])
      case Refused(failure) => Refused(failure)
      case Taken(left, lines) =>
        match TakeOne(left, items[|items| - 1])
        case Refused(failure) => Refused(failure)
        case Taken(left', line) => Taken(left', lines + line)
  }

  function TotalOf(lines: seq<Line>): int {
    if lines == [] then 0 else TotalOf(lines[..|lines| - 1]) + lines[|lines| - 1].lineTotal
  }

  ghost predicate DistinctProducts(lines: seq<Line>) {
    forall i, j :: 0 <= i < j < |lines| ==> lines[i].product != lines[j].product
  }

  /** The schema's checks: user exists, quantities in 1..100, one line per product, totals within int4. */
  ghost predicate RowsAllowed(db: Db, user: nat, lines: seq<Line>) {
    && user in db.balances
    && 0 <= TotalOf(lines) <= MAX_INT4
    && (forall i :: 0 <= i < |lines| ==> 1 <= lines[i].quantity <= 100)
    && DistinctProducts(lines)
  }

  ghost function WhyNot(db: Db, request: Request): Option<Failure> {
    match TakeAll(db.products, SortItems(request.items))
    case Refused(failure) => Some(failure)
    case Taken(_, lines) => if RowsAllowed(db, request.user, lines) then None else Some(ConstraintViolated)
  }

  ghost function Placed(db: Db, request: Request, orderId: nat): (Db, Body)
    requires WhyNot(db, request).None?
  {
    var taken := TakeAll(db.products, SortItems(request.items));
    var total := TotalOf(taken.lines);
    (db.(products := taken.products,
         orders := db.orders[orderId := Order(request.user, request.country, taken.lines, total, false)]),
     Body(orderId, taken.lines, total))
  }

  // ---- Which orders can be filled ----

  predicate ItemFits(products: map<nat, Product>, item: Item) {
    && item.product in products && products[item.product].active
    && 1 <= item.quantity <= 100 && item.quantity <= products[item.product].stock
  }

  ghost predicate AllFit(products: map<nat, Product>, items: seq<Item>) {
    forall item :: item in items ==> ItemFits(products, item)
  }

  ghost predicate DistinctItems(items: seq<Item>) {
    forall i, j :: 0 <= i < j < |items| ==> items[i].product != items[j].product
  }

  function PriceOf(products: map<nat, Product>, product: nat): nat {
    if product in products then products[product].price else 0
  }

  function LinesFor(products: map<nat, Product>, items: seq<Item>): seq<Line> {
    seq(|items|, i requires 0 <= i < |items| =>
      Line(items[i].product, items[i].quantity, PriceOf(products, items[i].product),
           PriceOf(products, items[i].product) * items[i].quantity))
  }

  /** What a caller can check on the tables and the request as sent, without running anything. */
  ghost predicate CanFill(db: Db, request: Request) {
    && request.user in db.balances
    && AllFit(db.products, request.items)
    && DistinctItems(request.items)
    && TotalOf(LinesFor(db.products, request.items)) <= 0x7fff_ffff
  }

  /** The transaction succeeds on exactly the requests that can be filled; the order of the items is irrelevant. */
  lemma FilledIff(db: Db, request: Request)
    ensures WhyNot(db, request).None? <==> CanFill(db, request)
    ensures CanFill(db, request) ==> TakeAll(db.products, SortItems(request.items)).lines == LinesFor(db.products, SortItems(request.items))
  {
    var sorted := SortItems(request.items);
    SortSorts(request.items);
    SameElements(sorted, request.items);
    SortKeepsDistinct(request.items);
    SortKeepsTotal(db.products, request.items);
    SortedFilledIff(db, request.user, sorted);
  }

  lemma SortedFilledIff(db: Db, user: nat, items: seq<Item>)
    ensures TakeAll(db.products, items).Taken? && RowsAllowed(db, user, TakeAll(db.products, items).lines) <==>
              && user in db.balances && AllFit(db.products, items) && DistinctItems(items)
              && TotalOf(LinesFor(db.products, items)) <= MAX_INT4
    ensures TakeAll(db.products, items).Taken? ==> TakeAll(db.products, items).lines == LinesFor(db.products, items)
  {
    FitsSplits(db.products, items);
    LinesAllowed(db, user, items);
    TotalIsNonNegative(db.products, items);
    if TakeAll(db.products, items).Taken? {
      TakenLines(db.products, items);
    }
    if DistinctItems(items) {
      DistinctTake(db.products, items);
    }
  }

  predicate InRange(items: seq<Item>) {
    forall i :: 0 <= i < |items| ==> 1 <= items[i].quantity <= 100
  }

  predicate AllStocked(products: map<nat, Product>, items: seq<Item>) {
    forall i :: 0 <= i < |items| ==> StockFits(products, items[i])
  }

  lemma FitsSplits(products: map<nat, Product>, items: seq<Item>)
    ensures AllFit(products, items) <==> AllStocked(products, items) && InRange(items)
  {
    if AllFit(products, items) {
      assert forall i :: 0 <= i < |items| ==> ItemFits(products, items[i]);
    }
  }

  lemma LinesAllowed(db: Db, user: nat, items: seq<Item>)
    ensures RowsAllowed(db, user, LinesFor(db.products, items)) <==>
              && user in db.balances && 0 <= TotalOf(LinesFor(db.products, items)) <= MAX_INT4
              && InRange(items) && DistinctItems(items)
  {
    var lines := LinesFor(db.products, items);
    assert forall i :: 0 <= i < |items| ==> lines[i].quantity == items[i].quantity && lines[i].product == items[i].product;
  }

  lemma {:induction false} TotalIsNonNegative(products: map<nat, Product>, items: seq<Item>)
    ensures InRange(items) ==> TotalOf(LinesFor(products, items)) >= 0
    decreases |items|
  {
    if items != [] {
      var init, last := items[..|items| - 1], items[|items| - 1];
      TotalIsNonNegative(products, init);
      assert LinesFor(products, items)[..|items| - 1] == LinesFor(products, init);
      assert last.quantity >= 0 ==> PriceOf(products, last.product) * last.quantity >= 0;
    }
  }

  /** Whatever is taken is taken at the listed price, line for line. */
  lemma {:induction false} TakenLines(products: map<nat, Product>, items: seq<Item>)
    requires TakeAll(products, items).Taken?
    ensures TakeAll(products, items).lines == LinesFor(products, items)
    ensures var left := TakeAll(products, items).products;
            && left.Keys == products.Keys
            && forall p :: p in products ==> left[p].price == products[p].price && left[p].active == products[p].active
    decreases |items|
  {
    if items != [] {
      TakenLines(products, items[..|items| - 1]);
    }
  }

  /** With one item per product every item meets the stock the transaction started with. */
  lemma {:induction false} DistinctTake(products: map<nat, Product>, items: seq<Item>)
    requires DistinctItems(items)
    ensures TakeAll(products, items).Taken? <==> AllStocked(products, items)
    ensures TakeAll(products, items).Taken? ==>
              forall p :: p in products && (forall i :: 0 <= i < |items| ==> items[i].product != p) ==>
                p in TakeAll(products, items).products && TakeAll(products, items).products[p] == products[p]
    decreases |items|
  {
    if items != [] {
      var init, last := items[..|items| - 1], items[|items| - 1];
      DistinctTake(products, init);
      if TakeAll(products, init).Taken? {
        TakenLines(products, init);
        assert last.product in products ==> TakeAll(products, init).products[last.product] == products[last.product];
      }
    }
  }

  predicate StockFits(products: map<nat, Product>, item: Item) {
    item.product in products && products[item.product].active && item.quantity <= products[item.product].stock
  }

  lemma ConsDistinct(first: Item, rest: seq<Item>)
    ensures DistinctItems([first] + rest) <==> DistinctItems(rest) && forall x :: x in rest ==> x.product != first.product
  {
    var all := [first] + rest;
    if DistinctItems(all) {
      forall i, j | 0 <= i < j < |rest| ensures rest[i].product != rest[j].product {
        assert all[i + 1].product != all[j + 1].product;
      }
      forall x | x in rest ensures x.product != first.product {
        var k :| 0 <= k < |rest| && rest[k] == x;
        assert all[0].product != all[k + 1].product;
      }
    }
  }

  lemma {:induction false} SortKeepsDistinct(items: seq<Item>)
    ensures DistinctItems(SortItems(items)) <==> DistinctItems(items)
  {
    if items != [] {
      SortKeepsDistinct(items[1..]);
      SortSorts(items[1..]);
      InsertKeepsDistinct(items[0], SortItems(items[1..]));
      SameElements(SortItems(items[1..]), items[1..]);
      assert items == [items[0]] + items[1..];
      ConsDistinct(items[0], items[1..]);
      ConsDistinct(items[0], SortItems(items[1..]));
    }
  }

  lemma SameElements(a: seq<Item>, b: seq<Item>)
    requires multiset(a) == multiset(b)
    ensures forall x :: x in a <==> x in b
  {
    forall x ensures x in a <==> x in b {
      assert x in a <==> x in multiset(a);
    }
  }

  lemma {:induction false} InsertKeepsDistinct(item: Item, sorted: seq<Item>)
    ensures DistinctItems(Insert(item, sorted)) <==> DistinctItems([item] + sorted)
    ensures forall x :: x in Insert(item, sorted) <==> x == item || x in sorted
  {
    if sorted != [] && item.product > sorted[0].product {
      var first, tail := sorted[0], sorted[1..];
      InsertKeepsDistinct(item, tail);
      assert sorted == [first] + tail;
      ConsDistinct(first, Insert(item, tail));
      ConsDistinct(first, tail);
      ConsDistinct(item, tail);
      ConsDistinct(item, sorted);
    }
  }

  lemma {:induction false} SortKeepsTotal(products: map<nat, Product>, items: seq<Item>)
    ensures TotalOf(LinesFor(products, SortItems(items))) == TotalOf(LinesFor(products, items))
  {
    if items != [] {
      SortKeepsTotal(products, items[1..]);
      InsertKeepsTotal(products, items[0], SortItems(items[1..]));
      assert items == [items[0]] + items[1..];
      TotalOfCons(products, items[0], items[1..]);
    }
  }

  lemma {:induction false} InsertKeepsTotal(products: map<nat, Product>, item: Item, sorted: seq<Item>)
    ensures TotalOf(LinesFor(products, Insert(item, sorted))) ==
            PriceOf(products, item.product) * item.quantity + TotalOf(LinesFor(products, sorted))
  {
    if sorted == [] || item.product <= sorted[0].product {
      TotalOfCons(products, item, sorted);
    } else {
      InsertKeepsTotal(products, item, sorted[1..]);
      TotalOfCons(products, sorted[0], Insert(item, sorted[1..]));
      TotalOfCons(products, sorted[0], sorted[1..]);
      assert sorted == [sorted[0]] + sorted[1..];
    }
  }

  lemma {:induction false} TotalOfCons(products: map<nat, Product>, item: Item, rest: seq<Item>)
    ensures TotalOf(LinesFor(products, [item] + rest)) ==
            PriceOf(products, item.product) * item.quantity + TotalOf(LinesFor(products, rest))
    decreases |rest|
  {
    var all := LinesFor(products, [item] + rest);
    if rest == [] {
      assert all[..0] == [];
    } else {
      var init := rest[..|rest| - 1];
      TotalOfCons(products, item, init);
      assert all[..|all| - 1] == LinesFor(products, [item] + init);
      assert LinesFor(products, rest)[..|rest| - 1] == LinesFor(products, init);
    }
  }

  // ---- What a filled order costs and takes ----

  /** The catalogue price of a list of items. */
  function PriceSum(products: map<nat, Product>, items: seq<Item>): int {
    if items == [] then 0
    else (if items[0].product in products then products[items[0].product].price else 0) * items[0].quantity
         + PriceSum(products, items[1..])
  }

  lemma {:induction false} TotalIsPriceSum(products: map<nat, Product>, items: seq<Item>)
    ensures TotalOf(LinesFor(products, items)) == PriceSum(products, items)
  {
    if items != [] {
      TotalIsPriceSum(products, items[1..]);
      TotalOfCons(products, items[0], items[1..]);
      assert items == [items[0]] + items[1..];
    }
  }

  /** One line per item, at its catalogue price, the amount being price times quantity. */
  ghost predicate LinesSay(products: map<nat, Product>, items: seq<Item>, lines: seq<Line>) {
    |lines| == |items| && forall i :: 0 <= i < |items| ==> LineSays(products, items[i], lines[i])
  }

  predicate LineSays(products: map<nat, Product>, item: Item, line: Line) {
    && item.product in products
    && line == Line(item.product, item.quantity, products[item.product].price, products[item.product].price * item.quantity)
  }

  /** Each item's stock goes down by its quantity; nothing else about any product changes. */
  ghost predicate StockTaken(products: map<nat, Product>, items: seq<Item>, left: map<nat, Product>) {
    && left.Keys == products.Keys
    && (forall i :: 0 <= i < |items| ==> ItemTaken(products, items[i], left))
    && (forall p :: p in products && (forall i :: 0 <= i < |items| ==> items[i].product != p) ==> left[p] == products[p])
  }

  predicate ItemTaken(products: map<nat, Product>, item: Item, left: map<nat, Product>) {
    && item.product in products && item.product in left && products[item.product].stock >= item.quantity
    && var p := products[item.product];
       left[item.product] == Product(p.price, p.stock - item.quantity, p.active)
  }

  lemma {:induction false} DistinctItemsTaken(products: map<nat, Product>, items: seq<Item>)
    requires DistinctItems(items) && TakeAll(products, items).Taken?
    ensures StockTaken(products, items, TakeAll(products, items).products)
    decreases |items|
  {
    if items != [] {
      var init, last := items[..|items| - 1], items[|items| - 1];
      DistinctItemsTaken(products, init);
      assert forall i :: 0 <= i < |init| ==> init[i].product != last.product;
      LastItemTaken(products, init, last, TakeAll(products, init).products);
      assert items == init + [last];
    }
  }

  lemma LastItemTaken(products: map<nat, Product>, init: seq<Item>, last: Item, before: map<nat, Product>)
    requires StockTaken(products, init, before) && (forall i :: 0 <= i < |init| ==> init[i].product != last.product)
    requires TakeOne(before, last).Taken?
    ensures StockTaken(products, init + [last], TakeOne(before, last).products)
  {
    var after, items := TakeOne(before, last).products, init + [last];
    assert before[last.product] == products[last.product];
    forall i | 0 <= i < |items| ensures ItemTaken(products, items[i], after) {
      if i < |init| {
        assert ItemTaken(products, init[i], before);
      }
    }
    forall p | p in products && (forall i :: 0 <= i < |items| ==> items[i].product != p) ensures after[p] == products[p] {
      assert items[|init|].product != p;
      assert forall i :: 0 <= i < |init| ==> init[i].product == items[i].product;
    }
  }

  /**
   * What a filled order writes: lines at catalogue prices, the total of the items as sent in the order row and in the
   * answer, and the stock of exactly those items.
   */
  ghost predicate OrderSays(was: Db, request: Request, orderId: nat, next: Db, body: Body) {
    && body.orderId == orderId && body.total == PriceSum(was.products, request.items)
    && LinesSay(was.products, SortItems(request.items), body.lines)
    && next.orders == was.orders[orderId := Order(request.user, request.country, body.lines, body.total, false)]
    && StockTaken(was.products, SortItems(request.items), next.products)
    && next.balances == was.balances && next.jobs == was.jobs
  }

  lemma PlacedSays(db: Db, request: Request, orderId: nat)
    requires CanFill(db, request)
    ensures WhyNot(db, request).None?
    ensures OrderSays(db, request, orderId, Placed(db, request, orderId).0, Placed(db, request, orderId).1)
  {
    var sorted := SortItems(request.items);
    FilledIff(db, request);
    SortKeepsTotal(db.products, request.items);
    TotalIsPriceSum(db.products, request.items);
    SortKeepsDistinct(request.items);
    DistinctItemsTaken(db.products, sorted);
    SortSorts(request.items);
    SameElements(sorted, request.items);
    var lines := LinesFor(db.products, sorted);
    forall i | 0 <= i < |sorted| ensures LineSays(db.products, sorted[i], lines[i]) {
      assert sorted[i] in request.items;
    }
  }

  // ---- The transaction as a whole ----

  /** `if (key)`: an absent and an empty key both mean no key. */
  predicate HasKey(key: Option<string>) {
    key.Some? && key.value != ""
  }

  datatype TxResult = Committed(db: Db, body: Body) | Conflict | RolledBack(failure: Failure)

  /** The whole transaction. Stock is taken before the key is claimed, so a stock failure wins over a conflict. */
  ghost function PlaceTx(db: Db, request: Request, key: Option<string>, orderId: nat, eventId: nat): TxResult {
    if WhyNot(db, request).Some? then RolledBack(WhyNot(db, request).value)
    else if HasKey(key) && key.value in db.records then Conflict
    else
      var (next, body) := Placed(db, request, orderId);
      Committed(next.(records := if HasKey(key) then next.records[key.value := Record(request, body)] else next.records,
                      outbox := next.outbox[eventId := orderId]), body)
  }

  function FindReplay(db: Db, key: string, request: Request): Option<Answer> {
    if key !in db.records then None
    else if db.records[key].request != request then Some(KeyReused)
    else Some(Replayed(db.records[key].body))
  }

  /**
   * A retry that raced past the first lookup while the original committed. The stored answer comes back if and
   * only if the order could be filled a second time from the tables as they are now.
   */
  lemma RacingRetryReplaysIff(db: Db, request: Request, key: string, orderId: nat, eventId: nat)
    requires key != "" && key in db.records
    ensures PlaceTx(db, request, Some(key), orderId, eventId).Conflict? <==> CanFill(db, request)
    ensures !PlaceTx(db, request, Some(key), orderId, eventId).Committed?
  {
    FilledIff(db, request);
  }

  // ---- Checkout ----

  datatype CheckoutResult = Bought(db: Db, total: int) | Declined(failure: Failure)

  function Checkout(db: Db, user: nat, product: nat, quantity: int, country: string, orderId: nat): CheckoutResult {
    if quantity < 1 then Declined(ConstraintViolated)
    else
      match TakeOne(db.products, Item(product, quantity))
      case Refused(_) => Declined(InsufficientStock(product))
      case Taken(products, lines) =>
        var total := lines[0].lineTotal;
        if user !in db.balances || db.balances[user] < total then Declined(InsufficientFunds)
        else if quantity > 100 || total > MAX_INT4 then Declined(ConstraintViolated)
        else Bought(db.(products := products,
                        balances := db.balances[user := db.balances[user] - total],
                        orders := db.orders[orderId := Order(user, country, lines, total, true)],
                        jobs := db.jobs + {orderId}), total)
  }

  predicate InStock(products: map<nat, Product>, product: nat, quantity: int) {
    product in products && products[product].active && products[product].stock >= quantity
  }

  /** What a checkout needs: stock, money for price times quantity, and figures the schema admits. */
  predicate Affordable(db: Db, user: nat, product: nat, quantity: int) {
    && 1 <= quantity <= 100
    && InStock(db.products, product, quantity)
    && user in db.balances && db.balances[user] >= db.products[product].price * quantity
    && db.products[product].price * quantity <= 0x7fff_ffff
  }

  // ---- The service ----

  class ShopService {
    var db: Db

    /** The UPDATE loop over the sorted items, on the transaction's own view of the products. */
    method TakeStock(items: seq<Item>) returns (taken: Taken)
      ensures taken == TakeAll(db.products, items)
    {
      var products, lines := db.products, [];
      for i := 0 to |items|
        invariant TakeAll(db.products, items[..i]) == Taken(products, lines)
      {
        assert items[..i + 1][..i] == items[..i];
        match TakeOne(products, items[i]) {
          case Refused(why) =>
            RefusalSticks(db.products, items, i + 1);
            return Refused(why);
          case Taken(left, line) =>
            products, lines := left, lines + line;
        }
      }
      assert items[..|items|] == items;
      return Taken(products, lines);
    }

    /** The INSERT loop over order_items; false when a check or the unique constraint fires. */
    method InsertLines(lines: seq<Line>) returns (ok: bool)
      ensures ok <==> DistinctProducts(lines) && forall i :: 0 <= i < |lines| ==> 1 <= lines[i].quantity <= 100
    {
      for i := 0 to |lines|
        invariant forall k :: 0 <= k < i ==> 1 <= lines[k].quantity <= 100
        invariant DistinctProducts(lines[..i])
      {
        if lines[i].quantity < 1 || lines[i].quantity > 100 {
          return false;
        }
        if k :| 0 <= k < i && lines[k].product == lines[i].product {
          return false;
        }
      }
      assert lines[..|lines|] == lines;
      return true;
    }

    method SumLines(lines: seq<Line>) returns (total: int)
      ensures total == TotalOf(lines)
    {
      total := 0;
      for i := 0 to |lines|
        invariant total == TotalOf(lines[..i])
      {
        assert lines[..i + 1][..i] == lines[..i];
        total := total + lines[i].lineTotal;
      }
      assert lines[..|lines|] == lines;
    }

    method InsertOrder(request: Request, orderId: nat) returns (draft: Db, body: Body, failure: Option<Failure>)
      ensures failure == WhyNot(db, request)
      ensures failure.None? ==> (draft, body) == Placed(db, request, orderId)
    {
      draft, body := db, Body(orderId, [], 0);
      var taken := TakeStock(SortItems(request.items));
      if taken.Refused? {
        return draft, body, Some(taken.failure);
      }
      var lines := taken.lines;
      var total := SumLines(lines);
      if request.user !in db.balances || total < 0 || total > MAX_INT4 {
        return draft, body, Some(ConstraintViolated);
      }
      draft := draft.(products := taken.products,
                      orders := draft.orders[orderId := Order(request.user, request.country, lines, total, false)]);
      var ok := InsertLines(lines);
      if !ok {
        return draft, body, Some(ConstraintViolated);
      }
      body := Body(orderId, lines, total);
      failure := None;
    }

    /** What others commit between the first lookup and our transaction is `others`. */
    method PlaceOrder(request: Request, key: Option<string>, others: Db -> Db, orderId: nat, eventId: nat)
      returns (answer: Answer)
      modifies this
      ensures HasKey(key) && key.value in old(db).records ==>
                db == old(db) && Some(answer) == FindReplay(old(db), key.value, request)
      ensures !(HasKey(key) && key.value in old(db).records) ==>
                match PlaceTx(others(old(db)), request, key, orderId, eventId)
                case Committed(next, body) => db == next && answer == Created(body)
                case Conflict => db == others(old(db)) && Some(answer) == FindReplay(db, key.value, request)
                case RolledBack(failure) => db == others(old(db)) && answer == Failed(failure)
      ensures answer.Created? ==>
                var was := others(old(db));
                && CanFill(was, request) && OrderSays(was, request, orderId, db, answer.body)
                && db.outbox == was.outbox[eventId := orderId]
                && db.records == if HasKey(key) then was.records[key.value := Record(request, answer.body)] else was.records
    {
      if HasKey(key) {
        var prior := FindReplay(db, key.value, request);
        if prior.Some? {
          return prior.value;
        }
      }
      db := others(db);
      var draft, body, failure := InsertOrder(request, orderId);
      if failure.Some? {
        return Failed(failure.value);
      }
      FilledIff(db, request);
      PlacedSays(db, request, orderId);
      if HasKey(key) {
        if key.value in draft.records {
          return FindReplay(db, key.value, request).value;
        }
        draft := draft.(records := draft.records[key.value := Record(request, body)]);
      }
      draft := draft.(outbox := draft.outbox[eventId := orderId]);
      db := draft;
      return Created(body);
    }

    method CheckoutTx(user: nat, product: nat, quantity: int, country: string, orderId: nat) returns (failure: Option<Failure>)
      modifies this
      ensures match Checkout(old(db), user, product, quantity, country, orderId)
              case Bought(next, _) => db == next && failure == None
              case Declined(why) => db == old(db) && failure == Some(why)
      ensures failure.None? <==> Affordable(old(db), user, product, quantity)
      ensures failure == Some(InsufficientStock(product)) <==>
                quantity >= 1 && !InStock(old(db).products, product, quantity)
      ensures failure == Some(InsufficientFunds) <==>
                && quantity >= 1 && InStock(old(db).products, product, quantity)
                && !(user in old(db).balances && old(db).balances[user] >= old(db).products[product].price * quantity)
      ensures failure.None? ==>
                var p := old(db).products[product];
                && db.products == old(db).products[product := Product(p.price, p.stock - quantity, p.active)]
                && db.balances == old(db).balances[user := old(db).balances[user] - p.price * quantity]
                && db.orders == old(db).orders[orderId :=
                     Order(user, country, [Line(product, quantity, p.price, p.price * quantity)], p.price * quantity, true)]
                && db.jobs == old(db).jobs + {orderId} && db.records == old(db).records && db.outbox == old(db).outbox
    {
      if quantity < 1 {
        return Some(ConstraintViolated);
      }
      var draft := db;
      if product !in draft.products || !draft.products[product].active || draft.products[product].stock < quantity {
        return Some(InsufficientStock(product));
      }
      var p := draft.products[product];
      var total := p.price * quantity;
      draft := draft.(products := draft.products[product := p.(stock := p.stock - quantity)]);
      if user !in draft.balances || draft.balances[user] < total {
        return Some(InsufficientFunds);
      }
      draft := draft.(balances := draft.balances[user := draft.balances[user] - total]);
      if quantity > 100 || total > MAX_INT4 {
        return Some(ConstraintViolated);
      }
      var line := Line(product, quantity, p.price, total);
      draft := draft.(orders := draft.orders[orderId := Order(user, country, [line], total, true)]);
      draft := draft.(jobs := draft.jobs + {orderId});
      db := draft;
      return None;
    }
  }

  /** A refusal names an item of the request: one whose product is unknown or inactive, or one that is known but short. */
  lemma {:induction false} RefusalIsRight(products: map<nat, Product>, items: seq<Item>)
    requires TakeAll(products, items).Refused?
    ensures var failure := TakeAll(products, items).failure;
            && (failure.NotFound? || failure.InsufficientStock?)
            && (exists i :: 0 <= i < |items| && items[i].product == failure.product)
            && (failure.NotFound? <==> failure.product !in products || !products[failure.product].active)
    decreases |items|
  {
    var init, last := items[..|items| - 1], items[|items| - 1];
    if TakeAll(products, init).Refused? {
      RefusalIsRight(products, init);
      var failure := TakeAll(products, init).failure;
      var i :| 0 <= i < |init| && init[i].product == failure.product;
      assert items[i].product == failure.product;
    } else {
      TakenLines(products, init);
    }
  }

  /** Once an item is refused the rest of the list no longer matters. */
  lemma {:induction false} RefusalSticks(products: map<nat, Product>, items: seq<Item>, n: nat)
    requires n <= |items| && TakeAll(products, items[..n]).Refused?
    ensures TakeAll(products, items) == TakeAll(products, items[..n])
    decreases |items|
  {
    if n == |items| {
      assert items[..n] == items;
    } else {
      var init := items[..|items| - 1];
      assert init[..n] == items[..n];
      RefusalSticks(products, init, n);
    }
  }
}
