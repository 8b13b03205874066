/** POST /orders: one order per Idempotency-Key, replayed exactly for bodies that are equal up to member order. */
module PostOrders {
  import opened Common
  import opened CanonicalJson

  datatype Product = Product(id: int, priceCents: int)

  datatype Wanted = Wanted(productId: int, quantity: int)

  datatype Line = Line(productId: int, quantity: int, unitPriceCents: int, lineTotalCents: int)

  datatype Order = Order(id: nat, items: seq<Line>, totalCents: int, createdAt: nat)

  datatype Record = Record(fingerprint: Text, order: Order)

  datatype State = State(orders: seq<Order>, records: map<Text, Record>)

  datatype Reply = Invalid | Created(order: Order) | Replayed(order: Order) | Conflict | ProductNotFound(productId: int)

  datatype Request = Request(key: Text, body: Json, now: nat)

  /** The whole number a token stands for, if it is one. */
  type ToInteger = Text -> Option<int>

  const ITEMS: Text := [105, 116, 101, 109, 115]
  const PRODUCT_ID: Text := [112, 114, 111, 100, 117, 99, 116, 95, 105, 100]
  const QUANTITY: Text := [113, 117, 97, 110, 116, 105, 116, 121]

  // ---- The contract of the request ----

  function FindMember(members: seq<Member>, key: Text): Option<Json> {
    if members == [] then None
    else if members[0].key == key then Some(members[0].value)
    else FindMember(members[1..], key)
  }

  function Field(j: Json, key: Text): Option<Json> {
    if j.Obj? then FindMember(j.members, key) else None
  }

  function Whole(j: Option<Json>, toInteger: ToInteger): Option<int> {
    if j.Some? && j.value.Num? then toInteger(j.value.token) else None
  }

  /** OrderItemInput: exactly a product id from 1 and a quantity from 1 to 100. */
  predicate OrderableItem(j: Json, toInteger: ToInteger) {
    var product, quantity := Whole(Field(j, PRODUCT_ID), toInteger), Whole(Field(j, QUANTITY), toInteger);
    && j.Obj? && |j.members| == 2
    && product.Some? && product.value >= 1 && quantity.Some? && 1 <= quantity.value <= 100
  }

  /** CreateOrderRequest: exactly a list of 1 to 100 such items. */
  predicate Orderable(body: Json, toInteger: ToInteger) {
    var items := Field(body, ITEMS);
    && body.Obj? && |body.members| == 1
    && items.Some? && items.value.Arr? && 1 <= |items.value.items| <= 100
    && forall i | 0 <= i < |items.value.items| :: OrderableItem(items.value.items[i], toInteger)
  }

  predicate ValidKey(key: Text) { 1 <= |key| <= 255 }

  /** What an admitted body asks for. */
  function ItemsOf(body: Json, toInteger: ToInteger): seq<Wanted>
    requires Orderable(body, toInteger)
  {
    var items := Field(body, ITEMS).value.items;
    seq(|items|, i requires 0 <= i < |items| =>
      Wanted(Whole(Field(items[i], PRODUCT_ID), toInteger).value, Whole(Field(items[i], QUANTITY), toInteger).value))
  }

  /** Somewhere in the value a number literal overflowed. */
  predicate HasOverflow(j: Json) {
    match j
    case Overflow => true
    case Arr(items) => exists i | 0 <= i < |items| :: HasOverflow(items[i])
    case Obj(members) => exists i | 0 <= i < |members| :: HasOverflow(members[i].value)
    case _ => false
  }

  /** An admitted body holds finite numbers only, so for it the fingerprint never takes an infinity for null. */
  lemma OrderableIsFinite(body: Json, toInteger: ToInteger)
    requires Orderable(body, toInteger)
    ensures !HasOverflow(body)
  {
    var items := Field(body, ITEMS).value.items;
    FoundIsMember(body.members, ITEMS);
    assert body.members[0].value == Arr(items);
    forall i | 0 <= i < |items| ensures !HasOverflow(items[i]) {
      ItemIsFinite(items[i], toInteger);
    }
  }

  lemma ItemIsFinite(j: Json, toInteger: ToInteger)
    requires OrderableItem(j, toInteger)
    ensures !HasOverflow(j)
  {
    FoundIsMember(j.members, PRODUCT_ID);
    FoundIsMember(j.members, QUANTITY);
    assert PRODUCT_ID[0] != QUANTITY[0];
    assert j.members[0].value.Num? && j.members[1].value.Num?;
  }

  lemma {:induction false} MemberIsFound(members: seq<Member>, m: Member)
    requires DistinctKeys(members) && m in members
    ensures FindMember(members, m.key) == Some(m.value)
  {
    if members[0] != m {
      assert members == [members[0]] + members[1..];
      var k :| 1 <= k < |members| && members[k] == m;
      MemberIsFound(members[1..], m);
    }
  }

  lemma {:induction false} FoundIsMember(members: seq<Member>, key: Text)
    ensures FindMember(members, key).Some? ==> Member(key, FindMember(members, key).value) in members
  {
    if members != [] {
      FoundIsMember(members[1..], key);
    }
  }

  /** The object is exactly a product id from 1 and a quantity from 1 to 100, those of `w`. */
  ghost predicate AsksFor(j: Json, w: Wanted, toInteger: ToInteger) {
    && j.Obj? && |j.members| == 2 && w.productId >= 1 && 1 <= w.quantity <= 100
    && (exists p :: Member(PRODUCT_ID, Num(p)) in j.members && toInteger(p) == Some(w.productId))
    && (exists q :: Member(QUANTITY, Num(q)) in j.members && toInteger(q) == Some(w.quantity))
  }

  ghost predicate AskForAll(list: seq<Json>, items: seq<Wanted>, toInteger: ToInteger) {
    |list| == |items| && forall i :: 0 <= i < |items| ==> AsksFor(list[i], items[i], toInteger)
  }

  lemma {:induction false} OnlyFound(members: seq<Member>, m: Member)
    requires DistinctKeys(members)
    ensures FindMember(members, m.key) == Some(m.value) <==> m in members
  {
    FoundIsMember(members, m.key);
    if m in members {
      MemberIsFound(members, m);
    }
  }

  lemma NumberIsMember(j: Json, key: Text, n: int, toInteger: ToInteger)
    requires Valid(j) && j.Obj?
    ensures Whole(Field(j, key), toInteger) == Some(n) <==> exists t :: Member(key, Num(t)) in j.members && toInteger(t) == Some(n)
  {
    forall t ensures Field(j, key) == Some(Num(t)) <==> Member(key, Num(t)) in j.members {
      OnlyFound(j.members, Member(key, Num(t)));
    }
  }

  lemma AsksForIff(j: Json, w: Wanted, toInteger: ToInteger)
    requires Valid(j)
    ensures AsksFor(j, w, toInteger) <==>
      (OrderableItem(j, toInteger) && Whole(Field(j, PRODUCT_ID), toInteger) == Some(w.productId)
       && Whole(Field(j, QUANTITY), toInteger) == Some(w.quantity))
  {
    if j.Obj? {
      NumberIsMember(j, PRODUCT_ID, w.productId, toInteger);
      NumberIsMember(j, QUANTITY, w.quantity, toInteger);
    }
  }

  /** The admitted bodies are those with nothing but a list of 1 to 100 such objects, and they ask for these items in this order. */
  lemma OrderableIff(body: Json, items: seq<Wanted>, toInteger: ToInteger)
    requires Valid(body)
    ensures Orderable(body, toInteger) && ItemsOf(body, toInteger) == items <==>
      (exists list :: body == Obj([Member(ITEMS, Arr(list))]) && 1 <= |list| <= 100 && AskForAll(list, items, toInteger))
  {
    if Orderable(body, toInteger) && ItemsOf(body, toInteger) == items {
      var list := Field(body, ITEMS).value.items;
      FoundIsMember(body.members, ITEMS);
      assert body.members == [Member(ITEMS, Arr(list))];
      forall i | 0 <= i < |items| ensures AsksFor(list[i], items[i], toInteger) {
        AsksForIff(list[i], items[i], toInteger);
      }
    }
    forall list | body == Obj([Member(ITEMS, Arr(list))]) && 1 <= |list| <= 100 && AskForAll(list, items, toInteger)
      ensures Orderable(body, toInteger) && ItemsOf(body, toInteger) == items
    {
      assert body.members[0].value == Arr(list);
      forall i | 0 <= i < |list|
        ensures OrderableItem(list[i], toInteger) && Whole(Field(list[i], PRODUCT_ID), toInteger) == Some(items[i].productId)
          && Whole(Field(list[i], QUANTITY), toInteger) == Some(items[i].quantity)
      {
        assert AsksFor(list[i], items[i], toInteger) && Valid(list[i]);
        AsksForIff(list[i], items[i], toInteger);
      }
    }
  }

  lemma SameIsSymmetric(a: Json, b: Json)
    requires Valid(a) && Valid(b) && Same(a, b)
    ensures Same(b, a)
  {
    FingerprintIff(a, b);
    FingerprintIff(b, a);
  }

  lemma FieldIsThere(a: Json, b: Json, key: Text)
    requires Valid(a) && Valid(b) && Same(a, b) && Field(a, key).Some?
    ensures Field(b, key).Some? && Valid(Field(a, key).value) && Valid(Field(b, key).value)
    ensures Same(Field(a, key).value, Field(b, key).value)
  {
    FoundIsMember(a.members, key);
    var i :| 0 <= i < |a.members| && a.members[i] == Member(key, Field(a, key).value);
    var j :| 0 <= j < |b.members| && SameMember(a.members[i], b.members[j]);
    MemberIsFound(b.members, b.members[j]);
  }

  lemma SameFields(a: Json, b: Json, key: Text)
    requires Valid(a) && Valid(b) && Same(a, b)
    ensures Field(a, key).Some? <==> Field(b, key).Some?
    ensures Field(a, key).Some? ==>
      Same(Field(a, key).value, Field(b, key).value) && Valid(Field(a, key).value) && Valid(Field(b, key).value)
  {
    if Field(a, key).Some? {
      FieldIsThere(a, b, key);
    }
    if Field(b, key).Some? {
      SameIsSymmetric(a, b);
      FieldIsThere(b, a, key);
    }
  }

  lemma SameShape(a: Json, b: Json)
    requires Same(a, b)
    ensures (a.Num? || b.Num?) ==> a == b
    ensures (a.Obj? <==> b.Obj?) && (a.Obj? ==> |a.members| == |b.members|)
    ensures (a.Arr? <==> b.Arr?) && (a.Arr? ==> |a.items| == |b.items| && forall i :: 0 <= i < |a.items| ==> Same(a.items[i], b.items[i]))
  {
  }

  lemma SameWhole(a: Json, b: Json, key: Text, toInteger: ToInteger)
    requires Valid(a) && Valid(b) && Same(a, b)
    ensures Whole(Field(a, key), toInteger) == Whole(Field(b, key), toInteger)
  {
    SameFields(a, b, key);
    if Field(a, key).Some? {
      SameShape(Field(a, key).value, Field(b, key).value);
    }
  }

  ghost predicate SameWanted(a: Json, b: Json, toInteger: ToInteger) {
    && (OrderableItem(a, toInteger) <==> OrderableItem(b, toInteger))
    && Whole(Field(a, PRODUCT_ID), toInteger) == Whole(Field(b, PRODUCT_ID), toInteger)
    && Whole(Field(a, QUANTITY), toInteger) == Whole(Field(b, QUANTITY), toInteger)
  }

  lemma SameItem(a: Json, b: Json, toInteger: ToInteger)
    requires Valid(a) && Valid(b) && Same(a, b)
    ensures SameWanted(a, b, toInteger)
  {
    SameShape(a, b);
    SameWhole(a, b, PRODUCT_ID, toInteger);
    SameWhole(a, b, QUANTITY, toInteger);
  }

  lemma SameItems(a: seq<Json>, b: seq<Json>, toInteger: ToInteger)
    requires |a| == |b| && forall i :: 0 <= i < |a| ==> Valid(a[i]) && Valid(b[i]) && Same(a[i], b[i])
    ensures forall i :: 0 <= i < |a| ==> SameWanted(a[i], b[i], toInteger)
  {
    forall i | 0 <= i < |a| ensures SameWanted(a[i], b[i], toInteger) {
      SameItem(a[i], b[i], toInteger);
    }
  }

  lemma ItemsAreSame(a: Json, b: Json, toInteger: ToInteger)
    requires Field(a, ITEMS).Some? && Field(b, ITEMS).Some? && Field(a, ITEMS).value.Arr? && Field(b, ITEMS).value.Arr?
    requires (a.Obj? <==> b.Obj?) && (a.Obj? ==> |a.members| == |b.members|)
    requires |Field(a, ITEMS).value.items| == |Field(b, ITEMS).value.items|
    requires forall i :: 0 <= i < |Field(a, ITEMS).value.items| ==>
      SameWanted(Field(a, ITEMS).value.items[i], Field(b, ITEMS).value.items[i], toInteger)
    ensures Orderable(a, toInteger) <==> Orderable(b, toInteger)
    ensures Orderable(a, toInteger) ==> ItemsOf(a, toInteger) == ItemsOf(b, toInteger)
  {
  }

  /** Bodies that are equal up to member order are admitted together and ask for the same items. */
  lemma SameBodiesSameItems(a: Json, b: Json, toInteger: ToInteger)
    requires Valid(a) && Valid(b) && Same(a, b)
    ensures Orderable(a, toInteger) <==> Orderable(b, toInteger)
    ensures Orderable(a, toInteger) ==> ItemsOf(a, toInteger) == ItemsOf(b, toInteger)
  {
    SameFields(a, b, ITEMS);
    SameShape(a, b);
    var left, right := Field(a, ITEMS), Field(b, ITEMS);
    if left.Some? {
      SameShape(left.value, right.value);
      if left.value.Arr? {
        SameItems(left.value.items, right.value.items, toInteger);
        ItemsAreSame(a, b, toInteger);
      }
    }
  }

  // ---- The handler ----

  function Find(products: seq<Product>, id: int): Option<Product> {
    if products == [] then None else if products[0].id == id then Some(products[0]) else Find(products[1..], id)
  }

  function PriceLine(p: Product, w: Wanted): Line {
    Line(p.id, w.quantity, p.priceCents, p.priceCents * w.quantity)
  }

  datatype Pricing = Priced(lines: seq<Line>) | Unknown(productId: int)

  function Price(products: seq<Product>, items: seq<Wanted>): Pricing {
    if items == [] then Priced([])
    else
      var last := items[|items| - 1];
      match Price(products, items[..|items| - 1])
      case Unknown(id) => Unknown(id)
      case Priced(lines) =>
        match Find(products, last.productId)
        case None => Unknown(last.productId)
        case Some(p) => Priced(lines + [PriceLine(p, last)])
  }

  function TotalOf(lines: seq<Line>): int {
    if lines == [] then 0 else TotalOf(lines[..|lines| - 1]) + lines[|lines| - 1].lineTotalCents
  }

  function Placed(s: State, key: Text, record: Record): State {
    State(s.orders + [record.order], s.records[key := record])
  }

  /** The shop the handler serves: its catalogue and how it reads numbers. */
  datatype Shop = Shop(products: seq<Product>, toInteger: ToInteger)

  function Post(shop: Shop, s: State, r: Request): (State, Reply) {
    var fingerprint := StableStringify(r.body);
    if !ValidKey(r.key) || !Orderable(r.body, shop.toInteger) then (s, Invalid)
    else if r.key in s.records then
      var previous := s.records[r.key];
      (s, if previous.fingerprint != fingerprint then Conflict else Replayed(previous.order))
    else
      match Price(shop.products, ItemsOf(r.body, shop.toInteger))
      case Unknown(id) => (s, ProductNotFound(id))
      case Priced(lines) =>
        var order := Order(|s.orders| + 1, lines, TotalOf(lines), r.now);
        (Placed(s, r.key, Record(fingerprint, order)), Created(order))
  }

  // ---- Pricing ----

  lemma {:induction false} FindFinds(products: seq<Product>, id: int)
    ensures Find(products, id).Some? ==> Find(products, id).value in products && Find(products, id).value.id == id
    ensures Find(products, id).None? ==> forall p :: p in products ==> p.id != id
  {
    if products != [] {
      FindFinds(products[1..], id);
    }
  }

  lemma {:induction false} LongerPrice(products: seq<Product>, items: seq<Wanted>, k: nat)
    requires k <= |items| && Price(products, items[..k]).Unknown?
    ensures Price(products, items) == Price(products, items[..k])
    decreases |items|
  {
    if k < |items| {
      assert items[..|items| - 1][..k] == items[..k];
      LongerPrice(products, items[..|items| - 1], k);
    } else {
      assert items[..k] == items;
    }
  }

  /** A priced order has one line per wanted item, at the catalogue price; it is refused exactly for an unknown product. */
  lemma {:induction false} PricingIsExact(products: seq<Product>, items: seq<Wanted>)
    ensures Price(products, items).Priced? <==> forall i :: 0 <= i < |items| ==> Find(products, items[i].productId).Some?
    ensures Price(products, items).Priced? ==>
      && |Price(products, items).lines| == |items|
      && forall i :: 0 <= i < |items| ==>
           && Find(products, items[i].productId).Some?
           && var p := Find(products, items[i].productId).value;
              Price(products, items).lines[i] == Line(items[i].productId, items[i].quantity, p.priceCents, p.priceCents * items[i].quantity)
    decreases |items|
  {
    if items != [] {
      var init := items[..|items| - 1];
      PricingIsExact(products, init);
      assert forall i :: 0 <= i < |init| ==> init[i] == items[i];
      FindFinds(products, items[|items| - 1].productId);
    }
  }

  /** What the wanted items cost at catalogue prices; an unknown product counts nothing. */
  function PriceSum(products: seq<Product>, items: seq<Wanted>): int {
    if items == [] then 0
    else
      (match Find(products, items[0].productId) case Some(p) => p.priceCents * items[0].quantity case None => 0)
      + PriceSum(products, items[1..])
  }

  lemma {:induction false} PriceSumOfLast(products: seq<Product>, items: seq<Wanted>, last: Wanted)
    ensures PriceSum(products, items + [last]) == PriceSum(products, items) + PriceSum(products, [last])
  {
    if items == [] {
      assert [] + [last] == [last];
    } else {
      PriceSumOfLast(products, items[1..], last);
      assert (items + [last])[1..] == items[1..] + [last];
    }
  }

  lemma {:induction false} TotalIsPriceSum(products: seq<Product>, items: seq<Wanted>)
    requires Price(products, items).Priced?
    ensures TotalOf(Price(products, items).lines) == PriceSum(products, items)
    decreases |items|
  {
    if items != [] {
      var init, last := items[..|items| - 1], items[|items| - 1];
      TotalIsPriceSum(products, init);
      PriceSumOfLast(products, init, last);
      assert items == init + [last] && [last][1..] == [];
      var lines := Price(products, items).lines;
      assert lines[..|lines| - 1] == Price(products, init).lines;
    }
  }

  /**
   * A created order has the next id and the time of its request, one line per item the body asks for, in its order
   * and at the catalogue price, and the price of exactly those items as its total.
   */
  lemma CreatedSays(shop: Shop, s: State, r: Request)
    requires Post(shop, s, r).1.Created?
    ensures var order := Post(shop, s, r).1.order;
            var items := ItemsOf(r.body, shop.toInteger);
            && Post(shop, s, r).0 == State(s.orders + [order], s.records[r.key := Record(StableStringify(r.body), order)])
            && order.id == |s.orders| + 1 && order.createdAt == r.now && |order.items| == |items|
            && order.totalCents == PriceSum(shop.products, items)
            && forall i :: 0 <= i < |items| ==>
                 exists p :: p in shop.products && p.id == items[i].productId
                   && order.items[i] == Line(p.id, items[i].quantity, p.priceCents, p.priceCents * items[i].quantity)
  {
    var items := ItemsOf(r.body, shop.toInteger);
    PricingIsExact(shop.products, items);
    TotalIsPriceSum(shop.products, items);
    forall i | 0 <= i < |items|
      ensures exists p :: p in shop.products && p.id == items[i].productId
                && Price(shop.products, items).lines[i] == Line(p.id, items[i].quantity, p.priceCents, p.priceCents * items[i].quantity)
    {
      FindFinds(shop.products, items[i].productId);
    }
  }

  // ---- Runs ----

  ghost predicate IsRun(shop: Shop, run: seq<State>, requests: seq<Request>) {
    && |run| == |requests| + 1 && run[0].records == map[]
    && forall i :: 0 <= i < |requests| ==> StepAt(shop, run, requests, i)
  }

  ghost predicate StepAt(shop: Shop, run: seq<State>, requests: seq<Request>, i: nat)
    requires i < |requests| && |run| == |requests| + 1
  {
    run[i + 1] == Post(shop, run[i], requests[i]).0
  }

  /** `seeded` orders were there before any request; every later one belongs to exactly one key. */
  ghost predicate Inv(s: State, seeded: nat) {
    && seeded <= |s.orders|
    && (forall i :: seeded <= i < |s.orders| ==> s.orders[i].id == i + 1)
    && AllOwn(s, seeded) && OneKeyEach(s) && AllOwned(s, seeded)
  }

  ghost predicate AllOwn(s: State, seeded: nat) {
    forall k :: k in s.records ==> OwnOrder(s, seeded, k)
  }

  ghost predicate OneKeyEach(s: State) {
    forall k, l :: k in s.records && l in s.records && s.records[k].order.id == s.records[l].order.id ==> k == l
  }

  ghost predicate AllOwned(s: State, seeded: nat) {
    forall i :: seeded <= i < |s.orders| ==> Owned(s, s.orders[i])
  }

  ghost predicate OwnOrder(s: State, seeded: nat, k: Text)
    requires k in s.records
  {
    var id := s.records[k].order.id;
    seeded < id <= |s.orders| && s.orders[id - 1] == s.records[k].order
  }

  ghost predicate Owned(s: State, order: Order) {
    exists k :: k in s.records && s.records[k].order == order
  }

  lemma PlacingKeepsOwners(s: State, key: Text, record: Record, seeded: nat)
    requires AllOwned(s, seeded) && key !in s.records
    ensures AllOwned(Placed(s, key, record), seeded)
  {
    var s' := Placed(s, key, record);
    forall i | seeded <= i < |s'.orders| ensures Owned(s', s'.orders[i]) {
      if i < |s.orders| {
        assert Owned(s, s.orders[i]);
        var k :| k in s.records && s.records[k].order == s.orders[i];
        assert s'.records[k].order == s'.orders[i];
      } else {
        assert s'.records[key].order == s'.orders[i];
      }
    }
  }

  lemma PlacingKeepsOrders(s: State, key: Text, record: Record, seeded: nat)
    requires AllOwn(s, seeded) && key !in s.records && record.order.id == |s.orders| + 1 && seeded <= |s.orders|
    ensures AllOwn(Placed(s, key, record), seeded)
  {
    var s' := Placed(s, key, record);
    forall k | k in s'.records ensures OwnOrder(s', seeded, k) {
      assert k == key || OwnOrder(s, seeded, k);
    }
  }

  lemma PlacingKeepsKeysApart(s: State, key: Text, record: Record, seeded: nat)
    requires AllOwn(s, seeded) && OneKeyEach(s) && key !in s.records && record.order.id == |s.orders| + 1
    ensures OneKeyEach(Placed(s, key, record))
  {
    forall k | k in s.records ensures s.records[k].order.id <= |s.orders| {
      assert OwnOrder(s, seeded, k);
    }
  }

  lemma PlacingKeeps(s: State, key: Text, record: Record, seeded: nat)
    requires Inv(s, seeded) && key !in s.records && record.order.id == |s.orders| + 1
    ensures Inv(Placed(s, key, record), seeded)
  {
    PlacingKeepsOwners(s, key, record, seeded);
    PlacingKeepsOrders(s, key, record, seeded);
    PlacingKeepsKeysApart(s, key, record, seeded);
  }

  lemma StepKeeps(shop: Shop, s: State, r: Request, seeded: nat)
    requires Inv(s, seeded)
    ensures Inv(Post(shop, s, r).0, seeded)
  {
    var (s', reply) := Post(shop, s, r);
    if reply.Created? {
      PlacingKeeps(s, r.key, Record(StableStringify(r.body), reply.order), seeded);
    }
  }

  /** In every reachable state each key owns at most one order and each order placed belongs to exactly one key. */
  lemma {:induction false} OneOrderPerKey(shop: Shop, run: seq<State>, requests: seq<Request>, i: nat)
    requires IsRun(shop, run, requests) && i < |run|
    ensures Inv(run[i], |run[0].orders|)
  {
    if i > 0 {
      OneOrderPerKey(shop, run, requests, i - 1);
      assert StepAt(shop, run, requests, i - 1);
      StepKeeps(shop, run[i - 1], requests[i - 1], |run[0].orders|);
    }
  }

  /** Orders are only appended and a record, once made, never changes. */
  lemma {:induction false} RecordsStay(shop: Shop, run: seq<State>, requests: seq<Request>, i: nat, j: nat)
    requires IsRun(shop, run, requests) && i <= j < |run|
    ensures run[i].orders <= run[j].orders
    ensures forall k :: k in run[i].records ==> k in run[j].records && run[j].records[k] == run[i].records[k]
    decreases j
  {
    if i < j {
      RecordsStay(shop, run, requests, i, j - 1);
      assert StepAt(shop, run, requests, j - 1);
    }
  }

  /**
   * Whatever came in between, a later admitted request under the key of a created order changes nothing; it is
   * answered with that very order if its body is the same up to member order, and refused otherwise.
   */
  lemma ReplaysIffSame(shop: Shop, run: seq<State>, requests: seq<Request>, i: nat, j: nat)
    requires IsRun(shop, run, requests) && i < j < |requests|
    requires Post(shop, run[i], requests[i]).1.Created? && requests[j].key == requests[i].key
    requires Valid(requests[i].body) && Valid(requests[j].body)
    ensures run[j + 1] == run[j]
    ensures var order := Post(shop, run[i], requests[i]).1.order;
            Post(shop, run[j], requests[j]).1 ==
              if !Orderable(requests[j].body, shop.toInteger) then Invalid
              else if Same(requests[i].body, requests[j].body) then Replayed(order) else Conflict
  {
    assert StepAt(shop, run, requests, i) && StepAt(shop, run, requests, j);
    CreatedIsRecorded(shop, run[i], requests[i]);
    RecordsStay(shop, run, requests, i + 1, j);
    RecordedAnswers(shop, run[j], requests[j], requests[i].body);
  }

  lemma CreatedIsRecorded(shop: Shop, s: State, r: Request)
    requires Post(shop, s, r).1.Created?
    ensures r.key in Post(shop, s, r).0.records
    ensures Post(shop, s, r).0.records[r.key] == Record(StableStringify(r.body), Post(shop, s, r).1.order)
  {
  }

  lemma RecordedAnswers(shop: Shop, s: State, r: Request, first: Json)
    requires r.key in s.records && s.records[r.key].fingerprint == StableStringify(first) && ValidKey(r.key)
    requires Valid(first) && Valid(r.body)
    ensures Post(shop, s, r) == (s, if !Orderable(r.body, shop.toInteger) then Invalid
                                    else if Same(first, r.body) then Replayed(s.records[r.key].order) else Conflict)
  {
    FingerprintIff(first, r.body);
  }

  /** A replayed order has one line for each item the retry itself asks for, in the retry's order. */
  lemma ReplayAnswersTheRetry(shop: Shop, run: seq<State>, requests: seq<Request>, i: nat, j: nat)
    requires IsRun(shop, run, requests) && i < j < |requests|
    requires Post(shop, run[i], requests[i]).1.Created? && requests[j].key == requests[i].key
    requires Valid(requests[i].body) && Valid(requests[j].body)
    requires Post(shop, run[j], requests[j]).1.Replayed?
    ensures var order := Post(shop, run[j], requests[j]).1.order;
            var items := ItemsOf(requests[j].body, shop.toInteger);
            && |order.items| == |items|
            && forall n :: 0 <= n < |items| ==>
                 order.items[n].productId == items[n].productId && order.items[n].quantity == items[n].quantity
  {
    ReplaysIffSame(shop, run, requests, i, j);
    SameBodiesSameItems(requests[i].body, requests[j].body, shop.toInteger);
    var items := ItemsOf(requests[j].body, shop.toInteger);
    PricingIsExact(shop.products, items);
    forall n | 0 <= n < |items| ensures Find(shop.products, items[n].productId).value.id == items[n].productId {
      FindFinds(shop.products, items[n].productId);
    }
  }

  /** An unknown product leaves no trace: the key stays free for a corrected retry. */
  lemma NotFoundKeepsKeyFree(shop: Shop, s: State, r: Request)
    requires r.key !in s.records && ValidKey(r.key) && Orderable(r.body, shop.toInteger)
    ensures var items := ItemsOf(r.body, shop.toInteger);
            Post(shop, s, r).1.ProductNotFound? <==> exists i :: 0 <= i < |items| && Find(shop.products, items[i].productId).None?
    ensures Post(shop, s, r).1.ProductNotFound? ==> Post(shop, s, r).0 == s
    ensures !Post(shop, s, r).1.ProductNotFound? ==> Post(shop, s, r).1.Created?
  {
    PricingIsExact(shop.products, ItemsOf(r.body, shop.toInteger));
  }

  class OrdersApi {
    const shop: Shop
    var orders: seq<Order>
    var idempotencyRecords: map<Text, Record>

    ghost function View(): State
      reads this
    {
      State(orders, idempotencyRecords)
    }

    /** The validator, then the handler. */
    method PostOrder(r: Request) returns (reply: Reply)
      modifies this
      ensures (View(), reply) == Post(shop, old(View()), r)
      ensures reply.Created? ==> Orderable(r.body, shop.toInteger)
      ensures reply.Created? ==>
        && orders == old(orders) + [reply.order] && reply.order.id == |old(orders)| + 1 && reply.order.createdAt == r.now
        && reply.order.totalCents == PriceSum(shop.products, ItemsOf(r.body, shop.toInteger))
        && idempotencyRecords == old(idempotencyRecords)[r.key := Record(StableStringify(r.body), reply.order)]
      ensures !reply.Created? ==> orders == old(orders) && idempotencyRecords == old(idempotencyRecords)
    {
      if !ValidKey(r.key) || !Orderable(r.body, shop.toInteger) {
        return Invalid;
      }
      var fingerprint := StableStringify(r.body);
      if r.key in idempotencyRecords {
        var previous := idempotencyRecords[r.key];
        if previous.fingerprint != fingerprint {
          return Conflict;
        }
        return Replayed(previous.order);
      }
      var items, orderItems := ItemsOf(r.body, shop.toInteger), [];
      for n := 0 to |items|
        invariant Price(shop.products, items[..n]) == Priced(orderItems)
        invariant View() == old(View())
      {
        var product := Find(shop.products, items[n].productId);
        assert items[..n + 1][..n] == items[..n];
        if product.None? {
          LongerPrice(shop.products, items, n + 1);
          return ProductNotFound(items[n].productId);
        }
        orderItems := orderItems + [PriceLine(product.value, items[n])];
      }
      assert items[..|items|] == items;
      var total := 0;
      for n := 0 to |orderItems|
        invariant total == TotalOf(orderItems[..n]) && View() == old(View())
      {
        assert orderItems[..n + 1][..n] == orderItems[..n];
        total := total + orderItems[n].lineTotalCents;
      }
      assert orderItems[..|orderItems|] == orderItems;
      CreatedSays(shop, View(), r);
      var order := Order(|orders| + 1, orderItems, total, r.now);
      orders := orders + [order];
      idempotencyRecords := idempotencyRecords[r.key := Record(fingerprint, order)];
      return Created(order);
    }
  }
}
