/** Concurrent placeOrder and checkout calls: every lookup and every transaction is one step of some run. */
module ShopRuns {
  import opened Common
  import opened Shop

  /** Arrived, past an unsuccessful first lookup, rolled back by a key conflict, or answered. */
  datatype Pc = Arrived | Missed | Conflicted | Answered(answer: Answer)

  datatype Call = Call(request: Request, key: Option<string>, pc: Pc)

  datatype State = State(db: Db, calls: map<nat, Call>)

  datatype Action =
    | Arrive(call: nat, request: Request, key: Option<string>)
    | LookUp(call: nat)
    | Transact(call: nat, orderId: nat, eventId: nat)
    | Buy(user: nat, product: nat, quantity: int, country: string, orderId: nat)
    | EditProduct(product: nat, price: nat, active: bool)

  ghost predicate Enabled(s: State, a: Action) {
    match a
    case Arrive(c, _, _) => c !in s.calls
    case LookUp(c) => c in s.calls && HasKey(s.calls[c].key)
                      && (s.calls[c].pc.Arrived? || (s.calls[c].pc.Conflicted? && s.calls[c].key.value in s.db.records))
    case Transact(c, orderId, eventId) =>
      && c in s.calls && orderId !in s.db.orders && eventId !in s.db.outbox
      && (if HasKey(s.calls[c].key) then s.calls[c].pc.Missed? else s.calls[c].pc.Arrived?)
    case Buy(_, _, _, _, orderId) => orderId !in s.db.orders
    case EditProduct(product, _, _) => product in s.db.products
  }

  ghost function Next(s: State, a: Action): State
    requires Enabled(s, a)
  {
    match a
    case Arrive(c, request, key) => s.(calls := s.calls[c := Call(request, key, Arrived)])
    case LookUp(c) =>
      var call := s.calls[c];
      var found := FindReplay(s.db, call.key.value, call.request);
      s.(calls := s.calls[c := call.(pc := if found.Some? then Answered(found.value) else Missed)])
    case Transact(c, orderId, eventId) =>
      var call := s.calls[c];
      (match PlaceTx(s.db, call.request, call.key, orderId, eventId)
       case Committed(db, body) => State(db, s.calls[c := call.(pc := Answered(Created(body)))])
       case Conflict => s.(calls := s.calls[c := call.(pc := Conflicted)])
       case RolledBack(failure) => s.(calls := s.calls[c := call.(pc := Answered(Failed(failure)))]))
    case Buy(user, product, quantity, country, orderId) =>
      (match Checkout(s.db, user, product, quantity, country, orderId)
       case Bought(db, _) => s.(db := db)
       case Declined(_) => s)
    case EditProduct(product, price, active) =>
      s.(db := s.db.(products := s.db.products[product := s.db.products[product].(price := price, active := active)]))
  }

  predicate Init(s: State) {
    s.db.orders == map[] && s.db.records == map[] && s.db.outbox == map[] && s.db.jobs == {} && s.calls == map[]
  }

  ghost predicate IsRun(run: seq<State>) {
    && |run| > 0 && Init(run[0])
    && forall i :: 0 <= i < |run| - 1 ==> StepAt(run, i)
  }

  ghost predicate StepAt(run: seq<State>, i: nat)
    requires i + 1 < |run|
  {
    exists a :: Enabled(run[i], a) && run[i + 1] == Next(run[i], a)
  }

  // ---- Conservation ----

  function QuantityOf(lines: seq<Line>, product: nat): int {
    if lines == [] then 0
    else QuantityOf(lines[..|lines| - 1], product)
         + (if lines[|lines| - 1].product == product then lines[|lines| - 1].quantity else 0)
  }

  ghost function Quantities(orders: map<nat, Order>, product: nat): map<nat, int> {
    map o | o in orders :: QuantityOf(orders[o].lines, product)
  }

  ghost function Debits(orders: map<nat, Order>, user: nat): map<nat, int> {
    map o | o in orders :: if orders[o].debited && orders[o].user == user then orders[o].total else 0
  }

  /** Units of a product on the shelf or in an order. */
  ghost function Supply(db: Db, product: nat): int
    requires product in db.products
  {
    db.products[product].stock + Total(Quantities(db.orders, product))
  }

  /** A user's money, in the balance or spent at checkout. */
  ghost function Money(db: Db, user: nat): int
    requires user in db.balances
  {
    db.balances[user] + Total(Debits(db.orders, user))
  }

  lemma {:induction false} TakeAllConserves(products: map<nat, Product>, items: seq<Item>, product: nat)
    requires TakeAll(products, items).Taken? && product in products
    ensures var taken := TakeAll(products, items);
            && product in taken.products
            && taken.products[product].stock + QuantityOf(taken.lines, product) == products[product].stock
    decreases |items|
  {
    if items != [] {
      var init, last := items[..|items| - 1], items[|items| - 1];
      TakeAllConserves(products, init, product);
      var before := TakeAll(products, init);
      var line := TakeOne(before.products, last).lines;
      assert (before.lines + line)[..|before.lines|] == before.lines;
    }
  }

  lemma SupplyOfOrder(db: Db, db': Db, product: nat, orderId: nat, order: Order)
    requires product in db.products && product in db'.products && orderId !in db.orders
    requires db'.orders == db.orders[orderId := order]
    requires db'.products[product].stock + QuantityOf(order.lines, product) == db.products[product].stock
    ensures Supply(db', product) == Supply(db, product)
  {
    TotalUpdate(Quantities(db.orders, product), orderId, QuantityOf(order.lines, product));
    assert Quantities(db'.orders, product) == Quantities(db.orders, product)[orderId := QuantityOf(order.lines, product)];
  }

  lemma MoneyOfOrder(db: Db, db': Db, user: nat, orderId: nat, order: Order)
    requires user in db.balances && user in db'.balances && orderId !in db.orders
    requires db'.orders == db.orders[orderId := order]
    requires db'.balances[user] + (if order.debited && order.user == user then order.total else 0) == db.balances[user]
    ensures Money(db', user) == Money(db, user)
  {
    var spent := if order.debited && order.user == user then order.total else 0;
    TotalUpdate(Debits(db.orders, user), orderId, spent);
    assert Debits(db'.orders, user) == Debits(db.orders, user)[orderId := spent];
  }

  lemma PlaceConserves(db: Db, request: Request, key: Option<string>, orderId: nat, eventId: nat, product: nat, user: nat)
    requires PlaceTx(db, request, key, orderId, eventId).Committed? && orderId !in db.orders
    requires product in db.products && user in db.balances
    ensures var db' := PlaceTx(db, request, key, orderId, eventId).db;
            && product in db'.products && user in db'.balances
            && Supply(db', product) == Supply(db, product) && Money(db', user) == Money(db, user)
  {
    var db' := PlaceTx(db, request, key, orderId, eventId).db;
    TakeAllConserves(db.products, SortItems(request.items), product);
    SupplyOfOrder(db, db', product, orderId, db'.orders[orderId]);
    MoneyOfOrder(db, db', user, orderId, db'.orders[orderId]);
  }

  lemma CheckoutConserves(db: Db, buyer: nat, bought: nat, quantity: int, country: string, orderId: nat, product: nat, user: nat)
    requires Checkout(db, buyer, bought, quantity, country, orderId).Bought? && orderId !in db.orders
    requires product in db.products && user in db.balances
    ensures var db' := Checkout(db, buyer, bought, quantity, country, orderId).db;
            && product in db'.products && user in db'.balances
            && Supply(db', product) == Supply(db, product) && Money(db', user) == Money(db, user)
  {
    var db' := Checkout(db, buyer, bought, quantity, country, orderId).db;
    var order := db'.orders[orderId];
    assert order.lines[..0] == [];
    SupplyOfOrder(db, db', product, orderId, order);
    MoneyOfOrder(db, db', user, orderId, order);
  }

  lemma StepConserves(s: State, a: Action, product: nat, user: nat)
    requires Enabled(s, a) && product in s.db.products && user in s.db.balances
    ensures var db' := Next(s, a).db;
            && product in db'.products && user in db'.balances
            && Supply(db', product) == Supply(s.db, product) && Money(db', user) == Money(s.db, user)
  {
    match a
    case Transact(c, orderId, eventId) =>
      var call := s.calls[c];
      if PlaceTx(s.db, call.request, call.key, orderId, eventId).Committed? {
        PlaceConserves(s.db, call.request, call.key, orderId, eventId, product, user);
      }
    case Buy(buyer, bought, quantity, country, orderId) =>
      if Checkout(s.db, buyer, bought, quantity, country, orderId).Bought? {
        CheckoutConserves(s.db, buyer, bought, quantity, country, orderId, product, user);
      }
    case _ =>
  }

  /**
   * Over every run, stock plus everything ordered stays what it was, stock never goes below zero, and a user's
   * balance plus everything spent at checkout stays what it was.
   */
  lemma {:induction false} NothingIsCreatedOrLost(run: seq<State>, i: nat, product: nat, user: nat)
    requires IsRun(run) && i < |run| && product in run[0].db.products && user in run[0].db.balances
    ensures product in run[i].db.products && user in run[i].db.balances
    ensures Supply(run[i].db, product) == run[0].db.products[product].stock
    ensures Money(run[i].db, user) == run[0].db.balances[user]
  {
    if i == 0 {
      assert Quantities(run[0].db.orders, product) == map[] && Debits(run[0].db.orders, user) == map[];
    } else {
      NothingIsCreatedOrLost(run, i - 1, product, user);
      assert StepAt(run, i - 1);
      var a :| Enabled(run[i - 1], a) && run[i] == Next(run[i - 1], a);
      StepConserves(run[i - 1], a, product, user);
    }
  }

  // ---- Idempotency ----

  predicate RecordIsHonest(db: Db, key: string) {
    key in db.records ==>
      var r := db.records[key];
      && r.body.orderId in db.orders
      && db.orders[r.body.orderId] == Order(r.request.user, r.request.country, r.body.lines, r.body.total, false)
  }

  predicate AnswerIsBacked(db: Db, call: Call) {
    HasKey(call.key) && call.pc.Answered? && (call.pc.answer.Created? || call.pc.answer.Replayed?) ==>
      call.key.value in db.records && db.records[call.key.value] == Record(call.request, call.pc.answer.body)
  }

  /** A conflict is only ever with a committed record, which stays: the second lookup finds it. */
  predicate ConflictIsBacked(db: Db, call: Call) {
    call.pc.Conflicted? ==> HasKey(call.key) && call.key.value in db.records
  }

  ghost predicate HasEvent(db: Db, orderId: nat) {
    exists e :: e in db.outbox && db.outbox[e] == orderId
  }

  ghost predicate Inv(s: State) {
    && (forall k :: RecordIsHonest(s.db, k))
    && (forall k, l | k in s.db.records && l in s.db.records ::
          s.db.records[k].body.orderId == s.db.records[l].body.orderId ==> k == l)
    && (forall c :: c in s.calls ==> AnswerIsBacked(s.db, s.calls[c]) && ConflictIsBacked(s.db, s.calls[c]))
    && EventsAreExact(s.db)
  }

  /** Each placed order has one outbox row; a checkout order has a receipt job instead. */
  ghost predicate EventsAreExact(db: Db) {
    && (forall e :: e in db.outbox ==> db.outbox[e] in db.orders && !db.orders[db.outbox[e]].debited)
    && (forall e, f | e in db.outbox && f in db.outbox :: db.outbox[e] == db.outbox[f] ==> e == f)
    && (forall o :: o in db.orders && !db.orders[o].debited ==> HasEvent(db, o))
    && (forall o :: o in db.jobs <==> o in db.orders && db.orders[o].debited)
  }

  lemma EventsStay(db: Db, db': Db)
    requires forall e :: e in db.outbox ==> e in db'.outbox && db'.outbox[e] == db.outbox[e]
    ensures forall o :: HasEvent(db, o) ==> HasEvent(db', o)
  {
    forall o | HasEvent(db, o) ensures HasEvent(db', o) {
      var e :| e in db.outbox && db.outbox[e] == o;
      assert db'.outbox[e] == o;
    }
  }

  lemma TransactKeeps(s: State, a: Action)
    requires Inv(s) && Enabled(s, a) && a.Transact?
    ensures Inv(Next(s, a))
  {
    var s' := Next(s, a);
    var call := s.calls[a.call];
    EventsStay(s.db, s'.db);
    if PlaceTx(s.db, call.request, call.key, a.orderId, a.eventId).Committed? {
      assert s'.db.outbox[a.eventId] == a.orderId;
      forall k ensures RecordIsHonest(s'.db, k) {
        assert RecordIsHonest(s.db, k);
      }
      forall k, l | k in s'.db.records && l in s'.db.records && s'.db.records[k].body.orderId == s'.db.records[l].body.orderId
        ensures k == l
      {
        assert RecordIsHonest(s.db, k) && RecordIsHonest(s.db, l);
      }
    }
  }

  lemma BuyKeeps(s: State, a: Action)
    requires Inv(s) && Enabled(s, a) && a.Buy?
    ensures Inv(Next(s, a))
  {
    var s' := Next(s, a);
    EventsStay(s.db, s'.db);
    forall k ensures RecordIsHonest(s'.db, k) {
      assert RecordIsHonest(s.db, k);
    }
  }

  lemma StepKeeps(s: State, a: Action)
    requires Inv(s) && Enabled(s, a)
    ensures Inv(Next(s, a))
  {
    if a.Transact? {
      TransactKeeps(s, a);
    } else if a.Buy? {
      BuyKeeps(s, a);
    } else {
      EventsStay(s.db, Next(s, a).db);
      forall k ensures RecordIsHonest(Next(s, a).db, k) {
        assert RecordIsHonest(s.db, k);
      }
    }
  }

  lemma {:induction false} RunKeeps(run: seq<State>, i: nat)
    requires IsRun(run) && i < |run|
    ensures Inv(run[i])
  {
    if i > 0 {
      RunKeeps(run, i - 1);
      assert StepAt(run, i - 1);
      var a :| Enabled(run[i - 1], a) && run[i] == Next(run[i - 1], a);
      StepKeeps(run[i - 1], a);
    }
  }

  /** A key owns one order at most, two keys never share one, and every placed order has exactly one event. */
  lemma KeysOwnOrders(run: seq<State>, i: nat, k: string, l: string)
    requires IsRun(run) && i < |run| && k in run[i].db.records && l in run[i].db.records
    ensures run[i].db.records[k].body.orderId in run[i].db.orders
    ensures run[i].db.records[k].body.orderId == run[i].db.records[l].body.orderId ==> k == l
    ensures EventsAreExact(run[i].db)
  {
    RunKeeps(run, i);
    assert RecordIsHonest(run[i].db, k);
  }

  predicate GotOrder(call: Call) {
    call.pc.Answered? && (call.pc.answer.Created? || call.pc.answer.Replayed?)
  }

  /** All callers of one key that got an order got the same one, and had sent the same request. */
  lemma SameKeySameAnswer(run: seq<State>, i: nat, c: nat, d: nat)
    requires IsRun(run) && i < |run| && c in run[i].calls && d in run[i].calls
    requires HasKey(run[i].calls[c].key) && run[i].calls[c].key == run[i].calls[d].key
    requires GotOrder(run[i].calls[c]) && GotOrder(run[i].calls[d])
    ensures run[i].calls[c].pc.answer.body == run[i].calls[d].pc.answer.body
    ensures run[i].calls[c].request == run[i].calls[d].request
  {
    RunKeeps(run, i);
    assert AnswerIsBacked(run[i].db, run[i].calls[c]) && AnswerIsBacked(run[i].db, run[i].calls[d]);
  }

  /** Committed records never change. */
  lemma {:induction false} RecordsStay(run: seq<State>, i: nat, j: nat, key: string)
    requires IsRun(run) && i <= j < |run| && key in run[i].db.records
    ensures key in run[j].db.records && run[j].db.records[key] == run[i].db.records[key]
  {
    if i < j {
      RecordsStay(run, i, j - 1, key);
      assert StepAt(run, j - 1);
      var a :| Enabled(run[j - 1], a) && run[j] == Next(run[j - 1], a);
      RecordSurvives(run[j - 1], a, key);
    }
  }

  lemma RecordSurvives(s: State, a: Action, key: string)
    requires Enabled(s, a) && key in s.db.records
    ensures key in Next(s, a).db.records && Next(s, a).db.records[key] == s.db.records[key]
  {
  }

  /** A sequential retry: same request, the stored body; another request, a refusal; no table moves. */
  lemma SequentialRetryReplays(run: seq<State>, i: nat, j: nat, key: string, c: nat)
    requires IsRun(run) && i <= j < |run| && key in run[i].db.records
    requires c in run[j].calls && run[j].calls[c].key == Some(key) && HasKey(Some(key)) && run[j].calls[c].pc.Arrived?
    ensures Enabled(run[j], LookUp(c))
    ensures var after := Next(run[j], LookUp(c));
            && after.db == run[j].db
            && after.calls[c].pc == Answered(if run[j].calls[c].request == run[i].db.records[key].request
                                             then Replayed(run[i].db.records[key].body) else KeyReused)
  {
    RecordsStay(run, i, j, key);
  }

  /**
   * A racing retry, already past its lookup when the original committed: its transaction never changes a table,
   * and it goes on to the second lookup exactly when the order could be filled again; otherwise it fails. That
   * lookup returns the stored body for the same request and refuses another one.
   */
  lemma RacingRetry(run: seq<State>, i: nat, key: string, c: nat, orderId: nat, eventId: nat)
    requires IsRun(run) && i < |run| && key in run[i].db.records && HasKey(Some(key))
    requires c in run[i].calls && run[i].calls[c].key == Some(key)
    requires Enabled(run[i], Transact(c, orderId, eventId))
    ensures var after := Next(run[i], Transact(c, orderId, eventId));
            && after.db == run[i].db
            && (after.calls[c].pc.Conflicted? <==> CanFill(run[i].db, run[i].calls[c].request))
            && (after.calls[c].pc.Conflicted? ==>
                  && Enabled(after, LookUp(c))
                  && Next(after, LookUp(c)).db == run[i].db
                  && Next(after, LookUp(c)).calls[c].pc ==
                       Answered(if run[i].calls[c].request == run[i].db.records[key].request
                                then Replayed(run[i].db.records[key].body) else KeyReused))
            && (!after.calls[c].pc.Conflicted? ==> after.calls[c].pc.answer.Failed?)
  {
    RacingRetryReplaysIff(run[i].db, run[i].calls[c].request, key, orderId, eventId);
  }

  /** The failing case is reachable: two identical racing calls for the last unit, and the second is told there is no stock. */
  lemma RacingRetryCanFail(s: State, request: Request)
    requires Init(s) && s.db.products == map[7 := Product(100, 1, true)] && s.db.balances == map[3 := 0]
    requires request == Request(3, [Item(7, 1)], "US")
    ensures var one := Next(Next(s, Arrive(0, request, Some("k"))), Arrive(1, request, Some("k")));
            var raced := Next(Next(one, LookUp(0)), LookUp(1));
            var first := Next(raced, Transact(0, 10, 20));
            var second := Next(first, Transact(1, 11, 21));
            && first.calls[0].pc.Answered? && first.calls[0].pc.answer.Created?
            && second.calls[1].pc == Answered(Failed(InsufficientStock(7)))
  {
    LastUnit(s.db.products[7 := Product(100, 1, true)]);
    var one := Next(Next(s, Arrive(0, request, Some("k"))), Arrive(1, request, Some("k")));
    var raced := Next(Next(one, LookUp(0)), LookUp(1));
    assert raced.db == s.db;
    var first := Next(raced, Transact(0, 10, 20));
    SoldOut(first.db.products);
  }

  lemma LastUnit(products: map<nat, Product>)
    requires 7 in products && products[7] == Product(100, 1, true)
    ensures SortItems([Item(7, 1)]) == [Item(7, 1)]
    ensures TakeAll(products, [Item(7, 1)]) == Taken(products[7 := Product(100, 0, true)], [Line(7, 1, 100, 100)])
    ensures TotalOf([Line(7, 1, 100, 100)]) == 100
  {
    var items := [Item(7, 1)];
    assert items[..0] == [] && items[1..] == [];
    assert SortItems(items[1..]) == [];
    assert TakeAll(products, items[..0]) == Taken(products, []);
    assert [Line(7, 1, 100, 100)][..0] == [];
  }

  lemma SoldOut(products: map<nat, Product>)
    requires 7 in products && products[7] == Product(100, 0, true)
    ensures TakeAll(products, [Item(7, 1)]) == Refused(InsufficientStock(7))
  {
    var items := [Item(7, 1)];
    assert items[..0] == [];
    assert TakeAll(products, items[..0]) == Taken(products, []);
  }
}
