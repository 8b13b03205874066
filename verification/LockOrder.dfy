/** Row locks of concurrent placeOrder and checkout transactions, taken one by one and kept until the end. */
module LockOrder {
  import opened Common
  import opened Shop

  datatype Resource = ProductRow(id: nat) | UserRow(user: nat) | KeyRow(key: string)

  /** The locks one transaction takes, in order, and how many it has. It may end at any time. */
  datatype Txn = Txn(plan: seq<Resource>, taken: nat)

  type State = map<nat, Txn>

  /** placeOrder: the sorted product rows, then the key claim. The foreign-key share lock on the user row conflicts with nothing here. */
  function PlacePlan(request: Request, key: Option<string>): seq<Resource> {
    var items := SortItems(request.items);
    seq(|items|, i requires 0 <= i < |items| => ProductRow(items[i].product))
    + if HasKey(key) then [KeyRow(key.value)] else []
  }

  function CheckoutPlan(user: nat, product: nat): seq<Resource> {
    [ProductRow(product), UserRow(user)]
  }

  /** Product rows by ascending id, then at most one row of another kind. */
  predicate Less(a: Resource, b: Resource) {
    a.ProductRow? && (b.ProductRow? ==> a.id < b.id)
  }

  ghost predicate Ordered(plan: seq<Resource>) {
    forall i, j :: 0 <= i < j < |plan| ==> plan[i] == plan[j] || Less(plan[i], plan[j])
  }

  /** The sort in insertOrder is what makes every plan ordered, whatever items a request lists. */
  lemma PlansAreOrdered(request: Request, key: Option<string>, user: nat, product: nat)
    ensures Ordered(PlacePlan(request, key)) && Ordered(CheckoutPlan(user, product))
  {
    SortSorts(request.items);
  }

  /**
   * The plan is the one the transaction needs: it has the row of every product asked for, and every product row and key
   * record that a committed placement changes is in it.
   */
  lemma PlanCoversWrites(db: Db, request: Request, key: Option<string>, orderId: nat, eventId: nat)
    ensures forall item :: item in request.items ==> ProductRow(item.product) in PlacePlan(request, key)
    ensures PlaceTx(db, request, key, orderId, eventId).Committed? ==>
      var next := PlaceTx(db, request, key, orderId, eventId).db;
      && (forall p | p in db.products ::
            p in next.products && (next.products[p] != db.products[p] ==> ProductRow(p) in PlacePlan(request, key)))
      && (forall k | k in next.records && k !in db.records :: KeyRow(k) in PlacePlan(request, key))
      && next.balances == db.balances
  {
    var sorted := SortItems(request.items);
    SortSorts(request.items);
    SameElements(sorted, request.items);
    forall i | 0 <= i < |sorted| ensures ProductRow(sorted[i].product) in PlacePlan(request, key) {
      assert PlacePlan(request, key)[i] == ProductRow(sorted[i].product);
    }
    if HasKey(key) {
      assert PlacePlan(request, key)[|sorted|] == KeyRow(key.value);
    }
    if PlaceTx(db, request, key, orderId, eventId).Committed? {
      FilledIff(db, request);
      PlacedSays(db, request, orderId);
    }
  }

  /** And every product row and balance that a checkout changes is in its plan. */
  lemma CheckoutCoversWrites(db: Db, user: nat, product: nat, quantity: int, country: string, orderId: nat)
    requires Checkout(db, user, product, quantity, country, orderId).Bought?
    ensures var next := Checkout(db, user, product, quantity, country, orderId).db;
            && (forall p | p in db.products ::
                  p in next.products && (next.products[p] != db.products[p] ==> ProductRow(p) in CheckoutPlan(user, product)))
            && (forall u | u in db.balances ::
                  u in next.balances && (next.balances[u] != db.balances[u] ==> UserRow(u) in CheckoutPlan(user, product)))
            && next.records == db.records
  {
  }

  predicate Holds(s: State, t: nat, r: Resource) {
    t in s && s[t].taken <= |s[t].plan| && r in s[t].plan[..s[t].taken]
  }

  predicate Wants(s: State, t: nat, r: Resource) {
    t in s && s[t].taken < |s[t].plan| && s[t].plan[s[t].taken] == r
  }

  ghost predicate WaitsFor(s: State, t: nat, u: nat) {
    t != u && exists r :: Wants(s, t, r) && Holds(s, u, r)
  }

  ghost predicate Blocked(s: State, t: nat) {
    exists u :: WaitsFor(s, t, u)
  }

  datatype Action =
    | Begin(t: nat, plan: seq<Resource>)
    | Take(t: nat)
    | Finish(t: nat)  // COMMIT or ROLLBACK, at any point

  ghost predicate IsPlan(plan: seq<Resource>) {
    || (exists request, key :: plan == PlacePlan(request, key))
    || (exists user, product :: plan == CheckoutPlan(user, product))
  }

  ghost predicate Enabled(s: State, a: Action) {
    match a
    case Begin(t, plan) => t !in s && IsPlan(plan)
    case Take(t) => t in s && s[t].taken < |s[t].plan| && !Blocked(s, t)
    case Finish(t) => t in s
  }

  function Next(s: State, a: Action): State
    requires a.Take? ==> a.t in s
  {
    match a
    case Begin(t, plan) => s[t := Txn(plan, 0)]
    case Take(t) => s[t := s[t].(taken := s[t].taken + 1)]
    case Finish(t) => s - {t}
  }

  /** Locks are exclusive, and every open transaction follows an ordered plan. */
  ghost predicate Inv(s: State) {
    && (forall t :: t in s ==> s[t].taken <= |s[t].plan| && Ordered(s[t].plan))
    && (forall t, u, r | Holds(s, t, r) && Holds(s, u, r) :: t == u)
  }

  lemma StepKeeps(s: State, a: Action)
    requires Inv(s) && Enabled(s, a)
    ensures Inv(Next(s, a))
  {
    var s' := Next(s, a);
    match a
    case Begin(t, plan) =>
      if request, key :| plan == PlacePlan(request, key) {
        PlansAreOrdered(request, key, 0, 0);
      } else {
        var user, product :| plan == CheckoutPlan(user, product);
        PlansAreOrdered(Request(0, [], ""), None, user, product);
      }
      assert forall u, r :: Holds(s', u, r) ==> Holds(s, u, r);
    case Take(t) =>
      var next := s[t].plan[s[t].taken];
      assert s[t].plan[..s[t].taken + 1] == s[t].plan[..s[t].taken] + [next];
      assert Wants(s, t, next);
      assert forall u, r :: Holds(s', u, r) ==> Holds(s, u, r) || (u == t && r == next);
      assert forall u :: u != t && Holds(s, u, next) ==> WaitsFor(s, t, u);
    case Finish(t) =>
      assert forall u, r :: Holds(s', u, r) ==> Holds(s, u, r);
  }

  ghost predicate IsRun(run: seq<State>) {
    && |run| > 0 && run[0] == map[]
    && forall i :: 0 <= i < |run| - 1 ==> StepAt(run, i)
  }

  ghost predicate StepAt(run: seq<State>, i: nat)
    requires i + 1 < |run|
  {
    exists a :: Enabled(run[i], a) && run[i + 1] == Next(run[i], a)
  }

  lemma {:induction false} RunKeeps(run: seq<State>, i: nat)
    requires IsRun(run) && i < |run|
    ensures Inv(run[i])
  {
    if i > 0 {
      RunKeeps(run, i - 1);
      assert StepAt(run, i - 1);
      var a :| Enabled(run[i - 1], a) && run[i] == Next(run[i - 1], a);
      StepKeeps(run[i - 1], a);
    }
  }

  /** Whoever is waited for wants something strictly greater, if it waits at all. */
  lemma WaitsAscend(s: State, t: nat, u: nat, v: nat, r: Resource, q: Resource)
    requires Inv(s) && Wants(s, t, r) && Holds(s, u, r) && t != u
    requires Wants(s, u, q) && Holds(s, v, q) && u != v
    ensures Less(r, q)
  {
    var k :| 0 <= k < s[u].taken && s[u].plan[k] == r;
    assert r != q;
  }

  lemma LessIsTransitive(a: Resource, b: Resource, c: Resource)
    requires Less(a, b) && Less(b, c)
    ensures Less(a, c)
  {
  }

  /** A walk along wait edges; the last transaction may or may not wait itself. */
  ghost predicate IsWalk(s: State, walk: seq<nat>) {
    |walk| >= 2 && forall i :: 0 <= i < |walk| - 1 ==> EdgeAt(s, walk, i)
  }

  ghost predicate EdgeAt(s: State, walk: seq<nat>, i: nat)
    requires i + 1 < |walk|
  {
    WaitsFor(s, walk[i], walk[i + 1])
  }

  ghost predicate WaitsOn(s: State, t: nat, r: Resource) {
    Wants(s, t, r) && exists u :: u != t && Holds(s, u, r)
  }

  lemma {:induction false} WalksAscend(s: State, walk: seq<nat>, n: nat) returns (first: Resource, last: Resource)
    requires Inv(s) && IsWalk(s, walk) && 1 <= n < |walk| - 1
    ensures Wants(s, walk[0], first) && WaitsOn(s, walk[n], last) && Less(first, last)
  {
    assert EdgeAt(s, walk, n - 1) && EdgeAt(s, walk, n);
    var r :| Wants(s, walk[n - 1], r) && Holds(s, walk[n], r);
    last :| Wants(s, walk[n], last) && Holds(s, walk[n + 1], last);
    WaitsAscend(s, walk[n - 1], walk[n], walk[n + 1], r, last);
    if n == 1 {
      first := r;
    } else {
      var mid;
      first, mid := WalksAscend(s, walk, n - 1);
      LessIsTransitive(first, mid, last);
    }
  }

  /** The wait-for graph never has a cycle: no deadlock, at any point of any run. */
  lemma NoCycles(run: seq<State>, i: nat, walk: seq<nat>)
    requires IsRun(run) && i < |run| && IsWalk(run[i], walk)
    ensures walk[0] != walk[|walk| - 1]
  {
    var s := run[i];
    RunKeeps(run, i);
    if walk[0] == walk[|walk| - 1] {
      var longer := walk + [walk[1]];
      assert EdgeAt(s, walk, 0);
      assert forall k :: 0 <= k < |longer| - 1 ==> EdgeAt(s, longer, k) by {
        forall k | 0 <= k < |longer| - 1 ensures EdgeAt(s, longer, k) {
          if k < |walk| - 1 { assert EdgeAt(s, walk, k); }
        }
      }
      var first, last := WalksAscend(s, longer, |walk| - 1);
    }
  }

  function Rank(r: Resource, top: nat): nat {
    if r.ProductRow? && r.id < top then r.id else top
  }

  /** Following the waits from any open transaction ends at one that can step. */
  lemma {:induction false} FindRunnable(s: State, t: nat, top: nat) returns (u: nat)
    requires Inv(s) && t in s
    requires forall x, r :: Wants(s, x, r) && r.ProductRow? ==> r.id < top
    ensures u in s && !Blocked(s, u)
    decreases if s[t].taken < |s[t].plan| then top + 1 - Rank(s[t].plan[s[t].taken], top) else 0
  {
    if !Blocked(s, t) {
      u := t;
    } else {
      var holder :| WaitsFor(s, t, holder);
      var r :| Wants(s, t, r) && Holds(s, holder, r);
      if !Blocked(s, holder) {
        u := holder;
      } else {
        var third :| WaitsFor(s, holder, third);
        var q :| Wants(s, holder, q) && Holds(s, third, q);
        WaitsAscend(s, t, holder, third, r, q);
        u := FindRunnable(s, holder, top);
      }
    }
  }

  lemma {:induction false} TopExists(s: State) returns (top: nat)
    ensures forall x, r :: Wants(s, x, r) && r.ProductRow? ==> r.id < top
    decreases |s|
  {
    if s == map[] {
      top := 0;
    } else {
      var t :| t in s;
      top := TopExists(s - {t});
      assert forall x, r :: x != t && Wants(s, x, r) ==> Wants(s - {t}, x, r);
      if s[t].taken < |s[t].plan| && s[t].plan[s[t].taken].ProductRow? {
        top := top + s[t].plan[s[t].taken].id + 1;
      }
    }
  }

  /** While any transaction is open, some open transaction can take its next lock or finish. */
  lemma SomeoneCanStep(run: seq<State>, i: nat, t: nat) returns (u: nat)
    requires IsRun(run) && i < |run| && t in run[i]
    ensures u in run[i] && !Blocked(run[i], u)
    ensures run[i][u].taken < |run[i][u].plan| ==> Enabled(run[i], Take(u))
  {
    RunKeeps(run, i);
    var top := TopExists(run[i]);
    u := FindRunnable(run[i], t, top);
  }

  /** Without the sort two orders for the same two products can each hold what the other wants. */
  lemma UnsortedPlansDeadlock()
    ensures exists s: State :: s.Keys == {0, 1} && WaitsFor(s, 0, 1) && WaitsFor(s, 1, 0)
              && (forall t, u, r | Holds(s, t, r) && Holds(s, u, r) :: t == u)
              && multiset(s[0].plan) == multiset(s[1].plan) && Ordered(s[0].plan)
  {
    var one, two := ProductRow(1), ProductRow(2);
    var s: State := map[0 := Txn([one, two], 1), 1 := Txn([two, one], 1)];
    assert [one, two][..1] == [one] && [two, one][..1] == [two];
    assert Wants(s, 0, two) && Holds(s, 1, two) && Wants(s, 1, one) && Holds(s, 0, one);
    assert multiset([one, two]) == multiset([two, one]);
  }
}
