/** The edge cache: a byte-bounded LRU in map insertion order, with coalesced origin fetches. */
module Edge {
  import opened Common

  /** An origin obj; `ttlMs` is what its Cache-Control allows a shared cache, 0 for "do not cache". */
  datatype Object = Object(id: nat, size: nat, ttlMs: nat)

  datatype Item = Item(key: nat, obj: Object, expiresAt: nat)

  datatype Budget = Budget(maxBytes: nat, maxObjectBytes: nat)

  predicate Sound(b: Budget) { b.maxObjectBytes <= b.maxBytes }

  /** How an origin fetch ends: with an object, without one, or with an error. */
  datatype Answer = Found(obj: Object) | Missing | Failed

  /** A request that missed: waiting for a fetch, or holding what the fetch gave. */
  datatype Waiter = Waiting(key: nat, fetch: nat) | Ready(key: nat, answer: Answer)

  /** History: object `obj` was put under `key` at time `at`. */
  datatype Stored = Stored(key: nat, obj: Object, at: nat)

  datatype State = State(
    items: seq<Item>,              // the Map, first key first
    cachedBytes: int,
    evictions: nat,
    hits: nat,
    misses: nat,
    originFetches: nat,
    inflight: map<nat, nat>,       // key to fetch
    fetches: map<nat, nat>,        // unsettled origin fetches, fetch to key
    waiters: map<nat, Waiter>,
    touched: seq<nat>,             // history: the key of every store, in order
    fetched: set<(nat, Object)>,   // history: what the origin gave for which key
    stored: set<Stored>)           // history: what a miss put into the map, and when

  function Bytes(items: seq<Item>): nat {
    if items == [] then 0 else items[0].obj.size + Bytes(items[1..])
  }

  function Without(items: seq<Item>, key: nat): seq<Item> {
    if items == [] then []
    else if items[0].key == key then Without(items[1..], key)
    else [items[0]] + Without(items[1..], key)
  }

  /** The eviction loop: drop the first key while over budget. */
  function EvictTo(items: seq<Item>, maxBytes: nat): (kept: seq<Item>)
    ensures |kept| <= |items|
  {
    if Bytes(items) > maxBytes then EvictTo(items[1..], maxBytes) else items
  }

  function Find(items: seq<Item>, key: nat): Option<Item> {
    if items == [] then None else if items[0].key == key then Some(items[0]) else Find(items[1..], key)
  }

  function Drop(s: State, key: nat): State {
    match Find(s.items, key)
    case None => s
    case Some(item) => s.(items := Without(s.items, key), cachedBytes := s.cachedBytes - item.obj.size)
  }

  function Store(b: Budget, s: State, item: Item): State {
    var full := Without(s.items, item.key) + [item];
    var kept := EvictTo(full, b.maxBytes);
    s.(items := kept,
       cachedBytes := Bytes(kept),
       evictions := s.evictions + |full| - |kept|,
       touched := s.touched + [item.key])
  }

  /** The synchronous part of a GET: hit, or miss joined to the fetch in flight. */
  function Request(b: Budget, s: State, request: nat, key: nat, now: nat, newFetch: nat): State {
    match Find(s.items, key)
    case Some(item) =>
      if item.expiresAt > now then Store(b, s, item).(hits := s.hits + 1)
      else Join(Drop(s, key), request, key, newFetch)
    case None => Join(s, request, key, newFetch)
  }

  function Join(s: State, request: nat, key: nat, newFetch: nat): State {
    var missed := s.(misses := s.misses + 1);
    if key in s.inflight then missed.(waiters := s.waiters[request := Waiting(key, s.inflight[key])])
    else
      missed.(originFetches := s.originFetches + 1,
              inflight := s.inflight[key := newFetch],
              fetches := s.fetches[newFetch := key],
              waiters := s.waiters[request := Waiting(key, newFetch)])
  }

  /** A fetch settles: its key leaves `inflight` and everybody who joined it has the answer. */
  function Settle(s: State, fetch: nat, answer: Answer): State
    requires fetch in s.fetches
  {
    s.(inflight := s.inflight - {s.fetches[fetch]},
       fetches := s.fetches - {fetch},
       waiters := map r | r in s.waiters ::
         if s.waiters[r] == Waiting(s.waiters[r].key, fetch) then Ready(s.waiters[r].key, answer) else s.waiters[r],
       fetched := s.fetched + if answer.Found? then {(s.fetches[fetch], answer.obj)} else {})
  }

  /** A waiter continues after its await. */
  function Resume(b: Budget, s: State, request: nat, now: nat): State
    requires request in s.waiters && s.waiters[request].Ready?
  {
    var w := s.waiters[request];
    var rest := s.(waiters := s.waiters - {request});
    if w.answer.Found? && w.answer.obj.ttlMs > 0 && w.answer.obj.size <= b.maxObjectBytes
    then Store(b, rest, Item(w.key, w.answer.obj, now + w.answer.obj.ttlMs)).(stored := s.stored + {Stored(w.key, w.answer.obj, now)})
    else rest
  }

  // ---- Facts about the map ----

  ghost predicate UniqueKeys(items: seq<Item>) {
    forall i, j :: 0 <= i < j < |items| ==> items[i].key != items[j].key
  }

  lemma {:induction false} BytesSplit(items: seq<Item>, k: nat)
    requires k <= |items|
    ensures Bytes(items) == Bytes(items[..k]) + Bytes(items[k..])
  {
    if k == 0 {
      assert items[..0] == [] && items[0..] == items;
    } else {
      BytesSplit(items[1..], k - 1);
      assert items[..k][1..] == items[1..][..k - 1] && items[k..] == items[1..][k - 1..];
    }
  }

  lemma {:induction false} WithoutFacts(items: seq<Item>, key: nat)
    requires UniqueKeys(items)
    ensures UniqueKeys(Without(items, key))
    ensures forall x :: x in Without(items, key) <==> x in items && x.key != key
    ensures Bytes(Without(items, key)) == Bytes(items) - (if Find(items, key).Some? then Find(items, key).value.obj.size else 0)
    ensures Find(items, key).Some? ==> Find(items, key).value in items && Find(items, key).value.key == key
    ensures Find(items, key).None? ==> Without(items, key) == items && forall x :: x in items ==> x.key != key
  {
    if items != [] {
      WithoutFacts(items[1..], key);
      assert items == [items[0]] + items[1..];
      if items[0].key == key {
        assert forall x :: x in items[1..] ==> x.key != key;
        NoneToRemove(items[1..], key);
      } else {
        var rest := Without(items[1..], key);
        assert forall x :: x in rest ==> x in items[1..];
        assert forall x :: x in items[1..] ==> x.key != items[0].key;
      }
    }
  }

  lemma {:induction false} NoneToRemove(items: seq<Item>, key: nat)
    requires forall x :: x in items ==> x.key != key
    ensures Without(items, key) == items && Find(items, key).None?
  {
    if items != [] {
      assert forall x :: x in items[1..] ==> x in items;
      NoneToRemove(items[1..], key);
    }
  }

  lemma AppendBytes(items: seq<Item>, item: Item)
    ensures Bytes(items + [item]) == Bytes(items) + item.obj.size
  {
    BytesSplit(items + [item], |items|);
    assert (items + [item])[..|items|] == items && (items + [item])[|items|..] == [item] && [item][1..] == [];
  }

  lemma AppendNew(items: seq<Item>, item: Item)
    requires UniqueKeys(items) && forall x :: x in items ==> x.key != item.key
    ensures UniqueKeys(items + [item])
  {
    assert forall i :: 0 <= i < |items| ==> items[i] in items;
  }

  lemma FirstGone(items: seq<Item>)
    requires items != [] && UniqueKeys(items)
    ensures Without(items, items[0].key) == items[1..] && UniqueKeys(items[1..])
    ensures Find(items, items[0].key) == Some(items[0]) && Bytes(items) == items[0].obj.size + Bytes(items[1..])
  {
    NoneToRemove(items[1..], items[0].key);
  }

  /** The loop drops the shortest prefix that brings the rest within budget, and spares an item that fits alone. */
  lemma {:induction false} EvictionIsMinimal(items: seq<Item>, maxBytes: nat) returns (k: nat)
    ensures k <= |items| && EvictTo(items, maxBytes) == items[k..]
    ensures Bytes(items[k..]) <= maxBytes
    ensures forall j :: 0 <= j < k ==> Bytes(items[j..]) > maxBytes
    ensures items != [] && items[|items| - 1].obj.size <= maxBytes ==> k < |items|
    decreases |items|
  {
    if Bytes(items) > maxBytes {
      var rest := EvictionIsMinimal(items[1..], maxBytes);
      k := rest + 1;
      assert forall j :: 1 <= j <= |items| ==> items[j..] == items[1..][j - 1..];
      assert items[0..] == items;
      if |items| == 1 {
        assert items[1..] == [];
      }
    } else {
      k := 0;
      assert items[0..] == items;
    }
  }

  function LastTouch(touched: seq<nat>, key: nat): int {
    if touched == [] then -1
    else if touched[|touched| - 1] == key then |touched| - 1
    else LastTouch(touched[..|touched| - 1], key)
  }

  /** Insertion order is recency order: earlier in the map means stored or hit longer ago. */
  ghost predicate InRecencyOrder(items: seq<Item>, touched: seq<nat>) {
    && (forall i :: 0 <= i < |items| ==> 0 <= LastTouch(touched, items[i].key) < |touched|)
    && (forall i, j :: 0 <= i < j < |items| ==> LastTouch(touched, items[i].key) < LastTouch(touched, items[j].key))
  }

  lemma {:induction false} WithoutKeepsOrder(items: seq<Item>, touched: seq<nat>, key: nat)
    requires InRecencyOrder(items, touched)
    ensures InRecencyOrder(Without(items, key), touched)
    ensures forall x :: x in Without(items, key) ==> x in items && x.key != key
  {
    if items != [] {
      WithoutKeepsOrder(items[1..], touched, key);
      var first, rest := items[0], Without(items[1..], key);
      if first.key != key {
        forall j | 0 <= j < |rest| ensures LastTouch(touched, first.key) < LastTouch(touched, rest[j].key) {
          assert rest[j] in items[1..];
        }
        Prepend(first, rest, touched);
      }
    }
  }

  lemma Prepend(first: Item, rest: seq<Item>, touched: seq<nat>)
    requires InRecencyOrder(rest, touched) && 0 <= LastTouch(touched, first.key) < |touched|
    requires forall j :: 0 <= j < |rest| ==> LastTouch(touched, first.key) < LastTouch(touched, rest[j].key)
    ensures InRecencyOrder([first] + rest, touched)
  {
    var all := [first] + rest;
    forall i | 0 <= i < |all| ensures 0 <= LastTouch(touched, all[i].key) < |touched| {
      assert i > 0 ==> all[i] == rest[i - 1];
    }
    forall i, j | 0 <= i < j < |all| ensures LastTouch(touched, all[i].key) < LastTouch(touched, all[j].key) {
      PrependAt(first, rest, touched, i, j);
    }
  }

  lemma PrependAt(first: Item, rest: seq<Item>, touched: seq<nat>, i: nat, j: nat)
    requires InRecencyOrder(rest, touched) && i < j < |rest| + 1
    requires forall k :: 0 <= k < |rest| ==> LastTouch(touched, first.key) < LastTouch(touched, rest[k].key)
    ensures LastTouch(touched, ([first] + rest)[i].key) < LastTouch(touched, ([first] + rest)[j].key)
  {
    assert ([first] + rest)[j] == rest[j - 1];
    if i > 0 {
      assert ([first] + rest)[i] == rest[i - 1];
    }
  }

  lemma TouchMovesToEnd(items: seq<Item>, touched: seq<nat>, item: Item)
    requires InRecencyOrder(items, touched) && forall x :: x in items ==> x.key != item.key
    ensures InRecencyOrder(items + [item], touched + [item.key])
  {
    var touched' := touched + [item.key];
    assert touched'[..|touched|] == touched;
    var all := items + [item];
    forall i | 0 <= i < |items| ensures LastTouch(touched', all[i].key) == LastTouch(touched, items[i].key) {
      assert items[i] in items;
    }
  }

  lemma SuffixKeeps(items: seq<Item>, touched: seq<nat>, k: nat)
    requires UniqueKeys(items) && InRecencyOrder(items, touched) && k <= |items|
    ensures UniqueKeys(items[k..]) && InRecencyOrder(items[k..], touched)
  {
  }

  lemma RestoredFacts(items: seq<Item>, touched: seq<nat>, item: Item)
    requires UniqueKeys(items) && InRecencyOrder(items, touched)
    ensures var full := Without(items, item.key) + [item];
            UniqueKeys(full) && InRecencyOrder(full, touched + [item.key])
  {
    WithoutFacts(items, item.key);
    WithoutKeepsOrder(items, touched, item.key);
    var rest := Without(items, item.key);
    forall i | 0 <= i < |rest| ensures rest[i].key != item.key {
      assert rest[i] in rest;
    }
    TouchMovesToEnd(rest, touched, item);
  }

  /** Storing keeps uniqueness, accounting, budget and recency; it drops a shortest least-recent prefix, never the new item. */
  lemma StoreFacts(b: Budget, s: State, item: Item) returns (k: nat)
    requires UniqueKeys(s.items) && InRecencyOrder(s.items, s.touched) && item.obj.size <= b.maxBytes
    ensures var s' := Store(b, s, item);
            var full := Without(s.items, item.key) + [item];
            && UniqueKeys(s'.items) && InRecencyOrder(s'.items, s'.touched)
            && s'.cachedBytes == Bytes(s'.items) <= b.maxBytes
            && k < |full| && s'.items == full[k..] && s'.evictions == s.evictions + k
            && (forall j :: 0 <= j < k ==> Bytes(full[j..]) > b.maxBytes)
            && s'.items[|s'.items| - 1] == item
  {
    RestoredFacts(s.items, s.touched, item);
    var full := Without(s.items, item.key) + [item];
    k := EvictionIsMinimal(full, b.maxBytes);
    SuffixKeeps(full, s.touched + [item.key], k);
  }

  /** A hit evicts nothing, changes no expiry, and only moves its item to the end. */
  lemma HitFacts(b: Budget, s: State, item: Item)
    requires UniqueKeys(s.items) && Find(s.items, item.key) == Some(item) && Bytes(s.items) <= b.maxBytes
    ensures Store(b, s, item).items == Without(s.items, item.key) + [item]
    ensures Store(b, s, item).evictions == s.evictions && Store(b, s, item).cachedBytes == Bytes(s.items)
    ensures forall x :: x in Store(b, s, item).items <==> x in s.items
  {
    WithoutFacts(s.items, item.key);
    var rest := Without(s.items, item.key);
    AppendBytes(rest, item);
    forall x ensures x in rest + [item] <==> x in s.items {
      if x in s.items && x.key == item.key {
        KeyIsUnique(s.items, x, item);
      }
    }
  }

  lemma KeyIsUnique(items: seq<Item>, x: Item, y: Item)
    requires UniqueKeys(items) && x in items && y in items && x.key == y.key
    ensures x == y
  {
  }

  // ---- Runs ----

  datatype Action =
    | OnRequest(request: nat, key: nat, now: nat, newFetch: nat)
    | OnSettle(fetch: nat, answer: Answer)
    | OnResume(request: nat, now: nat)

  predicate Enabled(s: State, a: Action) {
    match a
    case OnRequest(request, _, _, newFetch) => request !in s.waiters && newFetch !in s.fetches
    case OnSettle(fetch, _) => fetch in s.fetches
    case OnResume(request, _) => request in s.waiters && s.waiters[request].Ready?
  }

  function Next(b: Budget, s: State, a: Action): State
    requires Enabled(s, a)
  {
    match a
    case OnRequest(request, key, now, newFetch) => Request(b, s, request, key, now, newFetch)
    case OnSettle(fetch, answer) => Settle(s, fetch, answer)
    case OnResume(request, now) => Resume(b, s, request, now)
  }

  ghost predicate Inv(b: Budget, s: State) {
    && UniqueKeys(s.items) && InRecencyOrder(s.items, s.touched)
    && s.cachedBytes == Bytes(s.items) <= b.maxBytes
    && OneFetchPerKey(s)
  }

  /** Every unsettled fetch is the one `inflight` names for its key, so no key is fetched twice at once. */
  ghost predicate OneFetchPerKey(s: State) {
    && (forall f :: f in s.fetches ==> s.fetches[f] in s.inflight && s.inflight[s.fetches[f]] == f)
    && (forall k :: k in s.inflight ==> s.inflight[k] in s.fetches && s.fetches[s.inflight[k]] == k)
  }

  lemma DropKeeps(b: Budget, s: State, key: nat)
    requires Inv(b, s)
    ensures Inv(b, Drop(s, key))
  {
    WithoutFacts(s.items, key);
    WithoutKeepsOrder(s.items, s.touched, key);
  }

  lemma StoreKeeps(b: Budget, s: State, item: Item)
    requires Inv(b, s) && item.obj.size <= b.maxBytes
    ensures Inv(b, Store(b, s, item))
  {
    var k := StoreFacts(b, s, item);
  }

  lemma {:induction false} ItemFits(items: seq<Item>, x: Item)
    requires x in items
    ensures x.obj.size <= Bytes(items)
  {
    if items[0] != x {
      ItemFits(items[1..], x);
    }
  }

  lemma RequestKeeps(b: Budget, s: State, request: nat, key: nat, now: nat, newFetch: nat)
    requires Inv(b, s) && request !in s.waiters && newFetch !in s.fetches
    ensures Inv(b, Request(b, s, request, key, now, newFetch))
  {
    WithoutFacts(s.items, key);
    if Find(s.items, key).Some? {
      var item := Find(s.items, key).value;
      ItemFits(s.items, item);
      StoreKeeps(b, s, item);
      DropKeeps(b, s, key);
      JoinKeeps(b, Drop(s, key), request, key, newFetch);
    } else {
      JoinKeeps(b, s, request, key, newFetch);
    }
  }

  lemma JoinKeeps(b: Budget, s: State, request: nat, key: nat, newFetch: nat)
    requires Inv(b, s) && newFetch !in s.fetches
    ensures Inv(b, Join(s, request, key, newFetch))
  {
  }

  lemma SettleKeeps(b: Budget, s: State, fetch: nat, answer: Answer)
    requires Inv(b, s) && fetch in s.fetches
    ensures Inv(b, Settle(s, fetch, answer))
  {
  }

  lemma ResumeKeeps(b: Budget, s: State, request: nat, now: nat)
    requires Sound(b) && Inv(b, s) && request in s.waiters && s.waiters[request].Ready?
    ensures Inv(b, Resume(b, s, request, now))
  {
    var w := s.waiters[request];
    var rest := s.(waiters := s.waiters - {request});
    assert Inv(b, rest);
    if w.answer.Found? && w.answer.obj.size <= b.maxObjectBytes {
      StoreKeeps(b, rest, Item(w.key, w.answer.obj, now + w.answer.obj.ttlMs));
    }
  }

  lemma StepKeeps(b: Budget, s: State, a: Action)
    requires Sound(b) && Inv(b, s) && Enabled(s, a)
    ensures Inv(b, Next(b, s, a))
  {
    match a
    case OnRequest(request, key, now, newFetch) => RequestKeeps(b, s, request, key, now, newFetch);
    case OnSettle(fetch, answer) => SettleKeeps(b, s, fetch, answer);
    case OnResume(request, now) => ResumeKeeps(b, s, request, now);
  }

  predicate Init(s: State) {
    s.items == [] && s.cachedBytes == 0 && s.inflight == map[] && s.fetches == map[] && s.waiters == map[] && s.touched == []
    && s.fetched == {} && s.stored == {}
  }

  ghost predicate IsRun(b: Budget, run: seq<State>) {
    && |run| > 0 && Init(run[0])
    && forall i :: 0 <= i < |run| - 1 ==> StepAt(b, run, i)
  }

  ghost predicate StepAt(b: Budget, run: seq<State>, i: nat)
    requires i + 1 < |run|
  {
    exists a :: Enabled(run[i], a) && run[i + 1] == Next(b, run[i], a)
  }

  /**
   * After every request of every run: map order is recency order, the byte counter is the sum of the stored
   * bodies and within budget, and no key has two origin fetches in flight.
   */
  lemma {:induction false} RunKeeps(b: Budget, run: seq<State>, i: nat)
    requires Sound(b) && IsRun(b, run) && i < |run|
    ensures Inv(b, run[i])
    ensures forall f, g :: f in run[i].fetches && g in run[i].fetches && run[i].fetches[f] == run[i].fetches[g] ==> f == g
  {
    if i > 0 {
      RunKeeps(b, run, i - 1);
      assert StepAt(b, run, i - 1);
      var a :| Enabled(run[i - 1], a) && run[i] == Next(b, run[i - 1], a);
      StepKeeps(b, run[i - 1], a);
    }
  }

  // ---- Where answers come from ----

  /**
   * Every item was put there by a miss, for a fetch of its own key, and lasts one TTL from then. Every request that
   * has its answer got it from a fetch of its key, and every other one waits for a fetch of its key still under way.
   */
  ghost predicate Sourced(b: Budget, s: State) {
    && (forall x :: x in s.items ==> ItemSourced(b, s, x))
    && (forall r :: r in s.waiters ==> WaiterSourced(s, s.waiters[r]))
  }

  ghost predicate ItemSourced(b: Budget, s: State, x: Item) {
    && (x.key, x.obj) in s.fetched && 0 < x.obj.ttlMs <= x.expiresAt && x.obj.size <= b.maxObjectBytes
    && Stored(x.key, x.obj, x.expiresAt - x.obj.ttlMs) in s.stored
  }

  ghost predicate WaiterSourced(s: State, w: Waiter) {
    match w
    case Waiting(key, fetch) => fetch in s.fetches && s.fetches[fetch] == key
    case Ready(key, answer) => answer.Found? ==> (key, answer.obj) in s.fetched
  }

  /** Whatever is stored after storing was there before, or is the new item. */
  lemma StoredIsOldOrNew(b: Budget, s: State, item: Item)
    requires UniqueKeys(s.items)
    ensures forall x :: x in Store(b, s, item).items ==> x in s.items || x == item
  {
    WithoutFacts(s.items, item.key);
    var k := EvictionIsMinimal(Without(s.items, item.key) + [item], b.maxBytes);
  }

  lemma RequestKeepsSources(b: Budget, s: State, request: nat, key: nat, now: nat, newFetch: nat)
    requires UniqueKeys(s.items) && OneFetchPerKey(s) && Sourced(b, s) && newFetch !in s.fetches
    ensures Sourced(b, Request(b, s, request, key, now, newFetch))
  {
    WithoutFacts(s.items, key);
    JoinKeepsSources(b, Drop(s, key), request, key, newFetch);
    if Find(s.items, key).Some? {
      StoredIsOldOrNew(b, s, Find(s.items, key).value);
    }
  }

  lemma JoinKeepsSources(b: Budget, s: State, request: nat, key: nat, newFetch: nat)
    requires OneFetchPerKey(s) && Sourced(b, s) && newFetch !in s.fetches
    ensures Sourced(b, Join(s, request, key, newFetch))
  {
  }

  lemma SettleKeepsSources(b: Budget, s: State, fetch: nat, answer: Answer)
    requires Sourced(b, s) && fetch in s.fetches
    ensures Sourced(b, Settle(s, fetch, answer))
  {
    var s' := Settle(s, fetch, answer);
    forall r | r in s'.waiters ensures WaiterSourced(s', s'.waiters[r]) {
      assert WaiterSourced(s, s.waiters[r]);
    }
  }

  lemma ResumeKeepsSources(b: Budget, s: State, request: nat, now: nat)
    requires UniqueKeys(s.items) && Sourced(b, s) && request in s.waiters && s.waiters[request].Ready?
    ensures Sourced(b, Resume(b, s, request, now))
  {
    var w := s.waiters[request];
    assert WaiterSourced(s, w);
    if w.answer.Found? {
      StoredIsOldOrNew(b, s.(waiters := s.waiters - {request}), Item(w.key, w.answer.obj, now + w.answer.obj.ttlMs));
    }
  }

  lemma StepKeepsSources(b: Budget, s: State, a: Action)
    requires Inv(b, s) && Sourced(b, s) && Enabled(s, a)
    ensures Sourced(b, Next(b, s, a))
  {
    match a
    case OnRequest(request, key, now, newFetch) => RequestKeepsSources(b, s, request, key, now, newFetch);
    case OnSettle(fetch, answer) => SettleKeepsSources(b, s, fetch, answer);
    case OnResume(request, now) => ResumeKeepsSources(b, s, request, now);
  }

  lemma {:induction false} RunIsSourced(b: Budget, run: seq<State>, i: nat)
    requires Sound(b) && IsRun(b, run) && i < |run|
    ensures Sourced(b, run[i])
  {
    if i > 0 {
      RunIsSourced(b, run, i - 1);
      RunKeeps(b, run, i - 1);
      assert StepAt(b, run, i - 1);
      var a :| Enabled(run[i - 1], a) && run[i] == Next(b, run[i - 1], a);
      StepKeepsSources(b, run[i - 1], a);
    }
  }

  /**
   * In every run: a hit serves what the origin gave for that very key, less than its TTL after a miss stored it;
   * a miss is answered from a fetch of its key, and until then that fetch is under way.
   */
  lemma AnswersComeFromTheirKey(b: Budget, run: seq<State>, i: nat, x: Item, now: nat, request: nat)
    requires Sound(b) && IsRun(b, run) && i < |run|
    ensures x in run[i].items && x.expiresAt > now ==>
              && (x.key, x.obj) in run[i].fetched
              && exists s :: s in run[i].stored && s.key == x.key && s.obj == x.obj && now < s.at + x.obj.ttlMs
    ensures request in run[i].waiters && run[i].waiters[request].Ready? && run[i].waiters[request].answer.Found? ==>
              (run[i].waiters[request].key, run[i].waiters[request].answer.obj) in run[i].fetched
    ensures request in run[i].waiters && run[i].waiters[request].Waiting? ==>
              run[i].waiters[request].fetch in run[i].fetches
              && run[i].fetches[run[i].waiters[request].fetch] == run[i].waiters[request].key
  {
    RunIsSourced(b, run, i);
    if x in run[i].items {
      assert ItemSourced(b, run[i], x);
    }
    if request in run[i].waiters {
      assert WaiterSourced(run[i], run[i].waiters[request]);
    }
  }

  lemma NoOtherHolds(items: seq<Item>, key: nat)
    requires UniqueKeys(items)
    ensures forall x :: x in items && x.key == key ==> Find(items, key) == Some(x)
  {
    WithoutFacts(items, key);
    forall x | x in items && x.key == key ensures Find(items, key) == Some(x) {
      KeyIsUnique(items, x, Find(items, key).value);
    }
  }

  /** The new item is kept, last, within budget, and everything else that is kept was there under another key. */
  lemma StoredLast(b: Budget, s: State, item: Item)
    requires UniqueKeys(s.items) && item.obj.size <= b.maxBytes
    ensures var s' := Store(b, s, item);
            && s'.items != [] && s'.items[|s'.items| - 1] == item && UniqueKeys(s'.items)
            && s'.cachedBytes == Bytes(s'.items) <= b.maxBytes
            && forall x :: x in s'.items[..|s'.items| - 1] ==> x in s.items && x.key != item.key
  {
    WithoutFacts(s.items, item.key);
    AppendNew(Without(s.items, item.key), item);
    KeptBefore(Without(s.items, item.key), item, b.maxBytes);
  }

  lemma KeptBefore(rest: seq<Item>, item: Item, maxBytes: nat)
    requires UniqueKeys(rest + [item]) && item.obj.size <= maxBytes
    ensures var kept := EvictTo(rest + [item], maxBytes);
            && kept != [] && kept[|kept| - 1] == item && UniqueKeys(kept) && Bytes(kept) <= maxBytes
            && forall x :: x in kept[..|kept| - 1] ==> x in rest
  {
    var k := EvictionIsMinimal(rest + [item], maxBytes);
    var kept := EvictTo(rest + [item], maxBytes);
    assert kept[..|kept| - 1] == rest[k..];
  }

  class EdgeCache {
    const budget: Budget
    var items: seq<Item>
    var cachedBytes: int
    var evictions: nat
    var hits: nat
    var misses: nat
    var originFetches: nat
    var inflight: map<nat, nat>
    var fetches: map<nat, nat>
    var waiters: map<nat, Waiter>
    ghost var touched: seq<nat>
    ghost var fetched: set<(nat, Object)>
    ghost var stored: set<Stored>

    ghost function View(): State
      reads this
    {
      State(items, cachedBytes, evictions, hits, misses, originFetches, inflight, fetches, waiters, touched, fetched, stored)
    }

    ghost predicate Valid()
      reads this
    {
      UniqueKeys(items) && cachedBytes == Bytes(items) <= budget.maxBytes && Sound(budget)
    }

    /** Some stored item answers a GET of `key` at time `now`. */
    ghost predicate Live(key: nat, now: nat)
      reads this
    {
      exists x :: x in items && x.key == key && x.expiresAt > now
    }

    method DropKey(key: nat)
      modifies this`items, this`cachedBytes
      ensures View() == Drop(old(View()), key)
    {
      var entry := Find(items, key);
      if entry.None? {
        return;
      }
      items := Without(items, key);
      cachedBytes := cachedBytes - entry.value.obj.size;
    }

    /** Drops first keys, the ones untouched for longest, until the stored bodies fit the budget. */
    method EvictOverBudget()
      requires UniqueKeys(items) && cachedBytes == Bytes(items)
      modifies this`items, this`cachedBytes, this`evictions
      ensures items == EvictTo(old(items), budget.maxBytes) && cachedBytes == Bytes(items)
      ensures evictions == old(evictions) + |old(items)| - |items|
    {
      while cachedBytes > budget.maxBytes
        invariant cachedBytes == Bytes(items) && UniqueKeys(items) && |items| <= |old(items)|
        invariant EvictTo(items, budget.maxBytes) == EvictTo(old(items), budget.maxBytes)
        invariant evictions == old(evictions) + |old(items)| - |items|
        decreases |items|
      {
        FirstGone(items);
        DropKey(items[0].key);
        evictions := evictions + 1;
      }
    }

    method StoreItem(item: Item)
      requires UniqueKeys(items) && cachedBytes == Bytes(items)
      modifies this`items, this`cachedBytes, this`evictions, this`touched
      ensures View() == Store(budget, old(View()), item)
    {
      WithoutFacts(items, item.key);
      DropKey(item.key);
      AppendBytes(items, item);
      AppendNew(items, item);
      items := items + [item];
      cachedBytes := cachedBytes + item.obj.size;
      touched := touched + [item.key];
      EvictOverBudget();
    }

    /** One origin fetch per key, however many requests miss at once. */
    method JoinFetch(request: nat, key: nat, newFetch: nat)
      modifies this`misses, this`originFetches, this`inflight, this`fetches, this`waiters
      ensures View() == Join(old(View()), request, key, newFetch)
      ensures misses == old(misses) + 1 && key in inflight && waiters == old(waiters)[request := Waiting(key, inflight[key])]
      ensures key in old(inflight) ==>
        originFetches == old(originFetches) && inflight == old(inflight) && fetches == old(fetches)
      ensures key !in old(inflight) ==>
        && originFetches == old(originFetches) + 1
        && inflight == old(inflight)[key := newFetch] && fetches == old(fetches)[newFetch := key]
    {
      misses := misses + 1;
      var pending: nat;
      if key in inflight {
        pending := inflight[key];
      } else {
        originFetches := originFetches + 1;
        pending := newFetch;
        fetches := fetches[pending := key];
        inflight := inflight[key := pending];
      }
      waiters := waiters[request := Waiting(key, pending)];
    }

    /** A GET up to its first await: the object a hit serves, or None after a miss. */
    method OnGet(request: nat, key: nat, now: nat, newFetch: nat) returns (served: Option<Object>)
      requires Valid()
      modifies this
      ensures View() == Request(budget, old(View()), request, key, now, newFetch) && Valid()
      ensures served.Some? <==> old(Live(key, now))
      ensures served.Some? ==>
        && (exists x :: x in old(items) && x.key == key && x.expiresAt > now && x.obj == served.value)
        && (forall x :: x in items <==> x in old(items)) && items[|items| - 1].key == key
        && hits == old(hits) + 1 && misses == old(misses) && originFetches == old(originFetches)
        && waiters == old(waiters) && inflight == old(inflight) && fetches == old(fetches) && evictions == old(evictions)
      ensures served.None? ==>
        && (forall x :: x in items <==> x in old(items) && x.key != key)
        && hits == old(hits) && misses == old(misses) + 1 && evictions == old(evictions)
        && key in inflight && waiters == old(waiters)[request := Waiting(key, inflight[key])]
      ensures served.None? && key in old(inflight) ==>
        originFetches == old(originFetches) && inflight == old(inflight) && fetches == old(fetches)
      ensures served.None? && key !in old(inflight) ==>
        && originFetches == old(originFetches) + 1
        && inflight == old(inflight)[key := newFetch] && fetches == old(fetches)[newFetch := key]
    {
      var cached := Find(items, key);
      WithoutFacts(items, key);
      NoOtherHolds(items, key);
      if cached.Some? && cached.value.expiresAt > now {
        hits := hits + 1;
        HitFacts(budget, View(), cached.value);
        StoreItem(cached.value);
        return Some(cached.value.obj);
      }
      if cached.Some? {
        DropKey(key);
      }
      JoinFetch(request, key, newFetch);
      return None;
    }

    /** An origin fetch ends: all that waited for it, and nobody else, have its answer. */
    method OnFetchSettled(fetch: nat, answer: Answer)
      requires fetch in fetches
      modifies this
      ensures View() == Settle(old(View()), fetch, answer)
      ensures items == old(items) && cachedBytes == old(cachedBytes)
      ensures fetches == old(fetches) - {fetch} && inflight == old(inflight) - {old(fetches)[fetch]}
      ensures waiters.Keys == old(waiters).Keys
      ensures forall r :: r in waiters ==>
                if old(waiters)[r].Waiting? && old(waiters)[r].fetch == fetch then waiters[r] == Ready(old(waiters)[r].key, answer)
                else waiters[r] == old(waiters)[r]
    {
      fetched := fetched + if answer.Found? then {(fetches[fetch], answer.obj)} else {};
      inflight := inflight - {fetches[fetch]};
      fetches := fetches - {fetch};
      waiters := map r | r in waiters ::
        if waiters[r] == Waiting(waiters[r].key, fetch) then Ready(waiters[r].key, answer) else waiters[r];
    }

    /** A miss after its await: it serves what the fetch gave, and keeps it where it may. */
    method OnContinue(request: nat, now: nat) returns (reply: Answer)
      requires request in waiters && waiters[request].Ready?
      requires Valid()
      modifies this
      ensures View() == Resume(budget, old(View()), request, now) && Valid()
      ensures reply == old(waiters)[request].answer && waiters == old(waiters) - {request}
      ensures var w := old(waiters)[request];
              if reply.Found? && reply.obj.ttlMs > 0 && reply.obj.size <= budget.maxObjectBytes
              then items != [] && items[|items| - 1] == Item(w.key, reply.obj, now + reply.obj.ttlMs)
                   && forall x :: x in items[..|items| - 1] ==> x in old(items) && x.key != w.key
              else items == old(items)
    {
      var w := waiters[request];
      waiters := waiters - {request};
      if w.answer.Found? && w.answer.obj.ttlMs > 0 && w.answer.obj.size <= budget.maxObjectBytes {
        stored := stored + {Stored(w.key, w.answer.obj, now)};
        StoredLast(budget, View(), Item(w.key, w.answer.obj, now + w.answer.obj.ttlMs));
        StoreItem(Item(w.key, w.answer.obj, now + w.answer.obj.ttlMs));
      }
      return w.answer;
    }
  }
}
