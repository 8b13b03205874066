/** The outbox table and the three statements the relay runs on it: claim, mark, count. */
module OutboxTable {
  import opened Common

  const RELAY_BATCH_SIZE: nat := 50
  const RELAY_MAX_ATTEMPTS: nat := 5

  datatype Event = Event(eventId: nat, orderId: nat, userId: nat, totalCents: nat)

  datatype Row = Row(
    payload: Event,
    createdAt: nat,
    publishedAt: Option<nat>,
    attempts: nat,
    lastError: Option<string>)

  type Table = map<nat, Row>

  /** What one publish ends in: the broker's confirm, its refusal, or a channel that died first. */
  datatype Reply = Confirmed | Refused(error: string) | ChannelClosed

  predicate IsPending(r: Row) {
    r.publishedAt.None? && r.attempts < RELAY_MAX_ATTEMPTS
  }

  predicate IsParked(r: Row) {
    r.publishedAt.None? && r.attempts >= RELAY_MAX_ATTEMPTS
  }

  predicate Claimable(t: Table, locked: set<nat>, id: nat) {
    id in t && IsPending(t[id]) && id !in locked
  }

  function PendingIds(t: Table): set<nat> {
    set id | id in t && IsPending(t[id])
  }

  function PublishedIds(t: Table): set<nat> {
    set id | id in t && t[id].publishedAt.Some?
  }

  /** ORDER BY created_at, id. */
  predicate Before(t: Table, a: nat, b: nat)
    requires a in t && b in t
  {
    t[a].createdAt < t[b].createdAt || (t[a].createdAt == t[b].createdAt && a < b)
  }

  /** The result set of SELECT ... FOR UPDATE SKIP LOCKED LIMIT: the earliest claimable rows, in order. */
  ghost predicate IsClaim(t: Table, locked: set<nat>, limit: nat, batch: seq<nat>) {
    && |batch| <= limit
    && (forall i :: 0 <= i < |batch| ==> Claimable(t, locked, batch[i]))
    && (forall i, j :: 0 <= i < j < |batch| ==> Before(t, batch[i], batch[j]))
    && (forall id :: Claimable(t, locked, id) && id !in batch ==>
          |batch| == limit && forall i :: 0 <= i < |batch| ==> Before(t, batch[i], id))
  }

  /** The claim is a function of the table: the ordering is total, so no two answers fit. */
  lemma {:induction false} ClaimIsUnique(t: Table, locked: set<nat>, limit: nat, a: seq<nat>, b: seq<nat>)
    requires IsClaim(t, locked, limit, a) && IsClaim(t, locked, limit, b)
    ensures a == b
  {
    var n := Min(|a|, |b|);
    forall i | 0 <= i < n ensures a[i] == b[i] {
      ClaimAgrees(t, locked, limit, a, b, i);
    }
    if |a| <= |b| {
      ClaimIsMaximal(t, locked, limit, a, b);
    } else {
      ClaimIsMaximal(t, locked, limit, b, a);
    }
  }

  lemma ClaimIsMaximal(t: Table, locked: set<nat>, limit: nat, claim: seq<nat>, longer: seq<nat>)
    requires IsClaim(t, locked, limit, claim) && claim <= longer
    requires forall i :: 0 <= i < |longer| ==> Claimable(t, locked, longer[i])
    requires forall i, j :: 0 <= i < j < |longer| ==> longer[i] != longer[j]
    ensures claim == longer || |claim| == limit
  {
    if |claim| < |longer| {
      assert longer[|claim|] !in claim;
    }
  }

  lemma {:induction false} ClaimAgrees(t: Table, locked: set<nat>, limit: nat, a: seq<nat>, b: seq<nat>, i: nat)
    requires IsClaim(t, locked, limit, a) && IsClaim(t, locked, limit, b)
    requires i < |a| && i < |b|
    ensures a[i] == b[i]
  {
    forall j | 0 <= j < i ensures a[j] == b[j] {
      ClaimAgrees(t, locked, limit, a, b, j);
    }
    var x, y := a[i], b[i];
    assert Before(t, x, y) ==> x !in b;
    assert Before(t, y, x) ==> y !in a;
  }

  function MarkRow(r: Row, reply: Reply, now: nat): Row {
    match reply
    case Confirmed => r.(publishedAt := Some(now), attempts := r.attempts + 1, lastError := None)
    case Refused(error) => r.(attempts := r.attempts + 1, lastError := Some(error))
    case ChannelClosed => r
  }

  /** The UPDATE statements of one pass, for the rows that got a verdict. */
  function Mark(t: Table, verdicts: map<nat, Reply>, now: nat): Table {
    map id | id in t :: if id in verdicts then MarkRow(t[id], verdicts[id], now) else t[id]
  }

  function AttemptsLeft(r: Row): nat {
    if IsPending(r) then RELAY_MAX_ATTEMPTS - r.attempts else 0
  }

  ghost function Contributions(t: Table): map<nat, int> {
    map id | id in t :: AttemptsLeft(t[id])
  }

  /** How many more publishes the pending rows can absorb before all are published or parked. */
  ghost function Budget(t: Table): int {
    Total(Contributions(t))
  }

  lemma BudgetOfUpdate(t: Table, id: nat, r: Row)
    ensures Budget(t[id := r]) == Budget(t) - (if id in t then AttemptsLeft(t[id]) else 0) + AttemptsLeft(r)
  {
    TotalUpdate(Contributions(t), id, AttemptsLeft(r));
    assert Contributions(t[id := r]) == Contributions(t)[id := AttemptsLeft(r)];
  }

  /** Purging published rows costs no attempts. */
  lemma BudgetOfPurge(t: Table, ids: set<nat>)
    requires forall id :: id in ids && id in t ==> !IsPending(t[id])
    ensures Budget(t - ids) == Budget(t)
  {
    TotalDropZeros(Contributions(t), t.Keys - ids);
    assert Contributions(t - ids) == Restrict(Contributions(t), t.Keys - ids);
  }

  /** The progress measure of the relay: every settled row of a committed pass uses up at least one attempt. */
  lemma {:induction false} MarkLowersBudget(t: Table, verdicts: map<nat, Reply>, now: nat)
    requires forall id :: id in verdicts ==> id in t && IsPending(t[id]) && !verdicts[id].ChannelClosed?
    ensures Budget(Mark(t, verdicts, now)) + |verdicts| <= Budget(t)
    decreases |verdicts|
  {
    if verdicts == map[] {
      assert Mark(t, verdicts, now) == t;
    } else {
      var id :| id in verdicts;
      var step := t[id := MarkRow(t[id], verdicts[id], now)];
      BudgetOfUpdate(t, id, MarkRow(t[id], verdicts[id], now));
      MarkLowersBudget(step, verdicts - {id}, now);
      assert Mark(step, verdicts - {id}, now) == Mark(t, verdicts, now);
      assert |verdicts - {id}| == |verdicts| - 1;
    }
  }

  /** A backlog of n pending rows has a budget between n and 5 n. */
  lemma BudgetBounds(t: Table)
    ensures |PendingIds(t)| <= Budget(t) <= 5 * |PendingIds(t)|
  {
    var some := Restrict(Contributions(t), PendingIds(t));
    TotalDropZeros(Contributions(t), PendingIds(t));
    assert some.Keys == PendingIds(t);
    TotalBound(some, RELAY_MAX_ATTEMPTS);
    TotalAtLeastSize(some);
  }

  ghost function Restrict(m: map<nat, int>, keep: set<nat>): map<nat, int> {
    map k | k in m && k in keep :: m[k]
  }

  lemma {:induction false} TotalDropZeros(m: map<nat, int>, keep: set<nat>)
    requires forall k :: k in m && k !in keep ==> m[k] == 0
    ensures Total(m) == Total(Restrict(m, keep))
    decreases |m|
  {
    if k :| k in m && k !in keep {
      TotalSplit(m, k);
      TotalDropZeros(m - {k}, keep);
      assert Restrict(m, keep) == Restrict(m - {k}, keep);
    } else {
      assert Restrict(m, keep) == m;
    }
  }

  lemma {:induction false} TotalAtLeastSize(m: map<nat, int>)
    requires forall k :: k in m ==> m[k] >= 1
    ensures Total(m) >= |m|
    decreases |m|
  {
    if m != map[] {
      var k :| k in m;
      TotalSplit(m, k);
      TotalAtLeastSize(m - {k});
    }
  }

  /** Attempts stay within the limit: a row is marked only while it is pending. */
  lemma MarkKeepsAttemptsBounded(t: Table, verdicts: map<nat, Reply>, now: nat)
    requires forall id :: id in t ==> t[id].attempts <= RELAY_MAX_ATTEMPTS
    requires forall id :: id in verdicts ==> id in t && IsPending(t[id])
    ensures forall id :: id in Mark(t, verdicts, now) ==> Mark(t, verdicts, now)[id].attempts <= RELAY_MAX_ATTEMPTS
  {
  }
}
