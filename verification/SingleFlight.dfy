/**
 * The single-flight cache. Every await of getOrLoad is a point where other callers run, so a caller is a
 * control state plus the operation it performs next; Redis is two maps of leases and entries on one clock.
 */
module SingleFlight {
  import opened Common

  type Value = Option<nat>  // None is a cached "not found"

  datatype Entry = Entry(value: Value, expiresAt: nat)
  datatype Lease = Lease(token: nat, expiresAt: nat)

  datatype Redis = Redis(now: nat, lockTtl: nat, cache: map<nat, Entry>, locks: map<nat, Lease>)

  datatype ReadResult = Hit(value: Value) | Miss | Down

  datatype LockAnswer = Won | Busy | LockFailed

  datatype Ending = Value(value: Value) | Threw

  /** One await of a caller, with the answer it gets. */
  datatype Op =
    | Read(result: ReadResult)
    | Lock(token: nat, answer: LockAnswer)
    | Loaded(value: Value)
    | LoadFailed
    | Wrote(value: Value, ttl: nat)
    | Released(token: nat)

  datatype Pc =
    | Start
    | Acquiring
    | Waiting
    | Rechecking(token: nat)
    | Loading(token: nat)
    | Writing(token: nat, value: Value)
    | Releasing(token: nat, ending: Ending)
    | Fallback
    | Finished(ending: Ending)

  /** The control flow of getOrLoad, await by await; None where the code cannot be. */
  function Advance(pc: Pc, op: Op): Option<Pc> {
    match (pc, op)
    case (Start, Read(Hit(v))) => Some(Finished(Ending.Value(v)))
    case (Start, Read(Miss)) => Some(Acquiring)
    case (Start, Read(Down)) => Some(Fallback)
    case (Acquiring, Lock(token, Won)) => Some(Rechecking(token))
    case (Acquiring, Lock(_, Busy)) => Some(Waiting)
    case (Acquiring, Lock(_, LockFailed)) => Some(Fallback)
    case (Waiting, Read(Hit(v))) => Some(Finished(Ending.Value(v)))
    case (Waiting, Read(Miss)) => Some(Acquiring)
    case (Waiting, Read(Down)) => Some(Fallback)
    case (Rechecking(token), Read(Hit(v))) => Some(Releasing(token, Ending.Value(v)))
    case (Rechecking(token), Read(_)) => Some(Loading(token))
    case (Loading(token), Loaded(v)) => Some(Writing(token, v))
    case (Loading(token), LoadFailed) => Some(Releasing(token, Threw))
    case (Writing(token, v), Wrote(written, _)) => if written == v then Some(Releasing(token, Ending.Value(v))) else None
    case (Releasing(token, ending), Released(own)) => if own == token then Some(Finished(ending)) else None
    case (Fallback, Loaded(v)) => Some(Finished(Ending.Value(v)))
    case (Fallback, LoadFailed) => Some(Finished(Threw))
    case _ => None
  }

  predicate LiveEntry(r: Redis, key: nat) {
    key in r.cache && r.cache[key].expiresAt > r.now
  }

  predicate LiveLock(r: Redis, key: nat) {
    key in r.locks && r.locks[key].expiresAt > r.now
  }

  /** Redis answers truthfully when it answers at all. */
  predicate Truthful(r: Redis, key: nat, op: Op) {
    match op
    case Read(Hit(v)) => LiveEntry(r, key) && r.cache[key].value == v
    case Read(Miss) => !LiveEntry(r, key)
    case Lock(_, Won) => !LiveLock(r, key)
    case Lock(_, Busy) => LiveLock(r, key)
    case _ => true
  }

  /** SET key token PX ttl NX */
  function AcquireLock(r: Redis, key: nat, token: nat): Redis {
    if LiveLock(r, key) then r else r.(locks := r.locks[key := Lease(token, r.now + r.lockTtl)])
  }

  /** Compare-and-delete. */
  function ReleaseLock(r: Redis, key: nat, token: nat): Redis {
    if LiveLock(r, key) && r.locks[key].token == token then r.(locks := r.locks - {key}) else r
  }

  function Store(r: Redis, key: nat, value: Value, ttl: nat): Redis {
    r.(cache := r.cache[key := Entry(value, r.now + ttl)])
  }

  /** The server-side effect of an operation; `applied` is false when the command never reached Redis. */
  function Effect(r: Redis, key: nat, pc: Pc, op: Op, applied: bool): Redis {
    match (pc, op)
    case (Acquiring, Lock(token, Won)) => AcquireLock(r, key, token)
    case (Acquiring, Lock(token, LockFailed)) => if applied then AcquireLock(r, key, token) else r
    case (Writing(_, v), Wrote(_, ttl)) => if applied then Store(r, key, v, ttl) else r
    case (Releasing(token, _), Released(_)) => if applied then ReleaseLock(r, key, token) else r
    case _ => r
  }

  /** A release leaves every lease of another token where it was. */
  lemma ReleaseIsSafe(r: Redis, key: nat, token: nat)
    ensures forall k :: k in r.locks && (k != key || r.locks[k].token != token) ==>
              k in ReleaseLock(r, key, token).locks && ReleaseLock(r, key, token).locks[k] == r.locks[k]
    ensures LiveLock(ReleaseLock(r, key, token), key) ==> r.locks[key].token != token
  {
  }

  /** A lease won now ends exactly one lock lifetime later, and until then nobody else can win. */
  lemma LeaseLastsLockTtl(r: Redis, key: nat, token: nat, later: nat)
    requires !LiveLock(r, key) && r.now <= later
    ensures var after := AcquireLock(r, key, token).(now := later);
            && (LiveLock(after, key) <==> later < r.now + r.lockTtl)
            && (LiveLock(after, key) ==> after.locks[key].token == token)
            && (later < r.now + r.lockTtl ==> forall other :: AcquireLock(after, key, other) == after)
  {
  }

  /** A stored value is served for exactly its TTL. */
  lemma EntryLastsTtl(r: Redis, key: nat, value: Value, ttl: nat, later: nat)
    requires r.now <= later
    ensures var after := Store(r, key, value, ttl).(now := later);
            && (LiveEntry(after, key) <==> later < r.now + ttl)
            && (LiveEntry(after, key) ==> after.cache[key].value == value)
            && after.locks == r.locks && forall k :: k != key ==> (LiveEntry(after, k) <==> LiveEntry(r.(now := later), k))
  {
  }

  datatype Caller = Caller(key: nat, pc: Pc)

  datatype State = State(
    redis: Redis,
    callers: map<nat, Caller>,
    // history, read by no action
    tokens: set<nat>,
    loads: map<nat, nat>,          // loads started, per key
    results: set<(nat, Value)>,    // what loads of each key returned
    wonAt: map<nat, nat>)          // when each caller last won a lock

  datatype Action =
    | Arrive(caller: nat, key: nat)
    | Step(caller: nat, op: Op, applied: bool)
    | Crash(caller: nat)
    | Tick(to: nat)
    | Evict(key: nat)
    | DropLock(key: nat)

  predicate Enabled(s: State, a: Action) {
    match a
    case Arrive(c, _) => c !in s.callers
    case Step(c, op, _) =>
      && c in s.callers && Advance(s.callers[c].pc, op).Some?
      && Truthful(s.redis, s.callers[c].key, op)
      && (op.Lock? ==> op.token !in s.tokens)
    case Crash(c) => c in s.callers
    case Tick(to) => s.redis.now <= to
    case Evict(_) => true
    case DropLock(_) => true
  }

  function LoadsOf(s: State, key: nat): nat {
    if key in s.loads then s.loads[key] else 0
  }

  predicate IsLoading(pc: Pc) { pc.Loading? || pc.Fallback? }

  function Next(s: State, a: Action): State
    requires Enabled(s, a)
  {
    match a
    case Arrive(c, key) => s.(callers := s.callers[c := Caller(key, Start)])
    case Step(c, op, applied) =>
      var key, pc := s.callers[c].key, s.callers[c].pc;
      var pc' := Advance(pc, op).value;
      s.(redis := Effect(s.redis, key, pc, op, applied),
         callers := s.callers[c := Caller(key, pc')],
         tokens := if op.Lock? then s.tokens + {op.token} else s.tokens,
         loads := if IsLoading(pc') then s.loads[key := LoadsOf(s, key) + 1] else s.loads,
         results := if op.Loaded? then s.results + {(key, op.value)} else s.results,
         wonAt := if op.Lock? && op.answer.Won? then s.wonAt[c := s.redis.now] else s.wonAt)
    case Crash(c) => s.(callers := s.callers - {c})
    case Tick(to) => s.(redis := s.redis.(now := to))
    case Evict(key) => s.(redis := s.redis.(cache := s.redis.cache - {key}))
    case DropLock(key) => s.(redis := s.redis.(locks := s.redis.locks - {key}))
  }

  predicate Init(s: State) {
    s.redis.cache == map[] && s.redis.locks == map[] && s.callers == map[]
    && s.tokens == {} && s.loads == map[] && s.results == {}
  }

  ghost predicate IsRun(run: seq<State>) {
    && |run| > 0 && Init(run[0])
    && forall i :: 0 <= i < |run| - 1 ==> StepAt(run, i)
  }

  ghost predicate StepAt(run: seq<State>, i: nat)
    requires i + 1 < |run|
  {
    exists a :: Enabled(run[i], a) && run[i + 1] == Next(run[i], a)
  }

  // ---- With every failure allowed ----

  function TokenOf(pc: Pc): Option<nat> {
    match pc
    case Rechecking(token) => Some(token)
    case Loading(token) => Some(token)
    case Writing(token, _) => Some(token)
    case Releasing(token, _) => Some(token)
    case _ => None
  }

  function ValueOf(pc: Pc): Option<Value> {
    match pc
    case Writing(_, v) => Some(v)
    case Releasing(_, Value(v)) => Some(v)
    case Finished(Value(v)) => Some(v)
    case _ => None
  }

  /** Whatever is cached, carried or returned came from a load of that very key. */
  ghost predicate Sourced(s: State) {
    && (forall k :: k in s.redis.cache ==> (k, s.redis.cache[k].value) in s.results)
    && (forall c :: c in s.callers ==> CarriesLoadedValue(s, s.callers[c]))
  }

  predicate CarriesLoadedValue(s: State, c: Caller) {
    ValueOf(c.pc).Some? ==> (c.key, ValueOf(c.pc).value) in s.results
  }

  /** Callers in the critical section have tokens of their own. */
  ghost predicate TokensAreUnique(s: State) {
    && (forall c :: c in s.callers && TokenOf(s.callers[c].pc).Some? ==> TokenOf(s.callers[c].pc).value in s.tokens)
    && (forall k :: k in s.redis.locks ==> s.redis.locks[k].token in s.tokens)
    && (forall c, d | c in s.callers && d in s.callers && TokenOf(s.callers[c].pc).Some? ::
          TokenOf(s.callers[c].pc) == TokenOf(s.callers[d].pc) ==> c == d)
  }

  lemma StepKeepsSourced(s: State, a: Action)
    requires Sourced(s) && Enabled(s, a)
    ensures Sourced(Next(s, a))
  {
    var s' := Next(s, a);
    forall c | c in s'.callers ensures CarriesLoadedValue(s', s'.callers[c]) {
      assert c in s.callers ==> CarriesLoadedValue(s, s.callers[c]);
    }
  }

  lemma StepKeepsTokens(s: State, a: Action)
    requires TokensAreUnique(s) && Enabled(s, a)
    ensures TokensAreUnique(Next(s, a))
  {
  }

  lemma {:induction false} RunIsSourced(run: seq<State>, i: nat)
    requires IsRun(run) && i < |run|
    ensures Sourced(run[i]) && TokensAreUnique(run[i])
  {
    if i > 0 {
      RunIsSourced(run, i - 1);
      assert StepAt(run, i - 1);
      var a :| Enabled(run[i - 1], a) && run[i] == Next(run[i - 1], a);
      StepKeepsSourced(run[i - 1], a);
      StepKeepsTokens(run[i - 1], a);
    }
  }

  /** With failures, evictions, crashes and expired leases allowed, a returned value still comes from a load of its key. */
  lemma ReturnedValuesAreLoaded(run: seq<State>, i: nat, c: nat)
    requires IsRun(run) && i < |run| && c in run[i].callers && run[i].callers[c].pc.Finished?
    ensures run[i].callers[c].pc.ending.Value? ==>
              (run[i].callers[c].key, run[i].callers[c].pc.ending.value) in run[i].results
  {
    RunIsSourced(run, i);
    assert CarriesLoadedValue(run[i], run[i].callers[c]);
  }

  /** However late a caller releases, the lease another caller took meanwhile survives. */
  lemma ReleaseSparesOthers(run: seq<State>, i: nat, c: nat, d: nat, own: nat, applied: bool)
    requires IsRun(run) && i < |run| && c != d && d in run[i].callers
    requires Enabled(run[i], Step(c, Released(own), applied))
    requires TokenOf(run[i].callers[d].pc).Some? && run[i].callers[d].key in run[i].redis.locks
    requires run[i].redis.locks[run[i].callers[d].key].token == TokenOf(run[i].callers[d].pc).value
    ensures var after := Next(run[i], Step(c, Released(own), applied)).redis.locks;
            run[i].callers[d].key in after && after[run[i].callers[d].key] == run[i].redis.locks[run[i].callers[d].key]
  {
    RunIsSourced(run, i);
    ReleaseIsSafe(run[i].redis, run[i].callers[c].key, TokenOf(run[i].callers[c].pc).value);
  }

  // ---- Without failures: exactly one load ----

  /** From winning the lock to the end of the cache write; a release may come as late as it likes. */
  predicate Critical(pc: Pc) { pc.Rechecking? || pc.Loading? || pc.Writing? }

  /**
   * Redis neither fails nor evicts, loads succeed, cached entries do not expire, and recheck, load and write take
   * less than one lock lifetime from the moment the lock was won. The release may come as late as it likes, and any
   * caller may crash except one that has started its load and not yet written.
   */
  ghost predicate Smooth(s: State, a: Action) {
    match a
    case Arrive(_, _) => true
    case Step(_, op, applied) =>
      applied && op != Read(Down) && !op.LoadFailed? && (op.Lock? ==> !op.answer.LockFailed?) && (op.Wrote? ==> op.ttl > 0)
    case Tick(to) =>
      && (forall k :: LiveEntry(s.redis, k) ==> s.redis.cache[k].expiresAt > to)
      && (forall c :: c in s.callers && Critical(s.callers[c].pc) && c in s.wonAt ==> to < s.wonAt[c] + s.redis.lockTtl)
    case Crash(c) => c in s.callers && !s.callers[c].pc.Loading? && !s.callers[c].pc.Writing?
    case _ => false
  }

  /** The caller's lease is live and is the one it won, with the end that follows from when it won it. */
  predicate HoldsLease(s: State, c: nat) {
    && c in s.callers && Critical(s.callers[c].pc) && c in s.wonAt
    && LiveLock(s.redis, s.callers[c].key)
    && s.redis.locks[s.callers[c].key] == Lease(TokenOf(s.callers[c].pc).value, s.wonAt[c] + s.redis.lockTtl)
  }

  ghost predicate IsSmoothRun(run: seq<State>) {
    && |run| > 0 && Init(run[0]) && run[0].redis.lockTtl > 0
    && forall i :: 0 <= i < |run| - 1 ==> SmoothStepAt(run, i)
  }

  ghost predicate SmoothStepAt(run: seq<State>, i: nat)
    requires i + 1 < |run|
  {
    exists a :: Enabled(run[i], a) && Smooth(run[i], a) && run[i + 1] == Next(run[i], a)
  }

  ghost predicate LeasesAreHeld(s: State) {
    forall c :: c in s.callers && Critical(s.callers[c].pc) ==> HoldsLease(s, c)
  }

  predicate Outside(pc: Pc) { pc.Start? || pc.Acquiring? || pc.Waiting? }

  predicate IsLoader(s: State, c: nat, key: nat) {
    c in s.callers && s.callers[c].key == key && (s.callers[c].pc.Loading? || s.callers[c].pc.Writing?)
  }

  /** Before the load, while it runs, and after it: what the callers of one key can be doing. */
  ghost predicate KeyIsOrderly(s: State, key: nat) {
    if LiveEntry(s.redis, key) then
      && LoadsOf(s, key) == 1
      && forall c | c in s.callers && s.callers[c].key == key :: FilledPc(s.callers[c].pc, s.redis.cache[key].value)
    else if LoadsOf(s, key) == 0 then
      forall c | c in s.callers && s.callers[c].key == key :: Outside(s.callers[c].pc) || s.callers[c].pc.Rechecking?
    else
      && LoadsOf(s, key) == 1
      && (exists c :: IsLoader(s, c, key))
      && forall c | c in s.callers && s.callers[c].key == key :: Outside(s.callers[c].pc) || IsLoader(s, c, key)
  }

  predicate FilledPc(pc: Pc, v: Value) {
    Outside(pc) || pc.Rechecking? || (pc.Releasing? && pc.ending == Ending.Value(v)) || pc == Finished(Ending.Value(v))
  }

  ghost predicate SmoothInv(s: State) {
    s.redis.lockTtl > 0 && TokensAreUnique(s) && LeasesAreHeld(s) && forall k :: KeyIsOrderly(s, k)
  }

  /** Two callers in the critical section of one key would hold the same lease, so they are one. */
  lemma OneHolder(s: State, c: nat, d: nat)
    requires TokensAreUnique(s) && LeasesAreHeld(s)
    requires c in s.callers && d in s.callers && s.callers[c].key == s.callers[d].key
    requires Critical(s.callers[c].pc) && Critical(s.callers[d].pc)
    ensures c == d
  {
  }

  lemma SmoothKeepsLeases(s: State, a: Action)
    requires SmoothInv(s) && Enabled(s, a) && Smooth(s, a)
    ensures LeasesAreHeld(Next(s, a))
  {
    var s' := Next(s, a);
    forall c | c in s'.callers && Critical(s'.callers[c].pc) ensures HoldsLease(s', c) {
      if a.Step? && c in s.callers && Critical(s.callers[c].pc) && Critical(s.callers[a.caller].pc)
         && s.callers[c].key == s.callers[a.caller].key {
        OneHolder(s, c, a.caller);
      }
    }
  }

  /** Nothing a caller does shows in another key. */
  lemma OtherKeysStayOrderly(s: State, a: Action, key: nat)
    requires KeyIsOrderly(s, key) && Enabled(s, a) && Smooth(s, a)
    requires a.Step? ==> s.callers[a.caller].key != key
    ensures KeyIsOrderly(Next(s, a), key)
  {
    SameView(s, Next(s, a), key);
  }

  /** Order in a key depends on its entry, its loads and its callers; newcomers do no harm, nor does losing non-loaders. */
  lemma SameView(s: State, s': State, key: nat)
    requires KeyIsOrderly(s, key)
    requires LoadsOf(s', key) == LoadsOf(s, key) && LiveEntry(s'.redis, key) == LiveEntry(s.redis, key)
    requires LiveEntry(s.redis, key) ==> s'.redis.cache[key].value == s.redis.cache[key].value
    requires forall c :: c in s'.callers && s'.callers[c].key == key ==>
               s'.callers[c].pc.Start? || (c in s.callers && s'.callers[c] == s.callers[c])
    requires forall c :: IsLoader(s, c, key) ==> IsLoader(s', c, key)
    ensures KeyIsOrderly(s', key)
  {
  }

  lemma OwnKeyStaysOrderly(s: State, c: nat, op: Op)
    requires SmoothInv(s) && Enabled(s, Step(c, op, true)) && Smooth(s, Step(c, op, true))
    ensures KeyIsOrderly(Next(s, Step(c, op, true)), s.callers[c].key)
  {
    var s' := Next(s, Step(c, op, true));
    var key := s.callers[c].key;
    assert KeyIsOrderly(s, key);
    forall d | d in s.callers && s.callers[d].key == key && Critical(s.callers[c].pc) && Critical(s.callers[d].pc)
      ensures d == c
    {
      OneHolder(s, c, d);
    }
    if op.Lock? && op.answer.Won? {
      assert forall d :: IsLoader(s, d, key) ==> HoldsLease(s, d);
    }
    assert forall d :: d != c ==> (IsLoader(s, d, key) <==> IsLoader(s', d, key));
    assert IsLoader(s', c, key) <==> s'.callers[c].pc.Loading? || s'.callers[c].pc.Writing?;
  }

  lemma {:induction false} SmoothRunKeeps(run: seq<State>, i: nat)
    requires IsSmoothRun(run) && i < |run|
    ensures SmoothInv(run[i])
  {
    if i > 0 {
      SmoothRunKeeps(run, i - 1);
      assert SmoothStepAt(run, i - 1);
      var a :| Enabled(run[i - 1], a) && Smooth(run[i - 1], a) && run[i] == Next(run[i - 1], a);
      SmoothStepKeeps(run[i - 1], a);
    }
  }

  lemma SmoothStepKeeps(s: State, a: Action)
    requires SmoothInv(s) && Enabled(s, a) && Smooth(s, a)
    ensures SmoothInv(Next(s, a))
  {
    StepKeepsTokens(s, a);
    SmoothKeepsLeases(s, a);
    forall k ensures KeyIsOrderly(Next(s, a), k) {
      if a.Step? && s.callers[a.caller].key == k {
        OwnKeyStaysOrderly(s, a.caller, a.op);
      } else {
        assert KeyIsOrderly(s, k);
        OtherKeysStayOrderly(s, a, k);
      }
    }
  }

  /**
   * Single flight: on an empty key, with any number of callers in any interleaving, the load of a key starts at
   * most once; as soon as one caller has returned it has run exactly once, and all return the same, loaded value.
   */
  lemma LoadRunsOnce(run: seq<State>, i: nat, key: nat)
    requires IsSmoothRun(run) && i < |run|
    ensures LoadsOf(run[i], key) <= 1
    ensures forall c | c in run[i].callers && run[i].callers[c].key == key && run[i].callers[c].pc.Finished? ::
              && LoadsOf(run[i], key) == 1
              && run[i].callers[c].pc.ending.Value?
              && LiveEntry(run[i].redis, key) && run[i].callers[c].pc.ending.value == run[i].redis.cache[key].value
  {
    SmoothRunKeeps(run, i);
    assert KeyIsOrderly(run[i], key);
  }

  /** Nobody is ever stuck: in any state, whatever failed before, a caller that has not finished can take a step. */
  lemma CallersNeverStick(s: State, c: nat, token: nat, loaded: Value)
    requires c in s.callers && !s.callers[c].pc.Finished? && token !in s.tokens
    ensures exists op :: Enabled(s, Step(c, op, true)) && Smooth(s, Step(c, op, true))
  {
    var pc, key := s.callers[c].pc, s.callers[c].key;
    var answer := if LiveEntry(s.redis, key) then Hit(s.redis.cache[key].value) else Miss;
    var op := match pc
      case Acquiring => Lock(token, if LiveLock(s.redis, key) then Busy else Won)
      case Loading(_) => Loaded(loaded)
      case Fallback => Loaded(loaded)
      case Writing(_, v) => Wrote(v, 1)
      case Releasing(own, _) => Released(own)
      case _ => Read(answer);
    assert Enabled(s, Step(c, op, true)) && Smooth(s, Step(c, op, true));
  }
}
