/** getOrLoad and the lock commands as code: the loop, the try/finally, and what others do between two awaits. */
module GetOrLoad {
  import opened Common
  import opened SingleFlight

  /** What the outside world contributes to one call, indexed by the number of the await. */
  datatype World = World(
    others: (nat, Redis) -> Redis,      // everything other callers and time did since the last await
    reaches: nat -> bool,               // the command takes effect on the server
    answers: nat -> bool,               // the client gets the answer
    load: nat -> Option<Value>,         // None: load throws
    token: nat -> nat,
    ttl: nat -> nat)

  function ControlAfter(pc: Pc, ops: seq<Op>): Option<Pc>
    decreases |ops|
  {
    if ops == [] then Some(pc)
    else
      match Advance(pc, ops[0])
      case None => None
      case Some(next) => ControlAfter(next, ops[1..])
  }

  lemma {:induction false} ControlExtends(pc: Pc, ops: seq<Op>, op: Op)
    ensures ControlAfter(pc, ops + [op]) ==
            match ControlAfter(pc, ops) case None => None case Some(mid) => Advance(mid, op)
    decreases |ops|
  {
    if ops == [] {
      assert (ops + [op])[1..] == [];
    } else {
      assert (ops + [op])[1..] == ops[1..] + [op];
      match Advance(pc, ops[0])
      case None =>
      case Some(next) => ControlExtends(next, ops[1..], op);
    }
  }

  predicate IsWin(op: Op) { op.Lock? && op.answer.Won? }

  predicate IsLoad(op: Op) { op.Loaded? || op.LoadFailed? }

  ghost function Count(ops: seq<Op>, p: Op -> bool): nat {
    if ops == [] then 0 else Count(ops[..|ops| - 1], p) + if p(ops[|ops| - 1]) then 1 else 0
  }

  /**
   * Along every path of the code a lock that was won is released once and only before the end, at most one load
   * runs, and a value is returned only if some read hit it or that load produced it.
   */
  lemma {:induction false} PathShape(ops: seq<Op>)
    requires ControlAfter(Start, ops).Some?
    ensures var pc := ControlAfter(Start, ops).value;
            && Count(ops, IsWin) == Count(ops, (op: Op) => op.Released?) + (if TokenOf(pc).Some? then 1 else 0)
            && Count(ops, IsWin) <= 1
            && Count(ops, IsLoad) <= 1
            && ((Outside(pc) || pc.Rechecking? || IsLoading(pc)) ==> Count(ops, IsLoad) == 0)
            && (Outside(pc) || pc.Fallback? ==> Count(ops, IsWin) == 0)
            && (ValueOf(pc).Some? ==> Loaded(ValueOf(pc).value) in ops || Read(Hit(ValueOf(pc).value)) in ops)
            && (TokenOf(pc).Some? ==> Lock(TokenOf(pc).value, Won) in ops)
    decreases |ops|
  {
    if ops != [] {
      var init, last := ops[..|ops| - 1], ops[|ops| - 1];
      assert ops == init + [last];
      ControlExtends(Start, init, last);
      PathShape(init);
    }
  }

  /** One call of getOrLoad for one key; `trace` records each operation where it is performed. */
  class Call {
    const key: nat
    var redis: Redis
    var awaits: nat  // how many awaits have completed
    ghost var trace: seq<Op>

    constructor (key: nat, redis: Redis)
      ensures this.key == key && this.redis == redis && awaits == 0 && trace == []
    {
      this.key, this.redis, awaits, trace := key, redis, 0, [];
    }

    /** Where the call stands. */
    ghost predicate At(pc: Pc)
      reads this
    {
      ControlAfter(Start, trace) == Some(pc)
    }

    /** Time passes and others run; then our command meets Redis. */
    method Await(w: World) returns (n: nat)
      modifies this`redis, this`awaits
      ensures n == old(awaits) && awaits == n + 1
      ensures redis == w.others(n, old(redis))
    {
      n := awaits;
      redis := w.others(n, redis);
      awaits := n + 1;
    }

    method Get(w: World) returns (r: ReadResult)
      modifies this
      ensures redis == w.others(old(awaits), old(redis)) && awaits == old(awaits) + 1
      ensures (r.Down? <==> !w.answers(old(awaits))) && Truthful(redis, key, Read(r))
      ensures trace == old(trace) + [Read(r)]
    {
      var n := Await(w);
      if !w.answers(n) {
        r := Down;
      } else if LiveEntry(redis, key) {
        r := Hit(redis.cache[key].value);
      } else {
        r := Miss;
      }
      trace := trace + [Read(r)];
    }

    method Acquire(w: World) returns (token: nat, answer: LockAnswer)
      modifies this
      ensures awaits == old(awaits) + 1 && token == w.token(old(awaits))
      ensures var seen := w.others(old(awaits), old(redis));
              && answer == (if !w.answers(old(awaits)) then LockFailed else if LiveLock(seen, key) then Busy else Won)
              && redis == (if w.answers(old(awaits)) || w.reaches(old(awaits)) then AcquireLock(seen, key, token) else seen)
              && (answer.Won? ==> key in redis.locks && redis.locks[key] == Lease(token, seen.now + seen.lockTtl))
              && (answer.Busy? ==> redis == seen)
      ensures trace == old(trace) + [Lock(token, answer)]
    {
      var n := Await(w);
      token := w.token(n);
      answer := if !w.answers(n) then LockFailed else if LiveLock(redis, key) then Busy else Won;
      if w.answers(n) || w.reaches(n) {
        if !LiveLock(redis, key) {
          redis := redis.(locks := redis.locks[key := Lease(token, redis.now + redis.lockTtl)]);
        }
      }
      trace := trace + [Lock(token, answer)];
    }

    /** The finally block: a compare-and-delete whose failure is swallowed. */
    method Release(token: nat, w: World)
      modifies this
      ensures awaits == old(awaits) + 1
      ensures var seen := w.others(old(awaits), old(redis));
              redis == if w.reaches(old(awaits)) then ReleaseLock(seen, key, token) else seen
      ensures trace == old(trace) + [Released(token)]
    {
      var n := Await(w);
      if w.reaches(n) {
        if LiveLock(redis, key) && redis.locks[key].token == token {
          redis := redis.(locks := redis.locks - {key});
        }
      }
      trace := trace + [Released(token)];
    }

    method Set(value: Value, w: World)
      modifies this
      ensures awaits == old(awaits) + 1
      ensures var seen := w.others(old(awaits), old(redis));
              && redis == (if w.reaches(old(awaits)) then Store(seen, key, value, w.ttl(old(awaits))) else seen)
              && (w.reaches(old(awaits)) ==>
                    key in redis.cache && redis.cache[key] == Entry(value, seen.now + w.ttl(old(awaits))))
      ensures trace == old(trace) + [Wrote(value, w.ttl(old(awaits)))]
    {
      var n := Await(w);
      if w.reaches(n) {
        redis := redis.(cache := redis.cache[key := Entry(value, redis.now + w.ttl(n))]);
      }
      trace := trace + [Wrote(value, w.ttl(n))];
    }

    /** The loader; None when it throws. */
    method Load(w: World) returns (loaded: Option<Value>)
      modifies this
      ensures loaded == w.load(old(awaits))
      ensures trace == old(trace) + [if loaded.Some? then Loaded(loaded.value) else LoadFailed]
    {
      var n := Await(w);
      loaded := w.load(n);
      trace := trace + [if loaded.Some? then Loaded(loaded.value) else LoadFailed];
    }

    /**
     * The call itself. Without a deadline it may poll forever, so it is cut off after `patience` polls, which is
     * how a caller that is still waiting looks. What it performed is a path of the control flow.
     */
    method GetOrLoad(w: World, patience: nat) returns (ending: Option<Ending>)
      requires trace == []
      modifies this
      ensures At(if ending.Some? then Finished(ending.value) else Acquiring)
      ensures !w.answers(old(awaits)) ==>
                ending == Some(if w.load(old(awaits) + 1).Some? then Ending.Value(w.load(old(awaits) + 1).value) else Threw)
      ensures var seen := w.others(old(awaits), old(redis));
              w.answers(old(awaits)) && key in seen.cache && seen.cache[key].expiresAt > seen.now ==>
                ending == Some(Ending.Value(seen.cache[key].value)) && trace == [Read(Hit(seen.cache[key].value))]
    {
      var first := Get(w);
      Extend([], Start, Read(first));
      match first {
        case Hit(v) => return Some(Ending.Value(v));
        case Down =>
          ending := LoadDirectly(w);
          return;
        case Miss =>
      }
      for poll := 0 to patience
        invariant At(Acquiring)
      {
        ghost var before := trace;
        var token, answer := Acquire(w);
        Extend(before, Acquiring, Lock(token, answer));
        match answer {
          case LockFailed =>
            ending := LoadDirectly(w);
            return;
          case Won =>
            ending := LoadUnderLock(token, w);
            return;
          case Busy =>
        }
        before := trace;
        var polled := Get(w);
        Extend(before, Waiting, Read(polled));
        match polled {
          case Hit(v) => return Some(Ending.Value(v));
          case Down =>
            ending := LoadDirectly(w);
            return;
          case Miss =>
        }
      }
      return None;
    }

    method LoadDirectly(w: World) returns (ending: Option<Ending>)
      requires At(Fallback)
      modifies this
      ensures ending.Some? && At(Finished(ending.value))
      ensures ending.value == if w.load(old(awaits)).Some? then Ending.Value(w.load(old(awaits)).value) else Threw
    {
      ghost var before := trace;
      var loaded := Load(w);
      Extend(before, Fallback, if loaded.Some? then Loaded(loaded.value) else LoadFailed);
      ending := Some(if loaded.Some? then Ending.Value(loaded.value) else Threw);
    }

    /** Re-check, load, write; the lock goes back on every way out. */
    method LoadUnderLock(token: nat, w: World) returns (ending: Option<Ending>)
      requires At(Rechecking(token))
      modifies this
      ensures ending.Some? && At(Finished(ending.value))
    {
      ghost var before := trace;
      var again := Get(w);
      Extend(before, Rechecking(token), Read(again));
      var result: Ending;
      if again.Hit? {
        result := Ending.Value(again.value);
      } else {
        before := trace;
        var loaded := Load(w);
        Extend(before, Loading(token), if loaded.Some? then Loaded(loaded.value) else LoadFailed);
        if loaded.Some? {
          before := trace;
          ghost var n := awaits;
          Set(loaded.value, w);
          Extend(before, Writing(token, loaded.value), Wrote(loaded.value, w.ttl(n)));
          result := Ending.Value(loaded.value);
        } else {
          result := Threw;
        }
      }
      assert At(Releasing(token, result));
      before := trace;
      Release(token, w);
      Extend(before, Releasing(token, result), Released(token));
      ending := Some(result);
    }
  }

  /** One more operation, allowed by the control flow at this point. */
  lemma Extend(ops: seq<Op>, pc: Pc, op: Op)
    requires ControlAfter(Start, ops) == Some(pc)
    ensures ControlAfter(Start, ops + [op]) == Advance(pc, op)
  {
    ControlExtends(Start, ops, op);
  }
}
