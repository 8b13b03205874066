/** One relay pass and one delivery, as their methods perform them, are paths of the pipeline's machine. */
module Links {
  import opened Common
  import opened OutboxTable
  import opened Relay
  import opened Consumer
  import opened Pipeline

  ghost predicate CanPerform(s: System, acts: seq<Action>)
    decreases |acts|
  {
    acts == [] || (Enabled(s, acts[0]) && CanPerform(Next(s, acts[0]), acts[1..]))
  }

  ghost function Perform(s: System, acts: seq<Action>): System
    requires CanPerform(s, acts)
    decreases |acts|
  {
    if acts == [] then s else Perform(Next(s, acts[0]), acts[1..])
  }

  lemma StepThenPath(s: System, a: Action, rest: seq<Action>)
    requires Enabled(s, a) && CanPerform(Next(s, a), rest)
    ensures CanPerform(s, [a] + rest) && Perform(s, [a] + rest) == Perform(Next(s, a), rest)
  {
    assert ([a] + rest)[1..] == rest;
  }

  /** Whatever is a path of the machine keeps what its steps keep. */
  lemma {:induction false} PathKeeps(s: System, acts: seq<Action>)
    requires Inv(s) && CanPerform(s, acts)
    ensures Inv(Perform(s, acts))
    decreases |acts|
  {
    if acts != [] {
      StepKeeps(s, acts[0]);
      PathKeeps(Next(s, acts[0]), acts[1..]);
    }
  }

  // ---- One relay pass ----

  /** The messages of the batch from number `i` on, then the end of the transaction. */
  function PublishPath(relay: nat, batch: seq<nat>, i: nat, broker: nat -> Reply, arrivals: nat -> Option<nat>, last: Action): seq<Action>
    decreases |batch| - i
  {
    if i >= |batch| then [last]
    else [Action.Publish(relay, arrivals(i), broker(batch[i]))] + PublishPath(relay, batch, i + 1, broker, arrivals, last)
  }

  /** COMMIT takes effect when every confirm has settled and nothing fails before it, whether or not its answer arrives. */
  predicate Commits(batch: seq<nat>, broker: nat -> Reply, fault: Fault) {
    (fault.NoFault? || fault.CommitLost?) && forall id | id in batch :: !broker(id).ChannelClosed?
  }

  function RelayPath(relay: nat, limit: nat, batch: seq<nat>, broker: nat -> Reply, arrivals: nat -> Option<nat>, fault: Fault, now: nat)
    : seq<Action>
  {
    [Action.ClaimBatch(relay, limit, batch)]
    + PublishPath(relay, batch, 0, broker, arrivals,
                  if Commits(batch, broker, fault) then Action.MarkBatch(relay, now) else Action.Abandon(relay))
  }

  /** Copies land under tags of their own, and what was confirmed has landed. */
  ghost predicate Lands(s: System, batch: seq<nat>, broker: nat -> Reply, arrivals: nat -> Option<nat>, i: nat) {
    && (forall k :: i <= k < |batch| && arrivals(k).Some? ==> arrivals(k).value !in s.copies)
    && (forall k, l :: i <= k < l < |batch| && arrivals(k).Some? ==> arrivals(k) != arrivals(l))
    && (forall k :: i <= k < |batch| && broker(batch[k]).Confirmed? ==> arrivals(k).Some?)
  }

  /** `id` in `verdicts` is what the first `i` messages of the batch were answered. */
  ghost predicate Answered(verdicts: map<nat, Reply>, batch: seq<nat>, i: nat, broker: nat -> Reply)
    requires i <= |batch|
  {
    (forall id :: id in verdicts <==> id in batch[..i]) && forall id :: id in verdicts ==> verdicts[id] == broker(id)
  }

  lemma AnsweredOnce(verdicts: map<nat, Reply>, batch: seq<nat>, i: nat, broker: nat -> Reply)
    requires i < |batch| && Answered(verdicts, batch, i, broker)
    ensures Answered(verdicts[batch[i] := broker(batch[i])], batch, i + 1, broker)
  {
    assert batch[..i + 1] == batch[..i] + [batch[i]];
  }

  lemma AllAnswered(verdicts: map<nat, Reply>, batch: seq<nat>, broker: nat -> Reply)
    requires Answered(verdicts, batch, |batch|, broker)
    ensures verdicts == Verdicts(batch, broker)
  {
    assert batch[..|batch|] == batch;
  }

  /** A relay transaction that has sent the first `i` messages of its batch. */
  ghost predicate Underway(s: System, relay: nat, batch: seq<nat>, i: nat, broker: nat -> Reply)
    requires i <= |batch|
  {
    && relay in s.relays && s.relays[relay].Publishing?
    && s.relays[relay].batch == batch && s.relays[relay].sent == i && Answered(s.relays[relay].verdicts, batch, i, broker)
    && forall id :: id in batch ==> id in s.outbox
  }

  /**
   * Between the two states messages `i` to `j - 1` of the batch arrived: each arrival is a fresh copy carrying the
   * event of its own row, and no other copy changed.
   */
  ghost predicate NewCopies(s: System, s': System, batch: seq<nat>, i: nat, j: nat, arrivals: nat -> Option<nat>)
    requires i <= j <= |batch|
  {
    && (forall k :: i <= k < j && arrivals(k).Some? ==> Arrived(s, s', batch[k], arrivals(k).value))
    && (forall t :: t in s.copies ==> t in s'.copies && s'.copies[t] == s.copies[t])
    && (forall t :: t in s'.copies && t !in s.copies ==> exists k :: i <= k < j && arrivals(k) == Some(t))
  }

  ghost predicate Arrived(s: System, s': System, id: nat, tag: nat) {
    id in s.outbox && tag in s'.copies && s'.copies[tag] == Copy(OrderPlaced(s.outbox[id].payload), 0, Queued)
  }

  lemma PublishMovesOn(s: System, next: System, relay: nat, batch: seq<nat>, i: nat, broker: nat -> Reply, arrivals: nat -> Option<nat>)
    requires i < |batch| && Underway(s, relay, batch, i, broker) && Lands(s, batch, broker, arrivals, i)
    requires var step := Action.Publish(relay, arrivals(i), broker(batch[i])); Enabled(s, step) && next == Next(s, step)
    ensures Underway(next, relay, batch, i + 1, broker) && Lands(next, batch, broker, arrivals, i + 1)
    ensures next.outbox == s.outbox && next.relays[relay := Idle] == s.relays[relay := Idle]
    ensures next.inbox == s.inbox && next.orders == s.orders && NewCopies(s, next, batch, i, i + 1, arrivals)
  {
    AnsweredOnce(s.relays[relay].verdicts, batch, i, broker);
  }

  lemma {:induction false} PublishesPerform(s: System, relay: nat, batch: seq<nat>, i: nat, broker: nat -> Reply,
                                            arrivals: nat -> Option<nat>, now: nat, last: Action)
    requires i <= |batch| && Underway(s, relay, batch, i, broker) && Lands(s, batch, broker, arrivals, i)
    requires last == Action.Abandon(relay) || (last == Action.MarkBatch(relay, now) && Settled(batch, broker))
    ensures var path := PublishPath(relay, batch, i, broker, arrivals, last);
            && CanPerform(s, path)
            && Perform(s, path).outbox == (if last.MarkBatch? then Mark(s.outbox, Verdicts(batch, broker), now) else s.outbox)
            && Perform(s, path).relays == s.relays[relay := Idle]
            && Perform(s, path).inbox == s.inbox && Perform(s, path).orders == s.orders
            && NewCopies(s, Perform(s, path), batch, i, |batch|, arrivals)
    decreases |batch| - i
  {
    if i == |batch| {
      AllAnswered(s.relays[relay].verdicts, batch, broker);
      LastStep(s, last);
    } else {
      var step := Action.Publish(relay, arrivals(i), broker(batch[i]));
      var next := Next(s, step);
      PublishMovesOn(s, next, relay, batch, i, broker, arrivals);
      PublishesPerform(next, relay, batch, i + 1, broker, arrivals, now, last);
      var rest := PublishPath(relay, batch, i + 1, broker, arrivals, last);
      StepThenPath(s, step, rest);
      CopiesAddUp(s, next, Perform(next, rest), batch, i, arrivals);
    }
  }

  lemma CopiesAddUp(s: System, next: System, s': System, batch: seq<nat>, i: nat, arrivals: nat -> Option<nat>)
    requires i < |batch| && next.outbox == s.outbox
    requires NewCopies(s, next, batch, i, i + 1, arrivals) && NewCopies(next, s', batch, i + 1, |batch|, arrivals)
    ensures NewCopies(s, s', batch, i, |batch|, arrivals)
  {
    forall k | i <= k < |batch| && arrivals(k).Some? ensures Arrived(s, s', batch[k], arrivals(k).value) {
      if k == i {
        assert Arrived(s, next, batch[k], arrivals(k).value);
      } else {
        assert Arrived(next, s', batch[k], arrivals(k).value);
      }
    }
  }

  lemma LastStep(s: System, last: Action)
    requires Enabled(s, last)
    ensures CanPerform(s, [last]) && Perform(s, [last]) == Next(s, last)
  {
    assert [last][1..] == [];
  }

  /**
   * A relay pass with nobody in between performs a path of the machine: claim, one publish per row in claim order,
   * then mark or abandon. It leaves the outbox as the pass says it does, its relay idle, and for each message that
   * arrived a copy carrying the event of its own row, which is the event the pass sent at that place.
   */
  lemma RelayBatchIsAPath(s: System, relay: nat, limit: nat, batch: seq<nat>, broker: nat -> Reply,
                          arrivals: nat -> Option<nat>, fault: Fault, now: nat)
    requires relay in s.relays && s.relays[relay].Idle? && batch != []
    requires IsClaim(s.outbox, Locked(s), limit, batch) && Lands(s, batch, broker, arrivals, 0)
    ensures var path := RelayPath(relay, limit, batch, broker, arrivals, fault, now);
            && CanPerform(s, path)
            && Perform(s, path).outbox == (if Commits(batch, broker, fault) then Mark(s.outbox, Verdicts(batch, broker), now) else s.outbox)
            && Perform(s, path).relays == s.relays && Perform(s, path).inbox == s.inbox && Perform(s, path).orders == s.orders
            && NewCopies(s, Perform(s, path), batch, 0, |batch|, arrivals)
  {
    var last := if Commits(batch, broker, fault) then Action.MarkBatch(relay, now) else Action.Abandon(relay);
    var claimed := Next(s, Action.ClaimBatch(relay, limit, batch));
    ClaimStarts(s, claimed, relay, limit, batch, broker);
    assert Lands(claimed, batch, broker, arrivals, 0);
    PublishesPerform(claimed, relay, batch, 0, broker, arrivals, now, last);
    StepThenPath(s, Action.ClaimBatch(relay, limit, batch), PublishPath(relay, batch, 0, broker, arrivals, last));
  }

  lemma ClaimStarts(s: System, claimed: System, relay: nat, limit: nat, batch: seq<nat>, broker: nat -> Reply)
    requires relay in s.relays && s.relays[relay].Idle? && batch != [] && IsClaim(s.outbox, Locked(s), limit, batch)
    requires claimed == Next(s, Action.ClaimBatch(relay, limit, batch))
    ensures Underway(claimed, relay, batch, 0, broker) && claimed.relays[relay := Idle] == s.relays
    ensures claimed.outbox == s.outbox && claimed.copies == s.copies && claimed.inbox == s.inbox && claimed.orders == s.orders
  {
    assert batch[..0] == [];
  }

  // ---- One delivery ----

  /** The transaction attempts from number `k` to the one that decides, then `rest`. */
  function AttemptPath(tag: nat, attempts: nat -> Attempt, k: nat, rest: seq<Action>): seq<Action>
    requires 1 <= k <= CONSUMER_LOCAL_ATTEMPTS
    decreases CONSUMER_LOCAL_ATTEMPTS - k
  {
    [RunTransaction(tag, attempts(k))]
    + if !attempts(k).Transient? || k == CONSUMER_LOCAL_ATTEMPTS then rest else AttemptPath(tag, attempts, k + 1, rest)
  }

  /** With an after-effect hook configured: hook and ack, or the way back to the broker. */
  function EndPath(tag: nat, d: Disposition): seq<Action> {
    match d
    case Acked => [RunHook(tag), Ack(tag)]
    case Requeued => [Return(tag)]
    case _ => [DeadLetter(tag)]
  }

  function PlaceAfter(d: Disposition): Place {
    match d
    case Acked => Done
    case Requeued => Queued
    case _ => Dead
  }

  /** How a delivery leaves the system: tables as the retries say, the hook's effect if acked, the copy where it belongs. */
  ghost predicate Delivered(s: System, s': System, tag: nat, inbox: Inbox, d: Disposition)
    requires tag in s.copies && s.copies[tag].content.OrderPlaced?
  {
    && s'.inbox == inbox && s'.outbox == s.outbox && s'.relays == s.relays && s'.orders == s.orders
    && s'.effects == s.effects + (if d == Acked then {s.copies[tag].content.event.orderId} else {})
    && s'.copies.Keys == s.copies.Keys && s'.copies[tag].place == PlaceAfter(d)
    && s'.copies[tag].content == s.copies[tag].content
    && s'.copies[tag].redeliveries == s.copies[tag].redeliveries + (if d == Requeued then 1 else 0)
    && forall t :: t in s.copies && t != tag ==> s'.copies[t] == s.copies[t]
  }

  /** The path can be performed and ends with the delivery ended so. */
  ghost predicate Handles(s: System, path: seq<Action>, tag: nat, inbox: Inbox, d: Disposition)
    requires tag in s.copies && s.copies[tag].content.OrderPlaced?
  {
    CanPerform(s, path) && Delivered(s, Perform(s, path), tag, inbox, d)
  }

  lemma AckPerforms(s: System, tag: nat)
    requires AtStage(s, tag, Effected)
    ensures Handles(s, EndPath(tag, Acked), tag, s.inbox, Acked)
  {
    var hooked := Next(s, RunHook(tag));
    LastStep(hooked, Ack(tag));
    StepThenPath(s, RunHook(tag), [Ack(tag)]);
    assert [RunHook(tag)] + [Ack(tag)] == EndPath(tag, Acked);
  }

  /** The header the quorum queue puts on a copy that came back: how often it did. */
  function HeaderOf(c: Copy): Option<nat> {
    if c.redeliveries == 0 then None else Some(c.redeliveries)
  }

  /** How the consumer ends a delivery of the copy. */
  function EndingOf(c: Copy, outcome: Outcome, hookOk: bool): Disposition {
    Ending(outcome, hookOk, DeliveryCount(HeaderOf(c), c.redeliveries > 0))
  }

  lemma EndPerforms(s: System, tag: nat, outcome: Outcome, hookOk: bool)
    requires AtStage(s, tag, if outcome.Applied? || outcome.Skipped? then Effected else Received)
    ensures var d := EndingOf(s.copies[tag], outcome, hookOk);
            Handles(s, EndPath(tag, d), tag, s.inbox, d)
  {
    var d := EndingOf(s.copies[tag], outcome, hookOk);
    if d == Acked {
      AckPerforms(s, tag);
    } else if d == Requeued {
      LastStep(s, Return(tag));
    } else {
      LastStep(s, DeadLetter(tag));
    }
  }

  lemma {:induction false} AttemptsPerform(s: System, tag: nat, attempts: nat -> Attempt, k: nat, hookOk: bool)
    requires 1 <= k <= CONSUMER_LOCAL_ATTEMPTS && AtStage(s, tag, Received)
    ensures var (inbox, outcome) := RetryOutcome(attempts, k, s.inbox, s.copies[tag].content.event);
            var d := EndingOf(s.copies[tag], outcome, hookOk);
            Handles(s, AttemptPath(tag, attempts, k, EndPath(tag, d)), tag, inbox, d)
    decreases CONSUMER_LOCAL_ATTEMPTS - k
  {
    if attempts(k).Transient? && k < CONSUMER_LOCAL_ATTEMPTS {
      var (inbox, outcome) := RetryOutcome(attempts, k, s.inbox, s.copies[tag].content.event);
      var d := EndingOf(s.copies[tag], outcome, hookOk);
      var step := RunTransaction(tag, attempts(k));
      AttemptMovesOnly(s, Next(s, step), tag, attempts(k));
      AttemptsPerform(Next(s, step), tag, attempts, k + 1, hookOk);
      PathFrom(s, step, AttemptPath(tag, attempts, k + 1, EndPath(tag, d)), tag, inbox, d);
    } else {
      DecidingPerforms(s, tag, attempts, k, hookOk);
    }
  }

  lemma DecidingPerforms(s: System, tag: nat, attempts: nat -> Attempt, k: nat, hookOk: bool)
    requires 1 <= k <= CONSUMER_LOCAL_ATTEMPTS && AtStage(s, tag, Received)
    requires !attempts(k).Transient? || k == CONSUMER_LOCAL_ATTEMPTS
    ensures var (inbox, outcome) := RetryOutcome(attempts, k, s.inbox, s.copies[tag].content.event);
            var d := EndingOf(s.copies[tag], outcome, hookOk);
            Handles(s, AttemptPath(tag, attempts, k, EndPath(tag, d)), tag, inbox, d)
  {
    var (inbox, outcome) := RetryOutcome(attempts, k, s.inbox, s.copies[tag].content.event);
    var d := EndingOf(s.copies[tag], outcome, hookOk);
    var step := RunTransaction(tag, attempts(k));
    AttemptMovesOnly(s, Next(s, step), tag, attempts(k));
    EndPerforms(Next(s, step), tag, outcome, hookOk);
    PathFrom(s, step, EndPath(tag, d), tag, inbox, d);
  }

  lemma PathFrom(s: System, step: Action, rest: seq<Action>, tag: nat, inbox: Inbox, d: Disposition)
    requires Enabled(s, step) && tag in s.copies && s.copies[tag].content.OrderPlaced?
    requires MovesOnly(s, Next(s, step), tag) && Handles(Next(s, step), rest, tag, inbox, d)
    ensures Handles(s, [step] + rest, tag, inbox, d)
  {
    StepThenPath(s, step, rest);
    DeliveredFrom(s, Next(s, step), Perform(Next(s, step), rest), tag, inbox, d);
  }

  /** Nothing but the inbox and where the copy is. */
  ghost predicate MovesOnly(s: System, s': System, tag: nat)
    requires tag in s.copies
  {
    && s'.outbox == s.outbox && s'.relays == s.relays && s'.orders == s.orders && s'.effects == s.effects
    && s'.copies.Keys == s.copies.Keys && s'.copies[tag] == s.copies[tag].(place := s'.copies[tag].place)
    && forall t :: t in s.copies && t != tag ==> s'.copies[t] == s.copies[t]
  }

  lemma AttemptMovesOnly(s: System, s': System, tag: nat, attempt: Attempt)
    requires AtStage(s, tag, Received) && s' == Next(s, RunTransaction(tag, attempt))
    ensures MovesOnly(s, s', tag)
    ensures s'.inbox == if attempt.Clean? || attempt.committed then Apply(s.inbox, s.copies[tag].content.event) else s.inbox
    ensures s'.copies[tag].place == InFlight(if attempt.Clean? then Effected else Received)
  {
  }

  lemma DeliveredFrom(s: System, next: System, s': System, tag: nat, inbox: Inbox, d: Disposition)
    requires tag in s.copies && s.copies[tag].content.OrderPlaced? && MovesOnly(s, next, tag)
    requires Delivered(next, s', tag, inbox, d)
    ensures Delivered(s, s', tag, inbox, d)
  {
  }

  /**
   * Handling a well-formed delivery performs a path of the machine: one to three transactions, then hook and ack, or
   * a return, or a dead letter, as the delivery ends. It leaves tables, effects and the copy as the handler says, and
   * it returns only a copy that came back fewer than five times.
   */
  lemma HandleIsAPath(s: System, tag: nat, attempts: nat -> Attempt, hookOk: bool)
    requires Deliverable(s, tag)
    ensures var (inbox, outcome) := RetryOutcome(attempts, 1, s.inbox, s.copies[tag].content.event);
            var d := EndingOf(s.copies[tag], outcome, hookOk);
            && Handles(s, HandlePath(s, tag, attempts, hookOk), tag, inbox, d)
            && (d == Requeued ==> s.copies[tag].redeliveries < 5)
  {
    var (inbox, outcome) := RetryOutcome(attempts, 1, s.inbox, s.copies[tag].content.event);
    var d := EndingOf(s.copies[tag], outcome, hookOk);
    var rest := AttemptPath(tag, attempts, 1, EndPath(tag, d));
    var received := Next(s, Deliver(tag));
    AttemptsPerform(received, tag, attempts, 1, hookOk);
    PathFrom(s, Deliver(tag), rest, tag, inbox, d);
  }

  predicate Deliverable(s: System, tag: nat) {
    tag in s.copies && s.copies[tag].place.Queued? && s.copies[tag].content.OrderPlaced?
  }

  function HandlePath(s: System, tag: nat, attempts: nat -> Attempt, hookOk: bool): seq<Action>
    requires Deliverable(s, tag)
  {
    var outcome := RetryOutcome(attempts, 1, s.inbox, s.copies[tag].content.event).1;
    [Deliver(tag)] + AttemptPath(tag, attempts, 1, EndPath(tag, EndingOf(s.copies[tag], outcome, hookOk)))
  }

  /** The consumer handled the copy once. */
  ghost predicate Handled(s: System, s': System, tag: nat) {
    Deliverable(s, tag) && exists attempts, hookOk :: HandledSo(s, s', tag, attempts, hookOk)
  }

  ghost predicate HandledSo(s: System, s': System, tag: nat, attempts: nat -> Attempt, hookOk: bool)
    requires Deliverable(s, tag)
  {
    CanPerform(s, HandlePath(s, tag, attempts, hookOk)) && s' == Perform(s, HandlePath(s, tag, attempts, hookOk))
  }

  lemma HandlingCounts(s: System, s': System, tag: nat)
    requires Handled(s, s', tag)
    ensures tag in s'.copies
    ensures var before, after := s.copies[tag].redeliveries, s'.copies[tag].redeliveries;
            if s'.copies[tag].place.Queued? then before < 5 && after == before + 1 else after == before
  {
    var attempts, hookOk :| HandledSo(s, s', tag, attempts, hookOk);
    HandleIsAPath(s, tag, attempts, hookOk);
  }

  /** Between two states the consumer handled the copy, or whatever happened left it alone. */
  ghost predicate HandlingAt(chain: seq<System>, i: nat, tag: nat)
    requires i + 1 < |chain|
  {
    || Handled(chain[i], chain[i + 1], tag)
    || (tag in chain[i].copies && tag in chain[i + 1].copies && chain[i + 1].copies[tag] == chain[i].copies[tag])
  }

  /** No copy the consumer handles goes back to the queue more than five times: then it is acked or dead-lettered. */
  lemma {:induction false} ReturnedAtMostFiveTimes(chain: seq<System>, tag: nat, i: nat)
    requires i < |chain| && tag in chain[0].copies && chain[0].copies[tag].redeliveries == 0
    requires forall k :: 0 <= k < |chain| - 1 ==> HandlingAt(chain, k, tag)
    ensures tag in chain[i].copies && chain[i].copies[tag].redeliveries <= 5
    ensures i + 1 < |chain| && chain[i].copies[tag].redeliveries == 5 && Handled(chain[i], chain[i + 1], tag) ==>
              tag in chain[i + 1].copies && !chain[i + 1].copies[tag].place.Queued?
  {
    if i > 0 {
      ReturnedAtMostFiveTimes(chain, tag, i - 1);
      assert HandlingAt(chain, i - 1, tag);
      if Handled(chain[i - 1], chain[i], tag) {
        HandlingCounts(chain[i - 1], chain[i], tag);
      }
    }
    if i + 1 < |chain| && Handled(chain[i], chain[i + 1], tag) {
      HandlingCounts(chain[i], chain[i + 1], tag);
    }
  }

  /** A malformed delivery is rejected to the dead-letter queue and nothing else moves. */
  lemma RejectIsAPath(s: System, tag: nat)
    requires tag in s.copies && s.copies[tag].place.Queued? && s.copies[tag].content.Malformed?
    ensures CanPerform(s, [Deliver(tag), DeadLetter(tag)])
    ensures Perform(s, [Deliver(tag), DeadLetter(tag)]) == s.(copies := s.copies[tag := s.copies[tag].(place := Dead)])
  {
    assert [Deliver(tag), DeadLetter(tag)][1..] == [DeadLetter(tag)];
    LastStep(Next(s, Deliver(tag)), DeadLetter(tag));
  }
}
