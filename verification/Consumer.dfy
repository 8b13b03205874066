/** The consumer of order.placed: inbox mark plus effect in one transaction, then ack, requeue or dead-letter. */
module Consumer {
  import opened Common
  import opened OutboxTable

  const CONSUMER_LOCAL_ATTEMPTS: nat := 3
  const CONSUMER_MAX_REDELIVERIES: nat := 5

  datatype Confirmation = Confirmation(eventId: nat, userId: nat, totalCents: nat)

  /** processed_messages (of this consumer) and order_confirmations. */
  datatype Inbox = Inbox(marks: set<nat>, confirmations: map<nat, Confirmation>)

  datatype Content = OrderPlaced(event: Event) | Malformed

  /** How one run of the transaction ends. A lost connection may hide a COMMIT that took effect. */
  datatype Attempt = Clean | Transient(committed: bool) | Permanent(committed: bool)

  datatype Outcome = Applied | Skipped | RaisedTransient | RaisedPermanent

  datatype Disposition = Acked | Requeued | Rejected | DeadLettered

  datatype Stats = Stats(deliveries: nat, applied: nat, skipped: nat, rejected: nat, requeued: nat, failed: nat)

  function ConfirmationOf(e: Event): Confirmation {
    Confirmation(e.eventId, e.userId, e.totalCents)
  }

  /** INSERT mark ON CONFLICT DO NOTHING; INSERT confirmation ON CONFLICT DO NOTHING; COMMIT. */
  function Apply(db: Inbox, e: Event): Inbox {
    if e.eventId in db.marks then db
    else Inbox(db.marks + {e.eventId},
               if e.orderId in db.confirmations then db.confirmations
               else db.confirmations[e.orderId := ConfirmationOf(e)])
  }

  /** However many times a message takes effect, it takes effect once; earlier confirmations keep their content. */
  lemma ApplyIsIdempotent(db: Inbox, e: Event)
    ensures Apply(Apply(db, e), e) == Apply(db, e)
    ensures db.marks <= Apply(db, e).marks
    ensures forall o :: o in db.confirmations ==>
              o in Apply(db, e).confirmations && Apply(db, e).confirmations[o] == db.confirmations[o]
  {
  }

  /** Two deliveries for different orders commute, so the order of redeliveries does not matter. */
  lemma AppliesCommute(db: Inbox, e: Event, f: Event)
    requires e.eventId != f.eventId && e.orderId != f.orderId
    ensures Apply(Apply(db, e), f) == Apply(Apply(db, f), e)
  {
    var a, b := Apply(Apply(db, e), f), Apply(Apply(db, f), e);
    assert a.marks == b.marks;
    assert a.confirmations == b.confirmations;
  }

  function DeliveryCount(header: Option<nat>, redelivered: bool): nat {
    match header
    case Some(n) => n
    case None => if redelivered then 1 else 0
  }

  /** What the retry loop amounts to: the first attempt that is not transient decides, and the third decides anyway. */
  function RetryOutcome(attempts: nat -> Attempt, attempt: nat, db: Inbox, e: Event): (Inbox, Outcome)
    requires 1 <= attempt <= CONSUMER_LOCAL_ATTEMPTS
    decreases CONSUMER_LOCAL_ATTEMPTS - attempt
  {
    match attempts(attempt)
    case Clean => (Apply(db, e), if e.eventId in db.marks then Skipped else Applied)
    case Permanent(committed) => (if committed then Apply(db, e) else db, RaisedPermanent)
    case Transient(committed) =>
      var next := if committed then Apply(db, e) else db;
      if attempt == CONSUMER_LOCAL_ATTEMPTS then (next, RaisedTransient)
      else RetryOutcome(attempts, attempt + 1, next, e)
  }

  /** The local retries either leave the tables alone or apply the event exactly once. */
  lemma {:induction false} RetryAppliesAtMostOnce(attempts: nat -> Attempt, attempt: nat, db: Inbox, e: Event)
    requires 1 <= attempt <= CONSUMER_LOCAL_ATTEMPTS
    ensures var (after, outcome) := RetryOutcome(attempts, attempt, db, e);
            && (after == db || after == Apply(db, e))
            && (outcome.Applied? || outcome.Skipped? ==> after == Apply(db, e))
    decreases CONSUMER_LOCAL_ATTEMPTS - attempt
  {
    ApplyIsIdempotent(db, e);
    if attempts(attempt).Transient? && attempt < CONSUMER_LOCAL_ATTEMPTS {
      var next := if attempts(attempt).committed then Apply(db, e) else db;
      RetryAppliesAtMostOnce(attempts, attempt + 1, next, e);
    }
  }

  /** Transient failure takes three transient attempts; otherwise the first attempt that is not transient speaks. */
  lemma ThreeAttempts(attempts: nat -> Attempt, db: Inbox, e: Event)
    ensures RetryOutcome(attempts, 1, db, e).1.RaisedTransient? <==>
              attempts(1).Transient? && attempts(2).Transient? && attempts(3).Transient?
    ensures RetryOutcome(attempts, 1, db, e).1.RaisedPermanent? <==>
              || attempts(1).Permanent?
              || (attempts(1).Transient? && attempts(2).Permanent?)
              || (attempts(1).Transient? && attempts(2).Transient? && attempts(3).Permanent?)
  {
    var second := if attempts(1).Transient? && attempts(1).committed then Apply(db, e) else db;
    var third := if attempts(2).Transient? && attempts(2).committed then Apply(second, e) else second;
    assert RetryOutcome(attempts, 3, third, e).1.RaisedTransient? <==> attempts(3).Transient?;
    assert attempts(2).Transient? ==> RetryOutcome(attempts, 2, second, e) == RetryOutcome(attempts, 3, third, e);
    assert attempts(1).Transient? ==> RetryOutcome(attempts, 1, db, e) == RetryOutcome(attempts, 2, second, e);
  }

  /** What one effective transaction writes: the mark, and the event's own figures unless the order has a confirmation. */
  lemma ApplyWrites(db: Inbox, e: Event)
    requires e.eventId !in db.marks
    ensures Apply(db, e).marks == db.marks + {e.eventId}
    ensures e.orderId !in db.confirmations ==>
      Apply(db, e).confirmations == db.confirmations[e.orderId := Confirmation(e.eventId, e.userId, e.totalCents)]
    ensures e.orderId in db.confirmations ==> Apply(db, e).confirmations == db.confirmations
  {
  }

  /** The attempt that decides: the first one that is not transient, or the last one allowed. */
  function Deciding(attempts: nat -> Attempt, attempt: nat): (d: nat)
    requires 1 <= attempt <= CONSUMER_LOCAL_ATTEMPTS
    ensures attempt <= d <= CONSUMER_LOCAL_ATTEMPTS
    ensures forall k :: attempt <= k < d ==> attempts(k).Transient?
    decreases CONSUMER_LOCAL_ATTEMPTS - attempt
  {
    if !attempts(attempt).Transient? || attempt == CONSUMER_LOCAL_ATTEMPTS then attempt
    else Deciding(attempts, attempt + 1)
  }

  lemma {:induction false} SkippedOnceMarked(attempts: nat -> Attempt, attempt: nat, db: Inbox, e: Event)
    requires 1 <= attempt <= CONSUMER_LOCAL_ATTEMPTS && e.eventId in db.marks
    ensures RetryOutcome(attempts, attempt, db, e).1.Skipped? <==> attempts(Deciding(attempts, attempt)).Clean?
    decreases CONSUMER_LOCAL_ATTEMPTS - attempt
  {
    if attempts(attempt).Transient? && attempt < CONSUMER_LOCAL_ATTEMPTS {
      SkippedOnceMarked(attempts, attempt + 1, db, e);
    }
  }

  /**
   * A delivery of an event nobody had marked counts as skipped if and only if it went through after a COMMIT of its
   * own whose answer was lost.
   */
  lemma {:induction false} SkippedThoughApplied(attempts: nat -> Attempt, attempt: nat, db: Inbox, e: Event)
    requires 1 <= attempt <= CONSUMER_LOCAL_ATTEMPTS && e.eventId !in db.marks
    ensures var d := Deciding(attempts, attempt);
            RetryOutcome(attempts, attempt, db, e).1.Skipped? <==>
              attempts(d).Clean? && exists k :: attempt <= k < d && attempts(k) == Transient(true)
    decreases CONSUMER_LOCAL_ATTEMPTS - attempt
  {
    if attempts(attempt).Transient? && attempt < CONSUMER_LOCAL_ATTEMPTS {
      if attempts(attempt).committed {
        SkippedOnceMarked(attempts, attempt + 1, Apply(db, e), e);
      } else {
        SkippedThoughApplied(attempts, attempt + 1, db, e);
      }
    }
  }

  /** What happens to a well-formed message after its transaction, `hookOk` being that there is no hook or it went well. */
  function Ending(outcome: Outcome, hookOk: bool, deliveries: nat): Disposition {
    var done := outcome.Applied? || outcome.Skipped?;
    if done && hookOk then Acked
    else if (done || outcome.RaisedTransient?) && deliveries < CONSUMER_MAX_REDELIVERIES then Requeued
    else DeadLettered
  }

  class Consumer {
    var db: Inbox
    var effects: set<nat>  // orders whose afterEffect completed
    var stats: Stats

    method ApplyOrderPlaced(e: Event, attempt: Attempt) returns (outcome: Outcome)
      modifies this`db
      ensures db == if attempt.Clean? || attempt.committed then Apply(old(db), e) else old(db)
      ensures (attempt.Clean? || attempt.committed) ==> e.eventId in db.marks
      ensures (attempt.Clean? || attempt.committed) && e.eventId !in old(db).marks && e.orderId !in old(db).confirmations ==>
                e.orderId in db.confirmations && db.confirmations[e.orderId] == Confirmation(e.eventId, e.userId, e.totalCents)
      ensures outcome == match attempt
                         case Clean => if e.eventId in old(db).marks then Skipped else Applied
                         case Transient(_) => RaisedTransient
                         case Permanent(_) => RaisedPermanent
    {
      if attempt.Clean? || attempt.committed {
        if e.eventId in db.marks {
          outcome := Skipped;
        } else {
          db := db.(marks := db.marks + {e.eventId});
          if e.orderId !in db.confirmations {
            db := db.(confirmations := db.confirmations[e.orderId := ConfirmationOf(e)]);
          }
          outcome := Applied;
        }
      }
      if attempt.Transient? {
        outcome := RaisedTransient;
      } else if attempt.Permanent? {
        outcome := RaisedPermanent;
      }
    }

    method WithLocalRetry(e: Event, attempts: nat -> Attempt) returns (outcome: Outcome)
      modifies this`db
      ensures (db, outcome) == RetryOutcome(attempts, 1, old(db), e)
    {
      var attempt := 1;
      while true
        invariant 1 <= attempt <= CONSUMER_LOCAL_ATTEMPTS
        invariant RetryOutcome(attempts, attempt, db, e) == RetryOutcome(attempts, 1, old(db), e)
        decreases CONSUMER_LOCAL_ATTEMPTS - attempt
      {
        outcome := ApplyOrderPlaced(e, attempts(attempt));
        if !outcome.RaisedTransient? || attempt >= CONSUMER_LOCAL_ATTEMPTS {
          return;
        }
        attempt := attempt + 1;
      }
    }

    /**
     * One delivery. An ack means the mark, the confirmation and the after-effect are all in place;
     * every other ending hands the message back to the broker; exactly one counter moves.
     */
    method Handle(content: Content, header: Option<nat>, redelivered: bool, attempts: nat -> Attempt,
                  hasHook: bool, hookSucceeds: bool)
      returns (d: Disposition)
      modifies this
      ensures content.Malformed? ==> d == Rejected && db == old(db) && effects == old(effects)
      ensures content.OrderPlaced? ==>
                && db == RetryOutcome(attempts, 1, old(db), content.event).0
                && (db == old(db) || db == Apply(old(db), content.event))
      ensures content.OrderPlaced? ==>
                var outcome := RetryOutcome(attempts, 1, old(db), content.event).1;
                var done := outcome.Applied? || outcome.Skipped?;
                && effects == old(effects) + (if done && hasHook && hookSucceeds then {content.event.orderId} else {})
                && (d == Acked <==> done && (hasHook ==> hookSucceeds))
                && (d == Requeued <==>
                      && (outcome.RaisedTransient? || (done && hasHook && !hookSucceeds))
                      && DeliveryCount(header, redelivered) < CONSUMER_MAX_REDELIVERIES)
                && d == Ending(outcome, hasHook ==> hookSucceeds, DeliveryCount(header, redelivered))
                && (d == Acked ==> db == Apply(old(db), content.event) && content.event.eventId in db.marks)
      ensures content.OrderPlaced? && header.Some? && header.value >= 5 ==> d != Requeued
      ensures content.OrderPlaced? && (header.None? || header.value < 5) ==>
                (d == Requeued <==>
                  || (attempts(1).Transient? && attempts(2).Transient? && attempts(3).Transient?)
                  || (hasHook && !hookSucceeds && (RetryOutcome(attempts, 1, old(db), content.event).1.Applied?
                                                   || RetryOutcome(attempts, 1, old(db), content.event).1.Skipped?)))
      ensures stats.deliveries == old(stats).deliveries + 1
      ensures content.OrderPlaced? && d == Acked ==>
                var outcome := RetryOutcome(attempts, 1, old(db), content.event).1;
                && stats.applied == old(stats).applied + (if outcome.Applied? then 1 else 0)
                && stats.skipped == old(stats).skipped + (if outcome.Skipped? then 1 else 0)
      ensures d != Acked ==> stats.applied == old(stats).applied && stats.skipped == old(stats).skipped
      ensures stats.rejected == old(stats).rejected + (if d == Rejected then 1 else 0)
      ensures stats.requeued == old(stats).requeued + (if d == Requeued then 1 else 0)
      ensures stats.failed == old(stats).failed + (if d == DeadLettered then 1 else 0)
    {
      stats := stats.(deliveries := stats.deliveries + 1);
      if content.Malformed? {
        stats := stats.(rejected := stats.rejected + 1);
        return Rejected;
      }
      RetryAppliesAtMostOnce(attempts, 1, db, content.event);
      ThreeAttempts(attempts, db, content.event);
      var outcome := WithLocalRetry(content.event, attempts);
      var transient := outcome.RaisedTransient?;
      var done := outcome.Applied? || outcome.Skipped?;
      if done && hasHook {
        if hookSucceeds {
          effects := effects + {content.event.orderId};
        } else {
          done, transient := false, true;
        }
      }
      if done {
        stats := if outcome.Applied? then stats.(applied := stats.applied + 1)
                 else stats.(skipped := stats.skipped + 1);
        return Acked;
      }
      if transient && DeliveryCount(header, redelivered) < CONSUMER_MAX_REDELIVERIES {
        stats := stats.(requeued := stats.requeued + 1);
        return Requeued;
      }
      stats := stats.(failed := stats.failed + 1);
      return DeadLettered;
    }
  }
}
