/**
 * The whole path of an order.placed event: order transaction, outbox, any number of relays, the broker,
 * any number of deliveries, the inbox and the retention sweeps. One action is one atomic database or broker
 * step, so a run is one interleaving, with crashes wherever an action is missing.
 */
module Pipeline {
  import opened Common
  import opened OutboxTable
  import opened Relay
  import opened Consumer

  datatype Order = Order(userId: nat, totalCents: nat)

  /** Publishing goes in claim order: `sent` rows are out, and those are the rows with a verdict. */
  datatype RelayPc = Idle | Publishing(batch: seq<nat>, sent: nat, verdicts: map<nat, Reply>)

  datatype Stage = Received | Effected | Hooked

  datatype Place = Queued | InFlight(stage: Stage) | Dead | Done

  /** One physical message in the broker. Done copies are gone from the broker and kept here as history. */
  datatype Copy = Copy(content: Content, redeliveries: nat, place: Place)

  datatype System = System(
    orders: map<nat, Order>,
    outbox: Table,
    relays: map<nat, RelayPc>,
    copies: map<nat, Copy>,
    inbox: Inbox,
    effects: set<nat>,
    // history, read by no action
    issued: map<nat, Event>,
    confirmed: set<Event>,
    settled: nat)

  datatype Action =
    | CommitOrder(orderId: nat, eventId: nat, userId: nat, totalCents: nat, createdAt: nat)
    | ClaimBatch(relay: nat, limit: nat, claim: seq<nat>)
    | Publish(relay: nat, arrival: Option<nat>, reply: Reply)
    | MarkBatch(relay: nat, now: nat)
    | Abandon(relay: nat)
    | PurgeRows(ids: set<nat>)
    | PurgeMarks(ids: set<nat>)
    | Duplicate(tag: nat, copyTag: nat)
    | Inject(tag: nat)
    | Deliver(tag: nat)
    | RunTransaction(tag: nat, attempt: Attempt)
    | RunHook(tag: nat)
    | Ack(tag: nat)
    | Return(tag: nat)
    | DeadLetter(tag: nat)

  ghost predicate Holds(s: System, relay: nat, id: nat) {
    relay in s.relays && s.relays[relay].Publishing? && id in s.relays[relay].batch
  }

  /** Rows under a FOR UPDATE lock of some open relay transaction. */
  ghost function Locked(s: System): set<nat> {
    set id | id in s.outbox && exists relay :: Holds(s, relay, id)
  }

  predicate AtStage(s: System, tag: nat, stage: Stage) {
    tag in s.copies && s.copies[tag].place == InFlight(stage) && s.copies[tag].content.OrderPlaced?
  }

  ghost predicate Enabled(s: System, a: Action) {
    match a
    case CommitOrder(orderId, eventId, _, _, _) =>
      && orderId !in s.orders && eventId !in s.outbox
      && forall o :: o in s.issued ==> s.issued[o].eventId != eventId
    case ClaimBatch(relay, limit, batch) =>
      && relay in s.relays && s.relays[relay].Idle?
      && IsClaim(s.outbox, Locked(s), limit, batch) && batch != []
    case Publish(relay, arrival, reply) =>
      && relay in s.relays && s.relays[relay].Publishing?
      && s.relays[relay].sent < |s.relays[relay].batch|
      && s.relays[relay].batch[s.relays[relay].sent] in s.outbox
      // A confirm is the broker's word that it has the message; a lost confirm or a refusal says nothing.
      && (reply.Confirmed? ==> arrival.Some?)
      && (arrival.Some? ==> arrival.value !in s.copies)
    case MarkBatch(relay, _) =>
      && relay in s.relays && s.relays[relay].Publishing?
      && s.relays[relay].sent == |s.relays[relay].batch|
      && forall id :: id in s.relays[relay].verdicts ==> !s.relays[relay].verdicts[id].ChannelClosed?
    case Abandon(relay) => relay in s.relays && s.relays[relay].Publishing?
    case PurgeRows(ids) => forall id :: id in ids ==> id in s.outbox && s.outbox[id].publishedAt.Some?
    case PurgeMarks(ids) => true
    case Duplicate(tag, copyTag) => tag in s.copies && !s.copies[tag].place.Done? && copyTag !in s.copies
    case Inject(tag) => tag !in s.copies
    case Deliver(tag) => tag in s.copies && s.copies[tag].place.Queued?
    case RunTransaction(tag, _) => AtStage(s, tag, Received)
    case RunHook(tag) => AtStage(s, tag, Effected)
    case Ack(tag) => AtStage(s, tag, Hooked)
    case Return(tag) => tag in s.copies && s.copies[tag].place.InFlight?
    case DeadLetter(tag) => tag in s.copies && (s.copies[tag].place.InFlight? || s.copies[tag].place.Queued?)
  }

  function Moved(s: System, tag: nat, place: Place): System
    requires tag in s.copies
  {
    s.(copies := s.copies[tag := s.copies[tag].(place := place)])
  }

  ghost function Next(s: System, a: Action): System
    requires Enabled(s, a)
  {
    match a
    case CommitOrder(orderId, eventId, userId, totalCents, createdAt) =>
      var e := Event(eventId, orderId, userId, totalCents);
      s.(orders := s.orders[orderId := Order(userId, totalCents)],
         outbox := s.outbox[eventId := Row(e, createdAt, None, 0, None)],
         issued := s.issued[orderId := e])
    case ClaimBatch(relay, _, batch) => s.(relays := s.relays[relay := Publishing(batch, 0, map[])])
    case Publish(relay, arrival, reply) =>
      var pc := s.relays[relay];
      var id := pc.batch[pc.sent];
      var e := s.outbox[id].payload;
      s.(relays := s.relays[relay := pc.(sent := pc.sent + 1, verdicts := pc.verdicts[id := reply])],
         copies := if arrival.Some? then s.copies[arrival.value := Copy(OrderPlaced(e), 0, Queued)] else s.copies,
         confirmed := if reply.Confirmed? then s.confirmed + {e} else s.confirmed)
    case MarkBatch(relay, now) =>
      s.(outbox := Mark(s.outbox, s.relays[relay].verdicts, now),
         relays := s.relays[relay := Idle],
         settled := s.settled + |s.relays[relay].batch|)
    case Abandon(relay) => s.(relays := s.relays[relay := Idle])
    case PurgeRows(ids) => s.(outbox := s.outbox - ids)
    case PurgeMarks(ids) => s.(inbox := s.inbox.(marks := s.inbox.marks - ids))
    case Duplicate(tag, copyTag) => s.(copies := s.copies[copyTag := s.copies[tag].(place := Queued)])
    case Inject(tag) => s.(copies := s.copies[tag := Copy(Malformed, 0, Queued)])
    case Deliver(tag) => Moved(s, tag, InFlight(Received))
    case RunTransaction(tag, attempt) =>
      var inbox := if attempt.Clean? || attempt.committed then Apply(s.inbox, s.copies[tag].content.event) else s.inbox;
      (if attempt.Clean? then Moved(s, tag, InFlight(Effected)) else s).(inbox := inbox)
    case RunHook(tag) =>
      Moved(s, tag, InFlight(Hooked)).(effects := s.effects + {s.copies[tag].content.event.orderId})
    case Ack(tag) => Moved(s, tag, Done)
    case Return(tag) =>
      s.(copies := s.copies[tag := s.copies[tag].(place := Queued, redeliveries := s.copies[tag].redeliveries + 1)])
    case DeadLetter(tag) => Moved(s, tag, Dead)
  }

  predicate Init(s: System) {
    && s.orders == map[] && s.outbox == map[] && s.copies == map[] && s.issued == map[]
    && s.inbox == Inbox({}, map[]) && s.effects == {} && s.confirmed == {} && s.settled == 0
    && forall relay :: relay in s.relays ==> s.relays[relay].Idle?
  }

  /** A finite run: the states it goes through. */
  ghost predicate IsRun(run: seq<System>) {
    && |run| > 0 && Init(run[0])
    && forall i :: 0 <= i < |run| - 1 ==> StepAt(run, i)
  }

  ghost predicate StepAt(run: seq<System>, i: nat)
    requires i + 1 < |run|
  {
    Follows(run[i], run[i + 1])
  }

  ghost predicate Follows(s: System, s': System) {
    exists a :: Enabled(s, a) && s' == Next(s, a)
  }

  // ---- What every step keeps ----

  predicate IsIssued(s: System, e: Event) {
    e.orderId in s.issued && s.issued[e.orderId] == e
  }

  /** Each committed order has one event, events have distinct ids, and the event says what the order says. */
  ghost predicate EventsMatchOrders(s: System) {
    && s.issued.Keys == s.orders.Keys
    && (forall o :: o in s.issued ==>
          && s.issued[o].orderId == o
          && s.orders[o] == Order(s.issued[o].userId, s.issued[o].totalCents))
    && (forall o, p :: o in s.issued && p in s.issued && s.issued[o].eventId == s.issued[p].eventId ==> o == p)
  }

  ghost predicate RowsAreIssued(s: System) {
    forall id :: id in s.outbox ==>
      && s.outbox[id].payload.eventId == id
      && IsIssued(s, s.outbox[id].payload)
      && s.outbox[id].attempts <= RELAY_MAX_ATTEMPTS
      && (s.outbox[id].publishedAt.Some? ==> s.outbox[id].payload in s.confirmed)
  }

  predicate Unpublished(s: System, e: Event) {
    e.eventId in s.outbox && s.outbox[e.eventId].publishedAt.None? && s.outbox[e.eventId].payload == e
  }

  /** No event is lost: it still waits in the outbox, or the broker confirmed it. */
  ghost predicate NothingLost(s: System) {
    forall o :: o in s.issued ==> Unpublished(s, s.issued[o]) || s.issued[o] in s.confirmed
  }

  ghost predicate OpenBatch(s: System, pc: RelayPc) {
    pc.Publishing? ==>
      && Distinct(pc.batch)
      && pc.sent <= |pc.batch|
      && (forall id :: id in pc.verdicts <==> id in pc.batch[..pc.sent])
      && (forall id :: id in pc.batch ==> id in s.outbox && IsPending(s.outbox[id]))
      && (forall id :: id in pc.verdicts && pc.verdicts[id].Confirmed? ==> s.outbox[id].payload in s.confirmed)
  }

  ghost predicate BatchesAreLocked(s: System) {
    && (forall r :: r in s.relays ==> OpenBatch(s, s.relays[r]))
    && (forall r, q, id :: Holds(s, r, id) && Holds(s, q, id) ==> r == q)
  }

  ghost predicate HasCopy(s: System, e: Event) {
    exists tag :: tag in s.copies && s.copies[tag].content == OrderPlaced(e)
  }

  /** The broker keeps what it confirmed, and carries nothing that was not issued (malformed messages aside). */
  ghost predicate BrokerIsHonest(s: System) {
    && (forall e :: e in s.confirmed ==> IsIssued(s, e) && HasCopy(s, e))
    && (forall tag :: tag in s.copies && s.copies[tag].content.OrderPlaced? ==> IsIssued(s, s.copies[tag].content.event))
  }

  ghost predicate InboxIsSound(s: System) {
    && (forall o :: o in s.inbox.confirmations ==>
          o in s.issued && s.inbox.confirmations[o] == ConfirmationOf(s.issued[o]))
    && (forall id :: id in s.inbox.marks ==> MarkIsBacked(s, id))
    && (forall tag :: tag in s.copies ==> StageIsEarned(s, s.copies[tag]))
  }

  /** Every mark belongs to an issued event whose confirmation exists. */
  ghost predicate MarkIsBacked(s: System, eventId: nat) {
    exists o :: o in s.inbox.confirmations && o in s.issued && s.issued[o].eventId == eventId
  }

  predicate StageIsEarned(s: System, c: Copy) {
    c.content.OrderPlaced? ==>
      && (c.place == InFlight(Effected) || c.place == InFlight(Hooked) || c.place == Done ==>
            c.content.event.orderId in s.inbox.confirmations)
      && (c.place == InFlight(Hooked) || c.place == Done ==> c.content.event.orderId in s.effects)
  }

  ghost predicate Inv(s: System) {
    && EventsMatchOrders(s) && RowsAreIssued(s) && NothingLost(s)
    && BatchesAreLocked(s) && BrokerIsHonest(s) && InboxIsSound(s)
  }

  lemma InitEstablishes(s: System)
    requires Init(s)
    ensures Inv(s)
  {
  }

  /** One copy appears, moves or is counted once more; the tables stay as they are. */
  lemma CopyUpdateKeeps(s: System, s': System, tag: nat, c: Copy)
    requires Inv(s)
    requires s' == s.(copies := s.copies[tag := c], effects := s'.effects) && s.effects <= s'.effects
    requires tag in s.copies ==> c.content == s.copies[tag].content
    requires c.content.OrderPlaced? ==> IsIssued(s, c.content.event)
    requires StageIsEarned(s', c)
    ensures Inv(s')
  {
    TablesUntouched(s, s');
    CopiesSurvive(s, s');
    MarksStayBacked(s, s');
    forall t | t in s'.copies ensures StageIsEarned(s', s'.copies[t]) {
      assert t != tag ==> StageIsEarned(s, s.copies[t]);
    }
  }

  lemma TablesUntouched(s: System, s': System)
    requires Inv(s)
    requires s'.orders == s.orders && s'.outbox == s.outbox && s'.relays == s.relays
    requires s'.issued == s.issued && s'.confirmed == s.confirmed
    ensures EventsMatchOrders(s') && RowsAreIssued(s') && NothingLost(s') && BatchesAreLocked(s')
  {
    assert forall r :: r in s.relays ==> OpenBatch(s, s.relays[r]) ==> OpenBatch(s', s.relays[r]);
    assert forall r, id :: Holds(s', r, id) ==> Holds(s, r, id);
  }

  lemma CopiesSurvive(s: System, s': System)
    requires forall tag :: tag in s.copies ==> tag in s'.copies && s'.copies[tag].content == s.copies[tag].content
    ensures forall e :: HasCopy(s, e) ==> HasCopy(s', e)
  {
    forall e | HasCopy(s, e) ensures HasCopy(s', e) {
      var tag :| tag in s.copies && s.copies[tag].content == OrderPlaced(e);
      assert s'.copies[tag].content == OrderPlaced(e);
    }
  }

  lemma MarksStayBacked(s: System, s': System)
    requires InboxIsSound(s)
    requires s.inbox.confirmations.Keys <= s'.inbox.confirmations.Keys
    requires forall o :: o in s.issued ==> o in s'.issued && s'.issued[o] == s.issued[o]
    ensures forall id :: id in s.inbox.marks ==> MarkIsBacked(s', id)
  {
    forall id | id in s.inbox.marks ensures MarkIsBacked(s', id) {
      assert MarkIsBacked(s, id);
      var o :| o in s.inbox.confirmations && o in s.issued && s.issued[o].eventId == id;
      assert s'.issued[o].eventId == id;
    }
  }

  lemma PurgeMarksKeeps(s: System, s': System, ids: set<nat>)
    requires Inv(s) && s' == s.(inbox := s.inbox.(marks := s.inbox.marks - ids))
    ensures Inv(s')
  {
    TablesUntouched(s, s');
    CopiesSurvive(s, s');
    MarksStayBacked(s, s');
    assert forall tag :: tag in s.copies ==> StageIsEarned(s, s.copies[tag]);
  }

  /** The transaction took effect, whether or not the consumer learns of it. */
  lemma EffectKeeps(s: System, s': System, e: Event)
    requires Inv(s) && IsIssued(s, e) && s' == s.(inbox := Apply(s.inbox, e))
    ensures Inv(s') && e.orderId in s'.inbox.confirmations
  {
    TablesUntouched(s, s');
    CopiesSurvive(s, s');
    EffectIsSound(s, s', e);
  }

  lemma EffectIsSound(s: System, s': System, e: Event)
    requires InboxIsSound(s) && EventsMatchOrders(s) && IsIssued(s, e) && s' == s.(inbox := Apply(s.inbox, e))
    ensures InboxIsSound(s') && e.orderId in s'.inbox.confirmations
  {
    MarksStayBacked(s, s');
    assert forall tag :: tag in s.copies ==> StageIsEarned(s, s.copies[tag]);
    if e.eventId in s.inbox.marks {
      assert MarkIsBacked(s, e.eventId);
    } else {
      assert s'.issued[e.orderId].eventId == e.eventId;
    }
  }

  lemma ClaimKeeps(s: System, s': System, relay: nat, batch: seq<nat>)
    requires Inv(s) && relay in s.relays && s.relays[relay].Idle?
    requires Distinct(batch) && forall id :: id in batch ==> id in s.outbox && IsPending(s.outbox[id]) && id !in Locked(s)
    requires s' == s.(relays := s.relays[relay := Publishing(batch, 0, map[])])
    ensures Inv(s')
  {
    forall r | r in s'.relays ensures OpenBatch(s', s'.relays[r]) {
      assert r != relay ==> OpenBatch(s, s.relays[r]);
    }
    forall r, q, id | Holds(s', r, id) && Holds(s', q, id) ensures r == q {
      assert r != relay ==> Holds(s, r, id);
      assert q != relay ==> Holds(s, q, id);
    }
    OthersKeep(s, s');
  }

  lemma AbandonKeeps(s: System, s': System, relay: nat)
    requires Inv(s) && relay in s.relays && s' == s.(relays := s.relays[relay := Idle])
    ensures Inv(s')
  {
    forall r | r in s'.relays ensures OpenBatch(s', s'.relays[r]) {
      assert OpenBatch(s, s.relays[r]);
    }
    assert forall r, id :: Holds(s', r, id) ==> Holds(s, r, id);
    OthersKeep(s, s');
  }

  /** Broker and inbox invariants do not look at the outbox or the relays. */
  lemma OthersKeep(s: System, s': System)
    requires BrokerIsHonest(s) && InboxIsSound(s)
    requires s'.copies == s.copies && s'.confirmed == s.confirmed && s'.inbox == s.inbox && s'.effects == s.effects
    requires forall o :: o in s.issued ==> o in s'.issued && s'.issued[o] == s.issued[o]
    ensures BrokerIsHonest(s') && InboxIsSound(s')
  {
    CopiesSurvive(s, s');
    MarksStayBacked(s, s');
    assert forall tag :: tag in s.copies ==> StageIsEarned(s, s.copies[tag]);
  }

  /** Open batches live on as long as their rows stay put and nothing loses its confirm. */
  lemma BatchesKeep(s: System, s': System)
    requires BatchesAreLocked(s)
    requires s'.relays.Keys == s.relays.Keys && s.confirmed <= s'.confirmed
    requires forall r :: r in s.relays ==>
               s'.relays[r] == s.relays[r] || s'.relays[r].Idle?
               || (OpenBatch(s', s'.relays[r]) && s.relays[r].Publishing? && s'.relays[r].batch == s.relays[r].batch)
    requires forall r, id :: Holds(s', r, id) ==> id in s'.outbox && id in s.outbox && s'.outbox[id] == s.outbox[id]
    ensures BatchesAreLocked(s')
  {
    forall r | r in s'.relays ensures OpenBatch(s', s'.relays[r]) {
      if s'.relays[r] == s.relays[r] {
        assert OpenBatch(s, s.relays[r]);
        assert s.relays[r].Publishing? ==> forall id :: id in s.relays[r].batch ==> Holds(s', r, id);
        SameBatch(s, s', s.relays[r]);
      }
    }
    assert forall r, id :: Holds(s', r, id) ==> Holds(s, r, id);
  }

  lemma SameBatch(s: System, s': System, pc: RelayPc)
    requires OpenBatch(s, pc) && s.confirmed <= s'.confirmed
    requires pc.Publishing? ==> forall id :: id in pc.batch ==> id in s'.outbox && id in s.outbox && s'.outbox[id] == s.outbox[id]
    ensures OpenBatch(s', pc)
  {
    if pc.Publishing? {
      assert forall id :: id in pc.batch[..pc.sent] ==> id in pc.batch;
    }
  }

  lemma LostNothing(s: System, s': System)
    requires NothingLost(s) && s'.issued == s.issued && s.confirmed <= s'.confirmed
    requires forall id :: id in s.outbox && s.outbox[id].publishedAt.None? ==>
               && id in s'.outbox && s'.outbox[id].payload == s.outbox[id].payload
               && (s'.outbox[id].publishedAt.None? || s.outbox[id].payload in s'.confirmed)
    ensures NothingLost(s')
  {
    forall o | o in s'.issued ensures Unpublished(s', s'.issued[o]) || s'.issued[o] in s'.confirmed {
      assert Unpublished(s, s.issued[o]) || s.issued[o] in s.confirmed;
    }
  }

  /** One row of an open batch goes out: the message may or may not arrive, the confirm may or may not. */
  lemma PublishKeeps(s: System, s': System, relay: nat, arrival: Option<nat>, reply: Reply)
    requires Inv(s) && Enabled(s, Action.Publish(relay, arrival, reply))
    requires s' == Next(s, Action.Publish(relay, arrival, reply))
    ensures Inv(s')
  {
    var pc := s.relays[relay];
    var e := s.outbox[pc.batch[pc.sent]].payload;
    var mid := if arrival.Some? then s.(copies := s.copies[arrival.value := Copy(OrderPlaced(e), 0, Queued)]) else s;
    if arrival.Some? {
      CopyUpdateKeeps(s, mid, arrival.value, Copy(OrderPlaced(e), 0, Queued));
      assert mid.copies[arrival.value].content == OrderPlaced(e);
    }
    assert reply.Confirmed? ==> HasCopy(mid, e);
    VerdictKeeps(mid, s', relay, pc, pc.batch[pc.sent], reply);
  }

  lemma VerdictKeeps(s: System, s': System, relay: nat, pc: RelayPc, id: nat, reply: Reply)
    requires Inv(s) && relay in s.relays && s.relays[relay] == pc
    requires pc.Publishing? && pc.sent < |pc.batch| && id == pc.batch[pc.sent] && id in s.outbox
    requires reply.Confirmed? ==> HasCopy(s, s.outbox[id].payload)
    requires s' == s.(relays := s.relays[relay := pc.(sent := pc.sent + 1, verdicts := pc.verdicts[id := reply])],
                      confirmed := if reply.Confirmed? then s.confirmed + {s.outbox[id].payload} else s.confirmed)
    ensures Inv(s')
  {
    assert OpenBatch(s, pc);
    NextVerdict(s, s', pc, id, reply);
    VerdictKeepsBatches(s, s', relay);
    LostNothing(s, s');
    ConfirmKeeps(s, s');
    assert RowsAreIssued(s');
  }

  lemma VerdictKeepsBatches(s: System, s': System, relay: nat)
    requires BatchesAreLocked(s) && relay in s.relays && s.relays[relay].Publishing?
    requires s'.outbox == s.outbox && s.confirmed <= s'.confirmed && relay in s'.relays
    requires s'.relays == s.relays[relay := s'.relays[relay]] && OpenBatch(s', s'.relays[relay])
    requires s'.relays[relay].Publishing? && s'.relays[relay].batch == s.relays[relay].batch
    ensures BatchesAreLocked(s')
  {
    forall r, k | Holds(s', r, k) ensures k in s.outbox {
      assert Holds(s, r, k) && OpenBatch(s, s.relays[r]);
    }
    BatchesKeep(s, s');
  }

  lemma ConfirmKeeps(s: System, s': System)
    requires BrokerIsHonest(s) && InboxIsSound(s)
    requires s'.copies == s.copies && s'.inbox == s.inbox && s'.effects == s.effects && s'.issued == s.issued
    requires forall e :: e in s'.confirmed && e !in s.confirmed ==> IsIssued(s, e) && HasCopy(s, e)
    ensures BrokerIsHonest(s') && InboxIsSound(s')
  {
    CopiesSurvive(s, s');
    MarksStayBacked(s, s');
    assert forall tag :: tag in s.copies ==> StageIsEarned(s, s.copies[tag]);
  }

  lemma NextVerdict(s: System, s': System, pc: RelayPc, id: nat, reply: Reply)
    requires OpenBatch(s, pc) && pc.Publishing? && pc.sent < |pc.batch| && id == pc.batch[pc.sent]
    requires s'.outbox == s.outbox && id in s.outbox && s.confirmed <= s'.confirmed
    requires reply.Confirmed? ==> s.outbox[id].payload in s'.confirmed
    ensures OpenBatch(s', pc.(sent := pc.sent + 1, verdicts := pc.verdicts[id := reply]))
  {
    assert pc.batch[..pc.sent + 1] == pc.batch[..pc.sent] + [id];
    assert id !in pc.batch[..pc.sent];
  }

  /** The other open batches hold other rows, so marking this one leaves them as they were. */
  lemma MarkKeepsBatches(s: System, s': System, relay: nat, now: nat)
    requires BatchesAreLocked(s) && relay in s.relays && s.relays[relay].Publishing? && s'.confirmed == s.confirmed
    requires forall id :: id in s.relays[relay].verdicts <==> id in s.relays[relay].batch
    requires s'.outbox == Mark(s.outbox, s.relays[relay].verdicts, now) && s'.relays == s.relays[relay := Idle]
    ensures BatchesAreLocked(s')
  {
    forall r, id | Holds(s', r, id) ensures id in s'.outbox && id in s.outbox && s'.outbox[id] == s.outbox[id] {
      assert Holds(s, r, id) && OpenBatch(s, s.relays[r]);
      assert id in s.relays[relay].batch ==> Holds(s, relay, id);
    }
    BatchesKeep(s, s');
  }

  lemma PendingRowsKeepBatches(s: System, s': System)
    requires BatchesAreLocked(s) && s'.relays == s.relays && s'.confirmed == s.confirmed
    requires forall id :: id in s.outbox && IsPending(s.outbox[id]) ==> id in s'.outbox && s'.outbox[id] == s.outbox[id]
    ensures BatchesAreLocked(s')
  {
    assert forall r, id :: Holds(s', r, id) ==> Holds(s, r, id) && OpenBatch(s, s.relays[r]);
    BatchesKeep(s, s');
  }

  lemma MarkBatchKeeps(s: System, s': System, relay: nat, now: nat)
    requires Inv(s) && Enabled(s, Action.MarkBatch(relay, now)) && s' == Next(s, Action.MarkBatch(relay, now))
    ensures Inv(s')
  {
    var pc := s.relays[relay];
    assert OpenBatch(s, pc);
    WholeBatch(s, pc);
    MarkKeepsBatches(s, s', relay, now);
    assert forall id :: id in pc.verdicts ==> id in s.outbox && IsPending(s.outbox[id]);
    MarkKeepsRows(s, s', pc.verdicts, now);
    OthersKeep(s, s');
  }

  lemma MarkKeepsRows(s: System, s': System, verdicts: map<nat, Reply>, now: nat)
    requires RowsAreIssued(s) && NothingLost(s)
    requires forall id :: id in verdicts ==> id in s.outbox && IsPending(s.outbox[id])
    requires forall id :: id in verdicts && verdicts[id].Confirmed? ==> s.outbox[id].payload in s.confirmed
    requires s'.outbox == Mark(s.outbox, verdicts, now) && s'.issued == s.issued && s'.confirmed == s.confirmed
    ensures RowsAreIssued(s') && NothingLost(s')
  {
    MarkedRows(s, verdicts, now);
    LostNothing(s, s');
  }

  lemma MarkedRows(s: System, verdicts: map<nat, Reply>, now: nat)
    requires RowsAreIssued(s)
    requires forall id :: id in verdicts ==> id in s.outbox && IsPending(s.outbox[id])
    requires forall id :: id in verdicts && verdicts[id].Confirmed? ==> s.outbox[id].payload in s.confirmed
    ensures RowsAreIssued(s.(outbox := Mark(s.outbox, verdicts, now)))
    ensures forall id :: id in s.outbox ==>
              && Mark(s.outbox, verdicts, now)[id].payload == s.outbox[id].payload
              && (Mark(s.outbox, verdicts, now)[id].publishedAt.Some? ==> s.outbox[id].payload in s.confirmed)
  {
    MarkKeepsAttemptsBounded(s.outbox, verdicts, now);
  }

  lemma WholeBatch(s: System, pc: RelayPc)
    requires OpenBatch(s, pc) && pc.Publishing? && pc.sent == |pc.batch|
    ensures forall id :: id in pc.verdicts <==> id in pc.batch
  {
    assert pc.batch[..pc.sent] == pc.batch;
  }

  lemma PurgeRowsKeeps(s: System, s': System, ids: set<nat>)
    requires Inv(s) && Enabled(s, PurgeRows(ids)) && s' == Next(s, PurgeRows(ids))
    ensures Inv(s')
  {
    PendingRowsKeepBatches(s, s');
    PurgeKeepsRows(s, s', ids);
    OthersKeep(s, s');
  }

  lemma PurgeKeepsRows(s: System, s': System, ids: set<nat>)
    requires RowsAreIssued(s) && NothingLost(s)
    requires forall id :: id in ids ==> id in s.outbox && s.outbox[id].publishedAt.Some?
    requires s'.outbox == s.outbox - ids && s'.issued == s.issued && s'.confirmed == s.confirmed
    ensures RowsAreIssued(s') && NothingLost(s')
  {
    LostNothing(s, s');
  }

  lemma CommitOrderKeeps(s: System, s': System, a: Action)
    requires Inv(s) && a.CommitOrder? && Enabled(s, a) && s' == Next(s, a)
    ensures Inv(s')
  {
    OrderIsNew(s, s', a);
    PendingRowsKeepBatches(s, s');
    OthersKeep(s, s');
  }

  lemma OrderIsNew(s: System, s': System, a: Action)
    requires EventsMatchOrders(s) && RowsAreIssued(s) && NothingLost(s)
    requires a.CommitOrder? && Enabled(s, a) && s' == Next(s, a)
    ensures EventsMatchOrders(s') && RowsAreIssued(s') && NothingLost(s')
  {
    var e := Event(a.eventId, a.orderId, a.userId, a.totalCents);
    assert s'.outbox == s.outbox[a.eventId := Row(e, a.createdAt, None, 0, None)];
    assert s'.issued == s.issued[a.orderId := e];
    NewEventMatches(s, s', a.orderId, e);
    NewRowWaits(s, s', a.orderId, e);
  }

  lemma NewEventMatches(s: System, s': System, orderId: nat, e: Event)
    requires EventsMatchOrders(s) && orderId !in s.orders && e.orderId == orderId
    requires forall o :: o in s.issued ==> s.issued[o].eventId != e.eventId
    requires s'.issued == s.issued[orderId := e] && s'.orders == s.orders[orderId := Order(e.userId, e.totalCents)]
    ensures EventsMatchOrders(s')
  {
  }

  lemma NewRowWaits(s: System, s': System, orderId: nat, e: Event)
    requires RowsAreIssued(s) && NothingLost(s) && orderId !in s.issued && e.orderId == orderId
    requires e.eventId !in s.outbox && s'.confirmed == s.confirmed
    requires s'.issued == s.issued[orderId := e]
    requires e.eventId in s'.outbox && s'.outbox[e.eventId].payload == e && s'.outbox[e.eventId].publishedAt.None?
    requires s'.outbox[e.eventId].attempts == 0 && s'.outbox - {e.eventId} == s.outbox
    ensures RowsAreIssued(s') && NothingLost(s')
  {
    assert forall id :: id in s'.outbox && id != e.eventId ==> id in s'.outbox - {e.eventId};
    assert forall id :: id in s.outbox ==> id in s'.outbox && s'.outbox[id] == s.outbox[id] by {
      assert forall id :: id in s.outbox ==> id in s'.outbox - {e.eventId};
    }
    forall o | o in s'.issued ensures Unpublished(s', s'.issued[o]) || s'.issued[o] in s'.confirmed {
      assert o != orderId ==> Unpublished(s, s.issued[o]) || s.issued[o] in s.confirmed;
    }
  }

  lemma StepKeeps(s: System, a: Action)
    requires Inv(s) && Enabled(s, a)
    ensures Inv(Next(s, a))
  {
    var s' := Next(s, a);
    match a
    case CommitOrder(_, _, _, _, _) => CommitOrderKeeps(s, s', a);
    case ClaimBatch(_, _, _) => RelayStepKeeps(s, a);
    case Publish(_, _, _) => RelayStepKeeps(s, a);
    case MarkBatch(_, _) => RelayStepKeeps(s, a);
    case Abandon(_) => RelayStepKeeps(s, a);
    case PurgeRows(ids) => PurgeRowsKeeps(s, s', ids);
    case PurgeMarks(ids) => PurgeMarksKeeps(s, s', ids);
    case RunTransaction(tag, attempt) => TransactionKeeps(s, s', tag, attempt);
    case RunHook(tag) => HookKeeps(s, s', tag);
    case Ack(tag) => AckKeeps(s, s', tag);
    case _ => CopyStepKeeps(s, a);
  }

  lemma RelayStepKeeps(s: System, a: Action)
    requires Inv(s) && Enabled(s, a) && (a.ClaimBatch? || a.Publish? || a.MarkBatch? || a.Abandon?)
    ensures Inv(Next(s, a))
  {
    var s' := Next(s, a);
    match a
    case ClaimBatch(relay, _, batch) => ClaimKeeps(s, s', relay, batch);
    case Publish(relay, arrival, reply) => PublishKeeps(s, s', relay, arrival, reply);
    case MarkBatch(relay, now) => MarkBatchKeeps(s, s', relay, now);
    case Abandon(relay) => AbandonKeeps(s, s', relay);
  }

  lemma CopyStepKeeps(s: System, a: Action)
    requires Inv(s) && Enabled(s, a)
    requires a.Duplicate? || a.Inject? || a.Deliver? || a.Return? || a.DeadLetter?
    ensures Inv(Next(s, a))
  {
    var s' := Next(s, a);
    match a
    case Duplicate(tag, copyTag) => CopyUpdateKeeps(s, s', copyTag, s'.copies[copyTag]);
    case Inject(tag) => CopyUpdateKeeps(s, s', tag, s'.copies[tag]);
    case Deliver(tag) => CopyUpdateKeeps(s, s', tag, s'.copies[tag]);
    case Return(tag) => CopyUpdateKeeps(s, s', tag, s'.copies[tag]);
    case DeadLetter(tag) => CopyUpdateKeeps(s, s', tag, s'.copies[tag]);
  }

  lemma TransactionKeeps(s: System, s': System, tag: nat, attempt: Attempt)
    requires Inv(s) && Enabled(s, RunTransaction(tag, attempt)) && s' == Next(s, RunTransaction(tag, attempt))
    ensures Inv(s')
  {
    var e := s.copies[tag].content.event;
    assert IsIssued(s, e);
    if attempt.Clean? || attempt.committed {
      var mid := s.(inbox := Apply(s.inbox, e));
      EffectKeeps(s, mid, e);
      if attempt.Clean? {
        CopyUpdateKeeps(mid, s', tag, s'.copies[tag]);
      }
    }
  }

  lemma HookKeeps(s: System, s': System, tag: nat)
    requires Inv(s) && Enabled(s, RunHook(tag)) && s' == Next(s, RunHook(tag))
    ensures Inv(s')
  {
    assert StageIsEarned(s, s.copies[tag]);
    CopyUpdateKeeps(s, s', tag, s'.copies[tag]);
  }

  lemma AckKeeps(s: System, s': System, tag: nat)
    requires Inv(s) && Enabled(s, Ack(tag)) && s' == Next(s, Ack(tag))
    ensures Inv(s')
  {
    assert StageIsEarned(s, s.copies[tag]);
    CopyUpdateKeeps(s, s', tag, s'.copies[tag]);
  }

  // ---- What holds of every run ----

  /** The publishes settled so far and the attempts still open never exceed five per order. */
  ghost predicate Paced(s: System) {
    s.settled + Budget(s.outbox) <= RELAY_MAX_ATTEMPTS * |s.orders|
  }

  lemma StepKeepsPace(s: System, a: Action)
    requires Inv(s) && Enabled(s, a) && Paced(s)
    ensures Paced(Next(s, a))
  {
    if a.CommitOrder? {
      BudgetOfUpdate(s.outbox, a.eventId, Next(s, a).outbox[a.eventId]);
    } else if a.PurgeRows? {
      BudgetOfPurge(s.outbox, a.ids);
    } else if a.MarkBatch? {
      MarkPaces(s, a.relay, a.now);
    } else {
      OthersKeepPace(s, a);
    }
  }

  lemma OthersKeepPace(s: System, a: Action)
    requires Enabled(s, a) && !a.CommitOrder? && !a.PurgeRows? && !a.MarkBatch?
    ensures Next(s, a).outbox == s.outbox && Next(s, a).orders == s.orders && Next(s, a).settled == s.settled
  {
  }

  /** A committed pass over k rows lowers the budget by at least k. */
  lemma MarkPaces(s: System, relay: nat, now: nat)
    requires Inv(s) && Enabled(s, Action.MarkBatch(relay, now))
    ensures Budget(Next(s, Action.MarkBatch(relay, now)).outbox) + |s.relays[relay].batch| <= Budget(s.outbox)
  {
    var pc := s.relays[relay];
    assert OpenBatch(s, pc);
    WholeBatch(s, pc);
    assert pc.verdicts.Keys == Elements(pc.batch);
    DistinctElements(pc.batch);
    MarkLowersBudget(s.outbox, pc.verdicts, now);
  }

  lemma InitPaces(s: System)
    requires Init(s)
    ensures Paced(s)
  {
    assert Contributions(s.outbox) == map[];
  }

  lemma {:induction false} RunKeeps(run: seq<System>, i: nat)
    requires IsRun(run) && i < |run|
    ensures Inv(run[i]) && Paced(run[i])
  {
    if i == 0 {
      InitEstablishes(run[0]);
      InitPaces(run[0]);
    } else {
      RunKeeps(run, i - 1);
      assert StepAt(run, i - 1);
      FollowKeeps(run[i - 1], run[i]);
    }
  }

  lemma FollowKeeps(s: System, s': System)
    requires Inv(s) && Paced(s) && Follows(s, s')
    ensures Inv(s') && Paced(s')
  {
    var a :| Enabled(s, a) && s' == Next(s, a);
    StepKeeps(s, a);
    StepKeepsPace(s, a);
  }

  /** Orders, their events and their confirmations are there for good. */
  ghost predicate Grows(s: System, s': System) {
    && (forall o :: o in s.issued ==> o in s'.issued && s'.issued[o] == s.issued[o])
    && (forall o :: o in s.inbox.confirmations ==>
          o in s'.inbox.confirmations && s'.inbox.confirmations[o] == s.inbox.confirmations[o])
    && s.confirmed <= s'.confirmed && s.effects <= s'.effects
  }

  lemma StepGrows(s: System, a: Action)
    requires Enabled(s, a) && EventsMatchOrders(s)
    ensures Grows(s, Next(s, a))
  {
  }

  lemma {:induction false} RunGrows(run: seq<System>, i: nat, j: nat)
    requires IsRun(run) && i <= j < |run|
    ensures Grows(run[i], run[j])
  {
    if i < j {
      RunGrows(run, i, j - 1);
      StepIsSound(run, j - 1);
      GrowsOneMore(run[i], run[j - 1], run[j]);
    }
  }

  lemma StepIsSound(run: seq<System>, i: nat)
    requires IsRun(run) && i + 1 < |run|
    ensures Follows(run[i], run[i + 1]) && EventsMatchOrders(run[i])
  {
    RunKeeps(run, i);
    assert StepAt(run, i);
  }

  lemma GrowsOneMore(s: System, mid: System, s': System)
    requires Grows(s, mid) && Follows(mid, s') && EventsMatchOrders(mid)
    ensures Grows(s, s')
  {
    var a :| Enabled(mid, a) && s' == Next(mid, a);
    StepGrows(mid, a);
  }

  /**
   * No event is lost. At every later point of the run the one event of a committed order, which says what
   * the order says, is an unpublished outbox row or was confirmed by the broker, and then a copy of it exists.
   */
  lemma NoEventLost(run: seq<System>, i: nat, j: nat, o: nat)
    requires IsRun(run) && i <= j < |run| && o in run[i].orders
    ensures o in run[i].issued && o in run[j].issued && run[j].issued[o] == run[i].issued[o]
    ensures var e := run[j].issued[o];
            && e.orderId == o
            && o in run[j].orders && run[j].orders[o] == Order(e.userId, e.totalCents)
            && (Unpublished(run[j], e) || (e in run[j].confirmed && HasCopy(run[j], e)))
  {
    RunKeeps(run, i);
    RunKeeps(run, j);
    RunGrows(run, i, j);
  }

  /** An outbox row disappears only after it was marked published, that is, after its confirm. */
  lemma RowsLeaveOnlyPublished(run: seq<System>, i: nat, id: nat)
    requires IsRun(run) && i + 1 < |run| && id in run[i].outbox && id !in run[i + 1].outbox
    ensures run[i].outbox[id].publishedAt.Some? && run[i].outbox[id].payload in run[i].confirmed
  {
    RunKeeps(run, i);
    assert StepAt(run, i);
    var a :| Enabled(run[i], a) && run[i + 1] == Next(run[i], a);
    OnlyPurgesDelete(run[i], a, id);
  }

  lemma OnlyPurgesDelete(s: System, a: Action, id: nat)
    requires Enabled(s, a) && id in s.outbox && id !in Next(s, a).outbox
    ensures s.outbox[id].publishedAt.Some?
  {
  }

  /**
   * Exactly-once effect over at-least-once delivery: once an order is confirmed, the confirmation is that of
   * its own event and never changes, whatever is duplicated, redelivered, requeued or purged afterwards.
   */
  lemma ConfirmedOnce(run: seq<System>, i: nat, j: nat, o: nat)
    requires IsRun(run) && i <= j < |run| && o in run[i].inbox.confirmations
    ensures o in run[j].inbox.confirmations && run[j].inbox.confirmations[o] == run[i].inbox.confirmations[o]
    ensures o in run[i].issued && run[i].inbox.confirmations[o] == ConfirmationOf(run[i].issued[o])
  {
    RunKeeps(run, i);
    RunGrows(run, i, j);
  }

  /** Every mark has its confirmation; every acked well-formed copy has confirmation and completed after-effect. */
  lemma AckedIsEffective(run: seq<System>, i: nat, j: nat, tag: nat)
    requires IsRun(run) && i <= j < |run| && tag in run[i].copies
    requires run[i].copies[tag].place.Done?
    ensures var c := run[i].copies[tag].content;
            c.OrderPlaced? ==>
              && c.event.orderId in run[j].inbox.confirmations
              && run[j].inbox.confirmations[c.event.orderId] == ConfirmationOf(c.event)
              && c.event.orderId in run[j].effects
  {
    RunKeeps(run, i);
    RunGrows(run, i, j);
    assert StageIsEarned(run[i], run[i].copies[tag]);
  }

  lemma MarksAreBacked(run: seq<System>, i: nat, o: nat)
    requires IsRun(run) && i < |run| && o in run[i].issued && run[i].issued[o].eventId in run[i].inbox.marks
    ensures o in run[i].inbox.confirmations
  {
    RunKeeps(run, i);
    assert MarkIsBacked(run[i], run[i].issued[o].eventId);
  }

  /** Nothing waits in the outbox, and every well-formed copy was acked: none queued, in flight or dead-lettered. */
  predicate Quiescent(s: System) {
    && (forall id :: id in s.outbox ==> s.outbox[id].publishedAt.Some?)
    && (forall tag :: tag in s.copies && s.copies[tag].content.OrderPlaced? ==> s.copies[tag].place.Done?)
  }

  /** When the pipeline comes to rest, orders and confirmations correspond one to one. */
  lemma RestMeansConfirmed(run: seq<System>, i: nat)
    requires IsRun(run) && i < |run| && Quiescent(run[i])
    ensures run[i].inbox.confirmations.Keys == run[i].orders.Keys
    ensures run[i].orders.Keys <= run[i].effects
    ensures forall o :: o in run[i].orders ==>
              && run[i].inbox.confirmations[o].userId == run[i].orders[o].userId
              && run[i].inbox.confirmations[o].totalCents == run[i].orders[o].totalCents
  {
    var s := run[i];
    RunKeeps(run, i);
    forall o | o in s.orders ensures o in s.inbox.confirmations && o in s.effects {
      assert Unpublished(s, s.issued[o]) || s.issued[o] in s.confirmed;
      assert HasCopy(s, s.issued[o]);
      var tag :| tag in s.copies && s.copies[tag].content == OrderPlaced(s.issued[o]);
      assert StageIsEarned(s, s.copies[tag]);
    }
  }

  /** Two open relay transactions never hold the same row, and no row is tried more than five times. */
  lemma RelaysNeverCollide(run: seq<System>, i: nat, r: nat, q: nat, id: nat)
    requires IsRun(run) && i < |run|
    ensures Holds(run[i], r, id) && Holds(run[i], q, id) ==> r == q
    ensures id in run[i].outbox ==> run[i].outbox[id].attempts <= 5
  {
    RunKeeps(run, i);
  }

  /** Attempts move only when a pass commits, by one, and only on rows of that pass: a failure costs none. */
  lemma AttemptsMoveOnlyOnCommit(run: seq<System>, i: nat, id: nat)
    requires IsRun(run) && i + 1 < |run| && id in run[i].outbox && id in run[i + 1].outbox
    requires run[i + 1].outbox[id] != run[i].outbox[id]
    ensures run[i + 1].outbox[id].attempts == run[i].outbox[id].attempts + 1
    ensures exists r :: Holds(run[i], r, id) && r in run[i + 1].relays && run[i + 1].relays[r].Idle?
  {
    RunKeeps(run, i);
    assert StepAt(run, i);
    var a :| Enabled(run[i], a) && run[i + 1] == Next(run[i], a);
    OnlyMarksUpdate(run[i], a, id);
    assert Holds(run[i], a.relay, id);
  }

  lemma OtherRowsStay(s: System, a: Action, id: nat)
    requires Enabled(s, a) && id in s.outbox && id in Next(s, a).outbox && Next(s, a).outbox[id] != s.outbox[id]
    ensures a.MarkBatch? && id in s.relays[a.relay].verdicts
  {
  }

  lemma OnlyMarksUpdate(s: System, a: Action, id: nat)
    requires Inv(s) && Enabled(s, a)
    requires id in s.outbox && id in Next(s, a).outbox && Next(s, a).outbox[id] != s.outbox[id]
    ensures a.MarkBatch? && Holds(s, a.relay, id) && a.relay in Next(s, a).relays && Next(s, a).relays[a.relay].Idle?
    ensures Next(s, a).outbox[id].attempts == s.outbox[id].attempts + 1
  {
    OtherRowsStay(s, a, id);
    var pc := s.relays[a.relay];
    assert OpenBatch(s, pc);
    WholeBatch(s, pc);
  }

  /** Over a whole run, N orders cost at most 5 N settled publishes. */
  lemma PublishesAreBounded(run: seq<System>, i: nat)
    requires IsRun(run) && i < |run|
    ensures run[i].settled <= 5 * |run[i].orders|
  {
    RunKeeps(run, i);
    BudgetBounds(run[i].outbox);
  }
}
