/** The relay: one pass (claim, publish, mark) and the loop that drains a backlog. */
module Relay {
  import opened Common
  import opened OutboxTable

  datatype RelayResult = Returned(published: nat, failed: nat) | Threw

  datatype DrainResult = Drained(published: nat) | TimedOut | Failed

  /** What can go wrong between the last confirm and the end of the transaction.
      CommitLost is a COMMIT that took effect but whose answer never arrived. */
  datatype Fault = NoFault | HookThrows | DbRollsBack | CommitLost

  function Verdicts(batch: seq<nat>, broker: nat -> Reply): map<nat, Reply> {
    map id | id in batch :: broker(id)
  }

  ghost predicate Distinct(s: seq<nat>) {
    forall i, j :: 0 <= i < j < |s| ==> s[i] != s[j]
  }

  function Elements(s: seq<nat>): set<nat> {
    set id | id in s
  }

  lemma {:induction false} DistinctElements(s: seq<nat>)
    requires Distinct(s)
    ensures |Elements(s)| == |s|
  {
    if s != [] {
      DistinctElements(s[1..]);
      assert s[0] !in s[1..];
      assert Elements(s) == {s[0]} + Elements(s[1..]);
    } else {
      assert Elements(s) == {};
    }
  }

  ghost predicate Settled(batch: seq<nat>, broker: nat -> Reply) {
    forall id :: id in batch ==> !broker(id).ChannelClosed?
  }

  function ConfirmedIn(batch: seq<nat>, broker: nat -> Reply): set<nat> {
    set id | id in batch && broker(id).Confirmed?
  }

  class Relay {
    var outbox: Table
    var sent: seq<Event>  // everything ever handed to the channel, in order

    /** The earliest row of a non-empty set of candidates. */
    method Earliest(candidates: set<nat>) returns (least: nat)
      requires candidates != {} && candidates <= outbox.Keys
      ensures least in candidates
      ensures forall id :: id in candidates && id != least ==> Before(outbox, least, id)
    {
      least :| least in candidates;
      var rest := candidates - {least};
      while rest != {}
        invariant rest < candidates && least in candidates - rest
        invariant forall id :: id in candidates - rest && id != least ==> Before(outbox, least, id)
        decreases rest
      {
        var id :| id in rest;
        ghost var seen, champion := candidates - rest, least;
        if Before(outbox, id, least) {
          least := id;
          assert forall other :: other in seen ==> other == champion || Before(outbox, champion, other);
        }
        rest := rest - {id};
        assert candidates - rest == seen + {id};
      }
    }

    method ClaimRows(locked: set<nat>, limit: nat) returns (batch: seq<nat>)
      ensures IsClaim(outbox, locked, limit, batch)
      ensures |batch| <= limit
      ensures forall id :: id in batch ==>
                id in outbox && id !in locked && outbox[id].publishedAt.None? && outbox[id].attempts < 5
      ensures forall id | id in outbox && id !in locked && outbox[id].publishedAt.None? && outbox[id].attempts < 5 && id !in batch ::
                |batch| == limit && forall i | 0 <= i < |batch| ::
                  var next, other := outbox[batch[i]], outbox[id];
                  next.createdAt < other.createdAt || (next.createdAt == other.createdAt && batch[i] < id)
    {
      batch := [];
      var rest := set id | id in outbox && Claimable(outbox, locked, id);
      while |batch| < limit && rest != {}
        invariant |batch| <= limit
        invariant forall id :: id in rest ==> Claimable(outbox, locked, id)
        invariant forall i :: 0 <= i < |batch| ==> Claimable(outbox, locked, batch[i])
        invariant forall id :: Claimable(outbox, locked, id) ==> id in rest || id in batch
        invariant forall i, j :: 0 <= i < j < |batch| ==> Before(outbox, batch[i], batch[j])
        invariant forall i, id :: 0 <= i < |batch| && id in rest ==> Before(outbox, batch[i], id)
        decreases rest
      {
        var next := Earliest(rest);
        batch := batch + [next];
        rest := rest - {next};
      }
    }

    /** Sends every claimed row, in claim order, whatever the broker answers. */
    method PublishAll(batch: seq<nat>)
      requires forall id :: id in batch ==> id in outbox
      modifies this`sent
      ensures |sent| == |old(sent)| + |batch| && old(sent) <= sent
      ensures forall i :: 0 <= i < |batch| ==> sent[|old(sent)| + i] == outbox[batch[i]].payload
    {
      for i := 0 to |batch|
        invariant |sent| == |old(sent)| + i && old(sent) <= sent
        invariant forall k :: 0 <= k < i ==> sent[|old(sent)| + k] == outbox[batch[k]].payload
      {
        sent := sent + [outbox[batch[i]].payload];
      }
    }

    /** Sorts the settled confirms; gives up on the first one a closed channel left behind. */
    method Settle(batch: seq<nat>, broker: nat -> Reply)
      returns (closed: bool, confirmed: seq<nat>, failed: seq<nat>)
      requires Distinct(batch)
      ensures closed <==> !Settled(batch, broker)
      ensures !closed ==> Elements(confirmed) == ConfirmedIn(batch, broker)
      ensures !closed ==> Elements(failed) == set id | id in batch && broker(id).Refused?
      ensures Distinct(confirmed) && Distinct(failed)
      ensures !closed ==> |confirmed| + |failed| == |batch|
    {
      closed, confirmed, failed := false, [], [];
      var i := 0;
      while i < |batch|
        invariant 0 <= i <= |batch|
        invariant forall id :: id in batch[..i] ==> !broker(id).ChannelClosed?
        invariant forall id :: id in confirmed <==> id in batch[..i] && broker(id).Confirmed?
        invariant forall id :: id in failed <==> id in batch[..i] && broker(id).Refused?
        invariant Distinct(confirmed) && Distinct(failed)
        invariant |confirmed| + |failed| == i
      {
        var id := batch[i];
        assert id !in batch[..i] && batch[..i + 1] == batch[..i] + [id];
        match broker(id) {
          case Confirmed => confirmed := confirmed + [id];
          case Refused(_) => failed := failed + [id];
          case ChannelClosed =>
            closed := true;
            return;
        }
        i := i + 1;
      }
      assert batch[..i] == batch;
    }

    /** The transaction's view of the table after one UPDATE for all confirmed rows and one per refused row. */
    method Updated(batch: seq<nat>, confirmed: seq<nat>, failed: seq<nat>, broker: nat -> Reply, now: nat)
      returns (draft: Table)
      requires Elements(batch) <= outbox.Keys && Distinct(failed) && Settled(batch, broker)
      requires Elements(confirmed) == ConfirmedIn(batch, broker)
      requires Elements(failed) == set id | id in batch && broker(id).Refused?
      ensures draft == Mark(outbox, Verdicts(batch, broker), now)
    {
      draft := outbox;
      if |confirmed| > 0 {
        draft := Mark(outbox, map id | id in confirmed :: Confirmed, now);
      }
      ghost var done := Elements(confirmed);
      for i := 0 to |failed|
        invariant done == Elements(confirmed) + Elements(failed[..i])
        invariant draft.Keys == outbox.Keys
        invariant forall id :: id in done ==> id in outbox && draft[id] == MarkRow(outbox[id], broker(id), now)
        invariant forall id :: id in outbox && id !in done ==> draft[id] == outbox[id]
      {
        var id := failed[i];
        assert id in Elements(failed) && id !in failed[..i];
        assert failed[..i + 1] == failed[..i] + [id];
        draft := draft[id := MarkRow(draft[id], broker(id), now)];
        done := done + {id};
      }
      assert failed[..|failed|] == failed;
      assert done == Elements(batch);
    }

    /**
     * One pass. The transaction works on a private copy of the table: an exception anywhere before
     * COMMIT leaves the stored rows, attempts included, exactly as they were.
     */
    method RelayBatch(limit: nat, locked: set<nat>, broker: nat -> Reply, fault: Fault, now: nat)
      returns (r: RelayResult, ghost batch: seq<nat>)
      modifies this
      ensures IsClaim(old(outbox), locked, limit, batch) && Elements(batch) <= old(outbox).Keys
      ensures |sent| == |old(sent)| + |batch| && old(sent) <= sent
      ensures forall i :: 0 <= i < |batch| ==> sent[|old(sent)| + i] == old(outbox)[batch[i]].payload
      ensures r.Returned? <==>
              batch == [] || (fault.NoFault? && Settled(batch, broker))
      ensures outbox == if r.Returned? || (fault.CommitLost? && Settled(batch, broker))
                        then Mark(old(outbox), Verdicts(batch, broker), now)
                        else old(outbox)
      ensures r.Returned? ==> outbox.Keys == old(outbox).Keys && forall id :: id in outbox ==>
                var was := old(outbox)[id];
                outbox[id] == if id !in batch then was
                              else if broker(id).Confirmed? then Row(was.payload, was.createdAt, Some(now), was.attempts + 1, None)
                              else Row(was.payload, was.createdAt, was.publishedAt, was.attempts + 1, Some(broker(id).error))
      ensures r.Returned? ==> r.published == |ConfirmedIn(batch, broker)|
                              && r.published + r.failed == |batch|
    {
      var rows := ClaimRows(locked, limit);
      batch := rows;
      if |rows| == 0 {
        assert Mark(outbox, Verdicts(batch, broker), now) == outbox;
        return Returned(0, 0), batch;
      }
      PublishAll(rows);
      var closed, confirmed, failed := Settle(rows, broker);
      if closed || fault.HookThrows? {
        return Threw, batch;
      }
      var draft := Updated(rows, confirmed, failed, broker, now);
      if fault.DbRollsBack? {
        return Threw, batch;
      }
      outbox := draft;
      if fault.CommitLost? {
        return Threw, batch;
      }
      DistinctElements(confirmed);
      return Returned(|confirmed|, |failed|), batch;
    }

    method CountPending() returns (n: nat)
      ensures n == |PendingIds(outbox)|
      ensures n == 0 ==> forall id :: id in outbox ==> outbox[id].publishedAt.Some? || outbox[id].attempts >= 5
    {
      assert forall id :: id in outbox && IsPending(outbox[id]) ==> id in PendingIds(outbox);
      n := |PendingIds(outbox)|;
    }

    /** A pass in terms of the progress measure; `claimed` is how many rows it took. */
    method Pass(locked: set<nat>, broker: nat -> Reply, fault: Fault, now: nat) returns (r: RelayResult, ghost claimed: nat)
      modifies this
      ensures outbox.Keys == old(outbox).Keys && PublishedIds(old(outbox)) <= PublishedIds(outbox)
      ensures 0 <= Budget(outbox) && Budget(outbox) + (if r.Returned? then claimed else 0) <= Budget(old(outbox))
      ensures claimed == 0 ==> outbox == old(outbox)
      ensures claimed == 0 && locked == {} ==> PendingIds(outbox) == {}
      ensures r.Returned? ==> |PublishedIds(outbox)| == |PublishedIds(old(outbox))| + r.published
      ensures r.Threw? ==> fault != NoFault || exists id :: broker(id).ChannelClosed?
    {
      var result, batch := RelayBatch(RELAY_BATCH_SIZE, locked, broker, fault, now);
      PassEffect(old(outbox), outbox, locked, batch, broker, now);
      assert batch == [] ==> Mark(old(outbox), Verdicts(batch, broker), now) == old(outbox);
      return result, |batch|;
    }

    /** The pass with number `p`: others first, then this relay. */
    method PassAt(p: nat, broker: (nat, nat) -> Reply, faults: nat -> Fault, locked: nat -> set<nat>,
                  others: (nat, Table) -> Table, now: nat)
      returns (r: RelayResult, ghost claimed: nat)
      modifies this
      ensures var before := others(2 * p, old(outbox));
              && outbox.Keys == before.Keys && PublishedIds(before) <= PublishedIds(outbox)
              && 0 <= Budget(outbox) && Budget(outbox) + (if r.Returned? then claimed else 0) <= Budget(before)
              && (r.Returned? ==> |PublishedIds(outbox)| == |PublishedIds(before)| + r.published)
      ensures claimed == 0 && locked(p) == {} ==> PendingIds(outbox) == {}
      ensures r.Threw? ==> PassFails(p, broker, faults)
    {
      outbox := others(2 * p, outbox);
      var answer := (id: nat) => broker(p, id);
      r, claimed := Pass(locked(p), answer, faults(p), now);
    }

    /**
     * Drains the backlog. Answers, faults and the clock may be anything, in each pass any rows may be held by other
     * relays, dead or alive, and before each pass and each count others may do anything to the table. Each pass ends
     * with a pause, so from some pass on the deadline has gone by. Passes that claim rows are bounded by the attempts left as long
     * as no new rows come in, and a relay that runs alone needs no others.
     */
    method DrainOutbox(broker: (nat, nat) -> Reply, faults: nat -> Fault, locked: nat -> set<nat>,
                       others: (nat, Table) -> Table, late: nat -> bool, deadline: nat, clock: nat -> nat)
      returns (r: DrainResult, ghost passes: nat, ghost productive: nat)
      requires forall p: nat :: p >= deadline ==> late(p)
      modifies this
      ensures r.Drained? ==> PendingIds(outbox) == {}
      ensures r.Drained? ==> forall id :: id in outbox ==> outbox[id].publishedAt.Some? || outbox[id].attempts >= 5
      ensures passes <= deadline + 1 && productive <= passes
      ensures NoNewRows(others) ==> productive <= 5 * |PendingIds(old(outbox))|
      ensures Alone(locked, others) ==>
                && passes <= productive + 1
                && outbox.Keys == old(outbox).Keys && PublishedIds(old(outbox)) <= PublishedIds(outbox)
                && (r.Drained? ==> r.published == |PublishedIds(outbox)| - |PublishedIds(old(outbox))|)
      ensures r.Failed? ==> exists p: nat :: p < passes && PassFails(p, broker, faults)
      ensures r.TimedOut? ==> exists p: nat :: p < passes && late(p)
    {
      var published: nat := 0;
      var pass: nat := 0;
      passes, productive := 0, 0;
      BudgetBounds(outbox);
      while true
        invariant passes == pass <= deadline && productive <= passes
        invariant 0 <= Budget(outbox)
        invariant NoNewRows(others) ==> productive + Budget(outbox) <= Budget(old(outbox))
        invariant Alone(locked, others) ==>
                    && productive == pass
                    && outbox.Keys == old(outbox).Keys && PublishedIds(old(outbox)) <= PublishedIds(outbox)
                    && published == |PublishedIds(outbox)| - |PublishedIds(old(outbox))|
        decreases deadline - pass
      {
        var result, claimed := PassAt(pass, broker, faults, locked, others, clock(pass));
        passes := passes + 1;
        if result.Threw? {
          return Failed, passes, productive;
        }
        productive := productive + if claimed > 0 then 1 else 0;
        published := published + result.published;
        outbox := others(2 * pass + 1, outbox);
        BudgetBounds(outbox);
        var left := CountPending();
        if left == 0 {
          return Drained(published), passes, productive;
        }
        if late(pass) {
          return TimedOut, passes, productive;
        }
        pass := pass + 1;
      }
    }
  }

  /** A pass throws only when something failed in it. */
  ghost predicate PassFails(p: nat, broker: (nat, nat) -> Reply, faults: nat -> Fault) {
    faults(p) != NoFault || exists id :: broker(p, id).ChannelClosed?
  }

  /** Others publish, park and purge, but no order comes in. */
  ghost predicate NoNewRows(others: (nat, Table) -> Table) {
    forall p, t :: Budget(others(p, t)) <= Budget(t)
  }

  ghost predicate Alone(locked: nat -> set<nat>, others: (nat, Table) -> Table) {
    (forall p: nat :: locked(p) == {}) && forall p, t :: others(p, t) == t
  }

  /** While nobody else holds rows, a pass over a non-empty backlog claims at least one. */
  lemma BatchIsProductive(t: Table, locked: set<nat>, batch: seq<nat>)
    requires IsClaim(t, locked, RELAY_BATCH_SIZE, batch)
    ensures Distinct(batch)
    ensures batch == [] && locked == {} ==> PendingIds(t) == {}
  {
    assert forall id :: id in PendingIds(t) && id !in locked ==> Claimable(t, locked, id);
  }

  /** The contract of a pass in terms of the progress measure, whichever rows others hold. */
  lemma PassEffect(t: Table, t': Table, locked: set<nat>, batch: seq<nat>, broker: nat -> Reply, now: nat)
    requires IsClaim(t, locked, RELAY_BATCH_SIZE, batch)
    requires t' == t || (Settled(batch, broker) && t' == Mark(t, Verdicts(batch, broker), now))
    ensures t'.Keys == t.Keys && PublishedIds(t) <= PublishedIds(t')
    ensures 0 <= Budget(t') <= Budget(t)
    ensures batch == [] && locked == {} ==> PendingIds(t) == {}
    ensures Settled(batch, broker) && t' == Mark(t, Verdicts(batch, broker), now) ==>
              && Budget(t') + |batch| <= Budget(t)
              && |PublishedIds(t')| == |PublishedIds(t)| + |ConfirmedIn(batch, broker)|
  {
    BatchIsProductive(t, locked, batch);
    BudgetBounds(t');
    if Settled(batch, broker) {
      PassSettles(t, batch, broker, now);
    }
  }

  /** What a committed pass does to the progress measure and to the set of published rows. */
  lemma PassSettles(t: Table, batch: seq<nat>, broker: nat -> Reply, now: nat)
    requires Distinct(batch) && Settled(batch, broker)
    requires forall id :: id in batch ==> id in t && IsPending(t[id])
    ensures var t' := Mark(t, Verdicts(batch, broker), now);
            && Budget(t') + |batch| <= Budget(t)
            && PublishedIds(t') == PublishedIds(t) + ConfirmedIn(batch, broker)
            && |PublishedIds(t')| == |PublishedIds(t)| + |ConfirmedIn(batch, broker)|
  {
    var verdicts := Verdicts(batch, broker);
    DistinctElements(batch);
    assert verdicts.Keys == Elements(batch);
    MarkLowersBudget(t, verdicts, now);
    MarkPublishes(t, batch, broker, now);
    assert PublishedIds(t) !! ConfirmedIn(batch, broker);
  }

  lemma MarkPublishes(t: Table, batch: seq<nat>, broker: nat -> Reply, now: nat)
    requires Settled(batch, broker)
    requires forall id :: id in batch ==> id in t && IsPending(t[id])
    ensures PublishedIds(Mark(t, Verdicts(batch, broker), now)) == PublishedIds(t) + ConfirmedIn(batch, broker)
  {
    var t' := Mark(t, Verdicts(batch, broker), now);
    forall id | id in t ensures t'[id].publishedAt.Some? <==> t[id].publishedAt.Some? || id in ConfirmedIn(batch, broker) {
      if id in batch {
        assert t'[id] == MarkRow(t[id], broker(id), now);
      }
    }
  }
}
