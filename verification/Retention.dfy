/** Retention: deleting stale rows in batches has the effect of one big delete. */
module Retention {
  import opened Common
  import opened OutboxTable

  const DAY_MS: nat := 24 * 60 * 60 * 1000  // 86 400 000
  const OUTBOX_RETENTION_MS: nat := 7 * DAY_MS
  const INBOX_RETENTION_MS: nat := 30 * DAY_MS

  function Survivors<V>(rows: map<nat, V>, stale: V -> bool): map<nat, V> {
    map id | id in rows && !stale(rows[id]) :: rows[id]
  }

  /** published_at IS NOT NULL AND published_at < cutoff */
  predicate StaleRow(r: Row, cutoff: int) {
    r.publishedAt.Some? && r.publishedAt.value < cutoff
  }

  class Relation<V(==)> {
    var rows: map<nat, V>

    /**
     * LIMIT without ORDER BY lets the database pick any stale rows, so each round deletes an arbitrary
     * subset of the right size. A round that comes up short is the last one.
     */
    method DeleteInBatches(stale: V -> bool, batch: nat) returns (total: nat)
      requires batch >= 1
      modifies this
      ensures rows == Survivors(old(rows), stale)
      ensures total == |old(rows)| - |rows|
    {
      total := 0;
      while true
        invariant rows.Keys <= old(rows).Keys
        invariant forall id :: id in rows ==> rows[id] == old(rows)[id]
        invariant forall id :: id in old(rows) && !stale(old(rows)[id]) ==> id in rows
        invariant total == |old(rows)| - |rows|
        decreases |rows|
      {
        var eligible := set id | id in rows && stale(rows[id]);
        ghost var sample := SubsetOfSize(eligible, Min(batch, |eligible|));
        assert sample <= eligible && |sample| == Min(batch, |eligible|);
        var victims: set<nat> :| victims <= eligible && |victims| == Min(batch, |eligible|);
        var left := rows - victims;
        assert |left| == |rows| - |victims| by {
          assert rows.Keys == left.Keys + victims;
          assert |left.Keys| == |left| && |rows.Keys| == |rows|;
        }
        rows := left;
        total := total + |victims|;
        if |victims| < batch {
          SubsetCardinality(victims, eligible);
          return;
        }
      }
    }
  }

  /** Both tables in one sweep; the cutoffs are taken from the clock before either delete. */
  method PurgeOutbox(outbox: Relation<Row>, inbox: Relation<nat>, now: nat, batch: nat)
    returns (purgedRows: nat, purgedMarks: nat)
    requires outbox as object != inbox
    requires batch >= 1
    modifies outbox, inbox
    ensures outbox.rows == Survivors(old(outbox.rows), r => StaleRow(r, now - OUTBOX_RETENTION_MS))
    ensures inbox.rows == Survivors(old(inbox.rows), at => at < now - INBOX_RETENTION_MS)
    ensures outbox.rows.Keys <= old(outbox.rows).Keys && inbox.rows.Keys <= old(inbox.rows).Keys
    ensures forall id | id in old(outbox.rows) :: id in outbox.rows <==>
              (old(outbox.rows)[id].publishedAt.Some? ==> now - old(outbox.rows)[id].publishedAt.value <= 604_800_000)
    ensures forall id | id in old(inbox.rows) :: id in inbox.rows <==> now - old(inbox.rows)[id] <= 2_592_000_000
    ensures purgedRows == |old(outbox.rows)| - |outbox.rows|
    ensures purgedMarks == |old(inbox.rows)| - |inbox.rows|
    ensures forall id :: id in old(outbox.rows) && (IsPending(old(outbox.rows)[id]) || IsParked(old(outbox.rows)[id])) ==>
              id in outbox.rows && outbox.rows[id] == old(outbox.rows)[id]
  {
    purgedRows := outbox.DeleteInBatches(r => StaleRow(r, now - OUTBOX_RETENTION_MS), batch);
    purgedMarks := inbox.DeleteInBatches(at => at < now - INBOX_RETENTION_MS, batch);
  }
}
