/** The consumer's tables (SQLiteUpdateStore in src/hwskill/sharing/store.py). A
    transaction commits as one write; a process dies before it or after it. */
module UpdateStore {
  import opened Options
  import opened Documents
  import opened ConsumerLog

  datatype Error =
    | InitializationRequired
    | Configuration
    | SnapshotRejected
    | CursorAhead
    | PendingMismatch
    | Corrupt
    | StoreConflict
    | NotPending

  datatype Reply<+T> = Done(value: T) | Refused(error: Error) | Crashed

  // A row as the store reads it back.
  datatype Read<+T> = Absent | Row(value: T) | Damaged

  // _decode_consumer
  predicate ConsumerDecodes(row: ConsumerRow, id: string) {
    row.id == id && row.feedId != ""
  }

  // _decode_pending
  predicate PendingDecodes(p: PendingRow, row: ConsumerRow) {
    && p.consumerId == row.id
    && p.from <= p.through
    && p.filterDigest == row.filterDigest
    && p.from == row.cursor
    && p.batch.consumerId == p.consumerId
    && p.batch.id == p.batchId
    && p.batch.feedId == row.feedId
    && p.batch.snapshotIdentity == p.snapshotIdentity
    && p.batch.from == p.from
    && p.batch.through == p.through
    && p.batch.filterDigest == p.filterDigest
  }

  // _decode_acknowledgement
  predicate AckDecodes(a: Ack, row: ConsumerRow, batchId: Digest) {
    a.consumerId == row.id && a.batchId == batchId && a.feedId == row.feedId && a.through <= row.cursor
  }

  function ReadConsumer(w: World, id: string): Read<ConsumerRow> {
    if id !in w.consumers then Absent
    else if ConsumerDecodes(w.consumers[id], id) then Row(w.consumers[id])
    else Damaged
  }

  function ReadPending(w: World, id: string): Read<PendingRow> {
    if ReadConsumer(w, id).Damaged? then Damaged
    else if id !in w.pending then Absent
    else if id in w.consumers && PendingDecodes(w.pending[id], w.consumers[id]) then Row(w.pending[id])
    else Damaged
  }

  // Why save_pending refuses a batch.
  ghost function SaveError(w: World, b: Batch): Option<Error> {
    match ReadConsumer(w, b.consumerId)
    case Absent => Some(StoreConflict)
    case Damaged => Some(Corrupt)
    case Row(row) =>
      if row.feedId != b.feedId || row.filterDigest != b.filterDigest || row.cursor != b.from || b.through < b.from
      then Some(StoreConflict)
      else if exists id :: id in w.pending && id != b.consumerId && w.pending[id].batchId == b.id
        then Some(StoreConflict)
      else None
  }

  // Why commit_acknowledgement refuses a batch ID.
  function AckError(w: World, id: string, batchId: Digest): Option<Error> {
    match ReadConsumer(w, id)
    case Absent => Some(NotPending)
    case Damaged => Some(Corrupt)
    case Row(row) =>
      if (id, batchId) in w.acks then
        if AckDecodes(w.acks[(id, batchId)], row, batchId) then None else Some(Corrupt)
      else if id !in w.pending then Some(NotPending)
      else if !PendingDecodes(w.pending[id], row) then Some(Corrupt)
      else if w.pending[id].batchId != batchId then Some(NotPending)
      else None
  }

  class SQLiteUpdateStore {
    var consumers: map<string, ConsumerRow>
    var pending: map<string, PendingRow>
    var acks: map<(string, Digest), Ack>
    ghost var delivered: map<string, Delivered>
    // The process dies when it tries to commit and this is 0.
    var fuse: nat

    ghost function Tables(): World
      reads this
    {
      World(consumers, pending, acks, delivered)
    }

    constructor (fuse: nat)
      ensures Tables() == NOTHING_YET && this.fuse == fuse
    {
      consumers, pending, acks, delivered := map[], map[], map[], map[];
      this.fuse := fuse;
    }

    method LoadConsumer(id: string) returns (r: Read<ConsumerRow>)
      ensures r == ReadConsumer(Tables(), id)
    {
      if id !in consumers {
        return Absent;
      }
      r := if ConsumerDecodes(consumers[id], id) then Row(consumers[id]) else Damaged;
    }

    method LoadPending(id: string) returns (r: Read<PendingRow>)
      ensures r == ReadPending(Tables(), id)
    {
      var consumer := LoadConsumer(id);
      if consumer.Damaged? {
        return Damaged;
      }
      if id !in pending {
        return Absent;
      }
      if consumer.Absent? || !PendingDecodes(pending[id], consumer.value) {
        return Damaged;
      }
      r := Row(pending[id]);
    }

    method InitializeConsumer(row: ConsumerRow) returns (r: Reply<()>)
      modifies this
      ensures r.Done? ==> Tables() == old(Tables()).(consumers := old(consumers)[row.id := row],
                                                     delivered := old(delivered)[row.id := Delivered(row.cursor, [])])
      ensures !r.Done? ==> Tables() == old(Tables())
      ensures r.Refused? ==> row.id in old(consumers) && r.error == StoreConflict
      ensures r.Done? ==> row.id !in old(consumers)
      ensures r.Crashed? ==> row.id !in old(consumers) && old(fuse) == 0
      ensures fuse <= old(fuse) <= fuse + 1 && (Tables() != old(Tables()) ==> fuse < old(fuse))
    {
      if row.id in consumers {
        return Refused(StoreConflict);
      }
      if fuse == 0 {
        return Crashed;
      }
      fuse := fuse - 1;
      consumers := consumers[row.id := row];
      delivered := delivered[row.id := Delivered(row.cursor, [])];
      r := Done(());
    }

    // Insert, or replace the consumer's own pending row; batch IDs are unique over all rows.
    method SavePending(b: Batch) returns (r: Reply<()>)
      modifies this
      ensures r.Done? ==> Tables() == old(Tables()).(pending := old(pending)[b.consumerId := RowOf(b)])
      ensures !r.Done? ==> Tables() == old(Tables())
      ensures if r.Refused? then SaveError(old(Tables()), b) == Some(r.error) else SaveError(old(Tables()), b) == None
      ensures r.Crashed? ==> old(fuse) == 0
      ensures fuse <= old(fuse) <= fuse + 1 && (Tables() != old(Tables()) ==> fuse < old(fuse))
    {
      var consumer := LoadConsumer(b.consumerId);
      match consumer {
        case Absent => return Refused(StoreConflict);
        case Damaged => return Refused(Corrupt);
        case Row(row) =>
          if row.feedId != b.feedId || row.filterDigest != b.filterDigest || row.cursor != b.from
            || b.through < b.from {
            return Refused(StoreConflict);
          }
      }
      if exists id | id in pending :: id != b.consumerId && pending[id].batchId == b.id {
        return Refused(StoreConflict);
      }
      if fuse == 0 {
        return Crashed;
      }
      fuse := fuse - 1;
      pending := pending[b.consumerId := RowOf(b)];
      r := Done(());
    }

    // One transaction: the cursor moves, the acknowledgement is written, the
    // pending row goes. An acknowledgement that exists is only read back.
    method CommitAcknowledgement(id: string, batchId: Digest) returns (r: Reply<Ack>)
      modifies this
      ensures if r.Refused? then AckError(old(Tables()), id, batchId) == Some(r.error)
          else AckError(old(Tables()), id, batchId) == None
      ensures !r.Done? ==> Tables() == old(Tables())
      ensures r.Done? && (id, batchId) in old(acks) ==> Tables() == old(Tables()) && r.value == old(acks)[(id, batchId)]
      ensures r.Done? && (id, batchId) !in old(acks) ==>
                && id in old(consumers) && id in old(pending) && old(pending)[id].batchId == batchId
                && Tables() == Acked(old(Tables()), id)
                && r.value == Ack(id, batchId, old(consumers)[id].feedId, old(pending)[id].through)
      ensures r.Crashed? ==> old(fuse) == 0
      ensures fuse <= old(fuse) <= fuse + 1 && (Tables() != old(Tables()) ==> fuse < old(fuse))
    {
      var consumer := LoadConsumer(id);
      if !consumer.Row? {
        return Refused(if consumer.Absent? then NotPending else Corrupt);
      }
      var row := consumer.value;
      if (id, batchId) in acks {
        if !AckDecodes(acks[(id, batchId)], row, batchId) {
          return Refused(Corrupt);
        }
        return Done(acks[(id, batchId)]);
      }
      if id !in pending {
        return Refused(NotPending);
      }
      var p := pending[id];
      if !PendingDecodes(p, row) {
        return Refused(Corrupt);
      }
      if p.batchId != batchId {
        return Refused(NotPending);
      }
      assert row.cursor == p.from;  // so the guarded UPDATE changes one row
      if fuse == 0 {
        return Crashed;
      }
      fuse := fuse - 1;
      delivered := delivered[id := Add(DeliveredTo(Tables(), id), p.batch)];
      consumers := consumers[id := row.(cursor := p.through, lastAck := Some(batchId))];
      var a := Ack(id, batchId, row.feedId, p.through);
      acks := acks[(id, batchId) := a];
      pending := pending - {id};
      r := Done(a);
    }
  }

  // --- Untampered tables always decode ---

  lemma ConsumerAlwaysDecodes(env: Env, w: World, id: string)
    requires Inv(env, w) && id in w.consumers
    ensures ReadConsumer(w, id) == Row(w.consumers[id])
  {
    assert Holds(env, w.consumers[id], DeliveredTo(w, id), w.acks, id);
    hide Inv;
  }

  lemma PendingAlwaysDecodes(env: Env, w: World, id: string)
    requires Inv(env, w) && id in w.consumers
    ensures ReadPending(w, id) == if id in w.pending then Row(w.pending[id]) else Absent
  {
    ConsumerAlwaysDecodes(env, w, id);
    if id in w.pending {
      assert PendingOk(env, w.consumers[id], w.pending[id]);
      hide Inv;
      PendingMade(env, w.consumers[id], w.pending[id]);
    }
  }

  lemma PendingMade(env: Env, row: ConsumerRow, p: PendingRow)
    requires PendingOk(env, row, p)
    ensures PendingDecodes(p, row)
  {
    var s, f :| MadeFrom(env, row, p.batch, row.lastAck, s, f);
  }

  lemma AckAlwaysDecodes(env: Env, w: World, id: string, batchId: Digest)
    requires Inv(env, w) && id in w.consumers && (id, batchId) in w.acks
    ensures AckDecodes(w.acks[(id, batchId)], w.consumers[id], batchId)
  {
    var row, d := w.consumers[id], DeliveredTo(w, id);
    assert Holds(env, row, d, w.acks, id);
    hide Inv;
    var i :| 0 <= i < |d.batches| && d.batches[i].id == batchId;
    assert AckStands(w.acks, id, d.batches[i]);
    AckedBefore(env, row, d, i);
  }

  lemma AckedBefore(env: Env, row: ConsumerRow, d: Delivered, i: nat)
    requires ConsumerOk(env, row, d) && i < |d.batches|
    ensures d.batches[i].through <= row.cursor && d.batches[i].consumerId == row.id && d.batches[i].feedId == row.feedId
  {
    hide LinkOk;
    LinkRises(env, row, d, i + 1, |d.batches|);
    LinkFacts(env, row, d, i);
  }

  // --- Tampered tables do not ---

  // A pending row is read back only for a consumer row of that ID, if its columns are
  // its batch's own and the batch continues the consumer's cursor, feed and filters.
  lemma PendingReads(w: World, id: string)
    ensures ReadPending(w, id).Row? <==>
              && id in w.consumers && id in w.pending
              && var row, b := w.consumers[id], w.pending[id].batch;
                 && row.id == id && row.feedId != ""
                 && w.pending[id] == PendingRow(id, b.id, b.snapshotIdentity, b.from, b.through, b.filterDigest, b)
                 && b == b.(consumerId := id, feedId := row.feedId, from := row.cursor,
                            filterDigest := row.filterDigest)
                 && row.cursor <= b.through
    ensures ReadPending(w, id).Row? ==> ReadPending(w, id).value == w.pending[id]
    ensures ReadPending(w, id).Absent? <==> id !in w.pending && (id in w.consumers ==> ReadConsumer(w, id).Row?)
  {
  }

  // An acknowledgement answers only if it is the consumer's own and ends at or before
  // its cursor; otherwise it is reported as corrupt.
  lemma AckReads(w: World, id: string, batchId: Digest)
    requires ReadConsumer(w, id).Row? && (id, batchId) in w.acks
    ensures var row, a := w.consumers[id], w.acks[(id, batchId)];
            && (AckError(w, id, batchId) == None <==>
                  exists through: nat :: a == Ack(id, batchId, row.feedId, through) && through <= row.cursor)
            && (AckError(w, id, batchId) == None || AckError(w, id, batchId) == Some(Corrupt))
  {
    var row, a := w.consumers[id], w.acks[(id, batchId)];
    assert a == Ack(a.consumerId, a.batchId, a.feedId, a.through);
  }

  // A consumer row under another's ID is reported as corrupt by every operation.
  lemma ConsumerReads(w: World, id: string, b: Batch, batchId: Digest)
    requires id in w.consumers && b.consumerId == id
    ensures ReadConsumer(w, id).Row? <==> w.consumers[id].id == id && w.consumers[id].feedId != ""
    ensures !ReadConsumer(w, id).Row? ==>
              && ReadPending(w, id) == Damaged && SaveError(w, b) == Some(Corrupt)
              && AckError(w, id, batchId) == Some(Corrupt)
  {
  }
}
