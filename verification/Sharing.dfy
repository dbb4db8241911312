/** Preparing and acknowledging update batches (prepare_updates and acknowledge in
    src/hwskill/sharing/service.py). */
module Sharing {
  import opened Options
  import opened Documents
  import opened FeedCheck
  import opened Filtering
  import opened ConsumerLog
  import opened UpdateStore

  // A repeated first run is let through only while nothing is acknowledged yet.
  predicate SameInitialization(row: ConsumerRow, config: SharingConfig) {
    && row.lastAck.None?
    && Some(row.initialization) == config.initialization
    && (row.initialization.Baseline? || row.cursor == config.replayFrom)
  }

  // Why prepare_updates refuses, in the order it looks. `read` is what the reader
  // returned; None when it failed.
  ghost function PrepareError(env: Env, w: World, config: SharingConfig, read: Option<FeedSnapshot>): Option<Error> {
    var row := if config.consumerId in w.consumers then Some(w.consumers[config.consumerId]) else None;
    if row.None? && config.initialization.None? then Some(InitializationRequired)
    else if row.Some? && config.initialization.Some? && !SameInitialization(row.value, config) then Some(Configuration)
    else if row.Some?
      && (row.value.feedUrl != config.feedUrl || row.value.filterDigest != env.filterHash(config.filters))
    then Some(Configuration)
    else if read.None? || !Accepted(env.h, env.identify, read.value, true) then Some(SnapshotRejected)
    else if read.value.base != config.feedUrl then Some(Configuration)
    else if row.None? then if StartCursor(config, read.value) > |read.value.body.records| then Some(CursorAhead)
      else None
    else if row.value.feedId != read.value.feedId then Some(Configuration)
    else if row.value.cursor > |read.value.body.records| then Some(CursorAhead)
    else None
  }

  // The consumer exists: its first transaction, if this is the first run.
  ghost function Enrolled(env: Env, w: World, config: SharingConfig, s: FeedSnapshot): (t: World)
    requires PrepareError(env, w, config, Some(s)).None?
    ensures config.consumerId in t.consumers
  {
    if config.consumerId in w.consumers then w else Apply(env, w, Initialize(config, s))
  }

  ghost function PreparedBatch(env: Env, w: World, config: SharingConfig, s: FeedSnapshot): Batch
    requires PrepareError(env, w, config, Some(s)).None?
  {
    NextBatch(env, Enrolled(env, w, config, s).consumers[config.consumerId], config, s)
  }

  // A batch prepared before on the same snapshot is handed out again; a newer
  // snapshot's batch replaces it.
  ghost function Prepared(env: Env, w: World, config: SharingConfig, s: FeedSnapshot): World
    requires PrepareError(env, w, config, Some(s)).None?
  {
    Resumed(Enrolled(env, w, config, s), config.consumerId, s, PreparedBatch(env, w, config, s))
  }

  ghost function Resumed(w: World, id: string, s: FeedSnapshot, b: Batch): World {
    if id in w.pending && w.pending[id].snapshotIdentity == s.identity then w
      else w.(pending := w.pending[id := RowOf(b)])
  }

  // --- The errors that cannot happen ---

  lemma Headed(env: Env, s: FeedSnapshot)
    requires Accepted(env.h, env.identify, s, true)
    ensures s.feedId != "" && s.body.head.sequence == |s.body.records| >= 1
  {
    hide LogOk, SubjectsOk;
  }

  lemma EnrolledKeeps(env: Env, w: World, config: SharingConfig, s: FeedSnapshot)
    requires Sound(env) && Inv(env, w) && PrepareError(env, w, config, Some(s)).None?
    ensures var t := Enrolled(env, w, config, s);
            && Inv(env, t) && BoundTo(env, t.consumers[config.consumerId], config, s)
               && t.consumers[config.consumerId].id == config.consumerId
            && t.consumers[config.consumerId].cursor <= |s.body.records|
            && (config.consumerId !in w.consumers ==> MoveOk(env, w, Initialize(config, s)))
  {
    hide Inv, Accepted;
    if config.consumerId !in w.consumers {
      InitializeKeeps(env, w, config, s);
    }
    ConsumerAt(env, Enrolled(env, w, config, s), config.consumerId);
  }

  // A pending batch on the same snapshot re-derives exactly, so the mismatch
  // error cannot occur.
  lemma PendingRederived(env: Env, w: World, config: SharingConfig, s: FeedSnapshot)
    requires Sound(env) && Inv(env, w) && config.consumerId in w.pending && config.consumerId in w.consumers
    requires BoundTo(env, w.consumers[config.consumerId], config, s) && s.base == config.feedUrl
    requires Accepted(env.h, env.identify, s, true) && w.pending[config.consumerId].snapshotIdentity == s.identity
    ensures w.pending[config.consumerId].batch == NextBatch(env, w.consumers[config.consumerId], config, s)
    ensures w.pending[config.consumerId] == RowOf(NextBatch(env, w.consumers[config.consumerId], config, s))
  {
    hide Holds, LogOk, SubjectsOk;
    var row, p := w.consumers[config.consumerId], w.pending[config.consumerId];
    assert PendingOk(env, row, p);
    hide Inv;
    var t, f :| MadeFrom(env, row, p.batch, row.lastAck, t, f);
    assert t.body == s.body && f == config.filters;
    AnswerIs(env, s, row.cursor, f, p.batch.items);
  }

  lemma AnswerIs(env: Env, s: FeedSnapshot, from: nat, f: Filters, items: seq<UpdateItem>)
    requires IsAnswer(env.itemHash, s.body, from, f, items)
    ensures Answered(env, s, from, f) && Answer(env, s, from, f) == items
  {
    hide IsAnswer;
    AnswerUnique(env.itemHash, s.body, from, f, items, Answer(env, s, from, f));
  }

  // save_pending accepts the new batch: no other consumer can hold its ID.
  lemma SaveAccepted(env: Env, w: World, config: SharingConfig, s: FeedSnapshot)
    requires Sound(env) && Inv(env, w) && MoveOk(env, w, Save(config, s))
    ensures var b := NextBatch(env, w.consumers[config.consumerId], config, s);
            b.consumerId == config.consumerId && SaveError(w, b) == None
  {
    var id := config.consumerId;
    var row := w.consumers[id];
    var b := NextBatch(env, row, config, s);
    ConsumerAt(env, w, id);
    ConsumerAlwaysDecodes(env, w, id);
    NextBatchOk(env, w, config, s);
    hide Answer, Accepted, BatchOk;
    forall x | x in w.pending && x != id ensures w.pending[x].batchId != b.id {
      PendingAt(env, w, x);
      ConsumerAt(env, w, x);
      if w.pending[x].batchId == b.id {
        SameIdentity(env, w.consumers[x], row, w.pending[x].batch, b, w.consumers[x].lastAck, row.lastAck);
        assert false;
      }
    }
  }

  class UpdateService {
    const env: Env
    const store: SQLiteUpdateStore

    constructor (env: Env, store: SQLiteUpdateStore)
      ensures this.env == env && this.store == store
    {
      this.env, this.store := env, store;
    }

    ghost predicate Ready()
      reads store
    {
      Sound(env) && Inv(env, store.Tables())
    }

    // _new_batch
    method NewBatch(s: FeedSnapshot, config: SharingConfig, row: ConsumerRow) returns (b: Batch)
      requires Sound(env) && Accepted(env.h, env.identify, s, true) && row.cursor <= |s.body.records|
      ensures Answered(env, s, row.cursor, config.filters)
      ensures b == NextBatch(env, row, config, s)
    {
      hide Accepted, IsAnswer;
      Headed(env, s);
      var items := BuildItems(env.h, env.identify, env.itemHash, s, row.cursor, config.filters);
      AnswerIs(env, s, row.cursor, config.filters, items.value);
      b := MakeBatch(env, row.id, s, row.cursor, row.filterDigest, row.lastAck, items.value);
    }

    // The checks before the first write.
    method CheckPrepare(config: SharingConfig, read: Option<FeedSnapshot>) returns (e: Option<Error>)
      requires Ready()
      ensures e == PrepareError(env, store.Tables(), config, read)
    {
      hide Inv, Accepted;
      var consumer := store.LoadConsumer(config.consumerId);
      if config.consumerId in store.consumers {
        ConsumerAlwaysDecodes(env, store.Tables(), config.consumerId);
      }
      if consumer.Absent? && config.initialization.None? {
        return Some(InitializationRequired);
      }
      if consumer.Row? && config.initialization.Some? && !SameInitialization(consumer.value, config) {
        return Some(Configuration);
      }
      if consumer.Row?
        && (consumer.value.feedUrl != config.feedUrl || consumer.value.filterDigest != env.filterHash(config.filters)) {
        return Some(Configuration);
      }
      if read.None? {
        return Some(SnapshotRejected);
      }
      var s := read.value;
      var ok := ValidateSnapshot(env.h, env.identify, s, true);
      if !ok {
        return Some(SnapshotRejected);
      }
      if s.base != config.feedUrl {
        return Some(Configuration);
      }
      if consumer.Absent? {
        return if StartCursor(config, s) > |s.body.records| then Some(CursorAhead) else None;
      }
      if consumer.value.feedId != s.feedId {
        return Some(Configuration);
      }
      e := if consumer.value.cursor > |s.body.records| then Some(CursorAhead) else None;
    }

    // The first transaction of a first run.
    method Enroll(config: SharingConfig, s: FeedSnapshot) returns (crashed: bool)
      requires Ready() && PrepareError(env, store.Tables(), config, Some(s)).None?
      modifies store
      ensures Ready()
      ensures if crashed then store.Tables() == old(store.Tables()) && old(store.fuse) == 0
              else store.Tables() == Enrolled(env, old(store.Tables()), config, s)
      ensures MayMove(env, old(store.Tables()), Initialize(config, s), store.Tables())
      ensures store.fuse <= old(store.fuse) <= store.fuse + 1
    {
      hide Inv, Accepted;
      EnrolledKeeps(env, store.Tables(), config, s);
      if config.consumerId in store.consumers {
        return false;
      }
      var made := store.InitializeConsumer(NewRow(env, config, s));
      crashed := made.Crashed?;
    }

    // The second transaction, unless the pending batch is this snapshot's already.
    method SaveOrResume(config: SharingConfig, s: FeedSnapshot) returns (r: Reply<Batch>)
      requires Ready() && config.consumerId in store.consumers && Usable(env, config, s)
      requires BoundTo(env, store.consumers[config.consumerId], config, s)
      requires store.consumers[config.consumerId].id == config.consumerId
      requires store.consumers[config.consumerId].cursor <= |s.body.records|
      modifies store
      ensures Ready()
      ensures !r.Refused? && MayMove(env, old(store.Tables()), Save(config, s), store.Tables())
      ensures r.Crashed? ==> store.Tables() == old(store.Tables()) && old(store.fuse) == 0
      ensures r.Done? ==> r.value == NextBatch(env, old(store.consumers)[config.consumerId], config, s)
      ensures r.Done? ==> store.Tables() == Resumed(old(store.Tables()), config.consumerId, s, r.value)
    {
      hide Inv, Accepted, Answered, NextBatch;
      ghost var w := store.Tables();
      var id := config.consumerId;
      var row := store.consumers[id];
      var pending := store.LoadPending(id);
      PendingAlwaysDecodes(env, w, id);
      var b := NewBatch(s, config, row);
      if pending.Row? && pending.value.snapshotIdentity == s.identity {
        PendingRederived(env, w, config, s);
        assert pending.value.batch == b;  // so neither comparison can fail
        return Done(pending.value.batch);
      }
      assert MoveOk(env, w, Save(config, s));
      SaveKeeps(env, w, config, s);
      SaveAccepted(env, w, config, s);
      var saved := store.SavePending(b);
      r := if saved.Crashed? then Crashed else Done(b);
    }

    // prepare_updates, under the store's lock: it refuses without a trace, or hands
    // out the one batch that the tables and the snapshot determine.
    method PrepareUpdates(config: SharingConfig, read: Option<FeedSnapshot>) returns (r: Reply<Batch>)
      requires Ready()
      modifies store
      ensures Ready()
      ensures r.Refused? <==> PrepareError(env, old(store.Tables()), config, read).Some?
      ensures r.Refused? ==>
                PrepareError(env, old(store.Tables()), config, read) == Some(r.error)
                && store.Tables() == old(store.Tables())
      ensures r.Done? ==> r.value == PreparedBatch(env, old(store.Tables()), config, read.value)
      ensures r.Done? ==> store.Tables() == Prepared(env, old(store.Tables()), config, read.value)
      ensures !r.Refused?
          ==> MayMove(env, old(store.Tables()), Initialize(config, read.value),
                      Enrolled(env, old(store.Tables()), config, read.value))
      ensures r.Done?
          ==> MayMove(env, Enrolled(env, old(store.Tables()), config, read.value), Save(config, read.value),
                      store.Tables())
      ensures r.Crashed? ==> old(store.fuse) < 2
                             && store.Tables() in {old(store.Tables()),
                                                   Enrolled(env, old(store.Tables()), config, read.value)}
    {
      hide Inv, Accepted, NextBatch;
      ghost var w := store.Tables();
      var refused := CheckPrepare(config, read);
      if refused.Some? {
        return Refused(refused.value);
      }
      EnrolledKeeps(env, w, config, read.value);
      var crashed := Enroll(config, read.value);
      if crashed {
        return Crashed;
      }
      r := SaveOrResume(config, read.value);
    }

    // acknowledge, under the store's lock: an ID that is acknowledged already
    // changes nothing, and no other ID but the pending one is taken.
    method Acknowledge(id: string, batchId: Digest) returns (r: Reply<Ack>)
      requires Ready()
      modifies store
      ensures Ready()
      ensures r.Refused? <==>
                (id, batchId) !in old(store.acks)
                && !(id in old(store.pending) && old(store.pending)[id].batchId == batchId)
      ensures r.Refused? ==> r.error == NotPending
      ensures r.Crashed? ==> old(store.fuse) == 0
      ensures MayMove(env, old(store.Tables()), ConsumerLog.Acknowledge(id), store.Tables())
      ensures !r.Done? ==> store.Tables() == old(store.Tables())
      ensures r.Done? && (id, batchId) in old(store.acks) ==>
                store.Tables() == old(store.Tables()) && r.value == old(store.acks)[(id, batchId)]
      ensures r.Done? && (id, batchId) !in old(store.acks) ==>
                && id in old(store.consumers) && id in old(store.pending) && old(store.pending)[id].batchId == batchId
                && store.Tables() == Acked(old(store.Tables()), id)
                && r.value == Ack(id, batchId, old(store.consumers)[id].feedId, old(store.pending)[id].through)
    {
      hide Holds, PendingOk, Sound, PendingDecodes, AckDecodes;
      ghost var w := store.Tables();
      if id in w.consumers {
        ConsumerAlwaysDecodes(env, w, id);
        PendingAlwaysDecodes(env, w, id);
        if (id, batchId) in w.acks {
          AckAlwaysDecodes(env, w, id, batchId);
        }
        if id in w.pending {
          PendingIsNew(env, w, id);
          AcknowledgeKeeps(env, w, id);
        }
      }
      r := store.CommitAcknowledgement(id, batchId);
    }
  }

  // The batch that is handed out, with what its ID commits to.
  lemma BatchIs(env: Env, w: World, config: SharingConfig, s: FeedSnapshot)
    requires PrepareError(env, w, config, Some(s)).None? && config.consumerId in w.consumers
    requires w.consumers[config.consumerId].id == config.consumerId
    ensures var row, b := w.consumers[config.consumerId], PreparedBatch(env, w, config, s);
            && b.id == env.batchHash(BatchIdentity(config.consumerId, s.feedId, row.cursor, |s.body.records|,
                                                   env.filterHash(config.filters), s.identity, row.lastAck, b.items))
            && b == Batch(config.consumerId, b.id, s.feedId, row.cursor, |s.body.records|,
                          env.filterHash(config.filters), s.identity, b.items)
            && b.items == Answer(env, s, row.cursor, config.filters)
  {
    hide Accepted, Answer;
  }

  // --- Repetition ---

  // A process that died after preparing, or lost its answer, gets the same batch
  // again from the same snapshot and leaves no second trace.
  lemma PrepareAgain(env: Env, w: World, config: SharingConfig, again: SharingConfig, s: FeedSnapshot)
    requires Sound(env) && Inv(env, w) && PrepareError(env, w, config, Some(s)).None?
    requires again == config.(initialization := None)
    ensures var t := Prepared(env, w, config, s);
            && PrepareError(env, t, again, Some(s)).None?
            && Prepared(env, t, again, s) == t && PreparedBatch(env, t, again, s) == PreparedBatch(env, w, config, s)
  {
    hide Inv, Accepted, Answer;
    EnrolledKeeps(env, w, config, s);
  }
}
