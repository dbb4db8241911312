/** The consumer's delivery state and its committed transactions
    (src/hwskill/sharing/service.py and src/hwskill/sharing/store.py). */
module ConsumerLog {
  import opened Options
  import opened Documents
  import opened FeedCheck
  import opened Filtering

  datatype Initialization = Baseline | Replay

  // The feed URL is the public base URL followed by "/feed"; the model keeps the base.
  datatype SharingConfig = SharingConfig(
    consumerId: string,
    feedUrl: string,
    filters: Filters,
    initialization: Option<Initialization>,
    replayFrom: nat)

  datatype ConsumerRow = ConsumerRow(
    id: string,
    feedId: string,
    feedUrl: string,
    filterDigest: Digest,
    cursor: nat,
    initialization: Initialization,
    lastAck: Option<Digest>)

  datatype Batch = Batch(
    consumerId: string,
    id: Digest,
    feedId: string,
    from: nat,
    through: nat,
    filterDigest: Digest,
    snapshotIdentity: Digest,
    items: seq<UpdateItem>)

  datatype PendingRow = PendingRow(
    consumerId: string,
    batchId: Digest,
    snapshotIdentity: Digest,
    from: nat,
    through: nat,
    filterDigest: Digest,
    batch: Batch)

  datatype Ack = Ack(consumerId: string, batchId: Digest, feedId: string, through: nat)

  // What a batch ID hashes.
  datatype BatchIdentity = BatchIdentity(
    consumerId: string,
    feedId: string,
    from: nat,
    through: nat,
    filterDigest: Digest,
    snapshotIdentity: Digest,
    previous: Option<Digest>,
    items: seq<UpdateItem>)

  // The four digests of the consumer side, besides the publisher's.
  datatype Env = Env(
    h: Hash,
    identify: SnapshotHash,
    itemHash: ItemHash,
    batchHash: BatchIdentity -> Digest,
    filterHash: Filters -> Digest)

  ghost predicate Sound(env: Env) {
    && Injective(env.h)
    && InjectiveItems(env.itemHash)
    && (forall x, y :: env.identify(x) == env.identify(y) ==> x == y)
    && (forall x, y :: env.batchHash(x) == env.batchHash(y) ==> x == y)
    && (forall x, y :: env.filterHash(x) == env.filterHash(y) ==> x == y)
  }

  function IdentityOf(b: Batch, previous: Option<Digest>): BatchIdentity {
    BatchIdentity(b.consumerId, b.feedId, b.from, b.through, b.filterDigest, b.snapshotIdentity, previous, b.items)
  }

  // _new_batch, around the items
  function MakeBatch(env: Env, consumerId: string, s: FeedSnapshot, from: nat, filterDigest: Digest,
                     previous: Option<Digest>,
                     items: seq<UpdateItem>): Batch
  {
    var b := Batch(consumerId, 0, s.feedId, from, |s.body.records|, filterDigest, s.identity, items);
    b.(id := env.batchHash(IdentityOf(b, previous)))
  }

  function RowOf(b: Batch): PendingRow {
    PendingRow(b.consumerId, b.id, b.snapshotIdentity, b.from, b.through, b.filterDigest, b)
  }

  function AckOf(b: Batch): Ack {
    Ack(b.consumerId, b.id, b.feedId, b.through)
  }

  // The batches acknowledged so far, oldest first. No table keeps them whole.
  datatype Delivered = Delivered(start: nat, batches: seq<Batch>)

  datatype World = World(
    consumers: map<string, ConsumerRow>,
    pending: map<string, PendingRow>,
    acks: map<(string, Digest), Ack>,
    delivered: map<string, Delivered>)

  const NOTHING_YET := World(map[], map[], map[], map[])

  // --- The committed transactions ---

  datatype Move =
    | Initialize(config: SharingConfig, snapshot: FeedSnapshot)
    | Save(config: SharingConfig, snapshot: FeedSnapshot)
    | Acknowledge(consumerId: string)

  ghost predicate Usable(env: Env, config: SharingConfig, s: FeedSnapshot) {
    Accepted(env.h, env.identify, s, true) && s.base == config.feedUrl
  }

  function StartCursor(config: SharingConfig, s: FeedSnapshot): nat {
    if config.initialization == Some(Baseline) then |s.body.records| else config.replayFrom
  }

  predicate BoundTo(env: Env, row: ConsumerRow, config: SharingConfig, s: FeedSnapshot) {
    row.feedUrl == config.feedUrl && row.filterDigest == env.filterHash(config.filters) && row.feedId == s.feedId
  }

  // The items of the interval after the cursor.
  ghost function Answer(env: Env, s: FeedSnapshot, from: nat, f: Filters): seq<UpdateItem> {
    if items :| IsAnswer(env.itemHash, s.body, from, f, items) then items else []
  }

  ghost predicate Answered(env: Env, s: FeedSnapshot, from: nat, f: Filters) {
    IsAnswer(env.itemHash, s.body, from, f, Answer(env, s, from, f))
  }

  ghost function NextBatch(env: Env, row: ConsumerRow, config: SharingConfig, s: FeedSnapshot): Batch {
    MakeBatch(env, row.id, s, row.cursor, row.filterDigest, row.lastAck, Answer(env, s, row.cursor, config.filters))
  }

  ghost predicate MoveOk(env: Env, w: World, m: Move) {
    match m
    case Initialize(config, s) =>
      && config.consumerId !in w.consumers && config.initialization.Some?
      && Usable(env, config, s) && StartCursor(config, s) <= |s.body.records|
    case Save(config, s) =>
      && config.consumerId in w.consumers
      && Usable(env, config, s)
      && BoundTo(env, w.consumers[config.consumerId], config, s)
      && w.consumers[config.consumerId].cursor <= |s.body.records|
      && Answered(env, s, w.consumers[config.consumerId].cursor, config.filters)
      && (config.consumerId in w.pending ==> w.pending[config.consumerId].snapshotIdentity != s.identity)
    case Acknowledge(id) => id in w.consumers && id in w.pending
  }

  function NewRow(env: Env, config: SharingConfig, s: FeedSnapshot): ConsumerRow
    requires config.initialization.Some?
  {
    ConsumerRow(config.consumerId, s.feedId, config.feedUrl, env.filterHash(config.filters), StartCursor(config, s),
                config.initialization.value, None)
  }

  ghost function Apply(env: Env, w: World, m: Move): World
    requires MoveOk(env, w, m)
  {
    match m
    case Initialize(config, s) =>
      w.(consumers := w.consumers[config.consumerId := NewRow(env, config, s)],
         delivered := w.delivered[config.consumerId := Delivered(StartCursor(config, s), [])])
    case Save(config, s) =>
      w.(pending := w.pending[config.consumerId := RowOf(NextBatch(env, w.consumers[config.consumerId], config, s))])
    case Acknowledge(id) => Acked(w, id)
  }

  ghost function Acked(w: World, id: string): World
    requires id in w.consumers && id in w.pending
  {
    var row, p := w.consumers[id], w.pending[id];
    w.(consumers := w.consumers[id := row.(cursor := p.through, lastAck := Some(p.batchId))],
       pending := w.pending - {id},
       acks := w.acks[(id, p.batchId) := Ack(id, p.batchId, row.feedId, p.through)],
       delivered := w.delivered[id := Add(DeliveredTo(w, id), p.batch)])
  }

  ghost function DeliveredTo(w: World, id: string): Delivered {
    if id in w.delivered then w.delivered[id] else Delivered(0, [])
  }

  ghost function Add(d: Delivered, b: Batch): Delivered {
    d.(batches := d.batches + [b])
  }

  // At most the one transaction m lies between w and t.
  ghost predicate MayMove(env: Env, w: World, m: Move, t: World) {
    t == w || (MoveOk(env, w, m) && t == Apply(env, w, m))
  }

  // --- The invariant ---

  ghost function Previous(d: Delivered, i: nat): Option<Digest>
    requires i <= |d.batches|
  {
    if i == 0 then None else Some(d.batches[i - 1].id)
  }

  ghost function EndOf(d: Delivered, i: nat): nat
    requires i <= |d.batches|
  {
    if i == 0 then d.start else d.batches[i - 1].through
  }

  // Where a batch comes from: one accepted snapshot of the consumer's feed and
  // the batch acknowledged before it.
  ghost predicate MadeFrom(env: Env, row: ConsumerRow, b: Batch, previous: Option<Digest>, s: FeedSnapshot,
                           f: Filters) {
    && Accepted(env.h, env.identify, s, true)
    && s.base == row.feedUrl && s.feedId == row.feedId && env.filterHash(f) == row.filterDigest
    && b == MakeBatch(env, row.id, s, b.from, row.filterDigest, previous, b.items)
    && IsAnswer(env.itemHash, s.body, b.from, f, b.items)
    && b.from <= b.through
  }

  ghost predicate BatchOk(env: Env, row: ConsumerRow, b: Batch, previous: Option<Digest>) {
    exists s, f :: MadeFrom(env, row, b, previous, s, f)
  }

  // Batch i starts where the one before it ended, and hashes that one's ID.
  ghost predicate LinkOk(env: Env, row: ConsumerRow, d: Delivered, i: nat)
    requires i < |d.batches|
  {
    d.batches[i].from == EndOf(d, i) && BatchOk(env, row, d.batches[i], Previous(d, i))
  }

  ghost predicate ChainOfBatches(env: Env, row: ConsumerRow, d: Delivered) {
    forall i :: 0 <= i < |d.batches| ==> LinkOk(env, row, d, i)
  }

  ghost predicate ConsumerOk(env: Env, row: ConsumerRow, d: Delivered) {
    && row.feedId != ""
    && ChainOfBatches(env, row, d)
    && row.cursor == EndOf(d, |d.batches|)
    && row.lastAck == Previous(d, |d.batches|)
  }

  ghost predicate PendingOk(env: Env, row: ConsumerRow, p: PendingRow) {
    p == RowOf(p.batch) && p.from == row.cursor && BatchOk(env, row, p.batch, row.lastAck)
  }

  ghost predicate AckStands(acks: map<(string, Digest), Ack>, id: string, b: Batch) {
    (id, b.id) in acks && acks[(id, b.id)] == AckOf(b)
  }

  // The acknowledgement table is the acknowledged batches.
  ghost predicate AcksOk(acks: map<(string, Digest), Ack>, id: string, d: Delivered) {
    && (forall i :: 0 <= i < |d.batches| ==> AckStands(acks, id, d.batches[i]))
    && (forall k :: k in acks && k.0 == id ==> exists i :: 0 <= i < |d.batches| && d.batches[i].id == k.1)
  }

  ghost predicate Holds(env: Env, row: ConsumerRow, d: Delivered, acks: map<(string, Digest), Ack>, id: string) {
    row.id == id && ConsumerOk(env, row, d) && AcksOk(acks, id, d)
  }

  ghost predicate Inv(env: Env, w: World) {
    && (forall id {:trigger Holds(env, w.consumers[id], DeliveredTo(w, id), w.acks, id)} ::
          id in w.consumers ==> Holds(env, w.consumers[id], DeliveredTo(w, id), w.acks, id))
    && (forall id :: id in w.pending ==> id in w.consumers)
    && (forall id {:trigger PendingOk(env, w.consumers[id], w.pending[id])} ::
          id in w.pending ==> PendingOk(env, w.consumers[id], w.pending[id]))
    && (forall k :: k in w.acks ==> k.0 in w.consumers)
  }

  // What the invariant says about one consumer and about one pending batch.
  lemma ConsumerAt(env: Env, w: World, id: string)
    requires Inv(env, w) && id in w.consumers
    ensures Holds(env, w.consumers[id], DeliveredTo(w, id), w.acks, id) && w.consumers[id].id == id
  {
    hide ConsumerOk, AcksOk;
    assert Holds(env, w.consumers[id], DeliveredTo(w, id), w.acks, id);
  }

  lemma PendingAt(env: Env, w: World, id: string)
    requires Inv(env, w) && id in w.pending
    ensures id in w.consumers && PendingOk(env, w.consumers[id], w.pending[id])
    ensures w.pending[id] == RowOf(w.pending[id].batch) && w.pending[id].from == w.consumers[id].cursor
    ensures BatchOk(env, w.consumers[id], w.pending[id].batch, w.consumers[id].lastAck)
  {
    hide BatchOk;
    assert PendingOk(env, w.consumers[id], w.pending[id]);
  }

  lemma NothingInv(env: Env)
    ensures Inv(env, NOTHING_YET)
  {
  }

  // --- No batch ID occurs twice along a chain ---

  lemma SameIdentity(env: Env, row: ConsumerRow, other: ConsumerRow, a: Batch, b: Batch, p: Option<Digest>,
                     q: Option<Digest>)
    requires Sound(env) && BatchOk(env, row, a, p) && BatchOk(env, other, b, q) && a.id == b.id
    ensures p == q && row.id == other.id && a == b
  {
    var s, f :| MadeFrom(env, row, a, p, s, f);
    var t, g :| MadeFrom(env, other, b, q, t, g);
    assert a.id == env.batchHash(IdentityOf(a, p)) && b.id == env.batchHash(IdentityOf(b, q));
  }

  // Each ID hashes the one before it, so a repetition would descend to the start.
  lemma {:induction false} ChainDistinct(env: Env, row: ConsumerRow, d: Delivered, i: nat, j: nat)
    requires Sound(env) && ChainOfBatches(env, row, d) && i < j < |d.batches|
    ensures d.batches[i].id != d.batches[j].id
  {
    hide BatchOk;
    assert LinkOk(env, row, d, i) && LinkOk(env, row, d, j);
    if d.batches[i].id == d.batches[j].id {
      SameIdentity(env, row, row, d.batches[i], d.batches[j], Previous(d, i), Previous(d, j));
      if i > 0 {
        ChainDistinct(env, row, d, i - 1, j - 1);
      }
      assert false;
    }
  }

  // Adding the next batch keeps the chain.
  lemma ChainAdds(env: Env, row: ConsumerRow, d: Delivered, b: Batch)
    requires ConsumerOk(env, row, d) && b.from == row.cursor && BatchOk(env, row, b, row.lastAck)
    ensures ChainOfBatches(env, row, Add(d, b))
  {
    hide BatchOk;
    var e := Add(d, b);
    forall i | 0 <= i < |e.batches| ensures LinkOk(env, row, e, i) {
      if i < |d.batches| {
        assert LinkOk(env, row, d, i);
      }
    }
  }

  // A live pending batch is never already acknowledged.
  lemma PendingIsNew(env: Env, w: World, id: string)
    requires Sound(env) && Inv(env, w) && id in w.pending
    ensures id in w.consumers && (id, w.pending[id].batchId) !in w.acks
  {
    PendingAt(env, w, id);
    ConsumerAt(env, w, id);
    hide Inv, BatchOk, ChainOfBatches, LinkOk;
    var row, p, d := w.consumers[id], w.pending[id], DeliveredTo(w, id);
    ChainAdds(env, row, d, p.batch);
    var e := Add(d, p.batch);
    if (id, p.batchId) in w.acks {
      assert AcksOk(w.acks, id, d);
      var i :| 0 <= i < |d.batches| && d.batches[i].id == p.batchId;
      assert e.batches[i].id == p.batchId;
      ChainDistinct(env, row, e, i, |d.batches|);
      assert false;
    }
  }

  // Two consumers never hold the same pending batch ID.
  lemma PendingDiffer(env: Env, w: World, a: string, b: string)
    requires Sound(env) && Inv(env, w) && a in w.pending && b in w.pending && a != b
    ensures w.pending[a].batchId != w.pending[b].batchId
  {
    PendingAt(env, w, a);
    PendingAt(env, w, b);
    ConsumerAt(env, w, a);
    ConsumerAt(env, w, b);
    hide Inv, BatchOk, Holds;
    var x, y := w.consumers[a], w.consumers[b];
    if w.pending[a].batchId == w.pending[b].batchId {
      SameIdentity(env, x, y, w.pending[a].batch, w.pending[b].batch, x.lastAck, y.lastAck);
      assert false;
    }
  }

  // --- Intervals ---

  lemma LinkFacts(env: Env, row: ConsumerRow, d: Delivered, i: nat)
    requires i < |d.batches| && LinkOk(env, row, d, i)
    ensures d.batches[i].from == EndOf(d, i) && d.batches[i].from <= d.batches[i].through
    ensures d.batches[i].consumerId == row.id && d.batches[i].feedId == row.feedId
  {
    var s, f :| MadeFrom(env, row, d.batches[i], Previous(d, i), s, f);
  }

  lemma {:induction false} LinkRises(env: Env, row: ConsumerRow, d: Delivered, i: nat, j: nat)
    requires ChainOfBatches(env, row, d) && i <= j <= |d.batches|
    ensures EndOf(d, i) <= EndOf(d, j)
  {
    hide LinkOk;
    if i < j {
      LinkRises(env, row, d, i, j - 1);
      assert LinkOk(env, row, d, j - 1);
      LinkFacts(env, row, d, j - 1);
    }
  }

  // --- Every transaction keeps the invariant ---

  lemma SameChain(env: Env, row: ConsumerRow, next: ConsumerRow, d: Delivered)
    requires ChainOfBatches(env, row, d)
    requires next == row.(cursor := next.cursor, lastAck := next.lastAck)
    ensures ChainOfBatches(env, next, d)
  {
    forall i | 0 <= i < |d.batches| ensures LinkOk(env, next, d, i) {
      assert LinkOk(env, row, d, i);
      var s, f :| MadeFrom(env, row, d.batches[i], Previous(d, i), s, f);
      assert MadeFrom(env, next, d.batches[i], Previous(d, i), s, f);
    }
  }

  lemma NewHolds(env: Env, w: World, config: SharingConfig, s: FeedSnapshot)
    requires Inv(env, w) && MoveOk(env, w, Initialize(config, s))
    ensures Holds(env, NewRow(env, config, s), Delivered(StartCursor(config, s), []), w.acks, config.consumerId)
  {
    hide Holds, PendingOk, Usable;
    FeedIdKnown(env, config, s);
    assert forall k :: k in w.acks ==> k.0 != config.consumerId;
    hide Inv;
    NewRowHolds(NewRow(env, config, s), StartCursor(config, s), w.acks, env);
  }

  lemma NewRowHolds(row: ConsumerRow, start: nat, acks: map<(string, Digest), Ack>, env: Env)
    requires row.feedId != "" && row.cursor == start && row.lastAck.None?
    requires forall k :: k in acks ==> k.0 != row.id
    ensures Holds(env, row, Delivered(start, []), acks, row.id)
  {
  }

  lemma InitializeKeeps(env: Env, w: World, config: SharingConfig, s: FeedSnapshot)
    requires Inv(env, w) && MoveOk(env, w, Initialize(config, s))
    ensures Inv(env, Apply(env, w, Initialize(config, s)))
  {
    hide Holds, PendingOk, Usable, NewRow, StartCursor;
    var t := Apply(env, w, Initialize(config, s));
    NewHolds(env, w, config, s);
    forall id | id in t.consumers ensures Holds(env, t.consumers[id], DeliveredTo(t, id), t.acks, id) {
      if id != config.consumerId {
        assert DeliveredTo(t, id) == DeliveredTo(w, id);
      }
    }
  }

  lemma FeedIdKnown(env: Env, config: SharingConfig, s: FeedSnapshot)
    requires Usable(env, config, s)
    ensures s.feedId != "" && |s.body.records| >= 1 && s.body.head.sequence == |s.body.records|
  {
    hide LogOk, SubjectsOk;
  }

  lemma NextBatchOk(env: Env, w: World, config: SharingConfig, s: FeedSnapshot)
    requires Inv(env, w) && MoveOk(env, w, Save(config, s))
    ensures var row := w.consumers[config.consumerId];
            PendingOk(env, row, RowOf(NextBatch(env, row, config, s)))
  {
    hide Accepted, Holds, PendingOk, IsAnswer;
    var row := w.consumers[config.consumerId];
    ConsumerAt(env, w, config.consumerId);
    hide Inv;
    assert MadeFrom(env, row, NextBatch(env, row, config, s), row.lastAck, s, config.filters);
    SavedOk(env, row, NextBatch(env, row, config, s), s, config.filters);
  }

  lemma SavedOk(env: Env, row: ConsumerRow, b: Batch, s: FeedSnapshot, f: Filters)
    requires MadeFrom(env, row, b, row.lastAck, s, f) && b.from == row.cursor
    ensures PendingOk(env, row, RowOf(b))
  {
    hide MadeFrom;
  }

  lemma SaveKeeps(env: Env, w: World, config: SharingConfig, s: FeedSnapshot)
    requires Inv(env, w) && MoveOk(env, w, Save(config, s))
    ensures Inv(env, Apply(env, w, Save(config, s)))
  {
    hide PendingOk, Holds, Usable, Answered, NextBatch, RowOf, BoundTo;
    NextBatchOk(env, w, config, s);
    var t := Apply(env, w, Save(config, s));
    assert forall id :: DeliveredTo(t, id) == DeliveredTo(w, id);
  }

  lemma AcksAdd(acks: map<(string, Digest), Ack>, id: string, d: Delivered, b: Batch)
    requires AcksOk(acks, id, d) && (id, b.id) !in acks
    ensures AcksOk(acks[(id, b.id) := AckOf(b)], id, Add(d, b))
  {
    var after, e := acks[(id, b.id) := AckOf(b)], Add(d, b);
    forall i | 0 <= i < |e.batches| ensures AckStands(after, id, e.batches[i]) {
      if i < |d.batches| {
        assert AckStands(acks, id, d.batches[i]);
      }
    }
    forall k | k in after && k.0 == id ensures exists i :: 0 <= i < |e.batches| && e.batches[i].id == k.1 {
      if k == (id, b.id) {
        assert e.batches[|d.batches|].id == k.1;
      } else {
        var i :| 0 <= i < |d.batches| && d.batches[i].id == k.1;
        assert e.batches[i].id == k.1;
      }
    }
  }

  lemma AcksElsewhere(acks: map<(string, Digest), Ack>, key: (string, Digest), a: Ack, id: string, d: Delivered)
    requires AcksOk(acks, id, d) && key.0 != id
    ensures AcksOk(acks[key := a], id, d)
  {
    forall i | 0 <= i < |d.batches| ensures AckStands(acks[key := a], id, d.batches[i]) {
      assert AckStands(acks, id, d.batches[i]);
    }
  }

  lemma PendingNamed(env: Env, row: ConsumerRow, p: PendingRow)
    requires PendingOk(env, row, p)
    ensures p.batch.consumerId == row.id && p.batch.feedId == row.feedId
    ensures p.batchId == p.batch.id && p.through == p.batch.through && p.from == p.batch.from == row.cursor
    ensures BatchOk(env, row, p.batch, row.lastAck) && AckOf(p.batch) == Ack(row.id, p.batchId, row.feedId, p.through)
  {
    var s, f :| MadeFrom(env, row, p.batch, row.lastAck, s, f);
  }

  lemma AckedConsumer(env: Env, w: World, id: string)
    requires Sound(env) && Inv(env, w) && MoveOk(env, w, Acknowledge(id))
    ensures var t := Acked(w, id);
            && Holds(env, t.consumers[id], DeliveredTo(t, id), t.acks, id)
            && DeliveredTo(t, id) == Add(DeliveredTo(w, id), w.pending[id].batch)
  {
    hide BatchOk, ChainOfBatches, LinkOk, PendingOk, AcksOk, Sound;
    var row, p, d := w.consumers[id], w.pending[id], DeliveredTo(w, id);
    PendingNamed(env, row, p);
    PendingIsNew(env, w, id);
    assert Holds(env, row, d, w.acks, id);
    hide Inv;
    ChainAdds(env, row, d, p.batch);
    SameChain(env, row, Acked(w, id).consumers[id], Add(d, p.batch));
    AcksAdd(w.acks, id, d, p.batch);
  }

  lemma AckedOther(env: Env, w: World, id: string, x: string)
    requires Inv(env, w) && MoveOk(env, w, Acknowledge(id)) && x != id && x in w.consumers
    ensures var t := Acked(w, id);
            x in t.consumers && t.consumers[x] == w.consumers[x]
              && Holds(env, t.consumers[x], DeliveredTo(t, x), t.acks, x)
  {
    ConsumerAt(env, w, x);
    hide Inv, BatchOk, ConsumerOk, AcksOk, PendingOk;
    var t, p := Acked(w, id), w.pending[id];
    AcksElsewhere(w.acks, (id, p.batchId), t.acks[(id, p.batchId)], x, DeliveredTo(w, x));
  }

  lemma AcknowledgeKeeps(env: Env, w: World, id: string)
    requires Sound(env) && Inv(env, w) && MoveOk(env, w, Acknowledge(id))
    ensures Inv(env, Acked(w, id))
  {
    hide Holds, PendingOk, DeliveredTo, Sound;
    AckedConsumer(env, w, id);
    var t := Acked(w, id);
    forall x | x in t.consumers ensures Holds(env, t.consumers[x], DeliveredTo(t, x), t.acks, x) {
      if x != id {
        AckedOther(env, w, id, x);
      }
    }
  }

  lemma MoveKeeps(env: Env, w: World, m: Move)
    requires Sound(env) && Inv(env, w) && MoveOk(env, w, m)
    ensures Inv(env, Apply(env, w, m))
  {
    hide Inv, Usable, Answered;
    match m
    case Initialize(config, s) => InitializeKeeps(env, w, config, s);
    case Save(config, s) => SaveKeeps(env, w, config, s);
    case Acknowledge(id) => AcknowledgeKeeps(env, w, id);
  }
}
