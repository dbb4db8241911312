/** What a consumer's tables satisfy over every run: each sequence number of the
    feed is acknowledged once, and a superseded batch never is. */
module ConsumerRuns {
  import opened Documents
  import opened FeedCheck
  import opened ConsumerLog

  // The committed transactions ms, in any interleaving of any consumers, and the
  // states between them. A crash is the absence of further transactions.
  ghost predicate Execution(env: Env, ws: seq<World>, ms: seq<Move>) {
    && |ws| == |ms| + 1
    && ws[0] == NOTHING_YET
    && forall i :: 0 <= i < |ms| ==> Moves(env, ws[i], ms[i], ws[i + 1])
  }

  ghost predicate Moves(env: Env, w: World, m: Move, t: World) {
    MoveOk(env, w, m) && t == Apply(env, w, m)
  }

  lemma {:induction false} ExecutionKeeps(env: Env, ws: seq<World>, ms: seq<Move>, i: nat)
    requires Sound(env) && Execution(env, ws, ms) && i < |ws|
    ensures Inv(env, ws[i])
  {
    hide Inv, MoveOk, Apply;
    if i == 0 {
      NothingInv(env);
    } else {
      ExecutionKeeps(env, ws, ms, i - 1);
      assert Moves(env, ws[i - 1], ms[i - 1], ws[i]);
      MoveKeeps(env, ws[i - 1], ms[i - 1]);
    }
  }

  // --- Exactly once ---

  ghost predicate Covers(b: Batch, n: nat) {
    b.from < n <= b.through
  }

  lemma {:induction false} FindBatch(env: Env, row: ConsumerRow, d: Delivered, n: nat, k: nat) returns (i: nat)
    requires ChainOfBatches(env, row, d) && k <= |d.batches| && d.start < n <= EndOf(d, k)
    ensures i < k && Covers(d.batches[i], n)
  {
    assert LinkOk(env, row, d, k - 1);
    if d.batches[k - 1].from < n {
      i := k - 1;
    } else {
      i := FindBatch(env, row, d, n, k - 1);
    }
  }

  // The acknowledged intervals tile (start, cursor]: no gap, no overlap.
  lemma ExactlyOnce(env: Env, ws: seq<World>, ms: seq<Move>, t: nat, id: string, n: nat) returns (i: nat)
    requires Sound(env) && Execution(env, ws, ms) && t < |ws| && id in ws[t].consumers
    requires DeliveredTo(ws[t], id).start < n <= ws[t].consumers[id].cursor
    ensures i < |DeliveredTo(ws[t], id).batches| && Covers(DeliveredTo(ws[t], id).batches[i], n)
    ensures forall j :: 0 <= j < |DeliveredTo(ws[t], id).batches| && Covers(DeliveredTo(ws[t], id).batches[j], n) ==>
              j == i
  {
    ExecutionKeeps(env, ws, ms, t);
    var row, d := ws[t].consumers[id], DeliveredTo(ws[t], id);
    assert Holds(env, row, d, ws[t].acks, id);
    hide Inv, Execution, ChainOfBatches, LinkOk;
    i := FindBatch(env, row, d, n, |d.batches|);
    forall j | 0 <= j < |d.batches| && Covers(d.batches[j], n) ensures j == i {
      if j < i {
        NoOverlap(env, row, d, j, i, n);
      } else if i < j {
        NoOverlap(env, row, d, i, j, n);
      }
    }
  }

  lemma NoOverlap(env: Env, row: ConsumerRow, d: Delivered, i: nat, j: nat, n: nat)
    requires ChainOfBatches(env, row, d) && i < j < |d.batches| && Covers(d.batches[i], n)
    ensures !Covers(d.batches[j], n)
  {
    LinkRises(env, row, d, i + 1, j);
    assert LinkOk(env, row, d, j);
  }

  // Everything a consumer acknowledges lies between its start and its cursor.
  lemma NothingOutside(env: Env, ws: seq<World>, ms: seq<Move>, t: nat, id: string, i: nat)
    requires Sound(env) && Execution(env, ws, ms) && t < |ws| && id in ws[t].consumers
    requires i < |DeliveredTo(ws[t], id).batches|
    ensures var d := DeliveredTo(ws[t], id);
            d.start <= d.batches[i].from <= d.batches[i].through <= ws[t].consumers[id].cursor
  {
    ExecutionKeeps(env, ws, ms, t);
    var row, d := ws[t].consumers[id], DeliveredTo(ws[t], id);
    assert Holds(env, row, d, ws[t].acks, id);
    hide Inv, Execution;
    LinkRises(env, row, d, 0, i);
    LinkRises(env, row, d, i, i + 1);
    LinkRises(env, row, d, i + 1, |d.batches|);
    assert LinkOk(env, row, d, i);
  }

  // Along a consumer's chain no batch ID repeats, even for empty intervals.
  lemma NoRepeatedId(env: Env, ws: seq<World>, ms: seq<Move>, t: nat, id: string, i: nat, j: nat)
    requires Sound(env) && Execution(env, ws, ms) && t < |ws| && id in ws[t].consumers
    requires i < j < |DeliveredTo(ws[t], id).batches|
    ensures DeliveredTo(ws[t], id).batches[i].id != DeliveredTo(ws[t], id).batches[j].id
  {
    ExecutionKeeps(env, ws, ms, t);
    var row, d := ws[t].consumers[id], DeliveredTo(ws[t], id);
    assert Holds(env, row, d, ws[t].acks, id);
    ChainDistinct(env, row, d, i, j);
  }

  // --- Superseded batches ---

  ghost predicate SavesFor(m: Move, id: string) {
    m.Save? && m.config.consumerId == id
  }

  // The snapshots a consumer reads never go back, and two of one length are one.
  ghost predicate Growing(ms: seq<Move>, id: string) {
    forall i, j :: 0 <= i < j < |ms| && SavesFor(ms[i], id) && SavesFor(ms[j], id)
      ==> Extends(ms[i].snapshot, ms[j].snapshot)
  }

  ghost predicate Extends(s: FeedSnapshot, t: FeedSnapshot) {
    && |s.body.records| <= |t.body.records|
    && (|s.body.records| == |t.body.records| ==> s.identity == t.identity)
  }

  ghost predicate SavedBy(p: PendingRow, s: FeedSnapshot) {
    p.through == |s.body.records| && p.snapshotIdentity == s.identity
  }

  // The transaction that saved a pending batch.
  lemma {:induction false} SavedWhen(env: Env, ws: seq<World>, ms: seq<Move>, t: nat, id: string) returns (k: nat)
    requires Execution(env, ws, ms) && t < |ws| && id in ws[t].pending
    ensures k < t && SavesFor(ms[k], id) && SavedBy(ws[t].pending[id], ms[k].snapshot)
  {
    hide MoveOk, Answer;
    assert t > 0 && Moves(env, ws[t - 1], ms[t - 1], ws[t]);
    if SavesFor(ms[t - 1], id) {
      k := t - 1;
      SaveSaves(env, ws[t - 1], ms[t - 1], id);
    } else {
      OthersKeepPending(env, ws[t - 1], ms[t - 1], id);
      k := SavedWhen(env, ws, ms, t - 1, id);
    }
  }

  lemma SaveSaves(env: Env, w: World, m: Move, id: string)
    requires MoveOk(env, w, m) && SavesFor(m, id)
    ensures id in w.consumers
    ensures Apply(env, w, m).pending == w.pending[id := RowOf(NextBatch(env, w.consumers[id], m.config, m.snapshot))]
    ensures SavedBy(Apply(env, w, m).pending[id], m.snapshot)
    ensures Apply(env, w, m).acks == w.acks && Apply(env, w, m).delivered == w.delivered
  {
    hide Usable, Answered, Answer, BoundTo;
  }

  lemma OthersKeepPending(env: Env, w: World, m: Move, id: string)
    requires MoveOk(env, w, m) && !SavesFor(m, id)
    ensures id in Apply(env, w, m).pending ==> id in w.pending && Apply(env, w, m).pending[id] == w.pending[id]
  {
    hide Usable, Answered, Answer, BoundTo;
  }

  // A superseded batch can never be acknowledged: once a batch for a newer
  // snapshot is saved over it, its ID is never pending or acknowledged again.
  lemma {:induction false} SupersededNever(env: Env, ws: seq<World>, ms: seq<Move>, id: string, i: nat, t: nat)
    requires Sound(env) && Execution(env, ws, ms) && Growing(ms, id)
    requires i < t < |ws| && SavesFor(ms[i], id) && id in ws[i].pending
    ensures (id, ws[i].pending[id].batchId) !in ws[t].acks
    ensures id in ws[t].pending ==> ws[t].pending[id].batchId != ws[i].pending[id].batchId
  {
    hide Inv, MoveOk, Answer, Sound;
    var before := ws[i].pending[id];
    Supersedes(env, ws, ms, id, i);
    NewerPending(env, ws, ms, id, i, t);
    ExecutionKeeps(env, ws, ms, i);
    ExecutionKeeps(env, ws, ms, t);
    if id in ws[t].pending {
      LaterDiffers(env, ws[i], ws[t], id);
    }
    assert Moves(env, ws[t - 1], ms[t - 1], ws[t]);
    if t == i + 1 {
      PendingIsNew(env, ws[i], id);
      SaveSaves(env, ws[i], ms[i], id);
    } else {
      SupersededNever(env, ws, ms, id, i, t - 1);
      AcksGrow(env, ws[t - 1], ms[t - 1], id, before.batchId);
    }
  }

  lemma AcksGrow(env: Env, w: World, m: Move, id: string, b: Digest)
    requires MoveOk(env, w, m) && (id, b) !in w.acks && (id in w.pending ==> w.pending[id].batchId != b)
    ensures (id, b) !in Apply(env, w, m).acks
  {
    hide Usable, Answered, Answer, BoundTo;
  }

  lemma Supersedes(env: Env, ws: seq<World>, ms: seq<Move>, id: string, i: nat)
    requires Execution(env, ws, ms) && Growing(ms, id) && i < |ms| && SavesFor(ms[i], id) && id in ws[i].pending
    ensures ws[i].pending[id].through < |ms[i].snapshot.body.records|
  {
    var k := SavedWhen(env, ws, ms, i, id);
    hide Answer, Usable, Answered;
    assert Moves(env, ws[i], ms[i], ws[i + 1]);
    assert Extends(ms[k].snapshot, ms[i].snapshot);
  }

  // Whatever is pending after a save covers at least that snapshot.
  lemma {:induction false} NewerPending(env: Env, ws: seq<World>, ms: seq<Move>, id: string, i: nat, t: nat)
    requires Execution(env, ws, ms) && Growing(ms, id) && i < t < |ws| && SavesFor(ms[i], id)
    ensures id in ws[t].pending ==> ws[t].pending[id].through >= |ms[i].snapshot.body.records|
  {
    hide MoveOk, Answer, Apply;
    assert Moves(env, ws[t - 1], ms[t - 1], ws[t]);
    if SavesFor(ms[t - 1], id) {
      SaveSaves(env, ws[t - 1], ms[t - 1], id);
      assert t - 1 == i || Extends(ms[i].snapshot, ms[t - 1].snapshot);
    } else {
      OthersKeepPending(env, ws[t - 1], ms[t - 1], id);
      NewerPending(env, ws, ms, id, i, t - 1);
    }
  }

  lemma LaterDiffers(env: Env, w: World, t: World, id: string)
    requires Sound(env) && Inv(env, w) && Inv(env, t) && id in w.pending && id in t.pending
    requires w.pending[id].through < t.pending[id].through
    ensures w.pending[id].batchId != t.pending[id].batchId
  {
    PendingAt(env, w, id);
    PendingAt(env, t, id);
    hide Inv, BatchOk;
    var a, b := w.consumers[id], t.consumers[id];
    var x, y := w.pending[id].batch, t.pending[id].batch;
    if x.id == y.id {
      SameIdentity(env, a, b, x, y, a.lastAck, b.lastAck);
      assert false;
    }
  }

  // Every acknowledged batch was saved by a transaction.
  lemma {:induction false} DeliveredWhen(env: Env, ws: seq<World>, ms: seq<Move>, t: nat, id: string, i: nat)
    returns (k: nat)
    requires Execution(env, ws, ms) && t < |ws| && Sound(env)
    requires i < |DeliveredTo(ws[t], id).batches|
    ensures k < t && SavesFor(ms[k], id)
    ensures var b := DeliveredTo(ws[t], id).batches[i];
            b.snapshotIdentity == ms[k].snapshot.identity && b.through == |ms[k].snapshot.body.records|
  {
    hide MoveOk, Answer, Sound, Inv, Apply;
    assert t > 0 && Moves(env, ws[t - 1], ms[t - 1], ws[t]);
    ExecutionKeeps(env, ws, ms, t - 1);
    DeliveredGrows(env, ws[t - 1], ms[t - 1], id);
    if i < |DeliveredTo(ws[t - 1], id).batches| {
      k := DeliveredWhen(env, ws, ms, t - 1, id, i);
    } else {
      k := SavedWhen(env, ws, ms, t - 1, id);
    }
  }

  lemma DeliveredGrows(env: Env, w: World, m: Move, id: string)
    requires Inv(env, w) && MoveOk(env, w, m)
    ensures var d, e := DeliveredTo(w, id), DeliveredTo(Apply(env, w, m), id);
            || e == d
            || e.batches == []
            || (id in w.pending && e == Add(d, w.pending[id].batch)
                && w.pending[id].through == w.pending[id].batch.through
                && w.pending[id].snapshotIdentity == w.pending[id].batch.snapshotIdentity)
  {
    if id in w.pending {
      PendingAt(env, w, id);
    }
    hide Inv, Usable, Answered, Answer, BoundTo, BatchOk;
  }
}
