/** When a superseded batch comes back (src/hwskill/sharing/service.py and
    src/hwskill/sharing/store.py). */
module Superseding {
  import opened Documents
  import opened FeedCheck
  import opened ConsumerLog
  import opened ConsumerRuns
  import opened Sharing

  // The consumer acknowledged something between transactions i and j.
  ghost predicate AckedBetween(ms: seq<Move>, id: string, i: nat, j: nat) {
    exists k :: i <= k < j && k < |ms| && ms[k] == Move.Acknowledge(id)
  }

  // What one transaction does to a consumer that exists.
  lemma RowAfter(env: Env, w: World, m: Move, id: string)
    requires Inv(env, w) && MoveOk(env, w, m) && id in w.consumers
    ensures id in Apply(env, w, m).consumers
    ensures m != Move.Acknowledge(id) ==>
              Apply(env, w, m).consumers[id] == w.consumers[id]
                && DeliveredTo(Apply(env, w, m), id) == DeliveredTo(w, id)
    ensures m == Move.Acknowledge(id) ==>
              id in w.pending && DeliveredTo(Apply(env, w, m), id) == Add(DeliveredTo(w, id), w.pending[id].batch)
  {
    hide Inv, Usable, Answered, Answer, BoundTo;
  }

  // The acknowledged batches only grow, and do exactly by acknowledging.
  lemma {:induction false} HistoryGrows(env: Env, ws: seq<World>, ms: seq<Move>, id: string, i: nat, j: nat)
    requires Sound(env) && Execution(env, ws, ms) && i <= j < |ws| && id in ws[i].consumers
    ensures id in ws[j].consumers && DeliveredTo(ws[i], id).batches <= DeliveredTo(ws[j], id).batches
    ensures AckedBetween(ms, id, i, j) <==> |DeliveredTo(ws[i], id).batches| < |DeliveredTo(ws[j], id).batches|
    ensures !AckedBetween(ms, id, i, j) ==> ws[j].consumers[id] == ws[i].consumers[id]
  {
    hide Inv, MoveOk, Apply, Sound, DeliveredTo;
    if i < j {
      HistoryGrows(env, ws, ms, id, i, j - 1);
      ExecutionKeeps(env, ws, ms, j - 1);
      assert Moves(env, ws[j - 1], ms[j - 1], ws[j]);
      RowAfter(env, ws[j - 1], ms[j - 1], id);
      assert AckedBetween(ms, id, i, j) <==> AckedBetween(ms, id, i, j - 1) || ms[j - 1] == Move.Acknowledge(id);
    }
  }

  // A later last acknowledgement is another one.
  lemma LastAckMoves(env: Env, ws: seq<World>, ms: seq<Move>, id: string, i: nat, j: nat)
    requires Sound(env) && Execution(env, ws, ms) && i <= j < |ws| && id in ws[i].consumers
        && AckedBetween(ms, id, i, j)
    ensures id in ws[j].consumers && ws[j].consumers[id].lastAck != ws[i].consumers[id].lastAck
  {
    HistoryGrows(env, ws, ms, id, i, j);
    ExecutionKeeps(env, ws, ms, i);
    ExecutionKeeps(env, ws, ms, j);
    ConsumerAt(env, ws[i], id);
    ConsumerAt(env, ws[j], id);
    hide Inv, Execution, AckedBetween;
    var d, e := DeliveredTo(ws[i], id), DeliveredTo(ws[j], id);
    var m, n := |d.batches|, |e.batches|;
    if m > 0 {
      ChainDistinct(env, ws[j].consumers[id], e, m - 1, n - 1);
      assert e.batches[m - 1] == d.batches[m - 1];
    }
  }

  // A superseded batch is pending again, under its old ID, if and only if the same
  // snapshot is read again before anything else is acknowledged.
  lemma RevivedIff(env: Env, ws: seq<World>, ms: seq<Move>, id: string, i: nat, j: nat)
    requires Sound(env) && Execution(env, ws, ms) && i < j < |ms|
    requires SavesFor(ms[i], id) && SavesFor(ms[j], id) && id in ws[i].pending
    ensures id in ws[j + 1].pending
    ensures ws[j + 1].pending[id].batchId == ws[i].pending[id].batchId <==>
              ms[j].snapshot.identity == ws[i].pending[id].snapshotIdentity && !AckedBetween(ms, id, i, j)
  {
    ExecutionKeeps(env, ws, ms, i);
    PendingAt(env, ws[i], id);
    HistoryGrows(env, ws, ms, id, i, j);
    assert Moves(env, ws[j], ms[j], ws[j + 1]);
    SaveSaves(env, ws[j], ms[j], id);
    if ws[j + 1].pending[id].batchId == ws[i].pending[id].batchId {
      SameIdRevives(env, ws, ms, id, i, j);
    }
    if ms[j].snapshot.identity == ws[i].pending[id].snapshotIdentity && !AckedBetween(ms, id, i, j) {
      SameReadRevives(env, ws[i], ws[j], ms[j], id);
    }
  }

  lemma SameIdRevives(env: Env, ws: seq<World>, ms: seq<Move>, id: string, i: nat, j: nat)
    requires Sound(env) && Execution(env, ws, ms) && i < j < |ms| && SavesFor(ms[j], id)
    requires id in ws[i].pending && id in ws[i].consumers && id in ws[j + 1].pending
    requires ws[j + 1].pending[id].batchId == ws[i].pending[id].batchId
    ensures ms[j].snapshot.identity == ws[i].pending[id].snapshotIdentity && !AckedBetween(ms, id, i, j)
  {
    ExecutionKeeps(env, ws, ms, i);
    ExecutionKeeps(env, ws, ms, j + 1);
    PendingAt(env, ws[i], id);
    PendingAt(env, ws[j + 1], id);
    assert Moves(env, ws[j], ms[j], ws[j + 1]);
    SaveSaves(env, ws[j], ms[j], id);
    hide Inv, BatchOk, MoveOk, Apply, Answer;
    var a, b := ws[i].consumers[id], ws[j + 1].consumers[id];
    SameIdentity(env, a, b, ws[i].pending[id].batch, ws[j + 1].pending[id].batch, a.lastAck, b.lastAck);
    if AckedBetween(ms, id, i, j) {
      assert AckedBetween(ms, id, i, j + 1);
      LastAckMoves(env, ws, ms, id, i, j + 1);
    }
  }

  lemma SameReadRevives(env: Env, w: World, v: World, m: Move, id: string)
    requires Sound(env) && Inv(env, w) && id in w.pending && id in w.consumers
    requires SavesFor(m, id) && MoveOk(env, v, m) && id in v.consumers && v.consumers[id] == w.consumers[id]
    requires m.snapshot.identity == w.pending[id].snapshotIdentity
    ensures id in Apply(env, v, m).pending && Apply(env, v, m).pending[id] == w.pending[id]
  {
    hide Inv, Accepted, Answer, Answered, Sound;
    PendingRederived(env, w, m.config, m.snapshot);
  }

  // --- Acknowledging it ---

  // While nothing is saved, whatever is pending is what was.
  lemma {:induction false} PendingSince(env: Env, ws: seq<World>, ms: seq<Move>, id: string, j: nat, k: nat)
    requires Execution(env, ws, ms) && j <= k < |ws| && id in ws[k].pending
    requires forall n :: j <= n < k ==> !SavesFor(ms[n], id)
    ensures id in ws[j].pending && ws[j].pending[id] == ws[k].pending[id]
  {
    hide MoveOk, Apply;
    if j < k {
      assert Moves(env, ws[k - 1], ms[k - 1], ws[k]);
      OthersKeepPending(env, ws[k - 1], ms[k - 1], id);
      PendingSince(env, ws, ms, id, j, k - 1);
    }
  }

  // The last save before k.
  lemma {:induction false} LastSave(env: Env, ws: seq<World>, ms: seq<Move>, id: string, k: nat) returns (j: nat)
    requires Execution(env, ws, ms) && k < |ws| && id in ws[k].pending
    ensures j < k && SavesFor(ms[j], id) && forall n :: j < n < k ==> !SavesFor(ms[n], id)
  {
    hide MoveOk, Apply;
    assert k > 0 && Moves(env, ws[k - 1], ms[k - 1], ws[k]);
    if SavesFor(ms[k - 1], id) {
      j := k - 1;
    } else {
      OthersKeepPending(env, ws[k - 1], ms[k - 1], id);
      j := LastSave(env, ws, ms, id, k - 1);
    }
  }

  lemma AckAdds(env: Env, w: World, m: Move, id: string, b: Digest)
    requires MoveOk(env, w, m)
    ensures (id, b) in Apply(env, w, m).acks <==>
              (id, b) in w.acks || (m == Move.Acknowledge(id) && w.pending[id].batchId == b)
  {
    hide Usable, Answered, Answer, BoundTo;
  }

  lemma {:induction false} AckedWhen(env: Env, ws: seq<World>, ms: seq<Move>, id: string, b: Digest, i: nat, t: nat)
    returns (k: nat)
    requires Execution(env, ws, ms) && i <= t < |ws| && (id, b) !in ws[i].acks && (id, b) in ws[t].acks
    ensures i <= k < t && ms[k] == Move.Acknowledge(id) && id in ws[k].pending && ws[k].pending[id].batchId == b
  {
    assert Moves(env, ws[t - 1], ms[t - 1], ws[t]);
    AckAdds(env, ws[t - 1], ms[t - 1], id, b);
    if (id, b) in ws[t - 1].acks {
      hide MoveOk, Apply;
      k := AckedWhen(env, ws, ms, id, b, i, t - 1);
    } else {
      k := t - 1;
    }
  }

  lemma {:induction false} AcksStay(env: Env, ws: seq<World>, ms: seq<Move>, id: string, b: Digest, k: nat, t: nat)
    requires Execution(env, ws, ms) && k <= t < |ws| && (id, b) in ws[k].acks
    ensures (id, b) in ws[t].acks
  {
    hide MoveOk, Apply;
    if k < t {
      AcksStay(env, ws, ms, id, b, k, t - 1);
      assert Moves(env, ws[t - 1], ms[t - 1], ws[t]);
      AckAdds(env, ws[t - 1], ms[t - 1], id, b);
    }
  }

  // The superseded batch was saved again at j, and acknowledged at k as the last one saved.
  ghost predicate RevivedAt(ws: seq<World>, ms: seq<Move>, id: string, i: nat, j: nat, k: nat)
    requires i < |ws| && id in ws[i].pending
  {
    && i < j < k < |ms|
    && SavesFor(ms[j], id)
    && ms[j].snapshot.identity == ws[i].pending[id].snapshotIdentity
    && !AckedBetween(ms, id, i, j)
    && ms[k] == Move.Acknowledge(id)
    && forall n :: j < n < k ==> !SavesFor(ms[n], id)
  }

  // Exactly when a superseded batch is acknowledged after all: its snapshot was
  // read again before any acknowledgement, and the next one followed that read.
  lemma SupersededAckedIff(env: Env, ws: seq<World>, ms: seq<Move>, id: string, i: nat, t: nat)
    requires Sound(env) && Execution(env, ws, ms) && i < t < |ws|
    requires SavesFor(ms[i], id) && id in ws[i].pending
    ensures (id, ws[i].pending[id].batchId) in ws[t].acks
        <==> exists j: nat, k: nat :: k < t && RevivedAt(ws, ms, id, i, j, k)
  {
    hide MoveOk, Apply, Sound, Inv, AckedBetween;
    if (id, ws[i].pending[id].batchId) in ws[t].acks {
      var j, k := RevivedFor(env, ws, ms, id, i, t);
    }
    if j: nat, k: nat :| k < t && RevivedAt(ws, ms, id, i, j, k) {
      RevivedAcked(env, ws, ms, id, i, j, k);
      AcksStay(env, ws, ms, id, ws[i].pending[id].batchId, k + 1, t);
    }
  }

  lemma RevivedAcked(env: Env, ws: seq<World>, ms: seq<Move>, id: string, i: nat, j: nat, k: nat)
    requires Sound(env) && Execution(env, ws, ms) && i < |ms| && SavesFor(ms[i], id) && id in ws[i].pending
    requires RevivedAt(ws, ms, id, i, j, k)
    ensures (id, ws[i].pending[id].batchId) in ws[k + 1].acks
  {
    hide Apply, Sound, Inv, AckedBetween;
    RevivedIff(env, ws, ms, id, i, j);
    assert Moves(env, ws[k], ms[k], ws[k + 1]);
    PendingSince(env, ws, ms, id, j + 1, k);
    AckAdds(env, ws[k], ms[k], id, ws[i].pending[id].batchId);
  }

  lemma RevivedFor(env: Env, ws: seq<World>, ms: seq<Move>, id: string, i: nat, t: nat) returns (j: nat, k: nat)
    requires Sound(env) && Execution(env, ws, ms) && i < t < |ws|
    requires SavesFor(ms[i], id) && id in ws[i].pending && (id, ws[i].pending[id].batchId) in ws[t].acks
    ensures k < t && RevivedAt(ws, ms, id, i, j, k)
  {
    hide MoveOk, Apply, Inv, AckedBetween;
    var b := ws[i].pending[id].batchId;
    ExecutionKeeps(env, ws, ms, i);
    PendingIsNew(env, ws[i], id);
    k := AckedWhen(env, ws, ms, id, b, i, t);
    j := LastSave(env, ws, ms, id, k);
    PendingSince(env, ws, ms, id, j + 1, k);
    if j <= i {
      assert j == i;
      SavedAnew(env, ws, ms, id, i);
      assert false;
    }
    RevivedIff(env, ws, ms, id, i, j);
  }

  // The batch that supersedes another has another ID.
  lemma SavedAnew(env: Env, ws: seq<World>, ms: seq<Move>, id: string, i: nat)
    requires Sound(env) && Execution(env, ws, ms) && i < |ms| && SavesFor(ms[i], id) && id in ws[i].pending
    ensures id in ws[i + 1].pending && ws[i + 1].pending[id].batchId != ws[i].pending[id].batchId
  {
    ExecutionKeeps(env, ws, ms, i);
    ExecutionKeeps(env, ws, ms, i + 1);
    assert Moves(env, ws[i], ms[i], ws[i + 1]);
    SaveSaves(env, ws[i], ms[i], id);
    PendingAt(env, ws[i], id);
    PendingAt(env, ws[i + 1], id);
    hide Inv, BatchOk, Apply, Answer, Usable, Answered;
    var a, b := ws[i].consumers[id], ws[i + 1].consumers[id];
    var x, y := ws[i].pending[id].batch, ws[i + 1].pending[id].batch;
    if x.id == y.id {
      SameIdentity(env, a, b, x, y, a.lastAck, b.lastAck);
      assert false;
    }
  }
}
