/** A consumer's first run, and what its choice of a start means for every later one
    (src/hwskill/sharing/service.py). */
module FirstRun {
  import opened Options
  import opened Documents
  import opened FeedCheck
  import opened Filtering
  import opened Delivery
  import opened ConsumerLog
  import opened ConsumerRuns
  import opened UpdateStore
  import opened Sharing

  ghost predicate FirstTime(env: Env, w: World, config: SharingConfig, choice: Initialization) {
    Sound(env) && Inv(env, w) && config.consumerId !in w.consumers && config.initialization == Some(choice)
  }

  // The consumer row that a first run leaves: its start, and nothing acknowledged.
  ghost predicate Started(w: World, id: string, start: nat) {
    && id in w.consumers && w.consumers[id].cursor == start && w.consumers[id].lastAck == None
    && DeliveredTo(w, id) == Delivered(start, [])
  }

  // Nothing is after the head.
  lemma NothingAfterHead(ih: ItemHash, s: SnapshotBody, f: Filters)
    ensures IsAnswer(ih, s, |s.records|, f, [])
  {
    forall x ensures !ItemAfter(ih, s, |s.records|, x) {
      assert forall i: nat :: !ItemAt(ih, s, |s.records|, i, x);
    }
  }

  // A baseline consumer starts at the head, and its first batch is empty.
  lemma BaselineRun(env: Env, w: World, config: SharingConfig, s: FeedSnapshot)
    requires FirstTime(env, w, config, Baseline)
    ensures PrepareError(env, w, config, Some(s)).None? <==>
              Accepted(env.h, env.identify, s, true) && s.base == config.feedUrl
    ensures PrepareError(env, w, config, Some(s)).None? ==>
              var b := PreparedBatch(env, w, config, s);
              && b.from == b.through == |s.body.records| && b.items == []
              && Started(Prepared(env, w, config, s), config.consumerId, |s.body.records|)
  {
    hide Accepted, IsAnswer, Inv;
    if PrepareError(env, w, config, Some(s)).None? {
      NothingAfterHead(env.itemHash, s.body, config.filters);
      AnswerIs(env, s, |s.body.records|, config.filters, []);
    }
  }

  // A replaying consumer starts where it asks to, unless that is beyond the head, and
  // its first batch is what the feed says from there.
  lemma ReplayRun(env: Env, w: World, config: SharingConfig, s: FeedSnapshot, items: seq<UpdateItem>)
    requires FirstTime(env, w, config, Replay)
    requires IsAnswer(env.itemHash, s.body, config.replayFrom, config.filters, items)
    ensures PrepareError(env, w, config, Some(s)).None? <==>
              && Accepted(env.h, env.identify, s, true) && s.base == config.feedUrl
              && config.replayFrom <= |s.body.records|
    ensures Accepted(env.h, env.identify, s, true) && s.base == config.feedUrl
              && config.replayFrom > |s.body.records| ==>
              PrepareError(env, w, config, Some(s)) == Some(CursorAhead)
    ensures PrepareError(env, w, config, Some(s)).None? ==>
              var b := PreparedBatch(env, w, config, s);
              && b.from == config.replayFrom && b.through == |s.body.records| && b.items == items
              && Started(Prepared(env, w, config, s), config.consumerId, config.replayFrom)
  {
    hide Accepted, IsAnswer, Inv;
    AnswerIs(env, s, config.replayFrom, config.filters, items);
  }

  // Without a choice there is no first run.
  lemma ChoiceRequired(env: Env, w: World, config: SharingConfig, read: Option<FeedSnapshot>)
    requires config.consumerId !in w.consumers && config.initialization.None?
    ensures PrepareError(env, w, config, read) == Some(InitializationRequired)
  {
  }

  // Repeating the first run's choice is harmless until something is acknowledged, and
  // refused from then on; another choice is refused at once.
  lemma RepeatedChoice(env: Env, w: World, config: SharingConfig, again: SharingConfig, s: FeedSnapshot)
    requires Sound(env) && Inv(env, w) && config.consumerId !in w.consumers
    requires PrepareError(env, w, config, Some(s)).None?
    requires again == config.(initialization := again.initialization, replayFrom := again.replayFrom)
    ensures var t := Prepared(env, w, config, s);
            && config.consumerId in t.consumers && config.consumerId in t.pending
            && (PrepareError(env, t, again, Some(s)).None? <==>
                  || again.initialization == None
                  || (again.initialization == config.initialization == Some(Baseline))
                  || (again.initialization == config.initialization == Some(Replay)
                      && again.replayFrom == config.replayFrom))
            && (PrepareError(env, t, again, Some(s)).None? ==>
                  && Prepared(env, t, again, s) == t
                  && PreparedBatch(env, t, again, s) == PreparedBatch(env, w, config, s))
            && (PrepareError(env, Acked(t, config.consumerId), again, Some(s)).None? <==> again.initialization == None)
  {
    NoRowNoBatch(env, w, config.consumerId);
    hide Inv, Accepted, Answer;
    EnrolledKeeps(env, w, config, s);
    var t := Prepared(env, w, config, s);
    var row := t.consumers[config.consumerId];
    assert row.cursor <= |s.body.records|;
    assert PrepareError(env, t, again, Some(s)) ==
        if again.initialization.Some? && !SameInitialization(row, again) then Some(Configuration) else None;
    assert row == NewRow(env, config, s);
    assert config.initialization.value.Baseline? || config.initialization.value.Replay?;
  }

  lemma NoRowNoBatch(env: Env, w: World, id: string)
    requires Inv(env, w) && id !in w.consumers
    ensures id !in w.pending
  {
    hide Holds, PendingOk;
  }

  // --- Over runs ---

  // The start of a consumer never changes.
  lemma {:induction false} StartKept(env: Env, ws: seq<World>, ms: seq<Move>, id: string, i: nat, t: nat)
    requires Execution(env, ws, ms) && i <= t < |ws| && id in ws[i].consumers
    ensures id in ws[t].consumers && DeliveredTo(ws[t], id).start == DeliveredTo(ws[i], id).start
  {
    hide MoveOk, Apply;
    if i < t {
      StartKept(env, ws, ms, id, i, t - 1);
      assert Moves(env, ws[t - 1], ms[t - 1], ws[t]);
      MoveKeepsStart(env, ws[t - 1], ms[t - 1], id);
    }
  }

  lemma MoveKeepsStart(env: Env, w: World, m: Move, id: string)
    requires MoveOk(env, w, m) && id in w.consumers
    ensures var t := Apply(env, w, m); id in t.consumers && DeliveredTo(t, id).start == DeliveredTo(w, id).start
  {
    hide Usable, Answered, Answer, BoundTo;
  }

  // An item lies after its batch's start.
  lemma ItemsAfter(env: Env, row: ConsumerRow, b: Batch, previous: Option<Digest>)
    requires BatchOk(env, row, b, previous)
    ensures forall x :: x in b.items ==> b.from < x.sequence <= b.through
  {
    var s, f :| MadeFrom(env, row, b, previous, s, f);
    forall x | x in b.items ensures b.from < x.sequence <= b.through {
      assert ItemAfter(env.itemHash, s.body, b.from, x);
      var i: nat :| ItemAt(env.itemHash, s.body, b.from, i, x);
      assert ItemAt(env.itemHash, s.body, 0, i, x);
      var _ := ItemSource(env.h, s.base, s.feedId, env.itemHash, s.body, i, x);
    }
  }

  // Nothing from before a consumer's start is ever handed to it, pending or acknowledged.
  lemma NothingBeforeStart(env: Env, ws: seq<World>, ms: seq<Move>, id: string, t: nat)
    requires Sound(env) && Execution(env, ws, ms) && t < |ws| && id in ws[t].consumers
    ensures var start := DeliveredTo(ws[t], id).start;
            && (forall k, x :: 0 <= k < |DeliveredTo(ws[t], id).batches| && x in DeliveredTo(ws[t], id).batches[k].items
                  ==> x.sequence > start)
            && (id in ws[t].pending ==> forall x :: x in ws[t].pending[id].batch.items ==> x.sequence > start)
  {
    ExecutionKeeps(env, ws, ms, t);
    ConsumerAt(env, ws[t], id);
    hide Inv, BatchOk, Execution, Sound;
    var row, d := ws[t].consumers[id], DeliveredTo(ws[t], id);
    forall k, x | 0 <= k < |d.batches| && x in d.batches[k].items ensures x.sequence > d.start {
      assert LinkOk(env, row, d, k);
      LinkRises(env, row, d, 0, k);
      ItemsAfter(env, row, d.batches[k], Previous(d, k));
    }
    if id in ws[t].pending {
      PendingAt(env, ws[t], id);
      LinkRises(env, row, d, 0, |d.batches|);
      ItemsAfter(env, row, ws[t].pending[id].batch, row.lastAck);
    }
  }

  // A consumer that chose the baseline never sees an item of the feed it started on.
  lemma BaselineForEver(env: Env, ws: seq<World>, ms: seq<Move>, i: nat, t: nat)
    requires Sound(env) && Execution(env, ws, ms) && i < |ms| && ms[i].Initialize?
    requires ms[i].config.initialization == Some(Baseline) && i < t < |ws|
    ensures var id, head := ms[i].config.consumerId, |ms[i].snapshot.body.records|;
            && (forall k, x :: 0 <= k < |DeliveredTo(ws[t], id).batches| && x in DeliveredTo(ws[t], id).batches[k].items
                  ==> x.sequence > head)
            && (id in ws[t].pending ==> forall x :: x in ws[t].pending[id].batch.items ==> x.sequence > head)
  {
    var id := ms[i].config.consumerId;
    assert Moves(env, ws[i], ms[i], ws[i + 1]);
    StartKept(env, ws, ms, id, i + 1, t);
    NothingBeforeStart(env, ws, ms, id, t);
  }

  // A consumer that replays from n is handed everything after n, once each.
  lemma ReplayForEver(env: Env, ws: seq<World>, ms: seq<Move>, i: nat, t: nat, n: nat) returns (k: nat)
    requires Sound(env) && Execution(env, ws, ms) && i < |ms| && ms[i].Initialize?
    requires ms[i].config.initialization == Some(Replay) && i < t < |ws|
    requires ms[i].config.consumerId in ws[t].consumers
    requires ms[i].config.replayFrom < n <= ws[t].consumers[ms[i].config.consumerId].cursor
    ensures var batches := DeliveredTo(ws[t], ms[i].config.consumerId).batches;
            && k < |batches| && batches[k].from < n <= batches[k].through
            && forall j :: 0 <= j < |batches| && batches[j].from < n <= batches[j].through ==> j == k
  {
    var id := ms[i].config.consumerId;
    assert Moves(env, ws[i], ms[i], ws[i + 1]);
    StartKept(env, ws, ms, id, i + 1, t);
    k := ExactlyOnce(env, ws, ms, t, id, n);
    var batches := DeliveredTo(ws[t], id).batches;
    forall j | 0 <= j < |batches| && batches[j].from < n <= batches[j].through ensures j == k {
      assert Covers(batches[j], n);
    }
  }
}
