/** Publisher, reader and consumer together: what a consumer that keeps up has
    been told. */
module EndToEnd {
  import opened Options
  import opened Documents
  import opened FeedCheck
  import opened Agreement
  import opened Filtering
  import opened Delivery
  import opened Store
  import Log = PublisherLog
  import Runs = PublisherRuns
  import opened Reader
  import opened ConsumerLog
  import opened ConsumerRuns

  // A consumer's side of the story: its transactions, and the reader it uses on
  // the publisher's run tr.
  datatype Story = Story(cfg: Log.Config, tr: seq<Durable>, reader: FeedReader, env: Env, ws: seq<World>,
                         ms: seq<Move>, id: string)

  ghost predicate Told(y: Story) {
    && Sound(y.env) && y.env.h == y.cfg.h
    && y.reader.h == y.cfg.h && y.reader.base == y.cfg.base && y.reader.identify == y.env.identify
    && Runs.Run(y.cfg, y.tr)
    && Execution(y.env, y.ws, y.ms)
    && forall k :: 0 <= k < |y.ms| && SavesFor(y.ms[k], y.id) ==> FromFeed(y, y.ms[k].snapshot)
  }

  // What the reader may return anywhere in the run.
  ghost predicate FromFeed(y: Story, s: FeedSnapshot) {
    exists t :: 0 <= t < |y.tr| && ReadAt(y, s, t)
  }

  ghost predicate ReadAt(y: Story, s: FeedSnapshot, t: nat)
    requires t < |y.tr|
  {
    y.tr[t].head.Some? && s == y.reader.SnapshotAt(y.cfg, y.tr[t])
  }

  ghost function Last(y: Story): Durable
    requires Told(y)
  {
    y.tr[|y.tr| - 1]
  }

  ghost function Batches(y: Story): seq<Batch>
    requires Told(y)
  {
    DeliveredTo(y.ws[|y.ms|], y.id).batches
  }

  // The consumer filters nothing, and has acknowledged through the head.
  ghost predicate UpToDate(y: Story)
    requires Told(y)
  {
    && y.id in y.ws[|y.ms|].consumers
    && y.ws[|y.ms|].consumers[y.id].filterDigest == y.env.filterHash(NO_FILTERS)
    && y.ws[|y.ms|].consumers[y.id].cursor == HeadSequence(Last(y))
  }

  lemma Lengths(y: Story)
    requires Told(y)
    ensures |y.ws| == |y.ms| + 1 && |y.tr| >= 1
  {
  }

  lemma RunKeeps(cfg: Log.Config, tr: seq<Durable>, t: nat)
    requires Runs.Run(cfg, tr) && t < |tr|
    ensures Log.Inv(cfg, tr[t])
  {
    hide Log.Inv, Log.Step;
    Log.EmptyInv(cfg);
    Runs.WritesKeep(cfg, tr, t);
  }

  // An earlier feed and its artifacts are a prefix of the later ones.
  lemma FeedAndArtifactsGrow(cfg: Log.Config, tr: seq<Durable>, t: nat, u: nat)
    requires Runs.Run(cfg, tr) && t <= u < |tr|
    ensures HeadSequence(tr[t]) <= HeadSequence(tr[u])
    ensures Feed(tr[t]) == Feed(tr[u])[..HeadSequence(tr[t])]
    ensures Runs.FeedArtifacts(tr[t]) == Runs.FeedArtifacts(tr[u])[..HeadSequence(tr[t])]
  {
    hide Log.Inv, Log.Step;
    RunKeeps(cfg, tr, 0);
    RunKeeps(cfg, tr, t);
    Runs.WritesGrow(cfg, tr, t, u);
    Runs.FeedGrows(cfg, tr, t, u);
    Runs.RecordsPresent(cfg, tr[t]);
    Log.RecordsFrozen(cfg, tr[t], HeadSequence(tr[t]));
    ArtifactsKept(tr[t], tr[u]);
  }

  lemma ArtifactsKept(s: Durable, t: Durable)
    requires Runs.Grows(s, t)
    requires forall k :: 1 <= k <= HeadSequence(s) ==> k in s.records && RecordAt(s.records, k).releaseId in s.snapshots
    ensures Runs.FeedArtifacts(s) == Runs.FeedArtifacts(t)[..HeadSequence(s)]
  {
    forall i | 0 <= i < HeadSequence(s) ensures Runs.FeedArtifacts(s)[i] == Runs.FeedArtifacts(t)[i] {
      assert i + 1 in s.records;
    }
  }

  lemma FeedStillServed(cfg: Log.Config, tr: seq<Durable>, t: nat, u: nat)
    requires Injective(cfg.h) && Runs.Run(cfg, tr) && t <= u < |tr|
    ensures var n := HeadSequence(tr[t]);
            && n <= HeadSequence(tr[u]) && |Feed(tr[t])| == n && Feed(tr[t]) == Feed(tr[u])[..n]
            && Serves(FeedDocuments(tr[t]), Runs.FeedArtifacts(tr[u])[..n], Feed(tr[t]))
  {
    hide Runs.Run, Log.Inv, Injective, FeedDocuments, Serves;
    RunKeeps(cfg, tr, t);
    DocumentsServe(cfg, tr[t]);
    FeedAndArtifactsGrow(cfg, tr, t, u);
  }

  // A snapshot read at t and an interval of it.
  lemma ReadHandover(y: Story, t: nat, s: FeedSnapshot, from: nat, items: seq<UpdateItem>)
    requires Told(y) && t < |y.tr| && ReadAt(y, s, t) && from <= |s.body.records|
    requires IsAnswer(y.env.itemHash, s.body, from, NO_FILTERS, items)
    ensures HandoverOk(y.env.itemHash, Runs.FeedArtifacts(Last(y)), Feed(Last(y)), Handover(s.body, from, items))
  {
    SoundHash(y.env);
    hide Runs.Run, Execution, Sound, IsAnswer, Injective, FeedDocuments, Runs.FeedArtifacts, Serves, Feed, FromFeed;
    FeedStillServed(y.cfg, y.tr, t, |y.tr| - 1);
  }

  // An acknowledged batch is a handover of a state of the growing feed.
  lemma BatchHandover(y: Story, i: nat) returns (d: Handover)
    requires Told(y) && UpToDate(y) && i < |Batches(y)|
    ensures HandoverOk(y.env.itemHash, Runs.FeedArtifacts(Last(y)), Feed(Last(y)), d)
    ensures d.from == Batches(y)[i].from && d.items == Batches(y)[i].items && |d.body.records| == Batches(y)[i].through
  {
    Lengths(y);
    hide Runs.Run, Execution, Sound, IsAnswer, HandoverOk;
    var k := DeliveredWhen(y.env, y.ws, y.ms, |y.ms|, y.id, i);
    var s := y.ms[k].snapshot;
    assert FromFeed(y, s);
    var t :| 0 <= t < |y.tr| && ReadAt(y, s, t);
    var b := Batches(y)[i];
    d := Handover(s.body, b.from, b.items);
    BatchBody(y.env, y.ws, y.ms, y.id, i, s);
    ReadHandover(y, t, s, b.from, b.items);
  }

  lemma SoundHash(env: Env)
    requires Sound(env)
    ensures Injective(env.h)
  {
  }

  // The snapshot a batch was made from is the one that was read.
  lemma BatchBody(env: Env, ws: seq<World>, ms: seq<Move>, id: string, i: nat, s: FeedSnapshot)
    requires Sound(env) && Execution(env, ws, ms) && |ws| == |ms| + 1 && id in ws[|ms|].consumers
    requires ws[|ms|].consumers[id].filterDigest == env.filterHash(NO_FILTERS)
    requires i < |DeliveredTo(ws[|ms|], id).batches|
        && DeliveredTo(ws[|ms|], id).batches[i].snapshotIdentity == s.identity
    requires s.identity == env.identify(s.body)
    ensures var b := DeliveredTo(ws[|ms|], id).batches[i];
            IsAnswer(env.itemHash, s.body, b.from, NO_FILTERS, b.items) && b.from <= b.through
  {
    hide Execution, IsAnswer, LogOk, SubjectsOk;
    ExecutionKeeps(env, ws, ms, |ms|);
    var row, d := ws[|ms|].consumers[id], DeliveredTo(ws[|ms|], id);
    assert Holds(env, row, d, ws[|ms|].acks, id);
    hide Inv;
    assert LinkOk(env, row, d, i);
    var t, f :| MadeFrom(env, row, d.batches[i], Previous(d, i), t, f);
    assert t.body == s.body && f == NO_FILTERS;
  }

  lemma {:induction false} Handovers(y: Story, n: nat) returns (hs: seq<Handover>)
    requires Told(y) && UpToDate(y) && n <= |Batches(y)|
    ensures |hs| == n
    ensures forall i :: 0 <= i < n ==>
              && HandoverOk(y.env.itemHash, Runs.FeedArtifacts(Last(y)), Feed(Last(y)), hs[i])
              && hs[i].from == Batches(y)[i].from && hs[i].items == Batches(y)[i].items
                 && |hs[i].body.records| == Batches(y)[i].through
  {
    hide Told, HandoverOk, UpToDate;
    if n == 0 {
      hs := [];
    } else {
      var front := Handovers(y, n - 1);
      var d := BatchHandover(y, n - 1);
      hs := front + [d];
    }
  }

  // The acknowledged batches are an unbroken series of handovers up to the head.
  lemma KeepsUp(y: Story) returns (hs: seq<Handover>)
    requires Told(y) && UpToDate(y)
    ensures KeptUp(y.env.itemHash, Runs.FeedArtifacts(Last(y)), Feed(Last(y)), DeliveredTo(y.ws[|y.ms|], y.id).start,
                   hs)
    ensures |hs| == |Batches(y)| && forall i :: 0 <= i < |hs| ==> hs[i].items == Batches(y)[i].items
  {
    Lengths(y);
    hide HandoverOk, Execution, Runs.Run, KeptUp, FromFeed;
    var u := |y.ms|;
    hs := Handovers(y, |Batches(y)|);
    ExecutionKeeps(y.env, y.ws, y.ms, u);
    var row, d := y.ws[u].consumers[y.id], DeliveredTo(y.ws[u], y.id);
    assert Holds(y.env, row, d, y.ws[u].acks, y.id);
    hide Inv;
    HandoversTile(y.env, row, d, hs);
    TiledKeepUp(y.env.itemHash, Runs.FeedArtifacts(Last(y)), Feed(Last(y)), d.start, hs);
  }

  ghost predicate StartsAtEnd(hs: seq<Handover>, start: nat, i: nat)
    requires i < |hs|
  {
    hs[i].from == if i == 0 then start else |hs[i - 1].body.records|
  }

  lemma TiledKeepUp(ih: ItemHash, artifacts: seq<Artifact>, records: seq<Record>, start: nat, hs: seq<Handover>)
    requires |artifacts| == |records|
    requires forall i :: 0 <= i < |hs| ==> HandoverOk(ih, artifacts, records, hs[i])
    requires forall i :: 0 <= i < |hs| ==> StartsAtEnd(hs, start, i)
    requires (if hs == [] then start else |hs[|hs| - 1].body.records|) == |records|
    ensures KeptUp(ih, artifacts, records, start, hs)
  {
    hide HandoverOk;
    forall i | 0 <= i < |hs| ensures hs[i].from == if i == 0 then start else |hs[i - 1].body.records| {
      assert StartsAtEnd(hs, start, i);
    }
  }

  lemma HandoversTile(env: Env, row: ConsumerRow, d: Delivered, hs: seq<Handover>)
    requires ConsumerOk(env, row, d) && |hs| == |d.batches|
    requires forall i :: 0 <= i < |hs| ==>
               hs[i].from == d.batches[i].from && |hs[i].body.records| == d.batches[i].through
    ensures forall i :: 0 <= i < |hs| ==> StartsAtEnd(hs, d.start, i)
    ensures (if hs == [] then d.start else |hs[|hs| - 1].body.records|) == row.cursor
  {
    hide BatchOk;
    forall i | 0 <= i < |hs| ensures StartsAtEnd(hs, d.start, i) {
      assert LinkOk(env, row, d, i);
    }
  }

  // Eventual consistency, end to end: whatever crashes, recoveries, rollbacks,
  // repeated preparations and acknowledgements lie behind it, the last item that
  // an unfiltered consumer at the head was handed for a skill shows the skill's
  // lifecycle in the head release.
  lemma LastWordIsTrue(y: Story, b: nat, p: nat, skill: Id)
    requires Told(y) && UpToDate(y)
    requires b < |Batches(y)| && p < |Batches(y)[b].items| && Reports(Feed(Last(y)), Batches(y)[b].items[p], skill)
    requires forall a: nat, q: nat :: a < |Batches(y)| && q < |Batches(y)[a].items| && Later(b, p, a, q) ==>
                                        !Reports(Feed(Last(y)), Batches(y)[a].items[q], skill)
    ensures HeadLifecycle(LastArtifact(Runs.FeedArtifacts(Last(y))), skill) == Some(Batches(y)[b].items[p].lifecycle)
  {
    Lengths(y);
    hide KeptUp, Runs.Run, Execution, Reports, UpToDate, Log.Inv, Published;
    var hs := KeepsUp(y);
    var last := Last(y);
    RunKeeps(y.cfg, y.tr, |y.tr| - 1);
    SoundHash(y.env);
    hide Sound;
    Runs.FeedPublished(y.cfg, last);
    NoStalePromotion(y.cfg.h, y.cfg.feedId, y.cfg.base, y.env.itemHash, Runs.FeedArtifacts(last), Feed(last),
                     DeliveredTo(y.ws[|y.ms|], y.id).start, hs, b, p, skill);
  }

  // --- Reads of a growing feed supersede only by what is newer ---

  lemma SameDocuments(cfg: Log.Config, s: Durable, t: Durable)
    requires Injective(cfg.h) && Log.Inv(cfg, s) && Runs.Grows(s, t) && Feed(s) == Feed(t)
    ensures FeedDocuments(s) == FeedDocuments(t)
  {
    var docs := DocsOf(Events(Feed(s)));
    forall id | Named(docs, id) ensures id in s.releases && id in t.releases && s.releases[id] == t.releases[id] {
      var d :| d in docs && d.releaseId == id;
      FeedFilesServed(cfg, s, d);
    }
    hide Log.Inv, Part, DocsOf, Named, Feed;
    SameAssembly(s.releases, t.releases, docs);
  }

  lemma SameAssembly(a: map<Digest, Artifact>, b: map<Digest, Artifact>, docs: set<Doc>)
    requires forall id :: Named(docs, id) ==> id in a && id in b && a[id] == b[id]
    ensures Assembled(a, docs) == Assembled(b, docs)
  {
    hide Part, Named;
  }

  lemma SameHead(cfg: Log.Config, tr: seq<Durable>, t: nat, u: nat)
    requires Injective(cfg.h) && Runs.Run(cfg, tr) && t <= u < |tr| && tr[t].head.Some? && tr[u].head.Some?
    requires HeadSequence(tr[t]) == HeadSequence(tr[u])
    ensures Feed(tr[t]) == Feed(tr[u]) && FeedDocuments(tr[t]) == FeedDocuments(tr[u])
    ensures tr[t].head.value.releaseId == tr[u].head.value.releaseId
  {
    hide Log.Inv, Injective, Log.Step, FeedDocuments, Runs.Grows;
    RunKeeps(cfg, tr, 0);
    RunKeeps(cfg, tr, t);
    RunKeeps(cfg, tr, u);
    Runs.WritesGrow(cfg, tr, t, u);
    hide Runs.Run, Runs.Writes;
    FeedAndArtifactsGrow(cfg, tr, t, u);
    assert Feed(tr[t]) == Feed(tr[u]);
    Runs.FeedHeadLast(cfg, tr[t]);
    Runs.FeedHeadLast(cfg, tr[u]);
    SameDocuments(cfg, tr[t], tr[u]);
  }

  lemma LaterReadExtends(y: Story, t: nat, u: nat, a: FeedSnapshot, b: FeedSnapshot)
    requires Told(y) && t <= u < |y.tr| && ReadAt(y, a, t) && ReadAt(y, b, u)
    ensures Extends(a, b)
  {
    SoundHash(y.env);
    hide Execution, Sound, Injective, FeedDocuments, FromFeed, Runs.Run;
    FeedAndArtifactsGrow(y.cfg, y.tr, t, u);
    if HeadSequence(y.tr[t]) == HeadSequence(y.tr[u]) {
      SameHead(y.cfg, y.tr, t, u);
    }
  }

  // A consumer that reads the publisher's feed, one read after the other, never
  // acknowledges a batch that a newer one has superseded.
  lemma SupersededOnFeed(y: Story, times: seq<nat>, i: nat, t: nat)
    requires Told(y) && |times| == |y.ms|
    requires forall k :: 0 <= k < |y.ms| && SavesFor(y.ms[k], y.id) ==>
               times[k] < |y.tr| && ReadAt(y, y.ms[k].snapshot, times[k])
    requires forall j, k :: 0 <= j < k < |times| ==> times[j] <= times[k]
    requires i < t < |y.ws| && i < |y.ms| && SavesFor(y.ms[i], y.id) && y.id in y.ws[i].pending
    ensures (y.id, y.ws[i].pending[y.id].batchId) !in y.ws[t].acks
    ensures y.id in y.ws[t].pending ==> y.ws[t].pending[y.id].batchId != y.ws[i].pending[y.id].batchId
  {
    hide Execution, Sound, ReadAt, Runs.Run;
    forall j, k | 0 <= j < k < |y.ms| && SavesFor(y.ms[j], y.id) && SavesFor(y.ms[k], y.id)
      ensures Extends(y.ms[j].snapshot, y.ms[k].snapshot)
    {
      LaterReadExtends(y, times[j], times[k], y.ms[j].snapshot, y.ms[k].snapshot);
    }
    SupersededNever(y.env, y.ws, y.ms, y.id, i, t);
  }
}
