/** The lock-free feed reader (FeedReader.read_snapshot in
    src/hwskill/sharing/feed_reader.py). Every request of a read happens at its own
    instant of the publisher's run; the result is the feed at the first of them. */
module Reader {
  import opened Options
  import opened Documents
  import opened FeedCheck
  import opened Agreement
  import opened Store
  import opened PublisherLog
  import opened PublisherRuns

  // The files that a snapshot's documents come from.
  datatype File = CatalogJson | AdviceJson | InstallJson(skillId: Id)

  datatype Doc = Doc(releaseId: Digest, file: File)

  function MachineDocs(u: Url): set<Doc> {
    match u.target
    case InstallOf(id) => {Doc(u.releaseId, InstallJson(id))}
    case RecommendationsFile => {Doc(u.releaseId, AdviceJson)}
    case PageOf(_) => {}
  }

  // The URLs that one event adds to the reader's set.
  function EventDocs(e: Event): set<Doc> {
    var id := e.machineUrl.releaseId;
    MachineDocs(e.machineUrl) + {Doc(id, CatalogJson)} + set k | k in e.skillIds :: Doc(id, InstallJson(k))
  }

  function DocsOf(events: seq<Event>): set<Doc> {
    if events == [] then {} else DocsOf(events[..|events| - 1]) + EventDocs(events[|events| - 1])
  }

  predicate HasFile(a: Artifact, f: File) {
    f.InstallJson? ==> f.skillId in a.installs
  }

  // The parsed file joins what was read of its release.
  function WithFile(d: Artifact, f: File, a: Artifact): Artifact
    requires HasFile(a, f)
  {
    match f
    case CatalogJson => d.(sourceCommit := a.sourceCommit, catalog := a.catalog)
    case AdviceJson => d.(recommendations := a.recommendations)
    case InstallJson(id) => d.(installs := d.installs[id := a.installs[id]])
  }

  // The part of a release that a set of files holds.
  ghost function Part(a: Artifact, docs: set<Doc>, id: Digest): Artifact {
    var listed := Doc(id, CatalogJson) in docs;
    Artifact(if listed then a.sourceCommit else "", if listed then a.catalog else [],
             if Doc(id, AdviceJson) in docs then a.recommendations else [],
             map k | k in a.installs && Doc(id, InstallJson(k)) in docs :: a.installs[k], map[], None)
  }

  ghost predicate Named(docs: set<Doc>, id: Digest) {
    exists d :: d in docs && d.releaseId == id
  }

  ghost function Assembled(releases: map<Digest, Artifact>, docs: set<Doc>): map<Digest, Artifact> {
    map id | id in releases && Named(docs, id) :: Part(releases[id], docs, id)
  }

  function DocumentOf(documents: map<Digest, Artifact>, id: Digest): Artifact {
    if id in documents then documents[id] else EMPTY_ARTIFACT
  }

  lemma PartUnnamed(a: Artifact, docs: set<Doc>, id: Digest)
    requires !Named(docs, id)
    ensures Part(a, docs, id) == EMPTY_ARTIFACT
  {
    assert forall f: File :: Doc(id, f) in docs ==> Named(docs, Doc(id, f).releaseId);
  }

  lemma PartStep(a: Artifact, docs: set<Doc>, d: Doc)
    requires HasFile(a, d.file)
    ensures Part(a, docs + {d}, d.releaseId) == WithFile(Part(a, docs, d.releaseId), d.file, a)
  {
    assert Part(a, docs + {d}, d.releaseId).installs == WithFile(Part(a, docs, d.releaseId), d.file, a).installs;
  }

  lemma PartOther(a: Artifact, docs: set<Doc>, d: Doc, id: Digest)
    requires d.releaseId != id
    ensures Named(docs + {d}, id) <==> Named(docs, id)
    ensures Part(a, docs + {d}, id) == Part(a, docs, id)
  {
    if x :| x in docs && x.releaseId == id {
      assert x in docs + {d};
    }
  }

  lemma AssembleStep(releases: map<Digest, Artifact>, docs: set<Doc>, d: Doc)
    requires d.releaseId in releases && HasFile(releases[d.releaseId], d.file)
    ensures var before := Assembled(releases, docs);
            Assembled(releases, docs + {d}) ==
            before[d.releaseId := WithFile(DocumentOf(before, d.releaseId), d.file, releases[d.releaseId])]
  {
    assert Named(docs + {d}, d.releaseId) by {
      assert d in docs + {d};
    }
    hide Part, WithFile, Named;
    PartStep(releases[d.releaseId], docs, d);
    if !Named(docs, d.releaseId) {
      PartUnnamed(releases[d.releaseId], docs, d.releaseId);
    }
    forall id | id in releases && id != d.releaseId
      ensures Named(docs + {d}, id) <==> Named(docs, id)
      ensures Part(releases[id], docs + {d}, id) == Part(releases[id], docs, id)
    {
      PartOther(releases[id], docs, d, id);
    }
  }

  lemma NothingAssembled(releases: map<Digest, Artifact>)
    ensures Assembled(releases, {}) == map[]
  {
  }

  lemma {:induction false} DocsMember(events: seq<Event>, i: nat)
    requires i < |events|
    ensures EventDocs(events[i]) <= DocsOf(events)
  {
    if i < |events| - 1 {
      DocsMember(events[..|events| - 1], i);
    }
  }

  lemma {:induction false} DocsSource(events: seq<Event>, d: Doc) returns (i: nat)
    requires d in DocsOf(events)
    ensures i < |events| && d in EventDocs(events[i])
  {
    if d in EventDocs(events[|events| - 1]) {
      i := |events| - 1;
    } else {
      i := DocsSource(events[..|events| - 1], d);
    }
  }

  lemma DocsAppend(events: seq<Event>, e: Event)
    ensures DocsOf(events + [e]) == DocsOf(events) + EventDocs(e)
  {
    assert (events + [e])[..|events|] == events;
  }

  // The loop over the events that gathers the reader's URLs.
  method DocumentUrls(records: seq<Record>) returns (urls: set<Doc>)
    ensures urls == DocsOf(Events(records))
  {
    hide DocsOf, EventDocs;
    urls := {};
    ghost var front: seq<Record> := [];
    NoDocs();
    for i := 0 to |records|
      invariant front == records[..i] && urls == DocsOf(Events(front))
    {
      var r := records[i];
      ghost var log := Events(front);
      assert log + r.events[..0] == log;
      for j := 0 to |r.events|
        invariant urls == DocsOf(log + r.events[..j])
      {
        DocsAppend(log + r.events[..j], r.events[j]);
        assert log + r.events[..j + 1] == (log + r.events[..j]) + [r.events[j]];
        urls := urls + EventDocs(r.events[j]);
      }
      assert r.events[..|r.events|] == r.events;
      EventsAppend(front, r);
      TakeNext(records, i);
      front := front + [r];
    }
    assert front == records;
  }

  lemma NoDocs()
    ensures DocsOf(Events([])) == {}
  {
  }

  // --- The publisher's feed has every file that is asked for ---

  lemma FeedEventServed(cfg: Config, s: Durable, i: nat) returns (e: Event)
    requires Injective(cfg.h) && Inv(cfg, s) && i < |Events(Feed(s))|
    ensures e == Events(Feed(s))[i] && e.feedId == cfg.feedId
    ensures e.machineUrl == Url(cfg.base, e.releaseId, MachineFor(SubjectOf(e))) && e.releaseId in s.releases
    ensures forall d :: d in EventDocs(e) ==> d.releaseId == e.releaseId && HasFile(s.releases[e.releaseId], d.file)
  {
    hide Inv;
    var k, j := EventPlace(Feed(s), i);
    e := Feed(s)[k].events[j];
    FeedServed(cfg, s, k, j);
    FeedPublished(cfg, s);
    PublishedAccepted(cfg.h, cfg.feedId, cfg.base, FeedArtifacts(s), Feed(s));
    LogOkAt(cfg.h, cfg.base, cfg.feedId, Feed(s), k);
    AllOkAt(cfg.h, cfg.feedId, Events(Feed(s)[..k]), Feed(s)[k].events, j);
    var r := Feed(s)[k];
    PublishedSubjects(cfg.h, cfg.feedId, cfg.base, FeedArtifacts(s), SnapshotBody(Head(0, 0), Feed(s), s.releases));
    assert SubjectOk(cfg.h, s.releases, r, e);
    assert PlacedOk(cfg.base, e, r, k + 1);
    EventFiles(cfg.h, cfg.base, s.releases, r, e);
  }

  lemma EventFiles(h: Hash, base: string, releases: map<Digest, Artifact>, r: Record, e: Event)
    requires ReferenceOk(base, e) && SubjectOk(h, releases, r, e)
    ensures forall d :: d in EventDocs(e) ==> d.releaseId == e.releaseId && HasFile(releases[e.releaseId], d.file)
  {
    var a := releases[e.releaseId];
    forall k | k in e.skillIds ensures k in a.installs {
      if !IsSkillKind(e.kind) {
        var i :| 0 <= i < |e.skillIds| && e.skillIds[i] == k;
        assert AdvisedSkillOk(h, a, e, e.skillIds[i]);
      }
    }
  }

  // Where an event of the log stands in its records.
  lemma {:induction false} EventPlace(records: seq<Record>, i: nat) returns (k: nat, j: nat)
    requires i < |Events(records)|
    ensures k < |records| && j < |records[k].events| && records[k].events[j] == Events(records)[i]
  {
    var n := |records| - 1;
    if i < |Events(records[..n])| {
      k, j := EventPlace(records[..n], i);
    } else {
      k, j := n, i - |Events(records[..n])|;
    }
  }

  lemma {:induction false} EventsMonotone(records: seq<Record>, k: nat)
    requires k <= |records|
    ensures |Events(records[..k])| <= |Events(records)|
    decreases |records|
  {
    if k < |records| {
      var front := records[..|records| - 1];
      EventsMonotone(front, k);
      assert front[..k] == records[..k];
    } else {
      assert records[..k] == records;
    }
  }

  lemma FeedFilesServed(cfg: Config, s: Durable, d: Doc)
    requires Injective(cfg.h) && Inv(cfg, s) && d in DocsOf(Events(Feed(s)))
    ensures d.releaseId in s.releases && HasFile(s.releases[d.releaseId], d.file)
  {
    hide Inv, Feed, EventDocs, DocsOf, HasFile;
    var i := DocsSource(Events(Feed(s)), d);
    var e := FeedEventServed(cfg, s, i);
  }

  // --- The snapshot ---

  function FeedIds(events: seq<Event>): set<string> {
    set e | e in events :: e.feedId
  }

  lemma OneFeedId(cfg: Config, s: Durable)
    requires Injective(cfg.h) && Inv(cfg, s)
    ensures FeedIds(Events(Feed(s))) == if Events(Feed(s)) == [] then {} else {cfg.feedId}
  {
    hide Inv, Feed, EventDocs, HasFile;
    var events := Events(Feed(s));
    forall i | 0 <= i < |events| ensures events[i].feedId == cfg.feedId {
      var e := FeedEventServed(cfg, s, i);
    }
    if events != [] {
      assert events[0] in events;
    }
  }

  ghost function FeedDocuments(s: Durable): map<Digest, Artifact> {
    Assembled(s.releases, DocsOf(Events(Feed(s))))
  }

  lemma DocumentsServe(cfg: Config, s: Durable)
    requires Injective(cfg.h) && Inv(cfg, s)
    ensures Serves(FeedDocuments(s), FeedArtifacts(s), Feed(s))
  {
    hide Inv;
    forall i, j | 0 <= i < |Feed(s)| && 0 <= j < |Feed(s)[i].events|
      ensures Carries(FeedDocuments(s), FeedArtifacts(s)[i], Feed(s)[i].events[j])
    {
      EventCarried(cfg, s, i, j);
    }
  }

  lemma EventCarried(cfg: Config, s: Durable, i: nat, j: nat)
    requires Injective(cfg.h) && Inv(cfg, s) && i < HeadSequence(s) && j < |Feed(s)[i].events|
    ensures Carries(FeedDocuments(s), FeedArtifacts(s)[i], Feed(s)[i].events[j])
  {
    hide Inv, Part;
    var e, docs := Feed(s)[i].events[j], DocsOf(Events(Feed(s)));
    FeedServed(cfg, s, i, j);
    EventsMember(Feed(s), i, e);
    var p :| 0 <= p < |Events(Feed(s))| && Events(Feed(s))[p] == e;
    DocsMember(Events(Feed(s)), p);
    var _ := FeedEventServed(cfg, s, p);
    assert Doc(e.releaseId, CatalogJson) in EventDocs(e);
    PartCarries(cfg, s, docs, i, j, e);
  }

  lemma PartCarries(cfg: Config, s: Durable, docs: set<Doc>, i: nat, j: nat, e: Event)
    requires e.releaseId in s.releases && EventDocs(e) <= docs
        && e.machineUrl == Url(cfg.base, e.releaseId, MachineFor(SubjectOf(e)))
    requires i < HeadSequence(s) && s.releases[e.releaseId] == FeedArtifacts(s)[i]
    ensures Carries(Assembled(s.releases, docs), FeedArtifacts(s)[i], e)
  {
    var d := Doc(e.releaseId, CatalogJson);
    assert d in EventDocs(e);
    assert Named(docs, d.releaseId);
    forall k | k in e.skillIds ensures Doc(e.releaseId, InstallJson(k)) in docs {
      assert Doc(e.releaseId, InstallJson(k)) in EventDocs(e);
    }
  }

  // The instants of the requests of one read, in a run of n states.
  ghost predicate Schedule(n: nat, when: nat -> nat) {
    && n > 0
    && (forall i: nat :: when(i) < n)
    && (forall i: nat, j: nat :: i < j ==> when(i) <= when(j))
  }

  // Every request of the read sees what was there at its first.
  ghost predicate Kept(s: Durable, tr: seq<Durable>, when: nat -> nat) {
    forall i: nat :: when(i) < |tr| && Grows(s, tr[when(i)])
  }

  lemma KeptFromHead(cfg: Config, tr: seq<Durable>, when: nat -> nat)
    requires Schedule(|tr|, when) && Writes(cfg, tr) && Inv(cfg, tr[0])
    ensures Inv(cfg, tr[when(0)]) && Kept(tr[when(0)], tr, when)
  {
    hide Inv, Step, Grows;
    WritesKeep(cfg, tr, when(0));
    forall i: nat ensures when(i) < |tr| && Grows(tr[when(0)], tr[when(i)]) {
      assert i > 0 ==> when(0) <= when(i);
      WritesGrow(cfg, tr, when(0), when(i));
    }
  }

  class FeedReader {
    const h: Hash
    const identify: SnapshotHash
    const base: string
    const expectedFeedId: string  // empty when the caller expects none
    const maxRecords: nat
    const maxEvents: nat
    const maxRequests: nat
    var requestCount: nat

    constructor (h: Hash, identify: SnapshotHash, base: string, expectedFeedId: string, maxRecords: nat,
                 maxEvents: nat, maxRequests: nat)
      ensures this.h == h && this.identify == identify && this.base == base && this.expectedFeedId == expectedFeedId
      ensures this.maxRecords == maxRecords && this.maxEvents == maxEvents && this.maxRequests == maxRequests
      ensures requestCount == 0
    {
      this.h, this.identify, this.base, this.expectedFeedId := h, identify, base, expectedFeedId;
      this.maxRecords, this.maxEvents, this.maxRequests := maxRecords, maxEvents, maxRequests;
      requestCount := 0;
    }

    // The feed identity that a snapshot of the publisher's state is given.
    ghost function FeedIdAt(cfg: Config, s: Durable): string {
      if expectedFeedId != "" then expectedFeedId else if Events(Feed(s)) == [] then "" else cfg.feedId
    }

    ghost function SnapshotAt(cfg: Config, s: Durable): FeedSnapshot
      requires s.head.Some?
    {
      var body := SnapshotBody(Head(HeadSequence(s), s.head.value.releaseId), Feed(s), FeedDocuments(s));
      FeedSnapshot(base, FeedIdAt(cfg, s), body, identify(body))
    }

    ghost predicate WithinLimits(s: Durable) {
      && HeadSequence(s) <= maxRecords
      && |Events(Feed(s))| <= maxEvents
      && 1 + HeadSequence(s) + |DocsOf(Events(Feed(s)))| <= maxRequests
    }

    // What the reader accepts of a publisher's state: a committed feed within its
    // limits, with an event that says whose feed it is or an identity to expect.
    ghost predicate Readable(cfg: Config, s: Durable) {
      && s.head.Some?
      && WithinLimits(s)
      && !Blank(FeedIdAt(cfg, s))
      && (Events(Feed(s)) == [] || FeedIdAt(cfg, s) == cfg.feedId)
    }

    lemma SnapshotValid(cfg: Config, s: Durable)
      requires cfg.h == h && cfg.base == base && Injective(h) && Inv(cfg, s) && s.head.Some?
      ensures Accepted(h, identify, SnapshotAt(cfg, s), true) <==>
              !Blank(FeedIdAt(cfg, s)) && (Events(Feed(s)) == [] || FeedIdAt(cfg, s) == cfg.feedId)
    {
      hide Inv, Accepted, Blank, Published, Serves;
      FeedPublished(cfg, s);
      DocumentsServe(cfg, s);
      FeedHeadLast(cfg, s);
      SnapshotAccepted(h, identify, cfg.feedId, FeedArtifacts(s), SnapshotAt(cfg, s));
    }

    // The check before the documents are read asks for less.
    lemma ProvisionalValid(body: SnapshotBody, documents: map<Digest, Artifact>, feedId: string, identity: Digest,
                           other: Digest)
      requires Accepted(h, identify, FeedSnapshot(base, feedId, body.(documents := documents), identity), true)
      ensures Accepted(h, identify, FeedSnapshot(base, feedId, body, other), false)
    {
    }

    method Request() returns (ok: bool)
      modifies this
      ensures ok <==> old(requestCount) < maxRequests
      ensures requestCount == old(requestCount) + if ok then 1 else 0
    {
      ok := requestCount < maxRequests;
      if ok {
        requestCount := requestCount + 1;
      }
    }

    // records/1.json .. records/n.json
    method ReadRecords(tr: seq<Durable>, when: nat -> nat, n: nat, ghost s: Durable) returns (r: Option<seq<Record>>)
      requires Kept(s, tr, when) && requestCount == 1
      requires forall k :: 1 <= k <= n ==> k in s.records
      modifies this
      ensures r.Some? ==> r.value == Prefix(s.records, n) && requestCount == 1 + n
      ensures r.Some? <==> |Events(Prefix(s.records, n))| <= maxEvents && 1 + n <= maxRequests
    {
      hide Grows;
      var acquired: seq<Record> := [];
      var eventCount := 0;
      for k := 1 to n + 1
        invariant acquired == Prefix(s.records, n)[..k - 1]
        invariant eventCount == |Events(acquired)|
        invariant k > 1 ==> eventCount <= maxEvents
        invariant requestCount == k && (k > 1 ==> k <= maxRequests)
      {
        EventsMonotone(Prefix(s.records, n), k);
        TakeNext(Prefix(s.records, n), k - 1);
        var ok := Request();
        if !ok {
          return None;
        }
        RecordKept(s, tr, when, k);
        var record := tr[when(requestCount - 1)].records[k];
        EventsAppend(acquired, record);
        acquired := acquired + [record];
        eventCount := eventCount + |record.events|;
        if eventCount > maxEvents {
          return None;
        }
      }
      assert acquired == Prefix(s.records, n);
      if n == 0 {
        return if maxRequests >= 1 then Some(acquired) else None;
      }
      r := Some(acquired);
    }

    lemma RecordKept(s: Durable, tr: seq<Durable>, when: nat -> nat, k: nat)
      requires Kept(s, tr, when) && k in s.records
      ensures when(k) < |tr| && k in tr[when(k)].records && tr[when(k)].records[k] == s.records[k]
    {
      assert Grows(s, tr[when(k)]);
    }

    lemma ReleaseKept(s: Durable, tr: seq<Durable>, when: nat -> nat, i: nat, id: Digest)
      requires Kept(s, tr, when) && id in s.releases
      ensures when(i) < |tr| && id in tr[when(i)].releases && tr[when(i)].releases[id] == s.releases[id]
    {
      assert Grows(s, tr[when(i)]);
    }

    method ReadFile(tr: seq<Durable>, when: nat -> nat, d: Doc, documents: map<Digest, Artifact>,
                    ghost done: set<Doc>, ghost s: Durable)
      returns (r: Option<map<Digest, Artifact>>)
      requires Kept(s, tr, when) && documents == Assembled(s.releases, done)
      requires d.releaseId in s.releases && HasFile(s.releases[d.releaseId], d.file)
      modifies this
      ensures r == if old(requestCount) < maxRequests then Some(Assembled(s.releases, done + {d})) else None
      ensures r.Some? ==> requestCount == old(requestCount) + 1
    {
      hide Kept, Assembled, WithFile, HasFile, Grows;
      var ok := Request();
      if !ok {
        return None;
      }
      ReleaseKept(s, tr, when, requestCount - 1, d.releaseId);
      AssembleStep(s.releases, done, d);
      var release := tr[when(requestCount - 1)].releases[d.releaseId];
      r := Some(documents[d.releaseId := WithFile(DocumentOf(documents, d.releaseId), d.file, release)]);
    }

    // The release files, in any order.
    method ReadDocuments(tr: seq<Durable>, when: nat -> nat, docs: set<Doc>, ghost s: Durable)
      returns (r: Option<map<Digest, Artifact>>)
      requires Kept(s, tr, when) && requestCount <= maxRequests
      requires forall d :: d in docs ==> d.releaseId in s.releases && HasFile(s.releases[d.releaseId], d.file)
      modifies this
      ensures r == if old(requestCount) + |docs| <= maxRequests then Some(Assembled(s.releases, docs)) else None
    {
      hide Kept, Assembled, WithFile, HasFile, Grows;
      NothingAssembled(s.releases);
      var todo := docs;
      var documents: map<Digest, Artifact> := map[];
      assert docs - todo == {};
      while todo != {}
        invariant todo <= docs
        invariant requestCount + |todo| == old(requestCount) + |docs| && requestCount <= maxRequests
        invariant documents == Assembled(s.releases, docs - todo)
        decreases todo
      {
        var d :| d in todo;
        var read := ReadFile(tr, when, d, documents, docs - todo, s);
        if read.None? {
          return None;
        }
        assert docs - (todo - {d}) == (docs - todo) + {d};
        documents, todo := read.value, todo - {d};
      }
      assert docs - todo == docs;
      r := Some(documents);
    }

    method ResolveFeedId(records: seq<Record>) returns (feedId: string)
      ensures expectedFeedId != "" ==> feedId == expectedFeedId
      ensures expectedFeedId == "" ==> forall id :: FeedIds(Events(records)) == {id} ==> feedId == id
      ensures expectedFeedId == "" && FeedIds(Events(records)) == {} ==> feedId == ""
    {
      if expectedFeedId != "" {
        return expectedFeedId;
      }
      var ids := FeedIds(Events(records));
      if |ids| == 1 {
        feedId :| feedId in ids;
      } else {
        feedId := "";
      }
    }

    // Lock-free readers linearise: whatever the publishers do between the requests
    // of one read, it ends with the feed that was committed when the head was read,
    // or is refused by what was committed then.
    method ReadSnapshot(ghost cfg: Config, tr: seq<Durable>, when: nat -> nat) returns (r: Option<FeedSnapshot>)
      requires cfg.h == h && cfg.base == base && Injective(h)
      requires Schedule(|tr|, when) && Writes(cfg, tr) && Inv(cfg, tr[0]) && maxRequests >= 1
      modifies this
      ensures r.Some? <==> Readable(cfg, tr[when(0)])
      ensures r.Some? ==> r.value == SnapshotAt(cfg, tr[when(0)])
    {
      hide Inv, Step, Writes, Accepted, Blank, FeedDocuments, Kept;
      ghost var s := tr[when(0)];
      KeptFromHead(cfg, tr, when);
      requestCount := 0;
      var _ := Request();
      var found := tr[when(0)].head;
      if found.None? || found.value.sequence > maxRecords {
        return None;
      }
      var head := Head(found.value.sequence, found.value.releaseId);
      RecordsPresent(cfg, s);
      var records := ReadRecords(tr, when, found.value.sequence, s);
      if records.None? {
        return None;
      }
      OneFeedId(cfg, s);
      var feedId := ResolveFeedId(records.value);
      SnapshotValid(cfg, s);
      if Accepted(h, identify, SnapshotAt(cfg, s), true) {
        ProvisionalValid(SnapshotBody(head, records.value, map[]), FeedDocuments(s), feedId,
                         SnapshotAt(cfg, s).identity, 0);
      }
      var provisional := ValidateSnapshot(h, identify,
                                          FeedSnapshot(base, feedId, SnapshotBody(head, records.value, map[]), 0),
                                          false);
      if !provisional {
        return None;
      }
      var docs := DocumentUrls(records.value);
      forall d | d in docs ensures d.releaseId in s.releases && HasFile(s.releases[d.releaseId], d.file) {
        FeedFilesServed(cfg, s, d);
      }
      var documents := ReadDocuments(tr, when, docs, s);
      if documents.None? {
        return None;
      }
      FeedDocumentsAt(s);
      var body := SnapshotBody(head, records.value, documents.value);
      var snapshot := FeedSnapshot(base, feedId, body, identify(body));
      var ok := ValidateSnapshot(h, identify, snapshot, true);
      r := if ok then Some(snapshot) else None;
    }
  }

  lemma FeedDocumentsAt(s: Durable)
    ensures FeedDocuments(s) == Assembled(s.releases, DocsOf(Events(Feed(s))))
  {
  }

  // A snapshot read later extends every snapshot read before.
  lemma LaterReadsExtend(cfg: Config, a: FeedReader, b: FeedReader, tr: seq<Durable>, i: nat, j: nat)
    requires i <= j < |tr| && Writes(cfg, tr) && Inv(cfg, tr[0]) && tr[i].head.Some? && tr[j].head.Some?
    ensures a.SnapshotAt(cfg, tr[i]).body.records <= b.SnapshotAt(cfg, tr[j]).body.records
  {
    hide Inv, Writes;
    FeedGrows(cfg, tr, i, j);
  }
}
