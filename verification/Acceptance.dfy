/** What acceptance of a snapshot tells a consumer, event by event, and how much an
    event ID commits to (src/hwskill/sharing/v1.py and src/hwskill/sharing/v2.py). */
module Acceptance {
  import opened Options
  import opened Documents
  import opened Artifacts
  import opened FeedCheck

  // --- The log as one sequence of events ---

  // The legal courses of a subject: what its first event may be, and what may follow what.
  const OPENINGS := {SkillAdded, SkillWithdrawn, RecommendationPublished}
  const SUCCESSIONS := {(SkillAdded, SkillUpdated), (SkillAdded, SkillWithdrawn), (SkillUpdated, SkillUpdated),
                        (SkillUpdated, SkillWithdrawn), (SkillWithdrawn, SkillUpdated),
                        (RecommendationPublished, RecommendationWithdrawn)}

  // Event p is the last one before n about n's subject.
  ghost predicate Precedes(log: seq<Event>, p: nat, n: nat)
    requires n < |log|
  {
    p < n && SubjectOf(log[p]) == SubjectOf(log[n])
    && forall q :: p < q < n ==> SubjectOf(log[q]) != SubjectOf(log[n])
  }

  ghost predicate Opens(log: seq<Event>, n: nat)
    requires n < |log|
  {
    forall q :: 0 <= q < n ==> SubjectOf(log[q]) != SubjectOf(log[n])
  }

  function IdFor(h: Hash, e: Event, previous: Option<Digest>): Digest {
    h(EventIdentity(e.feedId, e.kind, e.subjectId, e.revision, previous))
  }

  // Event n hashes its subject's event before it, and is a legal change from it.
  ghost predicate Stands(h: Hash, feedId: string, log: seq<Event>, n: nat)
    requires n < |log|
  {
    && log[n].feedId == feedId
    && (forall p :: 0 <= p < n ==> log[p].id != log[n].id)
    && (Opens(log, n) ==> log[n].kind in OPENINGS && log[n].id == IdFor(h, log[n], None))
    && (forall p: nat :: Precedes(log, p, n) ==>
          && (log[p].kind, log[n].kind) in SUCCESSIONS
          && log[p].revision != log[n].revision
          && log[n].id == IdFor(h, log[n], Some(log[p].id)))
  }

  lemma {:induction false} HistoryIs(log: seq<Event>, n: nat)
    requires n < |log|
    ensures Opens(log, n) <==> SubjectOf(log[n]) !in History(log[..n])
    ensures forall p: nat :: Precedes(log, p, n) ==>
              Lookup(History(log[..n]), SubjectOf(log[n])) == Some(LastOf(log[p]))
    ensures !Opens(log, n) ==> exists p: nat :: Precedes(log, p, n)
  {
    LastIs(log, n, SubjectOf(log[n]));
    if !Opens(log, n) {
      var p :| 0 <= p < n && SubjectOf(log[p]) == SubjectOf(log[n])
               && forall q :: p < q < n ==> SubjectOf(log[q]) != SubjectOf(log[n]);
      assert Precedes(log, p, n);
    }
  }

  lemma {:induction false} LastIs(log: seq<Event>, n: nat, s: Subject)
    requires n <= |log|
    ensures s !in History(log[..n]) ==> forall q :: 0 <= q < n ==> SubjectOf(log[q]) != s
    ensures s in History(log[..n]) ==>
              exists p :: 0 <= p < n && SubjectOf(log[p]) == s && History(log[..n])[s] == LastOf(log[p])
                          && forall q :: p < q < n ==> SubjectOf(log[q]) != s
  {
    if n > 0 {
      assert log[..n][..n - 1] == log[..n - 1];
      LastIs(log, n - 1, s);
      if SubjectOf(log[n - 1]) != s && s in History(log[..n]) {
        var p :| 0 <= p < n - 1 && SubjectOf(log[p]) == s && History(log[..n - 1])[s] == LastOf(log[p])
                 && forall q :: p < q < n - 1 ==> SubjectOf(log[q]) != s;
        assert forall q :: p < q < n ==> SubjectOf(log[q]) != s;
      }
    }
  }

  lemma StandsIff(h: Hash, feedId: string, log: seq<Event>, n: nat)
    requires n < |log|
    ensures EventOk(h, feedId, log[..n], log[n]) <==> Stands(h, feedId, log, n)
  {
    HistoryIs(log, n);
    IdsMember(log[..n], log[n].id);
    assert forall p :: 0 <= p < n ==> log[..n][p] == log[p];
  }

  lemma {:induction false} AllOkSplit(h: Hash, feedId: string, before: seq<Event>, events: seq<Event>)
    ensures AllOk(h, feedId, [], before + events) <==> AllOk(h, feedId, [], before) && AllOk(h, feedId, before, events)
    decreases |events|
  {
    if events == [] {
      assert before + events == before;
    } else {
      var front, e := events[..|events| - 1], events[|events| - 1];
      AllOkSplit(h, feedId, before, front);
      assert before + events == (before + front) + [e] && front + [e] == events;
      hide EventOk;
      EventStep(h, feedId, [], before + front, e);
      assert [] + (before + front) == before + front;
    }
  }

  lemma {:induction false} AllStand(h: Hash, feedId: string, log: seq<Event>)
    ensures AllOk(h, feedId, [], log) <==> forall n :: 0 <= n < |log| ==> Stands(h, feedId, log, n)
  {
    hide Stands, EventOk;
    if AllOk(h, feedId, [], log) {
      forall n | 0 <= n < |log| ensures Stands(h, feedId, log, n) {
        AllOkAt(h, feedId, [], log, n);
        assert [] + log[..n] == log[..n];
        StandsIff(h, feedId, log, n);
      }
    }
    if forall n :: 0 <= n < |log| ==> Stands(h, feedId, log, n) {
      AllStandOk(h, feedId, log, |log|);
      assert log[..|log|] == log;
    }
  }

  lemma {:induction false} AllStandOk(h: Hash, feedId: string, log: seq<Event>, n: nat)
    requires n <= |log| && forall k :: 0 <= k < |log| ==> Stands(h, feedId, log, k)
    ensures AllOk(h, feedId, [], log[..n])
  {
    hide Stands, EventOk;
    if n > 0 {
      AllStandOk(h, feedId, log, n - 1);
      StandsIff(h, feedId, log, n - 1);
      TakeNext(log, n - 1);
      EventStep(h, feedId, [], log[..n - 1], log[n - 1]);
      assert [] + log[..n - 1] == log[..n - 1];
    }
  }

  // A record at position i, and where its events say they are.
  ghost predicate Filed(base: string, records: seq<Record>, i: nat)
    requires i < |records|
  {
    && records[i].previousSequence == (if i == 0 then None else Some(i))
    && (forall j :: 0 <= j < i ==> records[j].releaseId != records[i].releaseId)
    && (forall j, k :: 0 <= j < k < |records[i].events| ==> records[i].events[j].id < records[i].events[k].id)
    && (forall e :: e in records[i].events ==> FiledIn(base, records[i], i + 1, e))
  }

  ghost predicate FiledIn(base: string, r: Record, index: nat, e: Event) {
    && e.sequence == index && e.releaseId == r.releaseId && e.publishedAt == r.publicationTime
    && (IsSkillKind(e.kind) ==>
          && e.skillIds == [e.subjectId]
          && e.machineUrl == Url(base, r.releaseId, InstallOf(e.subjectId))
          && e.pageUrl == Url(base, r.releaseId, PageOf(SkillPage(e.subjectId))))
    && (!IsSkillKind(e.kind) ==>
          && e.machineUrl == Url(base, r.releaseId, RecommendationsFile)
          && e.pageUrl == Url(base, r.releaseId, PageOf(RecommendationPage(e.subjectId))))
  }

  lemma {:induction false} ReleaseIdsMember(records: seq<Record>, id: Digest)
    ensures id in ReleaseIds(records) <==> exists i :: 0 <= i < |records| && records[i].releaseId == id
  {
    if records != [] {
      var front := records[..|records| - 1];
      ReleaseIdsMember(front, id);
      if i :| 0 <= i < |records| && records[i].releaseId == id {
        assert i < |front| ==> front[i].releaseId == id;
      }
      if i :| 0 <= i < |front| && front[i].releaseId == id {
        assert records[i].releaseId == id;
      }
    }
  }

  // The records one by one, and their events as one log.
  lemma {:induction false} LogSplits(h: Hash, base: string, feedId: string, records: seq<Record>)
    ensures LogOk(h, base, feedId, records) <==>
              && (forall i :: 0 <= i < |records| ==> RecordFiled(base, records, i))
              && AllOk(h, feedId, [], Events(records))
  {
    if records == [] {
      assert AllOk(h, feedId, [], []);
    } else {
      hide RecordFiled, RecordOk, AllOk, LogOk, Events, ReleaseIds;
      var front, r := records[..|records| - 1], records[|records| - 1];
      LogSplits(h, base, feedId, front);
      AllOkSplit(h, feedId, Events(front), r.events);
      assert front + [r] == records;
      RecordStep(h, base, feedId, front, r);
      OneMoreFiled(base, front, r);
    }
  }

  lemma OneMoreFiled(base: string, front: seq<Record>, r: Record)
    ensures var records := front + [r];
            (forall i :: 0 <= i < |records| ==> RecordFiled(base, records, i)) <==>
            && (forall i :: 0 <= i < |front| ==> RecordFiled(base, front, i))
            && r.releaseId !in ReleaseIds(front) && RecordOk(base, r, |front| + 1)
  {
    hide RecordOk;
    var records := front + [r];
    ReleaseIdsMember(front, r.releaseId);
    forall i | 0 <= i < |front| ensures RecordFiled(base, records, i) <==> RecordFiled(base, front, i) {
      assert forall j :: 0 <= j <= i ==> records[j] == front[j];
    }
    assert forall j :: 0 <= j < |front| ==> records[j] == front[j];
    assert RecordFiled(base, records, |front|) <==> RecordOk(base, r, |front| + 1) && r.releaseId !in ReleaseIds(front);
  }

  ghost predicate RecordFiled(base: string, records: seq<Record>, i: nat)
    requires i < |records|
  {
    RecordOk(base, records[i], i + 1) && forall j :: 0 <= j < i ==> records[j].releaseId != records[i].releaseId
  }

  lemma FiledIff(base: string, records: seq<Record>, i: nat)
    requires i < |records|
    ensures Filed(base, records, i) <==> RecordFiled(base, records, i) && SortedById(records[i].events)
  {
    var r := records[i];
    if Filed(base, records, i) {
      assert WeaklySorted(r.events);
      forall j | 0 <= j < |r.events| ensures PlacedOk(base, r.events[j], r, i + 1) {
        assert r.events[j] in r.events;
        FiledInIff(base, r, i + 1, r.events[j]);
      }
    }
    if RecordFiled(base, records, i) {
      forall e | e in r.events ensures FiledIn(base, r, i + 1, e) {
        var j :| 0 <= j < |r.events| && r.events[j] == e;
        FiledInIff(base, r, i + 1, r.events[j]);
      }
    }
  }

  lemma FiledInIff(base: string, r: Record, index: nat, e: Event)
    ensures FiledIn(base, r, index, e) <==> PlacedOk(base, e, r, index)
  {
  }

  // A log is accepted exactly if its records are filed and its events stand.
  lemma LogMeaning(h: Hash, base: string, feedId: string, records: seq<Record>)
    ensures LogOk(h, base, feedId, records) <==>
              && (forall i :: 0 <= i < |records| ==> Filed(base, records, i))
              && (forall n :: 0 <= n < |Events(records)| ==> Stands(h, feedId, Events(records), n))
  {
    hide LogOk, RecordFiled, Filed, Stands, SortedById;
    LogSplits(h, base, feedId, records);
    AllStand(h, feedId, Events(records));
    forall i | 0 <= i < |records|
      ensures Filed(base, records, i) ==> RecordFiled(base, records, i)
      ensures RecordFiled(base, records, i) && LogOk(h, base, feedId, records) ==> Filed(base, records, i)
    {
      FiledIff(base, records, i);
      if LogOk(h, base, feedId, records) {
        RecordSorted(h, base, feedId, records, i);
      }
    }
  }

  // --- Documents and subjects ---

  // Every entry has the stated digest and lifecycle, and no ID comes twice.
  ghost predicate CatalogSound(h: Hash, a: Artifact, sourceCommit: string) {
    && a.sourceCommit == sourceCommit
    && (forall i, j :: 0 <= i < j < |a.catalog| ==> a.catalog[i].id != a.catalog[j].id)
    && forall item :: item in a.catalog ==>
         && item.lifecycle == (if item.entryLifecycle.Some? then item.entryLifecycle.value else Active)
         && item.entryDigest == h(EntryBody(item.id, item.source, item.install, item.entryLifecycle, item.name,
                                            item.summary, item.purposes))
  }

  // The skill's install document repeats its catalog item.
  ghost predicate Repeats(h: Hash, a: Artifact, item: CatalogItem) {
    && item.id in a.installs
    && a.installs[item.id] == InstallDoc(item.id, item.entryDigest, item.source, item.install,
                                         h(InstallBody(item.id, item.entryDigest, item.source, item.install)))
  }

  ghost predicate AdviceSound(a: Artifact) {
    && (forall i, j :: 0 <= i < j < |a.recommendations| ==> a.recommendations[i].id != a.recommendations[j].id)
    && forall x :: x in a.recommendations ==> x.status != Draft
  }

  // The catalog item that a skill event is about.
  ghost predicate ItemTold(h: Hash, a: Artifact, e: Event, item: CatalogItem) {
    && item in a.catalog && item.id == e.subjectId
    && e.revision == h(SkillSemantic(item.source, item.install, item.lifecycle))
    && (e.kind == SkillWithdrawn <==> item.lifecycle == Withdrawn)
    && Repeats(h, a, item)
  }

  // The recommendation that an event is about.
  ghost predicate AdviceTold(h: Hash, a: Artifact, e: Event, x: Recommendation) {
    && x in a.recommendations && x.id == e.subjectId
    && x.status == (if e.kind == RecommendationWithdrawn then Retired else Ready)
    && e.revision == h(if x.status == Ready then ReadyAdvice(x.id, x.skills) else WithdrawnAdvice(x.id))
    && |e.skillIds| == |x.skills| && (forall k :: 0 <= k < |x.skills| ==> e.skillIds[k] == x.skills[k].id)
    && (forall k :: 0 <= k < |x.skills| ==> SkillTold(h, a, x.skills[k].id, x.status == Ready))
  }

  ghost predicate SkillTold(h: Hash, a: Artifact, id: Id, active: bool) {
    exists item :: item in a.catalog && item.id == id && (active ==> item.lifecycle == Active) && Repeats(h, a, item)
  }

  ghost predicate SubjectTold(h: Hash, documents: map<Digest, Artifact>, r: Record, e: Event) {
    && e.releaseId in documents
    && var a := documents[e.releaseId];
       && CatalogSound(h, a, r.sourceCommit)
       && (IsSkillKind(e.kind) ==> exists item :: ItemTold(h, a, e, item))
       && (!IsSkillKind(e.kind) ==> AdviceSound(a) && exists x :: AdviceTold(h, a, e, x))
  }

  lemma CatalogSoundIff(h: Hash, a: Artifact, sourceCommit: string)
    ensures CatalogOk(h, a, sourceCommit) <==> CatalogSound(h, a, sourceCommit)
  {
    assert (forall i :: 0 <= i < |a.catalog| ==> EntryOk(h, a.catalog[i]))
        <==> forall item :: item in a.catalog ==> EntryOk(h, item);
    assert Distinct(CatalogIds(a.catalog))
        <==> forall i, j :: 0 <= i < j < |a.catalog| ==> a.catalog[i].id != a.catalog[j].id by {
      assert forall i :: 0 <= i < |a.catalog| ==> CatalogIds(a.catalog)[i] == a.catalog[i].id;
    }
  }

  lemma AdviceSoundIff(a: Artifact)
    ensures AdviceDocumentOk(a) <==> AdviceSound(a)
  {
    assert Distinct(AdviceIds(a.recommendations))
        <==> forall i, j :: 0 <= i < j < |a.recommendations| ==> a.recommendations[i].id != a.recommendations[j].id by {
      assert forall i :: 0 <= i < |a.recommendations| ==> AdviceIds(a.recommendations)[i] == a.recommendations[i].id;
    }
  }

  // The first match is the only one.
  lemma OnlyItem(h: Hash, a: Artifact, sourceCommit: string, item: CatalogItem, id: Id)
    requires CatalogSound(h, a, sourceCommit)
    ensures FindItem(a.catalog, id) == Some(item) <==> item in a.catalog && item.id == id
  {
    FindItemFirst(a.catalog, id);
  }

  lemma OnlyAdvice(a: Artifact, x: Recommendation, id: Id)
    requires AdviceSound(a)
    ensures FindAdvice(a.recommendations, id) == Some(x) <==> x in a.recommendations && x.id == id
  {
    FindAdviceFirst(a.recommendations, id);
  }

  lemma InstallIff(h: Hash, a: Artifact, sourceCommit: string, item: CatalogItem)
    requires CatalogSound(h, a, sourceCommit) && item in a.catalog
    ensures InstallOk(h, a, item.id) <==> Repeats(h, a, item)
  {
    OnlyItem(h, a, sourceCommit, item, item.id);
  }

  lemma SkillIff(h: Hash, a: Artifact, sourceCommit: string, e: Event)
    requires CatalogSound(h, a, sourceCommit)
    ensures SkillSubjectOk(h, a, e) <==> exists item :: ItemTold(h, a, e, item)
  {
    var found := FindItem(a.catalog, e.subjectId);
    FindItemFirst(a.catalog, e.subjectId);
    if found.Some? {
      OnlyItem(h, a, sourceCommit, found.value, e.subjectId);
      InstallIff(h, a, sourceCommit, found.value);
      assert SkillSubjectOk(h, a, e) <==> ItemTold(h, a, e, found.value);
    }
    if item :| ItemTold(h, a, e, item) {
      OnlyItem(h, a, sourceCommit, item, e.subjectId);
    }
  }

  lemma AdvisedIff(h: Hash, a: Artifact, sourceCommit: string, e: Event, id: Id)
    requires CatalogSound(h, a, sourceCommit)
    ensures AdvisedSkillOk(h, a, e, id) <==> SkillTold(h, a, id, e.kind.RecommendationPublished?)
  {
    var found := FindItem(a.catalog, id);
    FindItemFirst(a.catalog, id);
    if found.Some? {
      InstallIff(h, a, sourceCommit, found.value);
    }
    if item :| item in a.catalog && item.id == id {
      OnlyItem(h, a, sourceCommit, item, id);
    }
  }

  lemma AdviceIff(h: Hash, a: Artifact, sourceCommit: string, e: Event)
    requires CatalogSound(h, a, sourceCommit) && !IsSkillKind(e.kind)
    ensures AdviceSubjectOk(h, a, e) <==> AdviceSound(a) && exists x :: AdviceTold(h, a, e, x)
  {
    AdviceSoundIff(a);
    var found := FindAdvice(a.recommendations, e.subjectId);
    FindAdviceFirst(a.recommendations, e.subjectId);
    if AdviceSound(a) && found.Some? {
      AdviceFoundIff(h, a, sourceCommit, e, found.value);
    }
    if AdviceSound(a) {
      if x :| AdviceTold(h, a, e, x) {
        OnlyAdvice(a, x, e.subjectId);
      }
    }
  }

  lemma AdviceFoundIff(h: Hash, a: Artifact, sourceCommit: string, e: Event, x: Recommendation)
    requires CatalogSound(h, a, sourceCommit) && AdviceSound(a) && !IsSkillKind(e.kind)
    requires FindAdvice(a.recommendations, e.subjectId) == Some(x) && x in a.recommendations && x.id == e.subjectId
    ensures AdviceSubjectOk(h, a, e) <==> AdviceTold(h, a, e, x)
  {
    AdviceSoundIff(a);
    hide AdvisedSkillOk, SkillTold, CatalogSound;
    forall id ensures AdvisedSkillOk(h, a, e, id) <==> SkillTold(h, a, id, e.kind.RecommendationPublished?) {
      AdvisedIff(h, a, sourceCommit, e, id);
    }
    assert RefIds(x.skills) == e.skillIds
        <==> |e.skillIds| == |x.skills| && forall k :: 0 <= k < |x.skills| ==> e.skillIds[k] == x.skills[k].id;
  }

  lemma SubjectIff(h: Hash, documents: map<Digest, Artifact>, r: Record, e: Event)
    ensures SubjectOk(h, documents, r, e) <==> SubjectTold(h, documents, r, e)
  {
    hide CatalogOk, CatalogSound, SkillSubjectOk, AdviceSubjectOk, ItemTold, AdviceTold, AdviceSound;
    if e.releaseId in documents {
      var a := documents[e.releaseId];
      CatalogSoundIff(h, a, r.sourceCommit);
      if CatalogSound(h, a, r.sourceCommit) {
        if IsSkillKind(e.kind) {
          SkillIff(h, a, r.sourceCommit, e);
        } else {
          AdviceIff(h, a, r.sourceCommit, e);
        }
      }
    }
  }

  // What Python counts as white space.
  const SPACES := {'\t', '\n', '\U{b}', '\U{c}', '\r', '\U{1c}', '\U{1d}', '\U{1e}', '\U{1f}', ' ', '\U{85}', '\U{a0}',
                   '\U{1680}', '\U{2000}', '\U{2001}', '\U{2002}', '\U{2003}', '\U{2004}', '\U{2005}', '\U{2006}',
                   '\U{2007}', '\U{2008}', '\U{2009}', '\U{200a}', '\U{2028}', '\U{2029}', '\U{202f}', '\U{205f}',
                   '\U{3000}'}

  lemma SpaceIs(c: char)
    ensures IsSpace(c) <==> c in SPACES
  {
    if '\U{2000}' <= c <= '\U{200a}' {
      assert c as int - 0x2000 in {0, 1, 2, 3, 4, 5, 6, 7, 8, 9, 10};
    }
  }

  lemma BlankIs(s: string)
    ensures Blank(s) <==> forall c :: c in s ==> c in SPACES
  {
    hide IsSpace;
    forall i | 0 <= i < |s| ensures IsSpace(s[i]) <==> s[i] in SPACES {
      SpaceIs(s[i]);
    }
    if forall c :: c in s ==> c in SPACES {
      forall i | 0 <= i < |s| ensures IsSpace(s[i]) {
        assert s[i] in s;
      }
    }
  }

  // The whole of acceptance, both ways: what a consumer may rely on, and all that a
  // feed has to satisfy.
  lemma AcceptanceMeaning(h: Hash, identify: SnapshotHash, s: FeedSnapshot)
    ensures Accepted(h, identify, s, true) <==>
              && (exists c :: c in s.feedId && c !in SPACES)
              && |s.body.records| >= 1
              && s.body.head == Head(|s.body.records|, s.body.records[|s.body.records| - 1].releaseId)
              && (forall i :: 0 <= i < |s.body.records| ==>
                    s.body.records[i].sequence == i + 1 && Filed(s.base, s.body.records, i))
              && (forall n :: 0 <= n < |Events(s.body.records)| ==> Stands(h, s.feedId, Events(s.body.records), n))
              && (forall i, e :: 0 <= i < |s.body.records| && e in s.body.records[i].events ==>
                    SubjectTold(h, s.body.documents, s.body.records[i], e))
              && s.identity == identify(s.body)
  {
    hide LogOk, Filed, Stands, SubjectOk, SubjectTold, Blank;
    BlankIs(s.feedId);
    LogMeaning(h, s.base, s.feedId, s.body.records);
    SubjectsIff(h, s.body);
    hide SubjectsOk;
  }

  lemma SubjectsIff(h: Hash, s: SnapshotBody)
    ensures SubjectsOk(h, s) <==> forall i, e :: 0 <= i < |s.records| && e in s.records[i].events ==>
                                    SubjectTold(h, s.documents, s.records[i], e)
  {
    hide SubjectOk, SubjectTold;
    forall i, e | 0 <= i < |s.records| && e in s.records[i].events
      ensures SubjectOk(h, s.documents, s.records[i], e) <==> SubjectTold(h, s.documents, s.records[i], e)
    {
      SubjectIff(h, s.documents, s.records[i], e);
    }
  }

  // --- What an event ID commits to ---

  // The kinds and revisions of a subject's events, up to event n.
  ghost function Course(log: seq<Event>, n: nat): seq<(EventType, Digest)>
    requires n < |log|
  {
    (if p: nat :| Precedes(log, p, n) then Course(log, p) else []) + [(log[n].kind, log[n].revision)]
  }

  lemma {:induction false} CourseStep(log: seq<Event>, n: nat) returns (p: nat)
    requires n < |log|
    ensures Opens(log, n) ==> Course(log, n) == [(log[n].kind, log[n].revision)]
    ensures !Opens(log, n) ==>
              Precedes(log, p, n) && Course(log, n) == Course(log, p) + [(log[n].kind, log[n].revision)]
  {
    p := 0;
    if !Opens(log, n) {
      HistoryIs(log, n);
      p :| Precedes(log, p, n) && Course(log, n) == Course(log, p) + [(log[n].kind, log[n].revision)];
    } else {
      assert forall q: nat :: !Precedes(log, q, n);
    }
  }

  // In two logs that are accepted, one event ID means one subject and one whole
  // course of that subject up to there.
  lemma {:induction false} SameCourse(h: Hash, feedId: string, other: string, log: seq<Event>, log': seq<Event>,
                                      n: nat, m: nat)
    requires Injective(h) && n < |log| && m < |log'| && log[n].id == log'[m].id
    requires forall k :: 0 <= k < |log| ==> Stands(h, feedId, log, k)
    requires forall k :: 0 <= k < |log'| ==> Stands(h, other, log', k)
    ensures feedId == other && SubjectOf(log[n]) == SubjectOf(log'[m]) && Course(log, n) == Course(log', m)
  {
    assert Stands(h, feedId, log, n) && Stands(h, other, log', m);
    var p := CourseStep(log, n);
    var q := CourseStep(log', m);
    if !Opens(log, n) && !Opens(log', m) {
      SameCourse(h, feedId, other, log, log', p, q);
    }
  }

  lemma {:induction false} EventsAt(records: seq<Record>, i: nat, e: Event) returns (n: nat)
    requires i < |records| && e in records[i].events
    ensures n < |Events(records)| && Events(records)[n] == e
  {
    EventsMember(records, i, e);
    n :| 0 <= n < |Events(records)| && Events(records)[n] == e;
  }

  // Two accepted snapshots with one skill event in common tell the same source,
  // install method and lifecycle for it.
  lemma SharedSkillEvent(h: Hash, identify: SnapshotHash, s: FeedSnapshot, t: FeedSnapshot, i: nat, j: nat,
                         e: Event, f: Event, x: CatalogItem, y: CatalogItem)
    requires Injective(h) && Accepted(h, identify, s, true) && Accepted(h, identify, t, true)
    requires i < |s.body.records| && e in s.body.records[i].events
    requires j < |t.body.records| && f in t.body.records[j].events
    requires e.id == f.id && IsSkillKind(e.kind)
    ensures e.kind == f.kind && e.subjectId == f.subjectId && e.releaseId in s.body.documents
        && f.releaseId in t.body.documents
    ensures x in s.body.documents[e.releaseId].catalog && y in t.body.documents[f.releaseId].catalog
              && x.id == y.id == e.subjectId ==>
              x.source == y.source && x.install == y.install && x.lifecycle == y.lifecycle
    ensures s.feedId == t.feedId
  {
    AcceptanceMeaning(h, identify, s);
    AcceptanceMeaning(h, identify, t);
    hide Accepted, Filed, Stands;
    var n := EventsAt(s.body.records, i, e);
    var m := EventsAt(t.body.records, j, f);
    SameCourse(h, s.feedId, t.feedId, Events(s.body.records), Events(t.body.records), n, m);
    var c, d := Course(Events(s.body.records), n), Course(Events(t.body.records), m);
    assert c[|c| - 1] == (e.kind, e.revision) && d[|d| - 1] == (f.kind, f.revision);
    assert SubjectTold(h, s.body.documents, s.body.records[i], e);
    assert SubjectTold(h, t.body.documents, t.body.records[j], f);
    ItemUnique(h, s.body.documents[e.releaseId], s.body.records[i].sourceCommit, e, x);
    ItemUnique(h, t.body.documents[f.releaseId], t.body.records[j].sourceCommit, f, y);
  }

  lemma ItemUnique(h: Hash, a: Artifact, sourceCommit: string, e: Event, x: CatalogItem)
    requires CatalogSound(h, a, sourceCommit) && exists item :: ItemTold(h, a, e, item)
    ensures x in a.catalog && x.id == e.subjectId ==> ItemTold(h, a, e, x)
  {
    var item :| ItemTold(h, a, e, item);
    OnlyItem(h, a, sourceCommit, item, e.subjectId);
    OnlyItem(h, a, sourceCommit, x, e.subjectId);
  }

  // The same for a recommendation's skills.
  lemma SharedAdviceEvent(h: Hash, identify: SnapshotHash, s: FeedSnapshot, t: FeedSnapshot, i: nat, j: nat,
                          e: Event, f: Event, x: Recommendation, y: Recommendation)
    requires Injective(h) && Accepted(h, identify, s, true) && Accepted(h, identify, t, true)
    requires i < |s.body.records| && e in s.body.records[i].events
    requires j < |t.body.records| && f in t.body.records[j].events
    requires e.id == f.id && e.kind == RecommendationPublished
    ensures e.kind == f.kind && e.subjectId == f.subjectId && e.releaseId in s.body.documents
        && f.releaseId in t.body.documents
    ensures x in s.body.documents[e.releaseId].recommendations && y in t.body.documents[f.releaseId].recommendations
              && x.id == y.id == e.subjectId ==>
              x.skills == y.skills && x.status == y.status == Ready
    ensures s.feedId == t.feedId
  {
    AcceptanceMeaning(h, identify, s);
    AcceptanceMeaning(h, identify, t);
    hide Accepted, Filed, Stands;
    var n := EventsAt(s.body.records, i, e);
    var m := EventsAt(t.body.records, j, f);
    SameCourse(h, s.feedId, t.feedId, Events(s.body.records), Events(t.body.records), n, m);
    var c, d := Course(Events(s.body.records), n), Course(Events(t.body.records), m);
    assert c[|c| - 1] == (e.kind, e.revision) && d[|d| - 1] == (f.kind, f.revision);
    assert SubjectTold(h, s.body.documents, s.body.records[i], e);
    assert SubjectTold(h, t.body.documents, t.body.records[j], f);
    AdviceUnique(h, s.body.documents[e.releaseId], e, x);
    AdviceUnique(h, t.body.documents[f.releaseId], f, y);
  }

  lemma AdviceUnique(h: Hash, a: Artifact, e: Event, x: Recommendation)
    requires AdviceSound(a) && exists y :: AdviceTold(h, a, e, y)
    ensures x in a.recommendations && x.id == e.subjectId ==> AdviceTold(h, a, e, x)
  {
    var y :| AdviceTold(h, a, e, y);
    OnlyAdvice(a, y, e.subjectId);
    OnlyAdvice(a, x, e.subjectId);
  }

  // --- The publisher's own check ---

  // The publisher's check of an artifact is the consumer's document checks, for every
  // item at once, plus declared lifecycles and recommendations that point into the
  // catalog, at active skills once they are ready.
  lemma ValidMeaning(h: Hash, a: Artifact, sourceCommit: string)
    ensures ValidArtifact(h, a, sourceCommit) <==>
              && CatalogSound(h, a, sourceCommit)
              && (forall item :: item in a.catalog ==> item.entryLifecycle.Some? && Repeats(h, a, item))
              && AdviceSound(a)
              && (forall x, k :: x in a.recommendations && 0 <= k < |x.skills| ==>
                    SkillTold(h, a, x.skills[k].id, x.status == Ready))
  {
    CatalogSoundIff(h, a, sourceCommit);
    AdviceSoundIff(a);
    ItemsValid(h, a);
    if CatalogSound(h, a, sourceCommit) && forall item :: item in a.catalog ==> Repeats(h, a, item) {
      forall x | x in a.recommendations
        ensures AdviceOk(a, x) <==>
                  x.status != Draft
                  && forall k :: 0 <= k < |x.skills| ==> SkillTold(h, a, x.skills[k].id, x.status == Ready)
      {
        AdviceValid(h, a, sourceCommit, x);
      }
    }
    hide ItemOk, AdviceOk, EntryOk, Repeats, SkillTold;
    assert (forall i :: 0 <= i < |a.recommendations| ==> AdviceOk(a, a.recommendations[i]))
        <==> forall x :: x in a.recommendations ==> AdviceOk(a, x);
  }

  lemma ItemsValid(h: Hash, a: Artifact)
    ensures (forall i :: 0 <= i < |a.catalog| ==> ItemOk(h, a, a.catalog[i])) <==>
              (forall i :: 0 <= i < |a.catalog| ==> EntryOk(h, a.catalog[i]))
              && forall item :: item in a.catalog ==> item.entryLifecycle.Some? && Repeats(h, a, item)
  {
    assert (forall i :: 0 <= i < |a.catalog| ==> ItemOk(h, a, a.catalog[i]))
        <==> forall item :: item in a.catalog ==> ItemOk(h, a, item);
    assert (forall i :: 0 <= i < |a.catalog| ==> EntryOk(h, a.catalog[i]))
        <==> forall item :: item in a.catalog ==> EntryOk(h, item);
  }

  lemma AdviceValid(h: Hash, a: Artifact, sourceCommit: string, x: Recommendation)
    requires CatalogSound(h, a, sourceCommit) && forall item :: item in a.catalog ==> Repeats(h, a, item)
    ensures AdviceOk(a, x) <==>
              x.status != Draft
              && forall k :: 0 <= k < |x.skills| ==> SkillTold(h, a, x.skills[k].id, x.status == Ready)
  {
    forall id ensures RefOk(a, x, id) <==> SkillTold(h, a, id, x.status == Ready) {
      CatalogSoundIff(h, a, sourceCommit);
      FindItemAgrees(a.catalog, id);
      FindItemFirst(a.catalog, id);
      if item :| item in a.catalog && item.id == id {
        OnlyItem(h, a, sourceCommit, item, id);
      }
    }
  }
}
