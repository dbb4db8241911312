/** Producer and consumer agree: every log the publisher can derive passes the
    consumer's independent check. */
module Agreement {
  import opened Options
  import opened Documents
  import opened Artifacts
  import opened Derivation
  import opened FeedCheck

  function LastArtifact(artifacts: seq<Artifact>): Option<Artifact> {
    if artifacts == [] then None else Some(artifacts[|artifacts| - 1])
  }

  // The derivation of the record that follows `front`.
  ghost function NextRelease(h: Hash, feedId: string, base: string, artifacts: seq<Artifact>, front: seq<Record>,
                             a: Artifact, r: Record): Release
  {
    Release(h, Stamp(feedId, base, r.releaseId, |front| + 1, r.publicationTime), a, LastArtifact(artifacts),
            History(Events(front)))
  }

  ghost predicate NextRecord(h: Hash, feedId: string, base: string, artifacts: seq<Artifact>, front: seq<Record>,
                             a: Artifact, r: Record)
  {
    && r.sequence == |front| + 1
    && r.previousSequence == (if front == [] then None else Some(|front|))
    && r.releaseId !in ReleaseIds(front)
    && ValidArtifact(h, a, r.sourceCommit)
    && NextRelease(h, feedId, base, artifacts, front, a, r).Derive() == Some(r.events)
  }

  // Record k was derived from artifact k, artifact k - 1 and the records before it.
  ghost predicate Published(h: Hash, feedId: string, base: string, artifacts: seq<Artifact>, records: seq<Record>) {
    && |artifacts| == |records|
    && forall k :: 0 <= k < |records| ==> PublishedAt(h, feedId, base, artifacts, records, k)
  }

  ghost predicate PublishedAt(h: Hash, feedId: string, base: string, artifacts: seq<Artifact>, records: seq<Record>,
                              k: nat)
    requires k < |records| == |artifacts|
  {
    NextRecord(h, feedId, base, artifacts[..k], records[..k], artifacts[k], records[k])
  }

  lemma PublishedPrefix(h: Hash, feedId: string, base: string, artifacts: seq<Artifact>, records: seq<Record>, n: nat)
    requires Published(h, feedId, base, artifacts, records) && n <= |records|
    ensures Published(h, feedId, base, artifacts[..n], records[..n])
  {
    forall k | 0 <= k < n ensures PublishedAt(h, feedId, base, artifacts[..n], records[..n], k) {
      assert PublishedAt(h, feedId, base, artifacts, records, k);
      assert artifacts[..n][..k] == artifacts[..k] && records[..n][..k] == records[..k];
    }
  }

  lemma PublishedExtend(h: Hash, feedId: string, base: string, artifacts: seq<Artifact>, records: seq<Record>,
                        a: Artifact, r: Record)
    requires Published(h, feedId, base, artifacts, records) && NextRecord(h, feedId, base, artifacts, records, a, r)
    ensures Published(h, feedId, base, artifacts + [a], records + [r])
  {
    var n := |records|;
    forall k | 0 <= k <= n ensures PublishedAt(h, feedId, base, artifacts + [a], records + [r], k) {
      assert (artifacts + [a])[..k] == artifacts[..k] && (records + [r])[..k] == records[..k];
      if k < n {
        assert PublishedAt(h, feedId, base, artifacts, records, k);
      } else {
        assert artifacts[..n] == artifacts && records[..n] == records;
      }
    }
  }

  // --- The invariant: what the log last said about a subject matches the last artifact ---

  ghost predicate WithdrawnRevision(h: Hash, revision: Digest) {
    exists source, install :: revision == h(SkillSemantic(source, install, Withdrawn))
  }

  // The last revision is the last catalog's semantic unless both are withdrawn.
  ghost predicate SkillSynced(h: Hash, item: Option<CatalogItem>, last: Option<Last>) {
    && item.Some? == last.Some?
    && (item.Some? ==>
          && IsSkillKind(last.value.kind)
          && (last.value.kind.SkillWithdrawn? <==> LifecycleOf(item.value).Withdrawn?)
          && (if last.value.kind.SkillWithdrawn? then WithdrawnRevision(h, last.value.revision)
              else last.value.revision == h(Semantic(item.value))))
  }

  ghost predicate AdviceSynced(h: Hash, id: Id, item: Option<Recommendation>, last: Option<Last>) {
    match item
    case None => last.None?
    case Some(r) =>
      match r.status
      case Draft => false
      case Ready => last.Some? && last.value.kind.RecommendationPublished?
                    && exists skills :: last.value.revision == h(ReadyAdvice(id, skills))
      case Retired => last.Some? ==> last.value.kind.RecommendationWithdrawn?
  }

  ghost predicate Synced(h: Hash, previous: Option<Artifact>, history: map<Subject, Last>) {
    && (forall id :: SkillSynced(h, Lookup(PreviousSkills(previous), id), Lookup(history, Skill(id))))
    && (forall id :: AdviceSynced(h, id, Lookup(PreviousAdvice(previous), id), Lookup(history, Advice(id))))
  }

  lemma SkillStep(h: Hash, id: Id, current: Option<CatalogItem>, previous: Option<CatalogItem>, last: Option<Last>,
                  eventId: Digest)
    requires Injective(h) && SkillSynced(h, previous, last) && current.Some?
    ensures var d := SkillDecision(id, current, previous, last.Some?);
            && !d.Refuse?
            && (d.Keep? ==> SkillSynced(h, current, last))
            && (d.Emit? ==>
                  && SkillSynced(h, current, Some(Last(eventId, d.kind, h(d.revision))))
                  && (last.Some? ==> last.value.revision != h(d.revision))
                  && (match last
                      case None => d.kind.SkillAdded? || d.kind.SkillWithdrawn?
                      case Some(l) => if l.kind.SkillWithdrawn? then d.kind.SkillUpdated? else !d.kind.SkillAdded?))
  {
    var d := SkillDecision(id, current, previous, last.Some?);
    if d.Emit? && d.kind.SkillWithdrawn? {
      var now := Semantic(current.value);
      assert h(d.revision) == h(SkillSemantic(now.source, now.install, Withdrawn));
    }
    if d.Emit? && last.Some? && last.value.kind.SkillWithdrawn? {
      var source, install :| last.value.revision == h(SkillSemantic(source, install, Withdrawn));
    }
  }

  lemma AdviceStep(h: Hash, id: Id, current: Option<Recommendation>, previous: Option<Recommendation>,
                   last: Option<Last>, eventId: Digest)
    requires Injective(h) && AdviceSynced(h, id, previous, last) && current.Some? && !current.value.status.Draft?
    requires !AdviceDecision(id, current, previous, KindOf(last)).Refuse?
    ensures var d := AdviceDecision(id, current, previous, KindOf(last));
            && (d.Keep? ==> AdviceSynced(h, id, current, last))
            && (d.Emit? ==>
                  && AdviceSynced(h, id, current, Some(Last(eventId, d.kind, h(d.revision))))
                  && (last.Some? ==> last.value.revision != h(d.revision))
                  && (if last.None? then d.kind.RecommendationPublished?
                      else last.value.kind.RecommendationPublished? && d.kind.RecommendationWithdrawn?))
  {
    var d := AdviceDecision(id, current, previous, KindOf(last));
    if d.Emit? && d.kind.RecommendationPublished? {
      assert h(d.revision) == h(ReadyAdvice(id, current.value.skills));
    }
    if d.Emit? && d.kind.RecommendationWithdrawn? && last.Some? && last.value.kind.RecommendationPublished? {
      var skills :| last.value.revision == h(ReadyAdvice(id, skills));
    }
  }

  // A published subject: not refused, legal where the log stands, and back in sync afterwards.
  lemma SubjectStep(r: Release, sourceCommit: string, s: Subject, eventId: Digest)
    requires Injective(r.h) && Synced(r.h, r.previous, r.history)
    requires ValidArtifact(r.h, r.current, sourceCommit) && !r.Refuses() && s in r.Subjects()
    ensures !r.Decide(s).Refuse?
    ensures r.Decide(s).Emit? ==> TransitionOk(r.EventOf(s), Lookup(r.history, s))
    ensures var after := if r.Decide(s).Emit? then Some(Last(eventId, r.Decide(s).kind, r.h(r.Decide(s).revision)))
                         else Lookup(r.history, s);
            match s
            case Skill(id) => SkillSynced(r.h, Lookup(SkillMap(r.current.catalog), id), after)
            case Advice(id) => AdviceSynced(r.h, id, Lookup(AdviceMap(r.current.recommendations), id), after)
  {
    match s
    case Skill(id) =>
      assert SkillSynced(r.h, Lookup(PreviousSkills(r.previous), id), Lookup(r.history, Skill(id)));
      SkillStep(r.h, id, Lookup(SkillMap(r.current.catalog), id), Lookup(PreviousSkills(r.previous), id),
                Lookup(r.history, s), eventId);
    case Advice(id) =>
      assert AdviceSynced(r.h, id, Lookup(PreviousAdvice(r.previous), id), Lookup(r.history, Advice(id)));
      NoDrafts(r.h, r.current, sourceCommit, id);
      AdviceStep(r.h, id, Lookup(AdviceMap(r.current.recommendations), id), Lookup(PreviousAdvice(r.previous), id),
                 Lookup(r.history, s), eventId);
  }

  lemma NoDrafts(h: Hash, a: Artifact, sourceCommit: string, id: Id)
    requires ValidArtifact(h, a, sourceCommit)
    ensures id in AdviceMap(a.recommendations) ==>
              var r := AdviceMap(a.recommendations)[id];
              r.id == id && AdviceOk(a, r) && exists i :: 0 <= i < |a.recommendations| && a.recommendations[i] == r
  {
    AdviceMapDistinct(a.recommendations);
    if id in AdviceMap(a.recommendations) {
      assert id in AdviceIds(a.recommendations);
      var i :| 0 <= i < |a.recommendations| && AdviceIds(a.recommendations)[i] == id;
      assert a.recommendations[i].id == id;
    }
  }

  lemma CatalogItems(h: Hash, a: Artifact, sourceCommit: string, id: Id)
    requires ValidArtifact(h, a, sourceCommit)
    ensures id in SkillMap(a.catalog) ==> SkillMap(a.catalog)[id].id == id && ItemOk(h, a, SkillMap(a.catalog)[id])
  {
    SkillMapDistinct(a.catalog);
    if id in SkillMap(a.catalog) {
      assert id in CatalogIds(a.catalog);
      var i :| 0 <= i < |a.catalog| && CatalogIds(a.catalog)[i] == id;
      assert a.catalog[i].id == id;
    }
  }

  // --- Event IDs ---

  // The entry for a subject is its last event.
  lemma {:induction false} HistoryLast(events: seq<Event>, s: Subject) returns (q: nat)
    requires s in History(events)
    ensures q < |events| && SubjectOf(events[q]) == s && LastOf(events[q]) == History(events)[s]
    ensures forall p :: q < p < |events| ==> SubjectOf(events[p]) != s
  {
    var n := |events| - 1;
    if SubjectOf(events[n]) == s {
      q := n;
    } else {
      q := HistoryLast(events[..n], s);
    }
  }

  lemma {:induction false} HistoryCovers(events: seq<Event>, p: nat)
    requires p < |events|
    ensures SubjectOf(events[p]) in History(events)
  {
    var n := |events| - 1;
    if p < n {
      HistoryCovers(events[..n], p);
    }
  }

  // An event ID that is chained to the log is new: equal IDs would chain the
  // older event and the newer one to the same predecessor, but the predecessor
  // of the newer is at least as late as the older.
  lemma ChainedIdIsNew(h: Hash, feedId: string, log: seq<Event>, e: Event)
    requires Injective(h) && AllOk(h, feedId, [], log)
    requires ChainOk(h, e, Lookup(History(log), SubjectOf(e)))
    ensures e.id !in Ids(log)
  {
    IdsMember(log, e.id);
    if p :| 0 <= p < |log| && log[p].id == e.id {
      AllOkAt(h, feedId, [], log, p);
      assert [] + log[..p] == log[..p];
      var s := SubjectOf(e);
      assert ChainOk(h, log[p], Lookup(History(log[..p]), SubjectOf(log[p])));
      assert SubjectOf(log[p]) == s;
      HistoryCovers(log, p);
      var q := HistoryLast(log, s);
      var o := HistoryLast(log[..p], s);
      DistinctEventIds(h, feedId, log, o, q);
    }
  }

  // --- One record ---

  lemma {:induction false} HistoryElsewhere(before: seq<Event>, events: seq<Event>, s: Subject)
    requires forall i :: 0 <= i < |events| ==> SubjectOf(events[i]) != s
    ensures Lookup(History(before + events), s) == Lookup(History(before), s)
  {
    if events == [] {
      assert before + events == before;
    } else {
      var front := events[..|events| - 1];
      assert (before + events)[..|before + events| - 1] == before + front;
      HistoryElsewhere(before, front, s);
    }
  }

  lemma {:induction false} HistoryHere(before: seq<Event>, events: seq<Event>, i: nat)
    requires i < |events| && forall k :: i < k < |events| ==> SubjectOf(events[k]) != SubjectOf(events[i])
    ensures Lookup(History(before + events), SubjectOf(events[i])) == Some(LastOf(events[i]))
  {
    var front := events[..|events| - 1];
    assert (before + events)[..|before + events| - 1] == before + front;
    if i < |front| {
      HistoryHere(before, front, i);
    }
  }

  // A derived record mentions each subject once.
  lemma DerivedOnce(r: Release, events: seq<Event>, i: nat, j: nat)
    requires Injective(r.h) && r.Derive() == Some(events) && i < j < |events|
    ensures SubjectOf(events[i]) != SubjectOf(events[j])
  {
    r.ArrangeCovers(r.Subjects());
    assert r.Belongs(r.Subjects(), events[i]) && r.Belongs(r.Subjects(), events[j]);
  }

  lemma DerivedEvent(r: Release, events: seq<Event>, i: nat)
    requires Injective(r.h) && r.Derive() == Some(events) && i < |events|
    ensures r.Belongs(r.Subjects(), events[i])
  {
    r.ArrangeCovers(r.Subjects());
  }

  // The record's event n - 1 passes where the log then stands.
  lemma DerivedNext(r: Release, sourceCommit: string, log: seq<Event>, events: seq<Event>, n: nat)
    requires Injective(r.h) && Synced(r.h, r.previous, r.history) && ValidArtifact(r.h, r.current, sourceCommit)
    requires r.history == History(log) && r.Derive() == Some(events) && n < |events|
    requires AllOk(r.h, r.at.feedId, [], log + events[..n])
    ensures EventOk(r.h, r.at.feedId, log + events[..n], events[n])
  {
    var e := events[n];
    var s := SubjectOf(e);
    DerivedEvent(r, events, n);
    SubjectStep(r, sourceCommit, s, 0);
    forall i | 0 <= i < n ensures SubjectOf(events[..n][i]) != s {
      DerivedOnce(r, events, i, n);
    }
    HistoryElsewhere(log, events[..n], s);
    ChainedIdIsNew(r.h, r.at.feedId, log + events[..n], e);
  }

  lemma DerivedOk(r: Release, sourceCommit: string, log: seq<Event>, events: seq<Event>)
    requires Injective(r.h) && Synced(r.h, r.previous, r.history) && ValidArtifact(r.h, r.current, sourceCommit)
    requires r.history == History(log) && AllOk(r.h, r.at.feedId, [], log)
    requires r.Derive() == Some(events)
    ensures AllOk(r.h, r.at.feedId, log, events) && AllOk(r.h, r.at.feedId, [], log + events)
  {
    var done: seq<Event> := [];
    assert log + done == log && AllOk(r.h, r.at.feedId, log, done);
    hide Injective, Synced, ValidArtifact, AllOk, EventOk;
    for n := 0 to |events|
      invariant done == events[..n]
      invariant AllOk(r.h, r.at.feedId, log, done) && AllOk(r.h, r.at.feedId, [], log + done)
    {
      DerivedNext(r, sourceCommit, log, events, n);
      AllOkBoth(r.h, r.at.feedId, log, done, events[n]);
      TakeNext(events, n);
      done := done + [events[n]];
    }
    assert done == events;
  }

  lemma AllOkBoth(h: Hash, feedId: string, log: seq<Event>, front: seq<Event>, e: Event)
    requires AllOk(h, feedId, log, front) && AllOk(h, feedId, [], log + front) && EventOk(h, feedId, log + front, e)
    ensures AllOk(h, feedId, log, front + [e]) && AllOk(h, feedId, [], log + (front + [e]))
  {
    hide EventOk;
    EventStep(h, feedId, log, front, e);
    EventStep(h, feedId, [], log + front, e);
    assert [] + (log + front) == log + front;
    assert log + (front + [e]) == (log + front) + [e];
  }

  lemma DerivedHistory(r: Release, log: seq<Event>, events: seq<Event>, s: Subject)
    requires Injective(r.h) && r.history == History(log) && r.Derive() == Some(events)
    ensures Lookup(History(log + events), s) ==
            if s in r.Subjects() && r.Decide(s).Emit? then Some(LastOf(r.EventOf(s))) else Lookup(r.history, s)
  {
    r.ArrangeCovers(r.Subjects());
    if s in r.Subjects() && r.Decide(s).Emit? {
      r.EventSubject(s);
      assert r.Belongs(r.Subjects(), r.EventOf(s));
      var i :| 0 <= i < |events| && events[i] == r.EventOf(s);
      forall k | i < k < |events| ensures SubjectOf(events[k]) != s {
        DerivedOnce(r, events, i, k);
      }
      HistoryHere(log, events, i);
    } else {
      forall i | 0 <= i < |events| ensures SubjectOf(events[i]) != s {
        assert r.Belongs(r.Subjects(), events[i]);
      }
      HistoryElsewhere(log, events, s);
    }
  }

  // The invariant after the record.
  lemma DerivedSynced(r: Release, sourceCommit: string, log: seq<Event>, events: seq<Event>)
    requires Injective(r.h) && Synced(r.h, r.previous, r.history) && ValidArtifact(r.h, r.current, sourceCommit)
    requires r.history == History(log) && r.Derive() == Some(events)
    ensures Synced(r.h, Some(r.current), History(log + events))
  {
    var after := History(log + events);
    forall id ensures SkillSynced(r.h, Lookup(PreviousSkills(Some(r.current)), id), Lookup(after, Skill(id))) {
      var s := Skill(id);
      DerivedHistory(r, log, events, s);
      assert SkillSynced(r.h, Lookup(PreviousSkills(r.previous), id), Lookup(r.history, s));
      if s in r.Subjects() {
        SubjectStep(r, sourceCommit, s, if r.Decide(s).Emit? then r.EventOf(s).id else 0);
      }
    }
    forall id ensures AdviceSynced(r.h, id, Lookup(PreviousAdvice(Some(r.current)), id), Lookup(after, Advice(id))) {
      var s := Advice(id);
      DerivedHistory(r, log, events, s);
      assert AdviceSynced(r.h, id, Lookup(PreviousAdvice(r.previous), id), Lookup(r.history, s));
      if s in r.Subjects() {
        SubjectStep(r, sourceCommit, s, if r.Decide(s).Emit? then r.EventOf(s).id else 0);
      }
    }
  }

  lemma DerivedPlaced(r: Release, sourceCommit: string, record: Record, index: nat)
    requires Injective(r.h) && r.Derive() == Some(record.events)
    requires r.at.releaseId == record.releaseId && r.at.sequence == index && r.at.publishedAt == record.publicationTime
    requires Synced(r.h, r.previous, r.history) && ValidArtifact(r.h, r.current, sourceCommit)
    requires record.previousSequence == (if index == 1 then None else Some(index - 1))
    ensures RecordOk(r.at.base, record, index)
  {
    r.ArrangeCovers(r.Subjects());
    forall j | 0 <= j < |record.events| ensures PlacedOk(r.at.base, record.events[j], record, index) {
      assert r.Belongs(r.Subjects(), record.events[j]);
      SubjectStep(r, sourceCommit, SubjectOf(record.events[j]), 0);
    }
  }

  // --- The whole log ---

  // Safety over every publisher log: it passes the consumer's record loop, and
  // the invariant holds at its head.
  lemma PublishedAccepted(h: Hash, feedId: string, base: string, artifacts: seq<Artifact>, records: seq<Record>)
    requires Injective(h) && Published(h, feedId, base, artifacts, records)
    ensures LogOk(h, base, feedId, records)
    ensures AllOk(h, feedId, [], Events(records))
    ensures Synced(h, LastArtifact(artifacts), History(Events(records)))
  {
    var done: seq<Record> := [];
    var arts: seq<Artifact> := [];
    for k := 0 to |records|
      invariant done == records[..k] && arts == artifacts[..k]
      invariant LogOk(h, base, feedId, done)
      invariant AllOk(h, feedId, [], Events(done))
      invariant Synced(h, LastArtifact(arts), History(Events(done)))
    {
      assert PublishedAt(h, feedId, base, artifacts, records, k);
      PublishedStep(h, feedId, base, arts, done, artifacts[k], records[k]);
      TakeNext(records, k);
      TakeNext(artifacts, k);
      done, arts := done + [records[k]], arts + [artifacts[k]];
    }
    assert done == records && arts == artifacts;
  }

  lemma PublishedStep(h: Hash, feedId: string, base: string, artifacts: seq<Artifact>, front: seq<Record>,
                      a: Artifact, r: Record)
    requires Injective(h) && NextRecord(h, feedId, base, artifacts, front, a, r)
    requires LogOk(h, base, feedId, front) && AllOk(h, feedId, [], Events(front))
    requires Synced(h, LastArtifact(artifacts), History(Events(front)))
    ensures LogOk(h, base, feedId, front + [r]) && AllOk(h, feedId, [], Events(front + [r]))
    ensures Synced(h, Some(a), History(Events(front + [r])))
  {
    var release := NextRelease(h, feedId, base, artifacts, front, a, r);
    DerivedOk(release, r.sourceCommit, Events(front), r.events);
    DerivedSynced(release, r.sourceCommit, Events(front), r.events);
    DerivedPlaced(release, r.sourceCommit, r, |front| + 1);
    RecordStep(h, base, feedId, front, r);
  }

  // --- Subjects ---

  ghost predicate Carries(documents: map<Digest, Artifact>, a: Artifact, e: Event) {
    && e.releaseId in documents
    && documents[e.releaseId].sourceCommit == a.sourceCommit
    && documents[e.releaseId].catalog == a.catalog
    && (!IsSkillKind(e.kind) ==> documents[e.releaseId].recommendations == a.recommendations)
    && (forall id :: id in e.skillIds && id in a.installs ==>
          id in documents[e.releaseId].installs && documents[e.releaseId].installs[id] == a.installs[id])
  }

  // The subject check looks at nothing else.
  lemma CarriedSubject(h: Hash, documents: map<Digest, Artifact>, a: Artifact, r: Record, e: Event)
    requires Carries(documents, a, e) && SubjectOk(h, map[e.releaseId := a], r, e)
    requires IsSkillKind(e.kind) ==> e.skillIds == [e.subjectId]
    ensures SubjectOk(h, documents, r, e)
  {
    var d := documents[e.releaseId];
    if !IsSkillKind(e.kind) {
      forall k | 0 <= k < |e.skillIds| ensures AdvisedSkillOk(h, d, e, e.skillIds[k]) {
        assert AdvisedSkillOk(h, a, e, e.skillIds[k]);
      }
      assert AdviceDocumentOk(d);
    }
  }

  lemma DerivedSubjectOk(r: Release, record: Record, e: Event, documents: map<Digest, Artifact>)
    requires Injective(r.h) && ValidArtifact(r.h, r.current, record.sourceCommit) && r.Derive() == Some(record.events)
    requires e in record.events && Carries(documents, r.current, e)
    ensures SubjectOk(r.h, documents, record, e)
  {
    hide ValidArtifact, SkillSubjectOk, AdviceSubjectOk, CatalogOk, Carries;
    r.ArrangeCovers(r.Subjects());
    assert r.Belongs(r.Subjects(), e);
    if IsSkillKind(e.kind) {
      DerivedSkillOk(r, record.sourceCommit, e);
    } else {
      DerivedAdviceOk(r, record.sourceCommit, e);
    }
    ValidCatalogOk(r.h, r.current, record.sourceCommit);
    DerivedPlace(r, e);
    hide ValidArtifact, SkillSubjectOk, AdviceSubjectOk, CatalogOk, Carries, Injective;
    assert SubjectOk(r.h, map[e.releaseId := r.current], record, e);
    CarriedSubject(r.h, documents, r.current, record, e);
  }

  lemma DerivedPlace(r: Release, e: Event)
    requires r.Belongs(r.Subjects(), e)
    ensures e.releaseId == r.at.releaseId && (IsSkillKind(e.kind) ==> e.skillIds == [e.subjectId])
  {
    r.EventSubject(SubjectOf(e));
  }

  lemma ValidCatalogOk(h: Hash, a: Artifact, sourceCommit: string)
    requires ValidArtifact(h, a, sourceCommit)
    ensures CatalogOk(h, a, sourceCommit)
  {
  }

  lemma DerivedSkillOk(r: Release, sourceCommit: string, e: Event)
    requires Injective(r.h) && ValidArtifact(r.h, r.current, sourceCommit) && IsSkillKind(e.kind)
    requires r.Belongs(r.Subjects(), e)
    ensures SkillSubjectOk(r.h, r.current, e)
  {
    hide Injective;
    r.EventSubject(SubjectOf(e));
    FoundItem(r.h, r.current, sourceCommit, e.subjectId);
    CatalogItems(r.h, r.current, sourceCommit, e.subjectId);
    hide ValidArtifact, FindItem;
  }

  lemma FoundItem(h: Hash, a: Artifact, sourceCommit: string, id: Id)
    requires ValidArtifact(h, a, sourceCommit)
    ensures FindItem(a.catalog, id) == Lookup(SkillMap(a.catalog), id)
  {
    FindItemAgrees(a.catalog, id);
  }

  lemma DerivedAdviceOk(r: Release, sourceCommit: string, e: Event)
    requires Injective(r.h) && ValidArtifact(r.h, r.current, sourceCommit) && !IsSkillKind(e.kind)
        && r.Belongs(r.Subjects(), e)
    ensures AdviceSubjectOk(r.h, r.current, e)
  {
    var a, id := r.current, e.subjectId;
    r.EventSubject(SubjectOf(e));
    FindAdviceAgrees(a.recommendations, id);
    NoDrafts(r.h, a, sourceCommit, id);
    AdvisedSkills(r, sourceCommit, e, AdviceMap(a.recommendations)[id]);
    assert AdviceDocumentOk(a);
  }

  lemma AdvisedSkills(r: Release, sourceCommit: string, e: Event, advice: Recommendation)
    requires ValidArtifact(r.h, r.current, sourceCommit) && AdviceOk(r.current, advice)
        && e.skillIds == RefIds(advice.skills)
    requires e.kind.RecommendationPublished? ==> advice.status.Ready?
    ensures forall k :: 0 <= k < |e.skillIds| ==> AdvisedSkillOk(r.h, r.current, e, e.skillIds[k])
  {
    forall k | 0 <= k < |e.skillIds| ensures AdvisedSkillOk(r.h, r.current, e, e.skillIds[k]) {
      var id := e.skillIds[k];
      assert RefOk(r.current, advice, advice.skills[k].id);
      FindItemAgrees(r.current.catalog, id);
      CatalogItems(r.h, r.current, sourceCommit, id);
    }
  }

  // `documents` serves the files of its release that an event is checked against.
  ghost predicate Serves(documents: map<Digest, Artifact>, artifacts: seq<Artifact>, records: seq<Record>)
    requires |artifacts| == |records|
  {
    forall i, j :: 0 <= i < |records| && 0 <= j < |records[i].events|
      ==> Carries(documents, artifacts[i], records[i].events[j])
  }

  lemma PublishedSubjects(h: Hash, feedId: string, base: string, artifacts: seq<Artifact>, s: SnapshotBody)
    requires Injective(h) && Published(h, feedId, base, artifacts, s.records)
    requires Serves(s.documents, artifacts, s.records)
    ensures SubjectsOk(h, s)
  {
    forall i, j | 0 <= i < |s.records| && 0 <= j < |s.records[i].events|
      ensures SubjectOk(h, s.documents, s.records[i], s.records[i].events[j])
    {
      assert PublishedAt(h, feedId, base, artifacts, s.records, i);
      var r := NextRelease(h, feedId, base, artifacts[..i], s.records[..i], artifacts[i], s.records[i]);
      DerivedSubjectOk(r, s.records[i], s.records[i].events[j], s.documents);
    }
  }

  lemma {:induction false} FeedIdForced(h: Hash, base: string, feedId: string, other: string, records: seq<Record>)
    requires LogOk(h, base, feedId, records)
    ensures LogOk(h, base, other, records) <==> Events(records) == [] || other == feedId
  {
    if records != [] {
      var front, r := records[..|records| - 1], records[|records| - 1];
      FeedIdForced(h, base, feedId, other, front);
      if r.events != [] {
        AllOkAt(h, feedId, Events(front), r.events, 0);
        if AllOk(h, other, Events(front), r.events) {
          AllOkAt(h, other, Events(front), r.events, 0);
        }
      }
    }
  }

  // Exactly when a consumer accepts a publisher's feed: it needs an identity to
  // check against, and a feed without events cannot contradict a wrong one.
  lemma SnapshotAccepted(h: Hash, identify: SnapshotHash, feedId: string, artifacts: seq<Artifact>, s: FeedSnapshot)
    requires Injective(h) && Published(h, feedId, s.base, artifacts, s.body.records)
    requires Serves(s.body.documents, artifacts, s.body.records)
    requires s.identity == identify(s.body)
    requires |s.body.records| > 0
    requires s.body.head == Head(|s.body.records|, s.body.records[|s.body.records| - 1].releaseId)
    ensures Accepted(h, identify, s, true) <==> !Blank(s.feedId) && (Events(s.body.records) == [] || s.feedId == feedId)
  {
    var records := s.body.records;
    PublishedAccepted(h, feedId, s.base, artifacts, records);
    PublishedSubjects(h, feedId, s.base, artifacts, s.body);
    FeedIdForced(h, s.base, feedId, s.feedId, records);
    forall i | 0 <= i < |records| ensures records[i].sequence == i + 1 {
      assert PublishedAt(h, feedId, s.base, artifacts, records, i);
    }
  }
}
