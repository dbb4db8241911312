/** The consumer's check of a whole feed snapshot (src/hwskill/sharing/v2.py and
    the helpers it takes from src/hwskill/sharing/v1.py). */
module FeedCheck {
  import opened Options
  import opened Documents
  import opened Artifacts

  datatype Head = Head(sequence: int, releaseId: Digest)

  // What stable_digest hashes into a snapshot identity.
  datatype SnapshotBody = SnapshotBody(head: Head, records: seq<Record>, documents: map<Digest, Artifact>)

  type SnapshotHash = SnapshotBody -> Digest

  datatype FeedSnapshot = FeedSnapshot(base: string, feedId: string, body: SnapshotBody, identity: Digest)

  // The white space that str.strip takes off.
  predicate IsSpace(c: char) {
    || c == ' ' || '\t' <= c <= '\r' || '\U{1c}' <= c <= '\U{1f}' || c == '\U{85}' || c == '\U{a0}'
    || c == '\U{1680}' || '\U{2000}' <= c <= '\U{200a}' || c == '\U{2028}' || c == '\U{2029}'
    || c == '\U{202f}' || c == '\U{205f}' || c == '\U{3000}'
  }

  ghost predicate Blank(s: string) {
    forall i :: 0 <= i < |s| ==> IsSpace(s[i])
  }

  // _validate_event_reference
  predicate ReferenceOk(base: string, e: Event) {
    var s := SubjectOf(e);
    && (s.Skill? ==> e.skillIds == [e.subjectId])
    && e.machineUrl == Url(base, e.releaseId, MachineFor(s))
    && e.pageUrl == Url(base, e.releaseId, PageOf(PageFor(s)))
  }

  // _expected_event_id
  predicate ChainOk(h: Hash, e: Event, last: Option<Last>) {
    e.id == h(EventIdentity(e.feedId, e.kind, e.subjectId, e.revision,
                            if last.Some? then Some(last.value.id) else None))
  }

  // _validate_event_transition
  predicate TransitionOk(e: Event, last: Option<Last>) {
    if last.Some? && last.value.revision == e.revision then false
    else if !IsSkillKind(e.kind) then
      match last
      case None => e.kind.RecommendationPublished?
      case Some(l) =>
        !l.kind.RecommendationWithdrawn? && (l.kind.RecommendationPublished? ==> e.kind.RecommendationWithdrawn?)
    else
      match last
      case None => e.kind.SkillAdded? || e.kind.SkillWithdrawn?
      case Some(l) => if l.kind.SkillWithdrawn? then e.kind.SkillUpdated? else !e.kind.SkillAdded?
  }

  predicate InRecord(e: Event, r: Record, index: nat) {
    e.sequence == index && e.releaseId == r.releaseId && e.publishedAt == r.publicationTime
  }

  ghost predicate WeaklySorted(events: seq<Event>) {
    forall i, j :: 0 <= i < j < |events| ==> events[i].id <= events[j].id
  }

  ghost predicate HeadOk(s: SnapshotBody) {
    && s.head.sequence >= 1
    && |s.records| == s.head.sequence
    && (forall i :: 0 <= i < |s.records| ==> s.records[i].sequence == i + 1)
    && s.records[|s.records| - 1].releaseId == s.head.releaseId
  }

  // One record on its own, at its position.
  ghost predicate RecordOk(base: string, r: Record, index: nat) {
    && r.previousSequence == (if index == 1 then None else Some(index - 1))
    && WeaklySorted(r.events)
    && forall j :: 0 <= j < |r.events| ==> PlacedOk(base, r.events[j], r, index)
  }

  predicate PlacedOk(base: string, e: Event, r: Record, index: nat) {
    InRecord(e, r, index) && ReferenceOk(base, e)
  }

  ghost function Ids(events: seq<Event>): set<Digest> {
    if events == [] then {} else Ids(events[..|events| - 1]) + {events[|events| - 1].id}
  }

  ghost function ReleaseIds(records: seq<Record>): set<Digest> {
    if records == [] then {} else ReleaseIds(records[..|records| - 1]) + {records[|records| - 1].releaseId}
  }

  // One event against everything before it in the log.
  ghost predicate EventOk(h: Hash, feedId: string, before: seq<Event>, e: Event) {
    Follows(h, feedId, Ids(before), History(before), e)
  }

  predicate Follows(h: Hash, feedId: string, ids: set<Digest>, latest: map<Subject, Last>, e: Event) {
    var last := Lookup(latest, SubjectOf(e));
    e.id !in ids && ChainOk(h, e, last) && TransitionOk(e, last) && e.feedId == feedId
  }

  // Each of `events` against what precedes it, when they follow `before`.
  ghost predicate AllOk(h: Hash, feedId: string, before: seq<Event>, events: seq<Event>) {
    if events == [] then true else
      var front := events[..|events| - 1];
      AllOk(h, feedId, before, front) && EventOk(h, feedId, before + front, events[|events| - 1])
  }

  ghost predicate LogOk(h: Hash, base: string, feedId: string, records: seq<Record>) {
    if records == [] then true else
      var front, r := records[..|records| - 1], records[|records| - 1];
      && LogOk(h, base, feedId, front)
      && r.releaseId !in ReleaseIds(front)
      && RecordOk(base, r, |records|)
      && AllOk(h, feedId, Events(front), r.events)
  }

  // How the folds over the log grow by one event ...
  lemma EventStep(h: Hash, feedId: string, before: seq<Event>, events: seq<Event>, e: Event)
    ensures Ids(before + (events + [e])) == Ids(before + events) + {e.id}
    ensures History(before + (events + [e])) == History(before + events)[SubjectOf(e) := LastOf(e)]
    ensures AllOk(h, feedId, before, events + [e])
        <==> AllOk(h, feedId, before, events) && EventOk(h, feedId, before + events, e)
  {
    var all := before + (events + [e]);
    assert all[..|all| - 1] == before + events;
    assert (events + [e])[..|events|] == events;
  }

  // ... and by one record.
  lemma RecordStep(h: Hash, base: string, feedId: string, front: seq<Record>, r: Record)
    ensures ReleaseIds(front + [r]) == ReleaseIds(front) + {r.releaseId}
    ensures Events(front + [r]) == Events(front) + r.events
    ensures LogOk(h, base, feedId, front + [r]) <==>
            && LogOk(h, base, feedId, front)
            && r.releaseId !in ReleaseIds(front)
            && RecordOk(base, r, |front| + 1)
            && AllOk(h, feedId, Events(front), r.events)
  {
    assert (front + [r])[..|front|] == front;
  }

  lemma {:induction false} AllOkPrefix(h: Hash, feedId: string, before: seq<Event>, events: seq<Event>, n: nat)
    requires n <= |events|
    ensures AllOk(h, feedId, before, events) ==> AllOk(h, feedId, before, events[..n])
    decreases |events|
  {
    if n < |events| {
      var front := events[..|events| - 1];
      AllOkPrefix(h, feedId, before, front, n);
      assert front[..n] == events[..n];
    } else {
      assert events[..n] == events;
    }
  }

  lemma {:induction false} LogOkPrefix(h: Hash, base: string, feedId: string, records: seq<Record>, n: nat)
    requires n <= |records|
    ensures LogOk(h, base, feedId, records) ==> LogOk(h, base, feedId, records[..n])
    decreases |records|
  {
    if n < |records| {
      var front := records[..|records| - 1];
      LogOkPrefix(h, base, feedId, front, n);
      assert front[..n] == records[..n];
    } else {
      assert records[..n] == records;
    }
  }

  // --- What an accepted log says about event IDs ---

  lemma {:induction false} IdsMember(events: seq<Event>, id: Digest)
    ensures id in Ids(events) <==> exists p :: 0 <= p < |events| && events[p].id == id
  {
    if events != [] {
      var front := events[..|events| - 1];
      IdsMember(front, id);
      if p :| 0 <= p < |events| && events[p].id == id {
        if p < |front| {
          assert front[p].id == id;
        }
      }
      if p :| 0 <= p < |front| && front[p].id == id {
        assert events[p].id == id;
      }
    }
  }

  // In a checked log, the event at p was checked against the log before p.
  lemma {:induction false} AllOkAt(h: Hash, feedId: string, before: seq<Event>, events: seq<Event>, p: nat)
    requires AllOk(h, feedId, before, events) && p < |events|
    ensures EventOk(h, feedId, before + events[..p], events[p])
    decreases |events|
  {
    var front := events[..|events| - 1];
    if p < |front| {
      AllOkAt(h, feedId, before, front, p);
      assert front[..p] == events[..p];
    }
  }

  lemma {:induction false} DistinctEventIds(h: Hash, feedId: string, events: seq<Event>, p: nat, q: nat)
    requires AllOk(h, feedId, [], events) && p < q < |events|
    ensures events[p].id != events[q].id
  {
    AllOkAt(h, feedId, [], events, q);
    assert [] + events[..q] == events[..q];
    IdsMember(events[..q], events[q].id);
    assert events[..q][p] == events[p];
  }

  lemma {:induction false} EventsMember(records: seq<Record>, a: nat, e: Event)
    requires a < |records| && e in records[a].events
    ensures e in Events(records)
  {
    var n := |records| - 1;
    if a < n {
      EventsMember(records[..n], a, e);
    }
  }

  lemma {:induction false} LogOkAt(h: Hash, base: string, feedId: string, records: seq<Record>, b: nat)
    requires LogOk(h, base, feedId, records) && b < |records|
    ensures RecordOk(base, records[b], b + 1) && records[b].releaseId !in ReleaseIds(records[..b])
    ensures AllOk(h, feedId, Events(records[..b]), records[b].events)
  {
    LogOkPrefix(h, base, feedId, records, b + 1);
    TakeNext(records, b);
    RecordStep(h, base, feedId, records[..b], records[b]);
  }

  // Events of different records have different IDs, and inside a record the IDs increase.
  lemma CrossIds(h: Hash, base: string, feedId: string, records: seq<Record>, a: nat, b: nat, x: Event, y: Event)
    requires LogOk(h, base, feedId, records) && a < b < |records|
    requires x in records[a].events && y in records[b].events
    ensures x.id != y.id
  {
    LogOkAt(h, base, feedId, records, b);
    var before := Events(records[..b]);
    assert records[..b][a] == records[a];
    EventsMember(records[..b], a, x);
    var j :| 0 <= j < |records[b].events| && records[b].events[j] == y;
    AllOkAt(h, feedId, before, records[b].events, j);
    IdsMember(before + records[b].events[..j], y.id);
    var p :| 0 <= p < |before| && before[p] == x;
    assert (before + records[b].events[..j])[p] == x;
  }

  lemma RecordSorted(h: Hash, base: string, feedId: string, records: seq<Record>, b: nat)
    requires LogOk(h, base, feedId, records) && b < |records|
    ensures SortedById(records[b].events)
  {
    LogOkAt(h, base, feedId, records, b);
    var before, events := Events(records[..b]), records[b].events;
    forall i, j | 0 <= i < j < |events| ensures events[i].id < events[j].id {
      AllOkAt(h, feedId, before, events, j);
      NotBefore(before, events[..j], events[j].id, i);
    }
  }

  lemma NotBefore(before: seq<Event>, events: seq<Event>, id: Digest, i: nat)
    requires i < |events| && id !in Ids(before + events)
    ensures events[i].id != id
  {
    IdsMember(before + events, id);
    assert (before + events)[|before| + i] == events[i];
  }

  // --- Subjects and documents ---

  function EntryLifecycle(item: CatalogItem): Lifecycle {
    if item.entryLifecycle.Some? then item.entryLifecycle.value else Active
  }

  predicate EntryOk(h: Hash, item: CatalogItem) {
    h(EntryOf(item)) == item.entryDigest && item.lifecycle == EntryLifecycle(item)
  }

  ghost predicate CatalogOk(h: Hash, a: Artifact, sourceCommit: string) {
    && a.sourceCommit == sourceCommit
    && Distinct(CatalogIds(a.catalog))
    && forall i :: 0 <= i < |a.catalog| ==> EntryOk(h, a.catalog[i])
  }

  // _validate_install
  predicate InstallOk(h: Hash, a: Artifact, id: Id) {
    && id in a.installs
    && FindItem(a.catalog, id).Some?
    && a.installs[id].skillId == id
    && a.installs[id].entryDigest == FindItem(a.catalog, id).value.entryDigest
    && a.installs[id].source == FindItem(a.catalog, id).value.source
    && a.installs[id].install == FindItem(a.catalog, id).value.install
    && h(UnsignedOf(a.installs[id])) == a.installs[id].installDigest
  }

  predicate SkillSubjectOk(h: Hash, a: Artifact, e: Event) {
    var item := FindItem(a.catalog, e.subjectId);
    && item.Some?
    && (e.kind.SkillWithdrawn? <==> LifecycleOf(item.value).Withdrawn?)
    && InstallOk(h, a, e.subjectId)
    && h(Semantic(item.value)) == e.revision
  }

  ghost predicate AdviceDocumentOk(a: Artifact) {
    && Distinct(AdviceIds(a.recommendations))
    && forall i :: 0 <= i < |a.recommendations| ==> !a.recommendations[i].status.Draft?
  }

  ghost predicate AdviceSubjectOk(h: Hash, a: Artifact, e: Event) {
    var advice := FindAdvice(a.recommendations, e.subjectId);
    && AdviceDocumentOk(a)
    && advice.Some?
    && (if e.kind.RecommendationWithdrawn? then advice.value.status.Retired? else advice.value.status.Ready?)
    && RefIds(advice.value.skills) == e.skillIds
    && (forall k :: 0 <= k < |e.skillIds| ==> AdvisedSkillOk(h, a, e, e.skillIds[k]))
    && e.revision == h(if e.kind.RecommendationWithdrawn? then WithdrawnAdvice(e.subjectId)
                       else ReadyAdvice(e.subjectId, advice.value.skills))
  }

  predicate AdvisedSkillOk(h: Hash, a: Artifact, e: Event, id: Id) {
    var item := FindItem(a.catalog, id);
    item.Some? && (e.kind.RecommendationPublished? ==> EntryLifecycle(item.value).Active?) && InstallOk(h, a, id)
  }

  ghost predicate SubjectOk(h: Hash, documents: map<Digest, Artifact>, r: Record, e: Event) {
    && e.releaseId in documents
    && CatalogOk(h, documents[e.releaseId], r.sourceCommit)
    && (if IsSkillKind(e.kind) then SkillSubjectOk(h, documents[e.releaseId], e)
        else AdviceSubjectOk(h, documents[e.releaseId], e))
  }

  ghost predicate SubjectsOk(h: Hash, s: SnapshotBody) {
    forall i, j :: 0 <= i < |s.records| && 0 <= j < |s.records[i].events| ==>
      SubjectOk(h, s.documents, s.records[i], s.records[i].events[j])
  }

  // validate_snapshot_v2 accepts exactly these snapshots.
  ghost predicate Accepted(h: Hash, identify: SnapshotHash, s: FeedSnapshot, validateSubjects: bool) {
    && !Blank(s.feedId)
    && HeadOk(s.body)
    && LogOk(h, s.base, s.feedId, s.body.records)
    && (validateSubjects ==> SubjectsOk(h, s.body) && s.identity == identify(s.body))
  }

  // --- The algorithm ---

  method IsBlank(s: string) returns (blank: bool)
    ensures blank <==> Blank(s)
  {
    for i := 0 to |s|
      invariant forall j :: 0 <= j < i ==> IsSpace(s[j])
    {
      if !IsSpace(s[i]) {
        return false;
      }
    }
    blank := true;
  }

  method CheckHead(s: SnapshotBody) returns (ok: bool)
    ensures ok <==> HeadOk(s)
  {
    if s.head.sequence < 1 || |s.records| != s.head.sequence {
      return false;
    }
    for i := 0 to |s.records|
      invariant forall j :: 0 <= j < i ==> s.records[j].sequence == j + 1
    {
      if s.records[i].sequence != i + 1 {
        return false;
      }
    }
    ok := s.records[|s.records| - 1].releaseId == s.head.releaseId;
  }

  method CheckSorted(events: seq<Event>) returns (ok: bool)
    ensures ok <==> WeaklySorted(events)
  {
    if events == [] {
      return true;
    }
    for i := 1 to |events|
      invariant forall j, k :: 0 <= j < k < i ==> events[j].id <= events[k].id
    {
      if events[i].id < events[i - 1].id {
        return false;
      }
    }
    ok := true;
  }

  // The inner loop of validate_snapshot_v2: the events of one record, after `before`.
  method CheckEvents(h: Hash, base: string, feedId: string, r: Record, index: nat, ghost before: seq<Event>,
                     ids: set<Digest>, latest: map<Subject, Last>)
    returns (ok: bool, ids': set<Digest>, latest': map<Subject, Last>)
    requires ids == Ids(before) && latest == History(before)
    ensures ok <==> (forall j :: 0 <= j < |r.events| ==> PlacedOk(base, r.events[j], r, index))
                    && AllOk(h, feedId, before, r.events)
    ensures ok ==> ids' == Ids(before + r.events) && latest' == History(before + r.events)
  {
    hide Follows, PlacedOk, Ids, History;
    ids', latest' := ids, latest;
    ghost var done: seq<Event> := [];
    assert before + done == before;
    for j := 0 to |r.events|
      invariant done == r.events[..j]
      invariant forall k :: 0 <= k < j ==> PlacedOk(base, r.events[k], r, index)
      invariant AllOk(h, feedId, before, done)
      invariant ids' == Ids(before + done) && latest' == History(before + done)
    {
      var e := r.events[j];
      if !PlacedOk(base, e, r, index) || !Follows(h, feedId, ids', latest', e) {
        RejectEvent(h, base, feedId, r, index, before, j);
        return false, ids', latest';
      }
      EventStep(h, feedId, before, done, e);
      TakeNext(r.events, j);
      ids' := ids' + {e.id};
      latest' := latest'[SubjectOf(e) := LastOf(e)];
      done := done + [e];
    }
    assert done == r.events;
    ok := true;
  }

  lemma RejectEvent(h: Hash, base: string, feedId: string, r: Record, index: nat, before: seq<Event>, j: nat)
    requires j < |r.events|
    requires !PlacedOk(base, r.events[j], r, index) || !EventOk(h, feedId, before + r.events[..j], r.events[j])
    ensures !((forall k :: 0 <= k < |r.events| ==> PlacedOk(base, r.events[k], r, index))
              && AllOk(h, feedId, before, r.events))
  {
    TakeNext(r.events, j);
    AllOkPrefix(h, feedId, before, r.events, j + 1);
    EventStep(h, feedId, before, r.events[..j], r.events[j]);
  }

  // One pass of the outer loop.
  method CheckRecord(h: Hash, base: string, feedId: string, ghost front: seq<Record>, r: Record, index: nat,
                     ids: set<Digest>, latest: map<Subject, Last>, releaseIds: set<Digest>)
    returns (ok: bool, ids': set<Digest>, latest': map<Subject, Last>)
    requires index == |front| + 1 && LogOk(h, base, feedId, front) && releaseIds == ReleaseIds(front)
    requires ids == Ids(Events(front)) && latest == History(Events(front))
    ensures ok <==> LogOk(h, base, feedId, front + [r])
    ensures ok ==> ids' == Ids(Events(front + [r])) && latest' == History(Events(front + [r]))
  {
    hide PlacedOk, AllOk, Ids, History, LogOk;
    RecordStep(h, base, feedId, front, r);
    ids', latest' := ids, latest;
    var sorted := CheckSorted(r.events);
    if r.releaseId in releaseIds || r.previousSequence != (if index == 1 then None else Some(index - 1)) || !sorted {
      return false, ids', latest';
    }
    ok, ids', latest' := CheckEvents(h, base, feedId, r, index, Events(front), ids, latest);
  }

  // The outer loop of validate_snapshot_v2.
  method CheckLog(h: Hash, base: string, feedId: string, records: seq<Record>) returns (ok: bool)
    ensures ok <==> LogOk(h, base, feedId, records)
  {
    hide RecordOk, AllOk;
    var ids: set<Digest> := {};
    var latest: map<Subject, Last> := map[];
    var releaseIds: set<Digest> := {};
    ghost var front: seq<Record> := [];
    for i := 0 to |records|
      invariant front == records[..i]
      invariant LogOk(h, base, feedId, front)
      invariant releaseIds == ReleaseIds(front)
      invariant ids == Ids(Events(front)) && latest == History(Events(front))
    {
      var r := records[i];
      TakeNext(records, i);
      LogOkPrefix(h, base, feedId, records, i + 1);
      RecordStep(h, base, feedId, front, r);
      ok, ids, latest := CheckRecord(h, base, feedId, front, r, i + 1, ids, latest, releaseIds);
      if !ok {
        return false;
      }
      releaseIds := releaseIds + {r.releaseId};
      front := front + [r];
    }
    assert front == records;
    ok := true;
  }

  method CheckCatalogDocument(h: Hash, a: Artifact, sourceCommit: string) returns (ok: bool)
    ensures ok <==> CatalogOk(h, a, sourceCommit)
  {
    if a.sourceCommit != sourceCommit {
      return false;
    }
    ghost var all := CatalogIds(a.catalog);
    var seen: set<Id> := {};
    for n := 0 to |a.catalog|
      invariant Distinct(all[..n])
      invariant forall i :: 0 <= i < n ==> EntryOk(h, a.catalog[i])
      invariant forall id :: id in seen <==> id in all[..n]
    {
      var item := a.catalog[n];
      assert all[..n + 1] == all[..n] + [item.id];
      DistinctAppend(all[..n], item.id);
      if item.id in seen || !EntryOk(h, item) {
        DistinctPrefix(all, n + 1);
        return false;
      }
      seen := seen + {item.id};
    }
    assert all[..|all|] == all;
    ok := true;
  }

  method CheckAdviceDocument(a: Artifact) returns (ok: bool)
    ensures ok <==> AdviceDocumentOk(a)
  {
    ghost var all := AdviceIds(a.recommendations);
    var seen: set<Id> := {};
    for n := 0 to |a.recommendations|
      invariant Distinct(all[..n])
      invariant forall i :: 0 <= i < n ==> !a.recommendations[i].status.Draft?
      invariant forall id :: id in seen <==> id in all[..n]
    {
      var r := a.recommendations[n];
      assert all[..n + 1] == all[..n] + [r.id];
      DistinctAppend(all[..n], r.id);
      if r.id in seen || r.status.Draft? {
        DistinctPrefix(all, n + 1);
        return false;
      }
      seen := seen + {r.id};
    }
    assert all[..|all|] == all;
    ok := true;
  }

  method CheckAdviceSubject(h: Hash, a: Artifact, e: Event) returns (ok: bool)
    ensures ok <==> AdviceSubjectOk(h, a, e)
  {
    ok := CheckAdviceDocument(a);
    var advice := FindAdvice(a.recommendations, e.subjectId);
    if !ok || advice.None? {
      return false;
    }
    var withdrawn := e.kind.RecommendationWithdrawn?;
    if (withdrawn && !advice.value.status.Retired?) || (!withdrawn && !advice.value.status.Ready?) {
      return false;
    }
    if RefIds(advice.value.skills) != e.skillIds {
      return false;
    }
    for k := 0 to |e.skillIds|
      invariant forall m :: 0 <= m < k ==> AdvisedSkillOk(h, a, e, e.skillIds[m])
    {
      if !AdvisedSkillOk(h, a, e, e.skillIds[k]) {
        return false;
      }
    }
    ok := e.revision
      == h(if withdrawn then WithdrawnAdvice(e.subjectId) else ReadyAdvice(e.subjectId, advice.value.skills));
  }

  method CheckSubject(h: Hash, documents: map<Digest, Artifact>, r: Record, e: Event) returns (ok: bool)
    ensures ok <==> SubjectOk(h, documents, r, e)
  {
    if e.releaseId !in documents {
      return false;
    }
    ok := CheckCatalogDocument(h, documents[e.releaseId], r.sourceCommit);
    if ok {
      if IsSkillKind(e.kind) {
        ok := SkillSubjectOk(h, documents[e.releaseId], e);
      } else {
        ok := CheckAdviceSubject(h, documents[e.releaseId], e);
      }
    }
  }

  // validate_snapshot_v2
  method ValidateSnapshot(h: Hash, identify: SnapshotHash, s: FeedSnapshot, validateSubjects: bool) returns (ok: bool)
    ensures ok <==> Accepted(h, identify, s, validateSubjects)
  {
    hide LogOk, SubjectOk, HeadOk, Blank;
    var blank := IsBlank(s.feedId);
    var headOk := CheckHead(s.body);
    if blank || !headOk {
      return false;
    }
    ok := CheckLog(h, s.base, s.feedId, s.body.records);
    if !ok || !validateSubjects {
      return;
    }
    var records := s.body.records;
    for i := 0 to |records|
      invariant forall a, b :: 0 <= a < i && 0 <= b < |records[a].events| ==>
                  SubjectOk(h, s.body.documents, records[a], records[a].events[b])
    {
      for j := 0 to |records[i].events|
        invariant forall b :: 0 <= b < j ==> SubjectOk(h, s.body.documents, records[i], records[i].events[b])
      {
        var fine := CheckSubject(h, s.body.documents, records[i], records[i].events[j]);
        if !fine {
          return false;
        }
      }
    }
    ok := s.identity == identify(s.body);
  }
}
