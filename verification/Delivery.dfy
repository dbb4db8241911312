/** What the consumer's update items mean, and why a consumer that keeps up is
    never left with a stale promotion. */
module Delivery {
  import opened Options
  import opened TextOrder
  import opened Documents
  import opened Artifacts
  import opened Derivation
  import opened FeedCheck
  import opened Agreement
  import opened Filtering

  // --- The folded index equals the head catalog ---

  lemma {:induction false} AdviceFollowsHistory(events: seq<Event>, id: Id)
    ensures Lookup(LatestAdvice(events), id) ==
            (match Lookup(History(events), Advice(id))
             case None => None
             case Some(l) => Some(l.kind.RecommendationPublished?))
  {
    if events != [] {
      AdviceFollowsHistory(events[..|events| - 1], id);
    }
  }

  predicate Mentions(e: Event, id: Id) {
    id in e.skillIds
  }

  lemma NoteLookup(documents: Library, m: map<Id, Lifecycle>, e: Event, id: Id, l: Lifecycle)
    requires Mentions(e, id) ==> LifecycleAt(documents, e, id) == l
    requires e.kind.SkillWithdrawn? && e.subjectId == id ==> Mentions(e, id) && l == Withdrawn
    ensures Lookup(NoteEvent(documents, m, e), id) == if Mentions(e, id) then Some(l) else Lookup(m, id)
  {
    hide LifecycleAt;
  }

  // Folding one record's events: a mentioned skill gets its lifecycle in that release.
  lemma {:induction false} FoldRecord(documents: Library, log: seq<Event>, events: seq<Event>, id: Id, l: Lifecycle)
    requires forall j :: 0 <= j < |events| && Mentions(events[j], id) ==> LifecycleAt(documents, events[j], id) == l
    requires forall j :: 0 <= j < |events| && events[j].kind.SkillWithdrawn? && events[j].subjectId == id ==>
                           Mentions(events[j], id) && l == Withdrawn
    ensures Lookup(LatestSkills(documents, log + events), id) ==
            if exists j :: 0 <= j < |events| && Mentions(events[j], id) then Some(l)
            else Lookup(LatestSkills(documents, log), id)
  {
    hide LatestSkills, NoteEvent, Mentions, LifecycleAt, Lookup;
    if events == [] {
      assert log + events == log;
    } else {
      var n := |events| - 1;
      var front, e := events[..n], events[n];
      FoldRecord(documents, log, front, id, l);
      assert log + events == (log + front) + [e];
      LatestAppend(documents, log + front, e);
      NoteLookup(documents, LatestSkills(documents, log + front), e, id, l);
      if j :| 0 <= j < n && Mentions(events[j], id) {
        assert Mentions(front[j], id);
      }
    }
  }

  ghost function HeadLifecycle(a: Option<Artifact>, id: Id): Option<Lifecycle> {
    if id in PreviousSkills(a) then Some(LifecycleOf(PreviousSkills(a)[id])) else None
  }

  lemma Listed(r: Release, events: seq<Event>, s: Subject)
    requires Injective(r.h) && r.Derive() == Some(events) && s in r.Subjects() && r.Decide(s).Emit?
    ensures exists j :: 0 <= j < |events| && events[j] == r.EventOf(s) && SubjectOf(events[j]) == s
  {
    r.ArrangeCovers(r.Subjects());
    r.EventSubject(s);
    assert r.Belongs(r.Subjects(), r.EventOf(s));
  }

  // A skill that a derived record does not mention keeps its lifecycle.
  lemma UnmentionedKeeps(r: Release, sourceCommit: string, events: seq<Event>, id: Id)
    requires Injective(r.h) && Synced(r.h, r.previous, r.history) && ValidArtifact(r.h, r.current, sourceCommit)
    requires r.Derive() == Some(events)
    requires forall j :: 0 <= j < |events| ==> SubjectOf(events[j]) != Skill(id)
    ensures HeadLifecycle(Some(r.current), id) == HeadLifecycle(r.previous, id)
  {
    var s := Skill(id);
    r.ArrangeCovers(r.Subjects());
    if s in r.Subjects() {
      SubjectStep(r, sourceCommit, s, 0);
      if r.Decide(s).Emit? {
        Listed(r, events, s);
      }
    }
  }

  // A derived event mentions skills of its own catalog; a skill's event its own.
  lemma SkillMentioned(r: Release, sourceCommit: string, e: Event)
    requires ValidArtifact(r.h, r.current, sourceCommit) && r.Belongs(r.Subjects(), e) && IsSkillKind(e.kind)
    ensures e.skillIds == [e.subjectId] && e.subjectId in SkillMap(r.current.catalog)
    ensures e.kind.SkillWithdrawn? ==> LifecycleOf(SkillMap(r.current.catalog)[e.subjectId]) == Withdrawn
  {
    r.EventSubject(SubjectOf(e));
  }

  lemma AdviceMentioned(r: Release, sourceCommit: string, e: Event, id: Id)
    requires ValidArtifact(r.h, r.current, sourceCommit) && r.Belongs(r.Subjects(), e) && !IsSkillKind(e.kind)
    requires Mentions(e, id)
    ensures id in SkillMap(r.current.catalog)
  {
    r.EventSubject(SubjectOf(e));
    var advice := AdviceMap(r.current.recommendations)[e.subjectId];
    NoDrafts(r.h, r.current, sourceCommit, e.subjectId);
    var k :| 0 <= k < |e.skillIds| && e.skillIds[k] == id;
    assert RefOk(r.current, advice, advice.skills[k].id);
  }

  lemma MentionedLifecycle(r: Release, sourceCommit: string, events: seq<Event>, documents: Library, j: nat, id: Id)
    requires Injective(r.h) && ValidArtifact(r.h, r.current, sourceCommit)
    requires r.Derive() == Some(events) && j < |events| && Carries(documents, r.current, events[j])
    ensures Mentions(events[j], id) ==>
              Some(LifecycleAt(documents, events[j], id)) == HeadLifecycle(Some(r.current), id)
    ensures SubjectOf(events[j]) == Skill(id) ==> Mentions(events[j], id)
    ensures events[j].kind.SkillWithdrawn? && events[j].subjectId == id
        ==> HeadLifecycle(Some(r.current), id) == Some(Withdrawn)
  {
    var e := events[j];
    DerivedEvent(r, events, j);
    FoundItem(r.h, r.current, sourceCommit, id);
    if IsSkillKind(e.kind) {
      SkillMentioned(r, sourceCommit, e);
    } else if Mentions(e, id) {
      AdviceMentioned(r, sourceCommit, e, id);
    }
    hide Injective, ValidArtifact, FindItem, SkillMap;
  }

  lemma FoldPublished(r: Release, sourceCommit: string, log: seq<Event>, events: seq<Event>, documents: Library, id: Id)
    requires Injective(r.h) && Synced(r.h, r.previous, r.history) && ValidArtifact(r.h, r.current, sourceCommit)
    requires r.Derive() == Some(events)
    requires forall j :: 0 <= j < |events| ==> Carries(documents, r.current, events[j])
    requires Lookup(LatestSkills(documents, log), id) == HeadLifecycle(r.previous, id)
    ensures Lookup(LatestSkills(documents, log + events), id) == HeadLifecycle(Some(r.current), id)
  {
    var head := HeadLifecycle(Some(r.current), id);
    var l := if head.Some? then head.value else Active;
    forall j | 0 <= j < |events|
      ensures Mentions(events[j], id) ==> LifecycleAt(documents, events[j], id) == l && head.Some?
      ensures events[j].kind.SkillWithdrawn? && events[j].subjectId == id ==> Mentions(events[j], id) && l == Withdrawn
    {
      MentionedLifecycle(r, sourceCommit, events, documents, j, id);
    }
    FoldRecord(documents, log, events, id, l);
    if forall j :: 0 <= j < |events| ==> !Mentions(events[j], id) {
      forall j | 0 <= j < |events| ensures SubjectOf(events[j]) != Skill(id) {
        MentionedLifecycle(r, sourceCommit, events, documents, j, id);
      }
      UnmentionedKeeps(r, sourceCommit, events, id);
    }
  }

  // On a publisher's feed the consumer's index is the head catalog: every skill
  // has its head lifecycle, and the active recommendations are the ready ones.
  lemma LatestIsHead(h: Hash, feedId: string, base: string, artifacts: seq<Artifact>, records: seq<Record>,
                     documents: Library, id: Id)
    requires Injective(h) && Published(h, feedId, base, artifacts, records) && Serves(documents, artifacts, records)
    ensures Lookup(LatestSkills(documents, Events(records)), id) == HeadLifecycle(LastArtifact(artifacts), id)
    ensures Lookup(LatestAdvice(Events(records)), id) == Some(true) <==>
            id in PreviousAdvice(LastArtifact(artifacts)) && PreviousAdvice(LastArtifact(artifacts))[id].status.Ready?
  {
    assert |artifacts| == |records|;
    PublishedAccepted(h, feedId, base, artifacts, records);
    hide Published, Serves, Injective, LogOk, AllOk;
    AdviceFollowsHistory(Events(records), id);
    assert AdviceSynced(h, id, Lookup(PreviousAdvice(LastArtifact(artifacts)), id),
                        Lookup(History(Events(records)), Advice(id)));
    for k := 0 to |records|
      invariant Lookup(LatestSkills(documents, Events(records[..k])), id)
          == HeadLifecycle(LastArtifact(artifacts[..k]), id)
    {
      LatestStep(h, feedId, base, artifacts, records, documents, id, k);
    }
    assert records[..|records|] == records && artifacts[..|artifacts|] == artifacts;
  }

  lemma LatestStep(h: Hash, feedId: string, base: string, artifacts: seq<Artifact>, records: seq<Record>,
                   documents: Library, id: Id, k: nat)
    requires Injective(h) && Published(h, feedId, base, artifacts, records) && Serves(documents, artifacts, records)
    requires k < |records|
    requires Lookup(LatestSkills(documents, Events(records[..k])), id)
        == HeadLifecycle(LastArtifact(artifacts[..k]), id)
    ensures Lookup(LatestSkills(documents, Events(records[..k + 1])), id)
        == HeadLifecycle(LastArtifact(artifacts[..k + 1]), id)
  {
    assert PublishedAt(h, feedId, base, artifacts, records, k);
    PublishedPrefix(h, feedId, base, artifacts, records, k);
    PublishedAccepted(h, feedId, base, artifacts[..k], records[..k]);
    var r := NextRelease(h, feedId, base, artifacts[..k], records[..k], artifacts[k], records[k]);
    FoldPublished(r, records[k].sourceCommit, Events(records[..k]), records[k].events, documents, id);
    TakeNext(records, k);
    EventsAppend(records[..k], records[k]);
  }

  // --- Items partition the surviving events ---

  // Each surviving event is in its leader's group and in no other.
  lemma Partition(v: seq<Event>, i: nat, k: nat)
    requires SortedById(v) && i < |v| && k < |v|
    ensures v[i] in Group(v, k) <==> k == Leader(v, i)
    ensures Leader(v, Leader(v, i)) == Leader(v, i)
  {
    LeaderLeads(v, i);
    GroupMembers(v, k, |v|);
    if m :| 0 <= m < |v| && Leader(v, m) == k && v[m] == v[i] {
      SortedIndex(v, i, m);
    }
  }

  ghost predicate SurvivesAt(s: SnapshotBody, i: nat, e: Event) {
    i < |s.records| && e in s.records[i].events && Survives(s.documents, LatestOf(s), e)
  }

  lemma EventIdsMembers(events: seq<Event>, id: Digest)
    ensures id in EventIds(events) <==> exists e :: e in events && e.id == id
  {
    if id in EventIds(events) {
      var i :| 0 <= i < |events| && EventIds(events)[i] == id;
      assert events[i] in events;
    }
    if e :| e in events && e.id == id {
      var i :| 0 <= i < |events| && events[i] == e;
      assert EventIds(events)[i] == id;
    }
  }

  // The item of a surviving event.
  lemma ItemOfEvent(h: Hash, base: string, feedId: string, ih: ItemHash, s: SnapshotBody, from: nat, i: nat, e: Event)
    returns (x: UpdateItem)
    requires LogOk(h, base, feedId, s.records) && SurvivesAt(s, i, e) && from <= i
    ensures ItemAt(ih, s, from, i, x) && e.id in x.eventIds
  {
    var latest := LatestOf(s);
    var v := SurvivorsAt(s, latest, i);
    SurvivorsSorted(h, base, feedId, s, i);
    var p :| 0 <= p < |v| && v[p] == e;
    Partition(v, p, Leader(v, p));
    x := MakeItem(ih, s.documents, latest.skills, Group(v, Leader(v, p)));
    EventIdsMembers(Group(v, Leader(v, p)), e.id);
    assert LedItem(ih, s.documents, latest.skills, v, Leader(v, p), x);
    assert RecordItem(ih, s.documents, latest.skills, v, x);
  }

  lemma SurvivorsSorted(h: Hash, base: string, feedId: string, s: SnapshotBody, i: nat)
    requires LogOk(h, base, feedId, s.records) && i < |s.records|
    ensures SortedById(SurvivorsAt(s, LatestOf(s), i))
    ensures forall e :: e in SurvivorsAt(s, LatestOf(s), i) <==> SurvivesAt(s, i, e)
  {
    RecordSorted(h, base, feedId, s.records, i);
    SurvivorsMembers(s.documents, LatestOf(s), s.records[i].events);
  }

  lemma {:induction false} FirstAdviceMember(events: seq<Event>)
    ensures FirstAdvice(events).Some?
        ==> FirstAdvice(events).value in events && !IsSkillKind(FirstAdvice(events).value.kind)
    ensures FirstAdvice(events).None? ==> forall e :: e in events ==> IsSkillKind(e.kind)
  {
    if events != [] && IsSkillKind(events[0].kind) {
      FirstAdviceMember(events[1..]);
      assert events == [events[0]] + events[1..];
    }
  }

  // Where an item comes from: a leader among the surviving events of its record.
  lemma ItemSource(h: Hash, base: string, feedId: string, ih: ItemHash, s: SnapshotBody, i: nat, x: UpdateItem)
    returns (k: nat)
    requires LogOk(h, base, feedId, s.records) && ItemAt(ih, s, 0, i, x)
    ensures LedItem(ih, s.documents, LatestOf(s).skills, SurvivorsAt(s, LatestOf(s), i), k, x)
    ensures forall e :: e in Group(SurvivorsAt(s, LatestOf(s), i), k) ==> SurvivesAt(s, i, e)
    ensures x.sequence == i + 1
  {
    var v := SurvivorsAt(s, LatestOf(s), i);
    k :| LedItem(ih, s.documents, LatestOf(s).skills, v, k, x);
    GroupSurvives(h, base, feedId, s, i, k);
    var g := Group(v, k);
    FirstAdviceMember(g);
    assert Primary(g) in g;
    RecordPlaced(h, base, feedId, s.records, i, Primary(g));
  }

  lemma GroupSurvives(h: Hash, base: string, feedId: string, s: SnapshotBody, i: nat, k: nat)
    requires LogOk(h, base, feedId, s.records) && i < |s.records|
    ensures forall e :: e in Group(SurvivorsAt(s, LatestOf(s), i), k) ==> SurvivesAt(s, i, e)
  {
    var v := SurvivorsAt(s, LatestOf(s), i);
    SurvivorsSorted(h, base, feedId, s, i);
    GroupMembers(v, k, |v|);
    forall e | e in Group(v, k) ensures SurvivesAt(s, i, e) {
      assert e in v;
    }
  }

  lemma RecordPlaced(h: Hash, base: string, feedId: string, records: seq<Record>, i: nat, e: Event)
    requires LogOk(h, base, feedId, records) && i < |records| && e in records[i].events
    ensures PlacedOk(base, e, records[i], i + 1)
  {
    LogOkAt(h, base, feedId, records, i);
    var j :| 0 <= j < |records[i].events| && records[i].events[j] == e;
    assert PlacedOk(base, records[i].events[j], records[i], i + 1);
  }

  // The event of an item that carries a given ID.
  lemma ItemEvent(h: Hash, base: string, feedId: string, ih: ItemHash, s: SnapshotBody, i: nat, x: UpdateItem,
                  id: Digest)
    returns (k: nat, e: Event)
    requires LogOk(h, base, feedId, s.records) && ItemAt(ih, s, 0, i, x) && id in x.eventIds
    ensures LedItem(ih, s.documents, LatestOf(s).skills, SurvivorsAt(s, LatestOf(s), i), k, x)
    ensures e in Group(SurvivorsAt(s, LatestOf(s), i), k) && e.id == id && SurvivesAt(s, i, e)
  {
    k := ItemSource(h, base, feedId, ih, s, i, x);
    EventIdsMembers(Group(SurvivorsAt(s, LatestOf(s), i), k), id);
    e :| e in Group(SurvivorsAt(s, LatestOf(s), i), k) && e.id == id;
  }

  lemma SameGroup(v: seq<Event>, k: nat, m: nat, d: Event, f: Event)
    requires SortedById(v) && d in Group(v, k) && f in Group(v, m) && d.id == f.id
    ensures k == m
  {
    GroupMembers(v, k, |v|);
    GroupMembers(v, m, |v|);
    var p :| 0 <= p < |v| && Leader(v, p) == k && v[p] == d;
    var q :| 0 <= q < |v| && Leader(v, q) == m && v[q] == f;
    SortedIndex(v, p, q);
  }

  lemma SamePlace(h: Hash, base: string, feedId: string, s: SnapshotBody, a: nat, b: nat, d: Event, f: Event)
    requires LogOk(h, base, feedId, s.records) && SurvivesAt(s, a, d) && SurvivesAt(s, b, f) && d.id == f.id
    ensures a == b
  {
    if a < b {
      CrossIds(h, base, feedId, s.records, a, b, d, f);
    } else if b < a {
      CrossIds(h, base, feedId, s.records, b, a, f, d);
    }
  }

  // Two items that share an event are the same item.
  lemma OneItemPerEvent(h: Hash, base: string, feedId: string, ih: ItemHash, s: SnapshotBody, a: nat, b: nat,
                        id: Digest, x: UpdateItem, y: UpdateItem)
    requires LogOk(h, base, feedId, s.records)
    requires ItemAt(ih, s, 0, a, x) && ItemAt(ih, s, 0, b, y) && id in x.eventIds && id in y.eventIds
    ensures x == y
  {
    var k, d := ItemEvent(h, base, feedId, ih, s, a, x, id);
    var m, f := ItemEvent(h, base, feedId, ih, s, b, y, id);
    SamePlace(h, base, feedId, s, a, b, d, f);
    SurvivorsSorted(h, base, feedId, s, a);
    SameGroup(SurvivorsAt(s, LatestOf(s), a), k, m, d, f);
  }

  // No withdrawal is held back: every withdrawal after the cursor is in an item
  // that shows the lifecycle as withdrawn.
  lemma WithdrawalDelivered(h: Hash, base: string, feedId: string, ih: ItemHash, s: SnapshotBody, from: nat, i: nat,
                            e: Event)
    returns (x: UpdateItem)
    requires LogOk(h, base, feedId, s.records) && from <= i < |s.records|
    requires e in s.records[i].events && IsWithdrawal(e.kind)
    ensures ItemAt(ih, s, from, i, x) && e.id in x.eventIds && x.lifecycle == Withdrawn && x.sequence == i + 1
  {
    x := ItemOfEvent(h, base, feedId, ih, s, from, i, e);
    assert ItemAt(ih, s, 0, i, x);
    var k, f := ItemEvent(h, base, feedId, ih, s, i, x, e.id);
    var _ := ItemSource(h, base, feedId, ih, s, i, x);
    SamePlaced(h, base, feedId, s, i, e, f);
    var g := Group(SurvivorsAt(s, LatestOf(s), i), k);
    var p :| 0 <= p < |g| && g[p] == f;
  }

  lemma SamePlaced(h: Hash, base: string, feedId: string, s: SnapshotBody, i: nat, e: Event, f: Event)
    requires LogOk(h, base, feedId, s.records) && i < |s.records|
    requires e in s.records[i].events && f in s.records[i].events && e.id == f.id
    ensures e == f
  {
    RecordSorted(h, base, feedId, s.records, i);
  }

  // The items after b are the items after any earlier a whose sequence exceeds b.
  lemma LaterCursor(h: Hash, base: string, feedId: string, ih: ItemHash, s: SnapshotBody, a: nat, b: nat, x: UpdateItem)
    requires LogOk(h, base, feedId, s.records) && a <= b
    ensures ItemAfter(ih, s, b, x) <==> ItemAfter(ih, s, a, x) && x.sequence > b
  {
    if ItemAfter(ih, s, a, x) {
      var i: nat :| ItemAt(ih, s, a, i, x);
      var _ := ItemSource(h, base, feedId, ih, s, i, x);
      if x.sequence > b {
        assert ItemAt(ih, s, b, i, x);
      }
    }
    if ItemAfter(ih, s, b, x) {
      var i: nat :| ItemAt(ih, s, b, i, x);
      var _ := ItemSource(h, base, feedId, ih, s, i, x);
      assert ItemAt(ih, s, a, i, x);
    }
  }

  // --- What an item shows ---

  lemma {:induction false} InsertTextMembers(x: Id, xs: seq<Id>)
    ensures forall y :: y in InsertText(x, xs) <==> y == x || y in xs
  {
    if xs != [] && !Less(x, xs[0]) && x != xs[0] {
      InsertTextMembers(x, xs[1..]);
      assert xs == [xs[0]] + xs[1..];
    }
  }

  lemma {:induction false} AddAllMembers(ids: seq<Id>, xs: seq<Id>)
    ensures forall y :: y in AddAll(ids, xs) <==> y in ids || y in xs
  {
    if ids != [] {
      AddAllMembers(ids[1..], InsertText(ids[0], xs));
      InsertTextMembers(ids[0], xs);
      assert ids == [ids[0]] + ids[1..];
    }
  }

  lemma {:induction false} SkillRefsMembers(events: seq<Event>, id: Id)
    ensures id in SkillRefs(events) <==> exists e :: e in events && Mentions(e, id)
  {
    if events != [] {
      var front, e := events[..|events| - 1], events[|events| - 1];
      SkillRefsMembers(front, id);
      AddAllMembers(e.skillIds, SkillRefs(front));
      assert events == front + [e];
      assert Mentions(e, id) <==> id in e.skillIds;
    }
  }

  lemma {:induction false} InsertKeepsOrder(x: Id, xs: seq<Id>)
    requires Increasing(xs)
    ensures Increasing(InsertText(x, xs))
  {
    if xs == [] || x == xs[0] {
    } else if Less(x, xs[0]) {
      forall j | 0 <= j < |xs| ensures Less(x, xs[j]) {
        if j > 0 {
          LessTransitive(x, xs[0], xs[j]);
        }
      }
    } else {
      LessTotal(x, xs[0]);
      var more := InsertText(x, xs[1..]);
      InsertKeepsOrder(x, xs[1..]);
      InsertTextMembers(x, xs[1..]);
      forall j | 0 <= j < |more| ensures Less(xs[0], more[j]) {
        assert more[j] in more;
      }
    }
  }

  lemma {:induction false} AddAllKeepsOrder(ids: seq<Id>, xs: seq<Id>)
    requires Increasing(xs)
    ensures Increasing(AddAll(ids, xs))
  {
    if ids != [] {
      InsertKeepsOrder(ids[0], xs);
      AddAllKeepsOrder(ids[1..], InsertText(ids[0], xs));
    }
  }

  // The skills of an item: those its events mention, sorted and without repetition.
  lemma {:induction false} SkillRefsSorted(events: seq<Event>)
    ensures Increasing(SkillRefs(events))
    ensures forall id :: id in SkillRefs(events) <==> exists e :: e in events && Mentions(e, id)
  {
    if events != [] {
      SkillRefsSorted(events[..|events| - 1]);
      AddAllKeepsOrder(events[|events| - 1].skillIds, SkillRefs(events[..|events| - 1]));
    }
    forall id ensures id in SkillRefs(events) <==> exists e :: e in events && Mentions(e, id) {
      SkillRefsMembers(events, id);
    }
  }

  // The purposes of an item are those of its skills in the leading event's release.
  lemma {:induction false} PurposesMembers(documents: Library, e: Event, ids: seq<Id>, p: string)
    ensures p in PurposesAt(documents, e, ids) <==>
            exists i :: 0 <= i < |ids| && HasPurpose(documents, e, ids[i], p)
  {
    if ids != [] {
      PurposesMembers(documents, e, ids[1..], p);
      if i :| 0 <= i < |ids| && HasPurpose(documents, e, ids[i], p) {
        assert i == 0 || HasPurpose(documents, e, ids[1..][i - 1], p);
      }
      if i :| 0 <= i < |ids[1..]| && HasPurpose(documents, e, ids[1..][i], p) {
        assert HasPurpose(documents, e, ids[i + 1], p);
      }
      assert HasPurpose(documents, e, ids[0], p) ==> p in PurposesAt(documents, e, ids);
    }
  }

  predicate HasPurpose(documents: Library, e: Event, id: Id, p: string) {
    EntryAt(documents, e, id).Some? && p in EntryAt(documents, e, id).value.purposes
  }

  // Without a withdrawal an item shows its first skill that is not active, if any.
  lemma {:induction false} FirstInactiveIs(ids: seq<Id>, skills: map<Id, Lifecycle>) returns (n: nat)
    ensures n <= |ids| && forall j :: 0 <= j < n ==> ids[j] in skills ==> skills[ids[j]] == Active
    ensures n < |ids| ==> ids[n] in skills && skills[ids[n]] == FirstInactive(ids, skills) != Active
    ensures n == |ids| ==> FirstInactive(ids, skills) == Active
  {
    if ids == [] || (ids[0] in skills && !skills[ids[0]].Active?) {
      n := 0;
    } else {
      n := FirstInactiveIs(ids[1..], skills);
      n := n + 1;
    }
  }

  lemma {:induction false} AllActive(ids: seq<Id>, skills: map<Id, Lifecycle>)
    requires forall i :: 0 <= i < |ids| ==> Lookup(skills, ids[i]) == Some(Active)
    ensures FirstInactive(ids, skills) == Active
  {
    if ids != [] {
      assert Lookup(skills, ids[0]) == Some(Active);
      AllActive(ids[1..], skills);
    }
  }

  // A group led by a recommendation: the recommendation and added skills it names.
  lemma AdvisedGroup(v: seq<Event>, k: nat, e: Event)
    requires SortedById(v) && k < |v| && v[k].kind.RecommendationPublished? && e in Group(v, k)
    ensures e == v[k] || (e.kind.SkillAdded? && e.subjectId in v[k].skillIds)
  {
    GroupMembers(v, k, |v|);
    var i: nat :| i < |v| && Leader(v, i) == k && v[i] == e;
    LeaderLeads(v, i);
  }

  // A promoted recommendation is only handed over while all its skills are active.
  lemma PromotionActive(h: Hash, base: string, feedId: string, ih: ItemHash, s: SnapshotBody, i: nat, k: nat,
                        x: UpdateItem)
    requires LogOk(h, base, feedId, s.records) && i < |s.records|
    requires LedItem(ih, s.documents, LatestOf(s).skills, SurvivorsAt(s, LatestOf(s), i), k, x)
    requires SurvivorsAt(s, LatestOf(s), i)[k].kind.RecommendationPublished?
    ensures forall id :: id in x.skillRefs ==> Lookup(LatestOf(s).skills, id) == Some(Active)
    ensures x.lifecycle == Active
  {
    var v := SurvivorsAt(s, LatestOf(s), i);
    var g := Group(v, k);
    SurvivorsSorted(h, base, feedId, s, i);
    GroupSurvives(h, base, feedId, s, i, k);
    assert v[k] in v;
    forall e, id | e in g && Mentions(e, id) ensures id in v[k].skillIds && !IsWithdrawal(e.kind) {
      AdvisedGroup(v, k, e);
      RecordPlaced(h, base, feedId, s.records, i, e);
    }
    forall e | e in g ensures !IsWithdrawal(e.kind) {
      AdvisedGroup(v, k, e);
    }
    forall id | id in x.skillRefs ensures Lookup(LatestOf(s).skills, id) == Some(Active) {
      SkillRefsMembers(g, id);
      assert id in v[k].skillIds;
    }
    AllActive(x.skillRefs, LatestOf(s).skills);
  }

  // An item led by a published recommendation is that recommendation's: its page,
  // its name, and only additions beside it.
  lemma AdvisedItem(ih: ItemHash, documents: Library, skills: map<Id, Lifecycle>, v: seq<Event>, k: nat, x: UpdateItem)
    requires SortedById(v) && LedItem(ih, documents, skills, v, k, x) && v[k].kind.RecommendationPublished?
    ensures x.detailUrl == v[k].pageUrl && x.sequence == v[k].sequence && x.recommendationRefs == [v[k].subjectId]
    ensures RecommendationPublished in x.changeTypes && x.changeTypes <= {SkillAdded, RecommendationPublished}
    ensures v[k].id in x.eventIds && Increasing(x.skillRefs)
    ensures var advice := AdviceAt(documents, v[k]);
            advice.Some? ==>
              x.title == advice.value.title && x.summary == advice.value.body && x.topics == advice.value.topics
    ensures forall p :: p in x.purposes <==>
              exists i :: 0 <= i < |x.skillRefs| && HasPurpose(documents, v[k], x.skillRefs[i], p)
  {
    var g := Group(v, k);
    SkillRefsSorted(g);
    forall p ensures p in PurposesAt(documents, v[k], SkillRefs(g)) <==>
                     exists i :: 0 <= i < |SkillRefs(g)| && HasPurpose(documents, v[k], SkillRefs(g)[i], p) {
      PurposesMembers(documents, v[k], SkillRefs(g), p);
    }
    GroupMembers(v, k, |v|);
    forall e | e in g ensures e == v[k] || e.kind.SkillAdded? {
      AdvisedGroup(v, k, e);
    }
    assert v[k] in g;
    FirstAdviceMember(g);
    var p :| 0 <= p < |g| && g[p] == v[k];
    AdviceRefsOnce(g, p);
    EventIdsMembers(g, v[k].id);
  }

  lemma {:induction false} AdviceRefsOnce(g: seq<Event>, p: nat)
    requires p < |g| && !IsSkillKind(g[p].kind) && forall i :: 0 <= i < |g| && i != p ==> IsSkillKind(g[i].kind)
    ensures AdviceRefs(g) == [g[p].subjectId]
  {
    var n := |g| - 1;
    if p < n {
      AdviceRefsOnce(g[..n], p);
    } else {
      NoAdviceRefs(g[..n]);
    }
  }

  lemma {:induction false} NoAdviceRefs(g: seq<Event>)
    requires forall i :: 0 <= i < |g| ==> IsSkillKind(g[i].kind)
    ensures AdviceRefs(g) == []
  {
    if g != [] {
      NoAdviceRefs(g[..|g| - 1]);
    }
  }

  // Any other item is one event's: its ID, its page, its type.
  lemma SingleItem(ih: ItemHash, documents: Library, skills: map<Id, Lifecycle>, v: seq<Event>, k: nat, x: UpdateItem)
    requires SortedById(v) && LedItem(ih, documents, skills, v, k, x) && !v[k].kind.RecommendationPublished?
    ensures x.eventIds == [v[k].id] && x.detailUrl == v[k].pageUrl && x.sequence == v[k].sequence
        && x.changeTypes == {v[k].kind}
    ensures x.recommendationRefs == if IsSkillKind(v[k].kind) then [] else [v[k].subjectId]
    ensures var entry := EntryAt(documents, v[k], v[k].subjectId);
            v[k].skillIds == [v[k].subjectId] && IsSkillKind(v[k].kind) && entry.Some? ==>
              && x.title == entry.value.name && x.summary == entry.value.summary && x.purposes == entry.value.purposes
              && x.installUrls == [Url(v[k].machineUrl.base, v[k].machineUrl.releaseId, InstallOf(v[k].subjectId))]
  {
    SingleGroup(v, k);
    var g := [v[k]];
    if v[k].skillIds == [v[k].subjectId] {
      OneRef(v[k]);
      OnePurpose(documents, v[k], v[k].subjectId);
    }
    FirstAdviceMember(g);
    assert Primary(g) in g;
    if IsSkillKind(v[k].kind) {
      NoAdviceRefs(g);
    } else {
      AdviceRefsOnce(g, 0);
    }
  }

  lemma OnePurpose(documents: Library, e: Event, id: Id)
    ensures PurposesAt(documents, e, [id])
        == if EntryAt(documents, e, id).Some? then EntryAt(documents, e, id).value.purposes else {}
  {
    assert [id][1..] == [];
    assert PurposesAt(documents, e, []) == {};
  }

  lemma OneRef(e: Event)
    requires e.skillIds == [e.subjectId]
    ensures SkillRefs([e]) == [e.subjectId]
  {
    assert [e][..0] == [] && e.skillIds[1..] == [];
    assert AddAll(e.skillIds, []) == AddAll([], InsertText(e.subjectId, []));
  }

  // On a publisher's feed, what survives is decided by the head catalog alone: an
  // addition while its skill is active there, an update while it is or while the
  // update still tells its lifecycle, a recommendation while it is ready and all
  // its skills are active, and a withdrawal always.
  lemma SurvivesByHead(h: Hash, feedId: string, base: string, artifacts: seq<Artifact>, s: SnapshotBody, i: nat,
                       e: Event)
    requires Injective(h) && Published(h, feedId, base, artifacts, s.records)
        && Serves(s.documents, artifacts, s.records)
    requires i < |s.records| && e in s.records[i].events
    ensures var last := LastArtifact(artifacts);
            && (e.kind.SkillAdded? ==> (SurvivesAt(s, i, e) <==> HeadLifecycle(last, e.subjectId) == Some(Active)))
            && (e.kind.SkillUpdated? ==>
                  (SurvivesAt(s, i, e) <==> HeadLifecycle(last, e.subjectId) == Some(Active)
                                            || HeadLifecycle(last, e.subjectId)
                                              == HeadLifecycle(Some(artifacts[i]), e.subjectId)))
            && (e.kind.RecommendationPublished? ==>
                  (SurvivesAt(s, i, e) <==> ReadyAtHead(last, e.subjectId)
                                            && forall k :: 0 <= k < |e.skillIds| ==>
                                                 HeadLifecycle(last, e.skillIds[k]) == Some(Active)))
            && (IsWithdrawal(e.kind) ==> SurvivesAt(s, i, e))
  {
    assert |artifacts| == |s.records|;
    hide Published, Serves, Injective;
    if IsSkillKind(e.kind) {
      LatestIsHead(h, feedId, base, artifacts, s.records, s.documents, e.subjectId);
      EventLifecycle(h, feedId, base, artifacts, s.records, s.documents, i, e);
      assert artifacts[..i + 1][|artifacts[..i + 1]| - 1] == artifacts[i];
    } else {
      LatestIsHead(h, feedId, base, artifacts, s.records, s.documents, e.subjectId);
      forall k | 0 <= k < |e.skillIds|
        ensures Lookup(LatestOf(s).skills, e.skillIds[k]) == HeadLifecycle(LastArtifact(artifacts), e.skillIds[k])
      {
        LatestIsHead(h, feedId, base, artifacts, s.records, s.documents, e.skillIds[k]);
      }
    }
  }

  ghost predicate ReadyAtHead(a: Option<Artifact>, id: Id) {
    id in PreviousAdvice(a) && PreviousAdvice(a)[id].status.Ready?
  }

  // An item that holds a skill's event shows that skill's latest lifecycle,
  // or its withdrawal if the event is one.
  lemma ShownLifecycle(h: Hash, base: string, feedId: string, ih: ItemHash, s: SnapshotBody, i: nat, k: nat,
                       x: UpdateItem, e: Event)
    requires LogOk(h, base, feedId, s.records) && i < |s.records|
    requires LedItem(ih, s.documents, LatestOf(s).skills, SurvivorsAt(s, LatestOf(s), i), k, x)
    requires e in Group(SurvivorsAt(s, LatestOf(s), i), k) && IsSkillKind(e.kind)
    ensures e.subjectId in x.skillRefs
    ensures e.kind.SkillWithdrawn? ==> x.lifecycle == Withdrawn
    ensures !e.kind.SkillWithdrawn? ==> Lookup(LatestOf(s).skills, e.subjectId) == Some(x.lifecycle)
  {
    var latest := LatestOf(s);
    var v := SurvivorsAt(s, latest, i);
    SurvivorsSorted(h, base, feedId, s, i);
    GroupSurvives(h, base, feedId, s, i, k);
    RecordPlaced(h, base, feedId, s.records, i, e);
    SkillRefsMembers(Group(v, k), e.subjectId);
    assert Mentions(e, e.subjectId);
    if v[k].kind.RecommendationPublished? {
      PromotionActive(h, base, feedId, ih, s, i, k, x);
      AdvisedGroup(v, k, e);
    } else {
      SingleGroup(v, k);
      OneSkill(ih, s.documents, latest.skills, e);
    }
  }

  lemma OneSkill(ih: ItemHash, documents: Library, skills: map<Id, Lifecycle>, e: Event)
    requires e.skillIds == [e.subjectId] && IsSkillKind(e.kind)
    ensures var x := MakeItem(ih, documents, skills, [e]);
            x.lifecycle == if e.kind.SkillWithdrawn? then Withdrawn
                           else if e.subjectId in skills then skills[e.subjectId] else Active
  {
    var g := [e];
    assert g[..0] == [] && g[0] == e;
    assert SkillRefs([]) == [];
    assert AddAll([e.subjectId], []) == AddAll([], InsertText(e.subjectId, [])) == [e.subjectId];
    assert SkillRefs(g) == [e.subjectId];
    assert FirstInactive([e.subjectId][1..], skills) == Active;
  }

  // --- No stale promotion ---

  // No event of the skill in records from .. to.
  ghost predicate Quiet(records: seq<Record>, id: Id, from: nat, to: nat)
    requires to <= |records|
  {
    forall i, e :: from <= i < to && e in records[i].events ==> SubjectOf(e) != Skill(id)
  }

  // Without an event a skill's lifecycle does not change.
  lemma QuietKeeps(h: Hash, feedId: string, base: string, artifacts: seq<Artifact>, records: seq<Record>, id: Id,
                   from: nat, to: nat)
    requires Injective(h) && Published(h, feedId, base, artifacts, records)
    requires from <= to <= |records| && Quiet(records, id, from, to)
    ensures HeadLifecycle(LastArtifact(artifacts[..to]), id) == HeadLifecycle(LastArtifact(artifacts[..from]), id)
  {
    for k := from to to
      invariant HeadLifecycle(LastArtifact(artifacts[..k]), id) == HeadLifecycle(LastArtifact(artifacts[..from]), id)
    {
      assert PublishedAt(h, feedId, base, artifacts, records, k);
      PublishedPrefix(h, feedId, base, artifacts, records, k);
      PublishedAccepted(h, feedId, base, artifacts[..k], records[..k]);
      var r := NextRelease(h, feedId, base, artifacts[..k], records[..k], artifacts[k], records[k]);
      forall j | 0 <= j < |records[k].events| ensures SubjectOf(records[k].events[j]) != Skill(id) {
        assert records[k].events[j] in records[k].events;
      }
      UnmentionedKeeps(r, records[k].sourceCommit, records[k].events, id);
    }
  }

  // A skill's event carries its lifecycle in the release it belongs to.
  lemma EventLifecycle(h: Hash, feedId: string, base: string, artifacts: seq<Artifact>, records: seq<Record>,
                       documents: Library,
                       k: nat, e: Event)
    requires Injective(h) && Published(h, feedId, base, artifacts, records) && Serves(documents, artifacts, records)
    requires k < |records| && e in records[k].events && IsSkillKind(e.kind)
    ensures Some(LifecycleAt(documents, e, e.subjectId)) == HeadLifecycle(LastArtifact(artifacts[..k + 1]), e.subjectId)
    ensures e.kind.SkillWithdrawn? ==> HeadLifecycle(LastArtifact(artifacts[..k + 1]), e.subjectId) == Some(Withdrawn)
  {
    assert PublishedAt(h, feedId, base, artifacts, records, k);
    var r := NextRelease(h, feedId, base, artifacts[..k], records[..k], artifacts[k], records[k]);
    var j :| 0 <= j < |records[k].events| && records[k].events[j] == e;
    MentionedLifecycle(r, records[k].sourceCommit, records[k].events, documents, j, e.subjectId);
  }

  // One acknowledged handover: the items after `from` of the snapshot `body`.
  datatype Handover = Handover(body: SnapshotBody, from: nat, items: seq<UpdateItem>)

  const NO_FILTERS := Filters({}, {}, {}, {}, {})

  // The handovers of an unfiltered consumer whose cursor started at `start` and
  // now is at the head: their intervals follow each other, and each snapshot is
  // a state of the growing publisher feed.
  ghost predicate KeptUp(ih: ItemHash, artifacts: seq<Artifact>, records: seq<Record>, start: nat, hs: seq<Handover>)
    requires |artifacts| == |records|
  {
    && (forall i :: 0 <= i < |hs| ==> HandoverOk(ih, artifacts, records, hs[i]))
    && (forall i :: 0 <= i < |hs| ==> hs[i].from == if i == 0 then start else |hs[i - 1].body.records|)
    && (if hs == [] then start else |hs[|hs| - 1].body.records|) == |records|
  }

  ghost predicate HandoverOk(ih: ItemHash, artifacts: seq<Artifact>, records: seq<Record>, d: Handover)
    requires |artifacts| == |records|
  {
    && d.from <= |d.body.records| <= |records|
    && d.body.records == records[..|d.body.records|]
    && Serves(d.body.documents, artifacts[..|d.body.records|], d.body.records)
    && IsAnswer(ih, d.body, d.from, NO_FILTERS, d.items)
  }

  // The item carries an event of the skill.
  ghost predicate Reports(records: seq<Record>, x: UpdateItem, id: Id) {
    exists i, e :: 0 <= i < |records| && e in records[i].events && SubjectOf(e) == Skill(id) && e.id in x.eventIds
  }

  // Item p of handover b comes after item q of handover a.
  predicate Later(a: nat, q: nat, b: nat, p: nat) {
    b > a || (b == a && p > q)
  }

  lemma SameEvent(h: Hash, base: string, feedId: string, records: seq<Record>, a: nat, b: nat, d: Event, e: Event)
    requires LogOk(h, base, feedId, records) && a < |records| && b < |records|
    requires d in records[a].events && e in records[b].events && d.id == e.id
    ensures a == b && d == e
  {
    if a < b {
      CrossIds(h, base, feedId, records, a, b, d, e);
    } else if b < a {
      CrossIds(h, base, feedId, records, b, a, e, d);
    } else {
      RecordSorted(h, base, feedId, records, a);
    }
  }

  // Only a skill's first event can be skill.added.
  lemma AddedIsFirst(h: Hash, base: string, feedId: string, records: seq<Record>, i: nat, k: nat, e: Event, f: Event)
    requires LogOk(h, base, feedId, records) && i < k < |records|
    requires e in records[i].events && f in records[k].events && SubjectOf(e) == SubjectOf(f)
    ensures !f.kind.SkillAdded?
  {
    LogOkAt(h, base, feedId, records, k);
    var before := Events(records[..k]);
    assert records[..k][i] == records[i];
    EventsMember(records[..k], i, e);
    var p :| 0 <= p < |before| && before[p] == e;
    var j :| 0 <= j < |records[k].events| && records[k].events[j] == f;
    AllOkAt(h, feedId, before, records[k].events, j);
    var log := before + records[k].events[..j];
    assert log[p] == e;
    HistoryCovers(log, p);
  }

  // The last event of a skill is never suppressed, unless it is also its first.
  lemma LastSurvives(h: Hash, feedId: string, base: string, artifacts: seq<Artifact>, s: SnapshotBody, k: nat, e: Event)
    requires Injective(h) && Published(h, feedId, base, artifacts, s.records)
        && Serves(s.documents, artifacts, s.records)
    requires k < |s.records| && e in s.records[k].events && IsSkillKind(e.kind) && !e.kind.SkillAdded?
    requires Quiet(s.records, e.subjectId, k + 1, |s.records|)
    ensures SurvivesAt(s, k, e)
  {
    LatestIsHead(h, feedId, base, artifacts, s.records, s.documents, e.subjectId);
    EventLifecycle(h, feedId, base, artifacts, s.records, s.documents, k, e);
    QuietKeeps(h, feedId, base, artifacts, s.records, e.subjectId, k + 1, |s.records|);
    assert artifacts[..|artifacts|] == artifacts;
  }

  lemma {:induction false} FindHandover(ih: ItemHash, artifacts: seq<Artifact>, records: seq<Record>, start: nat,
                                        hs: seq<Handover>,
                                        b: nat, k: nat) returns (a: nat)
    requires |artifacts| == |records| && KeptUp(ih, artifacts, records, start, hs)
    requires b < |hs| && hs[b].from <= k < |records|
    ensures b <= a < |hs| && hs[a].from <= k < |hs[a].body.records|
    decreases |hs| - b
  {
    if k < |hs[b].body.records| {
      a := b;
    } else {
      a := FindHandover(ih, artifacts, records, start, hs, b + 1, k);
    }
  }

  lemma {:induction false} LastNoise(records: seq<Record>, id: Id, from: nat) returns (k: nat, e: Event)
    requires from <= |records| && !Quiet(records, id, from, |records|)
    ensures from <= k < |records| && e in records[k].events && SubjectOf(e) == Skill(id)
    ensures Quiet(records, id, k + 1, |records|)
    decreases |records| - from
  {
    if Quiet(records, id, from + 1, |records|) {
      k := from;
      e :| e in records[k].events && SubjectOf(e) == Skill(id);
    } else {
      k, e := LastNoise(records, id, from + 1);
    }
  }

  // A handover is built from a published feed of its own.
  lemma HandoverPublished(h: Hash, feedId: string, base: string, ih: ItemHash, artifacts: seq<Artifact>,
                          records: seq<Record>, d: Handover)
    requires Injective(h) && Published(h, feedId, base, artifacts, records) && HandoverOk(ih, artifacts, records, d)
    ensures Published(h, feedId, base, artifacts[..|d.body.records|], d.body.records)
    ensures LogOk(h, base, feedId, d.body.records)
  {
    PublishedPrefix(h, feedId, base, artifacts, records, |d.body.records|);
    PublishedAccepted(h, feedId, base, artifacts[..|d.body.records|], d.body.records);
  }

  // A skill's last event is handed over with the snapshot that covers it.
  lemma LastHandedOver(h: Hash, feedId: string, base: string, ih: ItemHash, artifacts: seq<Artifact>,
                       records: seq<Record>,
                       d: Handover, k: nat, f: Event) returns (q: nat)
    requires Injective(h) && Published(h, feedId, base, artifacts, records) && HandoverOk(ih, artifacts, records, d)
    requires d.from <= k < |d.body.records| && f in records[k].events && IsSkillKind(f.kind) && !f.kind.SkillAdded?
    requires Quiet(records, f.subjectId, k + 1, |records|)
    ensures q < |d.items| && d.items[q].sequence == k + 1 && f.id in d.items[q].eventIds
  {
    var n := |d.body.records|;
    HandoverPublished(h, feedId, base, ih, artifacts, records, d);
    assert forall j :: 0 <= j < n ==> d.body.records[j] == records[j];
    assert Quiet(d.body.records, f.subjectId, k + 1, n);
    LastSurvives(h, feedId, base, artifacts[..n], d.body, k, f);
    var y := ItemOfEvent(h, base, feedId, ih, d.body, d.from, k, f);
    var _ := ItemSource(h, base, feedId, ih, d.body, k, y);
    assert ItemAfter(ih, d.body, d.from, y) && Matches(y, NO_FILTERS);
    q :| 0 <= q < |d.items| && d.items[q] == y;
  }

  // A later event of the skill would have been handed over after this item.
  lemma LaterReport(h: Hash, feedId: string, base: string, ih: ItemHash, artifacts: seq<Artifact>, records: seq<Record>,
                    start: nat, hs: seq<Handover>, b: nat, p: nat, i: nat, k: nat, e: Event, f: Event)
    returns (a: nat, q: nat)
    requires Injective(h) && Published(h, feedId, base, artifacts, records) && KeptUp(ih, artifacts, records, start, hs)
    requires b < |hs| && p < |hs[b].items| && hs[b].from <= i && hs[b].items[p].sequence == i + 1
    requires i < k < |records| && e in records[i].events && f in records[k].events
    requires SubjectOf(e) == SubjectOf(f) && IsSkillKind(f.kind)
    requires Quiet(records, f.subjectId, k + 1, |records|)
    ensures a < |hs| && q < |hs[a].items| && Later(b, p, a, q) && Reports(records, hs[a].items[q], f.subjectId)
  {
    a := FindHandover(ih, artifacts, records, start, hs, b, k);
    PublishedAccepted(h, feedId, base, artifacts, records);
    AddedIsFirst(h, base, feedId, records, i, k, e, f);
    assert HandoverOk(ih, artifacts, records, hs[a]);
    q := LastHandedOver(h, feedId, base, ih, artifacts, records, hs[a], k, f);
    if a == b {
      LargerIsLater(hs[a].items, p, q);
    }
  }

  lemma LargerIsLater(items: seq<UpdateItem>, p: nat, q: nat)
    requires SortedItems(items) && p < |items| && q < |items| && items[p].sequence < items[q].sequence
    ensures p < q
  {
  }

  // The record and the event behind an item that reports a skill.
  lemma ReportedEvent(h: Hash, feedId: string, base: string, ih: ItemHash, artifacts: seq<Artifact>,
                      records: seq<Record>,
                      d: Handover, x: UpdateItem, id: Id) returns (i: nat, k: nat, e: Event)
    requires Injective(h) && Published(h, feedId, base, artifacts, records) && HandoverOk(ih, artifacts, records, d)
    requires x in d.items && Reports(records, x, id)
    ensures d.from <= i < |d.body.records| && x.sequence == i + 1 && SubjectOf(e) == Skill(id)
    ensures LedItem(ih, d.body.documents, LatestOf(d.body).skills, SurvivorsAt(d.body, LatestOf(d.body), i), k, x)
    ensures e in Group(SurvivorsAt(d.body, LatestOf(d.body), i), k) && e in records[i].events
  {
    HandoverPublished(h, feedId, base, ih, artifacts, records, d);
    PublishedAccepted(h, feedId, base, artifacts, records);
    hide Published, Injective, LogOk, AllOk, LedItem, Serves;
    var r, f :| 0 <= r < |records| && f in records[r].events && SubjectOf(f) == Skill(id) && f.id in x.eventIds;
    assert ItemAfter(ih, d.body, d.from, x);
    i :| ItemAt(ih, d.body, d.from, i, x);
    k, e := ItemEvent(h, base, feedId, ih, d.body, i, x, f.id);
    GroupSurvives(h, base, feedId, d.body, i, k);
    var _ := ItemSource(h, base, feedId, ih, d.body, i, x);
    assert d.body.records[i] == records[i];
    SameEvent(h, base, feedId, records, i, r, e, f);
  }

  // Eventual consistency: for an unfiltered consumer that has acknowledged
  // through the head, the last item handed over for a skill shows that skill's
  // lifecycle in the head catalog.
  lemma NoStalePromotion(h: Hash, feedId: string, base: string, ih: ItemHash, artifacts: seq<Artifact>,
                         records: seq<Record>,
                         start: nat, hs: seq<Handover>, b: nat, p: nat, id: Id)
    requires Injective(h) && Published(h, feedId, base, artifacts, records) && KeptUp(ih, artifacts, records, start, hs)
    requires b < |hs| && p < |hs[b].items| && Reports(records, hs[b].items[p], id)
    requires forall a: nat, q: nat :: a < |hs| && q < |hs[a].items| && Later(b, p, a, q) ==>
               !Reports(records, hs[a].items[q], id)
    ensures HeadLifecycle(LastArtifact(artifacts), id) == Some(hs[b].items[p].lifecycle)
  {
    var d, x := hs[b], hs[b].items[p];
    assert HandoverOk(ih, artifacts, records, d);
    var i, k, e := ReportedEvent(h, feedId, base, ih, artifacts, records, d, x, id);
    if !Quiet(records, id, i + 1, |records|) {
      var m, f := LastNoise(records, id, i + 1);
      var a, q := LaterReport(h, feedId, base, ih, artifacts, records, start, hs, b, p, i, m, e, f);
      assert false;
    }
    ShownIsHead(h, feedId, base, ih, artifacts, records, d, x, i, k, e);
  }

  lemma ShownIsHead(h: Hash, feedId: string, base: string, ih: ItemHash, artifacts: seq<Artifact>, records: seq<Record>,
                    d: Handover, x: UpdateItem, i: nat, k: nat, e: Event)
    requires Injective(h) && Published(h, feedId, base, artifacts, records) && HandoverOk(ih, artifacts, records, d)
    requires i < |d.body.records| && IsSkillKind(e.kind) && e in records[i].events
    requires LedItem(ih, d.body.documents, LatestOf(d.body).skills, SurvivorsAt(d.body, LatestOf(d.body), i), k, x)
    requires e in Group(SurvivorsAt(d.body, LatestOf(d.body), i), k)
    requires Quiet(records, e.subjectId, i + 1, |records|)
    ensures HeadLifecycle(LastArtifact(artifacts), e.subjectId) == Some(x.lifecycle)
  {
    var n := |d.body.records|;
    HandoverShown(h, feedId, base, ih, artifacts, records, d, x, i, k, e);
    if e.kind.SkillWithdrawn? {
      EventInHandover(h, feedId, base, ih, artifacts, records, d, i, e);
      QuietToHead(h, feedId, base, artifacts, records, e.subjectId, i + 1);
    } else {
      assert Quiet(records, e.subjectId, n, |records|);
      QuietToHead(h, feedId, base, artifacts, records, e.subjectId, n);
    }
  }

  lemma HandoverShown(h: Hash, feedId: string, base: string, ih: ItemHash, artifacts: seq<Artifact>,
                      records: seq<Record>,
                      d: Handover, x: UpdateItem, i: nat, k: nat, e: Event)
    requires Injective(h) && Published(h, feedId, base, artifacts, records) && HandoverOk(ih, artifacts, records, d)
    requires i < |d.body.records| && IsSkillKind(e.kind)
    requires LedItem(ih, d.body.documents, LatestOf(d.body).skills, SurvivorsAt(d.body, LatestOf(d.body), i), k, x)
    requires e in Group(SurvivorsAt(d.body, LatestOf(d.body), i), k)
    ensures e.kind.SkillWithdrawn? ==> x.lifecycle == Withdrawn
    ensures !e.kind.SkillWithdrawn? ==>
              HeadLifecycle(LastArtifact(artifacts[..|d.body.records|]), e.subjectId) == Some(x.lifecycle)
  {
    HandoverLatest(h, feedId, base, ih, artifacts, records, d, e.subjectId);
    ShownLifecycle(h, base, feedId, ih, d.body, i, k, x, e);
  }

  lemma QuietToHead(h: Hash, feedId: string, base: string, artifacts: seq<Artifact>, records: seq<Record>, id: Id,
                    from: nat)
    requires Injective(h) && Published(h, feedId, base, artifacts, records)
    requires from <= |records| && Quiet(records, id, from, |records|)
    ensures HeadLifecycle(LastArtifact(artifacts), id) == HeadLifecycle(LastArtifact(artifacts[..from]), id)
  {
    QuietKeeps(h, feedId, base, artifacts, records, id, from, |records|);
    assert artifacts[..|records|] == artifacts;
  }

  lemma HandoverLatest(h: Hash, feedId: string, base: string, ih: ItemHash, artifacts: seq<Artifact>,
                       records: seq<Record>,
                       d: Handover, id: Id)
    requires Injective(h) && Published(h, feedId, base, artifacts, records) && HandoverOk(ih, artifacts, records, d)
    ensures LogOk(h, base, feedId, d.body.records)
    ensures Lookup(LatestOf(d.body).skills, id) == HeadLifecycle(LastArtifact(artifacts[..|d.body.records|]), id)
  {
    HandoverPublished(h, feedId, base, ih, artifacts, records, d);
    LatestIsHead(h, feedId, base, artifacts[..|d.body.records|], d.body.records, d.body.documents, id);
  }

  lemma EventInHandover(h: Hash, feedId: string, base: string, ih: ItemHash, artifacts: seq<Artifact>,
                        records: seq<Record>,
                        d: Handover, i: nat, e: Event)
    requires Injective(h) && Published(h, feedId, base, artifacts, records) && HandoverOk(ih, artifacts, records, d)
    requires i < |d.body.records| && IsSkillKind(e.kind) && e in records[i].events
    ensures e.kind.SkillWithdrawn? ==> HeadLifecycle(LastArtifact(artifacts[..i + 1]), e.subjectId) == Some(Withdrawn)
  {
    var n := |d.body.records|;
    HandoverPublished(h, feedId, base, ih, artifacts, records, d);
    assert d.body.records[i] == records[i] && artifacts[..n][..i + 1] == artifacts[..i + 1];
    EventLifecycle(h, feedId, base, artifacts[..n], d.body.records, d.body.documents, i, e);
  }
}
