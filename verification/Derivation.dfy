/** Deriving a release's events from two successive artifacts and the log so far
    (src/hwskill/publishing/events.py). */
module Derivation {
  import opened Options
  import opened Documents

  // Where an event is published.
  datatype Stamp = Stamp(feedId: string, base: string, releaseId: Digest, sequence: nat, publishedAt: string)

  // What one subject contributes to the next record.
  datatype Decision =
    | Keep
    | Refuse
    | Emit(kind: EventType, revision: Value, skillIds: seq<Id>)

  function SkillDecision(id: Id, current: Option<CatalogItem>, previous: Option<CatalogItem>, seen: bool): Decision {
    if current.None? then Refuse else
    var now := Semantic(current.value);
    var gone := now.lifecycle.Withdrawn?;
    if previous.None? then
      Emit(if gone then SkillWithdrawn else if seen then SkillUpdated else SkillAdded, now, [id])
    else
      var before := Semantic(previous.value);
      if before.lifecycle.Withdrawn? && gone then Keep
      else if now == before then Keep
      else Emit(if gone then SkillWithdrawn else SkillUpdated, now, [id])
  }

  function AdviceDecision(id: Id, current: Option<Recommendation>, previous: Option<Recommendation>,
                          last: Option<EventType>): Decision {
    if current.None? then Refuse else
    var now := current.value;
    var was := if previous.Some? then Some(previous.value.status) else None;
    match now.status
    case Draft => if previous.Some? || last.Some? then Refuse else Keep
    case Retired =>
      if was == Some(Retired) || last == Some(RecommendationWithdrawn) then Keep
      else if was != Some(Ready) && last != Some(RecommendationPublished) then Keep
      else Emit(RecommendationWithdrawn, WithdrawnAdvice(id), RefIds(now.skills))
    case Ready =>
      if was == Some(Retired) || last == Some(RecommendationWithdrawn) then Refuse
      else if was == Some(Ready) || last == Some(RecommendationPublished) then Keep
      else Emit(RecommendationPublished, ReadyAdvice(id, now.skills), RefIds(now.skills))
  }

  function PreviousSkills(previous: Option<Artifact>): map<Id, CatalogItem> {
    if previous.Some? then SkillMap(previous.value.catalog) else map[]
  }

  function PreviousAdvice(previous: Option<Artifact>): map<Id, Recommendation> {
    if previous.Some? then AdviceMap(previous.value.recommendations) else map[]
  }

  function KindOf(last: Option<Last>): Option<EventType> {
    if last.Some? then Some(last.value.kind) else None
  }

  // One derivation: the artifact to publish, its predecessor and the log so far.
  datatype Release = Release(h: Hash, at: Stamp, current: Artifact, previous: Option<Artifact>,
                             history: map<Subject, Last>) {
    function Decide(s: Subject): Decision {
      match s
      case Skill(id) =>
        SkillDecision(id, Lookup(SkillMap(current.catalog), id), Lookup(PreviousSkills(previous), id), s in history)
      case Advice(id) =>
        AdviceDecision(id, Lookup(AdviceMap(current.recommendations), id), Lookup(PreviousAdvice(previous), id),
                       KindOf(Lookup(history, s)))
    }

    ghost function SkillSubjects(): set<Subject> {
      set id | id in SkillMap(current.catalog).Keys + PreviousSkills(previous).Keys :: Skill(id)
    }

    ghost function AdviceSubjects(): set<Subject> {
      set id | id in AdviceMap(current.recommendations).Keys + PreviousAdvice(previous).Keys :: Advice(id)
    }

    ghost function Subjects(): set<Subject> {
      SkillSubjects() + AdviceSubjects()
    }

    function EventOf(s: Subject): Event
      requires Decide(s).Emit?
    {
      MakeEvent(h, at, s, Decide(s), Lookup(history, s))
    }

    ghost predicate Refuses() {
      exists s :: s in Subjects() && Decide(s).Refuse?
    }

    // e is the event of one of the given subjects.
    ghost predicate Belongs(subjects: set<Subject>, e: Event) {
      SubjectOf(e) in subjects && Decide(SubjectOf(e)).Emit? && e == EventOf(SubjectOf(e))
    }

    // `events` holds exactly the events of the given subjects.
    ghost predicate Covers(subjects: set<Subject>, events: seq<Event>) {
      forall e :: e in events <==> Belongs(subjects, e)
    }

    // The arrangement of the given subjects' events by ID.
    ghost function Arrange(subjects: set<Subject>): seq<Event> {
      if subjects == {} then [] else
        var s :| s in subjects;
        var rest := Arrange(subjects - {s});
        if Decide(s).Emit? then Insert(EventOf(s), rest) else rest
    }

    // The events of the next record; None when some subject makes the release invalid.
    ghost function Derive(): Option<seq<Event>> {
      if Refuses() then None else Some(Arrange(Subjects()))
    }

    // An event names its subject, so events of distinct subjects have distinct IDs.
    lemma EventIds(s: Subject, t: Subject)
      requires Injective(h) && Decide(s).Emit? && Decide(t).Emit?
      requires EventOf(s).id == EventOf(t).id
      ensures s == t
    {
      EventSubject(s);
      EventSubject(t);
    }

    lemma EventSubject(s: Subject)
      requires Decide(s).Emit?
      ensures SubjectOf(EventOf(s)) == s && EventOf(s).kind == Decide(s).kind && EventOf(s).subjectId == s.id
    {
    }

    lemma CoversInsert(subjects: set<Subject>, s: Subject, events: seq<Event>)
      requires Injective(h) && s !in subjects && Decide(s).Emit?
      requires Covers(subjects, events) && SortedById(events)
      ensures Covers(subjects + {s}, Insert(EventOf(s), events)) && SortedById(Insert(EventOf(s), events))
    {
      EventSubject(s);
      var e := EventOf(s);
      forall i | 0 <= i < |events| ensures events[i].id != e.id {
        assert Belongs(subjects, events[i]);
        if events[i].id == e.id {
          EventIds(SubjectOf(events[i]), s);
        }
      }
      InsertSorted(e, events);
      forall x ensures x in Insert(e, events) <==> Belongs(subjects + {s}, x) {
        BelongsExtend(subjects, s, x);
      }
    }

    lemma BelongsExtend(subjects: set<Subject>, s: Subject, x: Event)
      requires Decide(s).Emit?
      ensures Belongs(subjects + {s}, x) <==> Belongs(subjects, x) || x == EventOf(s)
    {
      EventSubject(s);
    }

    lemma {:induction false} ArrangeCovers(subjects: set<Subject>)
      requires Injective(h)
      ensures Covers(subjects, Arrange(subjects)) && SortedById(Arrange(subjects))
    {
      if subjects != {} {
        var s :| s in subjects && Arrange(subjects) ==
          (var rest := Arrange(subjects - {s}); if Decide(s).Emit? then Insert(EventOf(s), rest) else rest);
        ArrangeCovers(subjects - {s});
        assert subjects - {s} + {s} == subjects;
        if Decide(s).Emit? {
          CoversInsert(subjects - {s}, s, Arrange(subjects - {s}));
        }
      }
    }

    // The ID order leaves no choice: any sorted listing is the derived record.
    lemma DeriveUnique(events: seq<Event>)
      requires Injective(h) && !Refuses()
      requires Covers(Subjects(), events) && SortedById(events)
      ensures Derive() == Some(events)
    {
      ArrangeCovers(Subjects());
      SortedUnique(events, Arrange(Subjects()));
    }
  }

  function PreviousId(last: Option<Last>): Option<Digest> {
    if last.Some? then Some(last.value.id) else None
  }

  function EventId(h: Hash, feedId: string, kind: EventType, subjectId: Id, revision: Digest,
                   last: Option<Last>): Digest {
    h(EventIdentity(feedId, kind, subjectId, revision, PreviousId(last)))
  }

  function MakeEvent(h: Hash, at: Stamp, s: Subject, d: Decision, last: Option<Last>): Event
    requires d.Emit?
  {
    var revision := h(d.revision);
    Event(at.feedId, EventId(h, at.feedId, d.kind, s.id, revision, last), at.sequence, at.releaseId, d.kind, s.id,
          revision, d.skillIds, at.publishedAt,
          Url(at.base, at.releaseId, PageOf(PageFor(s))), Url(at.base, at.releaseId, MachineFor(s)))
  }

  // --- Arranging events by ID ---

  function Insert(e: Event, r: seq<Event>): seq<Event> {
    if r == [] || e.id < r[0].id then [e] + r else [r[0]] + Insert(e, r[1..])
  }

  lemma {:induction false} InsertSorted(e: Event, r: seq<Event>)
    requires SortedById(r) && forall i :: 0 <= i < |r| ==> r[i].id != e.id
    ensures SortedById(Insert(e, r))
    ensures forall x :: x in Insert(e, r) <==> x == e || x in r
  {
    if r != [] && r[0].id < e.id {
      InsertSorted(e, r[1..]);
      var t := Insert(e, r[1..]);
      assert r == [r[0]] + r[1..];
      assert Insert(e, r) == [r[0]] + t;
      forall i | 0 <= i < |t| ensures r[0].id < t[i].id {
        assert t[i] in t;
      }
    } else {
      assert Insert(e, r) == [e] + r;
    }
  }

  lemma {:induction false} SortedUnique(a: seq<Event>, b: seq<Event>)
    requires SortedById(a) && SortedById(b) && forall x :: x in a <==> x in b
    ensures a == b
  {
    assert b != [] ==> b[0] in a;
    assert a != [] ==> a[0] in b;
    if a != [] {
      assert a[0] == b[0];
      forall x ensures x in a[1..] <==> x in b[1..] {
        TailMembers(a, x);
        TailMembers(b, x);
      }
      SortedUnique(a[1..], b[1..]);
    }
  }

  lemma TailMembers(a: seq<Event>, x: Event)
    requires a != [] && SortedById(a)
    ensures x in a[1..] <==> x in a && x != a[0]
  {
    if x in a && x != a[0] {
      var i :| 0 <= i < |a| && a[i] == x;
      assert a[1..][i - 1] == x;
    }
  }

  // --- The algorithm ---

  // _history
  method ReadHistory(records: seq<Record>) returns (latest: map<Subject, Last>)
    ensures latest == History(Events(records))
  {
    latest := map[];
    ghost var front: seq<Record> := [];
    for i := 0 to |records|
      invariant front == records[..i] && latest == History(Events(front))
    {
      latest := ReadRecord(Events(front), records[i].events, latest);
      EventsAppend(front, records[i]);
      TakeNext(records, i);
      front := front + [records[i]];
    }
    assert front == records;
  }

  method ReadRecord(ghost before: seq<Event>, events: seq<Event>, latest: map<Subject, Last>)
    returns (latest': map<Subject, Last>)
    requires latest == History(before)
    ensures latest' == History(before + events)
  {
    latest' := latest;
    ghost var log := before;
    for j := 0 to |events|
      invariant log == before + events[..j] && latest' == History(log)
    {
      HistoryAppend(log, events[j]);
      TakeNext(events, j);
      latest' := latest'[SubjectOf(events[j]) := LastOf(events[j])];
      log := log + [events[j]];
    }
    assert log == before + events;
  }

  // Python's sorted(events, key=event_id) on events with distinct IDs.
  method SortEvents(events: seq<Event>) returns (r: seq<Event>)
    requires forall i, j :: 0 <= i < j < |events| ==> events[i].id != events[j].id
    ensures (forall x :: x in r <==> x in events) && SortedById(r)
  {
    r := [];
    for i := 0 to |events|
      invariant forall x :: x in r <==> x in events[..i]
      invariant SortedById(r)
    {
      forall k | 0 <= k < |r| ensures r[k].id != events[i].id {
        assert r[k] in r;
      }
      InsertSorted(events[i], r);
      assert events[..i + 1] == events[..i] + [events[i]];
      r := Insert(events[i], r);
    }
    assert events[..|events|] == events;
  }

  // derive_events. The subject loops run in any order: the result does not depend on it.
  method DeriveEvents(h: Hash, at: Stamp, current: Artifact, previous: Option<Artifact>, prior: seq<Record>)
    returns (r: Option<seq<Event>>)
    requires Injective(h)
    ensures r == Release(h, at, current, previous, History(Events(prior))).Derive()
  {
    var history := ReadHistory(prior);
    var release := Release(h, at, current, previous, history);
    var events, ok := DeriveSkills(release);
    if !ok {
      return None;
    }
    events, ok := DeriveAdvice(release, events);
    if !ok {
      return None;
    }
    forall i, j | 0 <= i < j < |events| ensures events[i].id != events[j].id {
      assert release.Belongs(release.Subjects(), events[i]) && release.Belongs(release.Subjects(), events[j]);
      if events[i].id == events[j].id {
        release.EventIds(SubjectOf(events[i]), SubjectOf(events[j]));
      }
    }
    var sorted := SortEvents(events);
    assert release.Covers(release.Subjects(), sorted);
    release.DeriveUnique(sorted);
    r := Some(sorted);
  }

  ghost predicate DistinctSubjects(events: seq<Event>) {
    forall i, j :: 0 <= i < j < |events| ==> SubjectOf(events[i]) != SubjectOf(events[j])
  }

  // The subjects handled so far: none refused, and `events` lists their events once each.
  ghost predicate Collected(release: Release, done: set<Subject>, events: seq<Event>) {
    && (forall s :: s in done ==> !release.Decide(s).Refuse?)
    && release.Covers(done, events)
    && DistinctSubjects(events)
  }

  lemma CollectOne(release: Release, done: set<Subject>, s: Subject, events: seq<Event>)
    requires s !in done && Collected(release, done, events) && !release.Decide(s).Refuse?
    ensures !release.Decide(s).Emit? ==> Collected(release, done + {s}, events)
    ensures release.Decide(s).Emit? ==> Collected(release, done + {s}, events + [release.EventOf(s)])
  {
    if release.Decide(s).Emit? {
      var e := release.EventOf(s);
      release.EventSubject(s);
      forall x ensures x in events + [e] <==> release.Belongs(done + {s}, x) {
        release.BelongsExtend(done, s, x);
      }
      forall i | 0 <= i < |events| ensures SubjectOf(events[i]) != s {
        assert release.Belongs(done, events[i]);
      }
    } else {
      forall x ensures x in events <==> release.Belongs(done + {s}, x) {
        assert release.Belongs(done, x) <==> release.Belongs(done + {s}, x);
      }
    }
  }

  method DeriveSkills(release: Release) returns (events: seq<Event>, ok: bool)
    ensures ok ==> Collected(release, release.SkillSubjects(), events)
    ensures !ok ==> release.Refuses()
  {
    var skills, skillsBefore := SkillMap(release.current.catalog), PreviousSkills(release.previous);
    var todo := skills.Keys + skillsBefore.Keys;
    ghost var done: set<Subject> := {};
    events := [];
    while todo != {}
      invariant forall s :: s in release.SkillSubjects() <==> s in done || (s.Skill? && s.id in todo)
      invariant forall id :: id in todo ==> Skill(id) !in done
      invariant Collected(release, done, events)
      decreases todo
    {
      var id :| id in todo;
      var s := Skill(id);
      assert s in release.SkillSubjects();
      todo := todo - {id};
      var decision := SkillDecision(id, Lookup(skills, id), Lookup(skillsBefore, id), s in release.history);
      assert decision == release.Decide(s);
      if decision.Refuse? {
        assert s in release.Subjects();
        return events, false;
      }
      CollectOne(release, done, s, events);
      if decision.Emit? {
        events := events + [MakeEvent(release.h, release.at, s, decision, Lookup(release.history, s))];
      }
      done := done + {s};
    }
    assert done == release.SkillSubjects();
    ok := true;
  }

  method DeriveAdvice(release: Release, skillEvents: seq<Event>) returns (events: seq<Event>, ok: bool)
    requires Collected(release, release.SkillSubjects(), skillEvents)
    ensures ok ==> Collected(release, release.Subjects(), events)
    ensures ok ==> !release.Refuses()
    ensures !ok ==> release.Refuses()
  {
    var advice, adviceBefore := AdviceMap(release.current.recommendations), PreviousAdvice(release.previous);
    var todo := advice.Keys + adviceBefore.Keys;
    ghost var done := release.SkillSubjects();
    events := skillEvents;
    while todo != {}
      invariant forall s :: s in release.Subjects() <==> s in done || (s.Advice? && s.id in todo)
      invariant forall id :: id in todo ==> Advice(id) !in done
      invariant Collected(release, done, events)
      decreases todo
    {
      var id :| id in todo;
      var s := Advice(id);
      assert s in release.Subjects();
      todo := todo - {id};
      var decision := AdviceDecision(id, Lookup(advice, id), Lookup(adviceBefore, id),
                                     KindOf(Lookup(release.history, s)));
      assert decision == release.Decide(s);
      if decision.Refuse? {
        return events, false;
      }
      CollectOne(release, done, s, events);
      if decision.Emit? {
        events := events + [MakeEvent(release.h, release.at, s, decision, Lookup(release.history, s))];
      }
      done := done + {s};
    }
    assert done == release.Subjects();
    ok := true;
  }
}
