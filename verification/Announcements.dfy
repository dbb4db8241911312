/** What a release announces, and when it is refused, in terms of the two artifacts
    alone (src/hwskill/publishing/events.py). */
module Announcements {
  import opened Options
  import opened Documents
  import opened Artifacts
  import opened Derivation
  import opened Agreement

  ghost predicate Lists(a: Option<Artifact>, item: CatalogItem) {
    a.Some? && item in a.value.catalog
  }

  ghost predicate Recommends(a: Option<Artifact>, x: Recommendation) {
    a.Some? && x in a.value.recommendations
  }

  // No artifact lists an ID twice.
  ghost predicate Unambiguous(a: Option<Artifact>) {
    a.Some? ==> Distinct(CatalogIds(a.value.catalog)) && Distinct(AdviceIds(a.value.recommendations))
  }

  lemma ListedItem(a: Option<Artifact>, id: Id)
    requires Unambiguous(a)
    ensures id in PreviousSkills(a) <==> exists p :: Lists(a, p) && p.id == id
    ensures id in PreviousSkills(a) ==> Lists(a, PreviousSkills(a)[id]) && PreviousSkills(a)[id].id == id
    ensures forall p :: Lists(a, p) ==> p.id in PreviousSkills(a) && PreviousSkills(a)[p.id] == p
  {
    if a.Some? {
      var items := a.value.catalog;
      SkillMapDistinct(items);
      if id in SkillMap(items) {
        var i :| 0 <= i < |items| && CatalogIds(items)[i] == id;
        assert items[i].id == id;
      }
    }
  }

  lemma ListedAdvice(a: Option<Artifact>, id: Id)
    requires Unambiguous(a)
    ensures id in PreviousAdvice(a) <==> exists p :: Recommends(a, p) && p.id == id
    ensures id in PreviousAdvice(a) ==> Recommends(a, PreviousAdvice(a)[id]) && PreviousAdvice(a)[id].id == id
    ensures forall p :: Recommends(a, p) ==> p.id in PreviousAdvice(a) && PreviousAdvice(a)[p.id] == p
  {
    if a.Some? {
      var items := a.value.recommendations;
      AdviceMapDistinct(items);
      if id in AdviceMap(items) {
        var i :| 0 <= i < |items| && AdviceIds(items)[i] == id;
        assert items[i].id == id;
      }
    }
  }

  // --- Refusal ---

  ghost predicate SkillGone(previous: Option<Artifact>, a: Artifact) {
    exists p :: Lists(previous, p) && forall item :: item in a.catalog ==> item.id != p.id
  }

  ghost predicate AdviceGone(previous: Option<Artifact>, a: Artifact) {
    exists p :: Recommends(previous, p) && forall x :: x in a.recommendations ==> x.id != p.id
  }

  // A withdrawn recommendation is ready again.
  ghost predicate Republished(previous: Option<Artifact>, a: Artifact) {
    exists x, p :: x in a.recommendations && x.status.Ready? && Recommends(previous, p) && p.id == x.id
                   && p.status.Retired?
  }

  lemma SkillRefused(r: Release, id: Id)
    requires Unambiguous(r.previous) && Unambiguous(Some(r.current)) && Skill(id) in r.Subjects()
    ensures r.Decide(Skill(id)).Refuse? <==>
              (exists p :: Lists(r.previous, p) && p.id == id)
              && forall item :: item in r.current.catalog ==> item.id != id
  {
    ListedItem(r.previous, id);
    ListedItem(Some(r.current), id);
    assert forall item :: item in r.current.catalog <==> Lists(Some(r.current), item);
  }

  lemma AdviceRefused(r: Release, sourceCommit: string, id: Id)
    requires Synced(r.h, r.previous, r.history) && ValidArtifact(r.h, r.current, sourceCommit)
    requires Unambiguous(r.previous) && Advice(id) in r.Subjects()
    ensures r.Decide(Advice(id)).Refuse? <==>
              || ((exists p :: Recommends(r.previous, p) && p.id == id)
                  && forall x :: x in r.current.recommendations ==> x.id != id)
              || (exists x, p :: x in r.current.recommendations && x.id == id && x.status.Ready?
                                 && Recommends(r.previous, p) && p.id == id && p.status.Retired?)
  {
    ListedAdvice(r.previous, id);
    ListedAdvice(Some(r.current), id);
    NoDrafts(r.h, r.current, sourceCommit, id);
    assert forall x :: x in r.current.recommendations <==> Recommends(Some(r.current), x);
    assert AdviceSynced(r.h, id, Lookup(PreviousAdvice(r.previous), id), Lookup(r.history, Advice(id)));
  }

  // Whether or not they agree, the previous artifact and the log each have a say: what
  // either calls withdrawn stays withdrawn, and what either calls published is.
  lemma AdviceBySources(r: Release, id: Id)
    requires id in AdviceMap(r.current.recommendations)
    ensures var x := AdviceMap(r.current.recommendations)[id];
            var last := Lookup(r.history, Advice(id));
            var known := id in PreviousAdvice(r.previous);
            var withdrawn := (known && PreviousAdvice(r.previous)[id].status == Retired)
                             || (last.Some? && last.value.kind == RecommendationWithdrawn);
            var published := (known && PreviousAdvice(r.previous)[id].status == Ready)
                             || (last.Some? && last.value.kind == RecommendationPublished);
            match x.status
            case Draft => r.Decide(Advice(id)) == if known || last.Some? then Refuse else Keep
            case Ready =>
              && (r.Decide(Advice(id)).Refuse? <==> withdrawn)
              && (r.Decide(Advice(id)).Keep? <==> published && !withdrawn)
            case Retired => r.Decide(Advice(id)).Emit? <==> published && !withdrawn
  {
  }

  // Where the log is in sync, a valid artifact is refused exactly if something
  // disappeared from it or a withdrawn recommendation came back.
  lemma RefusedIff(r: Release, sourceCommit: string)
    requires Synced(r.h, r.previous, r.history) && ValidArtifact(r.h, r.current, sourceCommit)
    requires Unambiguous(r.previous)
    ensures r.Derive().None? <==>
              SkillGone(r.previous, r.current) || AdviceGone(r.previous, r.current)
              || Republished(r.previous, r.current)
  {
    assert Unambiguous(Some(r.current));
    hide ValidArtifact, Synced, Unambiguous;
    if r.Refuses() {
      var s :| s in r.Subjects() && r.Decide(s).Refuse?;
      if s.Skill? {
        SkillRefused(r, s.id);
      } else {
        AdviceRefused(r, sourceCommit, s.id);
      }
    }
    if SkillGone(r.previous, r.current) {
      var p :| Lists(r.previous, p) && forall item :: item in r.current.catalog ==> item.id != p.id;
      ListedItem(r.previous, p.id);
      SkillRefused(r, p.id);
    }
    if AdviceGone(r.previous, r.current) {
      var p :| Recommends(r.previous, p) && forall x :: x in r.current.recommendations ==> x.id != p.id;
      ListedAdvice(r.previous, p.id);
      AdviceRefused(r, sourceCommit, p.id);
    }
    if Republished(r.previous, r.current) {
      var x, p :| x in r.current.recommendations && x.status.Ready? && Recommends(r.previous, p) && p.id == x.id
                  && p.status.Retired?;
      ListedAdvice(r.previous, p.id);
      AdviceRefused(r, sourceCommit, p.id);
    }
  }

  // --- Announcement ---

  // The item is new, or differs from the previous one in what a consumer acts on.
  ghost predicate ItemChanged(previous: Option<Artifact>, item: CatalogItem) {
    forall p :: Lists(previous, p) && p.id == item.id ==>
      && (p.source != item.source || p.install != item.install || LifecycleOf(p) != LifecycleOf(item))
      && !(LifecycleOf(p).Withdrawn? && LifecycleOf(item).Withdrawn?)
  }

  // What an event of the skill says.
  ghost predicate TellsItem(h: Hash, previous: Option<Artifact>, item: CatalogItem, e: Event) {
    && e.subjectId == item.id && e.skillIds == [item.id]
    && e.revision == h(SkillSemantic(item.source, item.install, LifecycleOf(item)))
    && (e.kind.SkillWithdrawn? <==> LifecycleOf(item).Withdrawn?)
    && (e.kind.SkillAdded? <==> !LifecycleOf(item).Withdrawn? && forall p :: Lists(previous, p) ==> p.id != item.id)
    && e.pageUrl.target == PageOf(SkillPage(item.id)) && e.machineUrl.target == InstallOf(item.id)
  }

  ghost predicate NowReady(previous: Option<Artifact>, x: Recommendation) {
    x.status.Ready? && forall p :: Recommends(previous, p) ==> p.id != x.id
  }

  ghost predicate NowRetired(previous: Option<Artifact>, x: Recommendation) {
    x.status.Retired? && exists p :: Recommends(previous, p) && p.id == x.id && p.status.Ready?
  }

  ghost predicate TellsAdvice(h: Hash, x: Recommendation, e: Event) {
    && e.subjectId == x.id && e.skillIds == RefIds(x.skills)
    && e.revision == h(if x.status.Ready? then ReadyAdvice(x.id, x.skills) else WithdrawnAdvice(x.id))
    && e.kind == (if x.status.Ready? then RecommendationPublished else RecommendationWithdrawn)
    && e.pageUrl.target == PageOf(RecommendationPage(x.id)) && e.machineUrl.target == RecommendationsFile
  }

  ghost predicate StampedBy(at: Stamp, e: Event) {
    && e.feedId == at.feedId && e.sequence == at.sequence && e.releaseId == at.releaseId
    && e.publishedAt == at.publishedAt
    && e.pageUrl.base == e.machineUrl.base == at.base
    && e.pageUrl.releaseId == e.machineUrl.releaseId == at.releaseId
  }

  lemma SkillAnnounced(r: Release, item: CatalogItem)
    requires Synced(r.h, r.previous, r.history) && Unambiguous(r.previous) && Unambiguous(Some(r.current))
    requires item in r.current.catalog
    ensures var s := Skill(item.id);
            && s in r.Subjects()
            && (r.Decide(s).Emit? <==> ItemChanged(r.previous, item))
            && (r.Decide(s).Emit? ==> TellsItem(r.h, r.previous, item, r.EventOf(s)) && StampedBy(r.at, r.EventOf(s)))
  {
    ListedItem(r.previous, item.id);
    ListedItem(Some(r.current), item.id);
    assert Lists(Some(r.current), item);
    assert SkillSynced(r.h, Lookup(PreviousSkills(r.previous), item.id), Lookup(r.history, Skill(item.id)));
  }

  lemma AdviceAnnounced(r: Release, sourceCommit: string, x: Recommendation)
    requires Synced(r.h, r.previous, r.history) && ValidArtifact(r.h, r.current, sourceCommit)
    requires Unambiguous(r.previous) && x in r.current.recommendations && !Republished(r.previous, r.current)
    ensures var s := Advice(x.id);
            && s in r.Subjects()
            && (r.Decide(s).Emit? <==> NowReady(r.previous, x) || NowRetired(r.previous, x))
            && (r.Decide(s).Emit? ==> TellsAdvice(r.h, x, r.EventOf(s)) && StampedBy(r.at, r.EventOf(s)))
  {
    ListedAdvice(r.previous, x.id);
    ListedAdvice(Some(r.current), x.id);
    assert Recommends(Some(r.current), x);
    NoDrafts(r.h, r.current, sourceCommit, x.id);
    assert AdviceSynced(r.h, x.id, Lookup(PreviousAdvice(r.previous), x.id), Lookup(r.history, Advice(x.id)));
  }

  // A release's events: one for each item that changed and each recommendation that
  // became ready or was withdrawn, and nothing else.
  ghost predicate Announces(h: Hash, at: Stamp, previous: Option<Artifact>, a: Artifact, events: seq<Event>) {
    && (forall e :: e in events ==> StampedBy(at, e))
    && (forall item :: item in a.catalog ==>
          (ItemChanged(previous, item) <==> exists e :: e in events && e.subjectId == item.id && IsSkillKind(e.kind)))
    && (forall x :: x in a.recommendations ==>
          (NowReady(previous, x) || NowRetired(previous, x)
           <==> exists e :: e in events && e.subjectId == x.id && !IsSkillKind(e.kind)))
    && (forall e :: e in events && IsSkillKind(e.kind) ==>
          exists item :: item in a.catalog && TellsItem(h, previous, item, e))
    && (forall e :: e in events && !IsSkillKind(e.kind) ==>
          exists x :: x in a.recommendations && TellsAdvice(h, x, e))
  }

  lemma DerivedAnnounces(r: Release, sourceCommit: string, events: seq<Event>)
    requires Injective(r.h) && Synced(r.h, r.previous, r.history) && ValidArtifact(r.h, r.current, sourceCommit)
    requires Unambiguous(r.previous) && r.Derive() == Some(events)
    ensures Announces(r.h, r.at, r.previous, r.current, events)
  {
    RefusedIff(r, sourceCommit);
    r.ArrangeCovers(r.Subjects());
    assert Unambiguous(Some(r.current));
    hide ValidArtifact, Synced, Unambiguous, TellsItem, TellsAdvice, StampedBy, ItemChanged, NowReady, NowRetired,
      Injective, Republished, SkillGone, AdviceGone;
    AllChangesTold(r, sourceCommit, events);
    forall e | e in events
      ensures StampedBy(r.at, e)
      ensures IsSkillKind(e.kind) ==> exists item :: item in r.current.catalog && TellsItem(r.h, r.previous, item, e)
      ensures !IsSkillKind(e.kind) ==> exists x :: x in r.current.recommendations && TellsAdvice(r.h, x, e)
    {
      EventTold(r, sourceCommit, e);
    }
  }

  lemma AllChangesTold(r: Release, sourceCommit: string, events: seq<Event>)
    requires Synced(r.h, r.previous, r.history) && ValidArtifact(r.h, r.current, sourceCommit)
    requires Unambiguous(r.previous) && Unambiguous(Some(r.current)) && !Republished(r.previous, r.current)
    requires r.Covers(r.Subjects(), events)
    ensures forall item :: item in r.current.catalog ==>
              (ItemChanged(r.previous, item)
               <==> exists e :: e in events && e.subjectId == item.id && IsSkillKind(e.kind))
    ensures forall x :: x in r.current.recommendations ==>
              (NowReady(r.previous, x) || NowRetired(r.previous, x)
               <==> exists e :: e in events && e.subjectId == x.id && !IsSkillKind(e.kind))
  {
    hide ValidArtifact, Synced, Unambiguous, TellsItem, TellsAdvice, StampedBy, ItemChanged, NowReady, NowRetired,
      Republished;
    forall item | item in r.current.catalog
      ensures ItemChanged(r.previous, item)
          <==> exists e :: e in events && e.subjectId == item.id && IsSkillKind(e.kind)
    {
      SkillAnnounced(r, item);
      Announced(r, events, Skill(item.id));
    }
    forall x | x in r.current.recommendations
      ensures NowReady(r.previous, x) || NowRetired(r.previous, x)
          <==> exists e :: e in events && e.subjectId == x.id && !IsSkillKind(e.kind)
    {
      AdviceAnnounced(r, sourceCommit, x);
      Announced(r, events, Advice(x.id));
    }
  }

  lemma EventTold(r: Release, sourceCommit: string, e: Event)
    requires Synced(r.h, r.previous, r.history) && ValidArtifact(r.h, r.current, sourceCommit)
    requires Unambiguous(r.previous) && !Republished(r.previous, r.current) && r.Belongs(r.Subjects(), e)
    ensures StampedBy(r.at, e)
    ensures IsSkillKind(e.kind) ==> exists item :: item in r.current.catalog && TellsItem(r.h, r.previous, item, e)
    ensures !IsSkillKind(e.kind) ==> exists x :: x in r.current.recommendations && TellsAdvice(r.h, x, e)
  {
    assert Unambiguous(Some(r.current));
    hide ValidArtifact, Synced, Unambiguous, Republished, TellsItem, TellsAdvice, StampedBy, ItemChanged, NowReady,
      NowRetired;
    if IsSkillKind(e.kind) {
      var item := CurrentItem(r, e.subjectId);
      SkillAnnounced(r, item);
    } else {
      var x := CurrentAdvice(r, e.subjectId);
      AdviceAnnounced(r, sourceCommit, x);
    }
  }

  lemma Announced(r: Release, events: seq<Event>, s: Subject)
    requires s in r.Subjects() && r.Covers(r.Subjects(), events)
    ensures r.Decide(s).Emit? <==> exists e :: e in events && SubjectOf(e) == s
    ensures r.Decide(s).Emit? ==> r.EventOf(s) in events
  {
    if r.Decide(s).Emit? {
      r.EventSubject(s);
      assert r.Belongs(r.Subjects(), r.EventOf(s));
    }
    if e :| e in events && SubjectOf(e) == s {
      assert r.Belongs(r.Subjects(), e);
    }
  }

  lemma CurrentItem(r: Release, id: Id) returns (item: CatalogItem)
    requires Unambiguous(Some(r.current)) && r.Decide(Skill(id)).Emit?
    ensures item in r.current.catalog && item.id == id
  {
    ListedItem(Some(r.current), id);
    item := SkillMap(r.current.catalog)[id];
    assert Lists(Some(r.current), item);
  }

  lemma CurrentAdvice(r: Release, id: Id) returns (x: Recommendation)
    requires Unambiguous(Some(r.current)) && r.Decide(Advice(id)).Emit?
    ensures x in r.current.recommendations && x.id == id
  {
    ListedAdvice(Some(r.current), id);
    x := AdviceMap(r.current.recommendations)[id];
    assert Recommends(Some(r.current), x);
  }

  // --- On a publisher's log ---

  lemma LastUnambiguous(h: Hash, feedId: string, base: string, artifacts: seq<Artifact>, records: seq<Record>)
    requires Published(h, feedId, base, artifacts, records)
    ensures Unambiguous(LastArtifact(artifacts))
  {
    var n := |records|;
    if n > 0 {
      assert PublishedAt(h, feedId, base, artifacts, records, n - 1);
    }
  }

  // Exactly the valid artifacts that drop nothing and revive nothing can follow a log.
  lemma NextDerives(h: Hash, feedId: string, base: string, artifacts: seq<Artifact>, records: seq<Record>, r: Release,
                    sourceCommit: string)
    requires Injective(h) && Published(h, feedId, base, artifacts, records) && ValidArtifact(h, r.current, sourceCommit)
    requires r.h == h && r.previous == LastArtifact(artifacts) && r.history == History(Events(records))
    ensures r.Derive().Some? <==>
              !SkillGone(r.previous, r.current) && !AdviceGone(r.previous, r.current)
              && !Republished(r.previous, r.current)
    ensures r.Derive().Some? ==> Announces(h, r.at, r.previous, r.current, r.Derive().value)
  {
    PublishedAccepted(h, feedId, base, artifacts, records);
    LastUnambiguous(h, feedId, base, artifacts, records);
    hide Published, ValidArtifact, Synced, SkillGone, AdviceGone, Republished, Announces;
    RefusedIff(r, sourceCommit);
    if r.Derive().Some? {
      DerivedAnnounces(r, sourceCommit, r.Derive().value);
    }
  }

  // Every record of a log announces what changed between its artifact and the one before.
  lemma RecordAnnounces(h: Hash, feedId: string, base: string, artifacts: seq<Artifact>, records: seq<Record>, k: nat)
    requires Injective(h) && Published(h, feedId, base, artifacts, records) && k < |records|
    ensures var previous := if k == 0 then None else Some(artifacts[k - 1]);
            && Announces(h, Stamp(feedId, base, records[k].releaseId, k + 1, records[k].publicationTime), previous,
                         artifacts[k], records[k].events)
            && !SkillGone(previous, artifacts[k]) && !AdviceGone(previous, artifacts[k])
            && !Republished(previous, artifacts[k])
  {
    assert PublishedAt(h, feedId, base, artifacts, records, k);
    PublishedPrefix(h, feedId, base, artifacts, records, k);
    hide Published, ValidArtifact, SkillGone, AdviceGone, Republished, Announces;
    var r := NextRelease(h, feedId, base, artifacts[..k], records[..k], artifacts[k], records[k]);
    NextDerives(h, feedId, base, artifacts[..k], records[..k], r, records[k].sourceCommit);
  }
}
