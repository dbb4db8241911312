/** Folding a feed into update items (src/hwskill/sharing/filtering.py). */
module Filtering {
  import opened Options
  import opened TextOrder
  import opened Documents
  import opened Artifacts
  import opened Derivation
  import opened FeedCheck

  type Library = map<Digest, Artifact>

  // The lifecycle the event's own release gives a skill. On an accepted snapshot
  // the skill is always found.
  function LifecycleAt(documents: Library, e: Event, id: Id): Lifecycle {
    if e.releaseId !in documents then Active else
      var item := FindItem(documents[e.releaseId].catalog, id);
      if item.None? then Active else LifecycleOf(item.value)
  }

  // --- _latest_states ---

  function Mentioned(documents: Library, e: Event): map<Id, Lifecycle> {
    map id | id in e.skillIds :: LifecycleAt(documents, e, id)
  }

  function NoteEvent(documents: Library, m: map<Id, Lifecycle>, e: Event): map<Id, Lifecycle> {
    var noted := m + Mentioned(documents, e);
    if e.kind.SkillWithdrawn? then noted[e.subjectId := Withdrawn] else noted
  }

  function LatestSkills(documents: Library, events: seq<Event>): map<Id, Lifecycle> {
    if events == [] then map[] else
      NoteEvent(documents, LatestSkills(documents, events[..|events| - 1]), events[|events| - 1])
  }

  function NoteAdvice(m: map<Id, bool>, e: Event): map<Id, bool> {
    if IsSkillKind(e.kind) then m else m[e.subjectId := e.kind.RecommendationPublished?]
  }

  // True stands for the state text "active", false for "withdrawn".
  function LatestAdvice(events: seq<Event>): map<Id, bool> {
    if events == [] then map[] else NoteAdvice(LatestAdvice(events[..|events| - 1]), events[|events| - 1])
  }

  lemma LatestAppend(documents: Library, events: seq<Event>, e: Event)
    ensures LatestSkills(documents, events + [e]) == NoteEvent(documents, LatestSkills(documents, events), e)
    ensures LatestAdvice(events + [e]) == NoteAdvice(LatestAdvice(events), e)
  {
    assert (events + [e])[..|events|] == events;
  }

  method NoteRecord(documents: Library, ghost before: seq<Event>, events: seq<Event>, skills: map<Id, Lifecycle>,
                    advice: map<Id, bool>)
    returns (skills': map<Id, Lifecycle>, advice': map<Id, bool>)
    requires skills == LatestSkills(documents, before) && advice == LatestAdvice(before)
    ensures skills' == LatestSkills(documents, before + events) && advice' == LatestAdvice(before + events)
  {
    skills', advice' := skills, advice;
    ghost var log := before;
    for j := 0 to |events|
      invariant log == before + events[..j]
      invariant skills' == LatestSkills(documents, log) && advice' == LatestAdvice(log)
    {
      LatestAppend(documents, log, events[j]);
      skills', advice' := NoteEvent(documents, skills', events[j]), NoteAdvice(advice', events[j]);
      TakeNext(events, j);
      log := log + [events[j]];
    }
    assert log == before + events;
  }

  method LatestStates(documents: Library, records: seq<Record>)
    returns (skills: map<Id, Lifecycle>, advice: map<Id, bool>)
    ensures skills == LatestSkills(documents, Events(records)) && advice == LatestAdvice(Events(records))
  {
    skills, advice := map[], map[];
    ghost var front: seq<Record> := [];
    for i := 0 to |records|
      invariant front == records[..i]
      invariant skills == LatestSkills(documents, Events(front)) && advice == LatestAdvice(Events(front))
    {
      skills, advice := NoteRecord(documents, Events(front), records[i].events, skills, advice);
      EventsAppend(front, records[i]);
      TakeNext(records, i);
      front := front + [records[i]];
    }
    assert front == records;
  }

  // --- Which events still count ---

  datatype Latest = Latest(skills: map<Id, Lifecycle>, advice: map<Id, bool>)

  ghost function LatestOf(s: SnapshotBody): Latest {
    Latest(LatestSkills(s.documents, Events(s.records)), LatestAdvice(Events(s.records)))
  }

  predicate Survives(documents: Library, latest: Latest, e: Event) {
    match e.kind
    case RecommendationPublished =>
      Lookup(latest.advice, e.subjectId) == Some(true)
      && forall k :: 0 <= k < |e.skillIds| ==> Lookup(latest.skills, e.skillIds[k]) == Some(Active)
    case SkillAdded => Lookup(latest.skills, e.subjectId) == Some(Active)
    case SkillUpdated =>
      var now := Lookup(latest.skills, e.subjectId);
      now == Some(Active) || now == Some(LifecycleAt(documents, e, e.subjectId))
    case SkillWithdrawn => true
    case RecommendationWithdrawn => true
  }

  function Survivors(documents: Library, latest: Latest, events: seq<Event>): seq<Event> {
    if events == [] then [] else
      var n := |events| - 1;
      Survivors(documents, latest, events[..n]) + if Survives(documents, latest, events[n]) then [events[n]] else []
  }

  lemma {:induction false} SurvivorsMembers(documents: Library, latest: Latest, events: seq<Event>)
    ensures forall e :: e in Survivors(documents, latest, events) <==> e in events && Survives(documents, latest, e)
    ensures SortedById(events) ==> SortedById(Survivors(documents, latest, events))
  {
    if events != [] {
      var n := |events| - 1;
      SurvivorsMembers(documents, latest, events[..n]);
      assert events == events[..n] + [events[n]];
      var v := Survivors(documents, latest, events[..n]);
      if SortedById(events) {
        forall i | 0 <= i < |v| ensures v[i].id < events[n].id {
          assert v[i] in events[..n];
        }
      }
    }
  }

  // --- Grouping the surviving events of one record ---

  predicate Advises(e: Event, id: Id) {
    e.kind.RecommendationPublished? && id in e.skillIds
  }

  function FirstAdvisor(v: seq<Event>, id: Id, from: nat): (r: Option<nat>)
    ensures r.Some? ==> from <= r.value < |v|
    decreases |v| - from
  {
    if from >= |v| then None
    else if Advises(v[from], id) then Some(from)
    else FirstAdvisor(v, id, from + 1)
  }

  // An added skill joins the first recommendation that names it; any other event leads itself.
  function Leader(v: seq<Event>, i: nat): (k: nat)
    requires i < |v|
    ensures k < |v|
  {
    if v[i].kind.SkillAdded? && FirstAdvisor(v, v[i].subjectId, 0).Some? then FirstAdvisor(v, v[i].subjectId, 0).value
      else i
  }

  function GroupTo(v: seq<Event>, k: nat, n: nat): (g: seq<Event>)
    requires n <= |v|
    ensures k < n && Leader(v, k) == k ==> v[k] in g
  {
    if n == 0 then [] else GroupTo(v, k, n - 1) + if Leader(v, n - 1) == k then [v[n - 1]] else []
  }

  function Group(v: seq<Event>, k: nat): seq<Event> {
    GroupTo(v, k, |v|)
  }

  lemma {:induction false} FirstAdvisorFirst(v: seq<Event>, id: Id, from: nat)
    ensures match FirstAdvisor(v, id, from)
            case None => forall k :: from <= k < |v| ==> !Advises(v[k], id)
            case Some(k) => from <= k < |v| && Advises(v[k], id) && forall j :: from <= j < k ==> !Advises(v[j], id)
    decreases |v| - from
  {
    if from < |v| && !Advises(v[from], id) {
      FirstAdvisorFirst(v, id, from + 1);
    }
  }

  lemma LeaderLeads(v: seq<Event>, i: nat)
    requires i < |v|
    ensures Leader(v, i) < |v| && Leader(v, Leader(v, i)) == Leader(v, i)
    ensures Leader(v, i) != i ==> v[i].kind.SkillAdded? && Advises(v[Leader(v, i)], v[i].subjectId)
  {
    FirstAdvisorFirst(v, v[i].subjectId, 0);
  }

  lemma {:induction false} GroupMembers(v: seq<Event>, k: nat, n: nat)
    requires n <= |v| && SortedById(v)
    ensures forall e :: e in GroupTo(v, k, n) <==> exists i :: 0 <= i < n && Leader(v, i) == k && v[i] == e
    ensures SortedById(GroupTo(v, k, n))
  {
    if n > 0 {
      GroupMembers(v, k, n - 1);
      var g := GroupTo(v, k, n - 1);
      forall j | 0 <= j < |g| ensures g[j].id < v[n - 1].id {
        assert g[j] in g;
      }
    }
  }

  // --- Items ---

  type ItemHash = seq<Digest> -> Digest

  ghost predicate InjectiveItems(ih: ItemHash) {
    forall x: seq<Digest>, y: seq<Digest> :: ih(x) == ih(y) ==> x == y
  }

  datatype UpdateItem = UpdateItem(
    itemId: Digest,
    sequence: nat,
    eventIds: seq<Digest>,
    changeTypes: set<EventType>,
    skillRefs: seq<Id>,
    recommendationRefs: seq<Id>,
    title: string,
    summary: string,
    detailUrl: Url,
    installUrls: seq<Url>,
    lifecycle: Lifecycle,
    purposes: set<string>,
    topics: set<string>)

  function EventIds(events: seq<Event>): seq<Digest> {
    seq(|events|, i requires 0 <= i < |events| => events[i].id)
  }

  function InsertText(x: Id, xs: seq<Id>): seq<Id> {
    if xs == [] || Less(x, xs[0]) then [x] + xs
    else if x == xs[0] then xs
    else [xs[0]] + InsertText(x, xs[1..])
  }

  function AddAll(ids: seq<Id>, xs: seq<Id>): seq<Id> {
    if ids == [] then xs else AddAll(ids[1..], InsertText(ids[0], xs))
  }

  // sorted({...}): the skills of all the events.
  function SkillRefs(events: seq<Event>): seq<Id> {
    if events == [] then [] else AddAll(events[|events| - 1].skillIds, SkillRefs(events[..|events| - 1]))
  }

  function AdviceRefs(events: seq<Event>): seq<Id> {
    if events == [] then [] else
      var e := events[|events| - 1];
      AdviceRefs(events[..|events| - 1]) + if IsSkillKind(e.kind) then [] else [e.subjectId]
  }

  function FirstAdvice(events: seq<Event>): Option<Event> {
    if events == [] then None
    else if !IsSkillKind(events[0].kind) then Some(events[0])
    else FirstAdvice(events[1..])
  }

  function Primary(events: seq<Event>): Event
    requires events != []
  {
    if FirstAdvice(events).Some? then FirstAdvice(events).value else events[0]
  }

  function FirstInactive(ids: seq<Id>, skills: map<Id, Lifecycle>): Lifecycle {
    if ids == [] then Active
    else if ids[0] in skills && !skills[ids[0]].Active? then skills[ids[0]]
    else FirstInactive(ids[1..], skills)
  }

  predicate IsWithdrawal(k: EventType) {
    k.SkillWithdrawn? || k.RecommendationWithdrawn?
  }

  // skill_item and recommendation_item, in the event's own release.
  function EntryAt(documents: Library, e: Event, id: Id): Option<CatalogItem> {
    if e.releaseId in documents then FindItem(documents[e.releaseId].catalog, id) else None
  }

  function AdviceAt(documents: Library, e: Event): Option<Recommendation> {
    if e.releaseId in documents then FindAdvice(documents[e.releaseId].recommendations, e.subjectId) else None
  }

  function PurposesAt(documents: Library, e: Event, ids: seq<Id>): set<string> {
    if ids == [] then {} else
      PurposesAt(documents, e, ids[1..])
      + if EntryAt(documents, e, ids[0]).Some? then EntryAt(documents, e, ids[0]).value.purposes else {}
  }

  // The title, summary and topics come from the recommendation if there is one,
  // else from the first skill's entry.
  function TextOf(documents: Library, events: seq<Event>): (string, string, set<string>)
    requires events != []
  {
    var e := Primary(events);
    var ids := SkillRefs(events);
    if FirstAdvice(events).Some? then
      var advice := AdviceAt(documents, e);
      if advice.Some? then (advice.value.title, advice.value.body, advice.value.topics) else ("", "", {})
    else if ids == [] || EntryAt(documents, e, ids[0]).None? then ("", "", {})
    else (EntryAt(documents, e, ids[0]).value.name, EntryAt(documents, e, ids[0]).value.summary, {})
  }

  // install_url
  function InstallUrls(e: Event, ids: seq<Id>): seq<Url> {
    seq(|ids|, i requires 0 <= i < |ids| => Url(e.machineUrl.base, e.machineUrl.releaseId, InstallOf(ids[i])))
  }

  // _make_item, on events already in ID order
  function MakeItem(ih: ItemHash, documents: Library, skills: map<Id, Lifecycle>, events: seq<Event>): UpdateItem
    requires events != []
  {
    var primary := Primary(events);
    var text := TextOf(documents, events);
    UpdateItem(
      ih(EventIds(events)),
      primary.sequence,
      EventIds(events),
      set i | 0 <= i < |events| :: events[i].kind,
      SkillRefs(events),
      AdviceRefs(events),
      text.0,
      text.1,
      primary.pageUrl,
      InstallUrls(primary, SkillRefs(events)),
      if exists i :: 0 <= i < |events| && IsWithdrawal(events[i].kind) then Withdrawn
      else FirstInactive(SkillRefs(events), skills),
      PurposesAt(documents, primary, SkillRefs(events)),
      text.2)
  }

  // A change type asked for: one event type, or a compound such as
  // "skill.added+recommendation.published", which is all the types of an item.
  datatype Change = OneKind(kind: EventType) | AllKinds(kinds: set<EventType>)

  predicate HasChange(x: UpdateItem, c: Change) {
    match c
    case OneKind(kind) => kind in x.changeTypes
    case AllKinds(kinds) => kinds == x.changeTypes
  }

  // An empty set filters nothing.
  datatype Filters = Filters(
    purposes: set<string>,
    skillIds: set<Id>,
    changes: set<Change>,
    lifecycles: set<Lifecycle>,
    topics: set<string>)

  predicate Matches(x: UpdateItem, f: Filters) {
    && (f.purposes != {} ==> f.purposes * x.purposes != {})
    && (f.skillIds != {} ==> exists i :: 0 <= i < |x.skillRefs| && x.skillRefs[i] in f.skillIds)
    && (f.changes != {} ==> exists c :: c in f.changes && HasChange(x, c))
    && (f.lifecycles != {} ==> x.lifecycle in f.lifecycles)
    && (f.topics != {} ==> f.topics * x.topics != {})
  }

  // --- What build_items returns ---

  // The item led by event k of the surviving events v.
  ghost predicate LedItem(ih: ItemHash, documents: Library, skills: map<Id, Lifecycle>, v: seq<Event>, k: nat,
                          x: UpdateItem) {
    k < |v| && Leader(v, k) == k && x == MakeItem(ih, documents, skills, Group(v, k))
  }

  ghost predicate RecordItem(ih: ItemHash, documents: Library, skills: map<Id, Lifecycle>, v: seq<Event>,
                             x: UpdateItem) {
    exists k: nat :: LedItem(ih, documents, skills, v, k, x)
  }

  function SurvivorsAt(s: SnapshotBody, latest: Latest, i: nat): seq<Event>
    requires i < |s.records|
  {
    Survivors(s.documents, latest, s.records[i].events)
  }

  // x is an item of the interval after `from`, before user filters.
  ghost predicate ItemAfter(ih: ItemHash, s: SnapshotBody, from: int, x: UpdateItem) {
    exists i: nat :: ItemAt(ih, s, from, i, x)
  }

  ghost predicate ItemAt(ih: ItemHash, s: SnapshotBody, from: int, i: nat, x: UpdateItem) {
    i < |s.records| && i + 1 > from
      && RecordItem(ih, s.documents, LatestOf(s).skills, SurvivorsAt(s, LatestOf(s), i), x)
  }

  predicate ItemLess(a: UpdateItem, b: UpdateItem) {
    a.sequence < b.sequence || (a.sequence == b.sequence && a.itemId < b.itemId)
  }

  ghost predicate SortedItems(items: seq<UpdateItem>) {
    forall i, j :: 0 <= i < j < |items| ==> ItemLess(items[i], items[j])
  }

  // build_items' answer: the matching items of the interval, in (sequence, item ID) order.
  ghost predicate IsAnswer(ih: ItemHash, s: SnapshotBody, from: int, f: Filters, items: seq<UpdateItem>) {
    SortedItems(items) && forall x :: x in items <==> ItemAfter(ih, s, from, x) && Matches(x, f)
  }

  lemma {:induction false} AnswerUnique(ih: ItemHash, s: SnapshotBody, from: int, f: Filters, xs: seq<UpdateItem>,
                                        ys: seq<UpdateItem>)
    requires IsAnswer(ih, s, from, f, xs) && IsAnswer(ih, s, from, f, ys)
    ensures xs == ys
  {
    SortedItemsUnique(xs, ys);
  }

  lemma {:induction false} SortedItemsUnique(xs: seq<UpdateItem>, ys: seq<UpdateItem>)
    requires SortedItems(xs) && SortedItems(ys) && forall x :: x in xs <==> x in ys
    ensures xs == ys
  {
    assert xs != [] ==> xs[0] in ys;
    assert ys != [] ==> ys[0] in xs;
    if xs != [] {
      assert xs[0] == ys[0];
      forall x ensures x in xs[1..] <==> x in ys[1..] {
        ItemTail(xs, x);
        ItemTail(ys, x);
      }
      SortedItemsUnique(xs[1..], ys[1..]);
    }
  }

  lemma ItemTail(xs: seq<UpdateItem>, x: UpdateItem)
    requires xs != [] && SortedItems(xs)
    ensures x in xs[1..] <==> x in xs && x != xs[0]
  {
    if x in xs && x != xs[0] {
      var i :| 0 <= i < |xs| && xs[i] == x;
      assert xs[1..][i - 1] == x;
    }
  }

  // --- The algorithm ---

  function InsertItem(x: UpdateItem, xs: seq<UpdateItem>): seq<UpdateItem> {
    if xs == [] || ItemLess(x, xs[0]) then [x] + xs else [xs[0]] + InsertItem(x, xs[1..])
  }

  lemma {:induction false} InsertItemSorted(x: UpdateItem, xs: seq<UpdateItem>)
    requires SortedItems(xs) && forall i :: 0 <= i < |xs| ==> xs[i].itemId != x.itemId
    ensures SortedItems(InsertItem(x, xs))
    ensures forall y :: y in InsertItem(x, xs) <==> y == x || y in xs
  {
    if xs != [] && !ItemLess(x, xs[0]) {
      InsertItemSorted(x, xs[1..]);
      var t := InsertItem(x, xs[1..]);
      assert xs == [xs[0]] + xs[1..];
      assert InsertItem(x, xs) == [xs[0]] + t;
      forall i | 0 <= i < |t| ensures ItemLess(xs[0], t[i]) {
        assert t[i] in t;
      }
    } else {
      assert InsertItem(x, xs) == [x] + xs;
    }
  }

  // Python's sorted(items, key=(sequence, item_id)).
  method SortItems(items: seq<UpdateItem>) returns (r: seq<UpdateItem>)
    requires forall i, j :: 0 <= i < j < |items| ==> items[i].itemId != items[j].itemId
    ensures SortedItems(r) && forall x :: x in r <==> x in items
  {
    r := [];
    for i := 0 to |items|
      invariant SortedItems(r)
      invariant forall x :: x in r <==> x in items[..i]
    {
      forall k | 0 <= k < |r| ensures r[k].itemId != items[i].itemId {
        assert r[k] in r;
      }
      InsertItemSorted(items[i], r);
      TakeNext(items, i);
      r := InsertItem(items[i], r);
    }
    assert items[..|items|] == items;
  }

  // Events of groups with a smaller recommendation leader are used up.
  ghost predicate UsedUp(v: seq<Event>, k: nat, consumed: set<Digest>) {
    forall i :: 0 <= i < |v|
      ==> (v[i].id in consumed <==> Leader(v, i) < k && v[Leader(v, i)].kind.RecommendationPublished?)
  }

  lemma SortedIndex(v: seq<Event>, i: nat, j: nat)
    requires SortedById(v) && i < |v| && j < |v| && v[i].id == v[j].id
    ensures i == j
  {
  }

  lemma AdditionIff(v: seq<Event>, k: nat, consumed: set<Digest>, i: nat)
    requires k < |v| && i < |v| && v[k].kind.RecommendationPublished? && UsedUp(v, k, consumed)
    ensures i != k && Leader(v, i) == k <==>
            v[i].kind.SkillAdded? && v[i].subjectId in v[k].skillIds && v[i].id !in consumed
  {
    LeaderLeads(v, i);
    FirstAdvisorFirst(v, v[i].subjectId, 0);
  }

  method CollectAdditions(v: seq<Event>, k: nat, consumed: set<Digest>) returns (additions: seq<Event>)
    requires SortedById(v) && k < |v| && v[k].kind.RecommendationPublished? && UsedUp(v, k, consumed)
    ensures forall e :: e in additions <==> exists i :: 0 <= i < |v| && i != k && Leader(v, i) == k && v[i] == e
    ensures forall i, j :: 0 <= i < j < |additions| ==> additions[i].id < additions[j].id
  {
    additions := [];
    for i := 0 to |v|
      invariant forall e :: e in additions <==> exists j :: 0 <= j < i && j != k && Leader(v, j) == k && v[j] == e
      invariant SortedById(additions)
    {
      AdditionIff(v, k, consumed, i);
      if v[i].kind.SkillAdded? && v[i].subjectId in v[k].skillIds && v[i].id !in consumed {
        forall j | 0 <= j < |additions| ensures additions[j].id < v[i].id {
          assert additions[j] in additions;
        }
        additions := additions + [v[i]];
      }
    }
  }

  // additions + [recommendation], sorted by ID, is the recommendation's group.
  method GroupOf(v: seq<Event>, k: nat, consumed: set<Digest>) returns (group: seq<Event>)
    requires SortedById(v) && k < |v| && v[k].kind.RecommendationPublished? && UsedUp(v, k, consumed)
    ensures group == Group(v, k)
  {
    var additions := CollectAdditions(v, k, consumed);
    forall i | 0 <= i < |additions| ensures additions[i].id != v[k].id {
      assert additions[i] in additions;
    }
    group := SortEvents(additions + [v[k]]);
    GroupMembers(v, k, |v|);
    assert Leader(v, k) == k;
    forall x ensures x in group <==> x in Group(v, k) {
      assert x in group <==> x in additions || x == v[k];
    }
    SortedUnique(group, Group(v, k));
  }

  // items[i] is the item led by event ks[i]; no leader occurs twice.
  ghost predicate Made(ih: ItemHash, documents: Library, skills: map<Id, Lifecycle>, v: seq<Event>, ks: seq<nat>,
                       items: seq<UpdateItem>) {
    && |ks| == |items|
    && Distinct(ks)
    && forall i :: 0 <= i < |ks| ==> LedItem(ih, documents, skills, v, ks[i], items[i])
  }

  lemma MadeAppend(ih: ItemHash, documents: Library, skills: map<Id, Lifecycle>, v: seq<Event>, ks: seq<nat>,
                   items: seq<UpdateItem>, k: nat)
    requires Made(ih, documents, skills, v, ks, items) && k < |v| && Leader(v, k) == k && k !in ks
    ensures Made(ih, documents, skills, v, ks + [k], items + [MakeItem(ih, documents, skills, Group(v, k))])
  {
    DistinctAppend(ks, k);
  }

  lemma SingleGroup(v: seq<Event>, k: nat)
    requires SortedById(v) && k < |v| && !v[k].kind.RecommendationPublished? && Leader(v, k) == k
    ensures Group(v, k) == [v[k]]
  {
    GroupMembers(v, k, |v|);
    forall x ensures x in Group(v, k) <==> x in [v[k]] {
      forall i | 0 <= i < |v| && Leader(v, i) == k ensures i == k {
        LeaderLeads(v, i);
      }
    }
    SortedUnique(Group(v, k), [v[k]]);
  }

  // The recommendation loop of build_items for one sequence ...
  method AdviceItems(ih: ItemHash, documents: Library, skills: map<Id, Lifecycle>, v: seq<Event>)
    returns (items: seq<UpdateItem>, consumed: set<Digest>, ghost ks: seq<nat>)
    requires SortedById(v)
    ensures UsedUp(v, |v|, consumed) && Made(ih, documents, skills, v, ks, items)
    ensures forall i :: i in ks <==> 0 <= i < |v| && v[i].kind.RecommendationPublished?
  {
    consumed := {};
    items, ks := [], [];
    for k := 0 to |v|
      invariant UsedUp(v, k, consumed)
      invariant Made(ih, documents, skills, v, ks, items)
      invariant forall i :: i in ks <==> 0 <= i < k && v[i].kind.RecommendationPublished?
    {
      if v[k].kind.RecommendationPublished? {
        var group := GroupOf(v, k, consumed);
        MadeAppend(ih, documents, skills, v, ks, items, k);
        UseGroup(v, k, consumed, group);
        consumed := consumed + set i | 0 <= i < |group| :: group[i].id;
        items := items + [MakeItem(ih, documents, skills, group)];
        ks := ks + [k];
      } else {
        SkipLeader(v, k, consumed);
      }
    }
  }

  // ... and the remainder loop: every event no recommendation used is an item of its own.
  method RecordItems(ih: ItemHash, documents: Library, skills: map<Id, Lifecycle>, v: seq<Event>)
    returns (items: seq<UpdateItem>, ghost ks: seq<nat>)
    requires SortedById(v)
    ensures Made(ih, documents, skills, v, ks, items)
    ensures forall k :: 0 <= k < |v| && Leader(v, k) == k ==> k in ks
    ensures forall x :: x in items <==> RecordItem(ih, documents, skills, v, x)
  {
    var consumed;
    items, consumed, ks := AdviceItems(ih, documents, skills, v);
    for k := 0 to |v|
      invariant Made(ih, documents, skills, v, ks, items) && LedBefore(v, ks, k)
    {
      RemainderStep(ih, documents, skills, v, ks, items, k, consumed);
      if v[k].id !in consumed {
        items := items + [MakeItem(ih, documents, skills, [v[k]])];
        ks := ks + [k];
      }
    }
    MadeExactly(ih, documents, skills, v, ks, items);
  }

  lemma MadeExactly(ih: ItemHash, documents: Library, skills: map<Id, Lifecycle>, v: seq<Event>, ks: seq<nat>,
                    items: seq<UpdateItem>)
    requires Made(ih, documents, skills, v, ks, items) && forall k :: 0 <= k < |v| && Leader(v, k) == k ==> k in ks
    ensures forall x :: x in items <==> RecordItem(ih, documents, skills, v, x)
  {
    forall x ensures x in items <==> RecordItem(ih, documents, skills, v, x) {
      if x in items {
        var i :| 0 <= i < |items| && items[i] == x;
        assert LedItem(ih, documents, skills, v, ks[i], items[i]);
      }
      if RecordItem(ih, documents, skills, v, x) {
        var k: nat :| LedItem(ih, documents, skills, v, k, x);
        var i :| 0 <= i < |ks| && ks[i] == k;
        assert LedItem(ih, documents, skills, v, ks[i], items[i]);
      }
    }
  }

  // ks holds the recommendations and the other leaders before k.
  ghost predicate LedBefore(v: seq<Event>, ks: seq<nat>, k: nat) {
    && (forall i :: i in ks ==> i < |v| && (i < k || v[i].kind.RecommendationPublished?))
    && (forall i :: 0 <= i < |v| && (i < k || v[i].kind.RecommendationPublished?) && Leader(v, i) == i ==> i in ks)
  }

  lemma RemainderStep(ih: ItemHash, documents: Library, skills: map<Id, Lifecycle>, v: seq<Event>, ks: seq<nat>,
                      items: seq<UpdateItem>, k: nat, consumed: set<Digest>)
    requires SortedById(v) && k < |v| && UsedUp(v, |v|, consumed)
    requires Made(ih, documents, skills, v, ks, items) && LedBefore(v, ks, k)
    ensures v[k].id in consumed ==> LedBefore(v, ks, k + 1)
    ensures v[k].id !in consumed ==>
              Made(ih, documents, skills, v, ks + [k], items + [MakeItem(ih, documents, skills, [v[k]])])
                && LedBefore(v, ks + [k], k + 1)
  {
    LeaderLeads(v, k);
    if v[k].id !in consumed {
      Unconsumed(v, k, consumed);
      MadeAppend(ih, documents, skills, v, ks, items, k);
      assert forall i :: i in ks + [k] <==> i in ks || i == k;
    }
  }

  lemma Unconsumed(v: seq<Event>, k: nat, consumed: set<Digest>)
    requires SortedById(v) && k < |v| && UsedUp(v, |v|, consumed) && v[k].id !in consumed
    ensures Leader(v, k) == k && !v[k].kind.RecommendationPublished? && Group(v, k) == [v[k]]
  {
    LeaderLeads(v, k);
    SingleGroup(v, k);
  }

  lemma UseGroup(v: seq<Event>, k: nat, consumed: set<Digest>, group: seq<Event>)
    requires SortedById(v) && k < |v| && v[k].kind.RecommendationPublished? && UsedUp(v, k, consumed)
        && group == Group(v, k)
    ensures UsedUp(v, k + 1, consumed + set i | 0 <= i < |group| :: group[i].id)
  {
    GroupMembers(v, k, |v|);
    var ids := set i | 0 <= i < |group| :: group[i].id;
    forall i | 0 <= i < |v|
      ensures v[i].id in consumed + ids <==> Leader(v, i) < k + 1 && v[Leader(v, i)].kind.RecommendationPublished?
    {
      LeaderLeads(v, i);
      if Leader(v, i) == k {
        assert v[i] in group;
      }
      if v[i].id in ids {
        var j :| 0 <= j < |group| && group[j].id == v[i].id;
        assert group[j] in group;
        var m :| 0 <= m < |v| && Leader(v, m) == k && v[m] == group[j];
        SortedIndex(v, i, m);
      }
    }
  }

  lemma SkipLeader(v: seq<Event>, k: nat, consumed: set<Digest>)
    requires k < |v| && !v[k].kind.RecommendationPublished? && UsedUp(v, k, consumed)
    ensures UsedUp(v, k + 1, consumed)
  {
    forall i | 0 <= i < |v|
      ensures v[i].id in consumed <==> Leader(v, i) < k + 1 && v[Leader(v, i)].kind.RecommendationPublished?
    {
      LeaderLeads(v, i);
    }
  }

  // Two leaders' groups have different event lists.
  lemma GroupsDiffer(v: seq<Event>, i: nat, j: nat)
    requires SortedById(v) && i < |v| && j < |v| && i != j && Leader(v, i) == i && Leader(v, j) == j
    ensures EventIds(Group(v, i)) != EventIds(Group(v, j))
  {
    GroupMembers(v, i, |v|);
    GroupMembers(v, j, |v|);
    var gi, gj := Group(v, i), Group(v, j);
    var p :| 0 <= p < |gi| && gi[p] == v[i];
    if EventIds(gi) == EventIds(gj) {
      assert EventIds(gi)[p] == EventIds(gj)[p];
      assert gj[p] in gj;
      var m: nat :| m < |v| && Leader(v, m) == j && v[m] == gj[p];
      SortedIndex(v, i, m);
    }
  }

  // Where an item comes from: a record and a leader in its surviving events.
  datatype Source = Source(record: nat, leader: nat)

  ghost predicate From(ih: ItemHash, s: SnapshotBody, latest: Latest, src: Source, x: UpdateItem) {
    src.record < |s.records|
      && LedItem(ih, s.documents, latest.skills, SurvivorsAt(s, latest, src.record), src.leader, x)
  }

  lemma SourcesDiffer(h: Hash, base: string, feedId: string, ih: ItemHash, s: SnapshotBody, latest: Latest,
                      a: Source, b: Source, x: UpdateItem, y: UpdateItem)
    requires LogOk(h, base, feedId, s.records) && InjectiveItems(ih)
    requires From(ih, s, latest, a, x) && From(ih, s, latest, b, y) && a != b
    ensures x.itemId != y.itemId
  {
    var v, w := SurvivorsAt(s, latest, a.record), SurvivorsAt(s, latest, b.record);
    RecordSorted(h, base, feedId, s.records, a.record);
    RecordSorted(h, base, feedId, s.records, b.record);
    SurvivorsMembers(s.documents, latest, s.records[a.record].events);
    SurvivorsMembers(s.documents, latest, s.records[b.record].events);
    if a.record == b.record {
      GroupsDiffer(v, a.leader, b.leader);
    } else {
      GroupMembers(v, a.leader, |v|);
      GroupMembers(w, b.leader, |w|);
      var g, g' := Group(v, a.leader), Group(w, b.leader);
      assert g[0] in g;
      if EventIds(g) == EventIds(g') {
        assert EventIds(g)[0] == EventIds(g')[0];
        assert g'[0] in g';
        if a.record < b.record {
          CrossIds(h, base, feedId, s.records, a.record, b.record, g[0], g'[0]);
        } else {
          CrossIds(h, base, feedId, s.records, b.record, a.record, g'[0], g[0]);
        }
      }
    }
  }

  // The items of records from + 1 .. n, each with its source.
  ghost predicate Gathered(ih: ItemHash, s: SnapshotBody, latest: Latest, from: nat, n: nat, srcs: seq<Source>,
                           items: seq<UpdateItem>)
    requires n <= |s.records|
  {
    && |srcs| == |items|
    && Distinct(srcs)
    && (forall i :: 0 <= i < |srcs| ==> from <= srcs[i].record < n && From(ih, s, latest, srcs[i], items[i]))
    && forall r: nat, k: nat :: from <= r < n && LeadsAt(s, latest, r, k) ==> Source(r, k) in srcs
  }

  ghost predicate LeadsAt(s: SnapshotBody, latest: Latest, r: nat, k: nat) {
    r < |s.records| && k < |SurvivorsAt(s, latest, r)| && Leader(SurvivorsAt(s, latest, r), k) == k
  }

  lemma DistinctConcat<T>(xs: seq<T>, ys: seq<T>)
    requires Distinct(xs) && Distinct(ys) && forall y :: y in ys ==> y !in xs
    ensures Distinct(xs + ys)
  {
    var zs := xs + ys;
    forall i, j | 0 <= i < j < |zs| ensures zs[i] != zs[j] {
      assert j >= |xs| ==> zs[j] in ys;
      assert i < |xs| ==> zs[i] in xs;
    }
  }

  function SourcesOf(n: nat, ks: seq<nat>): seq<Source> {
    seq(|ks|, i requires 0 <= i < |ks| => Source(n, ks[i]))
  }

  lemma NewSources(srcs: seq<Source>, n: nat, ks: seq<nat>)
    requires Distinct(srcs) && Distinct(ks) && forall i :: 0 <= i < |srcs| ==> srcs[i].record < n
    ensures Distinct(srcs + SourcesOf(n, ks))
    ensures forall k :: k in ks ==> Source(n, k) in SourcesOf(n, ks)
  {
    forall k | k in ks ensures Source(n, k) in SourcesOf(n, ks) {
      var i :| 0 <= i < |ks| && ks[i] == k;
      assert SourcesOf(n, ks)[i] == Source(n, k);
    }
    DistinctConcat(srcs, SourcesOf(n, ks));
  }

  lemma GatherRecord(ih: ItemHash, s: SnapshotBody, latest: Latest, from: nat, n: nat, srcs: seq<Source>,
                     items: seq<UpdateItem>,
                     ks: seq<nat>, more: seq<UpdateItem>)
    requires from <= n < |s.records| && Gathered(ih, s, latest, from, n, srcs, items)
    requires Made(ih, s.documents, latest.skills, SurvivorsAt(s, latest, n), ks, more)
    requires forall k :: 0 <= k < |SurvivorsAt(s, latest, n)| && Leader(SurvivorsAt(s, latest, n), k) == k ==> k in ks
    ensures Gathered(ih, s, latest, from, n + 1, srcs + SourcesOf(n, ks), items + more)
  {
    hide Survivors, LedItem, Leader;
    NewSources(srcs, n, ks);
    var srcs' := srcs + SourcesOf(n, ks);
    forall i | 0 <= i < |srcs'|
      ensures from <= srcs'[i].record < n + 1 && From(ih, s, latest, srcs'[i], (items + more)[i]) {
      if i >= |srcs| {
        assert LedItem(ih, s.documents, latest.skills, SurvivorsAt(s, latest, n), ks[i - |srcs|], more[i - |srcs|]);
      }
    }
    forall r: nat, k: nat | from <= r < n + 1 && LeadsAt(s, latest, r, k) ensures Source(r, k) in srcs' {
      if r == n {
        assert k in ks;
      }
    }
  }

  // Survivors of a record in an accepted log are in ID order.
  method RecordSurvivors(documents: Library, latest: Latest, events: seq<Event>) returns (v: seq<Event>)
    ensures v == Survivors(documents, latest, events)
  {
    v := [];
    for i := 0 to |events|
      invariant v == Survivors(documents, latest, events[..i])
    {
      TakeNext(events, i);
      assert events[..i + 1][..i] == events[..i];
      if Survives(documents, latest, events[i]) {
        v := v + [events[i]];
      }
    }
    assert events[..|events|] == events;
  }

  method GatherItems(h: Hash, identify: SnapshotHash, ih: ItemHash, s: FeedSnapshot, from: nat, latest: Latest)
    returns (items: seq<UpdateItem>, ghost srcs: seq<Source>)
    requires Accepted(h, identify, s, true) && from <= |s.body.records|
    ensures Gathered(ih, s.body, latest, from, |s.body.records|, srcs, items)
  {
    var body := s.body;
    items, srcs := [], [];
    for n := from to |body.records|
      invariant Gathered(ih, body, latest, from, n, srcs, items)
    {
      RecordSorted(h, s.base, s.feedId, body.records, n);
      SurvivorsMembers(body.documents, latest, body.records[n].events);
      var v := RecordSurvivors(body.documents, latest, body.records[n].events);
      var more; ghost var ks;
      more, ks := RecordItems(ih, body.documents, latest.skills, v);
      GatherRecord(ih, body, latest, from, n, srcs, items, ks, more);
      srcs, items := srcs + SourcesOf(n, ks), items + more;
    }
  }

  method KeepMatching(items: seq<UpdateItem>, f: Filters) returns (kept: seq<UpdateItem>)
    requires forall i, j :: 0 <= i < j < |items| ==> items[i].itemId != items[j].itemId
    ensures forall x :: x in kept <==> x in items && Matches(x, f)
    ensures forall i, j :: 0 <= i < j < |kept| ==> kept[i].itemId != kept[j].itemId
  {
    kept := [];
    for i := 0 to |items|
      invariant forall x :: x in kept <==> x in items[..i] && Matches(x, f)
      invariant forall a, b :: 0 <= a < b < |kept| ==> kept[a].itemId != kept[b].itemId
    {
      TakeNext(items, i);
      if Matches(items[i], f) {
        forall a | 0 <= a < |kept| ensures kept[a].itemId != items[i].itemId {
          assert kept[a] in items[..i];
        }
        kept := kept + [items[i]];
      }
    }
    assert items[..|items|] == items;
  }

  lemma GatheredSound(ih: ItemHash, s: SnapshotBody, from: nat, srcs: seq<Source>, items: seq<UpdateItem>, i: nat)
    requires Gathered(ih, s, LatestOf(s), from, |s.records|, srcs, items) && i < |items|
    ensures ItemAfter(ih, s, from, items[i])
  {
    var latest := LatestOf(s);
    assert From(ih, s, latest, srcs[i], items[i]);
    assert RecordItem(ih, s.documents, latest.skills, SurvivorsAt(s, latest, srcs[i].record), items[i]);
    assert ItemAt(ih, s, from, srcs[i].record, items[i]);
  }

  lemma GatheredComplete(ih: ItemHash, s: SnapshotBody, from: nat, srcs: seq<Source>, items: seq<UpdateItem>,
                         x: UpdateItem)
    requires Gathered(ih, s, LatestOf(s), from, |s.records|, srcs, items) && ItemAfter(ih, s, from, x)
    ensures x in items
  {
    var latest := LatestOf(s);
    var r: nat :| ItemAt(ih, s, from, r, x);
    var k: nat :| LedItem(ih, s.documents, latest.skills, SurvivorsAt(s, latest, r), k, x);
    assert LeadsAt(s, latest, r, k);
    var i :| 0 <= i < |srcs| && srcs[i] == Source(r, k);
    assert From(ih, s, latest, srcs[i], items[i]);
  }

  // build_items
  method BuildItems(h: Hash, identify: SnapshotHash, ih: ItemHash, s: FeedSnapshot, from: int, f: Filters)
    returns (r: Option<seq<UpdateItem>>)
    requires InjectiveItems(ih)
    ensures r.Some? <==> Accepted(h, identify, s, true) && 0 <= from <= s.body.head.sequence
    ensures r.Some? ==> IsAnswer(ih, s.body, from, f, r.value)
  {
    var ok := ValidateSnapshot(h, identify, s, true);
    if !ok || from < 0 || from > s.body.head.sequence {
      return None;
    }
    var skills, advice := LatestStates(s.body.documents, s.body.records);
    var latest := Latest(skills, advice);
    var items; ghost var srcs;
    items, srcs := GatherItems(h, identify, ih, s, from, latest);
    forall i, j | 0 <= i < j < |items| ensures items[i].itemId != items[j].itemId {
      SourcesDiffer(h, s.base, s.feedId, ih, s.body, latest, srcs[i], srcs[j], items[i], items[j]);
    }
    forall i | 0 <= i < |items| ensures ItemAfter(ih, s.body, from, items[i]) {
      GatheredSound(ih, s.body, from, srcs, items, i);
    }
    forall x | ItemAfter(ih, s.body, from, x) ensures x in items {
      GatheredComplete(ih, s.body, from, srcs, items, x);
    }
    var kept := KeepMatching(items, f);
    var sorted := SortItems(kept);
    r := Some(sorted);
  }
}
