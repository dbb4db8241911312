/** The parsed documents that the publisher and the consumer exchange: release
    artifacts, feed events and feed records. */
module Documents {
  import opened Options

  // A digest text has a fixed number of lower-case hex digits, so comparing two
  // texts is comparing two numbers.
  type Digest = nat
  type Id = string

  datatype Lifecycle = Active | Deprecated | Withdrawn

  datatype CatalogItem = CatalogItem(
    id: Id,
    source: string,
    install: string,
    entryLifecycle: Option<Lifecycle>,  // the entry's own, optional field
    name: string,
    summary: string,
    purposes: set<string>,
    lifecycle: Lifecycle,               // the item's copy
    entryDigest: Digest)

  datatype InstallDoc = InstallDoc(skillId: Id, entryDigest: Digest, source: string, install: string,
                                   installDigest: Digest)

  datatype Status = Draft | Ready | Retired  // Retired is the status text "withdrawn"

  datatype SkillRef = SkillRef(id: Id, experienceVersion: Option<string>)

  datatype Recommendation = Recommendation(
    id: Id,
    skills: seq<SkillRef>,
    status: Status,
    title: string,
    body: string,
    topics: set<string>)

  datatype Page = SkillPage(skillId: Id) | RecommendationPage(recommendationId: Id)

  datatype Artifact = Artifact(
    sourceCommit: string,
    catalog: seq<CatalogItem>,
    recommendations: seq<Recommendation>,
    installs: map<Id, InstallDoc>,
    pages: map<Page, string>,
    inputDigest: Option<Digest>)        // of data/status.json, which is optional

  const EMPTY_ARTIFACT := Artifact("", [], [], map[], map[], None)

  datatype EventType = SkillAdded | SkillUpdated | SkillWithdrawn | RecommendationPublished | RecommendationWithdrawn

  // The pair (family, subject_id).
  datatype Subject = Skill(id: Id) | Advice(id: Id)

  datatype Target = PageOf(page: Page) | InstallOf(skillId: Id) | RecommendationsFile

  datatype Url = Url(base: string, releaseId: Digest, target: Target)

  datatype Event = Event(
    feedId: string,
    id: Digest,
    sequence: nat,
    releaseId: Digest,
    kind: EventType,
    subjectId: Id,
    revision: Digest,
    skillIds: seq<Id>,
    publishedAt: string,
    pageUrl: Url,
    machineUrl: Url)

  datatype Record = Record(
    releaseId: Digest,
    sequence: nat,
    sourceCommit: string,
    publicationTime: string,
    committedAt: string,
    previousSequence: Option<nat>,
    events: seq<Event>)

  // Everything the publisher hashes. Distinct constructors stand for JSON
  // objects with distinct key sets.
  datatype Value =
    | SkillSemantic(source: string, install: string, lifecycle: Lifecycle)
    | ReadyAdvice(id: Id, skills: seq<SkillRef>)
    | WithdrawnAdvice(id: Id)
    | EventIdentity(feedId: string, kind: EventType, subjectId: Id, revision: Digest, previous: Option<Digest>)
    | ReleaseInputs(sourceCommit: string, catalogDigest: Digest, snapshotDigest: Digest, buildConfig: string)
    | EntryBody(id: Id, source: string, install: string, declared: Option<Lifecycle>, name: string, summary: string,
                purposes: set<string>)
    | InstallBody(skillId: Id, entryDigest: Digest, source: string, install: string)
    | CatalogFile(sourceCommit: string, items: seq<CatalogItem>)
    | Manifest(artifact: Artifact)

  type Hash = Value -> Digest

  // No two hashed values collide.
  ghost predicate Injective(h: Hash) {
    forall x: Value, y: Value :: h(x) == h(y) ==> x == y
  }

  ghost predicate Distinct<T>(xs: seq<T>) {
    forall i, j :: 0 <= i < j < |xs| ==> xs[i] != xs[j]
  }

  lemma DistinctAppend<T>(xs: seq<T>, x: T)
    ensures Distinct(xs + [x]) <==> Distinct(xs) && x !in xs
  {
    var ys := xs + [x];
    assert ys[|xs|] == x && forall i :: 0 <= i < |xs| ==> ys[i] == xs[i];
    if Distinct(ys) {
      assert forall i :: 0 <= i < |xs| ==> ys[i] != ys[|xs|];
    }
  }

  lemma TakeNext<T>(xs: seq<T>, i: nat)
    requires i < |xs|
    ensures xs[..i + 1] == xs[..i] + [xs[i]]
  {
  }

  function CatalogIds(items: seq<CatalogItem>): seq<Id> {
    seq(|items|, i requires 0 <= i < |items| => items[i].id)
  }

  function AdviceIds(items: seq<Recommendation>): seq<Id> {
    seq(|items|, i requires 0 <= i < |items| => items[i].id)
  }

  predicate IsSkillKind(k: EventType) {
    k.SkillAdded? || k.SkillUpdated? || k.SkillWithdrawn?
  }

  function SubjectOfKind(k: EventType, id: Id): Subject {
    if IsSkillKind(k) then Skill(id) else Advice(id)
  }

  function SubjectOf(e: Event): Subject {
    SubjectOfKind(e.kind, e.subjectId)
  }

  function PageFor(s: Subject): Page {
    match s
    case Skill(id) => SkillPage(id)
    case Advice(id) => RecommendationPage(id)
  }

  function MachineFor(s: Subject): Target {
    match s
    case Skill(id) => InstallOf(id)
    case Advice(_) => RecommendationsFile
  }

  function LifecycleOf(item: CatalogItem): Lifecycle {
    match item.entryLifecycle
    case Some(l) => l
    case None => item.lifecycle
  }

  function Semantic(item: CatalogItem): Value {
    SkillSemantic(item.source, item.install, LifecycleOf(item))
  }

  // The catalog entry of an item, and an install document without its digest.
  function EntryOf(item: CatalogItem): Value {
    EntryBody(item.id, item.source, item.install, item.entryLifecycle, item.name, item.summary, item.purposes)
  }

  function UnsignedOf(doc: InstallDoc): Value {
    InstallBody(doc.skillId, doc.entryDigest, doc.source, doc.install)
  }

  function RefIds(refs: seq<SkillRef>): seq<Id> {
    seq(|refs|, i requires 0 <= i < |refs| => refs[i].id)
  }

  // Python dict comprehensions over a list: a later item replaces an earlier one.
  function SkillMap(items: seq<CatalogItem>): map<Id, CatalogItem> {
    if items == [] then map[] else
      var last := items[|items| - 1];
      SkillMap(items[..|items| - 1])[last.id := last]
  }

  function AdviceMap(items: seq<Recommendation>): map<Id, Recommendation> {
    if items == [] then map[] else
      var last := items[|items| - 1];
      AdviceMap(items[..|items| - 1])[last.id := last]
  }

  // All events of a list of records, in order.
  function Events(records: seq<Record>): seq<Event> {
    if records == [] then [] else
      Events(records[..|records| - 1]) + records[|records| - 1].events
  }

  // What the log last said about each subject.
  datatype Last = Last(id: Digest, kind: EventType, revision: Digest)

  function LastOf(e: Event): Last {
    Last(e.id, e.kind, e.revision)
  }

  function History(events: seq<Event>): map<Subject, Last> {
    if events == [] then map[] else
      var last := events[|events| - 1];
      History(events[..|events| - 1])[SubjectOf(last) := LastOf(last)]
  }

  ghost predicate SortedById(r: seq<Event>) {
    forall i, j :: 0 <= i < j < |r| ==> r[i].id < r[j].id
  }

  function Lookup<K, V>(m: map<K, V>, k: K): Option<V> {
    if k in m then Some(m[k]) else None
  }

  lemma {:induction false} HistoryAppend(xs: seq<Event>, e: Event)
    ensures History(xs + [e]) == History(xs)[SubjectOf(e) := LastOf(e)]
  {
    assert (xs + [e])[..|xs|] == xs;
  }

  lemma EventsAppend(records: seq<Record>, r: Record)
    ensures Events(records + [r]) == Events(records) + r.events
  {
    assert (records + [r])[..|records|] == records;
  }

  // An item whose ID no other item has is the dict's item for that ID.
  lemma {:induction false} SkillMapDistinct(items: seq<CatalogItem>)
    requires Distinct(CatalogIds(items))
    ensures forall id :: id in SkillMap(items) <==> id in CatalogIds(items)
    ensures forall i :: 0 <= i < |items| ==> items[i].id in SkillMap(items) && SkillMap(items)[items[i].id] == items[i]
  {
    if items != [] {
      var front, last := items[..|items| - 1], items[|items| - 1];
      assert CatalogIds(items) == CatalogIds(front) + [last.id];
      DistinctAppend(CatalogIds(front), last.id);
      SkillMapDistinct(front);
      forall i | 0 <= i < |front| ensures items[i].id != last.id {
        assert CatalogIds(front)[i] == items[i].id;
      }
    }
  }

  lemma {:induction false} AdviceMapDistinct(items: seq<Recommendation>)
    requires Distinct(AdviceIds(items))
    ensures forall id :: id in AdviceMap(items) <==> id in AdviceIds(items)
    ensures forall i :: 0 <= i < |items| ==>
              items[i].id in AdviceMap(items) && AdviceMap(items)[items[i].id] == items[i]
  {
    if items != [] {
      var front, last := items[..|items| - 1], items[|items| - 1];
      assert AdviceIds(items) == AdviceIds(front) + [last.id];
      DistinctAppend(AdviceIds(front), last.id);
      AdviceMapDistinct(front);
      forall i | 0 <= i < |front| ensures items[i].id != last.id {
        assert AdviceIds(front)[i] == items[i].id;
      }
    }
  }
}
