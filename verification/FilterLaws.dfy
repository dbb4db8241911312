/** What the user's filters do to the answer (src/hwskill/sharing/filtering.py):
    every filtered answer is a part of the unfiltered one. */
module FilterLaws {
  import opened Documents
  import opened FeedCheck
  import opened Filtering
  import opened Delivery

  // e is one of the events that item x was made of.
  ghost predicate MadeOf(s: SnapshotBody, x: UpdateItem, e: Event) {
    e.id in x.eventIds && exists i :: 0 <= i < |s.records| && e in s.records[i].events
  }

  lemma OneEvent(h: Hash, base: string, feedId: string, records: seq<Record>, i: nat, j: nat, e: Event, f: Event)
    requires LogOk(h, base, feedId, records) && i < |records| && j < |records|
    requires e in records[i].events && f in records[j].events && e.id == f.id
    ensures e == f
  {
    if i < j {
      CrossIds(h, base, feedId, records, i, j, e, f);
    } else if j < i {
      CrossIds(h, base, feedId, records, j, i, f, e);
    } else {
      RecordSorted(h, base, feedId, records, i);
    }
  }

  // The events behind an item are the group it was made from.
  lemma GroupOfItem(h: Hash, base: string, feedId: string, ih: ItemHash, s: SnapshotBody, from: int, x: UpdateItem)
    returns (g: seq<Event>)
    requires LogOk(h, base, feedId, s.records) && ItemAfter(ih, s, from, x)
    ensures g != [] && x == MakeItem(ih, s.documents, LatestOf(s).skills, g)
    ensures forall e :: MadeOf(s, x, e) <==> e in g
  {
    var i: nat :| ItemAt(ih, s, from, i, x);
    assert ItemAt(ih, s, 0, i, x);
    var k := ItemSource(h, base, feedId, ih, s, i, x);
    g := Group(SurvivorsAt(s, LatestOf(s), i), k);
    forall e ensures MadeOf(s, x, e) <==> e in g {
      EventIdsMembers(g, e.id);
      if MadeOf(s, x, e) {
        var j :| 0 <= j < |s.records| && e in s.records[j].events;
        var f :| f in g && f.id == e.id;
        assert SurvivesAt(s, i, f);
        OneEvent(h, base, feedId, s.records, i, j, f, e);
      }
      if e in g {
        assert SurvivesAt(s, i, e);
      }
    }
  }

  lemma GroupTells(ih: ItemHash, documents: Library, skills: map<Id, Lifecycle>, g: seq<Event>)
    requires g != []
    ensures forall k :: k in MakeItem(ih, documents, skills, g).changeTypes <==> exists e :: e in g && e.kind == k
    ensures forall id :: id in MakeItem(ih, documents, skills, g).skillRefs <==> exists e :: e in g && id in e.skillIds
  {
    var x := MakeItem(ih, documents, skills, g);
    assert x.skillRefs == SkillRefs(g) && x.changeTypes == set i | 0 <= i < |g| :: g[i].kind;
    hide MakeItem, SkillRefs;
    SkillRefsSorted(g);
    forall id ensures id in SkillRefs(g) <==> exists e :: e in g && id in e.skillIds {
      assert forall e :: Mentions(e, id) <==> id in e.skillIds;
    }
    forall k ensures k in x.changeTypes <==> exists e :: e in g && e.kind == k {
      if e :| e in g && e.kind == k {
        var i :| 0 <= i < |g| && g[i] == e;
      }
    }
  }

  // An item's change types and skills are those of the events behind it.
  lemma ItemTells(h: Hash, base: string, feedId: string, ih: ItemHash, s: SnapshotBody, from: int, x: UpdateItem)
    requires LogOk(h, base, feedId, s.records) && ItemAfter(ih, s, from, x)
    ensures forall k :: k in x.changeTypes <==> exists e :: MadeOf(s, x, e) && e.kind == k
    ensures forall id :: id in x.skillRefs <==> exists e :: MadeOf(s, x, e) && id in e.skillIds
  {
    hide LogOk, ItemAfter, MadeOf, MakeItem;
    var g := GroupOfItem(h, base, feedId, ih, s, from, x);
    GroupTells(ih, s.documents, LatestOf(s).skills, g);
  }

  // The unfiltered answer, and the answer to one filter.
  ghost predicate Answers(h: Hash, base: string, feedId: string, ih: ItemHash, s: SnapshotBody, from: int, f: Filters,
                          all: seq<UpdateItem>, some: seq<UpdateItem>)
  {
    && LogOk(h, base, feedId, s.records)
    && IsAnswer(ih, s, from, NO_FILTERS, all) && IsAnswer(ih, s, from, f, some)
  }

  lemma LifecycleFilter(h: Hash, base: string, feedId: string, ih: ItemHash, s: SnapshotBody, from: int,
                        all: seq<UpdateItem>, some: seq<UpdateItem>, chosen: set<Lifecycle>)
    requires Answers(h, base, feedId, ih, s, from, NO_FILTERS.(lifecycles := chosen), all, some) && chosen != {}
    ensures forall x :: x in some <==> x in all && x.lifecycle in chosen
  {
  }

  lemma SkillFilter(h: Hash, base: string, feedId: string, ih: ItemHash, s: SnapshotBody, from: int,
                    all: seq<UpdateItem>, some: seq<UpdateItem>, chosen: set<Id>)
    requires Answers(h, base, feedId, ih, s, from, NO_FILTERS.(skillIds := chosen), all, some) && chosen != {}
    ensures forall x :: x in some <==> x in all && exists e, id :: MadeOf(s, x, e) && id in e.skillIds && id in chosen
  {
    forall x | x in all
      ensures x in some <==> exists e, id :: MadeOf(s, x, e) && id in e.skillIds && id in chosen
    {
      ItemTells(h, base, feedId, ih, s, from, x);
      if e, id :| MadeOf(s, x, e) && id in e.skillIds && id in chosen {
        assert id in x.skillRefs;
        var i :| 0 <= i < |x.skillRefs| && x.skillRefs[i] == id;
      }
      if x in some {
        var i :| 0 <= i < |x.skillRefs| && x.skillRefs[i] in chosen;
        assert x.skillRefs[i] in x.skillRefs;
      }
    }
  }

  lemma PurposeFilter(h: Hash, base: string, feedId: string, ih: ItemHash, s: SnapshotBody, from: int,
                      all: seq<UpdateItem>, some: seq<UpdateItem>, chosen: set<string>)
    requires Answers(h, base, feedId, ih, s, from, NO_FILTERS.(purposes := chosen), all, some) && chosen != {}
    ensures forall x :: x in some <==> x in all && exists p :: p in chosen && p in x.purposes
  {
    Overlap(chosen);
  }

  lemma TopicFilter(h: Hash, base: string, feedId: string, ih: ItemHash, s: SnapshotBody, from: int,
                    all: seq<UpdateItem>, some: seq<UpdateItem>, chosen: set<string>)
    requires Answers(h, base, feedId, ih, s, from, NO_FILTERS.(topics := chosen), all, some) && chosen != {}
    ensures forall x :: x in some <==> x in all && exists p :: p in chosen && p in x.topics
  {
    Overlap(chosen);
  }

  lemma Overlap(a: set<string>)
    ensures forall b: set<string> :: a * b != {} <==> exists p :: p in a && p in b
  {
    forall b: set<string> ensures a * b != {} <==> exists p :: p in a && p in b {
      if p :| p in a && p in b {
        assert p in a * b;
      }
      if a * b != {} {
        var p :| p in a * b;
      }
    }
  }

  lemma KindFilter(h: Hash, base: string, feedId: string, ih: ItemHash, s: SnapshotBody, from: int,
                   all: seq<UpdateItem>, some: seq<UpdateItem>, kind: EventType)
    requires Answers(h, base, feedId, ih, s, from, NO_FILTERS.(changes := {OneKind(kind)}), all, some)
    ensures forall x :: x in some <==> x in all && exists e :: MadeOf(s, x, e) && e.kind == kind
  {
    forall x | x in all ensures x in some <==> exists e :: MadeOf(s, x, e) && e.kind == kind {
      ItemTells(h, base, feedId, ih, s, from, x);
      assert OneKind(kind) in {OneKind(kind)};
    }
  }

  // A compound change type asks for items of exactly those kinds.
  lemma CompoundFilter(h: Hash, base: string, feedId: string, ih: ItemHash, s: SnapshotBody, from: int,
                       all: seq<UpdateItem>, some: seq<UpdateItem>, kinds: set<EventType>)
    requires Answers(h, base, feedId, ih, s, from, NO_FILTERS.(changes := {AllKinds(kinds)}), all, some)
    ensures forall x :: x in some <==>
              x in all && forall k :: k in kinds <==> exists e :: MadeOf(s, x, e) && e.kind == k
  {
    forall x | x in all
      ensures x in some <==> forall k :: k in kinds <==> exists e :: MadeOf(s, x, e) && e.kind == k
    {
      ItemTells(h, base, feedId, ih, s, from, x);
      assert AllKinds(kinds) in {AllKinds(kinds)};
    }
  }

  // Several change types are alternatives ...
  lemma AnyChange(ih: ItemHash, s: SnapshotBody, from: int, singles: map<Change, seq<UpdateItem>>,
                  some: seq<UpdateItem>)
    requires singles != map[] && IsAnswer(ih, s, from, NO_FILTERS.(changes := singles.Keys), some)
    requires forall c :: c in singles ==> IsAnswer(ih, s, from, NO_FILTERS.(changes := {c}), singles[c])
    ensures forall x :: x in some <==> exists c :: c in singles && x in singles[c]
  {
    hide ItemAfter, HasChange, SortedItems;
    assert singles.Keys != {} by {
      var c :| c in singles;
    }
    forall x, c | c in singles ensures x in singles[c] <==> ItemAfter(ih, s, from, x) && HasChange(x, c) {
      OneChange(x, c);
    }
  }

  lemma OneChange(x: UpdateItem, c: Change)
    ensures Matches(x, NO_FILTERS.(changes := {c})) <==> HasChange(x, c)
  {
    assert c in {c};
  }

  // ... and several filters must all hold.
  lemma AllFilters(ih: ItemHash, s: SnapshotBody, from: int, f: Filters, some: seq<UpdateItem>,
                   a: seq<UpdateItem>, b: seq<UpdateItem>, c: seq<UpdateItem>, d: seq<UpdateItem>, e: seq<UpdateItem>)
    requires IsAnswer(ih, s, from, f, some)
    requires IsAnswer(ih, s, from, NO_FILTERS.(purposes := f.purposes), a)
    requires IsAnswer(ih, s, from, NO_FILTERS.(skillIds := f.skillIds), b)
    requires IsAnswer(ih, s, from, NO_FILTERS.(changes := f.changes), c)
    requires IsAnswer(ih, s, from, NO_FILTERS.(lifecycles := f.lifecycles), d)
    requires IsAnswer(ih, s, from, NO_FILTERS.(topics := f.topics), e)
    ensures forall x :: x in some <==> x in a && x in b && x in c && x in d && x in e
  {
  }
}
