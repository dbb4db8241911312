/** The publisher's check of a release artifact (_validate_artifact in
    src/hwskill/publishing/service.py). */
module Artifacts {
  import opened Options
  import opened Documents

  // The install document repeats what the catalog entry says, under its own digest.
  predicate Bound(h: Hash, doc: InstallDoc, item: CatalogItem) {
    && doc.skillId == item.id && doc.entryDigest == item.entryDigest
    && doc.source == item.source && doc.install == item.install
    && h(UnsignedOf(doc)) == doc.installDigest
  }

  predicate ItemOk(h: Hash, a: Artifact, item: CatalogItem) {
    && h(EntryOf(item)) == item.entryDigest
    && item.entryLifecycle == Some(item.lifecycle)
    && item.id in a.installs
    && Bound(h, a.installs[item.id], item)
  }

  predicate AdviceOk(a: Artifact, r: Recommendation) {
    && !r.status.Draft?
    && forall k :: 0 <= k < |r.skills| ==> RefOk(a, r, r.skills[k].id)
  }

  // The recommended skill is in the catalog, and active if the recommendation is ready.
  predicate RefOk(a: Artifact, r: Recommendation, id: Id) {
    id in SkillMap(a.catalog) && (r.status.Ready? ==> SkillMap(a.catalog)[id].lifecycle.Active?)
  }

  ghost predicate ValidArtifact(h: Hash, a: Artifact, sourceCommit: string) {
    && a.sourceCommit == sourceCommit
    && Distinct(CatalogIds(a.catalog))
    && (forall i :: 0 <= i < |a.catalog| ==> ItemOk(h, a, a.catalog[i]))
    && Distinct(AdviceIds(a.recommendations))
    && (forall i :: 0 <= i < |a.recommendations| ==> AdviceOk(a, a.recommendations[i]))
  }

  method CheckCatalog(h: Hash, a: Artifact) returns (ok: bool, ids: set<Id>)
    ensures ok <==> Distinct(CatalogIds(a.catalog)) && forall i :: 0 <= i < |a.catalog| ==> ItemOk(h, a, a.catalog[i])
    ensures ok ==> forall id :: id in ids <==> id in CatalogIds(a.catalog)
  {
    ghost var all := CatalogIds(a.catalog);
    ids := {};
    for n := 0 to |a.catalog|
      invariant Distinct(all[..n])
      invariant forall i :: 0 <= i < n ==> ItemOk(h, a, a.catalog[i])
      invariant forall id :: id in ids <==> id in all[..n]
    {
      var item := a.catalog[n];
      assert all[..n + 1] == all[..n] + [item.id];
      DistinctAppend(all[..n], item.id);
      if item.id in ids || !ItemOk(h, a, item) {
        DistinctPrefix(all, n + 1);
        return false, {};
      }
      ids := ids + {item.id};
    }
    assert all[..|all|] == all;
    ok := true;
  }

  lemma DistinctPrefix<T>(xs: seq<T>, n: nat)
    requires n <= |xs|
    ensures Distinct(xs) ==> Distinct(xs[..n])
  {
  }

  // The status document, if it names its input, names the requested one.
  predicate InputOk(a: Artifact, snapshotDigest: Digest) {
    a.inputDigest.Some? ==> a.inputDigest.value == snapshotDigest
  }

  method ValidateArtifact(h: Hash, a: Artifact, sourceCommit: string, snapshotDigest: Digest) returns (ok: bool)
    ensures ok <==> ValidArtifact(h, a, sourceCommit) && InputOk(a, snapshotDigest)
  {
    var catalogOk, ids := CheckCatalog(h, a);
    if a.sourceCommit != sourceCommit || !catalogOk {
      return false;
    }
    var byId := SkillMap(a.catalog);
    SkillMapDistinct(a.catalog);
    ghost var all := AdviceIds(a.recommendations);
    var seen: set<Id> := {};
    for n := 0 to |a.recommendations|
      invariant Distinct(all[..n])
      invariant forall i :: 0 <= i < n ==> AdviceOk(a, a.recommendations[i])
      invariant forall id :: id in seen <==> id in all[..n]
    {
      var r := a.recommendations[n];
      assert all[..n + 1] == all[..n] + [r.id];
      DistinctAppend(all[..n], r.id);
      var fine := CheckAdvice(a, ids, byId, r);
      if r.id in seen || !fine {
        DistinctPrefix(all, n + 1);
        return false;
      }
      seen := seen + {r.id};
    }
    assert all[..|all|] == all;
    ok := InputOk(a, snapshotDigest);
  }

  method CheckAdvice(a: Artifact, ids: set<Id>, byId: map<Id, CatalogItem>, r: Recommendation) returns (ok: bool)
    requires byId == SkillMap(a.catalog) && forall id :: id in ids <==> id in byId
    ensures ok <==> AdviceOk(a, r)
  {
    if r.status.Draft? {
      return false;
    }
    for k := 0 to |r.skills|
      invariant forall m :: 0 <= m < k ==> RefOk(a, r, r.skills[m].id)
    {
      var id := r.skills[k].id;
      if id !in ids || (r.status.Ready? && !byId[id].lifecycle.Active?) {
        return false;
      }
    }
    ok := true;
  }

  // skill_item and recommendation_item: the consumer takes the first match.
  function FindItem(items: seq<CatalogItem>, id: Id): Option<CatalogItem> {
    if items == [] then None
    else if items[0].id == id then Some(items[0])
    else FindItem(items[1..], id)
  }

  function FindAdvice(items: seq<Recommendation>, id: Id): Option<Recommendation> {
    if items == [] then None
    else if items[0].id == id then Some(items[0])
    else FindAdvice(items[1..], id)
  }

  // On a catalog without duplicate IDs the publisher's dict (last match) and
  // the consumer's scan (first match) agree.
  lemma {:induction false} FindItemAgrees(items: seq<CatalogItem>, id: Id)
    requires Distinct(CatalogIds(items))
    ensures FindItem(items, id) == Lookup(SkillMap(items), id)
  {
    SkillMapDistinct(items);
    FindItemFirst(items, id);
    if FindItem(items, id).Some? {
      var i :| 0 <= i < |items| && items[i] == FindItem(items, id).value;
      assert CatalogIds(items)[i] == id;
    } else {
      assert forall i :: 0 <= i < |items| ==> CatalogIds(items)[i] == items[i].id;
    }
  }

  lemma {:induction false} FindItemFirst(items: seq<CatalogItem>, id: Id)
    ensures FindItem(items, id).None? ==> forall i :: 0 <= i < |items| ==> items[i].id != id
    ensures FindItem(items, id).Some? ==> FindItem(items, id).value in items && FindItem(items, id).value.id == id
  {
    if items != [] && items[0].id != id {
      FindItemFirst(items[1..], id);
      assert items == [items[0]] + items[1..];
    }
  }

  lemma {:induction false} FindAdviceAgrees(items: seq<Recommendation>, id: Id)
    requires Distinct(AdviceIds(items))
    ensures FindAdvice(items, id) == Lookup(AdviceMap(items), id)
  {
    AdviceMapDistinct(items);
    FindAdviceFirst(items, id);
    if FindAdvice(items, id).Some? {
      var i :| 0 <= i < |items| && items[i] == FindAdvice(items, id).value;
      assert AdviceIds(items)[i] == id;
    } else {
      assert forall i :: 0 <= i < |items| ==> AdviceIds(items)[i] == items[i].id;
    }
  }

  lemma {:induction false} FindAdviceFirst(items: seq<Recommendation>, id: Id)
    ensures FindAdvice(items, id).None? ==> forall i :: 0 <= i < |items| ==> items[i].id != id
    ensures FindAdvice(items, id).Some? ==> FindAdvice(items, id).value in items && FindAdvice(items, id).value.id == id
  {
    if items != [] && items[0].id != id {
      FindAdviceFirst(items[1..], id);
      assert items == [items[0]] + items[1..];
    }
  }
}
