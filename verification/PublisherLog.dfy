/** The publisher as a state machine over its durable writes, and the shape its
    log keeps in every reachable state (src/hwskill/publishing/service.py,
    src/hwskill/publishing/store.py). */
module PublisherLog {
  import opened Options
  import opened Documents
  import opened Artifacts
  import opened Derivation
  import opened Agreement
  import opened Store

  datatype Config = Config(h: Hash, feedId: string, base: string)

  function SnapshotOf(snapshots: map<Digest, Artifact>, id: Digest): Artifact {
    if id in snapshots then snapshots[id] else EMPTY_ARTIFACT
  }

  // The artifacts of records 1 .. n.
  function ArtifactsOf(snapshots: map<Digest, Artifact>, records: map<nat, Record>, n: nat): (r: seq<Artifact>)
    ensures |r| == n
  {
    seq(n, i requires 0 <= i < n => SnapshotOf(snapshots, RecordAt(records, i + 1).releaseId))
  }

  // How a candidate's events derive from its snapshot and the log before it.
  ghost function DerivationOf(cfg: Config, snapshots: map<Digest, Artifact>, records: map<nat, Record>,
                              c: Candidate): Release
    requires c.sequence >= 1
  {
    Release(cfg.h, Stamp(cfg.feedId, cfg.base, c.releaseId, c.sequence, c.publicationTime),
            SnapshotOf(snapshots, c.releaseId),
            LastArtifact(ArtifactsOf(snapshots, records, c.sequence - 1)),
            History(Events(Prefix(records, c.sequence - 1))))
  }

  // --- The durable writes ---

  // The next durable write of _advance for a pending candidate; None when the
  // candidate is committed or its references are missing.
  function Next(cfg: Config, s: Durable, id: Digest): Option<Durable>
    requires id in s.candidates
  {
    var c := s.candidates[id];
    match c.state
    case Prepared =>
      if id !in s.snapshots then None
      else if id !in s.releases then Some(s.(releases := s.releases[id := s.snapshots[id]]))
      else Some(Save(s, c.Advance(Uploaded)))
    case Uploaded =>
      if ReferencesHeld(cfg.base, c, SnapshotOf(s.releases, id)) then Some(Save(s, c.Advance(Checked))) else None
    case Checked =>
      if s.current != Some(Current(id, c.sequence, false)) then
        Some(s.(current := Some(Current(id, c.sequence, false))))
      else Some(Save(s, c.Advance(Activated).(committedAt := Some(c.publicationTime))))
    case Activated =>
      if c.sequence !in s.records then Some(s.(records := s.records[c.sequence := ExpectedRecord(c)]))
      else if HeadSequence(s) < c.sequence then Some(s.(head := Some(FeedHead(c.sequence, id))))
      else Some(Save(s, c.Advance(Committed)))
    case Committed => None
  }

  function Save(s: Durable, c: Candidate): Durable {
    s.(candidates := s.candidates[c.releaseId := c])
  }

  ghost predicate NoPending(s: Durable) {
    forall id :: id in s.candidates ==> s.candidates[id].state.Committed?
  }

  // _prepare may save this candidate.
  ghost predicate CanPrepare(cfg: Config, s: Durable, c: Candidate) {
    && c.releaseId !in s.candidates
    && c.state.Prepared?
    && c.sequence == HeadSequence(s) + 1
    && Grounded(cfg, s.namespace, s.snapshots, c)
    && Derived(cfg, s.snapshots, s.records, c)
  }

  function Bind(s: Durable, ns: Namespace): Durable {
    s.(namespace := Some(ns))
  }

  function Freeze(s: Durable, id: Digest, a: Artifact): Durable {
    s.(snapshots := s.snapshots[id := a])
  }

  function RollbackTo(s: Durable, id: Digest): Durable
    requires id in s.candidates
  {
    s.(current := Some(Current(id, s.candidates[id].sequence, true)))
  }

  // One durable write by some publisher process; a crash is the absence of further writes.
  ghost predicate Step(cfg: Config, s: Durable, t: Durable) {
    || (s.namespace.None? && exists build: string :: t == Bind(s, Namespace(cfg.feedId, cfg.base, build)))
    || (NoPending(s) && exists id: Digest, a: Artifact :: id !in s.snapshots && t == Freeze(s, id, a))
    || (NoPending(s) && exists c: Candidate :: CanPrepare(cfg, s, c) && t == Save(s, c))
    || (exists id: Digest :: id in s.candidates && Next(cfg, s, id) == Some(t))
    || (NoPending(s) && exists id: Digest :: id in s.candidates && t == RollbackTo(s, id))
  }

  // --- The invariant ---

  // What preparation fixes for good.
  ghost predicate Grounded(cfg: Config, namespace: Option<Namespace>, snapshots: map<Digest, Artifact>, c: Candidate) {
    && LoadOk(cfg.h, c.releaseId, c)
    && namespace == Some(Namespace(cfg.feedId, cfg.base, c.buildConfig))
    && c.previousSequence == (if c.sequence == 1 then None else Some(c.sequence - 1))
    && c.releaseId in snapshots
    && c.artifactDigest == cfg.h(Manifest(snapshots[c.releaseId]))
    && c.catalogDigest == cfg.h(CatalogFile(snapshots[c.releaseId].sourceCommit, snapshots[c.releaseId].catalog))
    && ValidArtifact(cfg.h, snapshots[c.releaseId], c.sourceCommit)
    && InputOk(snapshots[c.releaseId], c.snapshotDigest)
  }

  // What each state has already written.
  ghost predicate Written(cfg: Config, snapshots: map<Digest, Artifact>, releases: map<Digest, Artifact>,
                          c: Candidate) {
    && (Rank(c.state) >= 1 ==> c.releaseId in releases)
    && (c.releaseId in releases ==> releases[c.releaseId] == SnapshotOf(snapshots, c.releaseId))
    && (Rank(c.state) >= 2 ==> ReferencesHeld(cfg.base, c, SnapshotOf(snapshots, c.releaseId)))
  }

  // A candidate at or below the head is committed (or about to be); one above is pending.
  ghost predicate Placed(records: map<nat, Record>, n: nat, c: Candidate) {
    && 1 <= c.sequence <= n + 1
    && (c.sequence <= n ==>
          && RecordAt(records, c.sequence) == ExpectedRecord(c)
          && (c.state.Committed? || (c.state.Activated? && c.sequence == n)))
    && (c.sequence == n + 1 ==> !c.state.Committed?)
  }

  ghost predicate Derived(cfg: Config, snapshots: map<Digest, Artifact>, records: map<nat, Record>, c: Candidate) {
    c.sequence >= 1 && DerivationOf(cfg, snapshots, records, c).Derive() == Some(c.events)
  }

  // What a candidate is checked against: all but the candidates themselves and the entry point.
  datatype View = View(
    namespace: Option<Namespace>,
    snapshots: map<Digest, Artifact>,
    releases: map<Digest, Artifact>,
    records: map<nat, Record>,
    n: nat)

  function ViewOf(s: Durable): View {
    View(s.namespace, s.snapshots, s.releases, s.records, HeadSequence(s))
  }

  ghost predicate CandidateOk(cfg: Config, v: View, c: Candidate) {
    && Grounded(cfg, v.namespace, v.snapshots, c)
    && Written(cfg, v.snapshots, v.releases, c)
    && Placed(v.records, v.n, c)
    && Derived(cfg, v.snapshots, v.records, c)
  }

  // Every record belongs to the candidate of its sequence.
  ghost predicate Owned(candidates: map<Digest, Candidate>, r: Record, k: nat) {
    && r.releaseId in candidates
    && candidates[r.releaseId].sequence == k
    && IsFrozen(candidates[r.releaseId].state)
    && r == ExpectedRecord(candidates[r.releaseId])
  }

  ghost predicate CurrentOk(candidates: map<Digest, Candidate>, current: Option<Current>) {
    current.Some? ==>
      && current.value.releaseId in candidates
      && current.value.sequence == candidates[current.value.releaseId].sequence
      && Rank(candidates[current.value.releaseId].state) >= 2
      && (current.value.rollback ==> candidates[current.value.releaseId].state.Committed?)
  }

  // While a candidate is activated the entry point stays on it.
  ghost predicate Pointed(candidates: map<Digest, Candidate>, current: Option<Current>) {
    forall id :: id in candidates && candidates[id].state.Activated?
      ==> current == Some(Current(id, candidates[id].sequence, false))
  }

  ghost predicate OnePending(candidates: map<Digest, Candidate>) {
    forall a, b ::
      a in candidates && b in candidates && !candidates[a].state.Committed? && !candidates[b].state.Committed?
      ==> a == b
  }

  ghost predicate CandidatesOk(cfg: Config, v: View, candidates: map<Digest, Candidate>) {
    forall id {:trigger CandidateOk(cfg, v, candidates[id])} ::
      id in candidates ==> candidates[id].releaseId == id && CandidateOk(cfg, v, candidates[id])
  }

  ghost predicate RecordsOk(candidates: map<Digest, Candidate>, records: map<nat, Record>, n: nat) {
    && (forall k {:trigger Owned(candidates, records[k], k)} :: k in records ==>
          1 <= k <= n + 1 && Owned(candidates, records[k], k))
    && (forall k :: 1 <= k <= n ==> k in records)
  }

  ghost predicate HeadNamed(records: map<nat, Record>, head: Option<FeedHead>) {
    head.Some? ==> head.value.sequence >= 1 && RecordAt(records, head.value.sequence).releaseId == head.value.releaseId
  }

  ghost predicate Inv(cfg: Config, s: Durable) {
    && (s.namespace.Some? ==> s.namespace.value.feedId == cfg.feedId && s.namespace.value.base == cfg.base)
    && HeadNamed(s.records, s.head)
    && CandidatesOk(cfg, ViewOf(s), s.candidates)
    && OnePending(s.candidates)
    && RecordsOk(s.candidates, s.records, HeadSequence(s))
    && (forall id :: id in s.releases ==> id in s.candidates)
    && CurrentOk(s.candidates, s.current)
    && Pointed(s.candidates, s.current)
  }

  const EMPTY_STORE := Durable(None, map[], map[], map[], map[], None, None)

  lemma EmptyInv(cfg: Config)
    ensures Inv(cfg, EMPTY_STORE)
  {
  }

  // --- Frames: what the derivation of an old candidate looks at ---

  lemma PrefixUpdate(records: map<nat, Record>, m: nat, r: Record, k: nat)
    requires k < m
    ensures Prefix(records[m := r], k) == Prefix(records, k)
  {
  }

  lemma ArtifactsUpdate(snapshots: map<Digest, Artifact>, records: map<nat, Record>, m: nat, r: Record, k: nat)
    requires k < m
    ensures ArtifactsOf(snapshots, records[m := r], k) == ArtifactsOf(snapshots, records, k)
  {
  }

  lemma ArtifactsFreeze(snapshots: map<Digest, Artifact>, records: map<nat, Record>, id: Digest, a: Artifact, k: nat)
    requires id !in snapshots
    requires forall i :: 1 <= i <= k ==> RecordAt(records, i).releaseId in snapshots
    ensures ArtifactsOf(snapshots[id := a], records, k) == ArtifactsOf(snapshots, records, k)
  {
  }

  // --- Every write keeps the invariant ---

  // What the invariant says about one candidate, and what all of them must say.
  lemma CandidateAt(cfg: Config, s: Durable, id: Digest)
    requires Inv(cfg, s) && id in s.candidates
    ensures s.candidates[id].releaseId == id && CandidateOk(cfg, ViewOf(s), s.candidates[id])
  {
    hide CandidateOk;
    assert CandidateOk(cfg, ViewOf(s), s.candidates[id]);
  }

  lemma CandidatesHold(cfg: Config, v: View, candidates: map<Digest, Candidate>)
    requires forall x :: x in candidates ==> candidates[x].releaseId == x && CandidateOk(cfg, v, candidates[x])
    ensures CandidatesOk(cfg, v, candidates)
  {
    hide CandidateOk;
  }

  // c is the next state of the pending candidate b.
  ghost predicate NextState(cfg: Config, v: View, b: Candidate, c: Candidate) {
    && !b.state.Committed?
    && b.SameRelease(c)
    && Rank(c.state) == Rank(b.state) + 1
    && (IsFrozen(c.state) <==> c.committedAt.Some?)
    && (c.committedAt.Some? ==> c.committedAt.value == c.publicationTime)
    && Written(cfg, v.snapshots, v.releases, c)
    && (c.state.Committed? <==> c.sequence == v.n)
  }

  lemma NextStateOk(cfg: Config, v: View, b: Candidate, c: Candidate)
    requires CandidateOk(cfg, v, b) && NextState(cfg, v, b, c)
    ensures CandidateOk(cfg, v, c)
    ensures c.releaseId == b.releaseId && c.sequence == b.sequence && !b.state.Committed?
        && Rank(c.state) > Rank(b.state)
    ensures IsFrozen(b.state) ==> IsFrozen(c.state) && ExpectedRecord(c) == ExpectedRecord(b)
  {
    assert Derived(cfg, v.snapshots, v.records, b) ==> Derived(cfg, v.snapshots, v.records, c);
  }

  // Saving a pending candidate's next state.
  lemma SaveKeeps(cfg: Config, s: Durable, id: Digest, c: Candidate)
    requires Inv(cfg, s) && id in s.candidates && NextState(cfg, ViewOf(s), s.candidates[id], c)
    requires c.state.Activated? ==> s.current == Some(Current(id, c.sequence, false))
    ensures Inv(cfg, Save(s, c))
  {
    hide CandidateOk, CandidatesOk, NextState, Owned, HeadNamed;
    var t := Save(s, c);
    assert ViewOf(t) == ViewOf(s);
    CandidateAt(cfg, s, id);
    NextStateOk(cfg, ViewOf(s), s.candidates[id], c);
    SaveRecords(s.candidates, s.records, HeadSequence(s), id, c);
    forall x | x in t.candidates
      ensures t.candidates[x].releaseId == x && CandidateOk(cfg, ViewOf(t), t.candidates[x]) {
      if x != id {
        CandidateAt(cfg, s, x);
      }
    }
    CandidatesHold(cfg, ViewOf(t), t.candidates);
  }

  lemma SaveRecords(candidates: map<Digest, Candidate>, records: map<nat, Record>, n: nat, id: Digest, c: Candidate)
    requires RecordsOk(candidates, records, n) && id in candidates && c.sequence == candidates[id].sequence
    requires IsFrozen(candidates[id].state) ==> IsFrozen(c.state) && ExpectedRecord(c) == ExpectedRecord(candidates[id])
    ensures RecordsOk(candidates[id := c], records, n)
  {
    forall k | k in records ensures 1 <= k <= n + 1 && Owned(candidates[id := c], records[k], k) {
      assert Owned(candidates, records[k], k);
    }
  }

  lemma NewRecords(candidates: map<Digest, Candidate>, records: map<nat, Record>, n: nat, c: Candidate)
    requires RecordsOk(candidates, records, n) && c.releaseId !in candidates
    ensures RecordsOk(candidates[c.releaseId := c], records, n)
  {
    forall k | k in records ensures 1 <= k <= n + 1 && Owned(candidates[c.releaseId := c], records[k], k) {
      assert Owned(candidates, records[k], k);
    }
  }

  lemma BindKeeps(cfg: Config, s: Durable, build: string)
    requires Inv(cfg, s) && s.namespace.None?
    ensures Inv(cfg, Bind(s, Namespace(cfg.feedId, cfg.base, build)))
  {
    NoCandidatesYet(cfg, s);
  }

  lemma NoCandidatesYet(cfg: Config, s: Durable)
    requires Inv(cfg, s) && s.namespace.None?
    ensures s.candidates == map[]
  {
    assert forall id :: id in s.candidates ==> !CandidateOk(cfg, ViewOf(s), s.candidates[id]);
  }

  lemma FreezeKeeps(cfg: Config, s: Durable, id: Digest, a: Artifact)
    requires Inv(cfg, s) && id !in s.snapshots
    ensures Inv(cfg, Freeze(s, id, a))
  {
    hide CandidateOk, CandidatesOk, RecordsOk, CurrentOk;
    var t := Freeze(s, id, a);
    forall x | x in t.candidates
      ensures t.candidates[x].releaseId == x && CandidateOk(cfg, ViewOf(t), t.candidates[x]) {
      CandidateAt(cfg, s, x);
      FreezeCandidate(cfg, s, id, a, x);
    }
    CandidatesHold(cfg, ViewOf(t), t.candidates);
  }

  lemma RecordsFrozen(cfg: Config, s: Durable, k: nat)
    requires Inv(cfg, s) && k <= HeadSequence(s)
    ensures forall i :: 1 <= i <= k ==> RecordAt(s.records, i).releaseId in s.snapshots
  {
    forall i | 1 <= i <= k ensures RecordAt(s.records, i).releaseId in s.snapshots {
      assert Owned(s.candidates, s.records[i], i);
      assert CandidateOk(cfg, ViewOf(s), s.candidates[s.records[i].releaseId]);
    }
  }

  lemma DerivedFreeze(cfg: Config, snapshots: map<Digest, Artifact>, records: map<nat, Record>, id: Digest,
                      a: Artifact, c: Candidate)
    requires Derived(cfg, snapshots, records, c) && id !in snapshots && c.releaseId in snapshots
    requires forall i :: 1 <= i <= c.sequence - 1 ==> RecordAt(records, i).releaseId in snapshots
    ensures Derived(cfg, snapshots[id := a], records, c)
  {
    ArtifactsFreeze(snapshots, records, id, a, c.sequence - 1);
  }

  lemma FreezeCandidate(cfg: Config, s: Durable, id: Digest, a: Artifact, x: Digest)
    requires Inv(cfg, s) && id !in s.snapshots && x in s.candidates
    ensures CandidateOk(cfg, ViewOf(Freeze(s, id, a)), s.candidates[x])
  {
    hide Derived, RecordsOk, HeadNamed, CurrentOk, OnePending;
    var c := s.candidates[x];
    assert CandidateOk(cfg, ViewOf(s), c);
    RecordsFrozen(cfg, s, c.sequence - 1);
    DerivedFreeze(cfg, s.snapshots, s.records, id, a, c);
  }

  lemma PreparedOk(cfg: Config, s: Durable, c: Candidate)
    requires Inv(cfg, s) && NoPending(s) && CanPrepare(cfg, s, c)
    ensures CandidateOk(cfg, ViewOf(s), c)
    ensures c.releaseId !in s.candidates && c.state.Prepared?
  {
  }

  lemma PrepareKeeps(cfg: Config, s: Durable, c: Candidate)
    requires Inv(cfg, s) && NoPending(s) && CanPrepare(cfg, s, c)
    ensures Inv(cfg, Save(s, c))
  {
    hide CanPrepare, CandidateOk, CandidatesOk, Owned, RecordsOk, HeadNamed;
    var t := Save(s, c);
    assert ViewOf(t) == ViewOf(s);
    PreparedOk(cfg, s, c);
    NewRecords(s.candidates, s.records, HeadSequence(s), c);
    forall x | x in t.candidates
      ensures t.candidates[x].releaseId == x && CandidateOk(cfg, ViewOf(t), t.candidates[x]) {
      if x != c.releaseId {
        CandidateAt(cfg, s, x);
      }
    }
    CandidatesHold(cfg, ViewOf(t), t.candidates);
  }

  lemma UploadCandidate(cfg: Config, s: Durable, id: Digest, x: Digest)
    requires Inv(cfg, s) && id in s.candidates && id in s.snapshots && id !in s.releases && x in s.candidates
    ensures CandidateOk(cfg, ViewOf(s.(releases := s.releases[id := s.snapshots[id]])), s.candidates[x])
  {
    hide Grounded, Placed, Derived, RecordsOk, HeadNamed, CurrentOk;
    CandidateAt(cfg, s, x);
  }

  lemma UploadKeeps(cfg: Config, s: Durable, id: Digest)
    requires Inv(cfg, s) && id in s.candidates && id in s.snapshots && id !in s.releases
    ensures Inv(cfg, s.(releases := s.releases[id := s.snapshots[id]]))
  {
    hide CandidateOk, CandidatesOk, RecordsOk, HeadNamed, CurrentOk;
    var t := s.(releases := s.releases[id := s.snapshots[id]]);
    forall x | x in t.candidates
      ensures t.candidates[x].releaseId == x && CandidateOk(cfg, ViewOf(t), t.candidates[x]) {
      CandidateAt(cfg, s, x);
      UploadCandidate(cfg, s, id, x);
    }
    CandidatesHold(cfg, ViewOf(t), t.candidates);
  }

  lemma PointKeeps(cfg: Config, s: Durable, current: Current)
    requires Inv(cfg, s) && CurrentOk(s.candidates, Some(current)) && Pointed(s.candidates, Some(current))
    ensures Inv(cfg, s.(current := Some(current)))
  {
    assert ViewOf(s.(current := Some(current))) == ViewOf(s);
  }

  // The record an activated candidate is about to append.
  ghost predicate Appendable(s: Durable, id: Digest) {
    id in s.candidates && s.candidates[id].state.Activated? && s.candidates[id].sequence !in s.records
  }

  function Append(s: Durable, c: Candidate): Durable {
    s.(records := s.records[c.sequence := ExpectedRecord(c)])
  }

  lemma AppendPlace(cfg: Config, s: Durable, id: Digest)
    requires Inv(cfg, s) && Appendable(s, id)
    ensures s.candidates[id].sequence == HeadSequence(s) + 1 && s.candidates[id].releaseId == id
  {
    assert CandidateOk(cfg, ViewOf(s), s.candidates[id]);
  }

  lemma DerivedUpdate(cfg: Config, snapshots: map<Digest, Artifact>, records: map<nat, Record>, m: nat, r: Record,
                      d: Candidate)
    requires Derived(cfg, snapshots, records, d) && d.sequence <= m
    ensures Derived(cfg, snapshots, records[m := r], d)
  {
    PrefixUpdate(records, m, r, d.sequence - 1);
    ArtifactsUpdate(snapshots, records, m, r, d.sequence - 1);
  }

  lemma AppendCandidate(cfg: Config, s: Durable, id: Digest, x: Digest)
    requires Inv(cfg, s) && Appendable(s, id) && x in s.candidates
    ensures CandidateOk(cfg, ViewOf(Append(s, s.candidates[id])), s.candidates[x])
  {
    hide Grounded, Written, Derived, RecordsOk, HeadNamed, CurrentOk;
    AppendPlace(cfg, s, id);
    assert CandidateOk(cfg, ViewOf(s), s.candidates[x]);
    DerivedUpdate(cfg, s.snapshots, s.records, s.candidates[id].sequence, ExpectedRecord(s.candidates[id]),
                  s.candidates[x]);
  }

  lemma AppendRecords(candidates: map<Digest, Candidate>, records: map<nat, Record>, n: nat, c: Candidate)
    requires RecordsOk(candidates, records, n) && c.sequence == n + 1 && IsFrozen(c.state)
    requires c.releaseId in candidates && candidates[c.releaseId] == c
    ensures RecordsOk(candidates, records[n + 1 := ExpectedRecord(c)], n)
  {
    var after := records[n + 1 := ExpectedRecord(c)];
    forall k | k in after ensures 1 <= k <= n + 1 && Owned(candidates, after[k], k) {
      if k != n + 1 {
        assert Owned(candidates, records[k], k);
      }
    }
  }

  lemma AppendKeeps(cfg: Config, s: Durable, id: Digest)
    requires Inv(cfg, s) && Appendable(s, id)
    ensures Inv(cfg, Append(s, s.candidates[id]))
  {
    hide CandidateOk, CandidatesOk, RecordsOk, CurrentOk, OnePending;
    var c := s.candidates[id];
    var t := Append(s, c);
    AppendPlace(cfg, s, id);
    forall x | x in t.candidates
      ensures t.candidates[x].releaseId == x && CandidateOk(cfg, ViewOf(t), t.candidates[x]) {
      CandidateAt(cfg, s, x);
      AppendCandidate(cfg, s, id, x);
    }
    CandidatesHold(cfg, ViewOf(t), t.candidates);
    AppendRecords(s.candidates, s.records, HeadSequence(s), c);
  }

  // Moving the head to the activated candidate's record.
  lemma HeadCandidate(cfg: Config, s: Durable, id: Digest, x: Digest)
    requires Inv(cfg, s) && id in s.candidates && s.candidates[id].state.Activated?
    requires s.candidates[id].sequence in s.records && HeadSequence(s) < s.candidates[id].sequence
    requires x in s.candidates
    ensures var t := s.(head := Some(FeedHead(s.candidates[id].sequence, id)));
            CandidateOk(cfg, ViewOf(t), s.candidates[x])
    ensures s.candidates[id].sequence == HeadSequence(s) + 1
    ensures HeadNamed(s.records, Some(FeedHead(s.candidates[id].sequence, id)))
  {
    CandidateAt(cfg, s, id);
    CandidateAt(cfg, s, x);
    var c := s.candidates[id];
    assert Owned(s.candidates, s.records[c.sequence], c.sequence);
    CandidateAt(cfg, s, s.records[c.sequence].releaseId);
    assert x != id ==> s.candidates[x].state.Committed?;
    hide Inv, Grounded, Written, Derived;
  }

  lemma HeadRecords(candidates: map<Digest, Candidate>, records: map<nat, Record>, n: nat)
    requires RecordsOk(candidates, records, n) && n + 1 in records
    ensures RecordsOk(candidates, records, n + 1)
  {
    hide Owned;
    forall k | k in records ensures 1 <= k <= n + 2 && Owned(candidates, records[k], k) {
      assert 1 <= k <= n + 1 && Owned(candidates, records[k], k);
    }
  }

  lemma HeadKeeps(cfg: Config, s: Durable, id: Digest)
    requires Inv(cfg, s) && id in s.candidates && s.candidates[id].state.Activated?
    requires s.candidates[id].sequence in s.records && HeadSequence(s) < s.candidates[id].sequence
    ensures Inv(cfg, s.(head := Some(FeedHead(s.candidates[id].sequence, id))))
  {
    hide CandidateOk, CandidatesOk, CurrentOk, RecordsOk, HeadNamed;
    var t := s.(head := Some(FeedHead(s.candidates[id].sequence, id)));
    HeadCandidate(cfg, s, id, id);
    HeadRecords(s.candidates, s.records, HeadSequence(s));
    forall x | x in t.candidates
      ensures t.candidates[x].releaseId == x && CandidateOk(cfg, ViewOf(t), t.candidates[x]) {
      CandidateAt(cfg, s, x);
      HeadCandidate(cfg, s, id, x);
    }
    CandidatesHold(cfg, ViewOf(t), t.candidates);
  }

  // Every write of a pending candidate's recovery keeps the invariant.
  lemma NextKeeps(cfg: Config, s: Durable, id: Digest)
    requires Inv(cfg, s) && id in s.candidates && Next(cfg, s, id).Some?
    ensures Inv(cfg, Next(cfg, s, id).value)
  {
    hide Inv, CandidateOk;
    var c := s.candidates[id];
    CandidateAt(cfg, s, id);
    match c.state
    case Prepared =>
      if id !in s.releases {
        UploadKeeps(cfg, s, id);
      } else {
        SaveNext(cfg, s, id, c.Advance(Uploaded));
      }
    case Uploaded => SaveNext(cfg, s, id, c.Advance(Checked));
    case Checked =>
      if s.current != Some(Current(id, c.sequence, false)) {
        PointNext(cfg, s, id);
      } else {
        SaveNext(cfg, s, id, c.Advance(Activated).(committedAt := Some(c.publicationTime)));
      }
    case Activated =>
      if c.sequence !in s.records {
        AppendKeeps(cfg, s, id);
      } else if HeadSequence(s) < c.sequence {
        HeadKeeps(cfg, s, id);
      } else {
        SaveNext(cfg, s, id, c.Advance(Committed));
      }
    case Committed =>
  }

  lemma PointNext(cfg: Config, s: Durable, id: Digest)
    requires Inv(cfg, s) && id in s.candidates && s.candidates[id].state.Checked?
    ensures Inv(cfg, s.(current := Some(Current(id, s.candidates[id].sequence, false))))
  {
    hide CandidateOk, RecordsOk, HeadNamed;
    PointKeeps(cfg, s, Current(id, s.candidates[id].sequence, false));
  }

  lemma SaveNext(cfg: Config, s: Durable, id: Digest, c: Candidate)
    requires Inv(cfg, s) && id in s.candidates && c.releaseId == id
    requires Next(cfg, s, id) == Some(Save(s, c)) && Rank(c.state) == Rank(s.candidates[id].state) + 1
    requires s.candidates[id].SameRelease(c)
    requires c.committedAt == if c.state.Activated? then Some(c.publicationTime) else s.candidates[id].committedAt
    requires c.state.Committed? ==> HeadSequence(s) >= c.sequence
    requires c.state.Checked? ==> ReferencesHeld(cfg.base, c, SnapshotOf(s.releases, id))
    requires c.state.Uploaded? ==> id in s.releases
    requires c.state.Activated? ==> s.current == Some(Current(id, c.sequence, false))
    ensures Inv(cfg, Save(s, c))
  {
    hide RecordsOk, CurrentOk, OnePending, HeadNamed, Derived;
    var b := s.candidates[id];
    assert CandidateOk(cfg, ViewOf(s), b);
    assert NextState(cfg, ViewOf(s), b, c);
    SaveKeeps(cfg, s, id, c);
  }

  // Safety: every durable write of every publisher process keeps the invariant.
  lemma StepKeeps(cfg: Config, s: Durable, t: Durable)
    requires Inv(cfg, s) && Step(cfg, s, t)
    ensures Inv(cfg, t)
  {
    hide Inv, CanPrepare, Next;
    if s.namespace.None? && exists build: string :: t == Bind(s, Namespace(cfg.feedId, cfg.base, build)) {
      var build: string :| t == Bind(s, Namespace(cfg.feedId, cfg.base, build));
      BindKeeps(cfg, s, build);
    } else if NoPending(s) && exists id: Digest, a: Artifact :: id !in s.snapshots && t == Freeze(s, id, a) {
      var id: Digest, a: Artifact :| id !in s.snapshots && t == Freeze(s, id, a);
      FreezeKeeps(cfg, s, id, a);
    } else if NoPending(s) && exists c: Candidate :: CanPrepare(cfg, s, c) && t == Save(s, c) {
      var c: Candidate :| CanPrepare(cfg, s, c) && t == Save(s, c);
      PrepareKeeps(cfg, s, c);
    } else if exists id: Digest :: id in s.candidates && Next(cfg, s, id) == Some(t) {
      var id: Digest :| id in s.candidates && Next(cfg, s, id) == Some(t);
      NextKeeps(cfg, s, id);
    } else {
      var id: Digest :| id in s.candidates && t == RollbackTo(s, id);
      RollbackKeeps(cfg, s, id);
    }
  }

  lemma RollbackKeeps(cfg: Config, s: Durable, id: Digest)
    requires Inv(cfg, s) && NoPending(s) && id in s.candidates
    ensures Inv(cfg, RollbackTo(s, id))
  {
    hide CandidateOk, RecordsOk, HeadNamed, OnePending;
    assert forall x :: x in s.candidates ==> !s.candidates[x].state.Activated?;
    PointKeeps(cfg, s, Current(id, s.candidates[id].sequence, true));
  }

  // The plain facts about one candidate in a state that keeps the invariant.
  lemma CandidateFacts(cfg: Config, s: Durable, id: Digest)
    requires Inv(cfg, s) && id in s.candidates
    ensures var c := s.candidates[id];
            var n := HeadSequence(s);
            && c.releaseId == id && id in s.snapshots && 1 <= c.sequence <= n + 1
            && (IsFrozen(c.state) <==> c.committedAt.Some?)
            && (c.committedAt.Some? ==> c.committedAt.value == c.publicationTime)
            && (id in s.releases ==> s.releases[id] == s.snapshots[id])
            && (Rank(c.state) >= 1 ==> id in s.releases)
            && (Rank(c.state) >= 2 ==> ReferencesHeld(cfg.base, c, s.snapshots[id]))
            && (c.state.Activated? ==> s.current == Some(Current(id, c.sequence, false)))
            && (c.sequence <= n ==> c.state.Committed? || (c.state.Activated? && c.sequence == n))
            && (c.sequence == n + 1 ==> !c.state.Committed?)
  {
    CandidateAt(cfg, s, id);
  }

  // ... and about its place in the log.
  lemma CandidateRecord(cfg: Config, s: Durable, id: Digest)
    requires Inv(cfg, s) && id in s.candidates
    ensures var c := s.candidates[id];
            && (c.sequence <= HeadSequence(s) ==> c.sequence in s.records)
            && (c.sequence in s.records ==>
                  s.records[c.sequence] == ExpectedRecord(c) && IsFrozen(c.state))
            && (c.sequence == HeadSequence(s) ==> s.head == Some(FeedHead(c.sequence, id)))
  {
    CandidateAt(cfg, s, id);
    var c := s.candidates[id];
    if c.sequence in s.records {
      assert Owned(s.candidates, s.records[c.sequence], c.sequence);
      CandidateAt(cfg, s, s.records[c.sequence].releaseId);
    }
  }
}
