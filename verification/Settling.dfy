/** What a publisher call finds and decides before it prepares anything new:
    history, the pending candidate, and whether a request can be published. */
module Settling {
  import opened Options
  import opened Documents
  import opened Artifacts
  import opened Derivation
  import opened Agreement
  import opened Announcements
  import opened Store
  import opened PublisherLog
  import opened PublisherRuns
  import opened Recovery
  import opened Paths
  import opened Reverification
  import opened Stages

  // The artifact is None when the path is not a directory.
  datatype ReleaseRequest = ReleaseRequest(
    sourceCommit: string,
    catalogDigest: Digest,
    snapshotDigest: Digest,
    buildConfig: string,
    artifact: Option<Artifact>,
    overlapsStore: bool)  // the directory is, holds or lies in the store's own

  function RequestId(h: Hash, q: ReleaseRequest): Digest {
    h(ReleaseInputs(q.sourceCommit, q.catalogDigest, q.snapshotDigest, q.buildConfig))
  }

  ghost predicate IsPending(s: Durable, id: Digest) {
    id in s.candidates && !s.candidates[id].state.Committed?
  }

  // --- History ---

  // Every committed record re-verifies, with its record.
  lemma HistoryVerifies(cfg: Config, s: Durable, k: nat) returns (c: Candidate)
    requires Inv(cfg, s) && 1 <= k <= HeadSequence(s)
    ensures Feed(s)[k - 1].releaseId == c.releaseId && Stored(s, c)
    ensures Load(cfg.h, s, c.releaseId) == Found(c)
    ensures Known(s, c) && Verifiable(cfg.base, s, c, true)
  {
    hide Inv;
    c := OwnerAt(cfg, s, k);
    CandidateLoads(cfg, s, c.releaseId);
    CandidateFacts(cfg, s, c.releaseId);
    CandidateRecord(cfg, s, c.releaseId);
  }

  // --- The pending candidate ---

  lemma AllLoad(cfg: Config, s: Durable)
    requires Inv(cfg, s)
    ensures forall id :: id in s.candidates ==> LoadOk(cfg.h, id, s.candidates[id]) && s.candidates[id].releaseId == id
    ensures OnePending(s.candidates)
  {
    forall id | id in s.candidates ensures LoadOk(cfg.h, id, s.candidates[id]) && s.candidates[id].releaseId == id {
      CandidateAt(cfg, s, id);
    }
  }

  // validate_pending_chain accepts the pending candidate.
  lemma PendingChains(cfg: Config, s: Durable, id: Digest)
    requires Inv(cfg, s) && IsPending(s, id)
    ensures PendingChained(s, s.candidates[id]) && s.candidates[id].sequence >= 1
  {
    hide Inv;
    CandidateFacts(cfg, s, id);
    CandidateRecord(cfg, s, id);
    CandidateChain(cfg, s, id);
  }

  lemma CandidateChain(cfg: Config, s: Durable, id: Digest)
    requires Inv(cfg, s) && id in s.candidates
    ensures var c := s.candidates[id]; c.previousSequence == (if c.sequence == 1 then None else Some(c.sequence - 1))
    ensures s.head.Some? ==> s.head.value.sequence >= 1
  {
    CandidateAt(cfg, s, id);
  }

  // A recovery that commits went all the way, and its pages were there; one that
  // failed lacked them.
  lemma RecoveryEnds(cfg: Config, s: Durable, t: Durable, id: Digest)
    requires Injective(cfg.h) && Inv(cfg, s) && IsPending(s, id) && Recovers(cfg, s, t, id)
    ensures Inv(cfg, t) && Reaches(cfg, s, t) && id in t.candidates && t.candidates[id].releaseId == id
    ensures t.candidates[id].state.Committed?
        ==> t == Final(s, id) && PagesHeld(s.candidates[id], SnapshotOf(s.snapshots, id))
    ensures !t.candidates[id].state.Committed? && Next(cfg, t, id).None?
        ==> !PagesHeld(s.candidates[id], SnapshotOf(s.snapshots, id))
  {
    hide Inv, Reaches, PagesHeld, Iterate, Next, Final;
    RecoversReaches(cfg, s, t, id);
    RecoveryOutcome(cfg, s, id);
    FinalCommitted(s, id);
    if Next(cfg, t, id).None? {
      Stopped(cfg, t, id);
    }
    if t.candidates[id].state.Committed? {
      CompleteCommitted(cfg, t, id);
    }
  }

  lemma Stopped(cfg: Config, t: Durable, id: Digest)
    requires id in t.candidates && t.candidates[id].releaseId == id && Next(cfg, t, id).None?
    ensures Complete(cfg, t, id) == t
  {
    hide Next;
  }

  lemma FinalCommitted(s: Durable, id: Digest)
    requires id in s.candidates
    ensures id in Final(s, id).candidates && Final(s, id).candidates[id].state.Committed?
  {
  }

  // The state once the pending candidate, if any, is committed.
  ghost function Settled(s: Durable): Durable {
    if id: Digest :| IsPending(s, id) then Final(s, id) else s
  }

  ghost predicate CanSettle(s: Durable) {
    forall id :: IsPending(s, id) ==> PagesHeld(s.candidates[id], SnapshotOf(s.snapshots, id))
  }

  lemma SettledPending(cfg: Config, s: Durable, id: Digest)
    requires Inv(cfg, s) && IsPending(s, id)
    ensures Settled(s) == Final(s, id)
    ensures CanSettle(s) <==> PagesHeld(s.candidates[id], SnapshotOf(s.snapshots, id))
  {
    hide CandidatesOk, RecordsOk, PagesHeld;
    assert forall x :: IsPending(s, x) ==> x == id;
  }

  lemma SettledQuiet(s: Durable)
    requires forall id :: !IsPending(s, id)
    ensures Settled(s) == s && CanSettle(s) && NoPending(s)
  {
    forall id | id in s.candidates ensures s.candidates[id].state.Committed? {
      assert !IsPending(s, id);
    }
  }

  // Crash convergence for callers: however often processes died on the way from
  // one state to a later one, the next publish that completes leaves the
  // interrupted release, its record and the log exactly as it would have then.
  lemma RetryConverges(cfg: Config, tr: seq<Durable>, id: Digest)
    requires Injective(cfg.h) && tr != [] && Writes(cfg, tr) && Inv(cfg, tr[0])
    requires IsPending(tr[0], id) && IsPending(tr[|tr| - 1], id) && CanSettle(tr[0])
    ensures CanSettle(tr[|tr| - 1]) && Settled(tr[|tr| - 1]) == Settled(tr[0]) == Final(tr[0], id)
  {
    hide Inv, Step, PagesHeld, Final, Settled, CanSettle;
    var n := |tr| - 1;
    var s, t := tr[0], tr[n];
    StillPending(cfg, tr, id);
    AllLoad(cfg, s);
    CrashesConverge(cfg, tr, id, n);
    SettledPending(cfg, s, id);
    SettledPending(cfg, t, id);
    RecoveryOutcome(cfg, s, id);
    RecoveryOutcome(cfg, t, id);
    FinalCommitted(s, id);
  }

  lemma StillPending(cfg: Config, tr: seq<Durable>, id: Digest)
    requires tr != [] && Writes(cfg, tr) && Inv(cfg, tr[0]) && IsPending(tr[0], id) && IsPending(tr[|tr| - 1], id)
    ensures forall j :: 0 <= j < |tr| ==> IsPending(tr[j], id)
  {
    hide Inv, Writes, Step;
    forall j | 0 <= j < |tr| ensures IsPending(tr[j], id) {
      WritesGrow(cfg, tr, 0, j);
      WritesGrow(cfg, tr, j, |tr| - 1);
    }
  }

  // --- A new request ---

  // The candidate that _prepare saves.
  ghost function NewCandidate(cfg: Config, s: Durable, q: ReleaseRequest, now: string, events: seq<Event>): Candidate
    requires q.artifact.Some?
  {
    Candidate(RequestId(cfg.h, q), Prepared, q.sourceCommit, q.catalogDigest, q.snapshotDigest, q.buildConfig,
              cfg.h(Manifest(q.artifact.value)), now, None, HeadSequence(s) + 1,
              if s.head.None? then None else Some(HeadSequence(s)), events)
  }

  // How the new candidate's events derive.
  ghost function NewDerivation(cfg: Config, s: Durable, q: ReleaseRequest, now: string): Release
    requires q.artifact.Some?
  {
    Release(cfg.h, Stamp(cfg.feedId, cfg.base, RequestId(cfg.h, q), HeadSequence(s) + 1, now), q.artifact.value,
            LastArtifact(FeedArtifacts(s)), History(Events(Feed(s))))
  }

  // _prepare accepts the request.
  ghost predicate Preparable(cfg: Config, s: Durable, q: ReleaseRequest, now: string) {
    && !q.overlapsStore
    && q.artifact.Some?
    && (RequestId(cfg.h, q) in s.snapshots ==> s.snapshots[RequestId(cfg.h, q)] == q.artifact.value)
    && cfg.h(CatalogFile(q.artifact.value.sourceCommit, q.artifact.value.catalog)) == q.catalogDigest
    && ValidArtifact(cfg.h, q.artifact.value, q.sourceCommit)
    && InputOk(q.artifact.value, q.snapshotDigest)
    && NewDerivation(cfg, s, q, now).Derive().Some?
  }

  // Exactly when that is: besides the artifact's own consistency, nothing of the head
  // release may be gone, and no withdrawn recommendation may be ready again.
  lemma PreparableIff(cfg: Config, s: Durable, q: ReleaseRequest, now: string)
    requires Injective(cfg.h) && Inv(cfg, s)
    ensures Preparable(cfg, s, q, now) <==>
              && !q.overlapsStore
              && q.artifact.Some?
              && (RequestId(cfg.h, q) in s.snapshots ==> s.snapshots[RequestId(cfg.h, q)] == q.artifact.value)
              && cfg.h(CatalogFile(q.artifact.value.sourceCommit, q.artifact.value.catalog)) == q.catalogDigest
              && ValidArtifact(cfg.h, q.artifact.value, q.sourceCommit)
              && (q.artifact.value.inputDigest.Some? ==> q.artifact.value.inputDigest.value == q.snapshotDigest)
              && var head := LastArtifact(FeedArtifacts(s));
                 !SkillGone(head, q.artifact.value) && !AdviceGone(head, q.artifact.value)
                 && !Republished(head, q.artifact.value)
  {
    hide Inv, ValidArtifact, SkillGone, AdviceGone, Republished;
    if q.artifact.Some? && ValidArtifact(cfg.h, q.artifact.value, q.sourceCommit) {
      FeedPublished(cfg, s);
      NextDerives(cfg.h, cfg.feedId, cfg.base, FeedArtifacts(s), Feed(s), NewDerivation(cfg, s, q, now),
                  q.sourceCommit);
    }
  }

  // With nothing pending, the request's release is or becomes committed.
  ghost predicate QuietPublishable(cfg: Config, s: Durable, q: ReleaseRequest, now: string) {
    if RequestId(cfg.h, q) in s.candidates
    then q.artifact.Some? && cfg.h(Manifest(q.artifact.value)) == s.candidates[RequestId(cfg.h, q)].artifactDigest
    else Preparable(cfg, s, q, now) && PagesHeld(FreshCandidate(cfg, s, q, now), q.artifact.value)
  }

  ghost function FreshCandidate(cfg: Config, s: Durable, q: ReleaseRequest, now: string): Candidate
    requires Preparable(cfg, s, q, now)
  {
    NewCandidate(cfg, s, q, now, NewDerivation(cfg, s, q, now).Derive().value)
  }

  // An identical request again changes nothing.
  ghost function QuietPublished(cfg: Config, s: Durable, q: ReleaseRequest, now: string): Durable
    requires QuietPublishable(cfg, s, q, now)
  {
    if RequestId(cfg.h, q) in s.candidates then s
    else Final(PreparedState(cfg, s, q, now), RequestId(cfg.h, q))
  }

  ghost function PreparedState(cfg: Config, s: Durable, q: ReleaseRequest, now: string): (t: Durable)
    requires Preparable(cfg, s, q, now)
    ensures RequestId(cfg.h, q) in t.candidates
  {
    Save(Freeze(s, RequestId(cfg.h, q), q.artifact.value), FreshCandidate(cfg, s, q, now))
  }

  ghost function BoundState(cfg: Config, s: Durable, q: ReleaseRequest): Durable {
    Bind(s, Namespace(cfg.feedId, cfg.base, q.buildConfig))
  }

  // publish ends with the request's release committed, if it is allowed to finish.
  ghost predicate Publishable(cfg: Config, s: Durable, q: ReleaseRequest, now: string) {
    var t := BoundState(cfg, s, q);
    && (s.namespace.Some? ==> s.namespace == t.namespace)
    && CanSettle(t)
    && (IsPending(t, RequestId(cfg.h, q)) || QuietPublishable(cfg, Settled(t), q, now))
  }

  ghost function PublishedState(cfg: Config, s: Durable, q: ReleaseRequest, now: string): Durable
    requires Publishable(cfg, s, q, now)
  {
    var t := BoundState(cfg, s, q);
    if IsPending(t, RequestId(cfg.h, q)) then Settled(t) else QuietPublished(cfg, Settled(t), q, now)
  }

  lemma SettledNamespace(s: Durable)
    ensures Settled(s).namespace == s.namespace
  {
  }

  lemma QuietCommitted(s: Durable, id: Digest)
    requires NoPending(s) && id in s.candidates
    ensures s.candidates[id].state.Committed?
  {
  }

  lemma CommittedVerifies(cfg: Config, s: Durable, id: Digest)
    requires Inv(cfg, s) && id in s.candidates && s.candidates[id].state.Committed?
    ensures Known(s, s.candidates[id]) && Verifiable(cfg.base, s, s.candidates[id], true)
  {
    hide Inv, ReferencesHeld;
    CandidateFacts(cfg, s, id);
    CandidateRecord(cfg, s, id);
  }

  // The fresh candidate is pending, and its pages decide its recovery.
  lemma PreparedEnds(cfg: Config, s: Durable, q: ReleaseRequest, now: string, u: Durable)
    requires Preparable(cfg, s, q, now) && u == PreparedState(cfg, s, q, now)
    ensures IsPending(u, RequestId(cfg.h, q))
    ensures u.candidates[RequestId(cfg.h, q)] == FreshCandidate(cfg, s, q, now)
    ensures SnapshotOf(u.snapshots, RequestId(cfg.h, q)) == q.artifact.value
  {
    hide Preparable, NewDerivation;
  }

  // --- Rolling back ---

  // A release can be rolled back to unless it was still on its way to activation
  // when the call began, or the pending candidate cannot be completed.
  ghost predicate CanRollback(s: Durable, id: Digest) {
    id in s.candidates && IsFrozen(s.candidates[id].state) && CanSettle(s)
  }

  lemma CandidateNamespace(cfg: Config, s: Durable, id: Digest)
    requires Inv(cfg, s) && id in s.candidates
    ensures s.namespace == Some(Namespace(cfg.feedId, cfg.base, s.candidates[id].buildConfig))
  {
    CandidateAt(cfg, s, id);
  }

  // The copy loaded before the recovery verifies exactly if its commit time was frozen.
  lemma StaleVerifies(cfg: Config, s: Durable, id: Digest)
    requires Injective(cfg.h) && Inv(cfg, s) && id in s.candidates && Inv(cfg, Settled(s)) && NoPending(Settled(s))
    ensures id in Settled(s).candidates && Known(Settled(s), s.candidates[id])
    ensures Verifiable(cfg.base, Settled(s), s.candidates[id], true) <==> IsFrozen(s.candidates[id].state)
    ensures RollbackOk(cfg.h, Settled(s), id)
  {
    hide Inv, ReferencesHeld;
    var t := Settled(s);
    CandidateFacts(cfg, s, id);
    SettledCandidate(cfg, s, id);
    CandidateFacts(cfg, t, id);
    CandidateRecord(cfg, t, id);
    CandidateLoads(cfg, t, id);
    CandidateDigest(cfg, t, id);
    SameReferences(cfg.base, s.candidates[id], t.candidates[id], t.snapshots[id]);
  }

  lemma SameReferences(base: string, c: Candidate, d: Candidate, a: Artifact)
    requires c.SameRelease(d)
    ensures ReferencesHeld(base, c, a) <==> ReferencesHeld(base, d, a)
  {
    forall i | 0 <= i < |c.events|
      ensures ReferenceHeld(base, c, a, c.events[i]) <==> ReferenceHeld(base, d, a, d.events[i]) {
    }
  }

  lemma SettledCandidate(cfg: Config, s: Durable, id: Digest)
    requires Inv(cfg, s) && id in s.candidates && NoPending(Settled(s))
    ensures id in Settled(s).candidates && s.candidates[id].SameRelease(Settled(s).candidates[id])
    ensures Settled(s).candidates[id].state.Committed?
  {
    hide Inv;
  }

  // Freezing the artifact leaves the derivation of the new candidate unchanged.
  lemma NewCandidatePrepared(cfg: Config, s: Durable, t: Durable, q: ReleaseRequest, now: string, events: seq<Event>)
    requires Inv(cfg, s) && q.artifact.Some? && RequestId(cfg.h, q) !in s.candidates
    requires t == Freeze(s, RequestId(cfg.h, q), q.artifact.value)
    requires RequestId(cfg.h, q) in s.snapshots ==> s.snapshots[RequestId(cfg.h, q)] == q.artifact.value
    requires s.namespace == Some(Namespace(cfg.feedId, cfg.base, q.buildConfig))
    requires Preparable(cfg, s, q, now) && NewDerivation(cfg, s, q, now).Derive() == Some(events)
    ensures CanPrepare(cfg, t, NewCandidate(cfg, s, q, now, events))
    ensures SaveOk(cfg.h, t, NewCandidate(cfg, s, q, now, events))
  {
    hide Inv, Derived;
    var c := NewCandidate(cfg, s, q, now, events);
    HeadPositive(cfg, s);
    NewDerived(cfg, s, t, q, now, events);
  }

  lemma HeadPositive(cfg: Config, s: Durable)
    requires Inv(cfg, s)
    ensures s.head.Some? ==> HeadSequence(s) >= 1
  {
    hide CandidatesOk, RecordsOk, CurrentOk;
  }

  lemma NewDerived(cfg: Config, s: Durable, t: Durable, q: ReleaseRequest, now: string, events: seq<Event>)
    requires Inv(cfg, s) && q.artifact.Some? && t == Freeze(s, RequestId(cfg.h, q), q.artifact.value)
    requires RequestId(cfg.h, q) in s.snapshots ==> s.snapshots[RequestId(cfg.h, q)] == q.artifact.value
    requires NewDerivation(cfg, s, q, now).Derive() == Some(events)
    ensures Derived(cfg, t.snapshots, t.records, NewCandidate(cfg, s, q, now, events))
  {
    hide Inv;
    var id, n := RequestId(cfg.h, q), HeadSequence(s);
    var c := NewCandidate(cfg, s, q, now, events);
    if id in s.snapshots {
      assert t.snapshots == s.snapshots;
    } else {
      RecordsFrozen(cfg, s, n);
      ArtifactsFreeze(s.snapshots, s.records, id, q.artifact.value, n);
    }
    assert DerivationOf(cfg, t.snapshots, t.records, c) == NewDerivation(cfg, s, q, now);
  }
}
