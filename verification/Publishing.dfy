/** The publisher process (Publisher in src/hwskill/publishing/service.py). A
    process may die before any durable write: the store's fuse. */
module Publishing {
  import opened Options
  import opened Documents
  import opened Artifacts
  import opened Derivation
  import opened Agreement
  import opened Store
  import opened PublisherLog
  import opened PublisherRuns
  import opened Recovery
  import opened Paths
  import opened Reverification
  import opened Stages
  import opened Settling

  class Publisher {
    const store: FileReleaseStore
    const feedId: string
    const base: string

    constructor (store: FileReleaseStore, feedId: string, base: string)
      ensures this.store == store && this.feedId == feedId && this.base == base
    {
      this.store, this.feedId, this.base := store, feedId, base;
    }

    ghost function Cfg(): Config {
      Config(store.h, feedId, base)
    }

    // The model's hypotheses: an injective digest and an untampered store.
    ghost predicate Ready()
      reads store
    {
      Injective(store.h) && Inv(Cfg(), store.State())
    }

    // --- _verify_candidate_release ---

    method VerifyCandidateRelease(c: Candidate, requireRecord: bool, records: seq<Record>) returns (ok: bool)
      requires Ready() && Known(store.State(), c) && records == Feed(store.State())
      ensures ok <==> Verifiable(base, store.State(), c, requireRecord)
    {
      hide Inv, Verifiable, SnapshotVerified, UploadVerified, Known;
      SnapshotAlwaysVerified(Cfg(), store.State(), c);
      UploadVerifiedIff(Cfg(), store.State(), c, requireRecord);
      var snapshotOk := VerifySnapshot(c, records);
      var uploadOk := VerifyUpload(c, requireRecord);
      ok := snapshotOk && uploadOk;
    }

    method VerifySnapshot(c: Candidate, records: seq<Record>) returns (ok: bool)
      requires Injective(store.h)
      ensures ok <==> SnapshotVerified(Cfg(), store.State(), c, records)
    {
      hide SnapshotSound, PreviousRelease;
      for i := 0 to |c.events|
        invariant forall j :: 0 <= j < i ==> EventBound(feedId, c, c.events[j])
      {
        if !EventBound(feedId, c, c.events[i]) {
          return false;
        }
      }
      if c.sequence < 1 || |records| < c.sequence - 1 {
        return false;
      }
      var preceding := records[..c.sequence - 1];
      if c.previousSequence != (if preceding == [] then None else Some(preceding[|preceding| - 1].sequence)) {
        return false;
      }
      var sound := CheckSnapshot(c);
      if !sound {
        return false;
      }
      SnapshotFrozen(store.h, store.State(), c);
      var previous := ReadPrevious(preceding);
      if preceding != [] && previous.None? {
        return false;
      }
      var expected := DeriveEvents(store.h, Stamp(feedId, base, c.releaseId, c.sequence, c.publicationTime),
                                   store.snapshots[c.releaseId], previous, preceding);
      ok := expected == Some(c.events);
    }

    method CheckSnapshot(c: Candidate) returns (ok: bool)
      ensures ok <==> SnapshotSound(store.h, store.State(), c)
    {
      if c.releaseId !in store.snapshots {
        return false;
      }
      var snapshot := store.snapshots[c.releaseId];
      if store.h(Manifest(snapshot)) != c.artifactDigest
        || store.h(CatalogFile(snapshot.sourceCommit, snapshot.catalog)) != c.catalogDigest {
        return false;
      }
      ok := ValidateArtifact(store.h, snapshot, c.sourceCommit, c.snapshotDigest);
    }

    method ReadPrevious(preceding: seq<Record>) returns (r: Option<Artifact>)
      ensures r == PreviousRelease(store.h, store.State(), preceding)
    {
      if preceding == [] {
        return None;
      }
      var id := preceding[|preceding| - 1].releaseId;
      var loaded := store.LoadCandidate(id);
      if !loaded.Found? || id !in store.releases
        || store.h(Manifest(store.releases[id])) != loaded.candidate.artifactDigest {
        return None;
      }
      r := Some(store.releases[id]);
    }

    method VerifyUpload(c: Candidate, requireRecord: bool) returns (ok: bool)
      ensures ok <==> UploadVerified(Cfg(), store.State(), c, requireRecord)
    {
      if c.releaseId !in store.releases {
        return false;
      }
      var release := store.releases[c.releaseId];
      if store.h(Manifest(release)) != c.artifactDigest {
        return false;
      }
      ok := ValidateArtifact(store.h, release, c.sourceCommit, c.snapshotDigest);
      if !ok || !ReferencesHeld(base, c, release) {
        return false;
      }
      if requireRecord {
        ok := c.committedAt.Some? && c.sequence in store.records && store.records[c.sequence] == ExpectedRecord(c);
      }
    }

    // read_feed, which succeeds in every state that keeps the invariant.
    method ReadHistory() returns (records: seq<Record>)
      requires Ready()
      ensures records == Feed(store.State())
    {
      hide Inv, FeedReadable;
      InvReadable(Cfg(), store.State());
      var read := store.ReadFeed();
      assert read.Some?;
      records := read.value;
    }

    // --- _advance ---

    // PREPARED to UPLOADED
    method Upload(c: Candidate) returns (r: Outcome<Candidate>)
      requires Ready() && Stored(store.State(), c) && c.state.Prepared?
      modifies store
      ensures Ready() && Recovers(Cfg(), old(store.State()), store.State(), c.releaseId)
      ensures r.Done? ==> r.value == Successor(c) && Stored(store.State(), r.value)
      ensures !r.Failed?
      ensures r.Crashed? ==> old(store.fuse) < 2
      ensures store.fuse <= old(store.fuse) <= store.fuse + 2
    {
      hide Inv, Recovers, SaveOk;
      ghost var s := store.State();
      UploadIsNext(Cfg(), s, c);
      RecoversSame(Cfg(), s, c.releaseId);
      var uploaded := store.UploadSnapshot(c.releaseId, c.artifactDigest);
      if uploaded.Crashed? {
        return Crashed;
      }
      r := Pass(c, s);
    }

    // Save the next state when the stage's own writes are done.
    method Pass(c: Candidate, ghost s: Durable) returns (r: Outcome<Candidate>)
      requires Injective(store.h) && Inv(Cfg(), s) && Recovers(Cfg(), s, store.State(), c.releaseId)
      requires Stored(store.State(), c) && MayPass(Cfg(), store.State(), c)
      modifies store
      ensures Ready() && Recovers(Cfg(), s, store.State(), c.releaseId)
      ensures r.Done? ==> r.value == Successor(c) && Stored(store.State(), r.value)
      ensures !r.Failed?
      ensures r.Crashed? <==> old(store.fuse) == 0
      ensures store.fuse <= old(store.fuse) <= store.fuse + 1
    {
      hide Inv, Recovers, SaveOk, MayPass;
      ghost var t := store.State();
      RecoversReaches(Cfg(), s, t, c.releaseId);
      PassIsNext(Cfg(), t, c);
      assert !c.state.Committed? by {
        PassUncommitted(Cfg(), t, c);
      }
      SuccessorSaves(Cfg(), t, c);
      var frozen := if c.state.Checked? then c.Advance(Activated).FreezeCommittedAt(c.publicationTime)
        else Some(Successor(c));
      assert frozen == Some(Successor(c)) by {  // no other commit time was frozen before
        CandidateFacts(Cfg(), t, c.releaseId);
      }
      var next := frozen.value;
      var saved := store.SaveCandidate(next);
      if saved.Crashed? {
        return Crashed;
      }
      RecoversTrans(Cfg(), s, t, store.State(), c.releaseId);
      RecoversReaches(Cfg(), s, store.State(), c.releaseId);
      r := Done(next);
    }

    // UPLOADED to CHECKED: fails exactly when a reference is missing.
    method Check(c: Candidate) returns (r: Outcome<Candidate>)
      requires Ready() && Stored(store.State(), c) && c.state.Uploaded?
      modifies store
      ensures Ready() && Recovers(Cfg(), old(store.State()), store.State(), c.releaseId)
      ensures r.Done? ==> r.value == Successor(c) && Stored(store.State(), r.value)
      ensures r.Failed? ==> store.State() == old(store.State())
      ensures r.Failed? <==> !ReferencesHeld(base, c, SnapshotOf(old(store.snapshots), c.releaseId))
      ensures r.Crashed? ==> old(store.fuse) < 1
      ensures store.fuse <= old(store.fuse) <= store.fuse + 1
    {
      hide Inv, Recovers, ReferencesHeld;
      ghost var s := store.State();
      CandidateFacts(Cfg(), s, c.releaseId);
      RecoversSame(Cfg(), s, c.releaseId);
      var records := ReadHistory();
      var ok := VerifyCandidateRelease(c, false, records);
      if !ok {
        return Failed;
      }
      r := Pass(c, s);
    }

    // CHECKED to ACTIVATED
    method Activate(c: Candidate) returns (r: Outcome<Candidate>)
      requires Ready() && Stored(store.State(), c) && c.state.Checked?
      modifies store
      ensures Ready() && Recovers(Cfg(), old(store.State()), store.State(), c.releaseId)
      ensures r.Done? ==> r.value == Successor(c) && Stored(store.State(), r.value)
      ensures !r.Failed?
      ensures r.Crashed? ==> old(store.fuse) < 2
      ensures store.fuse <= old(store.fuse) <= store.fuse + 2
    {
      hide Inv, Recovers, ReferencesHeld, ActivateOk;
      ghost var s := store.State();
      CandidateFacts(Cfg(), s, c.releaseId);
      RecoversSame(Cfg(), s, c.releaseId);
      var records := ReadHistory();
      var ok := VerifyCandidateRelease(c, false, records);
      assert ok;
      ActivateIsNext(Cfg(), s, c);
      var activated := store.Activate(c.releaseId, c.sequence);
      if activated.Crashed? {
        return Crashed;
      }
      r := Pass(c, s);
    }

    // ACTIVATED to COMMITTED
    method Commit(c: Candidate) returns (r: Outcome<Candidate>)
      requires Ready() && Stored(store.State(), c) && c.state.Activated?
      modifies store
      ensures Ready() && Recovers(Cfg(), old(store.State()), store.State(), c.releaseId)
      ensures r.Done? ==> r.value == Successor(c) && Stored(store.State(), r.value)
      ensures !r.Failed?
      ensures r.Crashed? ==> old(store.fuse) < 3
      ensures store.fuse <= old(store.fuse) <= store.fuse + 3
    {
      hide Inv, Recovers, ReferencesHeld, PublishHeadOk;
      ghost var s := store.State();
      CandidateFacts(Cfg(), s, c.releaseId);
      RecoversSame(Cfg(), s, c.releaseId);
      var records := ReadHistory();
      var ok := VerifyCandidateRelease(c, false, records);
      assert ok;
      AppendIsNext(Cfg(), s, c);
      var appended := store.AppendRecord(ExpectedRecord(c));
      if appended.Crashed? {
        return Crashed;
      }
      ghost var t := store.State();
      RecoversReaches(Cfg(), s, t, c.releaseId);
      PublishIsNext(Cfg(), t, c);
      var published := store.PublishFeedHead(c.sequence, c.releaseId);
      if published.Crashed? {
        return Crashed;
      }
      RecoversTrans(Cfg(), s, t, store.State(), c.releaseId);
      r := Pass(c, s);
    }

    // _advance: from whatever state a crash left the candidate in, the writes
    // that are still missing.
    method Advance(candidate: Candidate) returns (r: Outcome<Candidate>)
      requires Ready() && Stored(store.State(), candidate) && !candidate.state.Committed?
      modifies store
      ensures Ready() && Recovers(Cfg(), old(store.State()), store.State(), candidate.releaseId)
      ensures r.Done?
          ==> Stored(store.State(), r.value) && r.value.releaseId == candidate.releaseId && r.value.state.Committed?
      ensures r.Failed? ==> Next(Cfg(), store.State(), candidate.releaseId).None?
                            && !store.candidates[candidate.releaseId].state.Committed?
      ensures r.Crashed? ==> old(store.fuse) < 8
      ensures store.fuse <= old(store.fuse) <= store.fuse + 8
    {
      hide Inv, Recovers, ReferencesHeld, Next;
      ghost var s := store.State();
      ghost var id := candidate.releaseId;
      var c := candidate;
      RecoversSame(Cfg(), s, id);
      if c.state.Prepared? {
        r := Upload(c);
        if !r.Done? {
          return;
        }
        c := r.value;
      }
      if c.state.Uploaded? {
        ghost var before := store.State();
        r := Check(c);
        RecoversTrans(Cfg(), s, before, store.State(), id);
        if !r.Done? {
          if r.Failed? {
            StuckUploaded(Cfg(), store.State(), c);
          }
          return;
        }
        c := r.value;
      }
      if c.state.Checked? {
        ghost var before := store.State();
        r := Activate(c);
        RecoversTrans(Cfg(), s, before, store.State(), id);
        if !r.Done? {
          return;
        }
        c := r.value;
      }
      if c.state.Activated? {
        ghost var before := store.State();
        r := Commit(c);
        RecoversTrans(Cfg(), s, before, store.State(), id);
        if !r.Done? {
          return;
        }
        c := r.value;
      }
      r := Done(c);
    }

    lemma StuckUploaded(cfg: Config, s: Durable, c: Candidate)
      requires Inv(cfg, s) && Stored(s, c) && c.state.Uploaded?
      requires !ReferencesHeld(cfg.base, c, SnapshotOf(s.snapshots, c.releaseId))
      ensures Next(cfg, s, c.releaseId).None?
    {
      hide Inv, ReferencesHeld;
      NextExists(cfg, s, c.releaseId);
    }

    // --- Before anything new is prepared ---

    // _bind_and_validate_history: only a namespace that differs is refused.
    method BindAndValidateHistory(buildConfig: string) returns (r: Outcome<seq<Record>>)
      requires Ready()
      modifies store
      ensures Ready() && Reaches(Cfg(), old(store.State()), store.State())
      ensures store.State()
          == (if r.Done? then Bind(old(store.State()), Namespace(feedId, base, buildConfig)) else old(store.State()))
      ensures r.Failed?
          <==> old(store.namespace).Some? && old(store.namespace).value != Namespace(feedId, base, buildConfig)
      ensures r.Done? ==> r.value == Feed(store.State())
      ensures r.Crashed? ==> old(store.namespace).None? && old(store.fuse) < 1
      ensures store.fuse <= old(store.fuse) <= store.fuse + 1
    {
      hide Inv, Reaches, Step;
      ghost var s := store.State();
      ReachesSame(Cfg(), s);
      var bound := store.BindNamespace(Namespace(feedId, base, buildConfig));
      if !bound.Done? {
        return if bound.Failed? then Failed else Crashed;
      }
      if s.namespace.None? {
        BindKeeps(Cfg(), s, buildConfig);
        BindIsStep(Cfg(), s, buildConfig);
        ReachesStep(Cfg(), s, store.State());
      }
      var records := ReadHistory();
      VerifyHistory(records);
      r := Done(records);
    }

    // Every record's candidate re-verifies together with its record.
    method VerifyHistory(records: seq<Record>)
      requires Ready() && records == Feed(store.State())
    {
      hide Inv;
      for k := 0 to |records| {
        ghost var c := HistoryVerifies(Cfg(), store.State(), k + 1);
        var loaded := store.LoadCandidate(records[k].releaseId);
        assert loaded.Found?;
        var ok := VerifyCandidateRelease(loaded.candidate, true, records);
        assert ok;
      }
    }

    lemma BindIsStep(cfg: Config, s: Durable, buildConfig: string)
      requires s.namespace.None?
      ensures Step(cfg, s, Bind(s, Namespace(cfg.feedId, cfg.base, buildConfig)))
    {
      hide Next, CanPrepare;
    }

    // The loop over pending_candidates(), of which there is at most one.
    method RecoverPending() returns (r: Outcome<Option<Candidate>>)
      requires Ready()
      modifies store
      ensures Ready() && Reaches(Cfg(), old(store.State()), store.State())
      ensures r.Done?
          ==> CanSettle(old(store.State())) && store.State() == Settled(old(store.State())) && NoPending(store.State())
      ensures r.Done? && r.value.Some? ==> IsPending(old(store.State()), r.value.value.releaseId)
                                           && Stored(store.State(), r.value.value) && r.value.value.state.Committed?
      ensures r.Done? && r.value.None? ==> forall id :: !IsPending(old(store.State()), id)
      ensures r.Failed? ==> !CanSettle(old(store.State()))
      ensures r.Crashed? ==> old(store.fuse) < 8
      ensures store.fuse <= old(store.fuse) <= store.fuse + 8
    {
      hide Inv, Reaches, Recovers, Settled, CanSettle, NoPending, Next, OnePending, PendingChained;
      ghost var s := store.State();
      ReachesSame(Cfg(), s);
      var pending := FindPending();
      assert store.State() == s;
      if pending.None? {
        assert forall id :: !IsPending(s, id);
        SettledQuiet(s);
        return Done(None);
      }
      var c := pending.value;
      PendingChains(Cfg(), s, c.releaseId);
      var chained := store.ValidatePendingChain(c);
      assert chained;
      SettledPending(Cfg(), s, c.releaseId);
      var advanced := Advance(c);
      RecoveryEnds(Cfg(), s, store.State(), c.releaseId);
      match advanced
      case Crashed => r := Crashed;
      case Failed =>
        r := Failed;
      case Done(done) =>
        FinalQuiet(Cfg(), s, c.releaseId);
        r := Done(Some(done));
    }

    lemma FinalQuiet(cfg: Config, s: Durable, id: Digest)
      requires Inv(cfg, s) && IsPending(s, id)
      ensures NoPending(Final(s, id))
    {
      AllLoad(cfg, s);
      hide Inv;
    }

    method FindPending() returns (r: Option<Candidate>)
      requires Ready()
      ensures r.Some? ==> Stored(store.State(), r.value) && IsPending(store.State(), r.value.releaseId)
      ensures r.None? ==> forall id :: !IsPending(store.State(), id)
    {
      hide Inv, LoadOk;
      AllLoad(Cfg(), store.State());
      var found := store.PendingCandidates();
      assert found.Some?;
      assert forall id :: IsPending(store.State(), id) ==> store.candidates[id] in found.value;
      if found.value == [] {
        return None;
      }
      assert found.value[0] in found.value;
      r := Some(found.value[0]);
    }

    // --- A new release ---

    // _prepare: freeze the artifact, check it, derive the events, save the candidate.
    method Prepare(q: ReleaseRequest, now: string) returns (r: Outcome<Candidate>)
      requires Ready() && NoPending(store.State())
      requires store.namespace == Some(Namespace(feedId, base, q.buildConfig))
          && RequestId(store.h, q) !in store.candidates
      modifies store
      ensures Ready() && Reaches(Cfg(), old(store.State()), store.State())
      ensures r.Done? ==> Preparable(Cfg(), old(store.State()), q, now)
      ensures r.Done? ==>
                r.value == NewCandidate(Cfg(), old(store.State()), q, now,
                                        NewDerivation(Cfg(), old(store.State()), q, now).Derive().value)
      ensures r.Done?
          ==> store.State() == Save(Freeze(old(store.State()), r.value.releaseId, q.artifact.value), r.value)
      ensures r.Failed? ==> !Preparable(Cfg(), old(store.State()), q, now)
      ensures r.Crashed? ==> old(store.fuse) < 2
      ensures store.fuse <= old(store.fuse) <= store.fuse + 2
    {
      hide Inv, Reaches, CanPrepare, NoPending, SaveOk, Preparable, NewCandidate, NewDerivation;
      ghost var s := store.State();
      ReachesSame(Cfg(), s);
      PreparableArtifact(Cfg(), s, q, now);
      if q.overlapsStore || q.artifact.None? {
        return Failed;
      }
      var id, a := RequestId(store.h, q), q.artifact.value;
      var frozen := store.FreezeArtifact(id, a);
      if !frozen.Done? {
        return if frozen.Failed? then Failed else Crashed;
      }
      FreezeReaches(Cfg(), s, id, a);
      ghost var t := store.State();
      var built := BuildCandidate(q, now, frozen.value, s);
      if built.None? {
        return Failed;
      }
      NewCandidatePrepared(Cfg(), s, t, q, now, built.value.events);
      var saved := store.SaveCandidate(built.value);
      if !saved.Done? {
        return Crashed;
      }
      PrepareReaches(Cfg(), s, t, built.value);
      r := Done(built.value);
    }

    lemma PreparableArtifact(cfg: Config, s: Durable, q: ReleaseRequest, now: string)
      ensures Preparable(cfg, s, q, now) ==>
                !q.overlapsStore && q.artifact.Some?
                  && (RequestId(cfg.h, q) in s.snapshots ==> s.snapshots[RequestId(cfg.h, q)] == q.artifact.value)
    {
    }

    // The checks and the derivation of _prepare, after the artifact is frozen.
    method BuildCandidate(q: ReleaseRequest, now: string, digest: Digest, ghost s: Durable)
      returns (r: Option<Candidate>)
      requires Ready() && Inv(Cfg(), s) && q.artifact.Some? && !q.overlapsStore
      requires store.State() == Freeze(s, RequestId(store.h, q), q.artifact.value)
      requires RequestId(store.h, q) in s.snapshots ==> s.snapshots[RequestId(store.h, q)] == q.artifact.value
      requires digest == store.h(Manifest(q.artifact.value))
      ensures r.Some? <==> Preparable(Cfg(), s, q, now)
      ensures r.Some? ==> NewDerivation(Cfg(), s, q, now).Derive() == Some(r.value.events)
      ensures r.Some?
          ==> r.value == NewCandidate(Cfg(), s, q, now, r.value.events) && r.value.releaseId == RequestId(store.h, q)
    {
      hide Inv, ValidArtifact;
      var id, a := RequestId(store.h, q), q.artifact.value;
      if store.h(CatalogFile(a.sourceCommit, a.catalog)) != q.catalogDigest {
        return None;
      }
      var valid := ValidateArtifact(store.h, a, q.sourceCommit, q.snapshotDigest);
      if !valid {
        return None;
      }
      var prior := ReadHistory();
      PreviousReleaseFrozen(Cfg(), s, id, a);
      var previous := ReadPrevious(prior);
      var sequence := if store.head.None? then 1 else store.head.value.sequence + 1;
      var events := DeriveEvents(store.h, Stamp(feedId, base, id, sequence, now), a, previous, prior);
      if events.None? {
        return None;
      }
      r := Some(Candidate(id, Prepared, q.sourceCommit, q.catalogDigest, q.snapshotDigest, q.buildConfig, digest, now,
                          None, sequence,
                          if store.head.None? then None else Some(store.head.value.sequence), events.value));
    }

    // The previous release is read after the freeze; the freeze does not touch it.
    lemma PreviousReleaseFrozen(cfg: Config, s: Durable, id: Digest, a: Artifact)
      requires Inv(cfg, s)
      ensures PreviousRelease(cfg.h, Freeze(s, id, a), Feed(s)) == LastArtifact(FeedArtifacts(s))
    {
      PreviousReleaseKept(cfg, s, HeadSequence(s));
    }

    lemma FreezeReaches(cfg: Config, s: Durable, id: Digest, a: Artifact)
      requires Inv(cfg, s) && NoPending(s) && (id in s.snapshots ==> s.snapshots[id] == a)
      ensures Inv(cfg, Freeze(s, id, a)) && Reaches(cfg, s, Freeze(s, id, a)) && NoPending(Freeze(s, id, a))
    {
      hide Inv, Reaches, Next, CanPrepare;
      if id in s.snapshots {
        assert Freeze(s, id, a).snapshots == s.snapshots;
        ReachesSame(cfg, s);
      } else {
        FreezeKeeps(cfg, s, id, a);
        assert Step(cfg, s, Freeze(s, id, a));
        ReachesStep(cfg, s, Freeze(s, id, a));
      }
    }

    lemma PrepareReaches(cfg: Config, s: Durable, t: Durable, c: Candidate)
      requires Inv(cfg, t) && Reaches(cfg, s, t) && NoPending(t) && CanPrepare(cfg, t, c)
      ensures Inv(cfg, Save(t, c)) && Reaches(cfg, s, Save(t, c))
    {
      PrepareKeeps(cfg, t, c);
      hide Inv, Reaches, Next, CanPrepare, NoPending;
      assert Step(cfg, t, Save(t, c));
      ReachesStep(cfg, t, Save(t, c));
      ReachesTrans(cfg, s, t, Save(t, c));
    }

    // --- publish ---

    // Everything up to the first write of the new release is done.
    method PublishQuiet(q: ReleaseRequest, now: string) returns (r: Outcome<Candidate>)
      requires Ready() && NoPending(store.State()) && store.namespace == Some(Namespace(feedId, base, q.buildConfig))
      modifies store
      ensures Ready() && Reaches(Cfg(), old(store.State()), store.State())
      ensures r.Done? ==> QuietPublishable(Cfg(), old(store.State()), q, now)
      ensures r.Done? ==> store.State() == QuietPublished(Cfg(), old(store.State()), q, now)
      ensures r.Done?
          ==> Stored(store.State(), r.value) && r.value.state.Committed? && r.value.releaseId == RequestId(store.h, q)
      ensures r.Failed? ==> !QuietPublishable(Cfg(), old(store.State()), q, now)
      ensures r.Crashed? ==> old(store.fuse) < 10
      ensures store.fuse <= old(store.fuse) <= store.fuse + 10
    {
      hide Inv, Reaches, NoPending, Recovers, LoadOk, NewCandidate, NewDerivation, Preparable, Next, PagesHeld, Final,
        Verifiable;
      ghost var s := store.State();
      var id := RequestId(store.h, q);
      var loaded := store.LoadCandidate(id);
      AllLoad(Cfg(), s);
      if loaded.Found? {
        ReachesSame(Cfg(), s);
        QuietCommitted(s, id);
        CommittedVerifies(Cfg(), s, id);
        var records := ReadHistory();
        var ok := VerifyCandidateRelease(loaded.candidate, true, records);
        assert ok;
        if q.artifact.None? || store.h(Manifest(q.artifact.value)) != loaded.candidate.artifactDigest {
          return Failed;
        }
        return Done(loaded.candidate);
      }
      var prepared := Prepare(q, now);
      if !prepared.Done? {
        return prepared;
      }
      ghost var u := store.State();
      PreparedEnds(Cfg(), s, q, now, u);
      r := Advance(prepared.value);
      RecoveryEnds(Cfg(), u, store.State(), id);
      ReachesTrans(Cfg(), s, u, store.State());
    }

    // publish: history first, then the interrupted release, then the request. A
    // crash needs a death among at most 19 writes.
    method Publish(q: ReleaseRequest, now: string) returns (r: Outcome<Candidate>)
      requires Ready()
      modifies store
      ensures Ready() && Reaches(Cfg(), old(store.State()), store.State())
      ensures r.Done? ==> Publishable(Cfg(), old(store.State()), q, now)
      ensures r.Done? ==> store.State() == PublishedState(Cfg(), old(store.State()), q, now)
      ensures r.Done?
          ==> Stored(store.State(), r.value) && r.value.state.Committed? && r.value.releaseId == RequestId(store.h, q)
      ensures r.Failed? ==> !Publishable(Cfg(), old(store.State()), q, now)
      ensures r.Crashed? ==> old(store.fuse) < 19
    {
      hide Inv, Reaches, Settled, CanSettle, NoPending, QuietPublishable, QuietPublished;
      ghost var s := store.State();
      var bound := BindAndValidateHistory(q.buildConfig);
      if !bound.Done? {
        return if bound.Failed? then Failed else Crashed;
      }
      ghost var t := store.State();
      var recovered := RecoverPending();
      ReachesTrans(Cfg(), s, t, store.State());
      if !recovered.Done? {
        return if recovered.Failed? then Failed else Crashed;
      }
      if recovered.value.Some? && recovered.value.value.releaseId == RequestId(store.h, q) {
        return Done(recovered.value.value);
      }
      ghost var u := store.State();
      assert !IsPending(t, RequestId(store.h, q)) by {
        OnlyRecovered(Cfg(), t, RequestId(store.h, q), recovered.value);
      }
      SettledNamespace(t);
      r := PublishQuiet(q, now);
      ReachesTrans(Cfg(), s, u, store.State());
    }

    lemma OnlyRecovered(cfg: Config, t: Durable, id: Digest, recovered: Option<Candidate>)
      requires Inv(cfg, t)
      requires recovered.Some? ==> IsPending(t, recovered.value.releaseId) && recovered.value.releaseId != id
      requires recovered.None? ==> forall x :: !IsPending(t, x)
      ensures !IsPending(t, id)
    {
      AllLoad(cfg, t);
      hide Inv;
    }

    // --- rollback ---

    // It loads the candidate before it recovers the pending one, and verifies that
    // stale copy afterwards.
    method Rollback(id: Digest) returns (r: Outcome<()>)
      requires Ready()
      modifies store
      ensures Ready() && Reaches(Cfg(), old(store.State()), store.State())
      ensures r.Done? ==> CanRollback(old(store.State()), id) && id in Settled(old(store.State())).candidates
      ensures r.Done? ==> store.State() == RollbackTo(Settled(old(store.State())), id)
      ensures r.Failed? ==> !CanRollback(old(store.State()), id)
      ensures r.Failed? && id in old(store.candidates) && CanSettle(old(store.State()))
          ==> store.State() == Settled(old(store.State()))
      ensures r.Crashed? ==> old(store.fuse) < 10
    {
      hide Inv, Reaches, Settled, CanSettle, NoPending, LoadOk, Step, Verifiable, RollbackOk;
      ghost var s := store.State();
      ReachesSame(Cfg(), s);
      AllLoad(Cfg(), s);
      var loaded := store.LoadCandidate(id);
      if !loaded.Found? {
        return Failed;
      }
      var c := loaded.candidate;
      CandidateNamespace(Cfg(), s, id);
      var bound := BindAndValidateHistory(c.buildConfig);
      assert bound.Done? && store.State() == s;
      var recovered := RecoverPending();
      if !recovered.Done? {
        return if recovered.Failed? then Failed else Crashed;
      }
      ghost var t := store.State();
      StaleVerifies(Cfg(), s, id);
      var records := ReadHistory();
      var ok := VerifyCandidateRelease(c, true, records);
      if !ok {
        return Failed;
      }
      r := store.Rollback(id);
      RollbackReaches(Cfg(), s, t, id);
    }

    lemma RollbackReaches(cfg: Config, s: Durable, t: Durable, id: Digest)
      requires Inv(cfg, t) && NoPending(t) && id in t.candidates && Reaches(cfg, s, t)
      ensures Inv(cfg, RollbackTo(t, id)) && Reaches(cfg, s, RollbackTo(t, id))
    {
      RollbackKeeps(cfg, t, id);
      hide Inv, Reaches, NoPending;
      RollbackIsStep(cfg, t, id);
      hide Step;
      ReachesStep(cfg, t, RollbackTo(t, id));
      ReachesTrans(cfg, s, t, RollbackTo(t, id));
    }

    lemma RollbackIsStep(cfg: Config, t: Durable, id: Digest)
      requires NoPending(t) && id in t.candidates
      ensures Step(cfg, t, RollbackTo(t, id))
    {
      hide NoPending, Next, CanPrepare;
    }
  }
}
