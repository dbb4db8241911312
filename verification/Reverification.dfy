/** What a publisher's re-verification finds: in every state that keeps the
    invariant, history and frozen snapshots verify, and only the uploaded
    release's references are in question (src/hwskill/publishing/service.py). */
module Reverification {
  import opened Options
  import opened Documents
  import opened Artifacts
  import opened Derivation
  import opened Agreement
  import opened Store
  import opened PublisherLog
  import opened PublisherRuns

  // read_feed succeeds.
  lemma InvReadable(cfg: Config, s: Durable)
    requires Injective(cfg.h) && Inv(cfg, s)
    ensures FeedReadable(cfg.h, s)
  {
    hide Inv, RecordReadable;
    if s.head.Some? {
      FeedHeadLast(cfg, s);
      RecordsPresent(cfg, s);
      forall k | 1 <= k <= HeadSequence(s) ensures RecordReadable(cfg.h, s, k) {
        RecordIsReadable(cfg, s, k);
      }
    }
  }

  lemma RecordIsReadable(cfg: Config, s: Durable, k: nat)
    requires Injective(cfg.h) && Inv(cfg, s) && 1 <= k <= HeadSequence(s)
    ensures RecordReadable(cfg.h, s, k)
  {
    hide Inv, Placed, Derived, ReferencesHeld, SnapshotOf, ReleaseIdOf, ArtifactsOf, Prefix;
    var c := OwnerAt(cfg, s, k);
    RecordsPresent(cfg, s);
    CandidateFacts(cfg, s, c.releaseId);
    EventsBound(cfg, s.snapshots, s.records, c);
  }

  lemma EventsBound(cfg: Config, snapshots: map<Digest, Artifact>, records: map<nat, Record>, c: Candidate)
    requires Injective(cfg.h) && Derived(cfg, snapshots, records, c)
    ensures forall i :: 0 <= i < |c.events| ==> EventBound(cfg.feedId, c, c.events[i])
  {
    var r := DerivationOf(cfg, snapshots, records, c);
    forall i | 0 <= i < |c.events| ensures EventBound(cfg.feedId, c, c.events[i]) {
      DerivedEvent(r, c.events, i);
    }
  }

  predicate EventBound(feedId: string, c: Candidate, e: Event) {
    e.releaseId == c.releaseId && e.sequence == c.sequence && e.publishedAt == c.publicationTime && e.feedId == feedId
  }

  // What is still open when a prepared candidate is verified.
  predicate Verifiable(base: string, s: Durable, c: Candidate, requireRecord: bool) {
    && c.releaseId in s.releases
    && ReferencesHeld(base, c, s.releases[c.releaseId])
    && (requireRecord ==>
          c.committedAt.Some? && c.sequence in s.records && s.records[c.sequence] == ExpectedRecord(c))
  }

  // The release of the record before the candidate, as the verification reads it.
  function PreviousRelease(h: Hash, s: Durable, preceding: seq<Record>): Option<Artifact> {
    if preceding == [] then None else
      var id := preceding[|preceding| - 1].releaseId;
      if !Load(h, s, id).Found? || id !in s.releases || h(Manifest(s.releases[id])) != s.candidates[id].artifactDigest
        then None
      else Some(s.releases[id])
  }

  // The frozen snapshot still says what the candidate says.
  ghost predicate SnapshotVerified(cfg: Config, s: Durable, c: Candidate, records: seq<Record>) {
    && (forall i :: 0 <= i < |c.events| ==> EventBound(cfg.feedId, c, c.events[i]))
    && 1 <= c.sequence <= |records| + 1
    && var preceding := records[..c.sequence - 1];
       && c.previousSequence == (if preceding == [] then None else Some(preceding[|preceding| - 1].sequence))
       && SnapshotSound(cfg.h, s, c)
       && (preceding != [] ==> PreviousRelease(cfg.h, s, preceding).Some?)
       && Release(cfg.h, Stamp(cfg.feedId, cfg.base, c.releaseId, c.sequence, c.publicationTime),
                  s.snapshots[c.releaseId],
                  PreviousRelease(cfg.h, s, preceding), History(Events(preceding))).Derive() == Some(c.events)
  }

  ghost predicate SnapshotSound(h: Hash, s: Durable, c: Candidate) {
    && c.releaseId in s.snapshots
    && h(Manifest(s.snapshots[c.releaseId])) == c.artifactDigest
    && h(CatalogFile(s.snapshots[c.releaseId].sourceCommit, s.snapshots[c.releaseId].catalog)) == c.catalogDigest
    && ValidArtifact(h, s.snapshots[c.releaseId], c.sourceCommit)
    && InputOk(s.snapshots[c.releaseId], c.snapshotDigest)
  }

  // What verifies: the frozen snapshot has the candidate's digests, is valid for its
  // inputs, and derives its events again from the log before it. That the events are
  // the candidate's own follows.
  lemma VerifiedMeaning(cfg: Config, s: Durable, c: Candidate, records: seq<Record>)
    requires Injective(cfg.h)
    ensures SnapshotVerified(cfg, s, c, records) <==>
              && 1 <= c.sequence <= |records| + 1
              && c.releaseId in s.snapshots
              && var a := s.snapshots[c.releaseId];
                 && c.artifactDigest == cfg.h(Manifest(a))
                 && c.catalogDigest == cfg.h(CatalogFile(a.sourceCommit, a.catalog))
                 && ValidArtifact(cfg.h, a, c.sourceCommit)
                 && (forall d :: a.inputDigest == Some(d) ==> d == c.snapshotDigest)
                 && var k := c.sequence - 1;
                    && c.previousSequence == (if k == 0 then None else Some(records[k - 1].sequence))
                    && (k > 0 ==> PreviousRelease(cfg.h, s, records[..k]).Some?)
                    && Release(cfg.h, Stamp(cfg.feedId, cfg.base, c.releaseId, c.sequence, c.publicationTime), a,
                               PreviousRelease(cfg.h, s, records[..k]), History(Events(records[..k]))).Derive()
                       == Some(c.events)
  {
    SoundMeaning(cfg.h, s, c);
    hide ValidArtifact, PreviousRelease, Injective, EventBound, SnapshotSound, Events, History;
    if 1 <= c.sequence <= |records| + 1 && c.releaseId in s.snapshots {
      var k := c.sequence - 1;
      assert records[..k] == [] <==> k == 0;
      OwnEvents(cfg, c, Release(cfg.h, Stamp(cfg.feedId, cfg.base, c.releaseId, c.sequence, c.publicationTime),
                                s.snapshots[c.releaseId], PreviousRelease(cfg.h, s, records[..k]),
                                History(Events(records[..k]))));
    }
  }

  lemma SoundMeaning(h: Hash, s: Durable, c: Candidate)
    ensures SnapshotSound(h, s, c) <==>
              && c.releaseId in s.snapshots
              && var a := s.snapshots[c.releaseId];
                 && c.artifactDigest == h(Manifest(a))
                 && c.catalogDigest == h(CatalogFile(a.sourceCommit, a.catalog))
                 && ValidArtifact(h, a, c.sourceCommit)
                 && forall d :: a.inputDigest == Some(d) ==> d == c.snapshotDigest
  {
    hide ValidArtifact;
  }

  lemma OwnEvents(cfg: Config, c: Candidate, r: Release)
    requires Injective(r.h)
    requires r.at == Stamp(cfg.feedId, cfg.base, c.releaseId, c.sequence, c.publicationTime)
    ensures r.Derive() == Some(c.events) ==> forall i :: 0 <= i < |c.events| ==> EventBound(cfg.feedId, c, c.events[i])
  {
    if r.Derive() == Some(c.events) {
      forall i | 0 <= i < |c.events| ensures EventBound(cfg.feedId, c, c.events[i]) {
        DerivedEvent(r, c.events, i);
      }
    }
  }

  // The release before reads back if its candidate does and its files are intact.
  lemma PreviousReads(h: Hash, s: Durable, preceding: seq<Record>, a: Artifact)
    ensures PreviousRelease(h, s, preceding) == Some(a) <==>
              && preceding != []
              && var id := preceding[|preceding| - 1].releaseId;
                 && id in s.releases && s.releases[id] == a
                 && exists c :: Load(h, s, id) == Found(c) && c.artifactDigest == h(Manifest(a))
  {
  }

  // The uploaded release is the snapshot, and holds what the events refer to.
  ghost predicate UploadVerified(cfg: Config, s: Durable, c: Candidate, requireRecord: bool) {
    && Verifiable(cfg.base, s, c, requireRecord)
    && UploadedDigest(cfg, s, c) == c.artifactDigest
    && ValidArtifact(cfg.h, s.releases[c.releaseId], c.sourceCommit)
    && InputOk(s.releases[c.releaseId], c.snapshotDigest)
  }

  function UploadedDigest(cfg: Config, s: Durable, c: Candidate): Digest
    requires c.releaseId in s.releases
  {
    cfg.h(Manifest(s.releases[c.releaseId]))
  }

  // c is a saved state, current or past, of a stored candidate.
  ghost predicate Known(s: Durable, c: Candidate) {
    c.releaseId in s.candidates && c.SameRelease(s.candidates[c.releaseId])
  }

  lemma KnownFacts(cfg: Config, s: Durable, c: Candidate)
    requires Inv(cfg, s) && Known(s, c)
    ensures SnapshotSound(cfg.h, s, c) && Derived(cfg, s.snapshots, s.records, c)
    ensures 1 <= c.sequence <= HeadSequence(s) + 1
        && c.previousSequence == (if c.sequence == 1 then None else Some(c.sequence - 1))
    ensures c.releaseId in s.releases ==> s.releases[c.releaseId] == s.snapshots[c.releaseId]
  {
    hide Inv;
    CandidateAt(cfg, s, c.releaseId);
    var d := s.candidates[c.releaseId];
    assert DerivationOf(cfg, s.snapshots, s.records, c) == DerivationOf(cfg, s.snapshots, s.records, d);
  }

  // The previous release read back is the artifact the candidate was derived from.
  lemma PreviousReleaseKept(cfg: Config, s: Durable, k: nat)
    requires Inv(cfg, s) && k <= HeadSequence(s)
    ensures PreviousRelease(cfg.h, s, Prefix(s.records, k)) == LastArtifact(ArtifactsOf(s.snapshots, s.records, k))
  {
    hide Inv;
    if k > 0 {
      var c := OwnerAt(cfg, s, k);
      CandidateFacts(cfg, s, c.releaseId);
    }
  }

  lemma SnapshotAlwaysVerified(cfg: Config, s: Durable, c: Candidate)
    requires Injective(cfg.h) && Inv(cfg, s) && Known(s, c)
    ensures SnapshotVerified(cfg, s, c, Feed(s))
  {
    hide Inv, SnapshotSound, EventBound;
    KnownFacts(cfg, s, c);
    EventsBound(cfg, s.snapshots, s.records, c);
    var k := c.sequence - 1;
    PrefixOfPrefix(s.records, k, HeadSequence(s));
    PreviousReleaseKept(cfg, s, k);
    if k > 0 {
      var d := OwnerAt(cfg, s, k);
      assert Prefix(s.records, k)[k - 1] == ExpectedRecord(d);
    }
    SnapshotFrozen(cfg.h, s, c);
    assert DerivationOf(cfg, s.snapshots, s.records, c) ==
           Release(cfg.h, Stamp(cfg.feedId, cfg.base, c.releaseId, c.sequence, c.publicationTime),
                   s.snapshots[c.releaseId],
                   PreviousRelease(cfg.h, s, Prefix(s.records, k)), History(Events(Prefix(s.records, k))));
  }

  lemma SnapshotFrozen(h: Hash, s: Durable, c: Candidate)
    requires SnapshotSound(h, s, c)
    ensures c.releaseId in s.snapshots
  {
  }

  lemma UploadVerifiedIff(cfg: Config, s: Durable, c: Candidate, requireRecord: bool)
    requires Inv(cfg, s) && Known(s, c)
    ensures UploadVerified(cfg, s, c, requireRecord) <==> Verifiable(cfg.base, s, c, requireRecord)
  {
    hide Inv, Derived, Verifiable;
    KnownFacts(cfg, s, c);
    assert Verifiable(cfg.base, s, c, requireRecord) ==> c.releaseId in s.releases by {
      VerifiableReleased(cfg.base, s, c, requireRecord);
    }
  }

  lemma VerifiableReleased(base: string, s: Durable, c: Candidate, requireRecord: bool)
    ensures Verifiable(base, s, c, requireRecord) ==> c.releaseId in s.releases
  {
  }
}
