/** What the publisher's durable state satisfies over every run: the feed it
    serves, how it grows, and how an interrupted release recovers. */
module PublisherRuns {
  import opened Options
  import opened Documents
  import opened FeedCheck
  import opened Agreement
  import opened Store
  import opened PublisherLog

  // Durable states of a store from its creation on, one write apart.
  ghost predicate Run(cfg: Config, tr: seq<Durable>) {
    && tr != []
    && tr[0] == EMPTY_STORE
    && Writes(cfg, tr)
  }

  ghost predicate Writes(cfg: Config, tr: seq<Durable>) {
    forall i :: 0 <= i < |tr| - 1 ==> Step(cfg, tr[i], tr[i + 1])
  }

  lemma {:induction false} WritesKeep(cfg: Config, tr: seq<Durable>, i: nat)
    requires i < |tr| && Writes(cfg, tr) && Inv(cfg, tr[0])
    ensures Inv(cfg, tr[i])
  {
    hide Inv, Step;
    if i > 0 {
      WritesKeep(cfg, tr, i - 1);
      StepKeeps(cfg, tr[i - 1], tr[i]);
    }
  }

  // --- The shape of the log ---

  // The records fill 1 .. head, with at most one more that belongs to the
  // single activated candidate; the entry point names a committed release, or
  // exactly the pending one once that is checked.
  ghost predicate WellShaped(s: Durable) {
    var n := HeadSequence(s);
    && OnePending(s.candidates)
    && (forall k :: k in s.records && k != n + 1 <==> 1 <= k <= n)
    && (forall k :: k in s.records ==> s.records[k].sequence == k && s.records[k].releaseId in s.candidates)
    && (n + 1 in s.records ==>
          && s.candidates[s.records[n + 1].releaseId].state.Activated?
          && s.records[n + 1] == ExpectedRecord(s.candidates[s.records[n + 1].releaseId]))
    && (s.current.Some? ==>
          && s.current.value.releaseId in s.candidates
          && (var c := s.candidates[s.current.value.releaseId];
              && s.current.value.sequence == c.sequence
              && (c.state.Committed?
                  || ((c.state.Checked? || c.state.Activated?) && c.sequence >= n
                      && s.current == Some(Current(c.releaseId, c.sequence, false))))))
  }

  lemma ShapeRecords(s: Durable)
    requires RecordsOk(s.candidates, s.records, HeadSequence(s))
    ensures forall k :: k in s.records ==>
              1 <= k <= HeadSequence(s) + 1 && s.records[k].sequence == k && s.records[k].releaseId in s.candidates
              && s.candidates[s.records[k].releaseId].sequence == k
              && IsFrozen(s.candidates[s.records[k].releaseId].state)
              && s.records[k] == ExpectedRecord(s.candidates[s.records[k].releaseId])
  {
    forall k | k in s.records ensures Owned(s.candidates, s.records[k], k) {
    }
  }

  lemma RecordsShaped(cfg: Config, s: Durable)
    requires Inv(cfg, s)
    ensures RecordsOk(s.candidates, s.records, HeadSequence(s)) && OnePending(s.candidates)
    ensures CurrentOk(s.candidates, s.current)
  {
  }

  lemma InvShaped(cfg: Config, s: Durable)
    requires Inv(cfg, s)
    ensures WellShaped(s)
  {
    hide Inv, OnePending;
    var n := HeadSequence(s);
    RecordsShaped(cfg, s);
    ShapeRecords(s);
    if n + 1 in s.records {
      CandidateFacts(cfg, s, s.records[n + 1].releaseId);
    }
    if s.current.Some? {
      CandidateFacts(cfg, s, s.current.value.releaseId);
    }
  }

  // Every reachable state has that shape.
  lemma LogShape(cfg: Config, tr: seq<Durable>, i: nat)
    requires i < |tr| && Run(cfg, tr)
    ensures WellShaped(tr[i])
  {
    EmptyInv(cfg);
    WritesKeep(cfg, tr, i);
    hide Inv, WellShaped;
    InvShaped(cfg, tr[i]);
  }

  // --- The feed a consumer sees ---

  ghost function FeedArtifacts(s: Durable): seq<Artifact> {
    ArtifactsOf(s.snapshots, s.records, HeadSequence(s))
  }

  lemma PrefixOfPrefix(records: map<nat, Record>, k: nat, n: nat)
    requires k <= n
    ensures Prefix(records, n)[..k] == Prefix(records, k)
  {
  }

  lemma ArtifactsPrefix(snapshots: map<Digest, Artifact>, records: map<nat, Record>, k: nat, n: nat)
    requires k <= n
    ensures ArtifactsOf(snapshots, records, n)[..k] == ArtifactsOf(snapshots, records, k)
  {
  }

  lemma {:induction false} ReleaseIdsMember(records: seq<Record>, id: Digest)
    requires id in ReleaseIds(records)
    ensures exists j :: 0 <= j < |records| && records[j].releaseId == id
  {
    var n := |records| - 1;
    if records[n].releaseId != id {
      ReleaseIdsMember(records[..n], id);
      var j :| 0 <= j < n && records[..n][j].releaseId == id;
      assert records[j].releaseId == id;
    }
  }

  // The candidate behind record k.
  lemma OwnerAt(cfg: Config, s: Durable, k: nat) returns (c: Candidate)
    requires Inv(cfg, s) && 1 <= k <= HeadSequence(s)
    ensures c.releaseId in s.candidates && s.candidates[c.releaseId] == c && c.sequence == k
    ensures RecordAt(s.records, k) == ExpectedRecord(c) && CandidateOk(cfg, ViewOf(s), c) && IsFrozen(c.state)
  {
    assert Owned(s.candidates, s.records[k], k);
    c := s.candidates[s.records[k].releaseId];
    CandidateAt(cfg, s, s.records[k].releaseId);
  }

  lemma NewReleaseId(cfg: Config, s: Durable, k: nat)
    requires Inv(cfg, s) && 1 <= k <= HeadSequence(s)
    ensures RecordAt(s.records, k).releaseId !in ReleaseIds(Prefix(s.records, k - 1))
  {
    hide CandidateOk, Inv;
    var c := OwnerAt(cfg, s, k);
    if c.releaseId in ReleaseIds(Prefix(s.records, k - 1)) {
      ReleaseIdsMember(Prefix(s.records, k - 1), c.releaseId);
      var j :| 0 <= j < k - 1 && Prefix(s.records, k - 1)[j].releaseId == c.releaseId;
      var d := OwnerAt(cfg, s, j + 1);
    }
  }

  // Safety end to end, first half: in every state that keeps the invariant the
  // committed feed is a derived log, served by the release directory.
  lemma FeedPublished(cfg: Config, s: Durable)
    requires Injective(cfg.h) && Inv(cfg, s)
    ensures Published(cfg.h, cfg.feedId, cfg.base, FeedArtifacts(s), Feed(s))
    ensures Serves(s.releases, FeedArtifacts(s), Feed(s))
  {
    hide Inv;
    var n := HeadSequence(s);
    forall k | 0 <= k < n ensures PublishedAt(cfg.h, cfg.feedId, cfg.base, FeedArtifacts(s), Feed(s), k) {
      FeedRecord(cfg, s, k);
    }
    forall k, j | 0 <= k < n && 0 <= j < |Feed(s)[k].events|
      ensures Carries(s.releases, FeedArtifacts(s)[k], Feed(s)[k].events[j]) {
      FeedServed(cfg, s, k, j);
    }
  }

  lemma FeedServed(cfg: Config, s: Durable, k: nat, j: nat)
    requires Injective(cfg.h) && Inv(cfg, s) && k < HeadSequence(s) && j < |Feed(s)[k].events|
    ensures Feed(s)[k].events[j].releaseId in s.releases
    ensures s.releases[Feed(s)[k].events[j].releaseId] == FeedArtifacts(s)[k]
  {
    hide Inv, Placed, Grounded, Injective, ReferencesHeld;
    var c := OwnerAt(cfg, s, k + 1);
    DerivedEvent(DerivationOf(cfg, s.snapshots, s.records, c), c.events, j);
    hide Derived;
  }

  lemma FeedRecord(cfg: Config, s: Durable, k: nat)
    requires Inv(cfg, s) && k < HeadSequence(s)
    ensures PublishedAt(cfg.h, cfg.feedId, cfg.base, FeedArtifacts(s), Feed(s), k)
  {
    hide Inv, Written;
    var c := OwnerAt(cfg, s, k + 1);
    NewReleaseId(cfg, s, k + 1);
    PrefixOfPrefix(s.records, k, HeadSequence(s));
    ArtifactsPrefix(s.snapshots, s.records, k, HeadSequence(s));
    assert DerivationOf(cfg, s.snapshots, s.records, c) ==
           NextRelease(cfg.h, cfg.feedId, cfg.base, FeedArtifacts(s)[..k], Feed(s)[..k], FeedArtifacts(s)[k],
                       Feed(s)[k]);
  }

  // The published head names the last record.
  lemma FeedHeadLast(cfg: Config, s: Durable)
    requires Inv(cfg, s) && s.head.Some?
    ensures Feed(s) != [] && Feed(s)[|Feed(s)| - 1].releaseId == s.head.value.releaseId
  {
    hide CandidatesOk, RecordsOk, CurrentOk, OnePending;
  }

  // --- How the state grows ---

  ghost predicate Grows(s: Durable, t: Durable) {
    && HeadSequence(s) <= HeadSequence(t)
    && (forall k :: k in s.records ==> k in t.records && t.records[k] == s.records[k])
    && (forall id :: id in s.releases ==> id in t.releases && t.releases[id] == s.releases[id])
    && (forall id :: id in s.snapshots ==> id in t.snapshots && t.snapshots[id] == s.snapshots[id])
    && (forall id :: id in s.candidates ==> id in t.candidates && s.candidates[id].SameRelease(t.candidates[id])
                                            && Rank(s.candidates[id].state) <= Rank(t.candidates[id].state))
  }

  lemma SaveGrows(s: Durable, c: Candidate)
    requires c.releaseId in s.candidates ==>
               s.candidates[c.releaseId].SameRelease(c) && Rank(s.candidates[c.releaseId].state) <= Rank(c.state)
    ensures Grows(s, Save(s, c))
  {
  }

  lemma WriteGrows(s: Durable, t: Durable)
    requires t.candidates == s.candidates && HeadSequence(s) <= HeadSequence(t)
    requires forall k :: k in s.records ==> k in t.records && t.records[k] == s.records[k]
    requires forall id :: id in s.releases ==> id in t.releases && t.releases[id] == s.releases[id]
    requires forall id :: id in s.snapshots ==> id in t.snapshots && t.snapshots[id] == s.snapshots[id]
    ensures Grows(s, t)
  {
  }

  lemma NextSaveGrows(cfg: Config, s: Durable, id: Digest)
    requires id in s.candidates && s.candidates[id].releaseId == id && SavesNext(s, s.candidates[id])
        && Next(cfg, s, id).Some?
    ensures Grows(s, Next(cfg, s, id).value)
  {
    hide Grows, ReferencesHeld;
    SaveGrows(s, Next(cfg, s, id).value.candidates[id]);
  }

  lemma NextWriteGrows(cfg: Config, s: Durable, id: Digest)
    requires id in s.candidates && s.candidates[id].releaseId == id && !SavesNext(s, s.candidates[id])
        && Next(cfg, s, id).Some?
    ensures Grows(s, Next(cfg, s, id).value)
  {
    hide Grows, ReferencesHeld;
    WriteGrows(s, Next(cfg, s, id).value);
  }

  lemma NextGrows(cfg: Config, s: Durable, id: Digest)
    requires Inv(cfg, s) && id in s.candidates && Next(cfg, s, id).Some?
    ensures Grows(s, Next(cfg, s, id).value)
  {
    hide Inv, CandidateOk, Grows, Next, SavesNext;
    CandidateAt(cfg, s, id);
    if SavesNext(s, s.candidates[id]) {
      NextSaveGrows(cfg, s, id);
    } else {
      NextWriteGrows(cfg, s, id);
    }
  }

  // The next write is the candidate file.
  predicate SavesNext(s: Durable, c: Candidate) {
    match c.state
    case Prepared => c.releaseId in s.releases
    case Uploaded => true
    case Checked => s.current == Some(Current(c.releaseId, c.sequence, false))
    case Activated => c.sequence in s.records && c.sequence <= HeadSequence(s)
    case Committed => false
  }

  lemma BindGrows(s: Durable, ns: Namespace)
    ensures Grows(s, Bind(s, ns))
  {
  }

  lemma FreezeGrows(s: Durable, id: Digest, a: Artifact)
    requires id !in s.snapshots
    ensures Grows(s, Freeze(s, id, a))
  {
  }

  lemma RollbackGrows(s: Durable, id: Digest)
    requires id in s.candidates
    ensures Grows(s, RollbackTo(s, id))
  {
  }

  // Records, releases, snapshots and prepared candidates are never rewritten.
  lemma StepGrows(cfg: Config, s: Durable, t: Durable)
    requires Inv(cfg, s) && Step(cfg, s, t)
    ensures Grows(s, t)
  {
    hide Inv, Next, Grows, CanPrepare;
    if id: Digest :| id in s.candidates && Next(cfg, s, id) == Some(t) {
      NextGrows(cfg, s, id);
    } else if c: Candidate :| CanPrepare(cfg, s, c) && t == Save(s, c) {
      PrepareGrows(cfg, s, c);
    } else if id: Digest :| id in s.candidates && t == RollbackTo(s, id) {
      RollbackGrows(s, id);
    } else if id: Digest, a: Artifact :| id !in s.snapshots && t == Freeze(s, id, a) {
      FreezeGrows(s, id, a);
    } else {
      var build: string :| t == Bind(s, Namespace(cfg.feedId, cfg.base, build));
      BindGrows(s, Namespace(cfg.feedId, cfg.base, build));
    }
  }

  lemma PrepareGrows(cfg: Config, s: Durable, c: Candidate)
    requires CanPrepare(cfg, s, c)
    ensures Grows(s, Save(s, c))
  {
    hide Grows;
    SaveGrows(s, c);
  }

  lemma {:induction false} WritesGrow(cfg: Config, tr: seq<Durable>, i: nat, j: nat)
    requires i <= j < |tr| && Writes(cfg, tr) && Inv(cfg, tr[0])
    ensures Grows(tr[i], tr[j])
  {
    hide Inv, Step, HeadSequence;
    if i < j {
      WritesGrow(cfg, tr, i, j - 1);
      WritesKeep(cfg, tr, j - 1);
      StepGrows(cfg, tr[j - 1], tr[j]);
    }
  }

  lemma GrownFeed(s: Durable, t: Durable)
    requires Grows(s, t) && forall k :: 1 <= k <= HeadSequence(s) ==> k in s.records
    ensures Feed(s) <= Feed(t)
  {
    var n := HeadSequence(s);
    forall k | 0 <= k < n ensures Feed(s)[k] == Feed(t)[k] {
      assert k + 1 in s.records;
    }
  }

  // Any later feed has every earlier feed as a prefix.
  lemma FeedGrows(cfg: Config, tr: seq<Durable>, i: nat, j: nat)
    requires i <= j < |tr| && Writes(cfg, tr) && Inv(cfg, tr[0])
    ensures Feed(tr[i]) <= Feed(tr[j])
  {
    hide Inv, Step, Grows, Writes;
    WritesGrow(cfg, tr, i, j);
    WritesKeep(cfg, tr, i);
    RecordsPresent(cfg, tr[i]);
    GrownFeed(tr[i], tr[j]);
  }

  lemma RecordsPresent(cfg: Config, s: Durable)
    requires Inv(cfg, s)
    ensures forall k :: 1 <= k <= HeadSequence(s) ==> k in s.records
  {
    hide CandidatesOk, CurrentOk, OnePending;
  }
}
