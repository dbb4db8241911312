/** How an interrupted release recovers: the durable writes of _advance from any
    point on (src/hwskill/publishing/service.py). */
module Recovery {
  import opened Options
  import opened Documents
  import opened Artifacts
  import opened Derivation
  import opened Agreement
  import opened Store
  import opened PublisherLog

  // How many writes a candidate still needs.
  function Left(s: Durable, id: Digest): nat
    requires id in s.candidates
  {
    var c := s.candidates[id];
    match c.state
    case Prepared => if id !in s.releases then 8 else 7
    case Uploaded => 6
    case Checked => if s.current != Some(Current(id, c.sequence, false)) then 5 else 4
    case Activated => if c.sequence !in s.records then 3 else if HeadSequence(s) < c.sequence then 2 else 1
    case Committed => 0
  }

  lemma NextDecreases(cfg: Config, s: Durable, id: Digest)
    requires id in s.candidates && s.candidates[id].releaseId == id && Next(cfg, s, id).Some?
    ensures id in Next(cfg, s, id).value.candidates
    ensures Next(cfg, s, id).value.candidates[id].releaseId == id
    ensures Left(Next(cfg, s, id).value, id) < Left(s, id)
  {
    hide ReferencesHeld;
  }

  // All the remaining writes, in order.
  ghost function Complete(cfg: Config, s: Durable, id: Digest): (t: Durable)
    requires id in s.candidates && s.candidates[id].releaseId == id
    ensures id in t.candidates && t.candidates[id].releaseId == id
    decreases Left(s, id)
  {
    if Next(cfg, s, id).None? then s else
      NextDecreases(cfg, s, id);
      Complete(cfg, Next(cfg, s, id).value, id)
  }

  // Every page the candidate's events point to is in its frozen snapshot.
  ghost predicate PagesHeld(c: Candidate, a: Artifact) {
    forall i :: 0 <= i < |c.events| ==> c.events[i].pageUrl.target.PageOf? && c.events[i].pageUrl.target.page in a.pages
  }

  // Preparation has already checked the machine files; only the pages are open.
  lemma ReferencesArePages(cfg: Config, v: View, c: Candidate)
    requires Injective(cfg.h) && CandidateOk(cfg, v, c)
    ensures ReferencesHeld(cfg.base, c, SnapshotOf(v.snapshots, c.releaseId))
        <==> PagesHeld(c, SnapshotOf(v.snapshots, c.releaseId))
  {
    hide Written, Placed;
    var a := SnapshotOf(v.snapshots, c.releaseId);
    var r := DerivationOf(cfg, v.snapshots, v.records, c);
    forall i | 0 <= i < |c.events|
      ensures ReferenceHeld(cfg.base, c, a, c.events[i]) <==>
              c.events[i].pageUrl.target.PageOf? && c.events[i].pageUrl.target.page in a.pages
    {
      DerivedEvent(r, c.events, i);
      MachineHeld(r, c.sourceCommit, c.events[i]);
    }
  }

  lemma MachineHeld(r: Release, sourceCommit: string, e: Event)
    requires ValidArtifact(r.h, r.current, sourceCommit) && r.Belongs(r.Subjects(), e)
    ensures e.pageUrl == Url(r.at.base, r.at.releaseId, PageOf(PageFor(SubjectOf(e))))
    ensures e.machineUrl.base == r.at.base && e.machineUrl.releaseId == r.at.releaseId
    ensures e.machineUrl.target.RecommendationsFile?
            || (e.machineUrl.target.InstallOf? && e.machineUrl.target.skillId in r.current.installs)
  {
    r.EventSubject(SubjectOf(e));
    if SubjectOf(e).Skill? {
      CatalogItems(r.h, r.current, sourceCommit, SubjectOf(e).id);
    }
  }

  // Progress: an uncommitted candidate has a next write unless it waits, uploaded,
  // for references it will never have.
  lemma NextExists(cfg: Config, s: Durable, id: Digest)
    requires Inv(cfg, s) && id in s.candidates && !s.candidates[id].state.Committed?
    ensures Next(cfg, s, id).None? <==>
            s.candidates[id].state.Uploaded? && !ReferencesHeld(cfg.base, s.candidates[id], SnapshotOf(s.snapshots, id))
  {
    hide Inv, ReferencesHeld;
    CandidateFacts(cfg, s, id);
  }

  // The state a recovery that completes must reach.
  ghost function Final(s: Durable, id: Digest): Durable
    requires id in s.candidates
  {
    var c := s.candidates[id].(state := Committed, committedAt := Some(s.candidates[id].publicationTime));
    s.(candidates := s.candidates[id := c],
       releases := s.releases[id := SnapshotOf(s.snapshots, id)],
       records := s.records[c.sequence := ExpectedRecord(c)],
       head := Some(FeedHead(c.sequence, id)),
       current := Some(Current(id, c.sequence, false)))
  }

  // Nothing a recovery write does changes where the recovery ends.
  lemma NextFinal(cfg: Config, s: Durable, id: Digest)
    requires Inv(cfg, s) && id in s.candidates && Next(cfg, s, id).Some?
    ensures id in Next(cfg, s, id).value.candidates && Final(Next(cfg, s, id).value, id) == Final(s, id)
    ensures Next(cfg, s, id).value.snapshots == s.snapshots
    ensures s.candidates[id].SameRelease(Next(cfg, s, id).value.candidates[id])
  {
    hide Inv, ReferencesHeld;
    CandidateFacts(cfg, s, id);
    CandidateRecord(cfg, s, id);
    var t := Next(cfg, s, id).value;
    assert Final(t, id).candidates == Final(s, id).candidates;
    assert Final(t, id).releases == Final(s, id).releases;
    assert Final(t, id).records == Final(s, id).records;
  }

  lemma CommittedFinal(cfg: Config, s: Durable, id: Digest)
    requires Inv(cfg, s) && id in s.candidates && s.candidates[id].state.Activated? && Left(s, id) == 1
    ensures Next(cfg, s, id) == Some(Final(s, id))
  {
    hide Inv, ReferencesHeld;
    CandidateFacts(cfg, s, id);
    CandidateRecord(cfg, s, id);
    var t := Final(s, id);
    assert t.releases == s.releases && t.records == s.records;
  }

  lemma CommitIsLast(cfg: Config, s: Durable, id: Digest)
    requires Inv(cfg, s) && id in s.candidates && Next(cfg, s, id).Some?
    requires id in Next(cfg, s, id).value.candidates && Next(cfg, s, id).value.candidates[id].state.Committed?
    ensures Next(cfg, s, id) == Some(Final(s, id))
  {
    hide ReferencesHeld;
    CandidateFacts(cfg, s, id);
    CommittedFinal(cfg, s, id);
  }

  // Recovery never gets stuck, exactly when the frozen snapshot holds every page
  // that the candidate's events point to: then it ends in the committed release
  // that the candidate fixed when it was prepared. Otherwise the candidate stays
  // uploaded for ever, and with it every later release.
  lemma {:induction false} RecoveryOutcome(cfg: Config, s: Durable, id: Digest)
    requires Injective(cfg.h) && Inv(cfg, s) && id in s.candidates && !s.candidates[id].state.Committed?
    requires s.candidates[id].releaseId == id
    ensures PagesHeld(s.candidates[id], SnapshotOf(s.snapshots, id)) ==> Complete(cfg, s, id) == Final(s, id)
    ensures !PagesHeld(s.candidates[id], SnapshotOf(s.snapshots, id)) ==>
              Complete(cfg, s, id).candidates[id].state.Uploaded? && Complete(cfg, s, id).records == s.records
              && Complete(cfg, s, id).head == s.head
    decreases Left(s, id)
  {
    hide Inv, Next, Final, PagesHeld, ReferencesHeld;
    PagesDecide(cfg, s, id);
    if Next(cfg, s, id).Some? {
      var t := Next(cfg, s, id).value;
      NextDecreases(cfg, s, id);
      NextKeeps(cfg, s, id);
      NextFinal(cfg, s, id);
      SamePages(s.candidates[id], t.candidates[id], SnapshotOf(s.snapshots, id));
      if t.candidates[id].state.Committed? {
        CommitIsLast(cfg, s, id);
        CompleteCommitted(cfg, t, id);
      } else {
        RecoveryOutcome(cfg, t, id);
      }
    }
  }

  lemma SamePages(c: Candidate, d: Candidate, a: Artifact)
    requires c.SameRelease(d)
    ensures PagesHeld(c, a) <==> PagesHeld(d, a)
  {
    assert c.events == d.events;
  }

  lemma CompleteCommitted(cfg: Config, s: Durable, id: Digest)
    requires id in s.candidates && s.candidates[id].releaseId == id && s.candidates[id].state.Committed?
    ensures Complete(cfg, s, id) == s
  {
  }

  // Without the pages the only writes left are the upload and the mark after it.
  lemma PagesDecide(cfg: Config, s: Durable, id: Digest)
    requires Injective(cfg.h) && Inv(cfg, s) && id in s.candidates && !s.candidates[id].state.Committed?
    ensures Next(cfg, s, id).None? <==>
            s.candidates[id].state.Uploaded? && !PagesHeld(s.candidates[id], SnapshotOf(s.snapshots, id))
    ensures !PagesHeld(s.candidates[id], SnapshotOf(s.snapshots, id)) ==> Rank(s.candidates[id].state) <= 1
    ensures !PagesHeld(s.candidates[id], SnapshotOf(s.snapshots, id)) && Next(cfg, s, id).Some? ==>
              Next(cfg, s, id).value.records == s.records && Next(cfg, s, id).value.head == s.head
              && (id in Next(cfg, s, id).value.candidates ==> !Next(cfg, s, id).value.candidates[id].state.Committed?)
  {
    hide Inv, ReferencesHeld, PagesHeld;
    NextExists(cfg, s, id);
    CandidateFacts(cfg, s, id);
    CandidateAt(cfg, s, id);
    hide Grounded, Written, Placed, Derived;
    ReferencesArePages(cfg, ViewOf(s), s.candidates[id]);
  }

  // --- Crashes ---

  // While a candidate is pending, its next recovery write is the only write any
  // publisher process makes.
  lemma OnlyRecovery(cfg: Config, s: Durable, t: Durable, id: Digest)
    requires Inv(cfg, s) && Step(cfg, s, t) && id in s.candidates && !s.candidates[id].state.Committed?
    ensures Next(cfg, s, id) == Some(t)
  {
    hide Inv, CanPrepare, Next;
    NamespaceBound(cfg, s, id);
    assert !NoPending(s);
    var x: Digest :| x in s.candidates && Next(cfg, s, x) == Some(t);
    CommittedStops(cfg, s, x);
    TheOnePending(cfg, s, x, id);
  }

  lemma CommittedStops(cfg: Config, s: Durable, id: Digest)
    requires id in s.candidates && Next(cfg, s, id).Some?
    ensures !s.candidates[id].state.Committed?
  {
  }

  lemma TheOnePending(cfg: Config, s: Durable, a: Digest, b: Digest)
    requires Inv(cfg, s) && a in s.candidates && b in s.candidates
    requires !s.candidates[a].state.Committed? && !s.candidates[b].state.Committed?
    ensures a == b
  {
    assert OnePending(s.candidates);
  }

  lemma NamespaceBound(cfg: Config, s: Durable, id: Digest)
    requires Inv(cfg, s) && id in s.candidates
    ensures s.namespace.Some?
  {
    CandidateAt(cfg, s, id);
  }

  // Crash convergence: however many processes crash on the way, the writes made
  // while the candidate is pending lead nowhere but to the state that an
  // uninterrupted recovery reaches.
  lemma {:induction false} CrashesConverge(cfg: Config, tr: seq<Durable>, id: Digest, i: nat)
    requires i < |tr| && Inv(cfg, tr[0]) && forall j :: 0 <= j < |tr| - 1 ==> Step(cfg, tr[j], tr[j + 1])
    requires id in tr[0].candidates && tr[0].candidates[id].releaseId == id
    requires forall j :: 0 <= j < i ==> id in tr[j].candidates ==> !tr[j].candidates[id].state.Committed?
    ensures Inv(cfg, tr[i]) && id in tr[i].candidates && tr[i].candidates[id].releaseId == id
    ensures Complete(cfg, tr[i], id) == Complete(cfg, tr[0], id)
    ensures tr[i].candidates[id].state.Committed? ==> tr[i] == Complete(cfg, tr[0], id)
  {
    hide Inv, Step, Next;
    if i > 0 {
      CrashesConverge(cfg, tr, id, i - 1);
      OnlyRecovery(cfg, tr[i - 1], tr[i], id);
      NextKeeps(cfg, tr[i - 1], id);
      NextDecreases(cfg, tr[i - 1], id);
    }
    if tr[i].candidates[id].state.Committed? {
      CompleteCommitted(cfg, tr[i], id);
    }
  }

  // --- A candidate without its pages ---

  // All but the one candidate, and its uploaded files, is as it was.
  ghost predicate OnlyUploaded(s: Durable, t: Durable, id: Digest) {
    && t.records == s.records && t.head == s.head && t.current == s.current
    && t.snapshots == s.snapshots && t.namespace == s.namespace
    && (forall x :: x in s.candidates && x != id ==> x in t.candidates && t.candidates[x] == s.candidates[x])
    && (forall x :: x in t.candidates ==> x in s.candidates)
    && id in s.candidates && id in t.candidates
    && s.candidates[id].SameRelease(t.candidates[id])
  }

  lemma BlockedStep(cfg: Config, s: Durable, t: Durable, id: Digest)
    requires Injective(cfg.h) && Inv(cfg, s) && Step(cfg, s, t) && id in s.candidates
        && !s.candidates[id].state.Committed?
    requires !PagesHeld(s.candidates[id], SnapshotOf(s.snapshots, id))
    ensures s.candidates[id].state.Prepared? && OnlyUploaded(s, t, id)
    ensures !t.candidates[id].state.Committed? && s.candidates[id].releaseId == id
    ensures Left(t, id) < Left(s, id)
    ensures !PagesHeld(t.candidates[id], SnapshotOf(t.snapshots, id))
  {
    OnlyRecovery(cfg, s, t, id);
    PagesDecide(cfg, s, id);
    CandidateFacts(cfg, s, id);
    NextDecreases(cfg, s, id);
    hide Inv, Step, PagesHeld, ReferencesHeld;
    SamePages(s.candidates[id], t.candidates[id], SnapshotOf(s.snapshots, id));
  }

  // It stays uploaded for ever and blocks every later release: in no run after it
  // was prepared does any process do more than upload it. Once it is uploaded, no
  // process makes any write at all.
  lemma {:induction false} BlockedForEver(cfg: Config, tr: seq<Durable>, id: Digest, i: nat)
    requires Injective(cfg.h) && i < |tr| && Inv(cfg, tr[0])
    requires forall j :: 0 <= j < |tr| - 1 ==> Step(cfg, tr[j], tr[j + 1])
    requires id in tr[0].candidates && !tr[0].candidates[id].state.Committed?
    requires !PagesHeld(tr[0].candidates[id], SnapshotOf(tr[0].snapshots, id))
    ensures OnlyUploaded(tr[0], tr[i], id) && Rank(tr[i].candidates[id].state) <= 1
    ensures i <= 2 && (tr[0].candidates[id].state.Uploaded? ==> i == 0)
  {
    hide Inv, Step, PagesHeld, OnlyUploaded;
    BlockedRun(cfg, tr, id, i);
    PagesDecide(cfg, tr[i], id);
    PagesDecide(cfg, tr[0], id);
  }

  lemma {:induction false} BlockedRun(cfg: Config, tr: seq<Durable>, id: Digest, i: nat)
    requires Injective(cfg.h) && i < |tr| && Inv(cfg, tr[0])
    requires forall j :: 0 <= j < |tr| - 1 ==> Step(cfg, tr[j], tr[j + 1])
    requires id in tr[0].candidates && !tr[0].candidates[id].state.Committed?
    requires !PagesHeld(tr[0].candidates[id], SnapshotOf(tr[0].snapshots, id))
    ensures Inv(cfg, tr[i]) && OnlyUploaded(tr[0], tr[i], id)
    ensures id in tr[i].candidates && !tr[i].candidates[id].state.Committed?
    ensures !PagesHeld(tr[i].candidates[id], SnapshotOf(tr[i].snapshots, id))
    ensures i + Left(tr[i], id) <= Left(tr[0], id)
  {
    hide Inv, Step, PagesHeld, Left;
    if i > 0 {
      BlockedRun(cfg, tr, id, i - 1);
      BlockedStep(cfg, tr[i - 1], tr[i], id);
      StepKeeps(cfg, tr[i - 1], tr[i]);
    }
  }
}
