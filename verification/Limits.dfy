/** Inputs on which the system does less than its documentation suggests. Each has
    its exact condition elsewhere: Agreement.SnapshotAccepted,
    Recovery.RecoveryOutcome, Publishing.Publisher.Rollback and
    Superseding.SupersededAckedIff. */
module Limits {
  import opened Options
  import opened Documents
  import opened Artifacts
  import opened Derivation
  import opened FeedCheck
  import opened Agreement
  import opened Filtering
  import opened Delivery
  import opened Store
  import opened PublisherLog
  import opened PublisherRuns
  import opened Recovery
  import opened Paths
  import opened Settling
  import Log = ConsumerLog
  import Runs = ConsumerRuns

  // --- A feed without events ---

  // Releases with no skills and no recommendations.
  const SILENT_ARTIFACT := Artifact("c", [], [], map[], map[], None)
  const FIRST_RECORD := Record(1, 1, "c", "t", "t", None, [])
  const SECOND_RECORD := Record(2, 2, "c", "u", "u", Some(1), [])

  function SilentBody(n: nat): SnapshotBody
    requires n == 1 || n == 2
  {
    if n == 1 then SnapshotBody(Head(1, 1), [FIRST_RECORD], map[])
    else SnapshotBody(Head(2, 2), [FIRST_RECORD, SECOND_RECORD], map[])
  }

  function SilentArtifacts(n: nat): seq<Artifact> {
    seq(n, _ => SILENT_ARTIFACT)
  }

  lemma SilentNext(h: Hash, feedId: string, base: string, artifacts: seq<Artifact>, front: seq<Record>, r: Record)
    requires forall i :: 0 <= i < |artifacts| ==> artifacts[i] == SILENT_ARTIFACT
    requires r.sequence == |front| + 1 && r.sourceCommit == "c" && r.events == []
    requires r.previousSequence == (if front == [] then None else Some(|front|)) && r.releaseId !in ReleaseIds(front)
    ensures NextRecord(h, feedId, base, artifacts, front, SILENT_ARTIFACT, r)
  {
    var release := NextRelease(h, feedId, base, artifacts, front, SILENT_ARTIFACT, r);
    assert SkillMap([]) == map[] && AdviceMap([]) == map[];
    assert release.Subjects() == {};
  }

  lemma SilentPublished(h: Hash, feedId: string, base: string, n: nat)
    requires n == 1 || n == 2
    ensures Published(h, feedId, base, SilentArtifacts(n), SilentBody(n).records)
    ensures Events(SilentBody(n).records) == []
  {
    assert ReleaseIds([FIRST_RECORD]) == {1 as nat} by {
      assert [FIRST_RECORD][..0] == [];
    }
    hide NextRecord;
    SilentNext(h, feedId, base, [], [], FIRST_RECORD);
    PublishedExtend(h, feedId, base, [], [], SILENT_ARTIFACT, FIRST_RECORD);
    SilentNext(h, feedId, base, [SILENT_ARTIFACT], [FIRST_RECORD], SECOND_RECORD);
    PublishedExtend(h, feedId, base, [SILENT_ARTIFACT], [FIRST_RECORD], SILENT_ARTIFACT, SECOND_RECORD);
    hide Published;
    EventsAppend([], FIRST_RECORD);
    EventsAppend([FIRST_RECORD], SECOND_RECORD);
    assert [] + [FIRST_RECORD] == [FIRST_RECORD] && [FIRST_RECORD] + [SECOND_RECORD] == [FIRST_RECORD, SECOND_RECORD];
    assert [] + [SILENT_ARTIFACT] == SilentArtifacts(1) && [SILENT_ARTIFACT] + [SILENT_ARTIFACT] == SilentArtifacts(2);
  }

  function SilentSnapshot(identify: SnapshotHash, base: string, feedId: string, n: nat): FeedSnapshot
    requires n == 1 || n == 2
  {
    FeedSnapshot(base, feedId, SilentBody(n), identify(SilentBody(n)))
  }

  // A committed feed without events is refused by a reader that expects no
  // particular feed: nothing in it says whose feed it is.
  lemma SilentFeedRefused(h: Hash, identify: SnapshotHash, feedId: string, base: string, n: nat)
    requires Injective(h) && !Blank(feedId) && (n == 1 || n == 2)
    ensures Published(h, feedId, base, SilentArtifacts(n), SilentBody(n).records)
    ensures !Accepted(h, identify, SilentSnapshot(identify, base, "", n), true)
    ensures Accepted(h, identify, SilentSnapshot(identify, base, feedId, n), true)
  {
    SilentPublished(h, feedId, base, n);
    assert Serves(map[], SilentArtifacts(n), SilentBody(n).records);
    hide Published, Serves, Accepted;
    SnapshotAccepted(h, identify, feedId, SilentArtifacts(n), SilentSnapshot(identify, base, "", n));
    SnapshotAccepted(h, identify, feedId, SilentArtifacts(n), SilentSnapshot(identify, base, feedId, n));
  }

  // --- The first release of a store ---

  lemma FirstDerives(r: Release)
    requires r.previous.None? && r.history == map[]
    ensures r.Derive().Some?
  {
    forall s | s in r.Subjects() ensures !r.Decide(s).Refuse? {
    }
  }

  function FirstRequest(h: Hash, a: Artifact): ReleaseRequest {
    ReleaseRequest(a.sourceCommit, h(CatalogFile(a.sourceCommit, a.catalog)), 0, "b", Some(a), false)
  }

  // A run that binds a new store, freezes an artifact and saves its candidate, as a
  // process does that dies right after.
  lemma FirstPending(cfg: Config, a: Artifact) returns (tr: seq<Durable>, id: Digest, r: Release)
    requires Injective(cfg.h) && ValidArtifact(cfg.h, a, a.sourceCommit) && a.inputDigest.None?
    ensures Run(cfg, tr)
    ensures var s := tr[|tr| - 1];
            && Inv(cfg, s) && IsPending(s, id) && s.candidates[id].state.Prepared? && s.candidates[id].releaseId == id
            && s.candidates[id].sequence == 1 && s.head.None? && SnapshotOf(s.snapshots, id) == a
            && r.h == cfg.h && r.at.base == cfg.base && r.current == a && r.previous.None? && r.history == map[]
            && r.Derive() == Some(s.candidates[id].events)
  {
    var q := FirstRequest(cfg.h, a);
    id := RequestId(cfg.h, q);
    var s1 := Bind(EMPTY_STORE, Namespace(cfg.feedId, cfg.base, "b"));
    var s2 := Freeze(s1, id, a);
    r := NewDerivation(cfg, s1, q, "now");
    FirstHistory(cfg, s1, q);
    FirstDerives(r);
    var c := NewCandidate(cfg, s1, q, "now", r.Derive().value);
    var s3 := Save(s2, c);
    FirstPrepared(cfg, a, s1, r.Derive().value);
    hide Inv, CanPrepare, ValidArtifact, Injective, NewDerivation;
    FreezeKeeps(cfg, s1, id, a);
    PrepareKeeps(cfg, s2, c);
    FirstSteps(cfg, s1, s2, id, a, c);
    tr := [EMPTY_STORE, s1, s2, s3];
    hide Step;
  }

  lemma FirstPrepared(cfg: Config, a: Artifact, s: Durable, events: seq<Event>)
    requires ValidArtifact(cfg.h, a, a.sourceCommit) && a.inputDigest.None?
    requires s == Bind(EMPTY_STORE, Namespace(cfg.feedId, cfg.base, "b"))
    requires NewDerivation(cfg, s, FirstRequest(cfg.h, a), "now").Derive() == Some(events)
    ensures var q := FirstRequest(cfg.h, a);
            Inv(cfg, s) && CanPrepare(cfg, Freeze(s, RequestId(cfg.h, q), a), NewCandidate(cfg, s, q, "now", events))
  {
    var q := FirstRequest(cfg.h, a);
    EmptyInv(cfg);
    BindKeeps(cfg, EMPTY_STORE, "b");
    hide Inv, ValidArtifact, NewDerivation, CanPrepare;
    NewCandidatePrepared(cfg, s, Freeze(s, RequestId(cfg.h, q), a), q, "now", events);
  }

  lemma FirstSteps(cfg: Config, s1: Durable, s2: Durable, id: Digest, a: Artifact, c: Candidate)
    requires s1 == Bind(EMPTY_STORE, Namespace(cfg.feedId, cfg.base, "b")) && s2 == Freeze(s1, id, a)
        && CanPrepare(cfg, s2, c)
    ensures Step(cfg, EMPTY_STORE, s1) && Step(cfg, s1, s2) && Step(cfg, s2, Save(s2, c))
  {
    hide Next, CanPrepare;
  }

  lemma FirstHistory(cfg: Config, s: Durable, q: ReleaseRequest)
    requires s == Bind(EMPTY_STORE, Namespace(cfg.feedId, cfg.base, "b")) && q.artifact.Some?
    ensures var r := NewDerivation(cfg, s, q, "now");
            r.h == cfg.h && r.at.base == cfg.base && r.current == q.artifact.value && r.previous.None?
              && r.history == map[]
  {
  }

  // One active skill with its install document.
  function SampleItem(h: Hash): CatalogItem {
    CatalogItem("ns/s", "source", "install", Some(Active), "name", "summary", {}, Active,
                h(EntryBody("ns/s", "source", "install", Some(Active), "name", "summary", {})))
  }

  function SampleInstall(h: Hash): InstallDoc {
    var d := SampleItem(h).entryDigest;
    InstallDoc("ns/s", d, "source", "install", h(InstallBody("ns/s", d, "source", "install")))
  }

  function Sample(h: Hash, pages: map<Page, string>): Artifact {
    Artifact("c", [SampleItem(h)], [], map["ns/s" := SampleInstall(h)], pages, None)
  }

  lemma SampleValid(h: Hash, pages: map<Page, string>)
    ensures ValidArtifact(h, Sample(h, pages), "c")
  {
    assert ItemOk(h, Sample(h, pages), SampleItem(h));
  }

  // Its candidate's events point to the skill's page, and to no other.
  lemma SamplePages(r: Release, c: Candidate, pages: map<Page, string>)
    requires Injective(r.h) && r.current == Sample(r.h, pages) && r.previous.None? && r.history == map[]
    requires r.Derive() == Some(c.events)
    ensures PagesHeld(c, Sample(r.h, pages)) <==> SkillPage("ns/s") in pages
  {
    var s := Skill("ns/s");
    var a := Sample(r.h, pages);
    SampleSubjects(r, pages);
    r.ArrangeCovers(r.Subjects());
    r.EventSubject(s);
    assert r.Belongs(r.Subjects(), r.EventOf(s));
    var i :| 0 <= i < |c.events| && c.events[i] == r.EventOf(s);
    forall j | 0 <= j < |c.events| ensures c.events[j].pageUrl.target == PageOf(SkillPage("ns/s")) {
      assert r.Belongs(r.Subjects(), c.events[j]);
      assert SubjectOf(c.events[j]) == s;
    }
  }

  lemma SampleSubjects(r: Release, pages: map<Page, string>)
    requires r.current == Sample(r.h, pages) && r.previous.None? && r.history == map[]
    ensures r.Subjects() == {Skill("ns/s")} && r.Decide(Skill("ns/s")).Emit?
  {
    assert SkillMap([SampleItem(r.h)]) == map["ns/s" := SampleItem(r.h)] by {
      assert [SampleItem(r.h)][..0] == [];
    }
    assert AdviceMap([]) == map[];
  }

  // --- A release without its page ---

  // A reachable store whose pending candidate is uploaded and never gets further:
  // no process can make another write, so nothing is ever published again.
  lemma PagelessReleaseStuck(cfg: Config) returns (tr: seq<Durable>, id: Digest, t: Durable)
    requires Injective(cfg.h)
    ensures Run(cfg, tr) && IsPending(tr[|tr| - 1], id) && !CanSettle(tr[|tr| - 1])
    ensures Reaches(cfg, tr[|tr| - 1], t) && Inv(cfg, t)
    ensures id in t.candidates && t.candidates[id].state.Uploaded? && t.head.None? && t.records == tr[|tr| - 1].records
    ensures forall u :: !Step(cfg, t, u)
  {
    var r;
    SampleValid(cfg.h, map[]);
    tr, id, r := FirstPending(cfg, Sample(cfg.h, map[]));
    var s := tr[|tr| - 1];
    SamplePages(r, s.candidates[id], map[]);
    hide Inv, Step, PagesHeld, Injective, Run, Sample;
    RecoveryOutcome(cfg, s, id);
    SettledPending(cfg, s, id);
    CompleteReached(cfg, s, id);
    t := Complete(cfg, s, id);
    ReachedKeeps(cfg, s, t);
    forall u ensures !Step(cfg, t, u) {
      if Step(cfg, t, u) {
        OnlyRecovery(cfg, t, u, id);
      }
    }
  }

  lemma ReachedKeeps(cfg: Config, s: Durable, t: Durable)
    requires Inv(cfg, s) && Reaches(cfg, s, t)
    ensures Inv(cfg, t)
  {
    hide Inv, Step;
    var w: seq<Durable> :| Path(cfg, w, s, t);
    WritesKeep(cfg, w, |w| - 1);
  }

  // --- A rollback that commits and fails ---

  // A reachable store whose pending candidate has all its pages: a call that rolls
  // back to it is refused, and yet leaves it committed and at the head.
  lemma PendingRollbackRefused(cfg: Config) returns (tr: seq<Durable>, id: Digest)
    requires Injective(cfg.h)
    ensures Run(cfg, tr)
    ensures var s := tr[|tr| - 1];
            && Inv(cfg, s) && id in s.candidates && CanSettle(s) && !CanRollback(s, id)
            && id in Settled(s).candidates && Settled(s).candidates[id].state.Committed?
            && s.head.None? && Settled(s).head == Some(FeedHead(1, id))
  {
    var pages := map[SkillPage("ns/s") := "page"];
    var r;
    SampleValid(cfg.h, pages);
    tr, id, r := FirstPending(cfg, Sample(cfg.h, pages));
    var s := tr[|tr| - 1];
    SamplePages(r, s.candidates[id], pages);
    hide Inv, PagesHeld, Injective, Run, Sample;
    SettledPending(cfg, s, id);
  }

  // --- A superseded batch that is acknowledged after all ---

  const CONSUMER := Log.SharingConfig("consumer", "u", NO_FILTERS, Some(Log.Replay), 0)

  function Reading(env: Log.Env, n: nat): FeedSnapshot
    requires n == 1 || n == 2
  {
    SilentSnapshot(env.identify, "u", "f", n)
  }

  lemma ReadingUsable(env: Log.Env, n: nat)
    requires Log.Sound(env) && (n == 1 || n == 2)
    ensures Log.Usable(env, CONSUMER, Reading(env, n)) && |Reading(env, n).body.records| == n
    ensures Log.Answered(env, Reading(env, n), 0, NO_FILTERS)
    ensures Reading(env, 1).identity != Reading(env, 2).identity
  {
    assert !Blank("f") by {
      assert !IsSpace("f"[0]);
    }
    SilentFeedRefused(env.h, env.identify, "f", "u", n);
    SilentAnswer(env, n);
    assert SilentBody(1) != SilentBody(2) by {
      assert SilentBody(1).head != SilentBody(2).head;
    }
  }

  // There is nothing to hand over.
  lemma SilentAnswer(env: Log.Env, n: nat)
    requires n == 1 || n == 2
    ensures Log.Answered(env, Reading(env, n), 0, NO_FILTERS)
  {
    var body := SilentBody(n);
    forall i: nat | i < n ensures SurvivorsAt(body, LatestOf(body), i) == [] {
      assert body.records[i].events == [];
    }
    forall x ensures !ItemAfter(env.itemHash, body, 0, x) {
      if i: nat :| ItemAt(env.itemHash, body, 0, i, x) {
        assert false;
      }
    }
    assert IsAnswer(env.itemHash, body, 0, NO_FILTERS, []);
  }

  // From empty tables: the consumer starts, reads the first record, then both, then
  // the first again, and acknowledges. The batch of the first reading was superseded
  // by the second's, and is acknowledged.
  lemma SupersededAcknowledged(env: Log.Env) returns (ws: seq<Log.World>, ms: seq<Log.Move>)
    requires Log.Sound(env)
    ensures Runs.Execution(env, ws, ms) && |ms| == 5
    ensures Runs.SavesFor(ms[2], "consumer") && "consumer" in ws[2].pending && "consumer" in ws[3].pending
    ensures ws[3].pending["consumer"].batchId != ws[2].pending["consumer"].batchId
    ensures ("consumer", ws[2].pending["consumer"].batchId) in ws[5].acks
  {
    ReadingUsable(env, 1);
    ReadingUsable(env, 2);
    hide Log.Usable, Log.Answered, Log.Answer, Log.Sound, Reading;
    var older, newer := Log.Save(CONSUMER, Reading(env, 1)), Log.Save(CONSUMER, Reading(env, 2));
    var start, ack := Log.Initialize(CONSUMER, Reading(env, 1)), Log.Move.Acknowledge("consumer");
    ms := [start, older, newer, older, ack];
    var w1 := Log.Apply(env, Log.NOTHING_YET, start);
    var w2 := Log.Apply(env, w1, older);
    var w3 := Log.Apply(env, w2, newer);
    var w4 := Log.Apply(env, w3, older);
    var w5 := Log.Apply(env, w4, ack);
    ws := [Log.NOTHING_YET, w1, w2, w3, w4, w5];
  }
}
