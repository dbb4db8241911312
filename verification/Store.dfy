/** The publisher's durable store (FileReleaseStore in src/hwskill/publishing/store.py)
    and its candidates (src/hwskill/publishing/models.py). */
module Store {
  import opened Options
  import opened Documents

  datatype CandidateState = Prepared | Uploaded | Checked | Activated | Committed

  datatype Candidate = Candidate(
    releaseId: Digest,
    state: CandidateState,
    sourceCommit: string,
    catalogDigest: Digest,
    snapshotDigest: Digest,
    buildConfig: string,
    artifactDigest: Digest,
    publicationTime: string,
    committedAt: Option<string>,
    sequence: nat,
    previousSequence: Option<nat>,
    events: seq<Event>)
  {
    function Advance(to: CandidateState): Candidate {
      this.(state := to)
    }

    // None when another commit time is already frozen.
    function FreezeCommittedAt(time: string): Option<Candidate> {
      if committedAt.Some? && committedAt.value != time then None else Some(this.(committedAt := Some(time)))
    }

    // The fields that saving may never change.
    predicate SameRelease(c: Candidate) {
      c.(state := state, committedAt := committedAt) == this
    }
  }

  function Rank(s: CandidateState): nat {
    match s
    case Prepared => 0
    case Uploaded => 1
    case Checked => 2
    case Activated => 3
    case Committed => 4
  }

  predicate IsFrozen(s: CandidateState) {
    s.Activated? || s.Committed?
  }

  datatype Namespace = Namespace(feedId: string, base: string, buildConfig: string)

  datatype Current = Current(releaseId: Digest, sequence: nat, rollback: bool)

  datatype FeedHead = FeedHead(sequence: nat, releaseId: Digest)

  // Everything a crash leaves behind.
  datatype Durable = Durable(
    namespace: Option<Namespace>,
    candidates: map<Digest, Candidate>,
    snapshots: map<Digest, Artifact>,
    releases: map<Digest, Artifact>,
    records: map<nat, Record>,
    head: Option<FeedHead>,
    current: Option<Current>)

  // How an operation of a publisher process ends.
  datatype Outcome<+T> = Done(value: T) | Failed | Crashed

  datatype Loaded = Missing | Found(candidate: Candidate) | Damaged

  function ReleaseIdOf(h: Hash, c: Candidate): Digest {
    h(ReleaseInputs(c.sourceCommit, c.catalogDigest, c.snapshotDigest, c.buildConfig))
  }

  // The checks of load_candidate.
  predicate LoadOk(h: Hash, releaseId: Digest, c: Candidate) {
    && c.releaseId == releaseId
    && ReleaseIdOf(h, c) == releaseId
    && c.sequence >= 1
    && (IsFrozen(c.state) <==> c.committedAt.Some?)
    && (c.committedAt.Some? ==> c.committedAt.value == c.publicationTime)
  }

  function Load(h: Hash, s: Durable, releaseId: Digest): Loaded {
    if releaseId !in s.candidates then Missing
    else if LoadOk(h, releaseId, s.candidates[releaseId]) then Found(s.candidates[releaseId])
    else Damaged
  }

  // The checks of save_candidate against what is stored.
  predicate SaveOk(h: Hash, s: Durable, c: Candidate) {
    && c.sequence >= 1
    && (c.committedAt.Some? ==> c.committedAt.value == c.publicationTime)
    && match Load(h, s, c.releaseId)
       case Missing => true
       case Damaged => false
       case Found(before) =>
         && before.SameRelease(c)
         && (before.committedAt.Some? ==> c.committedAt == before.committedAt)
         && (before.committedAt.None? && c.committedAt.Some? ==> IsFrozen(c.state))
         && Rank(before.state) <= Rank(c.state) <= Rank(before.state) + 1
  }

  function ExpectedRecord(c: Candidate): Record {
    Record(c.releaseId, c.sequence, c.sourceCommit, c.publicationTime,
           if c.committedAt.Some? then c.committedAt.value else "", c.previousSequence, c.events)
  }

  function HeadSequence(s: Durable): nat {
    if s.head.Some? then s.head.value.sequence else 0
  }

  // The files the events refer to exist in the release itself.
  predicate ReferenceHeld(base: string, c: Candidate, a: Artifact, e: Event) {
    && UrlHeld(base, c.releaseId, a, e.pageUrl)
    && UrlHeld(base, c.releaseId, a, e.machineUrl)
  }

  predicate UrlHeld(base: string, releaseId: Digest, a: Artifact, u: Url) {
    && u.base == base && u.releaseId == releaseId
    && match u.target
       case PageOf(p) => p in a.pages
       case InstallOf(id) => id in a.installs
       case RecommendationsFile => true
  }

  predicate ReferencesHeld(base: string, c: Candidate, a: Artifact) {
    forall i :: 0 <= i < |c.events| ==> ReferenceHeld(base, c, a, c.events[i])
  }

  // What read_feed demands of the record at a sequence.
  predicate RecordReadable(h: Hash, s: Durable, sequence: nat) {
    && s.namespace.Some?
    && sequence in s.records
    && (var r := s.records[sequence];
        && r.sequence == sequence
        && r.previousSequence == (if sequence == 1 then None else Some(sequence - 1))
        && Load(h, s, r.releaseId).Found?
        && (var c := s.candidates[r.releaseId];
            && IsFrozen(c.state)
            && r == ExpectedRecord(c)
            && (forall i :: 0 <= i < |r.events| ==> r.events[i].feedId == s.namespace.value.feedId)
            && c.buildConfig == s.namespace.value.buildConfig
            && c.releaseId in s.releases
            && h(Manifest(s.releases[c.releaseId])) == c.artifactDigest
            && ReferencesHeld(s.namespace.value.base, c, s.releases[c.releaseId])))
  }

  const NO_RECORD := Record(0, 0, "", "", "", None, [])

  // Records 1 .. n.
  function Prefix(records: map<nat, Record>, n: nat): (r: seq<Record>)
    ensures |r| == n
  {
    seq(n, i requires 0 <= i < n => RecordAt(records, i + 1))
  }

  function RecordAt(records: map<nat, Record>, k: nat): Record {
    if k in records then records[k] else NO_RECORD
  }

  function Feed(s: Durable): seq<Record> {
    Prefix(s.records, HeadSequence(s))
  }

  ghost predicate FeedReadable(h: Hash, s: Durable) {
    s.head.Some? ==>
      && HeadSequence(s) >= 1
      && (forall k :: 1 <= k <= HeadSequence(s) ==> RecordReadable(h, s, k))
      && HeadSequence(s) in s.records
      && s.records[HeadSequence(s)].releaseId == s.head.value.releaseId
  }

  class FileReleaseStore {
    const h: Hash
    var namespace: Option<Namespace>
    var candidates: map<Digest, Candidate>
    var snapshots: map<Digest, Artifact>
    var releases: map<Digest, Artifact>
    var records: map<nat, Record>
    var head: Option<FeedHead>
    var current: Option<Current>
    // The process dies when it tries a durable write and this is 0.
    var fuse: nat

    ghost function State(): Durable
      reads this
    {
      Durable(namespace, candidates, snapshots, releases, records, head, current)
    }

    constructor (h: Hash, fuse: nat)
      ensures this.h == h && this.fuse == fuse
      ensures State() == Durable(None, map[], map[], map[], map[], None, None)
    {
      this.h := h;
      this.fuse := fuse;
      namespace, candidates, snapshots, releases, records, head, current := None, map[], map[], map[], map[], None,
        None;
    }

    method BindNamespace(ns: Namespace) returns (r: Outcome<()>)
      modifies this
      ensures State() == if r.Done? then old(State()).(namespace := Some(ns)) else old(State())
      ensures fuse <= old(fuse) <= fuse + 1 && (State() != old(State()) ==> fuse < old(fuse))
      ensures r.Failed? <==> old(namespace).Some? && old(namespace) != Some(ns)
      ensures r.Crashed? <==> old(namespace).None? && old(fuse) == 0
    {
      if namespace.Some? {
        return if namespace.value == ns then Done(()) else Failed;
      }
      if fuse == 0 {
        return Crashed;
      }
      fuse := fuse - 1;
      namespace := Some(ns);
      r := Done(());
    }

    method LoadCandidate(releaseId: Digest) returns (r: Loaded)
      ensures r == Load(h, State(), releaseId)
    {
      if releaseId !in candidates {
        return Missing;
      }
      var c := candidates[releaseId];
      r := if LoadOk(h, releaseId, c) then Found(c) else Damaged;
    }

    method SaveCandidate(c: Candidate) returns (r: Outcome<()>)
      modifies this
      ensures State() == if r.Done? then old(State()).(candidates := old(candidates)[c.releaseId := c])
          else old(State())
      ensures fuse <= old(fuse) <= fuse + 1 && (State() != old(State()) ==> fuse < old(fuse))
      ensures r.Failed? <==> !SaveOk(h, old(State()), c)
      ensures r.Crashed? <==> SaveOk(h, old(State()), c) && old(fuse) == 0
    {
      if c.sequence < 1 || (c.committedAt.Some? && c.committedAt.value != c.publicationTime) {
        return Failed;
      }
      var loaded := LoadCandidate(c.releaseId);
      match loaded {
        case Damaged => return Failed;
        case Missing =>
        case Found(existing) =>
          if !existing.SameRelease(c) {
            return Failed;
          }
          if existing.committedAt.Some? && c.committedAt != existing.committedAt {
            return Failed;
          }
          if existing.committedAt.None? && c.committedAt.Some? && !IsFrozen(c.state) {
            return Failed;
          }
          if Rank(c.state) < Rank(existing.state) || Rank(c.state) > Rank(existing.state) + 1 {
            return Failed;
          }
      }
      if fuse == 0 {
        return Crashed;
      }
      fuse := fuse - 1;
      candidates := candidates[c.releaseId := c];
      r := Done(());
    }

    // The candidates that are not yet committed; an error when there are two.
    method PendingCandidates() returns (r: Option<seq<Candidate>>)
      ensures r.Some? ==> |r.value| <= 1
      ensures r.Some? ==> forall c :: c in r.value <==>
                            c.releaseId in candidates && c == candidates[c.releaseId] && !c.state.Committed?
      ensures r.None? ==> (exists id :: id in candidates && !LoadOk(h, id, candidates[id]))
                          || (exists a, b :: a in candidates && b in candidates && a != b
                                             && !candidates[a].state.Committed? && !candidates[b].state.Committed?)
    {
      var pending: seq<Candidate> := [];
      var todo := candidates.Keys;
      while todo != {}
        invariant todo <= candidates.Keys
        invariant forall id :: id in candidates.Keys - todo ==> LoadOk(h, id, candidates[id])
        invariant forall c :: c in pending <==>
                    c.releaseId in candidates.Keys - todo && c == candidates[c.releaseId] && !c.state.Committed?
        invariant forall i, j :: 0 <= i < j < |pending| ==> pending[i].releaseId != pending[j].releaseId
        decreases todo
      {
        var id :| id in todo;
        todo := todo - {id};
        var c := candidates[id];
        if !LoadOk(h, id, c) {
          return None;
        }
        if !c.state.Committed? {
          forall i | 0 <= i < |pending| ensures pending[i].releaseId != id {
            assert pending[i] in pending;
          }
          pending := pending + [c];
        }
      }
      if |pending| > 1 {
        assert pending[0] in pending && pending[1] in pending;
        return None;
      }
      r := Some(pending);
    }

    // validate_pending_chain on the single pending candidate.
    method ValidatePendingChain(c: Candidate) returns (ok: bool)
      ensures ok <==> PendingChained(State(), c)
    {
      if head.Some? && head.value.sequence < 1 {
        return false;
      }
      if head.None? {
        ok := c.sequence == 1 && c.previousSequence.None?;
      } else if c.state.Activated? && c.sequence == head.value.sequence && c.releaseId == head.value.releaseId {
        ok := c.previousSequence == (if c.sequence == 1 then None else Some(c.sequence - 1));
      } else {
        ok := c.sequence == head.value.sequence + 1 && c.previousSequence == Some(head.value.sequence);
      }
    }

    // freeze_artifact: the rename that publishes the staged copy is the durable write.
    method FreezeArtifact(releaseId: Digest, source: Artifact) returns (r: Outcome<Digest>)
      requires Injective(h)
      modifies this
      ensures State() == if r.Done? then old(State()).(snapshots := old(snapshots)[releaseId := source])
          else old(State())
      ensures fuse <= old(fuse) <= fuse + 1 && (State() != old(State()) ==> fuse < old(fuse))
      ensures r.Done? ==> r.value == h(Manifest(source))
      ensures r.Failed? <==> releaseId in old(snapshots) && old(snapshots)[releaseId] != source
      ensures r.Crashed? <==> releaseId !in old(snapshots) && old(fuse) == 0
    {
      var digest := h(Manifest(source));
      if releaseId in snapshots {
        if h(Manifest(snapshots[releaseId])) != digest {
          return Failed;
        }
        return Done(digest);
      }
      if fuse == 0 {
        return Crashed;
      }
      fuse := fuse - 1;
      snapshots := snapshots[releaseId := source];
      r := Done(digest);
    }

    // upload_snapshot and _publish_from_fd
    method UploadSnapshot(releaseId: Digest, expected: Digest) returns (r: Outcome<Digest>)
      requires Injective(h)
      modifies this
      ensures !r.Failed? ==> releaseId in old(snapshots)
      ensures State() == if r.Done?
          then old(State()).(releases := old(releases)[releaseId := old(snapshots)[releaseId]]) else old(State())
      ensures fuse <= old(fuse) <= fuse + 1 && (State() != old(State()) ==> fuse < old(fuse))
      ensures r.Failed? <==> releaseId !in old(snapshots) || h(Manifest(old(snapshots)[releaseId])) != expected
                             || (releaseId in old(releases) && old(releases)[releaseId] != old(snapshots)[releaseId])
      ensures r.Done? ==> r.value == expected
      ensures r.Crashed? ==> releaseId !in old(releases) && old(fuse) == 0
    {
      if releaseId !in snapshots || h(Manifest(snapshots[releaseId])) != expected {
        return Failed;
      }
      if releaseId in releases {
        if h(Manifest(releases[releaseId])) != expected {
          return Failed;
        }
        return Done(expected);
      }
      if fuse == 0 {
        return Crashed;
      }
      fuse := fuse - 1;
      releases := releases[releaseId := snapshots[releaseId]];
      r := Done(expected);
    }

    method Activate(releaseId: Digest, sequence: nat) returns (r: Outcome<()>)
      modifies this
      ensures State() == if r.Done? then old(State()).(current := Some(Current(releaseId, sequence, false)))
          else old(State())
      ensures fuse <= old(fuse) <= fuse + 1 && (State() != old(State()) ==> fuse < old(fuse))
      ensures r.Failed? <==> !ActivateOk(old(State()), releaseId, sequence)
      ensures r.Crashed? ==> old(fuse) == 0
    {
      if head.Some?
        && (head.value.sequence > sequence || (head.value.sequence == sequence && head.value.releaseId != releaseId)) {
        return Failed;
      }
      if current.Some? && current.value.sequence == sequence && current.value.releaseId != releaseId {
        return Failed;
      }
      if fuse == 0 {
        return Crashed;
      }
      fuse := fuse - 1;
      current := Some(Current(releaseId, sequence, false));
      r := Done(());
    }

    method AppendRecord(record: Record) returns (r: Outcome<()>)
      modifies this
      ensures State() == if r.Done? then old(State()).(records := old(records)[record.sequence := record])
          else old(State())
      ensures fuse <= old(fuse) <= fuse + 1 && (State() != old(State()) ==> fuse < old(fuse))
      ensures r.Failed? <==> record.sequence in old(records) && old(records)[record.sequence] != record
      ensures r.Crashed? ==> record.sequence !in old(records) && old(fuse) == 0
    {
      if record.sequence in records {
        return if records[record.sequence] == record then Done(()) else Failed;
      }
      if fuse == 0 {
        return Crashed;
      }
      fuse := fuse - 1;
      records := records[record.sequence := record];
      r := Done(());
    }

    // The head moves by exactly one existing record; republishing an earlier head changes nothing.
    method PublishFeedHead(sequence: nat, releaseId: Digest) returns (r: Outcome<()>)
      modifies this
      ensures r.Done? ==> State() == if sequence == HeadSequence(old(State())) + 1
                                     then old(State()).(head := Some(FeedHead(sequence, releaseId))) else old(State())
      ensures !r.Done? ==> State() == old(State())
      ensures fuse <= old(fuse) <= fuse + 1 && (State() != old(State()) ==> fuse < old(fuse))
      ensures r.Failed? <==> !PublishHeadOk(old(State()), sequence, releaseId)
      ensures r.Crashed? ==> sequence == HeadSequence(old(State())) + 1 && old(fuse) == 0
    {
      var expected := if head.None? then 1 else head.value.sequence + 1;
      if sequence < expected {
        if head.Some? && head.value.sequence == sequence && head.value.releaseId != releaseId {
          return Failed;
        }
        return Done(());
      }
      if sequence != expected || sequence !in records {
        return Failed;
      }
      if fuse == 0 {
        return Crashed;
      }
      fuse := fuse - 1;
      head := Some(FeedHead(sequence, releaseId));
      r := Done(());
    }

    method Rollback(releaseId: Digest) returns (r: Outcome<()>)
      modifies this
      ensures !r.Failed? ==> releaseId in old(candidates)
      ensures State() == if r.Done?
          then old(State()).(current := Some(Current(releaseId, old(candidates)[releaseId].sequence, true)))
                         else old(State())
      ensures fuse <= old(fuse) <= fuse + 1 && (State() != old(State()) ==> fuse < old(fuse))
      ensures r.Failed? <==> !RollbackOk(h, old(State()), releaseId)
      ensures r.Crashed? ==> old(fuse) == 0
    {
      var loaded := LoadCandidate(releaseId);
      if !loaded.Found? || !loaded.candidate.state.Committed? {
        return Failed;
      }
      if releaseId !in releases || h(Manifest(releases[releaseId])) != loaded.candidate.artifactDigest {
        return Failed;
      }
      if fuse == 0 {
        return Crashed;
      }
      fuse := fuse - 1;
      current := Some(Current(releaseId, loaded.candidate.sequence, true));
      r := Done(());
    }

    // read_feed
    method ReadFeed() returns (r: Option<seq<Record>>)
      ensures r == if FeedReadable(h, State()) then Some(Feed(State())) else None
    {
      if head.None? {
        return Some([]);
      }
      if namespace.None? || head.value.sequence < 1 {
        assert namespace.None? ==> !RecordReadable(h, State(), 1);
        return None;
      }
      var acquired: seq<Record> := [];
      for k := 1 to head.value.sequence + 1
        invariant forall j :: 1 <= j < k ==> RecordReadable(h, State(), j)
        invariant acquired == Prefix(records, k - 1)
      {
        var fine := CheckStoredRecord(k);
        if !fine {
          assert !RecordReadable(h, State(), k);
          return None;
        }
        acquired := acquired + [records[k]];
      }
      assert RecordReadable(h, State(), head.value.sequence);
      assert acquired[|acquired| - 1] == records[head.value.sequence];
      if acquired[|acquired| - 1].releaseId != head.value.releaseId {
        return None;
      }
      r := Some(acquired);
    }

    method CheckStoredRecord(sequence: nat) returns (ok: bool)
      requires namespace.Some? && sequence >= 1
      ensures ok <==> RecordReadable(h, State(), sequence)
    {
      if sequence !in records {
        return false;
      }
      var r := records[sequence];
      if r.sequence != sequence || r.previousSequence != (if sequence == 1 then None else Some(sequence - 1)) {
        return false;
      }
      var loaded := LoadCandidate(r.releaseId);
      if !loaded.Found? || !IsFrozen(loaded.candidate.state) || r != ExpectedRecord(loaded.candidate) {
        return false;
      }
      var c := loaded.candidate;
      for i := 0 to |r.events|
        invariant forall j :: 0 <= j < i ==> r.events[j].feedId == namespace.value.feedId
      {
        if r.events[i].feedId != namespace.value.feedId {
          return false;
        }
      }
      ok := && c.buildConfig == namespace.value.buildConfig
            && c.releaseId in releases
            && h(Manifest(releases[c.releaseId])) == c.artifactDigest
            && ReferencesHeld(namespace.value.base, c, releases[c.releaseId]);
    }
  }

  // The pending candidate continues the log: it names the sequence before its own,
  // and it is the one after the head, or the head itself when the process died just
  // before it was marked committed.
  predicate PendingChained(s: Durable, c: Candidate) {
    && (s.head.Some? ==> HeadSequence(s) >= 1)
    && c.sequence >= 1
    && c.previousSequence == (if c.sequence == 1 then None else Some(c.sequence - 1))
    && (c.sequence == HeadSequence(s) + 1 || (c.state.Activated? && s.head == Some(FeedHead(c.sequence, c.releaseId))))
  }

  predicate ActivateOk(s: Durable, releaseId: Digest, sequence: nat) {
    && (s.head.Some? ==> s.head.value.sequence < sequence || s.head.value == FeedHead(sequence, releaseId))
    && (s.current.Some? && s.current.value.sequence == sequence ==> s.current.value.releaseId == releaseId)
  }

  predicate PublishHeadOk(s: Durable, sequence: nat, releaseId: Digest) {
    var n := HeadSequence(s);
    if sequence <= n then s.head.Some? && s.head.value.sequence == sequence ==> s.head.value.releaseId == releaseId
    else sequence == n + 1 && sequence in s.records
  }

  predicate RollbackOk(h: Hash, s: Durable, releaseId: Digest) {
    && Load(h, s, releaseId).Found?
    && s.candidates[releaseId].state.Committed?
    && releaseId in s.releases
    && h(Manifest(s.releases[releaseId])) == s.candidates[releaseId].artifactDigest
  }
}
