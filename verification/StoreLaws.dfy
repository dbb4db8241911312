/** What the durable store reads back and lets change, field by field
    (src/hwskill/publishing/store.py). */
module StoreLaws {
  import opened Options
  import opened Documents
  import opened Store

  // The moves that a candidate's state may make.
  const MOVES := {(Prepared, Uploaded), (Uploaded, Checked), (Checked, Activated), (Activated, Committed)}

  // A stored candidate reads back exactly if it stands under the ID that its inputs
  // hash to, and has the publication time as commit time exactly from activation on.
  lemma CandidateReads(h: Hash, s: Durable, id: Digest)
    ensures Load(h, s, id) == Missing <==> id !in s.candidates
    ensures Load(h, s, id).Found? <==>
              && id in s.candidates
              && var c := s.candidates[id];
                 && c.releaseId == id
                 && id == h(ReleaseInputs(c.sourceCommit, c.catalogDigest, c.snapshotDigest, c.buildConfig))
                 && c.sequence > 0
                 && c.committedAt == (if c.state in {Activated, Committed} then Some(c.publicationTime) else None)
    ensures Load(h, s, id).Found? ==> Load(h, s, id).candidate == s.candidates[id]
  {
  }

  // Saving over a candidate changes its state by at most one move, and its commit time
  // at most from nothing to the publication time of an activated candidate.
  lemma SaveChanges(h: Hash, s: Durable, c: Candidate)
    requires c.releaseId in s.candidates
    ensures var before := s.candidates[c.releaseId];
            SaveOk(h, s, c) <==>
              && Load(h, s, c.releaseId).Found?
              && c == before.(state := c.state, committedAt := c.committedAt)
              && (c.state == before.state || (before.state, c.state) in MOVES)
              && (if before.committedAt.Some? then c.committedAt == before.committedAt
                  else c.committedAt == None
                       || (c.committedAt == Some(c.publicationTime) && c.state in {Activated, Committed}))
  {
  }

  lemma SaveNew(h: Hash, s: Durable, c: Candidate)
    requires c.releaseId !in s.candidates
    ensures SaveOk(h, s, c) <==> c.sequence > 0 && c.committedAt in {None, Some(c.publicationTime)}
  {
  }

  // A commit time can be frozen again at the same instant and at no other.
  lemma FreezeAgain(c: Candidate, time: string, again: string)
    requires c.FreezeCommittedAt(time).Some?
    ensures var d := c.FreezeCommittedAt(time).value;
            && d == c.(committedAt := Some(time))
            && d.FreezeCommittedAt(again) == if again == time then Some(d) else None
    ensures c.committedAt.None? ==> c.FreezeCommittedAt(again).Some?
  {
  }

  // A record of the feed reads back exactly if it is its candidate's, at its place, of
  // this feed, and its release stands intact with everything the events point to.
  lemma RecordReads(h: Hash, s: Durable, k: nat)
    requires k >= 1
    ensures RecordReadable(h, s, k) <==>
              && s.namespace.Some? && k in s.records && Load(h, s, s.records[k].releaseId).Found?
              && var c := s.candidates[s.records[k].releaseId];
                 && c.state in {Activated, Committed}
                 && c.sequence == k && c.previousSequence == (if k == 1 then None else Some(k - 1))
                 && s.records[k] == Record(c.releaseId, k, c.sourceCommit, c.publicationTime, c.publicationTime,
                                           c.previousSequence, c.events)
                 && c.buildConfig == s.namespace.value.buildConfig
                 && (forall e :: e in c.events ==> e.feedId == s.namespace.value.feedId)
                 && c.releaseId in s.releases && h(Manifest(s.releases[c.releaseId])) == c.artifactDigest
                 && var a, base := s.releases[c.releaseId], s.namespace.value.base;
                    forall e :: e in c.events ==> Pointed(base, c.releaseId, a, e)
  {
    if k in s.records && s.records[k].releaseId in s.candidates {
      var c := s.candidates[s.records[k].releaseId];
      if c.releaseId in s.releases && s.namespace.Some? {
        ReferencesMeaning(s.namespace.value.base, c, s.releases[c.releaseId]);
      }
      assert forall i :: 0 <= i < |c.events| ==> c.events[i] in c.events;
    }
    hide ReferencesHeld;
  }

  // The page and the machine file of an event are files of its release.
  ghost predicate Pointed(base: string, releaseId: Digest, a: Artifact, e: Event) {
    && e.pageUrl == Url(base, releaseId, e.pageUrl.target) && Stored(a, e.pageUrl.target)
    && e.machineUrl == Url(base, releaseId, e.machineUrl.target) && Stored(a, e.machineUrl.target)
  }

  // Every release has the file of recommendations.
  ghost predicate Stored(a: Artifact, t: Target) {
    (forall p :: t == PageOf(p) ==> p in a.pages) && (forall id :: t == InstallOf(id) ==> id in a.installs)
  }

  lemma ReferencesMeaning(base: string, c: Candidate, a: Artifact)
    ensures ReferencesHeld(base, c, a) <==> forall e :: e in c.events ==> Pointed(base, c.releaseId, a, e)
  {
    forall e | e in c.events ensures ReferenceHeld(base, c, a, e) <==> Pointed(base, c.releaseId, a, e) {
      TargetHeld(base, c.releaseId, a, e.pageUrl);
      TargetHeld(base, c.releaseId, a, e.machineUrl);
    }
    hide ReferenceHeld, Pointed;
    if forall e :: e in c.events ==> Pointed(base, c.releaseId, a, e) {
      forall i | 0 <= i < |c.events| ensures ReferenceHeld(base, c, a, c.events[i]) {
        assert c.events[i] in c.events;
      }
    }
    if ReferencesHeld(base, c, a) {
      forall e | e in c.events ensures Pointed(base, c.releaseId, a, e) {
        var i :| 0 <= i < |c.events| && c.events[i] == e;
      }
    }
  }

  lemma TargetHeld(base: string, releaseId: Digest, a: Artifact, u: Url)
    ensures UrlHeld(base, releaseId, a, u) <==> u == Url(base, releaseId, u.target) && Stored(a, u.target)
  {
  }

  // --- The entry point and the head ---

  // The entry point never moves behind the head, and no second release takes a
  // sequence that the head or the entry point has.
  lemma ActivationRefused(s: Durable, id: Digest, sequence: nat)
    ensures !ActivateOk(s, id, sequence) <==>
              || (exists at: nat, other: Digest :: s.head == Some(FeedHead(at, other))
                                      && (sequence < at || (sequence == at && id != other)))
              || (exists other, rollback :: s.current == Some(Current(other, sequence, rollback)) && id != other)
  {
    if s.head.Some? {
      assert s.head == Some(FeedHead(s.head.value.sequence, s.head.value.releaseId));
    }
    if s.current.Some? && s.current.value.sequence == sequence {
      assert s.current == Some(Current(s.current.value.releaseId, sequence, s.current.value.rollback));
    }
  }

  // The head moves by one existing record; where it is or was it may be set again,
  // but not to another release.
  lemma HeadMoves(s: Durable, sequence: nat, id: Digest)
    ensures s.head == None ==> (PublishHeadOk(s, sequence, id) <==> sequence == 0 || (sequence == 1 && 1 in s.records))
    ensures forall at: nat, other: Digest :: s.head == Some(FeedHead(at, other)) ==>
              (PublishHeadOk(s, sequence, id) <==>
                 || sequence < at
                 || (sequence == at && id == other)
                 || (sequence == at + 1 && sequence in s.records))
  {
  }

  // A rollback goes to a committed release that is intact.
  lemma RollbackReads(h: Hash, s: Durable, id: Digest)
    ensures RollbackOk(h, s, id) <==>
              exists c :: Load(h, s, id) == Found(c) && c.state == Committed && id in s.releases
                          && h(Manifest(s.releases[id])) == c.artifactDigest
  {
  }

  // A candidate continues the log if it names the sequence before its own and comes
  // right after the head, or is the head itself, left activated by a crash.
  lemma PendingContinues(s: Durable, c: Candidate)
    requires s.head.Some? ==> s.head.value.sequence > 0
    ensures PendingChained(s, c) <==>
              || (s.head == None && c.sequence == 1 && c.previousSequence == None)
              || (s.head.Some? && c.sequence == s.head.value.sequence + 1
                  && c.previousSequence == Some(s.head.value.sequence))
              || (s.head == Some(FeedHead(c.sequence, c.releaseId)) && c.state == Activated
                  && c.previousSequence == (if c.sequence == 1 then None else Some(c.sequence - 1)))
  {
  }
}
