/** Each stage of _advance is a few of the recovery writes of Next. */
module Stages {
  import opened Options
  import opened Documents
  import opened Store
  import opened PublisherLog
  import opened Paths

  // The candidate with its next state, as _advance saves it.
  function Successor(c: Candidate): Candidate {
    match c.state
    case Prepared => c.Advance(Uploaded)
    case Uploaded => c.Advance(Checked)
    case Checked => c.Advance(Activated).(committedAt := Some(c.publicationTime))
    case Activated => c.Advance(Committed)
    case Committed => c
  }

  ghost predicate Stored(s: Durable, c: Candidate) {
    c.releaseId in s.candidates && s.candidates[c.releaseId] == c
  }

  // save_candidate never refuses the next state.
  lemma SuccessorSaves(cfg: Config, s: Durable, c: Candidate)
    requires Inv(cfg, s) && Stored(s, c) && !c.state.Committed?
    ensures SaveOk(cfg.h, s, Successor(c))
  {
    hide Inv;
    CandidateFacts(cfg, s, c.releaseId);
    CandidateLoads(cfg, s, c.releaseId);
  }

  lemma CandidateLoads(cfg: Config, s: Durable, id: Digest)
    requires Inv(cfg, s) && id in s.candidates
    ensures LoadOk(cfg.h, id, s.candidates[id]) && Load(cfg.h, s, id) == Found(s.candidates[id])
  {
    CandidateAt(cfg, s, id);
  }

  // Saving the next state, once the stage's own writes are done.
  ghost predicate MayPass(cfg: Config, s: Durable, c: Candidate) {
    match c.state
    case Prepared => c.releaseId in s.releases
    case Uploaded => c.releaseId in s.releases && ReferencesHeld(cfg.base, c, s.releases[c.releaseId])
    case Checked => s.current == Some(Current(c.releaseId, c.sequence, false))
    case Activated => c.sequence in s.records && c.sequence <= HeadSequence(s)
    case Committed => false
  }

  lemma PassIsNext(cfg: Config, s: Durable, c: Candidate)
    requires Inv(cfg, s) && Stored(s, c) && MayPass(cfg, s, c)
    ensures Recovers(cfg, s, Save(s, Successor(c)), c.releaseId)
    ensures Stored(Save(s, Successor(c)), Successor(c)) && Successor(c).releaseId == c.releaseId
    ensures Rank(Successor(c).state) == Rank(c.state) + 1
  {
    hide Inv, Next, Recovers, MayPass;
    PassUncommitted(cfg, s, c);
    PassNext(cfg, s, c);
    RecoversNext(cfg, s, c.releaseId);
  }

  lemma PassUncommitted(cfg: Config, s: Durable, c: Candidate)
    requires MayPass(cfg, s, c)
    ensures !c.state.Committed?
  {
  }

  lemma PassNext(cfg: Config, s: Durable, c: Candidate)
    requires Inv(cfg, s) && Stored(s, c) && MayPass(cfg, s, c)
    ensures Next(cfg, s, c.releaseId) == Some(Save(s, Successor(c)))
  {
    hide Inv, ReferencesHeld;
    CandidateFacts(cfg, s, c.releaseId);
  }

  lemma SameOrNext(cfg: Config, s: Durable, t: Durable, id: Digest)
    requires id in s.candidates && s.candidates[id].releaseId == id && (t == s || Next(cfg, s, id) == Some(t))
    ensures Recovers(cfg, s, t, id)
  {
    hide Next, Recovers;
    if t == s {
      RecoversSame(cfg, s, id);
    } else {
      RecoversNext(cfg, s, id);
    }
  }

  lemma CandidateDigest(cfg: Config, s: Durable, id: Digest)
    requires Inv(cfg, s) && id in s.candidates
    ensures id in s.snapshots && cfg.h(Manifest(s.snapshots[id])) == s.candidates[id].artifactDigest
  {
    CandidateAt(cfg, s, id);
  }

  // upload_snapshot succeeds and is a recovery write, or repeats one.
  lemma UploadIsNext(cfg: Config, s: Durable, c: Candidate)
    requires Inv(cfg, s) && Stored(s, c) && c.state.Prepared?
    ensures c.releaseId in s.snapshots && cfg.h(Manifest(s.snapshots[c.releaseId])) == c.artifactDigest
    ensures c.releaseId in s.releases ==> s.releases[c.releaseId] == s.snapshots[c.releaseId]
    ensures Recovers(cfg, s, s.(releases := s.releases[c.releaseId := s.snapshots[c.releaseId]]), c.releaseId)
  {
    hide Inv, Recovers;
    CandidateFacts(cfg, s, c.releaseId);
    CandidateDigest(cfg, s, c.releaseId);
    var t := s.(releases := s.releases[c.releaseId := s.snapshots[c.releaseId]]);
    if c.releaseId in s.releases {
      assert t.releases == s.releases;
    }
    SameOrNext(cfg, s, t, c.releaseId);
  }

  // activate succeeds and is a recovery write, or repeats one.
  lemma ActivateIsNext(cfg: Config, s: Durable, c: Candidate)
    requires Inv(cfg, s) && Stored(s, c) && c.state.Checked?
    ensures ActivateOk(s, c.releaseId, c.sequence)
    ensures Recovers(cfg, s, s.(current := Some(Current(c.releaseId, c.sequence, false))), c.releaseId)
  {
    hide Inv, Recovers;
    CandidateFacts(cfg, s, c.releaseId);
    CurrentOwner(cfg, s, c);
    SameOrNext(cfg, s, s.(current := Some(Current(c.releaseId, c.sequence, false))), c.releaseId);
  }

  lemma CurrentOwner(cfg: Config, s: Durable, c: Candidate)
    requires Inv(cfg, s) && Stored(s, c) && c.state.Checked?
    ensures s.current.Some? && s.current.value.sequence == c.sequence ==> s.current.value.releaseId == c.releaseId
  {
    CandidateFacts(cfg, s, c.releaseId);
    if s.current.Some? && s.current.value.sequence == c.sequence {
      CandidateFacts(cfg, s, s.current.value.releaseId);
      assert OnePending(s.candidates);
    }
    hide Inv;
  }

  // append_record succeeds and is a recovery write, or repeats one.
  lemma AppendIsNext(cfg: Config, s: Durable, c: Candidate)
    requires Inv(cfg, s) && Stored(s, c) && c.state.Activated?
    ensures c.sequence in s.records ==> s.records[c.sequence] == ExpectedRecord(c)
    ensures Recovers(cfg, s, s.(records := s.records[c.sequence := ExpectedRecord(c)]), c.releaseId)
  {
    hide Inv, Recovers;
    CandidateFacts(cfg, s, c.releaseId);
    CandidateRecord(cfg, s, c.releaseId);
    var t := s.(records := s.records[c.sequence := ExpectedRecord(c)]);
    if c.sequence in s.records {
      assert t.records == s.records;
    }
    SameOrNext(cfg, s, t, c.releaseId);
  }

  // publish_feed_head succeeds and is a recovery write, or repeats one.
  lemma PublishIsNext(cfg: Config, s: Durable, c: Candidate)
    requires Inv(cfg, s) && Stored(s, c) && c.state.Activated? && c.sequence in s.records
    ensures PublishHeadOk(s, c.sequence, c.releaseId)
    ensures var t := if c.sequence == HeadSequence(s) + 1 then s.(head := Some(FeedHead(c.sequence, c.releaseId)))
        else s;
            Recovers(cfg, s, t, c.releaseId) && c.sequence <= HeadSequence(t)
  {
    hide Inv, Recovers;
    CandidateFacts(cfg, s, c.releaseId);
    CandidateRecord(cfg, s, c.releaseId);
    var t := if c.sequence == HeadSequence(s) + 1 then s.(head := Some(FeedHead(c.sequence, c.releaseId))) else s;
    SameOrNext(cfg, s, t, c.releaseId);
  }
}
