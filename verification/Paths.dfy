/** Sequences of durable writes: the recovery of one candidate, and any run of
    the publisher machine. */
module Paths {
  import opened Documents
  import opened Store
  import opened PublisherLog
  import opened PublisherRuns
  import opened Recovery

  // t is s after some recovery writes for the candidate.
  ghost function Iterate(cfg: Config, s: Durable, id: Digest, n: nat): (t: Durable)
    requires id in s.candidates && s.candidates[id].releaseId == id
    ensures id in t.candidates && t.candidates[id].releaseId == id
    decreases n
  {
    if n == 0 || Next(cfg, s, id).None? then s else
      NextDecreases(cfg, s, id);
      Iterate(cfg, Next(cfg, s, id).value, id, n - 1)
  }

  ghost predicate Recovers(cfg: Config, s: Durable, t: Durable, id: Digest) {
    id in s.candidates && s.candidates[id].releaseId == id && exists n: nat :: Iterate(cfg, s, id, n) == t
  }

  lemma RecoversSame(cfg: Config, s: Durable, id: Digest)
    requires id in s.candidates && s.candidates[id].releaseId == id
    ensures Recovers(cfg, s, s, id)
  {
    assert Iterate(cfg, s, id, 0) == s;
  }

  lemma RecoversNext(cfg: Config, s: Durable, id: Digest)
    requires id in s.candidates && s.candidates[id].releaseId == id && Next(cfg, s, id).Some?
    ensures Recovers(cfg, s, Next(cfg, s, id).value, id)
  {
    NextDecreases(cfg, s, id);
    var t := Next(cfg, s, id).value;
    assert Iterate(cfg, t, id, 0) == t;
    assert Iterate(cfg, s, id, 1) == t;
  }

  lemma {:induction false} IterateAdd(cfg: Config, s: Durable, id: Digest, m: nat, n: nat)
    requires id in s.candidates && s.candidates[id].releaseId == id
    ensures exists k: nat :: Iterate(cfg, s, id, k) == Iterate(cfg, Iterate(cfg, s, id, m), id, n)
    decreases m
  {
    hide Next;
    if m == 0 || Next(cfg, s, id).None? {
      assert Iterate(cfg, s, id, m) == s;
    } else {
      NextDecreases(cfg, s, id);
      var t := Next(cfg, s, id).value;
      IterateAdd(cfg, t, id, m - 1, n);
      var k: nat :| Iterate(cfg, t, id, k) == Iterate(cfg, Iterate(cfg, t, id, m - 1), id, n);
      assert Iterate(cfg, s, id, k + 1) == Iterate(cfg, t, id, k);
    }
  }

  lemma RecoversTrans(cfg: Config, s: Durable, t: Durable, u: Durable, id: Digest)
    requires Recovers(cfg, s, t, id) && Recovers(cfg, t, u, id)
    ensures Recovers(cfg, s, u, id)
  {
    var m: nat :| Iterate(cfg, s, id, m) == t;
    var n: nat :| Iterate(cfg, t, id, n) == u;
    IterateAdd(cfg, s, id, m, n);
  }

  lemma {:induction false} IterateKeeps(cfg: Config, s: Durable, id: Digest, n: nat)
    requires Inv(cfg, s) && id in s.candidates && s.candidates[id].releaseId == id
    ensures Inv(cfg, Iterate(cfg, s, id, n))
    ensures Complete(cfg, Iterate(cfg, s, id, n), id) == Complete(cfg, s, id)
    ensures Reaches(cfg, s, Iterate(cfg, s, id, n))
    decreases n
  {
    hide Inv, Next, Step;
    if n == 0 || Next(cfg, s, id).None? {
      ReachesSame(cfg, s);
    } else {
      NextDecreases(cfg, s, id);
      NextKeeps(cfg, s, id);
      var t := Next(cfg, s, id).value;
      IterateKeeps(cfg, t, id, n - 1);
      NextIsStep(cfg, s, id);
      ReachesStep(cfg, s, t);
      ReachesTrans(cfg, s, t, Iterate(cfg, t, id, n - 1));
    }
  }

  lemma NextIsStep(cfg: Config, s: Durable, id: Digest)
    requires id in s.candidates && Next(cfg, s, id).Some?
    ensures Step(cfg, s, Next(cfg, s, id).value)
  {
    hide Next;
  }

  // A sequence of durable writes leads from s to t.
  ghost predicate Reaches(cfg: Config, s: Durable, t: Durable) {
    exists tr: seq<Durable> :: Path(cfg, tr, s, t)
  }

  ghost predicate Path(cfg: Config, tr: seq<Durable>, s: Durable, t: Durable) {
    tr != [] && tr[0] == s && tr[|tr| - 1] == t && Writes(cfg, tr)
  }

  lemma ReachesSame(cfg: Config, s: Durable)
    ensures Reaches(cfg, s, s)
  {
    assert Path(cfg, [s], s, s);
  }

  lemma ReachesStep(cfg: Config, s: Durable, t: Durable)
    requires Step(cfg, s, t)
    ensures Reaches(cfg, s, t)
  {
    hide Step;
    assert Path(cfg, [s, t], s, t);
  }

  lemma ReachesTrans(cfg: Config, s: Durable, t: Durable, u: Durable)
    requires Reaches(cfg, s, t) && Reaches(cfg, t, u)
    ensures Reaches(cfg, s, u)
  {
    hide Step;
    var a: seq<Durable> :| Path(cfg, a, s, t);
    var b: seq<Durable> :| Path(cfg, b, t, u);
    var c := a + b[1..];
    forall i | 0 <= i < |c| - 1 ensures Step(cfg, c[i], c[i + 1]) {
      if i < |a| - 1 {
        assert Step(cfg, a[i], a[i + 1]);
      } else {
        assert Step(cfg, b[i - |a| + 1], b[i - |a| + 2]);
      }
    }
    assert Path(cfg, c, s, u);
  }

  lemma RecoversReaches(cfg: Config, s: Durable, t: Durable, id: Digest)
    requires Inv(cfg, s) && Recovers(cfg, s, t, id)
    ensures Inv(cfg, t) && Reaches(cfg, s, t) && id in t.candidates && t.candidates[id].releaseId == id
    ensures Complete(cfg, t, id) == Complete(cfg, s, id)
  {
    hide Inv, Reaches;
    var n: nat :| Iterate(cfg, s, id, n) == t;
    IterateKeeps(cfg, s, id, n);
  }

  // The end of a recovery is reached by its writes.
  lemma {:induction false} CompleteReached(cfg: Config, s: Durable, id: Digest)
    requires Inv(cfg, s) && id in s.candidates && s.candidates[id].releaseId == id
    ensures Reaches(cfg, s, Complete(cfg, s, id)) && Next(cfg, Complete(cfg, s, id), id).None?
    decreases Left(s, id)
  {
    hide Inv, Next, Step;
    if Next(cfg, s, id).None? {
      ReachesSame(cfg, s);
    } else {
      NextDecreases(cfg, s, id);
      NextKeeps(cfg, s, id);
      var t := Next(cfg, s, id).value;
      CompleteReached(cfg, t, id);
      NextIsStep(cfg, s, id);
      ReachesStep(cfg, s, t);
      ReachesTrans(cfg, s, t, Complete(cfg, t, id));
    }
  }
}
