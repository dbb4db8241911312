/** Publishing a directory under a name that others may also create
    (freeze_artifact and _publish_from_fd in src/hwskill/publishing/store.py,
    install_reviewed_directory in src/hwskill/verification/installer.py). */
module Publication {
  import opened Options
  import opened Trees

  type ManifestHash = map<string, Mark> -> nat

  // The two digests behind a manifest digest.
  datatype Digests = Digests(body: BodyHash, manifest: ManifestHash)
  {
    ghost predicate Injective() {
      InjectiveBodies(body) && forall x, y :: manifest(x) == manifest(y) ==> x == y
    }

    function Of(t: Tree): nat {
      manifest(Manifest(body, "", t))
    }
  }

  lemma SameDigest(d: Digests, a: Tree, b: Tree)
    requires d.Injective() && Listed(a) && Listed(b) && d.Of(a) == d.Of(b)
    ensures a == b
  {
    ManifestFaithful(d.body, "", a, b);
  }

  // Other processes: what they make of the directory before our i-th look at it,
  // and what the i-th reading of the source yields while they change it.
  datatype Others = Others(act: (nat, map<string, Tree>) -> map<string, Tree>, source: nat -> Tree)

  ghost predicate AllListed(m: map<string, Tree>) {
    forall n :: n in m ==> Listed(m[n])
  }

  // They neither see nor touch the random staging name, and what they leave are
  // directories.
  ghost predicate Fair(o: Others, staging: string) {
    && (forall i, m :: AllListed(m) ==> AllListed(o.act(i, m)))
    && (forall i, m :: staging in m <==> staging in o.act(i, m))
    && (forall i, m :: staging in m && staging in o.act(i, m) ==> o.act(i, m)[staging] == m[staging])
    && (forall i, m :: o.act(i, m) - {staging} == o.act(i, m - {staging}))
    && (forall i :: Listed(o.source(i)))
  }

  lemma FairLook(o: Others, staging: string, i: nat, m: map<string, Tree>)
    requires Fair(o, staging) && AllListed(m)
    ensures var t := o.act(i, m);
            && AllListed(t) && (staging in m <==> staging in t) && (staging in t ==> t[staging] == m[staging])
            && t - {staging} == o.act(i, m - {staging})
  {
  }

  lemma FairSource(o: Others, staging: string, i: nat)
    requires Fair(o, staging)
    ensures Listed(o.source(i))
  {
  }

  lemma StagedAway(m: map<string, Tree>, staging: string, t: Tree)
    requires AllListed(m) && Listed(t)
    ensures m[staging := t] - {staging} == m - {staging} && AllListed(m[staging := t])
  {
  }

  lemma RenamedAway(m: map<string, Tree>, staging: string, name: string)
    requires AllListed(m) && staging in m && staging != name
    ensures var after := m[name := m[staging]] - {staging};
            after - {staging} == (m - {staging})[name := m[staging]] && AllListed(after) && staging !in after
  {
  }

  // What the others alone make of the directory, from look i up to look n.
  ghost function Alone(o: Others, m: map<string, Tree>, i: nat, n: nat): map<string, Tree>
    decreases n
  {
    if n <= i then m else o.act(n - 1, Alone(o, m, i, n - 1))
  }

  lemma AloneNow(o: Others, m: map<string, Tree>, i: nat)
    ensures Alone(o, m, i, i) == m
  {
  }

  class SharedDirectory {
    const others: Others
    var entries: map<string, Tree>
    var looks: nat
    var readings: nat

    constructor (others: Others, entries: map<string, Tree>)
      ensures this.others == others && this.entries == entries && looks == 0 && readings == 0
    {
      this.others, this.entries := others, entries;
      looks, readings := 0, 0;
    }

    ghost predicate Sound(staging: string)
      reads this
    {
      Fair(others, staging) && AllListed(entries)
    }

    // The directory without this process's own staging entry.
    ghost function Seen(staging: string): map<string, Tree>
      reads this
    {
      entries - {staging}
    }

    // What it would be now if the others had acted alone since then.
    ghost function Left(before: map<string, Tree>, since: nat): map<string, Tree>
      reads this
    {
      Alone(others, before, since, looks)
    }

    // Others go first whenever this process touches the directory.
    method Look(staging: string, ghost before: map<string, Tree>, ghost since: nat)
      requires Sound(staging) && since <= looks && Seen(staging) == Left(before, since)
      modifies this
      ensures Sound(staging) && looks == old(looks) + 1 && readings == old(readings)
      ensures staging in entries <==> staging in old(entries)
      ensures staging in entries ==> entries[staging] == old(entries)[staging]
      ensures Seen(staging) == Left(before, since)
    {
      FairLook(others, staging, looks, entries);
      hide Fair, AllListed;
      entries := others.act(looks, entries);
      looks := looks + 1;
    }

    method ReadSource(ghost staging: string) returns (t: Tree)
      requires Sound(staging)
      modifies this`readings
      ensures readings == old(readings) + 1 && t == others.source(old(readings)) && Listed(t)
    {
      FairSource(others, staging, readings);
      hide Fair;
      t := others.source(readings);
      readings := readings + 1;
    }

    // mkdir and the copy into it.
    method Stage(staging: string, ghost before: map<string, Tree>, ghost since: nat) returns (ok: bool)
      requires Sound(staging) && since <= looks && Seen(staging) == Left(before, since)
      modifies this
      ensures Sound(staging) && since <= looks && Seen(staging) == Left(before, since)
      ensures ok ==> staging in entries && entries[staging] == others.source(old(readings))
      ensures ok ==> readings == old(readings) + 1
      ensures ok <==> staging !in old(entries)
      ensures looks == old(looks) + 1
    {
      hide Fair, AllListed, Alone;
      Look(staging, before, since);
      if staging in entries {
        return false;
      }
      var copied := ReadSource(staging);
      StagedAway(entries, staging, copied);
      entries := entries[staging := copied];
      ok := true;
    }

    // renameat2 with RENAME_NOREPLACE: nothing is ever overwritten.
    method RenameNoReplace(staging: string, name: string, ghost before: map<string, Tree>, ghost since: nat)
      returns (ok: bool)
      requires Sound(staging) && staging in entries && staging != name
      requires since <= looks && Seen(staging) == Left(before, since)
      modifies this
      ensures Sound(staging) && since <= looks
      ensures ok <==> name !in Left(before, since)
      ensures ok ==> staging !in entries && Seen(staging) == Left(before, since)[name := old(entries)[staging]]
      ensures !ok ==> staging in entries && Seen(staging) == Left(before, since)
      ensures looks == old(looks) + 1
    {
      hide Fair, AllListed, Alone;
      Look(staging, before, since);
      assert name in entries <==> name in Seen(staging);
      if name in entries {
        return false;
      }
      RenamedAway(entries, staging, name);
      entries := entries[name := entries[staging]] - {staging};
      ok := true;
    }

    // Whatever happens, the directory is what the others alone would have left, or
    // that with the wanted tree under the name, where they had left nothing.
    twostate predicate Published(name: string, staging: string, wanted: Tree, ok: bool)
      reads this
    {
      var left := Left(old(Seen(staging)), old(looks));
      && (ok ==> name in entries && entries[name] == wanted)
      && (Seen(staging) == left || (ok && name !in left && Seen(staging) == left[name := wanted]))
    }

    // Exactly when a publication succeeds. At its first look, the name holds the wanted
    // tree already; or it is free, the source reads as that tree twice, and when the
    // staging directory is renamed the name is still free or holds the same tree.
    ghost predicate Publishable(before: map<string, Tree>, since: nat, reading: nat, name: string, unused: bool,
                                wanted: Tree)
    {
      var first, last := Alone(others, before, since, since + 1), Alone(others, before, since, since + 4);
      if name in first then first[name] == wanted
      else
        && unused && others.source(reading) == wanted && others.source(reading + 1) == wanted
        && (name in last ==> last[name] == wanted)
    }

    // The same for an installation, which reads the source once more, wants a skill's
    // file in it, and yields to whoever comes first.
    ghost predicate Installable(before: map<string, Tree>, since: nat, reading: nat, name: string, wanted: Tree) {
      var first, last := Alone(others, before, since, since + 1), Alone(others, before, since, since + 4);
      && HoldsFile(wanted, "SKILL.md")
      && if name in first then first[name] == wanted
         else others.source(reading) == wanted && name !in last
    }

    lemma {:induction false} AloneQuiet(before: map<string, Tree>, i: nat, n: nat)
      requires forall k, m :: others.act(k, m) == m
      ensures Alone(others, before, i, n) == before
    {
      if n > i {
        AloneQuiet(before, i, n - 1);
      }
    }

    // With nobody else about, a stable tree is published under every name that is free
    // or holds it, and an installation needs nothing but the skill's file besides.
    lemma QuietSucceeds(before: map<string, Tree>, since: nat, reading: nat, name: string, wanted: Tree)
      requires forall k, m :: others.act(k, m) == m
      requires forall k :: others.source(k) == wanted
      ensures Publishable(before, since, reading, name, true, wanted) <==> (name in before ==> before[name] == wanted)
      ensures Installable(before, since, reading, name, wanted) <==>
                HoldsFile(wanted, "SKILL.md") && (name in before ==> before[name] == wanted)
    {
      AloneQuiet(before, since, since + 1);
      AloneQuiet(before, since, since + 4);
    }

    // _publish_from_fd
    method PublishTree(d: Digests, name: string, staging: string, digest: nat, ghost wanted: Tree) returns (ok: bool)
      requires Sound(staging) && d.Injective() && Listed(wanted) && digest == d.Of(wanted) && staging != name
      modifies this
      ensures Sound(staging) && Published(name, staging, wanted, ok)
      ensures ok <==> Publishable(old(Seen(staging)), old(looks), old(readings), name, staging !in old(entries), wanted)
    {
      hide Fair, Alone, Manifest, ScanDirectories, ScanFiles, Listed;
      ghost var before, since := Seen(staging), looks;
      AloneNow(others, before, since);
      Look(staging, before, since);
      if name in entries {
        ok := CheckExisting(d, name, digest, wanted);
        return;
      }
      var staged := Stage(staging, before, since);
      if !staged {
        return false;
      }
      var again := ReadSource(staging);
      Look(staging, before, since);
      var manifest := ReadTree(d.body, "", entries[staging]);
      if d.Of(again) != digest || d.manifest(manifest) != digest {
        return false;
      }
      SameDigest(d, entries[staging], wanted);
      SameDigest(d, again, wanted);
      var renamed := RenameNoReplace(staging, name, before, since);
      assert name in entries <==> name in Seen(staging);
      if renamed {
        return true;
      }
      ok := CheckExisting(d, name, digest, wanted);
    }

    method CheckExisting(d: Digests, name: string, digest: nat, ghost wanted: Tree) returns (ok: bool)
      requires AllListed(entries) && name in entries && d.Injective() && Listed(wanted) && digest == d.Of(wanted)
      ensures ok <==> entries[name] == wanted
    {
      var manifest := ReadTree(d.body, "", entries[name]);
      ok := d.manifest(manifest) == digest;
      if ok {
        SameDigest(d, entries[name], wanted);
      }
    }

    // freeze_artifact: the tree that was digested first, whatever the source turns
    // into while it is copied.
    method FreezeTree(d: Digests, name: string, staging: string) returns (r: Option<nat>)
      requires Sound(staging) && d.Injective() && staging != name
      modifies this
      ensures Sound(staging) && Published(name, staging, others.source(old(readings)), r.Some?)
      ensures r.Some? ==> r.value == d.Of(others.source(old(readings)))
      ensures r.Some? <==> Publishable(old(Seen(staging)), old(looks), old(readings) + 1, name,
                                       staging !in old(entries), others.source(old(readings)))
    {
      var source := ReadSource(staging);
      var manifest := ReadTree(d.body, "", source);
      var digest := d.manifest(manifest);
      var ok := PublishTree(d, name, staging, digest, source);
      r := if ok then Some(digest) else None;
    }

    method RemoveStaging(staging: string)
      requires AllListed(entries)
      modifies this`entries
      ensures AllListed(entries) && entries == old(entries) - {staging}
    {
      entries := entries - {staging};
    }

    // install_reviewed_directory, from the scan of the acquired directory on. An
    // existing directory is accepted only with the same scan, and a failed
    // installation leaves no staging directory behind.
    method InstallTree(d: Digests, name: string, staging: string) returns (ok: bool)
      requires Sound(staging) && d.Injective() && staging != name && staging !in entries
      modifies this
      ensures Sound(staging) && staging !in entries && Published(name, staging, others.source(old(readings)), ok)
      ensures ok <==> Installable(old(Seen(staging)), old(looks), old(readings) + 1, name, others.source(old(readings)))
    {
      hide Fair, Alone, Manifest, ScanDirectories, ScanFiles, Listed;
      ghost var before, since := Seen(staging), looks;
      AloneNow(others, before, since);
      var source := ReadSource(staging);
      var directories, files := ScanTree("", source);
      RootFile(source, "SKILL.md");
      if !exists f | f in files :: f.0 == "SKILL.md" {
        return false;
      }
      Look(staging, before, since);
      if name in entries {
        ok := SameScan(d, entries[name], directories, files, source);
        return;
      }
      var staged := Stage(staging, before, since);
      assert staged;
      Look(staging, before, since);
      var same := SameScan(d, entries[staging], directories, files, source);
      if !same {
        RemoveStaging(staging);
        return false;
      }
      ok := RenameNoReplace(staging, name, before, since);
      assert name in entries <==> name in Seen(staging);
      if !ok {
        RemoveStaging(staging);
      }
    }

    method SameScan(d: Digests, t: Tree, directories: seq<string>, files: seq<(string, string)>, ghost wanted: Tree)
      returns (same: bool)
      requires d.Injective() && Listed(t) && Listed(wanted)
      requires directories == ScanDirectories("", wanted) && files == ScanFiles("", wanted)
      ensures same <==> t == wanted
    {
      var ds, fs := ScanTree("", t);
      same := ds == directories && fs == files;
      if same {
        ScanFaithful(d.body, t, wanted);
      }
    }
  }
}
