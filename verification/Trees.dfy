/** Directory trees, their manifests and scan lists (_read_tree_fd in
    src/hwskill/publishing/store.py, _scan_tree in src/hwskill/verification/installer.py). */
module Trees {
  import opened TextOrder

  // A directory is its sorted listing.
  datatype Tree = End | More(name: string, node: Node, rest: Tree)

  datatype Node = FileNode(body: string) | DirNode(tree: Tree)

  // The value of a manifest key.
  datatype Mark = Directory | FileMark(digest: nat)

  type BodyHash = string -> nat

  ghost predicate InjectiveBodies(h: BodyHash) {
    forall x, y :: h(x) == h(y) ==> x == y
  }

  predicate NameOk(name: string) {
    name != "" && '/' !in name
  }

  function Names(t: Tree): set<string> {
    if t.End? then {} else {t.name} + Names(t.rest)
  }

  // What listing a directory yields: proper names, in increasing order.
  ghost predicate Listed(t: Tree) {
    t.More? ==>
      && NameOk(t.name)
      && (forall n :: n in Names(t.rest) ==> Less(t.name, n))
      && Listed(t.rest)
      && (t.node.DirNode? ==> Listed(t.node.tree))
  }

  // --- Manifests ---

  // The manifest of a directory whose own path is `prefix`, "" or ending in "/".
  function Manifest(h: BodyHash, prefix: string, t: Tree): map<string, Mark>
    decreases t
  {
    if t.End? then map[] else NodeManifest(h, prefix + t.name, t.node) + Manifest(h, prefix, t.rest)
  }

  function NodeManifest(h: BodyHash, path: string, n: Node): map<string, Mark>
    decreases n
  {
    match n
    case FileNode(body) => map[path := FileMark(h(body))]
    case DirNode(t) => map[path + "/" := Directory] + Manifest(h, path + "/", t)
  }

  // _read_tree_fd
  method ReadTree(h: BodyHash, prefix: string, tree: Tree) returns (manifest: map<string, Mark>)
    ensures manifest == Manifest(h, prefix, tree)
    decreases tree
  {
    hide Manifest, NodeManifest;
    manifest := map[];
    var t := tree;
    while t.More?
      invariant t == tree || t < tree
      invariant Manifest(h, prefix, tree) == manifest + Manifest(h, prefix, t)
      decreases t
    {
      var relative := prefix + t.name;
      ghost var before := manifest;
      match t.node {
        case FileNode(body) =>
          manifest := manifest[relative := FileMark(h(body))];
        case DirNode(child) =>
          manifest := manifest[relative + "/" := Directory];
          var inner := ReadTree(h, relative + "/", child);
          manifest := manifest + inner;
      }
      ReadNode(h, relative, t.node, before);
      ReadStep(h, prefix, t, before);
      t := t.rest;
    }
    ReadAll(h, prefix, t, manifest);
  }

  lemma ReadNode(h: BodyHash, path: string, n: Node, before: map<string, Mark>)
    ensures before + NodeManifest(h, path, n) ==
            match n
            case FileNode(body) => before[path := FileMark(h(body))]
            case DirNode(child) => before[path + "/" := Directory] + Manifest(h, path + "/", child)
  {
    hide Manifest;
  }

  lemma ReadStep(h: BodyHash, prefix: string, t: Tree, before: map<string, Mark>)
    requires t.More?
    ensures before + Manifest(h, prefix, t)
        == (before + NodeManifest(h, prefix + t.name, t.node)) + Manifest(h, prefix, t.rest)
  {
    hide NodeManifest;
  }

  lemma ReadAll(h: BodyHash, prefix: string, t: Tree, manifest: map<string, Mark>)
    requires t.End?
    ensures manifest + Manifest(h, prefix, t) == manifest
  {
  }

  // --- Equal manifests, equal trees ---

  // k is the path itself or lies below it.
  predicate Under(path: string, k: string) {
    k == path || path + "/" <= k
  }

  lemma ListedParts(t: Tree)
    requires Listed(t) && t.More?
    ensures NameOk(t.name) && Listed(t.rest)
    ensures forall n :: n in Names(t.rest) ==> Less(t.name, n) && n != t.name
    ensures t.node.DirNode? ==> Listed(t.node.tree)
  {
    if t.name in Names(t.rest) {
      LessAsymmetric(t.name, t.name);
    }
  }

  lemma {:induction false} ProperNames(t: Tree, n: string)
    requires Listed(t) && n in Names(t)
    ensures NameOk(n)
  {
    if n != t.name {
      ProperNames(t.rest, n);
    }
  }

  // No key lies under two names.
  lemma UnderOne(prefix: string, n: string, m: string, k: string)
    requires NameOk(n) && NameOk(m) && Under(prefix + n, k) && Under(prefix + m, k)
    ensures n == m
  {
    assert prefix + n <= k && prefix + m <= k;
    if |n| < |m| {
      ShorterUnder(prefix, n, m, k);
    } else if |m| < |n| {
      ShorterUnder(prefix, m, n, k);
    } else {
      assert n == (prefix + n)[|prefix|..] == k[|prefix|..|prefix| + |n|];
      assert m == (prefix + m)[|prefix|..] == k[|prefix|..|prefix| + |n|];
    }
  }

  lemma ShorterUnder(prefix: string, n: string, m: string, k: string)
    requires |n| < |m| && Under(prefix + n, k) && prefix + m <= k
    ensures '/' in m
  {
    var p := prefix + n;
    assert p + "/" <= k;
    assert (p + "/")[|p|] == '/' && k[|p|] == '/';
    assert (prefix + m)[|p|] == m[|n|];
  }

  // The keys of a node lie under its path, and only a file has the path itself.
  lemma {:induction false} NodeKeys(h: BodyHash, path: string, n: Node)
    requires n.DirNode? ==> Listed(n.tree)
    ensures forall k :: k in NodeManifest(h, path, n) ==> Under(path, k)
    ensures n.DirNode? ==> path !in NodeManifest(h, path, n)
    decreases n, 0
  {
    if n.DirNode? {
      ChildKeys(h, path + "/", n.tree);
      forall k | k in NodeManifest(h, path, n) ensures Under(path, k) && k != path {
        assert k == path + "/" || k in Manifest(h, path + "/", n.tree);
        assert path + "/" <= k;
      }
    }
  }

  // The keys inside a directory are longer than its own.
  lemma {:induction false} ChildKeys(h: BodyHash, prefix: string, t: Tree)
    requires Listed(t)
    ensures forall k :: k in Manifest(h, prefix, t) ==> prefix <= k && k != prefix
    decreases t, 1
  {
    if t.More? {
      ListedParts(t);
      NodeKeys(h, prefix + t.name, t.node);
      ChildKeys(h, prefix, t.rest);
      forall k | k in NodeManifest(h, prefix + t.name, t.node) ensures prefix <= k && k != prefix {
        UnderLonger(prefix, t.name, k);
      }
    }
  }

  lemma UnderLonger(prefix: string, n: string, k: string)
    requires n != "" && Under(prefix + n, k)
    ensures prefix <= k && k != prefix
  {
    assert prefix <= prefix + n <= k;
  }

  // Every key lies under a name of the listing ...
  lemma {:induction false} KeyName(h: BodyHash, prefix: string, t: Tree, k: string) returns (n: string)
    requires Listed(t) && k in Manifest(h, prefix, t)
    ensures n in Names(t) && NameOk(n) && Under(prefix + n, k)
  {
    ListedParts(t);
    if k in NodeManifest(h, prefix + t.name, t.node) {
      n := t.name;
      NodeKeys(h, prefix + n, t.node);
    } else {
      n := KeyName(h, prefix, t.rest, k);
    }
  }

  // ... and every name has one.
  lemma {:induction false} NameKey(h: BodyHash, prefix: string, t: Tree, n: string) returns (k: string)
    requires Listed(t) && n in Names(t)
    ensures k in Manifest(h, prefix, t) && Under(prefix + n, k)
  {
    if n == t.name {
      k := if t.node.FileNode? then prefix + n else prefix + n + "/";
    } else {
      k := NameKey(h, prefix, t.rest, n);
    }
  }

  lemma SameNames(h: BodyHash, prefix: string, a: Tree, b: Tree, n: string)
    requires Listed(a) && Listed(b) && Manifest(h, prefix, a) == Manifest(h, prefix, b) && n in Names(a)
    ensures n in Names(b)
  {
    ProperNames(a, n);
    var k := NameKey(h, prefix, a, n);
    var m := KeyName(h, prefix, b, k);
    UnderOne(prefix, n, m, k);
  }

  // The first entry's keys are those under its name.
  lemma SplitFirst(h: BodyHash, prefix: string, t: Tree, k: string)
    requires Listed(t) && t.More?
    ensures var own, rest, all := NodeManifest(h, prefix + t.name, t.node), Manifest(h, prefix, t.rest),
        Manifest(h, prefix, t);
            && (Under(prefix + t.name, k) ==> k !in rest && (k in all <==> k in own) && (k in all ==> all[k] == own[k]))
            && (!Under(prefix + t.name, k)
                ==> k !in own && (k in all <==> k in rest) && (k in all ==> all[k] == rest[k]))
  {
    ListedParts(t);
    NodeKeys(h, prefix + t.name, t.node);
    if Under(prefix + t.name, k) && k in Manifest(h, prefix, t.rest) {
      var m := KeyName(h, prefix, t.rest, k);
      UnderOne(prefix, t.name, m, k);
    }
  }

  lemma SameParts(h: BodyHash, prefix: string, a: Tree, b: Tree)
    requires Listed(a) && Listed(b) && a.More? && b.More? && a.name == b.name
    requires Manifest(h, prefix, a) == Manifest(h, prefix, b)
    ensures NodeManifest(h, prefix + a.name, a.node) == NodeManifest(h, prefix + b.name, b.node)
    ensures Manifest(h, prefix, a.rest) == Manifest(h, prefix, b.rest)
  {
    hide Manifest, NodeManifest, Listed, Under;
    var x, y := NodeManifest(h, prefix + a.name, a.node), NodeManifest(h, prefix + b.name, b.node);
    var p, q := Manifest(h, prefix, a.rest), Manifest(h, prefix, b.rest);
    forall k ensures (k in x <==> k in y) && (k in x ==> x[k] == y[k]) && (k in p <==> k in q)
      && (k in p ==> p[k] == q[k]) {
      SplitFirst(h, prefix, a, k);
      SplitFirst(h, prefix, b, k);
    }
    assert x == y && p == q;
  }

  lemma {:induction false} ManifestFaithful(h: BodyHash, prefix: string, a: Tree, b: Tree)
    requires InjectiveBodies(h) && Listed(a) && Listed(b) && Manifest(h, prefix, a) == Manifest(h, prefix, b)
    ensures a == b
    decreases a, 1
  {
    hide Manifest, NodeManifest, InjectiveBodies;
    if a.End? || b.End? {
      Emptied(h, prefix, a, b);
    } else {
      SameFirst(h, prefix, a, b);
      SameParts(h, prefix, a, b);
      ListedParts(a);
      ListedParts(b);
      NodeFaithful(h, prefix + a.name, a.node, b.node);
      ManifestFaithful(h, prefix, a.rest, b.rest);
    }
  }

  lemma Emptied(h: BodyHash, prefix: string, a: Tree, b: Tree)
    requires Listed(a) && Listed(b) && Manifest(h, prefix, a) == Manifest(h, prefix, b) && (a.End? || b.End?)
    ensures a == b
  {
    if a.More? {
      SameNames(h, prefix, a, b, a.name);
    } else if b.More? {
      SameNames(h, prefix, b, a, b.name);
    }
  }

  lemma SameFirst(h: BodyHash, prefix: string, a: Tree, b: Tree)
    requires Listed(a) && Listed(b) && Manifest(h, prefix, a) == Manifest(h, prefix, b) && a.More? && b.More?
    ensures a.name == b.name
  {
    hide Manifest;
    SameNames(h, prefix, a, b, a.name);
    SameNames(h, prefix, b, a, b.name);
    if a.name != b.name {
      LessAsymmetric(a.name, b.name);
    }
  }

  lemma {:induction false} NodeFaithful(h: BodyHash, path: string, x: Node, y: Node)
    requires InjectiveBodies(h) && (x.DirNode? ==> Listed(x.tree)) && (y.DirNode? ==> Listed(y.tree))
    requires NodeManifest(h, path, x) == NodeManifest(h, path, y)
    ensures x == y
    decreases x, 0
  {
    NodeKeys(h, path, x);
    NodeKeys(h, path, y);
    assert x.FileNode? ==> NodeManifest(h, path, x)[path] == FileMark(h(x.body));
    assert y.FileNode? ==> NodeManifest(h, path, y)[path] == FileMark(h(y.body));
    if x.DirNode? && y.DirNode? {
      ChildManifest(h, path, x.tree, y.tree);
      ManifestFaithful(h, path + "/", x.tree, y.tree);
    }
  }

  lemma ChildManifest(h: BodyHash, path: string, a: Tree, b: Tree)
    requires Listed(a) && Listed(b) && NodeManifest(h, path, DirNode(a)) == NodeManifest(h, path, DirNode(b))
    ensures Manifest(h, path + "/", a) == Manifest(h, path + "/", b)
  {
    ChildKeys(h, path + "/", a);
    ChildKeys(h, path + "/", b);
    hide Manifest;
    var x, y := NodeManifest(h, path, DirNode(a)), NodeManifest(h, path, DirNode(b));
    var p, q := Manifest(h, path + "/", a), Manifest(h, path + "/", b);
    assert x == map[path + "/" := Directory] + p && y == map[path + "/" := Directory] + q;
    forall k ensures (k in p <==> k in q) && (k in p ==> p[k] == q[k]) {
      assert k in p <==> k in x && k != path + "/";
      assert k in q <==> k in y && k != path + "/";
    }
  }

  // --- Scan lists ---

  // The directories and the files, parents first, in listing order.
  function ScanDirectories(prefix: string, t: Tree): seq<string>
    decreases t
  {
    if t.End? then [] else NodeDirectories(prefix + t.name, t.node) + ScanDirectories(prefix, t.rest)
  }

  function NodeDirectories(path: string, n: Node): seq<string>
    decreases n
  {
    if n.FileNode? then [] else [path] + ScanDirectories(path + "/", n.tree)
  }

  function ScanFiles(prefix: string, t: Tree): seq<(string, string)>
    decreases t
  {
    if t.End? then [] else NodeFiles(prefix + t.name, t.node) + ScanFiles(prefix, t.rest)
  }

  function NodeFiles(path: string, n: Node): seq<(string, string)>
    decreases n
  {
    if n.FileNode? then [(path, n.body)] else ScanFiles(path + "/", n.tree)
  }

  // The directory itself, not one below it, lists a file of that name.
  predicate HoldsFile(t: Tree, name: string) {
    t.More? && ((t.name == name && t.node.FileNode?) || HoldsFile(t.rest, name))
  }

  lemma {:induction false} ScanUnder(prefix: string, t: Tree)
    ensures forall f :: f in ScanFiles(prefix, t) ==> prefix <= f.0
    decreases t
  {
    if t.More? {
      ScanUnder(prefix, t.rest);
      if t.node.DirNode? {
        ScanUnder(prefix + t.name + "/", t.node.tree);
      }
    }
  }

  // A path without slashes is scanned exactly for a file of the directory itself.
  lemma {:induction false} RootFile(t: Tree, name: string)
    requires '/' !in name
    ensures HoldsFile(t, name) <==> exists f :: f in ScanFiles("", t) && f.0 == name
    decreases t
  {
    if t.More? {
      RootFile(t.rest, name);
      assert "" + t.name == t.name;
      var here := NodeFiles(t.name, t.node);
      assert ScanFiles("", t) == here + ScanFiles("", t.rest);
      if t.node.DirNode? {
        ScanUnder(t.name + "/", t.node.tree);
        forall f | f in here ensures f.0 != name {
          assert (t.name + "/")[|t.name|] == '/' && f.0[|t.name|] == '/';
        }
      } else {
        assert here[0] in here;
      }
    }
  }

  // _scan_tree
  method ScanTree(prefix: string, tree: Tree) returns (directories: seq<string>, files: seq<(string, string)>)
    ensures directories == ScanDirectories(prefix, tree) && files == ScanFiles(prefix, tree)
    decreases tree
  {
    directories, files := [], [];
    var t := tree;
    while t.More?
      invariant t == tree || t < tree
      invariant ScanDirectories(prefix, tree) == directories + ScanDirectories(prefix, t)
      invariant ScanFiles(prefix, tree) == files + ScanFiles(prefix, t)
      decreases t
    {
      hide ScanDirectories, ScanFiles;
      var relative := prefix + t.name;
      ScanNext(prefix, t, directories, files);
      match t.node {
        case FileNode(body) => files := files + [(relative, body)];
        case DirNode(child) =>
          var moreDirectories, moreFiles := ScanTree(relative + "/", child);
          directories := directories + ([relative] + moreDirectories);
          files := files + moreFiles;
      }
      t := t.rest;
    }
  }

  lemma ScanNext(prefix: string, t: Tree, directories: seq<string>, files: seq<(string, string)>)
    requires t.More?
    ensures directories + ScanDirectories(prefix, t)
        == directories + NodeDirectories(prefix + t.name, t.node) + ScanDirectories(prefix, t.rest)
    ensures files + ScanFiles(prefix, t) == files + NodeFiles(prefix + t.name, t.node) + ScanFiles(prefix, t.rest)
    ensures t.node.FileNode? ==> directories + NodeDirectories(prefix + t.name, t.node) == directories
  {
    hide NodeFiles;
  }

  // The manifest entries of the two lists.
  function DirectoryMarks(directories: seq<string>): map<string, Mark> {
    if directories == [] then map[] else map[directories[0] + "/" := Directory] + DirectoryMarks(directories[1..])
  }

  function FileMarks(h: BodyHash, files: seq<(string, string)>): map<string, Mark> {
    if files == [] then map[] else map[files[0].0 := FileMark(h(files[0].1))] + FileMarks(h, files[1..])
  }

  lemma {:induction false} DirectoryMarksJoin(a: seq<string>, b: seq<string>)
    ensures DirectoryMarks(a + b) == DirectoryMarks(a) + DirectoryMarks(b)
  {
    if a == [] {
      assert a + b == b;
    } else {
      assert (a + b)[1..] == a[1..] + b;
      DirectoryMarksJoin(a[1..], b);
    }
  }

  lemma {:induction false} FileMarksJoin(h: BodyHash, a: seq<(string, string)>, b: seq<(string, string)>)
    ensures FileMarks(h, a + b) == FileMarks(h, a) + FileMarks(h, b)
  {
    if a == [] {
      assert a + b == b;
    } else {
      assert (a + b)[1..] == a[1..] + b;
      FileMarksJoin(h, a[1..], b);
    }
  }

  predicate EndsInSlash(k: string) {
    k != "" && k[|k| - 1] == '/'
  }

  lemma {:induction false} DirectoryKeys(directories: seq<string>)
    ensures forall k :: k in DirectoryMarks(directories) ==> EndsInSlash(k)
  {
    if directories != [] {
      DirectoryKeys(directories[1..]);
    }
  }

  lemma {:induction false} FileKeys(h: BodyHash, prefix: string, t: Tree)
    requires Listed(t)
    ensures forall k :: k in FileMarks(h, ScanFiles(prefix, t)) ==> !EndsInSlash(k)
    decreases t
  {
    if t.More? {
      ListedParts(t);
      var path := prefix + t.name;
      FileMarksJoin(h, NodeFiles(path, t.node), ScanFiles(prefix, t.rest));
      FileKeys(h, prefix, t.rest);
      if t.node.FileNode? {
        OneFile(h, path, t.node.body);
        assert path[|path| - 1] == t.name[|t.name| - 1];
      } else {
        FileKeys(h, path + "/", t.node.tree);
      }
    }
  }

  lemma OneFile(h: BodyHash, path: string, body: string)
    ensures FileMarks(h, [(path, body)]) == map[path := FileMark(h(body))]
  {
    assert [(path, body)][1..] == [];
  }

  lemma Interchange(d1: map<string, Mark>, f1: map<string, Mark>, d2: map<string, Mark>, f2: map<string, Mark>)
    requires forall k :: k in f1 ==> k !in d2
    ensures (d1 + f1) + (d2 + f2) == (d1 + d2) + (f1 + f2)
  {
  }

  // A manifest is determined by the scan lists.
  lemma {:induction false} ManifestOfScan(h: BodyHash, prefix: string, t: Tree)
    requires Listed(t)
    ensures Manifest(h, prefix, t) == DirectoryMarks(ScanDirectories(prefix, t)) + FileMarks(h, ScanFiles(prefix, t))
    decreases t, 1
  {
    if t.More? {
      ListedParts(t);
      NodeOfScan(h, prefix, t.name, t.node);
      ManifestOfScan(h, prefix, t.rest);
      JoinedScan(h, prefix, t);
    }
  }

  lemma JoinedScan(h: BodyHash, prefix: string, t: Tree)
    requires t.More?
    requires NodeManifest(h, prefix + t.name, t.node)
             == DirectoryMarks(NodeDirectories(prefix + t.name, t.node))
               + FileMarks(h, NodeFiles(prefix + t.name, t.node))
    requires Manifest(h, prefix, t.rest)
        == DirectoryMarks(ScanDirectories(prefix, t.rest)) + FileMarks(h, ScanFiles(prefix, t.rest))
    requires forall k :: k in FileMarks(h, NodeFiles(prefix + t.name, t.node)) ==> !EndsInSlash(k)
    ensures Manifest(h, prefix, t) == DirectoryMarks(ScanDirectories(prefix, t)) + FileMarks(h, ScanFiles(prefix, t))
  {
    hide DirectoryMarks, FileMarks, NodeManifest, NodeDirectories, NodeFiles;
    var path := prefix + t.name;
    var d1, d2 := NodeDirectories(path, t.node), ScanDirectories(prefix, t.rest);
    var f1, f2 := NodeFiles(path, t.node), ScanFiles(prefix, t.rest);
    DirectoryMarksJoin(d1, d2);
    FileMarksJoin(h, f1, f2);
    DirectoryKeys(d2);
    assert forall k :: k in FileMarks(h, f1) ==> k !in DirectoryMarks(d2);
    Interchange(DirectoryMarks(d1), FileMarks(h, f1), DirectoryMarks(d2), FileMarks(h, f2));
  }

  lemma {:induction false} NodeOfScan(h: BodyHash, prefix: string, name: string, n: Node)
    requires NameOk(name) && (n.DirNode? ==> Listed(n.tree))
    ensures var path := prefix + name;
            NodeManifest(h, path, n) == DirectoryMarks(NodeDirectories(path, n)) + FileMarks(h, NodeFiles(path, n))
            && forall k :: k in FileMarks(h, NodeFiles(path, n)) ==> !EndsInSlash(k)
    decreases n, 0
  {
    hide Manifest, ScanDirectories, ScanFiles, Listed, DirectoryMarks, FileMarks;
    var path := prefix + name;
    if n.FileNode? {
      OneFile(h, path, n.body);
      assert path[|path| - 1] == name[|name| - 1];
      NoMarks();
    } else {
      var inner := path + "/";
      ManifestOfScan(h, inner, n.tree);
      FileKeys(h, inner, n.tree);
      DirectoryMarksJoin([path], ScanDirectories(inner, n.tree));
      OneDirectory(path);
      MapAssociates(map[inner := Directory], DirectoryMarks(ScanDirectories(inner, n.tree)),
                    FileMarks(h, ScanFiles(inner, n.tree)));
    }
  }

  lemma NoMarks()
    ensures DirectoryMarks([]) == map[]
  {
  }

  lemma MapAssociates(a: map<string, Mark>, b: map<string, Mark>, c: map<string, Mark>)
    ensures a + (b + c) == (a + b) + c
  {
  }

  lemma OneDirectory(path: string)
    ensures DirectoryMarks([path]) == map[path + "/" := Directory]
  {
    assert [path][1..] == [];
  }

  // Equal scan lists mean equal trees.
  lemma ScanFaithful(h: BodyHash, a: Tree, b: Tree)
    requires InjectiveBodies(h) && Listed(a) && Listed(b)
    requires ScanDirectories("", a) == ScanDirectories("", b) && ScanFiles("", a) == ScanFiles("", b)
    ensures a == b
  {
    ManifestOfScan(h, "", a);
    ManifestOfScan(h, "", b);
    ManifestFaithful(h, "", a, b);
  }
}
