/** Reading a rendered Git patch back: the text determines every file's status,
    paths, mode change and diff (the format that render_git_patch in
    skills-src/l2/local/gitcode-pr-review-fetch/scripts/gitcode_patch.py writes). */
module PatchDecoding {
  import opened Options
  import opened UnifiedDiff
  import opened GitPaths
  import opened GitPatch

  // --- The decoder ---

  function Drop(s: string, word: string): Option<string> {
    if word <= s then Some(s[|word|..]) else None
  }

  // A line that is a word and a path.
  function ReadNamed(word: string, s: string): Option<(string, string)> {
    match Drop(s, word)
    case None => None
    case Some(s1) =>
      match ReadPath(s1)
      case NoPath => None
      case Path(path, s2) => if "\n" <= s2 then Some((path, s2[1..])) else None
  }

  // A diff ends before a line that begins a new file's header; no diff line
  // begins with its first letter.
  function DiffEnd(s: string, i: nat): (n: nat)
    requires i <= |s|
    ensures i <= n <= |s|
    decreases |s| - i
  {
    if i == |s| || (i > 0 && s[i - 1] == '\n' && s[i] == 'd') then i else DiffEnd(s, i + 1)
  }

  // The diff under the two given names, if there is one.
  function ReadBody(s: string, oldName: string, newName: string): Option<(string, string)> {
    if !("--- " <= s) then Some(("", s)) else
    match ReadNamed("--- ", s)
    case None => None
    case Some(first) =>
      match ReadNamed("+++ ", first.1)
      case None => None
      case Some(second) =>
        if first.0 != oldName || second.0 != newName then None
        else Some((second.1[..DiffEnd(second.1, 0)], second.1[DiffEnd(second.1, 0)..]))
  }

  // A mode has six digits.
  function ReadMode(s: string): Option<(string, string)> {
    if |s| > 6 && s[6] == '\n' then Some((s[..6], s[7..])) else None
  }

  function ReadModes(s: string): (Option<(string, string)>, string) {
    match Drop(s, "old mode ")
    case None => (None, s)
    case Some(s1) =>
      match ReadMode(s1)
      case None => (None, s)
      case Some(before) =>
        match Drop(before.1, "new mode ")
        case None => (None, s)
        case Some(s2) =>
          match ReadMode(s2)
          case None => (None, s)
          case Some(after) => (Some((before.0, after.0)), after.1)
  }

  // Whether the file is renamed, and whether without a change.
  function ReadRename(s: string, oldPath: string, newPath: string): Option<(bool, bool, string)> {
    var similar := "similarity index 100%\n" <= s;
    var t := if similar then s[22..] else s;
    if !("rename from " <= t) then if similar then None else Some((false, false, s))
    else
      match ReadNamed("rename from ", t)
      case None => None
      case Some(first) =>
        match ReadNamed("rename to ", first.1)
        case None => None
        case Some(second) => if first.0 != oldPath || second.0 != newPath then None else Some((true, similar, second.1))
  }

  // The two paths of the first line, without their prefixes.
  function ReadFront(s: string): Option<(string, string, string)> {
    match Drop(s, "diff --git ")
    case None => None
    case Some(s1) =>
      match ReadPath(s1)
      case NoPath => None
      case Path(a, s2) =>
        if !(" " <= s2) || !("a/" <= a) then None else
        match ReadPath(s2[1..])
        case NoPath => None
        case Path(b, s3) =>
          if !("\n" <= s3) || !("b/" <= b) then None else Some((a[2..], b[2..], s3[1..]))
  }

  const NULL_NAME := "/dev/null"

  function DecodeFile(s: string): Option<(View, string)> {
    match ReadFront(s)
    case None => None
    case Some(front) =>
      if !IsBytes(front.0) || !IsBytes(front.1) then None
      else if "new file mode " <= front.2 then DecodeCreated(front.0, front.1, front.2[14..])
      else if "deleted file mode " <= front.2 then DecodeDeleted(front.0, front.1, front.2[18..])
      else DecodeChanged(front.0, front.1, front.2)
  }

  function DecodeCreated(oldPath: Bytes, newPath: Bytes, s: string): Option<(View, string)> {
    match ReadMode(s)
    case None => None
    case Some(mode) =>
      match ReadBody(mode.1, NULL_NAME, "b/" + newPath)
      case None => None
      case Some(tail) => if oldPath != newPath then None else Some((Created(newPath, mode.0, tail.0), tail.1))
  }

  function DecodeDeleted(oldPath: Bytes, newPath: Bytes, s: string): Option<(View, string)> {
    match ReadMode(s)
    case None => None
    case Some(mode) =>
      match ReadBody(mode.1, "a/" + oldPath, NULL_NAME)
      case None => None
      case Some(tail) => if oldPath != newPath then None else Some((Deleted(oldPath, mode.0, tail.0), tail.1))
  }

  // The similarity line stands exactly in a rename without a diff.
  function DecodeChanged(oldPath: Bytes, newPath: Bytes, s: string): Option<(View, string)> {
    match ReadRename(s, oldPath, newPath)
    case None => None
    case Some(rename) =>
      var modes := ReadModes(rename.2);
      match ReadBody(modes.1, "a/" + oldPath, "b/" + newPath)
      case None => None
      case Some(tail) =>
        if rename.0 && rename.1 != (tail.0 == "") then None
        else Some((Changed(rename.0, oldPath, newPath, modes.0, tail.0), tail.1))
  }

  function Decode(s: string): Option<seq<View>>
    decreases |s|
  {
    if s == "" then Some([]) else
    match DecodeFile(s)
    case None => None
    case Some(file) =>
      if |file.1| >= |s| then None else
      match Decode(file.1)
      case None => None
      case Some(more) => Some([file.0] + more)
  }

  // --- What a valid diff looks like ---

  // No line of the text begins with the letter of a file header.
  ghost predicate Plain(s: string) {
    forall i :: 0 <= i < |s| && StartsLine(s, i) ==> s[i] != 'd'
  }

  predicate StartsLine(s: string, i: nat)
    requires i < |s|
  {
    i == 0 || s[i - 1] == '\n'
  }

  lemma {:induction false} LineEndFirst(s: string, i: nat)
    requires i < |s|
    ensures forall j :: i <= j < LineEnd(s, i) - 1 ==> s[j] != '\n'
    decreases |s| - i
  {
    if !(s[i] == '\r' && i + 1 < |s| && s[i + 1] == '\n') && !IsBoundary(s[i]) && i + 1 != |s| {
      LineEndFirst(s, i + 1);
    }
  }

  // A position at the start of a "\n"-line starts a line of splitlines.
  lemma {:induction false} LineStarts(s: string, i: nat) returns (k: nat)
    requires i < |s| && StartsLine(s, i)
    ensures k < |SplitLines(s)| && SplitLines(s)[k] != "" && SplitLines(s)[k][0] == s[i]
    decreases |s|
  {
    var n := LineEnd(s, 0);
    if i == 0 {
      k := 0;
    } else {
      LineEndFirst(s, 0);
      assert i >= n;
      k := LineStarts(s[n..], i - n);
      k := k + 1;
    }
  }

  lemma ValidPlain(diff: string)
    requires Valid(Lines(diff))
    ensures Plain(diff) && Plain(Finish(diff))
  {
    hide SplitLines, Lex;
    forall i | 0 <= i < |diff| && StartsLine(diff, i) ensures diff[i] != 'd' {
      var k := LineStarts(diff, i);
      assert LineOk(Lines(diff), k);
      LexedFirst(SplitLines(diff)[k]);
    }
    var text := Finish(diff);
    forall i | 0 <= i < |text| && StartsLine(text, i) ensures text[i] != 'd' {
      assert i < |diff| ==> StartsLine(diff, i);
    }
  }

  lemma LexedFirst(line: string)
    requires line != "" && !Lex(line).Malformed?
    ensures line[0] != 'd'
  {
    if line[0] == 'd' {
      StripFirst(line);
    }
  }

  lemma {:induction false} StripFirst(line: string)
    requires line != "" && line[0] == 'd'
    ensures StripEnding(line) != "" && StripEnding(line)[0] == 'd'
  {
    if IsEnding(line[|line| - 1]) {
      StripFirst(line[..|line| - 1]);
    }
  }

  // --- Reading each part back ---

  // What may follow a file's text: nothing, or the next file.
  ghost predicate Follows(rest: string) {
    rest == "" || "diff --git " <= rest
  }

  lemma DropWord(word: string, s: string)
    ensures word <= word + s && (word + s)[|word|..] == s
  {
  }

  lemma Differs(word: string, s: string, i: nat)
    requires i < |word| && (i < |s| ==> s[i] != word[i])
    ensures !(word <= s)
  {
  }

  lemma ReadNamedText(word: string, path: Bytes, s: string)
    ensures ReadNamed(word, word + (Quote(path) + ("\n" + s))) == Some((path, s))
    ensures word <= word + (Quote(path) + ("\n" + s))
  {
    DropWord(word, Quote(path) + ("\n" + s));
    ReadQuote(path, "\n" + s);
    DropWord("\n", s);
    hide Quote, ReadPath;
  }

  lemma NullQuoted()
    ensures IsBytes(NULL_NAME) && Quote(NULL_NAME) == NULL_NAME
  {
    assert forall i :: 0 <= i < |NULL_NAME| ==> !Special(NULL_NAME[i]);
  }

  lemma {:induction false} DiffEnds(diff: string, rest: string, i: nat)
    requires Plain(diff) && EndsLine(diff) && Follows(rest) && i <= |diff|
    ensures DiffEnd(diff + rest, i) == |diff|
    decreases |diff| - i
  {
    var s := diff + rest;
    assert forall j :: 0 <= j < |diff| ==> s[j] == diff[j];
    if i < |diff| {
      DiffEnds(diff, rest, i + 1);
    } else if rest != "" {
      assert s[i] == rest[0] == "diff --git "[0];
    }
  }

  lemma ReadTail(x: Bytes, y: Bytes, diff: string, rest: string)
    requires Follows(rest) && DiffPrinted(diff)
    ensures ReadBody(Tail(Quote(x), Quote(y), diff) + rest, x, y) == Some((diff, rest))
  {
    if diff == "" {
      assert "" + rest == rest;
      assert rest != "" ==> rest[0] == "diff --git "[0];
      Differs("--- ", rest, 0);
    } else {
      SomeTail(x, y, diff, rest);
    }
  }

  lemma SomeTail(x: Bytes, y: Bytes, diff: string, rest: string)
    requires Follows(rest) && diff != "" && Plain(diff) && EndsLine(diff)
    ensures ReadBody(Tail(Quote(x), Quote(y), diff) + rest, x, y) == Some((diff, rest))
  {
    var body := diff + rest;
    var second := "+++ " + (Quote(y) + ("\n" + body));
    TailSplit(Quote(x), Quote(y), diff, rest);
    ReadNamedText("--- ", x, second);
    ReadNamedText("+++ ", y, body);
    DiffEnds(diff, rest, 0);
    assert body[..|diff|] == diff && body[|diff|..] == rest;
    hide Tail, Plain, Quote, ReadNamed, DiffEnd, Follows;
  }

  lemma TailSplit(oldName: string, newName: string, diff: string, rest: string)
    requires diff != ""
    ensures Tail(oldName, newName, diff) + rest
        == "--- " + (oldName + ("\n" + ("+++ " + (newName + ("\n" + (diff + rest))))))
  {
    TailLead(oldName, newName, diff);
    var lead := "--- " + (oldName + ("\n" + ("+++ " + (newName + "\n"))));
    assert (lead + diff) + rest == lead + (diff + rest);
    var body := diff + rest;
    assert (newName + "\n") + body == newName + ("\n" + body);
    assert ("+++ " + (newName + "\n")) + body == "+++ " + (newName + ("\n" + body));
    var a := "+++ " + (newName + "\n");
    assert ("\n" + a) + body == "\n" + (a + body);
    var c := "\n" + a;
    assert (oldName + c) + body == oldName + (c + body);
    assert ("--- " + (oldName + c)) + body == "--- " + ((oldName + c) + body);
  }

  lemma ReadModeText(mode: string, s: string)
    requires IsMode(mode)
    ensures ReadMode(mode + ("\n" + s)) == Some((mode, s))
  {
    var t := mode + ("\n" + s);
    assert t[..6] == mode && t[6] == '\n' && t[7..] == s;
  }

  // What stands before the diff in a changed file.
  ghost predicate StartsTail(s: string) {
    s == "" || "--- " <= s || "diff --git " <= s
  }

  lemma ReadModesText(modes: Option<(string, string)>, s: string)
    requires modes.Some? ==> IsMode(modes.value.0) && IsMode(modes.value.1)
    requires StartsTail(s)
    ensures ReadModes(ModeText(modes) + s) == (modes, s)
  {
    if modes.None? {
      assert ModeText(modes) + s == s;
      assert s != "" ==> s[0] == "--- "[0] || s[0] == "diff --git "[0];
      Differs("old mode ", s, 0);
    } else {
      SomeModes(modes.value.0, modes.value.1, s);
    }
  }

  lemma SomeModes(a: string, b: string, s: string)
    requires IsMode(a) && IsMode(b)
    ensures ReadModes(ModeText(Some((a, b))) + s) == (Some((a, b)), s)
  {
    var s2 := b + ("\n" + s);
    var s1 := a + ("\n" + ("new mode " + s2));
    ModesSplit(a, b, s);
    DropWord("old mode ", s1);
    ReadModeText(a, "new mode " + s2);
    DropWord("new mode ", s2);
    ReadModeText(b, s);
    hide ReadMode, ModeText;
  }

  lemma ModesSplit(a: string, b: string, s: string)
    ensures ModeText(Some((a, b))) + s == "old mode " + (a + ("\n" + ("new mode " + (b + ("\n" + s)))))
  {
    assert (b + "\n") + s == b + ("\n" + s);
    var c := b + "\n";
    assert ("\nnew mode " + c) + s == "\n" + ("new mode " + (c + s));
    var d := "\nnew mode " + c;
    assert (a + d) + s == a + (d + s);
    assert ("old mode " + (a + d)) + s == "old mode " + ((a + d) + s);
  }

  lemma ReadRenameText(renamed: bool, oldPath: Bytes, newPath: Bytes, diff: string, s: string)
    requires StartsTail(s) || "old mode " <= s
    ensures ReadRename((if renamed then RenameText(oldPath, newPath, diff) else "") + s, oldPath, newPath)
            == Some((renamed, renamed && diff == "", s))
  {
    if renamed {
      RenamedText(oldPath, newPath, diff, s);
    } else {
      assert "" + s == s;
      assert s != "" ==> s[0] == "--- "[0] || s[0] == "diff --git "[0] || s[0] == "old mode "[0];
      Differs("similarity index 100%\n", s, 0);
      Differs("rename from ", s, 0);
    }
  }

  lemma RenamedText(oldPath: Bytes, newPath: Bytes, diff: string, s: string)
    ensures ReadRename(RenameText(oldPath, newPath, diff) + s, oldPath, newPath) == Some((true, diff == "", s))
  {
    var t1 := "rename to " + (Quote(newPath) + ("\n" + s));
    var t := "rename from " + (Quote(oldPath) + ("\n" + t1));
    ReadNamedText("rename from ", oldPath, t1);
    ReadNamedText("rename to ", newPath, s);
    RenameLines(oldPath, newPath, diff, s);
    DropWord("similarity index 100%\n", t);
    assert t[0] == "rename from "[0];
    Differs("similarity index 100%\n", t, 0);
    hide Quote, RenameText, ReadNamed;
  }

  lemma RenameLines(oldPath: Bytes, newPath: Bytes, diff: string, s: string)
    ensures var t := "rename from " + (Quote(oldPath) + ("\n" + ("rename to " + (Quote(newPath) + ("\n" + s)))));
            RenameText(oldPath, newPath, diff) + s == if diff == "" then "similarity index 100%\n" + t else t
  {
    hide Quote;
    var a, b := Quote(oldPath), Quote(newPath);
    var lines := "rename from " + (a + ("\n" + ("rename to " + (b + "\n"))));
    var t := "rename from " + (a + ("\n" + ("rename to " + (b + ("\n" + s)))));
    assert lines + s == t;
    if diff == "" {
      assert ("similarity index 100%\n" + lines) + s == "similarity index 100%\n" + (lines + s);
    } else {
      assert "" + lines == lines;
    }
  }

  lemma ReadFrontText(oldPath: Bytes, newPath: Bytes, s: string)
    ensures ReadFront(Front(oldPath, newPath) + s) == Some((oldPath, newPath, s))
  {
    var a, b := "a/" + oldPath, "b/" + newPath;
    var s3 := "\n" + s;
    var s2 := " " + (Quote(b) + s3);
    ReadQuote(a, s2);
    ReadQuote(b, s3);
    FrontSplit(oldPath, newPath, s);
    hide Quote, ReadPath, Front;
    DropWord("diff --git ", Quote(a) + s2);
    DropWord(" ", Quote(b) + s3);
    DropWord("\n", s);
    DropWord("a/", oldPath);
    DropWord("b/", newPath);
  }

  lemma FrontSplit(oldPath: Bytes, newPath: Bytes, s: string)
    ensures Front(oldPath, newPath) + s
            == "diff --git " + (Quote("a/" + oldPath) + (" " + (Quote("b/" + newPath) + ("\n" + s))))
  {
    hide Quote;
  }

  // --- One file ---

  ghost predicate DiffPrinted(diff: string) {
    diff == "" || (Plain(diff) && EndsLine(diff))
  }

  ghost predicate Printed(v: View) {
    match v
    case Created(_, mode, diff) => IsMode(mode) && DiffPrinted(diff)
    case Deleted(_, mode, diff) => IsMode(mode) && DiffPrinted(diff)
    case Changed(_, _, _, modes, diff) =>
      (modes.Some? ==> IsMode(modes.value.0) && IsMode(modes.value.1)) && DiffPrinted(diff)
  }

  lemma CreatedText(path: Bytes, mode: string, diff: string, rest: string)
    requires Printed(Created(path, mode, diff)) && Follows(rest)
    ensures DecodeFile(Text(Created(path, mode, diff)) + rest) == Some((Created(path, mode, diff), rest))
  {
    NullQuoted();
    hide Front, Tail, Quote, ReadFront, ReadBody, ReadMode, DiffPrinted;
    var tail := Tail(NULL_NAME, NewName(path), diff);
    var s := "new file mode " + (mode + ("\n" + (tail + rest)));
    Ungroup(Front(path, path), "new file mode ", mode, tail, rest);
    ReadFrontText(path, path, s);
    DropWord("new file mode ", mode + ("\n" + (tail + rest)));
    ReadModeText(mode, tail + rest);
    ReadTail(NULL_NAME, "b/" + path, diff, rest);
  }

  lemma DeletedText(path: Bytes, mode: string, diff: string, rest: string)
    requires Printed(Deleted(path, mode, diff)) && Follows(rest)
    ensures DecodeFile(Text(Deleted(path, mode, diff)) + rest) == Some((Deleted(path, mode, diff), rest))
  {
    NullQuoted();
    hide Front, Tail, Quote, ReadFront, ReadBody, ReadMode, DiffPrinted;
    var tail := Tail(OldName(path), NULL_NAME, diff);
    var s := "deleted file mode " + (mode + ("\n" + (tail + rest)));
    Ungroup(Front(path, path), "deleted file mode ", mode, tail, rest);
    ReadFrontText(path, path, s);
    Differs("new file mode ", s, 0);
    DropWord("deleted file mode ", mode + ("\n" + (tail + rest)));
    ReadModeText(mode, tail + rest);
    ReadTail("a/" + path, NULL_NAME, diff, rest);
  }

  lemma Ungroup(front: string, word: string, mode: string, tail: string, rest: string)
    ensures (front + (word + (mode + ("\n" + tail)))) + rest == front + (word + (mode + ("\n" + (tail + rest))))
  {
    assert ("\n" + tail) + rest == "\n" + (tail + rest);
    var a := "\n" + tail;
    assert (mode + a) + rest == mode + (a + rest);
    var b := mode + a;
    assert (word + b) + rest == word + (b + rest);
    var c := word + b;
    assert (front + c) + rest == front + (c + rest);
  }

  lemma ChangedText(renamed: bool, oldPath: Bytes, newPath: Bytes, modes: Option<(string, string)>, diff: string,
                    rest: string)
    requires Printed(Changed(renamed, oldPath, newPath, modes, diff)) && Follows(rest)
    ensures DecodeFile(Text(Changed(renamed, oldPath, newPath, modes, diff)) + rest)
            == Some((Changed(renamed, oldPath, newPath, modes, diff), rest))
  {
    hide Quote, ReadFront, ReadBody, ReadModes, ReadRename, RenameText, DiffPrinted, Front, Tail, ModeText, StartsTail;
    var tail := Tail(OldName(oldPath), NewName(newPath), diff);
    var rename := if renamed then RenameText(oldPath, newPath, diff) else "";
    var s2 := tail + rest;
    var s1 := ModeText(modes) + s2;
    var s := rename + s1;
    TailStarts(OldName(oldPath), NewName(newPath), diff, rest);
    ModesStart(modes, s2);
    ChangedStarts(renamed, oldPath, newPath, diff, s1);
    Regroup3(Front(oldPath, newPath), rename, ModeText(modes), tail, rest);
    ReadFrontText(oldPath, newPath, s);
    ReadRenameText(renamed, oldPath, newPath, diff, s1);
    ReadModesText(modes, s2);
    ReadTail("a/" + oldPath, "b/" + newPath, diff, rest);
    assert DecodeFile(Front(oldPath, newPath) + s) == DecodeChanged(oldPath, newPath, s);
  }

  lemma Regroup3(front: string, rename: string, modes: string, tail: string, rest: string)
    ensures (front + (rename + (modes + tail))) + rest == front + (rename + (modes + (tail + rest)))
  {
    assert (modes + tail) + rest == modes + (tail + rest);
    var a := modes + tail;
    assert (rename + a) + rest == rename + (a + rest);
    var b := rename + a;
    assert (front + b) + rest == front + (b + rest);
  }

  lemma TailStarts(oldName: string, newName: string, diff: string, rest: string)
    requires Follows(rest)
    ensures StartsTail(Tail(oldName, newName, diff) + rest)
  {
    var t := Tail(oldName, newName, diff);
    if diff == "" {
      assert t + rest == rest;
    } else {
      var more := oldName + ("\n" + ("+++ " + (newName + ("\n" + diff))));
      assert t + rest == "--- " + (more + rest);
      DropWord("--- ", more + rest);
    }
  }

  lemma ModesStart(modes: Option<(string, string)>, s: string)
    requires StartsTail(s)
    ensures StartsTail(ModeText(modes) + s) || "old mode " <= ModeText(modes) + s
  {
    if modes.None? {
      assert ModeText(modes) + s == s;
    } else {
      var more := modes.value.0 + ("\nnew mode " + (modes.value.1 + "\n"));
      assert ModeText(modes) + s == "old mode " + (more + s);
      DropWord("old mode ", more + s);
    }
  }

  // A changed file's next line is none of the other statuses'.
  lemma ChangedStarts(renamed: bool, oldPath: Bytes, newPath: Bytes, diff: string, s1: string)
    requires StartsTail(s1) || "old mode " <= s1
    ensures var s := (if renamed then RenameText(oldPath, newPath, diff) else "") + s1;
            !("new file mode " <= s) && !("deleted file mode " <= s)
  {
    var s := (if renamed then RenameText(oldPath, newPath, diff) else "") + s1;
    if renamed {
      assert s[0] == "similarity"[0] || s[0] == "rename"[0];
      Differs("new file mode ", s, 0);
      Differs("deleted file mode ", s, 0);
    } else {
      assert s == s1;
      assert s1 != ""
        ==> s1[0] == "--- "[0] || s1[0] == "old mode "[0] || (s1[0] == "diff --git "[0] && s1[1] == "diff --git "[1]);
      Differs("new file mode ", s, 0);
      if s1 != "" && s1[0] == 'd' {
        Differs("deleted file mode ", s, 1);
      } else {
        Differs("deleted file mode ", s, 0);
      }
    }
  }

  lemma DecodeText(v: View, rest: string)
    requires Printed(v) && Follows(rest)
    ensures DecodeFile(Text(v) + rest) == Some((v, rest))
  {
    match v
    case Created(path, mode, diff) => CreatedText(path, mode, diff, rest);
    case Deleted(path, mode, diff) => DeletedText(path, mode, diff, rest);
    case Changed(renamed, oldPath, newPath, modes, diff) => ChangedText(renamed, oldPath, newPath, modes, diff, rest);
  }

  // --- The whole patch ---

  lemma TextStarts(v: View, rest: string)
    ensures "diff --git " <= Text(v) + rest && |Text(v)| > 0
  {
    hide Quote, Tail, RenameText, ModeText;
  }

  lemma {:induction false} DecodeTexts(views: seq<View>)
    requires forall i :: 0 <= i < |views| ==> Printed(views[i])
    ensures Decode(Texts(views)) == Some(views)
    ensures Follows(Texts(views))
  {
    hide Printed, Text, DecodeFile;
    if views != [] {
      var more := views[1..];
      DecodeTexts(more);
      DecodeText(views[0], Texts(more));
      TextStarts(views[0], Texts(more));
      assert [views[0]] + more == views;
    }
  }

  // Accepted files print what the decoder expects.
  lemma ViewPrinted(f: ChangedFile)
    requires FileOk(f)
    ensures f.diff.Some? && StatusOk(f, f.diff.value) && Printed(ViewOf(f))
  {
    ValidPlain(f.diff.value);
    hide Valid, SplitLines, Lines, SafePath, OldLines, NewLines, Added, Removed, Plain;
  }

  // The rendered patch determines every file of the list: its status, paths, mode
  // change, and its diff up to a final line feed.
  lemma DecodeRendered(files: seq<ChangedFile>)
    requires forall i :: 0 <= i < |files| ==> FileOk(files[i])
    ensures forall i :: 0 <= i < |files| ==> files[i].diff.Some? && StatusOk(files[i], files[i].diff.value)
    ensures Decode(Texts(Views(files))) == Some(Views(files))
  {
    hide FileOk, Printed, ViewOf, StatusOk, Texts, Decode;
    forall i | 0 <= i < |files|
      ensures files[i].diff.Some? && StatusOk(files[i], files[i].diff.value) && Printed(ViewOf(files[i])) {
      ViewPrinted(files[i]);
    }
    DecodeTexts(Views(files));
  }

  // Two accepted lists render alike exactly when they say the same of every file.
  lemma UniquelyDecodable(a: seq<ChangedFile>, b: seq<ChangedFile>)
    requires forall i :: 0 <= i < |a| ==> FileOk(a[i])
    requires forall i :: 0 <= i < |b| ==> FileOk(b[i])
    ensures forall i :: 0 <= i < |a| ==> a[i].diff.Some? && StatusOk(a[i], a[i].diff.value)
    ensures forall i :: 0 <= i < |b| ==> b[i].diff.Some? && StatusOk(b[i], b[i].diff.value)
    ensures Texts(Views(a)) == Texts(Views(b)) <==> Views(a) == Views(b)
  {
    hide FileOk, ViewOf, StatusOk, Texts, Decode;
    DecodeRendered(a);
    DecodeRendered(b);
  }

  // A mode that does not change is not written: files that differ in it alone
  // render alike.
  lemma UnchangedModeLost(f: ChangedFile, mode: string)
    requires FileOk(f) && !f.newFile && !f.deletedFile && f.oldMode == f.newMode && IsMode(mode)
    ensures var g := f.(oldMode := Some(mode), newMode := Some(mode));
            && FileOk(g) && f.diff.Some? && StatusOk(f, f.diff.value) && StatusOk(g, g.diff.value)
            && Texts(Views([f])) == Texts(Views([g]))
  {
    hide Valid, SafePath, Text, SplitLines, Lines;
    var g := f.(oldMode := Some(mode), newMode := Some(mode));
    assert Views([f]) == Views([g]);
  }
}
