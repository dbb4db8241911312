/** Rendering changed files as one Git patch, and reading it back
    (render_git_patch in skills-src/l2/local/gitcode-pr-review-fetch/scripts/gitcode_patch.py). */
module GitPatch {
  import opened Options
  import opened UnifiedDiff
  import opened GitPaths

  // A line count in a payload: no such key, null, a number, or a value of another type.
  datatype Count = Absent | Null | Number(value: int) | Other

  // A changed-file payload; a line count may stand in its patch and beside it.
  datatype ChangedFile = ChangedFile(
    tooLarge: bool,
    diff: Option<string>,
    newFile: bool,
    deletedFile: bool,
    renamedFile: bool,
    oldPath: Option<Bytes>,
    newPath: Option<Bytes>,
    oldMode: Option<string>,
    newMode: Option<string>,
    addedLines: Count,
    additions: Count,
    removedLines: Count,
    deletions: Count)

  // --- What is accepted ---

  // _required_path
  predicate PathOk(path: Option<Bytes>) {
    path.Some? && path.value != "" && SafePath(path.value)
  }

  // _required_mode
  predicate ModeOk(mode: Option<string>) {
    mode.Some? && IsMode(mode.value)
  }

  predicate IsMode(mode: string) {
    mode == "100644" || mode == "100755"
  }

  predicate StatusOk(f: ChangedFile, diff: string) {
    if f.newFile then
      && PathOk(f.newPath) && ModeOk(f.newMode)
      && (if f.oldPath.None? then f.oldMode.None?
          else PathOk(f.oldPath) && f.oldPath == f.newPath && f.oldMode == Some("0"))
    else if f.deletedFile then
      PathOk(f.oldPath) && ModeOk(f.oldMode) && f.newPath.None? && f.newMode.None?
    else
      && PathOk(f.oldPath) && PathOk(f.newPath) && ModeOk(f.oldMode) && ModeOk(f.newMode)
      && (f.renamedFile <==> f.oldPath != f.newPath)
      && (!f.renamedFile ==> diff != "" || f.oldMode != f.newMode)
  }

  predicate IsBinaryLine(line: string) {
    StartsWith(line, "Binary files ") || StripEnding(line) == "GIT binary patch"
  }

  // _validate_line_count of _expected_line_count: null in the patch hides the count beside it.
  predicate CountOk(actual: nat, nested: Count, topLevel: Count) {
    match ExpectedCount(nested, topLevel)
    case Absent | Null => true
    case Number(expected) => actual == expected
    case Other => false
  }

  function ExpectedCount(nested: Count, topLevel: Count): Count {
    if nested.Absent? then topLevel else nested
  }

  ghost predicate FileOk(f: ChangedFile) {
    && !f.tooLarge
    && f.diff.Some?
    && (forall line :: line in SplitLines(f.diff.value) ==> !IsBinaryLine(line))
    && !(f.newFile && f.deletedFile) && !(f.newFile && f.renamedFile) && !(f.deletedFile && f.renamedFile)
    && StatusOk(f, f.diff.value)
    && var ts := Lines(f.diff.value);
       && Valid(ts)
       && (f.newFile ==> OldLines(ts) == 0)
       && (f.deletedFile ==> NewLines(ts) == 0)
       && CountOk(Added(ts), f.addedLines, f.additions) && CountOk(Removed(ts), f.removedLines, f.deletions)
  }

  method ValidateStatusMatrix(f: ChangedFile, diff: string) returns (ok: bool)
    ensures ok <==> StatusOk(f, diff)
  {
    if f.newFile {
      if !PathOk(f.newPath) || !ModeOk(f.newMode) {
        return false;
      }
      if f.oldPath.None? {
        return f.oldMode.None?;
      }
      if !PathOk(f.oldPath) || f.oldPath.value != f.newPath.value {
        return false;
      }
      return f.oldMode == Some("0");
    }
    if f.deletedFile {
      if !PathOk(f.oldPath) || !ModeOk(f.oldMode) || f.newPath.Some? {
        return false;
      }
      return f.newMode.None?;
    }
    if !PathOk(f.oldPath) || !PathOk(f.newPath) || !ModeOk(f.oldMode) || !ModeOk(f.newMode) {
      return false;
    }
    if f.renamedFile {
      ok := f.oldPath != f.newPath;
    } else if f.oldPath != f.newPath {
      ok := false;
    } else {
      ok := diff != "" || f.oldMode != f.newMode;
    }
  }

  // _validate_file_patch
  method ValidateFilePatch(f: ChangedFile) returns (ok: bool)
    ensures ok <==> FileOk(f)
  {
    hide Valid, SplitLines, StatusOk, OldLines, NewLines, Added, Removed, Lines, IsBinaryLine;
    if f.tooLarge || f.diff.None? {
      return false;
    }
    var diff := f.diff.value;
    var diffLines := SplitLines(diff);
    if exists line | line in diffLines :: IsBinaryLine(line) {
      return false;
    }
    if (f.newFile && f.deletedFile) || (f.newFile && f.renamedFile) || (f.deletedFile && f.renamedFile) {
      return false;
    }
    var status := ValidateStatusMatrix(f, diff);
    if !status {
      return false;
    }
    var counts := CountHunkChanges(diff);
    if counts.None? {
      return false;
    }
    SomeLine(diff);
    if diff != "" && !counts.value.hasHunk {
      return false;
    }
    if (f.newFile && counts.value.oldLines != 0) || (f.deletedFile && counts.value.newLines != 0) {
      return false;
    }
    ok := CountOk(counts.value.added, f.addedLines, f.additions)
          && CountOk(counts.value.removed, f.removedLines, f.deletions);
  }

  // --- Laws of acceptance ---

  // A count in the patch decides, whatever stands beside it; null there and no count at
  // all both waive the comparison.
  lemma CountPrecedence(f: ChangedFile)
    ensures !f.addedLines.Absent? ==> (FileOk(f) <==> FileOk(f.(additions := f.addedLines, addedLines := Absent)))
    ensures !f.removedLines.Absent? ==> (FileOk(f) <==> FileOk(f.(deletions := f.removedLines, removedLines := Absent)))
    ensures f.addedLines == Absent ==>
              (FileOk(f) <==> match f.additions
                              case Number(n) => FileOk(f.(additions := Null)) && n == Added(Lines(f.diff.value))
                              case Other => false
                              case _ => FileOk(f.(additions := Null)))
    ensures f.removedLines == Absent ==>
              (FileOk(f) <==> match f.deletions
                              case Number(n) => FileOk(f.(deletions := Null)) && n == Removed(Lines(f.diff.value))
                              case Other => false
                              case _ => FileOk(f.(deletions := Null)))
  {
    hide Valid, SplitLines, PathOk, ModeOk, OldLines, NewLines, Added, Removed, Lines, IsBinaryLine;
  }

  // A path whose parts between slashes are names.
  ghost predicate Named(path: string) {
    exists parts: seq<string> :: NamedBy(path, parts)
  }

  ghost predicate NamedBy(path: string, parts: seq<string>) {
    && parts != [] && path == JoinSlash(parts)
    && forall part :: part in parts ==>
         && part != "" && part != "." && part != ".."
         && '/' !in part && '\0' !in part && '\r' !in part && '\n' !in part
  }

  const MODES := {"100644", "100755"}

  ghost predicate Creation(f: ChangedFile, path: Bytes, mode: string) {
    && Named(path) && mode in MODES
    && f.newFile && !f.deletedFile && !f.renamedFile
    && f.newPath == Some(path) && f.newMode == Some(mode)
    && ((f.oldPath == None && f.oldMode == None) || (f.oldPath == Some(path) && f.oldMode == Some("0")))
  }

  ghost predicate Deletion(f: ChangedFile, path: Bytes, mode: string) {
    && Named(path) && mode in MODES
    && !f.newFile && f.deletedFile && !f.renamedFile
    && f.oldPath == Some(path) && f.oldMode == Some(mode) && f.newPath == None && f.newMode == None
  }

  // A renaming, or a change under one name that changes the text or the mode.
  ghost predicate Change(f: ChangedFile, before: Bytes, after: Bytes, oldMode: string, newMode: string, diff: string) {
    && Named(before) && Named(after) && oldMode in MODES && newMode in MODES
    && !f.newFile && !f.deletedFile
    && f.oldPath == Some(before) && f.newPath == Some(after)
    && f.oldMode == Some(oldMode) && f.newMode == Some(newMode)
    && (if f.renamedFile then before != after else before == after && (diff != "" || oldMode != newMode))
  }

  lemma PathOkIff(path: Option<Bytes>)
    ensures PathOk(path) <==> path.Some? && Named(path.value)
  {
    if path.Some? {
      JoinOfComponents(path.value);
      SafePathIff(Components(path.value));
      if PathOk(path) {
        assert NamedBy(path.value, Components(path.value));
      }
      if Named(path.value) {
        var parts :| NamedBy(path.value, parts);
        SafePathIff(parts);
        if path.value == "" {
          JoinEmpty(parts);
        }
      }
    }
  }

  lemma JoinEmpty(parts: seq<string>)
    requires parts != [] && JoinSlash(parts) == ""
    ensures parts[0] == ""
  {
  }

  lemma StatusForms(f: ChangedFile, diff: string)
    ensures !(f.newFile && f.deletedFile) && !(f.newFile && f.renamedFile) && !(f.deletedFile && f.renamedFile)
            && StatusOk(f, diff) <==>
              || (exists path, mode :: Creation(f, path, mode))
              || (exists path, mode :: Deletion(f, path, mode))
              || (exists before, after, oldMode, newMode :: Change(f, before, after, oldMode, newMode, diff))
  {
    hide Named, SafePath;
    PathOkIff(f.oldPath);
    PathOkIff(f.newPath);
    if !(f.newFile && f.deletedFile) && !(f.newFile && f.renamedFile) && !(f.deletedFile && f.renamedFile)
       && StatusOk(f, diff) {
      if f.newFile {
        assert Creation(f, f.newPath.value, f.newMode.value);
      } else if f.deletedFile {
        assert Deletion(f, f.oldPath.value, f.oldMode.value);
      } else {
        assert Change(f, f.oldPath.value, f.newPath.value, f.oldMode.value, f.newMode.value, diff);
      }
    }
  }

  // A line that announces binary content is no line of a diff.
  lemma BinaryMalformed(line: string)
    requires IsBinaryLine(line)
    ensures Lex(line) == Malformed
  {
    assert line != "" && line[0] in {'B', 'G'} by {
      if !StartsWith(line, "Binary files ") {
        StripKeepsFirst(line);
      }
    }
    assert !StartsWith(line, "@@") && !StartsWith(line, " ") && !StartsWith(line, "+") && !StartsWith(line, "-");
    StripKeepsFirst(line);
  }

  lemma {:induction false} StripKeepsFirst(s: string)
    ensures StripEnding(s) != "" ==> s != "" && StripEnding(s)[0] == s[0]
    ensures s != "" && !IsEnding(s[0]) ==> StripEnding(s) != ""
  {
    if s != "" && IsEnding(s[|s| - 1]) {
      StripKeepsFirst(s[..|s| - 1]);
    }
  }

  // What is accepted, form by form: a creation without old lines, a deletion without
  // new ones, a renaming or change, each with a valid diff and its declared counts.
  lemma AcceptedForms(f: ChangedFile)
    ensures FileOk(f) <==>
              && !f.tooLarge && f.diff.Some?
              && var ts := Lines(f.diff.value);
                 && Valid(ts)
                 && (|| (exists path, mode :: Creation(f, path, mode) && OldLines(ts) == 0)
                     || (exists path, mode :: Deletion(f, path, mode) && NewLines(ts) == 0)
                     || (exists a, b, x, y :: Change(f, a, b, x, y, f.diff.value)))
                 && CountOk(Added(ts), f.addedLines, f.additions)
                 && CountOk(Removed(ts), f.removedLines, f.deletions)
  {
    hide StatusOk, SplitLines, OldLines, NewLines, Added, Removed, CountOk;
    if f.diff.Some? {
      var lines, ts := SplitLines(f.diff.value), Lines(f.diff.value);
      StatusForms(f, f.diff.value);
      if Valid(ts) {
        forall line | line in lines ensures !IsBinaryLine(line) {
          var i :| 0 <= i < |lines| && lines[i] == line;
          assert LineOk(ts, i);
          if IsBinaryLine(line) {
            BinaryMalformed(line);
          }
        }
      }
    }
  }

  lemma SomeLine(diff: string)
    ensures diff != "" <==> Lines(diff) != []
  {
  }

  // --- What is written ---

  // What the patch says of a file. An unchanged mode is not part of it.
  datatype View =
    | Created(path: Bytes, mode: string, diff: string)
    | Deleted(path: Bytes, mode: string, diff: string)
    | Changed(renamed: bool, oldPath: Bytes, newPath: Bytes, modes: Option<(string, string)>, diff: string)

  // _finish_file_patch
  function Finish(text: string): string {
    if text != "" && text[|text| - 1] == '\n' then text else text + "\n"
  }

  function ViewOf(f: ChangedFile): View
    requires f.diff.Some? && StatusOk(f, f.diff.value)
  {
    var diff := Finished(f.diff.value);
    if f.newFile then Created(f.newPath.value, f.newMode.value, diff)
    else if f.deletedFile then Deleted(f.oldPath.value, f.oldMode.value, diff)
    else Changed(f.renamedFile, f.oldPath.value, f.newPath.value,
                 if f.oldMode == f.newMode then None else Some((f.oldMode.value, f.newMode.value)), diff)
  }

  ghost function OldName(path: Bytes): string {
    Quote("a/" + path)
  }

  ghost function NewName(path: Bytes): string {
    Quote("b/" + path)
  }

  ghost function Front(oldPath: Bytes, newPath: Bytes): string {
    "diff --git " + (OldName(oldPath) + (" " + (NewName(newPath) + "\n")))
  }

  ghost function Tail(oldName: string, newName: string, diff: string): string {
    if diff == "" then "" else "--- " + (oldName + ("\n" + ("+++ " + (newName + ("\n" + diff)))))
  }

  ghost function RenameText(oldPath: Bytes, newPath: Bytes, diff: string): string {
    (if diff == "" then "similarity index 100%\n" else "")
    + ("rename from " + (Quote(oldPath) + ("\n" + ("rename to " + (Quote(newPath) + "\n")))))
  }

  function ModeText(modes: Option<(string, string)>): string {
    if modes.None? then "" else "old mode " + (modes.value.0 + ("\nnew mode " + (modes.value.1 + "\n")))
  }

  ghost function Text(v: View): string {
    match v
    case Created(path, mode, diff) =>
      Front(path, path) + ("new file mode " + (mode + ("\n" + Tail("/dev/null", NewName(path), diff))))
    case Deleted(path, mode, diff) =>
      Front(path, path) + ("deleted file mode " + (mode + ("\n" + Tail(OldName(path), "/dev/null", diff))))
    case Changed(renamed, oldPath, newPath, modes, diff) =>
      Front(oldPath, newPath)
      + ((if renamed then RenameText(oldPath, newPath, diff) else "")
         + (ModeText(modes) + Tail(OldName(oldPath), NewName(newPath), diff)))
  }

  // The part of a patch before the diff ends with a line feed.
  ghost predicate EndsLine(text: string) {
    text != "" && text[|text| - 1] == '\n'
  }

  lemma FinishTail(head: string, oldName: string, newName: string, diff: string)
    requires EndsLine(head)
    ensures Finish(head + Tail(oldName, newName, diff))
        == head + Tail(oldName, newName, if diff == "" then "" else Finish(diff))
  {
    if diff == "" {
      assert head + "" == head;
    } else {
      var lead := "--- " + (oldName + ("\n" + ("+++ " + (newName + "\n"))));
      TailLead(oldName, newName, diff);
      TailLead(oldName, newName, Finish(diff));
      assert head + (lead + diff) == (head + lead) + diff;
      assert head + (lead + Finish(diff)) == (head + lead) + Finish(diff);
      FinishLast(head + lead, diff);
    }
  }

  lemma TailLead(oldName: string, newName: string, diff: string)
    requires diff != ""
    ensures Tail(oldName, newName, diff) == ("--- " + (oldName + ("\n" + ("+++ " + (newName + "\n"))))) + diff
  {
    assert (newName + "\n") + diff == newName + ("\n" + diff);
    assert ("+++ " + (newName + "\n")) + diff == "+++ " + ((newName + "\n") + diff);
    var a := "+++ " + (newName + "\n");
    assert ("\n" + a) + diff == "\n" + (a + diff);
    var b := "\n" + a;
    assert (oldName + b) + diff == oldName + (b + diff);
    var c := oldName + b;
    assert ("--- " + c) + diff == "--- " + (c + diff);
  }

  lemma FinishLast(head: string, diff: string)
    requires diff != ""
    ensures Finish(head + diff) == head + Finish(diff)
  {
    assert (head + diff) + "\n" == head + (diff + "\n");
  }

  method RenderFront(oldPath: Bytes, newPath: Bytes) returns (r: string)
    ensures r == Front(oldPath, newPath) && EndsLine(r)
  {
    hide Quote;
    var oldName := QuoteGitPath("a/" + oldPath);
    var newName := QuoteGitPath("b/" + newPath);
    r := "diff --git " + (oldName + (" " + (newName + "\n")));
  }

  method RenderTail(oldName: string, newName: string, diff: string) returns (r: string)
    ensures r == Tail(oldName, newName, diff)
  {
    r := if diff == "" then "" else "--- " + (oldName + ("\n" + ("+++ " + (newName + ("\n" + diff)))));
  }

  method RenderRename(oldPath: Bytes, newPath: Bytes, diff: string) returns (r: string)
    ensures r == RenameText(oldPath, newPath, diff) && EndsLine(r)
  {
    hide Quote;
    var from := QuoteGitPath(oldPath);
    var to := QuoteGitPath(newPath);
    r := (if diff == "" then "similarity index 100%\n" else "")
      + ("rename from " + (from + ("\n" + ("rename to " + (to + "\n")))));
  }

  // _render_file_patch
  method RenderFilePatch(f: ChangedFile) returns (r: string)
    requires f.diff.Some? && StatusOk(f, f.diff.value)
    ensures r == Text(ViewOf(f))
  {
    var diff := f.diff.value;
    if f.newFile {
      r := RenderCreated(f.newPath.value, f.newMode.value, diff);
    } else if f.deletedFile {
      r := RenderDeleted(f.oldPath.value, f.oldMode.value, diff);
    } else {
      r := RenderChanged(f.renamedFile, f.oldPath.value, f.newPath.value, f.oldMode.value, f.newMode.value, diff);
    }
  }

  function Finished(diff: string): string {
    if diff == "" then "" else Finish(diff)
  }

  method RenderCreated(path: Bytes, mode: string, diff: string) returns (r: string)
    ensures r == Text(Created(path, mode, Finished(diff)))
  {
    hide Front, Tail, Quote;
    var text := RenderFront(path, path);
    var name := QuoteGitPath("b/" + path);
    var tail := RenderTail("/dev/null", name, diff);
    ghost var front := text;
    text := text + ("new file mode " + (mode + "\n"));
    FinishTail(text, "/dev/null", name, diff);
    r := Finish(text + tail);
    Regroup(front, "new file mode ", mode, Tail("/dev/null", name, Finished(diff)));
  }

  method RenderDeleted(path: Bytes, mode: string, diff: string) returns (r: string)
    ensures r == Text(Deleted(path, mode, Finished(diff)))
  {
    hide Front, Tail, Quote;
    var text := RenderFront(path, path);
    var name := QuoteGitPath("a/" + path);
    var tail := RenderTail(name, "/dev/null", diff);
    ghost var front := text;
    text := text + ("deleted file mode " + (mode + "\n"));
    FinishTail(text, name, "/dev/null", diff);
    r := Finish(text + tail);
    Regroup(front, "deleted file mode ", mode, Tail(name, "/dev/null", Finished(diff)));
  }

  lemma Regroup(front: string, word: string, mode: string, tail: string)
    ensures (front + (word + (mode + "\n"))) + tail == front + (word + (mode + ("\n" + tail)))
  {
    assert (mode + "\n") + tail == mode + ("\n" + tail);
    var a := mode + "\n";
    assert (word + a) + tail == word + (a + tail);
    var b := word + a;
    assert (front + b) + tail == front + (b + tail);
  }

  method RenderChanged(renamed: bool, oldPath: Bytes, newPath: Bytes, oldMode: string, newMode: string, diff: string)
    returns (r: string)
    ensures r == Text(Changed(renamed, oldPath, newPath,
                              if oldMode == newMode then None else Some((oldMode, newMode)), Finished(diff)))
  {
    hide Front, Tail, Quote, RenameText, ModeText;
    ghost var modes := if oldMode == newMode then None else Some((oldMode, newMode));
    var front := RenderFront(oldPath, newPath);
    var oldName := QuoteGitPath("a/" + oldPath);
    var newName := QuoteGitPath("b/" + newPath);
    var tail := RenderTail(oldName, newName, diff);
    var rename := "";
    if renamed {
      rename := RenderRename(oldPath, newPath, diff);
    }
    var modeText := "";
    if oldMode != newMode {
      modeText := "old mode " + (oldMode + ("\nnew mode " + (newMode + "\n")));
    }
    assert modeText == ModeText(modes) by {
      ModeTextIs(oldMode, newMode);
    }
    var text := front + rename + modeText;
    FinishTail(text, oldName, newName, diff);
    r := Finish(text + tail);
    var finished := Tail(oldName, newName, Finished(diff));
    assert text + finished == front + (rename + (modeText + finished));
    RenameSame(oldPath, newPath, diff);
  }

  lemma ModeTextIs(oldMode: string, newMode: string)
    ensures ModeText(None) == ""
    ensures ModeText(Some((oldMode, newMode))) == "old mode " + (oldMode + ("\nnew mode " + (newMode + "\n")))
  {
  }

  lemma RenameSame(oldPath: Bytes, newPath: Bytes, diff: string)
    ensures RenameText(oldPath, newPath, Finished(diff)) == RenameText(oldPath, newPath, diff)
  {
  }

  ghost function Texts(views: seq<View>): string {
    if views == [] then "" else Text(views[0]) + Texts(views[1..])
  }

  function Views(files: seq<ChangedFile>): seq<View>
    requires forall i :: 0 <= i < |files| ==> files[i].diff.Some? && StatusOk(files[i], files[i].diff.value)
  {
    seq(|files|, i requires 0 <= i < |files| => ViewOf(files[i]))
  }

  // render_git_patch
  method RenderGitPatch(files: seq<ChangedFile>) returns (r: Option<string>)
    ensures r.Some? <==> forall i :: 0 <= i < |files| ==> FileOk(files[i])
    ensures r.Some? ==> r.value == Texts(Views(files))
  {
    hide FileOk, Text, ViewOf, StatusOk;
    for i := 0 to |files|
      invariant forall j :: 0 <= j < i ==> FileOk(files[j])
    {
      var ok := ValidateFilePatch(files[i]);
      if !ok {
        return None;
      }
    }
    forall i | 0 <= i < |files| ensures files[i].diff.Some? && StatusOk(files[i], files[i].diff.value) {
      FileParts(files[i]);
    }
    ghost var views := Views(files);
    var text := "";
    for i := 0 to |files|
      invariant text + Texts(views[i..]) == Texts(views)
    {
      var one := RenderFilePatch(files[i]);
      assert views[i..][0] == ViewOf(files[i]) && views[i..][1..] == views[i + 1..];
      assert text + (one + Texts(views[i + 1..])) == (text + one) + Texts(views[i + 1..]);
      text := text + one;
    }
    assert views[|files|..] == [];
    r := Some(text);
  }

  lemma FileParts(f: ChangedFile)
    requires FileOk(f)
    ensures f.diff.Some? && StatusOk(f, f.diff.value) && Valid(Lines(f.diff.value))
  {
  }
}
