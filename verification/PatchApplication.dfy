/** What a valid diff does to a file: where its hunks go, what applying it yields,
    and that its reverse undoes it. */
module PatchApplication {
  import opened UnifiedDiff

  // --- Turning a diff around ---

  function Flip(l: Line): Line {
    match l
    case Header(a, b, c, d) => Header(c, d, a, b)
    case Add(text) => Remove(text)
    case Remove(text) => Add(text)
    case _ => l
  }

  function FlipAll(ts: seq<Line>): (r: seq<Line>)
    ensures |r| == |ts|
  {
    seq(|ts|, i requires 0 <= i < |ts| => Flip(ts[i]))
  }

  function Reverse(h: Hunk): Hunk {
    Hunk(h.newStart, h.newCount, h.oldStart, h.oldCount, FlipAll(h.body))
  }

  function ReverseAll(hs: seq<Hunk>): (r: seq<Hunk>)
    ensures |r| == |hs|
  {
    seq(|hs|, i requires 0 <= i < |hs| => Reverse(hs[i]))
  }

  lemma {:induction false} FlipCounts(body: seq<Line>)
    ensures OldLines(FlipAll(body)) == NewLines(body) && NewLines(FlipAll(body)) == OldLines(body)
    ensures Added(FlipAll(body)) == Removed(body) && Removed(FlipAll(body)) == Added(body)
  {
    if body != [] {
      var n := |body| - 1;
      FlipCounts(body[..n]);
      assert FlipAll(body)[..n] == FlipAll(body[..n]);
    }
  }

  lemma PushFlipped(hs: seq<Hunk>, l: Line)
    ensures Push(ReverseAll(hs), Flip(l)) == ReverseAll(Push(hs, l))
  {
    if !l.Header? && hs != [] {
      var h := hs[|hs| - 1];
      assert FlipAll(h.body + [l]) == FlipAll(h.body) + [Flip(l)];
    }
  }

  lemma {:induction false} FlippedHunks(ts: seq<Line>, n: nat)
    requires n <= |ts|
    ensures Hunks(FlipAll(ts), n) == ReverseAll(Hunks(ts, n))
  {
    if n > 0 {
      FlippedHunks(ts, n - 1);
      PushFlipped(Hunks(ts, n - 1), ts[n - 1]);
    }
  }

  lemma FlippedEnds(ts: seq<Line>, n: nat)
    requires n <= |ts|
    ensures OldEnded(FlipAll(ts), n) <==> NewEnded(ts, n)
    ensures NewEnded(FlipAll(ts), n) <==> OldEnded(ts, n)
  {
    var fs := FlipAll(ts);
    forall q | 0 < q < n ensures EndsOld(fs, q) == EndsNew(ts, q) && EndsNew(fs, q) == EndsOld(ts, q) {
    }
    if NewEnded(ts, n) {
      var q :| 0 < q < n && EndsNew(ts, q);
      assert EndsOld(fs, q);
    }
    if OldEnded(ts, n) {
      var q :| 0 < q < n && EndsOld(ts, q);
      assert EndsNew(fs, q);
    }
  }

  lemma FlippedLine(ts: seq<Line>, p: nat)
    requires p < |ts|
    ensures LineOk(FlipAll(ts), p) <==> LineOk(ts, p)
  {
    FlippedEnds(ts, p);
    hide OldEnded, NewEnded;
  }

  lemma FlippedLinked(hs: seq<Hunk>, k: nat)
    requires k < |hs|
    ensures Linked(ReverseAll(hs), k) <==> Linked(hs, k)
    ensures HunkOk(ReverseAll(hs)[k]) <==> HunkOk(hs[k])
  {
    FlipCounts(hs[k].body);
  }

  lemma FlipBack(ts: seq<Line>)
    ensures FlipAll(FlipAll(ts)) == ts
  {
  }

  // Swapping plus and minus, and the old and new ranges, keeps validity.
  lemma FlippedValid(ts: seq<Line>)
    ensures Valid(FlipAll(ts)) <==> Valid(ts)
  {
    FlipBack(ts);
    if Valid(ts) {
      ValidFlips(ts);
    }
    if Valid(FlipAll(ts)) {
      ValidFlips(FlipAll(ts));
    }
  }

  lemma ValidFlips(ts: seq<Line>)
    requires Valid(ts)
    ensures Valid(FlipAll(ts))
  {
    hide LineOk, Linked, HunkOk;
    FlippedHunks(ts, |ts|);
    forall p | 0 <= p < |ts| ensures LineOk(FlipAll(ts), p) {
      FlippedLine(ts, p);
    }
    forall k | 0 <= k < |Hunks(ts, |ts|)|
      ensures Linked(ReverseAll(Hunks(ts, |ts|)), k) && HunkOk(ReverseAll(Hunks(ts, |ts|))[k]) {
      FlippedLinked(Hunks(ts, |ts|), k);
    }
  }

  // The turned text of a line. A header is written afresh, without what may follow
  // its ranges.
  function FlipLine(line: string): string {
    match Lex(line)
    case Header(a, b, c, d) => Print(Header(c, d, a, b)) + "\n"
    case Add(text) => "-" + text
    case Remove(text) => "+" + text
    case _ => line
  }

  function FlipLines(lines: seq<string>): (r: seq<string>)
    ensures |r| == |lines|
  {
    seq(|lines|, i requires 0 <= i < |lines| => FlipLine(lines[i]))
  }

  function FlipText(diff: string): string {
    Concat(FlipLines(SplitLines(diff)))
  }

  lemma ContentLine(line: string)
    ensures Lex(line).Add? ==> line == "+" + Lex(line).text
    ensures Lex(line).Remove? ==> line == "-" + Lex(line).text
  {
    hide ParseHeader, StripEnding;
    HeadersParse(line);
  }

  lemma HeadersParse(line: string)
    ensures ParseHeader(line).Header? || ParseHeader(line).Malformed?
    ensures StartsWith(line, "@@") ==> Lex(line).Header? || Lex(line).Malformed?
  {
  }

  lemma FlippedLex(line: string)
    ensures Lex(FlipLine(line)) == Flip(Lex(line))
  {
    ContentLine(line);
    hide Lex, Print;
    match Lex(line)
    case Header(a, b, c, d) => HeaderLine(c, d, a, b);
    case Add(text) => PrintedContent("-", text);
    case Remove(text) => PrintedContent("+", text);
    case _ =>
  }

  lemma FlippedShape(line: string)
    requires LineShape(line)
    ensures LineShape(FlipLine(line)) && (FlipLine(line)[0] == '\n' ==> line[0] == '\n')
    ensures forall next: string :: Closes(line, next) ==> Closes(FlipLine(line), next)
  {
    ContentLine(line);
    hide Lex, Print;
    match Lex(line)
    case Header(a, b, c, d) => HeaderLine(c, d, a, b);
    case Add(text) => Recoloured("+", "-", text);
    case Remove(text) => Recoloured("-", "+", text);
    case _ =>
  }

  lemma Recoloured(column: string, other: string, text: string)
    requires |column| == |other| == 1 && !IsBoundary(column[0]) && !IsBoundary(other[0])
    ensures LineShape(column + text) ==> LineShape(other + text)
    ensures forall next: string :: Closes(column + text, next) ==> Closes(other + text, next)
  {
    var a, b := column + text, other + text;
    assert |a| == |b| && forall i :: 0 < i < |a| ==> a[i] == b[i];
    assert a[0] == column[0] && b[0] == other[0];
  }

  lemma FlippedSeparate(lines: seq<string>)
    requires Separate(lines)
    ensures Separate(FlipLines(lines))
  {
    hide FlipLine, LineShape;
    var turned := FlipLines(lines);
    forall k | 0 <= k < |lines| ensures LineShape(turned[k]) {
      FlippedShape(lines[k]);
    }
    forall k | 0 <= k < |lines| - 1 ensures Closes(turned[k], turned[k + 1]) {
      assert Closes(lines[k], lines[k + 1]);
      FlippedShape(lines[k]);
      FlippedShape(lines[k + 1]);
      NotEmpty(lines[k + 1]);
      NotEmpty(turned[k + 1]);
    }
  }

  lemma NotEmpty(line: string)
    requires LineShape(line)
    ensures line != ""
  {
  }

  // The turned text has the turned lines.
  lemma FlippedLines(diff: string)
    ensures Lines(FlipText(diff)) == FlipAll(Lines(diff))
  {
    hide FlipLine, Lex, Flip;
    var lines := SplitLines(diff);
    SplitSeparate(diff);
    FlippedSeparate(lines);
    SplitConcat(FlipLines(lines));
    hide SplitLines, Concat;
    forall i | 0 <= i < |lines| ensures Lex(FlipLines(lines)[i]) == Flip(Lex(lines[i])) {
      FlippedLex(lines[i]);
    }
  }

  // ... so turning a diff around keeps its acceptance and swaps the counts that the
  // check returns.
  lemma FlippedCheck(diff: string)
    ensures var turned := Lines(FlipText(diff));
            && turned == FlipAll(Lines(diff))
            && (Valid(turned) <==> Valid(Lines(diff)))
            && Added(turned) == Removed(Lines(diff)) && Removed(turned) == Added(Lines(diff))
            && OldLines(turned) == NewLines(Lines(diff)) && NewLines(turned) == OldLines(Lines(diff))
  {
    hide Valid, SplitLines, Concat, FlipText, Lex;
    FlippedLines(diff);
    FlippedValid(Lines(diff));
    FlipCounts(Lines(diff));
  }

  // --- The end of a file ---

  // A no-newline marker stands only in the last hunk: no header follows it.
  lemma MarkerInLastHunk(ts: seq<Line>, i: nat, j: nat)
    requires Valid(ts) && i < j < |ts| && ts[i].NoNewline?
    ensures !ts[j].Header?
  {
    assert LineOk(ts, i);
    assert EndsOld(ts, i) || EndsNew(ts, i);
    if ts[j].Header? {
      var hs := Hunks(ts, |ts|);
      HunksBefore(ts, j);
      var k := HunkOpened(ts, j, |ts|);
      assert Linked(hs, k) && HunkOk(hs[k]);
      assert !Zero(hs[k]);
      var a := OldLineIn(hs[k].body);
      var b := NewLineIn(hs[k].body);
      var p := BodyLine(ts, j, |ts|, k, a);
      var q := BodyLine(ts, j, |ts|, k, b);
      NothingAfterMarker(ts, i, p);
      NothingAfterMarker(ts, i, q);
      assert false;
    }
  }

  lemma NothingAfterMarker(ts: seq<Line>, i: nat, p: nat)
    requires Valid(ts) && 0 < i < p < |ts|
    ensures EndsOld(ts, i) ==> !OldLine(ts[p])
    ensures EndsNew(ts, i) ==> !NewLine(ts[p])
  {
    assert LineOk(ts, p);
  }

  lemma HunksBefore(ts: seq<Line>, j: nat)
    requires Valid(ts) && 0 < j <= |ts|
    ensures Hunks(ts, j) != []
  {
    assert LineOk(ts, 0);
    HunksAppear(ts, j);
  }

  lemma {:induction false} OldLineIn(body: seq<Line>) returns (a: nat)
    requires OldLines(body) > 0
    ensures a < |body| && OldLine(body[a])
  {
    if OldLine(body[|body| - 1]) {
      a := |body| - 1;
    } else {
      a := OldLineIn(body[..|body| - 1]);
    }
  }

  lemma {:induction false} NewLineIn(body: seq<Line>) returns (a: nat)
    requires NewLines(body) > 0
    ensures a < |body| && NewLine(body[a])
  {
    if NewLine(body[|body| - 1]) {
      a := |body| - 1;
    } else {
      a := NewLineIn(body[..|body| - 1]);
    }
  }

  // The hunk that the header at j opens is not the first if a hunk precedes it.
  lemma HunkOpened(ts: seq<Line>, j: nat, n: nat) returns (k: nat)
    requires j < n <= |ts| && ts[j].Header? && Hunks(ts, j) != []
    ensures k == |Hunks(ts, j)| && 0 < k < |Hunks(ts, n)|
  {
    k := |Hunks(ts, j)|;
    HunksKeep(ts, j + 1, n);
  }

  lemma {:induction false} HunksKeep(ts: seq<Line>, m: nat, n: nat)
    requires m <= n <= |ts|
    ensures |Hunks(ts, m)| <= |Hunks(ts, n)|
  {
    if m < n {
      HunksKeep(ts, m, n - 1);
    }
  }

  lemma PushKeeps(hs: seq<Hunk>, l: Line, k: nat)
    requires k < |Push(hs, l)|
    ensures k >= |hs| ==> Push(hs, l)[k].body == []
    ensures k < |hs| ==> Push(hs, l)[k].body == hs[k].body || Push(hs, l)[k].body == hs[k].body + [l]
  {
  }

  // The lines of a hunk come after its header.
  lemma {:induction false} BodyLine(ts: seq<Line>, j: nat, n: nat, k: nat, a: nat) returns (p: nat)
    requires j < n <= |ts| && ts[j].Header? && k == |Hunks(ts, j)| && k < |Hunks(ts, n)|
    requires a < |Hunks(ts, n)[k].body|
    ensures j < p < n && ts[p] == Hunks(ts, n)[k].body[a]
  {
    hide Hunks, Push;
    HunksNext(ts, n - 1);
    var hs := Hunks(ts, n - 1);
    PushKeeps(hs, ts[n - 1], k);
    assert k < |hs| && j < n - 1;
    if a < |hs[k].body| {
      p := BodyLine(ts, j, n - 1, k, a);
    } else {
      p := n - 1;
    }
  }

  // --- Applying a diff to a file, given as its lines ---

  // A line of the file, by the marker's rule for its line ending.
  function Ended(text: string): string {
    if text != [] && text[|text| - 1] == '\n' then text else text + "\n"
  }

  function Unended(text: string): string {
    if text != [] && text[|text| - 1] == '\n' then text[..|text| - 1] else text
  }

  function TextAt(body: seq<Line>, i: nat): string
    requires i < |body| && Content(body[i])
  {
    if i + 1 < |body| && body[i + 1].NoNewline? then Unended(body[i].text) else Ended(body[i].text)
  }

  // A line of the file is the diff line's text with one line feed, unless a marker
  // says that it has none.
  lemma LineText(body: seq<Line>, i: nat, text: string)
    requires i < |body| && Content(body[i]) && body[i].text in {text, text + "\n"}
    requires text == "" || text[|text| - 1] != '\n'
    ensures TextAt(body, i) == if i + 1 < |body| && body[i + 1].NoNewline? then text else text + "\n"
  {
    assert (text + "\n")[..|text|] == text;
  }

  // The old and the new text of the first n lines of a hunk.
  function OldText(body: seq<Line>, n: nat): (r: seq<string>)
    requires n <= |body|
    ensures |r| == OldLines(body[..n])
  {
    if n == 0 then [] else
      assert body[..n][..n - 1] == body[..n - 1];
      OldText(body, n - 1) + if OldLine(body[n - 1]) then [TextAt(body, n - 1)] else []
  }

  function NewText(body: seq<Line>, n: nat): (r: seq<string>)
    requires n <= |body|
    ensures |r| == NewLines(body[..n])
  {
    if n == 0 then [] else
      assert body[..n][..n - 1] == body[..n - 1];
      NewText(body, n - 1) + if NewLine(body[n - 1]) then [TextAt(body, n - 1)] else []
  }

  function Before(h: Hunk): (r: seq<string>)
    ensures |r| == OldLines(h.body)
  {
    assert h.body[..|h.body|] == h.body;
    OldText(h.body, |h.body|)
  }

  function After(h: Hunk): (r: seq<string>)
    ensures |r| == NewLines(h.body)
  {
    assert h.body[..|h.body|] == h.body;
    NewText(h.body, |h.body|)
  }

  lemma {:induction false} FlippedText(body: seq<Line>, n: nat)
    requires n <= |body|
    ensures OldText(FlipAll(body), n) == NewText(body, n) && NewText(FlipAll(body), n) == OldText(body, n)
  {
    if n > 0 {
      FlippedText(body, n - 1);
    }
  }

  // Where the hunks before k end.
  function OldDone(hs: seq<Hunk>, k: nat): int
    requires k <= |hs|
  {
    if k == 0 then 0 else OldEnd(hs[k - 1])
  }

  function NewDone(hs: seq<Hunk>, k: nat): int
    requires k <= |hs|
  {
    if k == 0 then 0 else NewEnd(hs[k - 1])
  }

  // Hunks in place, each with the lines it declares.
  ghost predicate InPlace(hs: seq<Hunk>) {
    AllLinked(hs) && forall k :: 0 <= k < |hs| ==> HunkOk(hs[k])
  }

  lemma ValidInPlace(ts: seq<Line>)
    requires Valid(ts)
    ensures InPlace(Hunks(ts, |ts|))
  {
  }

  // The file holds the hunk's unchanged and removed lines at the hunk's place.
  ghost predicate MatchesAt(file: seq<string>, h: Hunk) {
    0 <= OldBegin(h) <= OldEnd(h) <= |file| && file[OldBegin(h)..OldEnd(h)] == Before(h)
  }

  ghost predicate Matches(file: seq<string>, hs: seq<Hunk>) {
    forall k :: 0 <= k < |hs| ==> MatchesAt(file, hs[k])
  }

  // The added lines minus the removed ones of the first k hunks.
  function Net(hs: seq<Hunk>, k: nat): int
    requires k <= |hs|
  {
    if k == 0 then 0 else Net(hs, k - 1) + Added(hs[k - 1].body) - Removed(hs[k - 1].body)
  }

  lemma {:induction false} SidesDiffer(body: seq<Line>)
    ensures NewLines(body) - OldLines(body) == Added(body) - Removed(body)
  {
    if body != [] {
      SidesDiffer(body[..|body| - 1]);
    }
  }

  // Each hunk's new offset is its old one plus the net additions before it.
  lemma {:induction false} Offsets(hs: seq<Hunk>, k: nat)
    requires InPlace(hs) && k <= |hs|
    ensures NewDone(hs, k) - OldDone(hs, k) == Net(hs, k)
    ensures k < |hs| ==> NewBegin(hs[k]) - OldBegin(hs[k]) == Net(hs, k)
  {
    if k > 0 {
      Offsets(hs, k - 1);
      assert Linked(hs, k - 1) && HunkOk(hs[k - 1]);
      SidesDiffer(hs[k - 1].body);
    }
    if k < |hs| {
      assert Linked(hs, k);
    }
  }

  // The gap before hunk k lies inside the file.
  lemma GapInside(file: seq<string>, hs: seq<Hunk>, k: nat)
    requires InPlace(hs) && Matches(file, hs) && k <= |hs|
    ensures 0 <= OldDone(hs, k) <= |file|
    ensures k < |hs| ==> OldDone(hs, k) <= OldBegin(hs[k]) <= OldEnd(hs[k]) <= |file|
  {
    if k > 0 {
      assert MatchesAt(file, hs[k - 1]);
    }
    if k < |hs| {
      assert MatchesAt(file, hs[k]) && Linked(hs, k);
    }
  }

  // The new file up to the end of hunk k - 1: the gaps copied, the hunks replaced.
  function Patched(file: seq<string>, hs: seq<Hunk>, k: nat): seq<string>
    requires InPlace(hs) && Matches(file, hs) && k <= |hs|
  {
    if k == 0 then [] else
      GapInside(file, hs, k - 1);
      Patched(file, hs, k - 1) + file[OldDone(hs, k - 1)..OldBegin(hs[k - 1])] + After(hs[k - 1])
  }

  function ApplyPatch(file: seq<string>, hs: seq<Hunk>): seq<string>
    requires InPlace(hs) && Matches(file, hs)
  {
    GapInside(file, hs, |hs|);
    Patched(file, hs, |hs|) + file[OldDone(hs, |hs|)..]
  }

  lemma {:induction false} PatchedLength(file: seq<string>, hs: seq<Hunk>, k: nat)
    requires InPlace(hs) && Matches(file, hs) && k <= |hs|
    ensures |Patched(file, hs, k)| == NewDone(hs, k)
  {
    if k > 0 {
      PatchedLength(file, hs, k - 1);
      GapInside(file, hs, k - 1);
      assert Linked(hs, k - 1) && HunkOk(hs[k - 1]);
    }
  }

  lemma {:induction false} PatchedPrefix(file: seq<string>, hs: seq<Hunk>, k: nat, n: nat)
    requires InPlace(hs) && Matches(file, hs) && k <= n <= |hs|
    ensures Patched(file, hs, k) <= Patched(file, hs, n)
  {
    hide Patched, InPlace, Matches, After;
    if k < n {
      PatchedPrefix(file, hs, k, n - 1);
      PatchedStep(file, hs, n);
    }
  }

  // A patch changes the length by what it adds minus what it removes.
  lemma ApplyLength(file: seq<string>, hs: seq<Hunk>)
    requires InPlace(hs) && Matches(file, hs)
    ensures |ApplyPatch(file, hs)| == |file| + Net(hs, |hs|)
  {
    PatchedLength(file, hs, |hs|);
    GapInside(file, hs, |hs|);
    Offsets(hs, |hs|);
  }

  // The pieces of the new file: before hunk k, the gap, and the hunk's new lines.
  lemma PatchedPieces(file: seq<string>, hs: seq<Hunk>, k: nat)
    requires InPlace(hs) && Matches(file, hs) && k < |hs|
    ensures 0 <= NewDone(hs, k) <= NewBegin(hs[k]) <= NewEnd(hs[k]) <= |ApplyPatch(file, hs)|
    ensures 0 <= OldDone(hs, k) <= OldBegin(hs[k]) <= |file|
    ensures ApplyPatch(file, hs)[NewDone(hs, k)..NewBegin(hs[k])] == file[OldDone(hs, k)..OldBegin(hs[k])]
    ensures ApplyPatch(file, hs)[NewBegin(hs[k])..NewEnd(hs[k])] == After(hs[k])
  {
    var done, next, all := Patched(file, hs, k), Patched(file, hs, k + 1), ApplyPatch(file, hs);
    GapInside(file, hs, k);
    PatchedLength(file, hs, k);
    PatchedLength(file, hs, k + 1);
    PatchedPrefix(file, hs, k + 1, |hs|);
    assert Linked(hs, k) && HunkOk(hs[k]);
    var gap, text := file[OldDone(hs, k)..OldBegin(hs[k])], After(hs[k]);
    assert next == done + gap + text && next <= all;
    hide InPlace, Matches, Patched, ApplyPatch, After;
    assert |done| == NewDone(hs, k) && |done| + |gap| == NewBegin(hs[k]) && |next| == NewEnd(hs[k]);
    Slices(done, gap, text, all);
  }

  lemma Slices(a: seq<string>, b: seq<string>, c: seq<string>, all: seq<string>)
    requires a + b + c <= all
    ensures all[|a|..|a| + |b|] == b && all[|a| + |b|..|a| + |b| + |c|] == c
  {
    var abc := a + b + c;
    assert all[..|abc|] == abc;
    assert all[|a|..|a| + |b|] == abc[|a|..|a| + |b|];
    assert all[|a| + |b|..|a| + |b| + |c|] == abc[|a| + |b|..|a| + |b| + |c|];
  }

  lemma ReverseInPlace(hs: seq<Hunk>)
    requires InPlace(hs)
    ensures InPlace(ReverseAll(hs))
  {
    forall k | 0 <= k < |hs| ensures Linked(ReverseAll(hs), k) && HunkOk(ReverseAll(hs)[k]) {
      assert Linked(hs, k) && HunkOk(hs[k]);
      FlippedLinked(hs, k);
    }
  }

  // The reverse matches the result ...
  lemma ReverseMatches(file: seq<string>, hs: seq<Hunk>)
    requires InPlace(hs) && Matches(file, hs)
    ensures Matches(ApplyPatch(file, hs), ReverseAll(hs))
  {
    forall k | 0 <= k < |hs| ensures MatchesAt(ApplyPatch(file, hs), ReverseAll(hs)[k]) {
      PatchedPieces(file, hs, k);
      FlippedText(hs[k].body, |hs[k].body|);
    }
  }

  lemma {:induction false} ReverseRestores(file: seq<string>, hs: seq<Hunk>, k: nat)
    requires InPlace(hs) && Matches(file, hs) && k <= |hs|
    requires InPlace(ReverseAll(hs)) && Matches(ApplyPatch(file, hs), ReverseAll(hs))
    ensures 0 <= OldDone(hs, k) <= |file|
    ensures Patched(ApplyPatch(file, hs), ReverseAll(hs), k) == file[..OldDone(hs, k)]
  {
    hide InPlace, ApplyPatch, Patched, Matches, Before, After;
    GapInside(file, hs, k);
    var back := ReverseAll(hs);
    PatchedNone(ApplyPatch(file, hs), back);
    if k > 0 {
      var h := hs[k - 1];
      ReverseRestores(file, hs, k - 1);
      PatchedPieces(file, hs, k - 1);
      GapInside(file, hs, k - 1);
      PatchedStep(ApplyPatch(file, hs), back, k);
      OldSide(file, hs, k - 1);
      ReversedAfter(h);
      Join(file, OldDone(hs, k - 1), OldBegin(h), OldEnd(h));
    }
  }

  lemma PatchedNone(file: seq<string>, hs: seq<Hunk>)
    requires InPlace(hs) && Matches(file, hs)
    ensures Patched(file, hs, 0) == []
  {
  }

  lemma PatchedStep(file: seq<string>, hs: seq<Hunk>, k: nat)
    requires InPlace(hs) && Matches(file, hs) && 0 < k <= |hs|
    ensures 0 <= OldDone(hs, k - 1) <= OldBegin(hs[k - 1]) <= |file|
    ensures Patched(file, hs, k)
        == Patched(file, hs, k - 1) + file[OldDone(hs, k - 1)..OldBegin(hs[k - 1])] + After(hs[k - 1])
  {
    GapInside(file, hs, k - 1);
  }

  lemma OldSide(file: seq<string>, hs: seq<Hunk>, k: nat)
    requires Matches(file, hs) && k < |hs|
    ensures 0 <= OldBegin(hs[k]) <= OldEnd(hs[k]) <= |file| && file[OldBegin(hs[k])..OldEnd(hs[k])] == Before(hs[k])
    ensures OldDone(ReverseAll(hs), k) == NewDone(hs, k) && OldBegin(ReverseAll(hs)[k]) == NewBegin(hs[k])
  {
    assert MatchesAt(file, hs[k]);
  }

  lemma ReversedAfter(h: Hunk)
    ensures After(Reverse(h)) == Before(h)
  {
    FlippedText(h.body, |h.body|);
  }

  lemma Join(file: seq<string>, a: int, b: int, c: int)
    requires 0 <= a <= b <= c <= |file|
    ensures file[..a] + file[a..b] + file[b..c] == file[..c]
  {
  }

  // ... and undoes the patch.
  lemma ReverseUndoes(file: seq<string>, hs: seq<Hunk>)
    requires InPlace(hs) && Matches(file, hs)
    ensures InPlace(ReverseAll(hs)) && Matches(ApplyPatch(file, hs), ReverseAll(hs))
    ensures ApplyPatch(ApplyPatch(file, hs), ReverseAll(hs)) == file
  {
    hide InPlace, Matches, Patched, Before, After;
    ReverseInPlace(hs);
    ReverseMatches(file, hs);
    ReverseRestores(file, hs, |hs|);
    PatchedLength(file, hs, |hs|);
    GapInside(file, hs, |hs|);
  }

  // The whole of it for a diff that the check accepts.
  lemma AcceptedPatch(diff: string, file: seq<string>)
    requires Valid(Lines(diff)) && Matches(file, Hunks(Lines(diff), |Lines(diff)|))
    ensures var hs := Hunks(Lines(diff), |Lines(diff)|);
            && InPlace(hs)
            && |ApplyPatch(file, hs)| == |file| + Added(Lines(diff)) - Removed(Lines(diff))
            && InPlace(ReverseAll(hs)) && Matches(ApplyPatch(file, hs), ReverseAll(hs))
            && ApplyPatch(ApplyPatch(file, hs), ReverseAll(hs)) == file
  {
    var ts := Lines(diff);
    var hs := Hunks(ts, |ts|);
    ValidInPlace(ts);
    ApplyLength(file, hs);
    ReverseUndoes(file, hs);
    assert ts != [] ==> LineOk(ts, 0);
    NetOfLines(ts, |ts|);
    assert ts[..|ts|] == ts;
  }

  lemma {:induction false} NetOfLines(ts: seq<Line>, n: nat)
    requires n <= |ts| && (n > 0 ==> ts[0].Header?)
    ensures Net(Hunks(ts, n), |Hunks(ts, n)|) == Added(ts[..n]) - Removed(ts[..n])
  {
    hide Added, Removed, Net;
    if n == 0 {
      NoNet();
      assert ts[..0] == [];
    } else {
      NetOfLines(ts, n - 1);
      assert ts[..n] == ts[..n - 1] + [ts[n - 1]];
      BodyGrows(ts[..n - 1], ts[n - 1]);
      if n > 1 {
        HunksAppear(ts, n - 1);
      }
      NetPush(Hunks(ts, n - 1), ts[n - 1]);
    }
  }

  lemma NoNet()
    ensures Net([], 0) == 0 && Added([]) == Removed([]) == 0
  {
  }

  lemma NetPush(hs: seq<Hunk>, l: Line)
    requires l.Header? || hs != []
    ensures Net(Push(hs, l), |Push(hs, l)|) == Net(hs, |hs|) + (if l.Add? then 1 else 0) - (if l.Remove? then 1 else 0)
  {
    var next := Push(hs, l);
    if l.Header? {
      NetSame(hs, next, |hs|);
    } else {
      var k := |hs| - 1;
      NetSame(hs, next, k);
      BodyGrows(hs[k].body, l);
    }
  }

  lemma {:induction false} NetSame(a: seq<Hunk>, b: seq<Hunk>, k: nat)
    requires k <= |a| && k <= |b| && forall i :: 0 <= i < k ==> a[i] == b[i]
    ensures Net(a, k) == Net(b, k)
  {
    if k > 0 {
      NetSame(a, b, k - 1);
    }
  }
}
