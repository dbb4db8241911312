/** Which diffs are accepted, from the writer's side: hunks that are in place, written
    out one after the other (_count_hunk_changes in
    skills-src/l2/local/gitcode-pr-review-fetch/scripts/gitcode_patch.py). */
module DiffWriting {
  import opened UnifiedDiff
  import opened PatchApplication

  // The lines of a list of hunks.
  function Written(hs: seq<Hunk>): seq<Line> {
    if hs == [] then [] else Written(hs[..|hs| - 1]) + WrittenHunk(hs[|hs| - 1])
  }

  function WrittenHunk(h: Hunk): seq<Line> {
    [Header(h.oldStart, h.oldCount, h.newStart, h.newCount)] + h.body
  }

  ghost predicate Contents(hs: seq<Hunk>) {
    forall k, l :: 0 <= k < |hs| && l in hs[k].body ==> Content(l)
  }

  lemma {:induction false} HunksAfter(ts: seq<Line>, more: seq<Line>)
    ensures Hunks(ts + more, |ts|) == Hunks(ts, |ts|)
  {
    HunksSame(ts, more, |ts|);
  }

  lemma {:induction false} HunksSame(ts: seq<Line>, more: seq<Line>, n: nat)
    requires n <= |ts|
    ensures Hunks(ts + more, n) == Hunks(ts, n)
  {
    if n > 0 {
      HunksSame(ts, more, n - 1);
    }
  }

  lemma HeaderOpens(ts: seq<Line>, h: Hunk)
    ensures Hunks(ts + WrittenHunk(h), |ts| + 1) == Hunks(ts, |ts|) + [h.(body := [])]
  {
    var all := ts + WrittenHunk(h);
    HunksAfter(ts, WrittenHunk(h));
    HunksNext(all, |ts|);
    hide Hunks;
    assert all[|ts|] == WrittenHunk(h)[0];
  }

  // Body lines join the hunk that the header opened.
  lemma {:induction false} BodyJoins(ts: seq<Line>, h: Hunk, n: nat)
    requires n <= |h.body| && forall l :: l in h.body ==> Content(l)
    ensures Hunks(ts + WrittenHunk(h), |ts| + 1 + n) == Hunks(ts, |ts|) + [h.(body := h.body[..n])]
  {
    hide Hunks;
    if n == 0 {
      HeaderOpens(ts, h);
    } else {
      var all := ts + WrittenHunk(h);
      BodyJoins(ts, h, n - 1);
      assert all[|ts| + n] == h.body[n - 1] && h.body[n - 1] in h.body;
      HunksNext(all, |ts| + n);
      PushBody(Hunks(ts, |ts|), h, n);
    }
  }

  lemma PushBody(hs: seq<Hunk>, h: Hunk, n: nat)
    requires 0 < n <= |h.body| && !h.body[n - 1].Header?
    ensures Push(hs + [h.(body := h.body[..n - 1])], h.body[n - 1]) == hs + [h.(body := h.body[..n])]
  {
    assert h.body[..n] == h.body[..n - 1] + [h.body[n - 1]];
    assert (hs + [h.(body := h.body[..n - 1])])[..|hs|] == hs;
  }

  lemma HunkJoins(ts: seq<Line>, h: Hunk)
    requires forall l :: l in h.body ==> Content(l)
    ensures Hunks(ts + WrittenHunk(h), |ts + WrittenHunk(h)|) == Hunks(ts, |ts|) + [h]
  {
    BodyJoins(ts, h, |h.body|);
    hide Hunks;
    assert h.body[..|h.body|] == h.body;
  }

  lemma {:induction false} WrittenHunks(hs: seq<Hunk>)
    requires Contents(hs)
    ensures Hunks(Written(hs), |Written(hs)|) == hs
  {
    if hs == [] {
      assert Written(hs) == [];
    } else {
      hide Hunks, WrittenHunk, Content;
      var front, h := hs[..|hs| - 1], hs[|hs| - 1];
      WrittenHunks(front);
      HunkJoins(Written(front), h);
      assert front + [h] == hs;
    }
  }

  lemma {:induction false} WrittenLines(hs: seq<Hunk>)
    requires Contents(hs)
    ensures forall l :: l in Written(hs) ==> l.Header? || Content(l)
    ensures Written(hs) != [] ==> Written(hs)[0].Header?
  {
    if hs != [] {
      WrittenLines(hs[..|hs| - 1]);
    }
  }

  // Hunks without markers are accepted exactly if they are in place.
  lemma WrittenValid(hs: seq<Hunk>)
    requires Contents(hs)
    ensures Valid(Written(hs)) <==> InPlace(hs)
  {
    hide LineOk, Linked, HunkOk, Hunks, Written, Content;
    var ts := Written(hs);
    WrittenHunks(hs);
    WrittenLines(hs);
    forall p | 0 <= p < |ts| ensures LineOk(ts, p) {
      PlainLine(ts, p);
    }
  }

  // Without markers every line may stand where it stands.
  lemma PlainLine(ts: seq<Line>, p: nat)
    requires p < |ts| && ts[0].Header? && forall l :: l in ts ==> l.Header? || Content(l)
    ensures LineOk(ts, p)
  {
    assert ts[p] in ts;
    assert forall q :: 0 < q < p ==> ts[q] in ts && !ts[q].NoNewline?;
  }

  // --- As text ---

  // A line feed ends the text, and nothing ends a line before it.
  ghost predicate TextLine(text: string) {
    && text != "" && text[|text| - 1] == '\n'
    && forall i :: 0 <= i < |text| - 1 ==> !IsBoundary(text[i])
  }

  function Typed(l: Line): string {
    if l.Header? then Print(l) + "\n" else Print(l)
  }

  function TypedAll(ts: seq<Line>): (r: seq<string>)
    ensures |r| == |ts|
  {
    seq(|ts|, i requires 0 <= i < |ts| => Typed(ts[i]))
  }

  ghost predicate TextLines(hs: seq<Hunk>) {
    Contents(hs) && forall k, l :: 0 <= k < |hs| && l in hs[k].body ==> Content(l) && TextLine(l.text)
  }

  lemma TypedReads(l: Line)
    requires l.Header? || (Content(l) && TextLine(l.text))
    ensures Lex(Typed(l)) == l && LineShape(Typed(l)) && forall next :: Closes(Typed(l), next)
  {
    hide Lex, Print;
    match l
    case Header(a, b, c, d) =>
      HeaderLine(a, b, c, d);
      ClosedLine(Print(l));
    case Keep(text) => TypedContent(" ", l);
    case Add(text) => TypedContent("+", l);
    case Remove(text) => TypedContent("-", l);
  }

  lemma TypedContent(column: string, l: Line)
    requires Content(l) && TextLine(l.text)
    requires column == if l.Keep? then " " else if l.Add? then "+" else "-"
    ensures Lex(Typed(l)) == l && LineShape(Typed(l)) && forall next :: Closes(Typed(l), next)
  {
    hide Lex;
    PrintedContent(column, l.text);
    var s := l.text[..|l.text| - 1];
    assert l.text == s + "\n" && Typed(l) == (column + s) + "\n";
    ClosedLine(column + s);
  }

  lemma {:induction false} WrittenText(hs: seq<Hunk>, l: Line)
    requires TextLines(hs) && l in Written(hs)
    ensures l.Header? || (Content(l) && TextLine(l.text))
  {
    if hs != [] && l !in WrittenHunk(hs[|hs| - 1]) {
      WrittenText(hs[..|hs| - 1], l);
    }
  }

  // The text of a list of hunks is read as its lines, so it is accepted exactly if
  // the hunks are in place, and then with their own additions and removals.
  lemma WrittenAccepted(hs: seq<Hunk>)
    requires TextLines(hs)
    ensures Lines(Concat(TypedAll(Written(hs)))) == Written(hs)
    ensures Valid(Lines(Concat(TypedAll(Written(hs))))) <==> InPlace(hs)
  {
    hide Lex, Typed, InPlace, Valid, Written, LineShape, Closes;
    var ts := Written(hs);
    var lines := TypedAll(ts);
    forall i | 0 <= i < |lines|
      ensures LineShape(lines[i]) && Lex(lines[i]) == ts[i] && forall next :: Closes(lines[i], next)
    {
      assert ts[i] in ts;
      WrittenText(hs, ts[i]);
      TypedReads(ts[i]);
    }
    SplitConcat(lines);
    assert LexAll(lines) == ts;
    WrittenValid(hs);
  }

  // --- In line numbers ---

  // A range says where it starts, counted from 1, or is empty and says 0.
  ghost predicate Ranges(h: Hunk) {
    (h.oldCount == 0 <==> h.oldStart == 0) && (h.newCount == 0 <==> h.newStart == 0)
  }

  // As many unchanged lines lie between two hunks on the old side as on the new.
  ghost predicate Follows(g: Hunk, h: Hunk) {
    && g.oldCount > 0 && g.newCount > 0 && h.oldCount > 0 && h.newCount > 0
    && h.oldStart - (g.oldStart + g.oldCount) == h.newStart - (g.newStart + g.newCount) >= 0
  }

  // The first hunk starts at one line on both sides, or at the start of an empty one.
  ghost predicate Begins(h: Hunk) {
    if h.oldCount > 0 && h.newCount > 0 then h.oldStart == h.newStart
    else h.oldStart + h.newStart <= 1
  }

  ghost predicate Counted(h: Hunk) {
    && OldLines(h.body) == h.oldCount && NewLines(h.body) == h.newCount
    && (Added(h.body) > 0 || Removed(h.body) > 0)
  }

  // What it means for hunks to be in place, in the numbers of their headers.
  lemma InPlaceMeaning(hs: seq<Hunk>)
    ensures InPlace(hs) <==>
              && (forall k :: 0 <= k < |hs| ==> Ranges(hs[k]) && Counted(hs[k]))
              && (hs != [] ==> Begins(hs[0]))
              && (forall k :: 0 < k < |hs| ==> Follows(hs[k - 1], hs[k]))
  {
    if InPlace(hs) {
      forall k | 0 <= k < |hs|
        ensures Ranges(hs[k]) && Counted(hs[k])
        ensures k == 0 ==> Begins(hs[k])
        ensures k > 0 ==> Follows(hs[k - 1], hs[k])
      {
        assert Linked(hs, k) && HunkOk(hs[k]);
        assert k > 0 ==> Linked(hs, k - 1);
      }
    }
    if (forall k :: 0 <= k < |hs| ==> Ranges(hs[k]) && Counted(hs[k])) && (hs != [] ==> Begins(hs[0]))
       && (forall k :: 0 < k < |hs| ==> Follows(hs[k - 1], hs[k])) {
      forall k | 0 <= k < |hs| ensures Linked(hs, k) && HunkOk(hs[k]) {
        assert Ranges(hs[k]) && Counted(hs[k]);
      }
    }
  }

  // A hunk replaces exactly the lines its header numbers, by exactly the lines it
  // numbers in the result.
  lemma HunkPlaces(file: seq<string>, hs: seq<Hunk>, k: nat)
    requires InPlace(hs) && Matches(file, hs) && k < |hs|
    ensures var h, result := hs[k], ApplyPatch(file, hs);
            && (h.oldCount > 0 ==> 1 <= h.oldStart && h.oldStart - 1 + h.oldCount <= |file|
                                   && file[h.oldStart - 1..h.oldStart - 1 + h.oldCount] == Before(h))
            && (h.newCount > 0 ==> 1 <= h.newStart && h.newStart - 1 + h.newCount <= |result|
                                   && result[h.newStart - 1..h.newStart - 1 + h.newCount] == After(h))
  {
    assert Linked(hs, k) && HunkOk(hs[k]) && MatchesAt(file, hs[k]);
    PatchedPieces(file, hs, k);
  }
}
