/** Unified diffs as the patch renderer accepts them (_count_hunk_changes in
    skills-src/l2/local/gitcode-pr-review-fetch/scripts/gitcode_patch.py). */
module UnifiedDiff {
  import opened Options

  // One line of a diff. The text of a content line keeps its line ending.
  datatype Line =
    | Header(oldStart: nat, oldCount: nat, newStart: nat, newCount: nat)
    | Keep(text: string)
    | Add(text: string)
    | Remove(text: string)
    | NoNewline
    | Malformed

  // --- Lines and their parts ---

  // Where str.splitlines ends a line, besides "\r\n".
  predicate IsBoundary(c: char) {
    || '\n' <= c <= '\r' || '\U{1c}' <= c <= '\U{1e}'
    || c == '\U{85}' || c == '\U{2028}' || c == '\U{2029}'
  }

  // The length of the first line, its ending included, when it reaches i.
  function LineEnd(s: string, i: nat): (n: nat)
    requires i < |s|
    ensures i < n <= |s|
    decreases |s| - i
  {
    if s[i] == '\r' && i + 1 < |s| && s[i + 1] == '\n' then i + 2
    else if IsBoundary(s[i]) || i + 1 == |s| then i + 1
    else LineEnd(s, i + 1)
  }

  // splitlines(keepends=True)
  function SplitLines(s: string): seq<string> {
    if s == [] then [] else [s[..LineEnd(s, 0)]] + SplitLines(s[LineEnd(s, 0)..])
  }

  function Concat(lines: seq<string>): string {
    if lines == [] then "" else lines[0] + Concat(lines[1..])
  }

  // The lines are the whole text, each with its ending ...
  lemma {:induction false} SplitJoins(s: string)
    ensures Concat(SplitLines(s)) == s
    decreases |s|
  {
    if s != [] {
      var n := LineEnd(s, 0);
      SplitJoins(s[n..]);
      assert [s[..n]] + SplitLines(s[n..]) == SplitLines(s);
      assert SplitLines(s)[1..] == SplitLines(s[n..]);
    }
  }

  // ... and an ending ends a line nowhere but at its end.
  lemma {:induction false} SplitShape(s: string, k: nat)
    requires k < |SplitLines(s)|
    ensures var line := SplitLines(s)[k];
            && line != ""
            && (k < |SplitLines(s)| - 1 ==> IsBoundary(line[|line| - 1]))
            && forall i :: 0 <= i < |line| - 1 && IsBoundary(line[i]) ==>
                 i == |line| - 2 && line[i] == '\r' && line[i + 1] == '\n'
    decreases |s|
  {
    var n := LineEnd(s, 0);
    if k > 0 {
      SplitShape(s[n..], k - 1);
    } else {
      LineEndShape(s, 0);
    }
  }

  lemma {:induction false} LineEndShape(s: string, i: nat)
    requires i < |s|
    ensures var n := LineEnd(s, i);
            && (n < |s| ==> IsBoundary(s[n - 1]))
            && forall j :: i <= j < n - 1 && IsBoundary(s[j]) ==> j == n - 2 && s[j] == '\r' && s[j + 1] == '\n'
    decreases |s| - i
  {
    if !(s[i] == '\r' && i + 1 < |s| && s[i + 1] == '\n') && !IsBoundary(s[i]) && i + 1 != |s| {
      LineEndShape(s, i + 1);
    }
  }

  // Lines as splitlines leaves them.
  predicate LineShape(line: string) {
    && line != ""
    && forall i :: 0 <= i < |line| - 1 && IsBoundary(line[i]) ==>
         i == |line| - 2 && line[i] == '\r' && line[i + 1] == '\n'
  }

  // The line ends before `next`, and does not swallow its first character.
  predicate Closes(line: string, next: string) {
    line != "" && IsBoundary(line[|line| - 1]) && !(line[|line| - 1] == '\r' && next != "" && next[0] == '\n')
  }

  ghost predicate Separate(lines: seq<string>) {
    && (forall k :: 0 <= k < |lines| ==> LineShape(lines[k]))
    && (forall k :: 0 <= k < |lines| - 1 ==> Closes(lines[k], lines[k + 1]))
  }

  lemma {:induction false} LineEndIs(line: string, rest: string, i: nat)
    requires LineShape(line) && i < |line| && (rest != "" ==> Closes(line, rest))
    ensures LineEnd(line + rest, i) == |line|
    decreases |line| - i
  {
    var s := line + rest;
    assert forall j :: 0 <= j < |line| ==> s[j] == line[j];
    assert rest != "" ==> s[|line|] == rest[0];
    if !(s[i] == '\r' && i + 1 < |s| && s[i + 1] == '\n') && !IsBoundary(s[i]) && i + 1 != |s| {
      LineEndIs(line, rest, i + 1);
    }
  }

  // Splitting undoes joining separate lines ...
  lemma {:induction false} SplitConcat(lines: seq<string>)
    requires Separate(lines)
    ensures SplitLines(Concat(lines)) == lines
  {
    if lines != [] {
      var line, more := lines[0], lines[1..];
      var rest := Concat(more);
      SplitConcat(more);
      if more != [] {
        assert Closes(lines[0], lines[1]) && LineShape(lines[1]);
        assert rest[0] == lines[1][0];
      }
      assert LineShape(lines[0]);
      LineEndIs(line, rest, 0);
      var s := line + rest;
      assert s[..|line|] == line && s[|line|..] == rest;
    }
  }

  // ... and yields such lines.
  lemma {:induction false} SplitSeparate(s: string)
    ensures Separate(SplitLines(s))
    decreases |s|
  {
    if s != [] {
      var n := LineEnd(s, 0);
      var lines, more := SplitLines(s), SplitLines(s[n..]);
      SplitSeparate(s[n..]);
      LineEndShape(s, 0);
      LineEndCloses(s, 0);
      assert lines == [s[..n]] + more;
      forall k | 0 <= k < |lines| - 1 ensures Closes(lines[k], lines[k + 1]) {
        if k == 0 {
          assert more[0][0] == s[n];
        } else {
          assert Closes(more[k - 1], more[k]);
        }
      }
    }
  }

  lemma {:induction false} LineEndCloses(s: string, i: nat)
    requires i < |s|
    ensures var n := LineEnd(s, i); n < |s| ==> !(s[n - 1] == '\r' && s[n] == '\n')
    decreases |s| - i
  {
    if !(s[i] == '\r' && i + 1 < |s| && s[i + 1] == '\n') && !IsBoundary(s[i]) && i + 1 != |s| {
      LineEndCloses(s, i + 1);
    }
  }

  predicate IsDigit(c: char) {
    '0' <= c <= '9'
  }

  predicate IsEnding(c: char) {
    c == '\r' || c == '\n'
  }

  function StripEnding(s: string): string {
    if s != [] && IsEnding(s[|s| - 1]) then StripEnding(s[..|s| - 1]) else s
  }

  predicate StartsWith(s: string, prefix: string) {
    prefix <= s
  }

  // The digits at the front, as a number, and the rest.
  function Digits(s: string, value: nat): (nat, string) {
    if s != [] && IsDigit(s[0]) then Digits(s[1..], 10 * value + (s[0] - '0') as nat) else (value, s)
  }

  datatype Parsed = NoMatch | Match(value: nat, rest: string)

  function Number(s: string): Parsed {
    if s == [] || !IsDigit(s[0]) then NoMatch else Match(Digits(s, 0).0, Digits(s, 0).1)
  }

  // An optional ",n"; the count is 1 without it.
  function Count(s: string): Parsed {
    if s != [] && s[0] == ',' then Number(s[1..]) else Match(1, s)
  }

  function ParseHeader(s: string): Line {
    if !StartsWith(s, "@@ -") then Malformed else
    match Number(s[4..])
    case NoMatch => Malformed
    case Match(oldStart, s1) =>
      match Count(s1)
      case NoMatch => Malformed
      case Match(oldCount, s2) =>
        if !StartsWith(s2, " +") then Malformed else
        match Number(s2[2..])
        case NoMatch => Malformed
        case Match(newStart, s3) =>
          match Count(s3)
          case NoMatch => Malformed
          case Match(newCount, s4) =>
            if StartsWith(s4, " @@") && (|s4| == 3 || (s4[3] == ' ' && '\n' !in s4))
            then Header(oldStart, oldCount, newStart, newCount)
            else Malformed
  }

  function Lex(s: string): Line {
    if StartsWith(s, "@@") then ParseHeader(StripEnding(s))
    else if StartsWith(s, " ") then Keep(s[1..])
    else if StartsWith(s, "+") then Add(s[1..])
    else if StartsWith(s, "-") then Remove(s[1..])
    else if StripEnding(s) == "\\ No newline at end of file" then NoNewline
    else Malformed
  }

  function LexAll(lines: seq<string>): (ts: seq<Line>)
    ensures |ts| == |lines|
  {
    seq(|lines|, i requires 0 <= i < |lines| => Lex(lines[i]))
  }

  function Lines(diff: string): seq<Line> {
    LexAll(SplitLines(diff))
  }

  // --- Writing a line, and reading it back ---

  function Decimal(n: nat): string {
    if n < 10 then ['0' + n as char] else Decimal(n / 10) + ['0' + (n % 10) as char]
  }

  function Print(l: Line): string {
    match l
    case Header(a, b, c, d) =>
      "@@ -" + (Decimal(a) + ("," + (Decimal(b) + (" +" + (Decimal(c) + ("," + (Decimal(d) + " @@")))))))
    case Keep(text) => " " + text
    case Add(text) => "+" + text
    case Remove(text) => "-" + text
    case NoNewline => "\\ No newline at end of file"
    case Malformed => ""
  }

  // Reading inverts writing: the columns and the four numbers keep their places.
  lemma LexPrint(l: Line)
    requires !l.Malformed?
    ensures Lex(Print(l)) == l
  {
    match l
    case Header(a, b, c, d) => PrintedHeader(a, b, c, d);
    case NoNewline => PrintedMarker();
    case Keep(text) => PrintedContent(" ", text);
    case Add(text) => PrintedContent("+", text);
    case Remove(text) => PrintedContent("-", text);
  }

  lemma PrintedMarker()
    ensures Lex("\\ No newline at end of file") == NoNewline
  {
    var s := "\\ No newline at end of file";
    assert s[0] == '\\' && s[|s| - 1] == 'e';
    assert "@@"[0] == '@' && " "[0] == ' ' && "+"[0] == '+' && "-"[0] == '-';
    assert StripEnding(s) == s;
  }

  lemma PrintedContent(column: string, text: string)
    requires column == " " || column == "+" || column == "-"
    ensures var s := column + text;
            && Lex(s) == (if column == " " then Keep(text) else if column == "+" then Add(text) else Remove(text))
            && s[1..] == text
  {
    var s := column + text;
    assert s[0] == column[0] && s[1..] == text;
    assert !StartsWith(s, "@@") by {
      assert "@@"[0] == '@' != s[0];
    }
    assert StartsWith(s, " ") <==> s[0] == ' ';
    assert StartsWith(s, "+") <==> s[0] == '+';
    assert StartsWith(s, "-") <==> s[0] == '-';
  }

  lemma Joined(word: string, s: string)
    ensures StartsWith(word + s, word) && (word + s)[|word|..] == s
  {
  }

  lemma PrintedHeader(a: nat, b: nat, c: nat, d: nat)
    ensures Lex(Print(Header(a, b, c, d))) == Header(a, b, c, d)
  {
    hide Decimal, Number, Count, Lex;
    var s4 := " @@";
    var s3 := "," + (Decimal(d) + s4);
    var s2 := " +" + (Decimal(c) + s3);
    var s1 := "," + (Decimal(b) + s2);
    var s := "@@ -" + (Decimal(a) + s1);
    NumberPrinted(a, s1);
    CountPrinted(b, s2);
    NumberPrinted(c, s3);
    CountPrinted(d, s4);
    Joined("@@ -", Decimal(a) + s1);
    Joined(" +", Decimal(c) + s3);
    Joined(" @@", "");
    LastChar("@@ -" + (Decimal(a) + ("," + (Decimal(b) + (" +" + (Decimal(c) + ("," + Decimal(d))))))), s4, s);
    EndsInAt(s);
  }

  lemma LastChar(front: string, back: string, s: string)
    requires back != "" && s == front + back
    ensures s != "" && s[|s| - 1] == back[|back| - 1]
  {
  }

  // A printed header is one line.
  lemma HeaderLine(a: nat, b: nat, c: nat, d: nat)
    ensures var s := Print(Header(a, b, c, d));
            && Lex(s + "\n") == Header(a, b, c, d)
            && s != "" && s[0] == '@' && forall i :: 0 <= i < |s| ==> !IsBoundary(s[i])
  {
    var s := Print(Header(a, b, c, d));
    PrintedHeader(a, b, c, d);
    DecimalDigits(a);
    DecimalDigits(b);
    DecimalDigits(c);
    DecimalDigits(d);
    hide Decimal, ParseHeader;
    LastChar("@@ -" + (Decimal(a) + ("," + (Decimal(b) + (" +" + (Decimal(c) + ("," + Decimal(d))))))), " @@", s);
    assert s == "@@ -" + (Decimal(a) + ("," + (Decimal(b) + (" +" + (Decimal(c) + ("," + (Decimal(d) + " @@")))))));
    Stripped(s);
  }

  lemma Stripped(s: string)
    requires s != "" && s[0] == '@' && |s| > 2 && s[1] == '@' && s[|s| - 1] == '@'
    ensures Lex(s + "\n") == Lex(s)
  {
    assert (s + "\n")[..|s|] == s;
    assert StripEnding(s + "\n") == StripEnding(s) == s;
    assert "@@"[0] == '@' && "@@"[1] == '@';
    assert StartsWith(s, "@@") && StartsWith(s + "\n", "@@");
  }

  lemma CountPrinted(n: nat, rest: string)
    requires rest == "" || !IsDigit(rest[0])
    ensures Count("," + (Decimal(n) + rest)) == Match(n, rest)
  {
    hide Number, Decimal;
    NumberPrinted(n, rest);
    Joined(",", Decimal(n) + rest);
  }

  lemma EndsInAt(s: string)
    requires "@@ -" <= s && |s| > 4 && s[|s| - 1] == '@'
    ensures Lex(s) == ParseHeader(s)
  {
  }

  lemma NumberPrinted(n: nat, rest: string)
    requires rest == "" || !IsDigit(rest[0])
    ensures Number(Decimal(n) + rest) == Match(n, rest)
  {
    DecimalDigits(n);
    NumberReads(Decimal(n), rest);
  }

  lemma {:induction false} DecimalDigits(n: nat)
    ensures Numeral(Decimal(n)) && ValueOf(Decimal(n)) == n
    ensures Decimal(n) != "" && forall i :: 0 <= i < |Decimal(n)| ==> IsDigit(Decimal(n)[i])
  {
    if n >= 10 {
      DecimalDigits(n / 10);
      var front, last := Decimal(n / 10), ['0' + (n % 10) as char];
      assert (front + last)[..|front|] == front;
    } else {
      assert ValueOf([]) == 0;
    }
  }

  // --- Every written form of a header ---

  ghost predicate Numeral(ds: string) {
    ds != "" && forall i :: 0 <= i < |ds| ==> '0' <= ds[i] <= '9'
  }

  // The number that digits denote; leading zeros are allowed.
  function ValueOf(ds: string): nat
    requires forall i :: 0 <= i < |ds| ==> '0' <= ds[i] <= '9'
  {
    if ds == "" then 0 else 10 * ValueOf(ds[..|ds| - 1]) + (ds[|ds| - 1] - '0') as nat
  }

  function Power(k: nat): nat {
    if k == 0 then 1 else 10 * Power(k - 1)
  }

  // Reading digits and then whatever follows.
  lemma {:induction false} DigitsRead(ds: string, rest: string, value: nat)
    requires forall i :: 0 <= i < |ds| ==> '0' <= ds[i] <= '9'
    ensures Digits(ds + rest, value) == Digits(rest, value * Power(|ds|) + ValueOf(ds))
  {
    if ds == "" {
      assert ds + rest == rest;
    } else {
      hide Digits;
      var front, last := ds[..|ds| - 1], ds[|ds| - 1..];
      assert ds + rest == front + (last + rest);
      DigitsRead(front, last + rest, value);
      var p := Power(|front|);
      var next := (last[0] - '0') as nat;
      OneDigit(last, rest, value * p + ValueOf(front));
      Shifted(value, p, ValueOf(front), next);
    }
  }

  lemma Shifted(value: nat, p: nat, n: nat, digit: nat)
    ensures 10 * (value * p + n) + digit == value * (10 * p) + (10 * n + digit)
  {
  }

  lemma OneDigit(d: string, rest: string, value: nat)
    requires |d| == 1 && IsDigit(d[0])
    ensures Digits(d + rest, value) == Digits(rest, 10 * value + (d[0] - '0') as nat)
  {
    var s := d + rest;
    assert s[0] == d[0] && s[1..] == rest;
  }

  lemma NumberReads(ds: string, rest: string)
    requires Numeral(ds) && (rest == "" || !IsDigit(rest[0]))
    ensures Number(ds + rest) == Match(ValueOf(ds), rest)
  {
    DigitsRead(ds, rest, 0);
    assert Digits(rest, ValueOf(ds)) == (ValueOf(ds), rest);
  }

  // A count as written: nothing, or a comma and digits.
  function CountText(count: Option<string>): string {
    if count.None? then "" else "," + count.value
  }

  function CountValue(count: Option<string>): nat
    requires count.Some? ==> Numeral(count.value)
  {
    if count.None? then 1 else ValueOf(count.value)
  }

  lemma CountReads(count: Option<string>, rest: string)
    requires count.Some? ==> Numeral(count.value)
    requires rest != "" && rest[0] == ' '
    ensures Count(CountText(count) + rest) == Match(CountValue(count), rest)
  {
    hide Number;
    if count.Some? {
      NumberReads(count.value, rest);
      Joined(",", count.value + rest);
      assert CountText(count) + rest == "," + (count.value + rest);
    } else {
      assert CountText(count) + rest == rest;
    }
  }

  // What may follow the second "@@" on its line: nothing, or a space and any text.
  predicate HeaderTail(tail: string) {
    tail == "" || (tail[0] == ' ' && forall i :: 0 <= i < |tail| ==> !IsBoundary(tail[i]))
  }

  function HeaderText(a: string, b: Option<string>, c: string, d: Option<string>, tail: string): string {
    "@@ -" + (a + (CountText(b) + (" +" + (c + (CountText(d) + (" @@" + tail))))))
  }

  lemma StartsDigitless(count: Option<string>, rest: string)
    requires rest != "" && rest[0] == ' '
    ensures !IsDigit((CountText(count) + rest)[0])
  {
  }

  lemma ParsesForm(a: string, b: Option<string>, c: string, d: Option<string>, tail: string)
    requires Numeral(a) && Numeral(c) && (b.Some? ==> Numeral(b.value)) && (d.Some? ==> Numeral(d.value))
    requires HeaderTail(tail)
    ensures ParseHeader(HeaderText(a, b, c, d, tail)) == Header(ValueOf(a), CountValue(b), ValueOf(c), CountValue(d))
  {
    hide Numeral, ValueOf, Number, Count, CountText, CountValue;
    var s4 := " @@" + tail;
    var s3 := CountText(d) + s4;
    var s2 := " +" + (c + s3);
    var s1 := CountText(b) + s2;
    StartsDigitless(d, s4);
    StartsDigitless(b, s2);
    NumberReads(a, s1);
    CountReads(b, s2);
    NumberReads(c, s3);
    CountReads(d, s4);
    Joined("@@ -", a + s1);
    Joined(" +", c + s3);
    Joined(" @@", tail);
    assert '\n' !in s4 by {
      assert forall i :: 0 <= i < |tail| ==> tail[i] != '\n';
    }
  }

  // Every header line, with or without its counts and whatever follows it, reads as
  // its numbers; a count that is not written is 1.
  lemma HeaderForms(a: string, b: Option<string>, c: string, d: Option<string>, tail: string, ending: string)
    requires Numeral(a) && Numeral(c) && (b.Some? ==> Numeral(b.value)) && (d.Some? ==> Numeral(d.value))
    requires HeaderTail(tail) && ending in {"", "\n", "\r", "\r\n"}
    ensures Lex(HeaderText(a, b, c, d, tail) + ending) ==
            Header(ValueOf(a), if b.Some? then ValueOf(b.value) else 1,
                   ValueOf(c), if d.Some? then ValueOf(d.value) else 1)
  {
    ParsesForm(a, b, c, d, tail);
    var s := HeaderText(a, b, c, d, tail);
    HeaderEnds(a, b, c, d, tail);
    hide ParseHeader, HeaderText;
    StripsEnding(s, ending);
    assert StartsWith(s + ending, "@@");
  }

  lemma HeaderEnds(a: string, b: Option<string>, c: string, d: Option<string>, tail: string)
    requires HeaderTail(tail)
    ensures var s := HeaderText(a, b, c, d, tail); StartsWith(s, "@@") && s != "" && !IsEnding(s[|s| - 1])
  {
    hide CountText;
    var s := HeaderText(a, b, c, d, tail);
    Joined("@@ -", a + (CountText(b) + (" +" + (c + (CountText(d) + (" @@" + tail))))));
    LastChar("@@ -" + (a + (CountText(b) + (" +" + (c + CountText(d))))), " @@" + tail, s);
    assert tail != "" ==> (" @@" + tail)[|" @@" + tail| - 1] == tail[|tail| - 1];
  }

  lemma StripsEnding(s: string, ending: string)
    requires s != "" && !IsEnding(s[|s| - 1]) && ending in {"", "\n", "\r", "\r\n"}
    ensures StripEnding(s + ending) == s
  {
    assert StripEnding(s) == s;
    assert (s + "\n")[..|s|] == s && (s + "\r")[..|s|] == s;
    assert StripEnding(s + "\r") == s;
    assert (s + "\r\n")[..|s| + 1] == s + "\r";
  }

  // ... and no other line reads as a header.
  lemma HeaderFormOnly(s: string) returns (a: string, b: Option<string>, c: string, d: Option<string>, tail: string)
    requires Lex(s).Header?
    ensures Numeral(a) && Numeral(c) && (b.Some? ==> Numeral(b.value)) && (d.Some? ==> Numeral(d.value))
    ensures tail == "" || (tail[0] == ' ' && '\n' !in tail)
    ensures StripEnding(s) == HeaderText(a, b, c, d, tail)
  {
    hide Digits, Number, Count;
    var t := StripEnding(s);
    var s1, s2, s3, s4;
    a, s1 := NumberForm(t[4..]);
    b, s2 := CountForm(s1);
    c, s3 := NumberForm(s2[2..]);
    d, s4 := CountForm(s3);
    tail := s4[3..];
    assert s4 == " @@" + tail && s2 == " +" + s2[2..] && t == "@@ -" + t[4..];
  }

  lemma NumberForm(s: string) returns (ds: string, rest: string)
    requires Number(s).Match?
    ensures s == ds + rest && Numeral(ds) && Number(s).rest == rest && Number(s).value == ValueOf(ds)
  {
    rest := Digits(s, 0).1;
    DigitsStop(s, 0);
    ds := s[..|s| - |rest|];
    assert ds != "" by {
      DigitsShrink(s[1..], 10 * 0 + (s[0] - '0') as nat);
    }
    NumberReads(ds, rest);
  }

  lemma {:induction false} DigitsShrink(s: string, value: nat)
    ensures |Digits(s, value).1| <= |s|
  {
    if s != "" && IsDigit(s[0]) {
      DigitsShrink(s[1..], 10 * value + (s[0] - '0') as nat);
    }
  }

  lemma {:induction false} DigitsStop(s: string, value: nat)
    ensures var rest := Digits(s, value).1;
            && |rest| <= |s| && s == s[..|s| - |rest|] + rest && (rest == "" || !IsDigit(rest[0]))
            && forall i :: 0 <= i < |s| - |rest| ==> IsDigit(s[i])
  {
    if s != "" && IsDigit(s[0]) {
      DigitsStop(s[1..], 10 * value + (s[0] - '0') as nat);
      var rest := Digits(s, value).1;
      forall i | 0 <= i < |s| - |rest| ensures IsDigit(s[i]) {
        assert i > 0 ==> s[i] == s[1..][i - 1];
      }
    }
  }

  lemma CountForm(s: string) returns (count: Option<string>, rest: string)
    requires Count(s).Match?
    ensures s == CountText(count) + rest && (count.Some? ==> Numeral(count.value))
    ensures Count(s).rest == rest && Count(s).value == CountValue(count)
  {
    hide Number;
    if s != "" && s[0] == ',' {
      var ds;
      ds, rest := NumberForm(s[1..]);
      count := Some(ds);
      assert s == "," + s[1..];
    } else {
      count, rest := None, s;
    }
  }

  // --- What a diff means ---

  predicate OldLine(l: Line) {
    l.Keep? || l.Remove?
  }

  predicate NewLine(l: Line) {
    l.Keep? || l.Add?
  }

  predicate Content(l: Line) {
    OldLine(l) || NewLine(l)
  }

  function OldLines(body: seq<Line>): nat {
    if body == [] then 0 else OldLines(body[..|body| - 1]) + if OldLine(body[|body| - 1]) then 1 else 0
  }

  function NewLines(body: seq<Line>): nat {
    if body == [] then 0 else NewLines(body[..|body| - 1]) + if NewLine(body[|body| - 1]) then 1 else 0
  }

  function Added(body: seq<Line>): nat {
    if body == [] then 0 else Added(body[..|body| - 1]) + if body[|body| - 1].Add? then 1 else 0
  }

  function Removed(body: seq<Line>): nat {
    if body == [] then 0 else Removed(body[..|body| - 1]) + if body[|body| - 1].Remove? then 1 else 0
  }

  predicate HasChange(body: seq<Line>) {
    Added(body) + Removed(body) > 0
  }

  datatype Hunk = Hunk(oldStart: nat, oldCount: nat, newStart: nat, newCount: nat, body: seq<Line>)

  // A header opens a hunk; any other line joins the last one.
  function Push(hs: seq<Hunk>, l: Line): seq<Hunk> {
    if l.Header? then hs + [Hunk(l.oldStart, l.oldCount, l.newStart, l.newCount, [])]
    else if hs == [] then []
    else hs[..|hs| - 1] + [hs[|hs| - 1].(body := hs[|hs| - 1].body + [l])]
  }

  // The hunks of the first n lines.
  function Hunks(ts: seq<Line>, n: nat): seq<Hunk>
    requires n <= |ts|
  {
    if n == 0 then [] else Push(Hunks(ts, n - 1), ts[n - 1])
  }

  // The half-open line ranges [OldBegin, OldEnd) and [NewBegin, NewEnd), from 0.
  function OldBegin(h: Hunk): int {
    Begin(h.oldStart, h.oldCount)
  }

  function NewBegin(h: Hunk): int {
    Begin(h.newStart, h.newCount)
  }

  function Begin(start: nat, count: nat): int {
    if count == 0 then start else start - 1
  }

  function OldEnd(h: Hunk): int {
    OldBegin(h) + h.oldCount
  }

  function NewEnd(h: Hunk): int {
    NewBegin(h) + h.newCount
  }

  predicate Zero(h: Hunk) {
    h.oldCount == 0 || h.newCount == 0
  }

  // Stricter than the standard format: an empty range must start at 0.
  predicate RangesOk(h: Hunk) {
    (h.oldCount == 0 <==> h.oldStart == 0) && (h.newCount == 0 <==> h.newStart == 0)
  }

  function OldGap(hs: seq<Hunk>, k: nat): int
    requires k < |hs|
  {
    OldBegin(hs[k]) - if k == 0 then 0 else OldEnd(hs[k - 1])
  }

  function NewGap(hs: seq<Hunk>, k: nat): int
    requires k < |hs|
  {
    NewBegin(hs[k]) - if k == 0 then 0 else NewEnd(hs[k - 1])
  }

  // The hunk's place: as many unchanged lines before it on both sides, and none
  // beside it when one of its ranges is empty.
  predicate Linked(hs: seq<Hunk>, k: nat)
    requires k < |hs|
  {
    && RangesOk(hs[k])
    && (k > 0 ==> !Zero(hs[k]) && !Zero(hs[k - 1]))
    && OldGap(hs, k) == NewGap(hs, k) >= 0
  }

  predicate HunkOk(h: Hunk) {
    OldLines(h.body) == h.oldCount && NewLines(h.body) == h.newCount && HasChange(h.body)
  }

  // The old side ended before line n: some earlier old line has the marker.
  ghost predicate OldEnded(ts: seq<Line>, n: nat)
    requires n <= |ts|
  {
    exists q :: 0 < q < n && EndsOld(ts, q)
  }

  ghost predicate NewEnded(ts: seq<Line>, n: nat)
    requires n <= |ts|
  {
    exists q :: 0 < q < n && EndsNew(ts, q)
  }

  predicate EndsOld(ts: seq<Line>, q: nat)
    requires 0 < q < |ts|
  {
    ts[q].NoNewline? && OldLine(ts[q - 1])
  }

  predicate EndsNew(ts: seq<Line>, q: nat)
    requires 0 < q < |ts|
  {
    ts[q].NoNewline? && NewLine(ts[q - 1])
  }

  // Line p may stand where it stands.
  ghost predicate LineOk(ts: seq<Line>, p: nat)
    requires p < |ts|
  {
    && !ts[p].Malformed?
    && (p == 0 ==> ts[p].Header?)
    && (ts[p].NoNewline? ==> p > 0 && Content(ts[p - 1]))
    && (OldLine(ts[p]) ==> !OldEnded(ts, p))
    && (NewLine(ts[p]) ==> !NewEnded(ts, p))
  }

  ghost predicate LinesOk(ts: seq<Line>, n: nat)
    requires n <= |ts|
  {
    forall p :: 0 <= p < n ==> LineOk(ts, p)
  }

  ghost predicate AllLinked(hs: seq<Hunk>) {
    forall k :: 0 <= k < |hs| ==> Linked(hs, k)
  }

  // A valid diff.
  ghost predicate Valid(ts: seq<Line>) {
    var hs := Hunks(ts, |ts|);
    LinesOk(ts, |ts|) && AllLinked(hs) && forall k :: 0 <= k < |hs| ==> HunkOk(hs[k])
  }

  // --- Prefixes ---

  predicate Partial(h: Hunk) {
    OldLines(h.body) <= h.oldCount && NewLines(h.body) <= h.newCount
  }

  // The first n lines may be the beginning of a valid diff.
  ghost predicate Sound(ts: seq<Line>, n: nat)
    requires n <= |ts|
  {
    var hs := Hunks(ts, n);
    LinesOk(ts, n) && AllLinked(hs) && Complete(hs) && (hs != [] ==> Partial(hs[|hs| - 1]))
  }

  ghost predicate Complete(hs: seq<Hunk>) {
    forall k :: 0 <= k < |hs| - 1 ==> HunkOk(hs[k])
  }

  lemma ValidIsSound(ts: seq<Line>)
    ensures Valid(ts)
        <==> Sound(ts, |ts|) && (ts != [] ==> Hunks(ts, |ts|) != [] && HunkOk(Hunks(ts, |ts|)[|Hunks(ts, |ts|)| - 1]))
  {
    if LinesOk(ts, |ts|) && ts != [] {
      assert LineOk(ts, 0);
      HunksAppear(ts, |ts|);
    }
  }

  lemma {:induction false} HunksAppear(ts: seq<Line>, n: nat)
    requires 0 < n <= |ts| && ts[0].Header?
    ensures Hunks(ts, n) != []
  {
    if n > 1 {
      HunksAppear(ts, n - 1);
    } else {
      assert Hunks(ts, 0) == [];
    }
  }

  lemma BodyGrows(body: seq<Line>, l: Line)
    ensures OldLines(body + [l]) == OldLines(body) + if OldLine(l) then 1 else 0
    ensures NewLines(body + [l]) == NewLines(body) + if NewLine(l) then 1 else 0
    ensures Added(body + [l]) == Added(body) + if l.Add? then 1 else 0
    ensures Removed(body + [l]) == Removed(body) + if l.Remove? then 1 else 0
  {
    assert (body + [l])[..|body|] == body;
  }

  // One line more ...
  lemma SoundStep(ts: seq<Line>, n: nat)
    requires n < |ts| && Sound(ts, n)
    ensures Sound(ts, n + 1) <==> LineOk(ts, n) && StepOk(Hunks(ts, n), ts[n])
  {
    var hs, l := Hunks(ts, n), ts[n];
    var next := Push(hs, l);
    assert LinesOk(ts, n + 1) <==> LineOk(ts, n);
    if LineOk(ts, n) {
      if l.Header? {
        HeaderStep(hs, l);
      } else {
        if n > 0 {
          assert LineOk(ts, 0);
          HunksAppear(ts, n);
        }
        BodyStep(hs, l);
      }
    }
  }

  // What the new line must satisfy given the hunks before it.
  predicate StepOk(hs: seq<Hunk>, l: Line) {
    if l.Header? then
      && (hs != [] ==> HunkOk(hs[|hs| - 1]))
      && Linked(Push(hs, l), |hs|)
    else hs != [] ==> Partial(Push(hs, l)[|hs| - 1])
  }

  lemma HeaderStep(hs: seq<Hunk>, l: Line)
    requires l.Header? && AllLinked(hs) && Complete(hs)
    ensures var next := Push(hs, l);
            AllLinked(next) && Complete(next) && Partial(next[|next| - 1]) <==> StepOk(hs, l)
  {
    HeaderLinks(hs, l);
    HeaderCompletes(hs, l);
    hide HunkOk, Linked, AllLinked, Complete;
  }

  lemma HeaderLinks(hs: seq<Hunk>, l: Line)
    requires l.Header? && AllLinked(hs)
    ensures AllLinked(Push(hs, l)) <==> Linked(Push(hs, l), |hs|)
  {
    var next := Push(hs, l);
    forall k | 0 <= k < |hs| ensures Linked(next, k) {
      assert Linked(hs, k);
    }
    hide Linked;
  }

  lemma HeaderCompletes(hs: seq<Hunk>, l: Line)
    requires l.Header? && Complete(hs)
    ensures Complete(Push(hs, l)) <==> hs != [] ==> HunkOk(hs[|hs| - 1])
  {
    hide HunkOk;
    var next := Push(hs, l);
    if Complete(next) && hs != [] {
      assert HunkOk(next[|hs| - 1]);
    }
  }

  lemma BodyStep(hs: seq<Hunk>, l: Line)
    requires !l.Header? && hs != [] && AllLinked(hs) && Complete(hs)
    ensures var next := Push(hs, l);
            AllLinked(next) && Complete(next) && Partial(next[|next| - 1]) <==> StepOk(hs, l)
  {
    var next := Push(hs, l);
    forall k | 0 <= k < |hs| ensures Linked(next, k) {
      assert Linked(hs, k);
    }
    forall k | 0 <= k < |next| - 1 ensures HunkOk(next[k]) {
      assert HunkOk(hs[k]);
    }
  }

  // ... and never one that the whole does not need.
  lemma {:induction false} SoundPrefix(ts: seq<Line>, n: nat, m: nat)
    requires n <= m <= |ts| && Sound(ts, m)
    ensures Sound(ts, n)
    decreases m
  {
    if n < m {
      SoundBefore(ts, m - 1);
      SoundPrefix(ts, n, m - 1);
    }
  }

  lemma SoundBefore(ts: seq<Line>, n: nat)
    requires n < |ts| && Sound(ts, n + 1)
    ensures Sound(ts, n)
  {
    var hs, l := Hunks(ts, n), ts[n];
    var next := Push(hs, l);
    if hs != [] {
      forall k | 0 <= k < |hs| ensures Linked(hs, k) {
        assert Linked(next, k);
      }
      forall k | 0 <= k < |hs| - 1 ensures HunkOk(hs[k]) {
        assert HunkOk(next[k]);
      }
      if l.Header? {
        assert HunkOk(next[|hs| - 1]);
      } else {
        BodyGrows(hs[|hs| - 1].body, l);
      }
    }
  }

  // A line that does not fit spoils every diff that begins so.
  lemma Rejected(ts: seq<Line>, n: nat)
    requires n < |ts| && Sound(ts, n) && !(LineOk(ts, n) && StepOk(Hunks(ts, n), ts[n]))
    ensures !Valid(ts)
  {
    hide Sound, LineOk, StepOk, Valid;
    SoundStep(ts, n);
    ValidIsSound(ts);
    if Valid(ts) {
      SoundPrefix(ts, n + 1, |ts|);
    }
  }

  // --- The check ---

  datatype Counts = Counts(added: nat, removed: nat, hasHunk: bool, oldLines: nat, newLines: nat)

  // The first character of the content line before line n, if it is one.
  function LastPrefix(ts: seq<Line>, n: nat): Option<char>
    requires n <= |ts|
  {
    if n == 0 then None else PrefixOf(ts[n - 1])
  }

  function PrefixOf(l: Line): Option<char> {
    match l
    case Keep(_) => Some(' ')
    case Add(_) => Some('+')
    case Remove(_) => Some('-')
    case _ => None
  }

  // validate_previous_hunk
  method CheckPreviousHunk(expectedOld: Option<nat>, expectedNew: Option<nat>, consumedOld: nat, consumedNew: nat,
                           hasChange: bool)
    returns (ok: bool)
    ensures ok <==> expectedOld.Some? && expectedNew.Some? ==>
                      consumedOld == expectedOld.value && consumedNew == expectedNew.value && hasChange
  {
    if expectedOld.None? || expectedNew.None? {
      return true;
    }
    if consumedOld != expectedOld.value {
      return false;
    }
    if consumedNew != expectedNew.value {
      return false;
    }
    ok := hasChange;
  }

  // The checks of a header against the hunk before it.
  method CheckHeader(l: Line, hasHunk: bool, zeroSeen: bool, previousOldEnd: Option<int>, previousNewEnd: Option<int>,
                     ghost hs: seq<Hunk>)
    returns (ok: bool)
    requires l.Header? && (hasHunk <==> hs != []) && (zeroSeen <==> hs != [] && Zero(hs[|hs| - 1]))
    requires previousOldEnd == (if hs == [] then None else Some(OldEnd(hs[|hs| - 1])))
    requires previousNewEnd == (if hs == [] then None else Some(NewEnd(hs[|hs| - 1])))
    ensures ok <==> Linked(Push(hs, l), |hs|)
  {
    ghost var next := Push(hs, l);
    if zeroSeen {
      return false;
    }
    if (l.oldCount != 0 && l.oldStart == 0) || (l.newCount != 0 && l.newStart == 0)
       || (l.oldCount == 0 && l.oldStart != 0) || (l.newCount == 0 && l.newStart != 0) {
      return false;
    }
    var hasZeroRange := l.oldCount == 0 || l.newCount == 0;
    if hasZeroRange && hasHunk {
      return false;
    }
    var oldBegin := Begin(l.oldStart, l.oldCount);
    var newBegin := Begin(l.newStart, l.newCount);
    var oldGap := if previousOldEnd.None? then oldBegin else oldBegin - previousOldEnd.value;
    var newGap := if previousNewEnd.None? then newBegin else newBegin - previousNewEnd.value;
    assert oldGap == OldGap(next, |hs|) && newGap == NewGap(next, |hs|);
    ok := oldGap >= 0 && newGap >= 0 && oldGap == newGap;
  }

  lemma LastHunk(hs: seq<Hunk>, l: Line)
    requires !l.Header? && hs != []
    ensures var next := Push(hs, l);
            && |next| == |hs|
            && next[|hs| - 1] == hs[|hs| - 1].(body := hs[|hs| - 1].body + [l])
            && (StepOk(hs, l) <==> Partial(next[|hs| - 1]))
            && Zero(next[|hs| - 1]) == Zero(hs[|hs| - 1])
            && OldEnd(next[|hs| - 1]) == OldEnd(hs[|hs| - 1]) && NewEnd(next[|hs| - 1]) == NewEnd(hs[|hs| - 1])
  {
  }

  lemma EndsAt(ts: seq<Line>, n: nat)
    requires n < |ts|
    ensures OldEnded(ts, n + 1) <==> OldEnded(ts, n) || (n > 0 && EndsOld(ts, n))
    ensures NewEnded(ts, n + 1) <==> NewEnded(ts, n) || (n > 0 && EndsNew(ts, n))
  {
    if OldEnded(ts, n) {
      var q :| 0 < q < n && EndsOld(ts, q);
    }
    if NewEnded(ts, n) {
      var q :| 0 < q < n && EndsNew(ts, q);
    }
  }

  lemma StartSound(ts: seq<Line>)
    ensures Sound(ts, 0) && Hunks(ts, 0) == [] && !OldEnded(ts, 0) && !NewEnded(ts, 0)
    ensures Added(ts[..0]) == Removed(ts[..0]) == OldLines(ts[..0]) == NewLines(ts[..0]) == 0
  {
  }

  lemma NotAHeader(lines: seq<string>)
    requires lines != [] && !StartsWith(lines[0], "@@")
    ensures !Valid(LexAll(lines))
  {
    assert !LineOk(LexAll(lines), 0);
  }

  lemma FirstIsHeader(s: string)
    requires StartsWith(s, "@@")
    ensures Lex(s).Header? || Lex(s).Malformed?
  {
  }

  lemma HunksNext(ts: seq<Line>, n: nat)
    requires n < |ts|
    ensures Hunks(ts, n + 1) == Push(Hunks(ts, n), ts[n])
  {
  }

  // LineOk in terms of what the loop keeps.
  lemma FitsHere(ts: seq<Line>, n: nat, oldEnded: bool, newEnded: bool)
    requires n < |ts| && (oldEnded <==> OldEnded(ts, n)) && (newEnded <==> NewEnded(ts, n))
    ensures LineOk(ts, n) <==>
              && !ts[n].Malformed?
              && (n == 0 ==> ts[n].Header?)
              && (ts[n].NoNewline? ==> LastPrefix(ts, n).Some?)
              && (OldLine(ts[n]) ==> !oldEnded)
              && (NewLine(ts[n]) ==> !newEnded)
    ensures n > 0 && ts[n].NoNewline? && LastPrefix(ts, n).Some? ==>
              && (EndsOld(ts, n) <==> LastPrefix(ts, n).value in {' ', '-'})
              && (EndsNew(ts, n) <==> LastPrefix(ts, n).value in {' ', '+'})
  {
    hide OldEnded, NewEnded;
  }

  lemma HeaderFits(hs: seq<Hunk>, l: Line)
    requires l.Header?
    ensures StepOk(hs, l) <==> (hs != [] ==> HunkOk(hs[|hs| - 1])) && Linked(Push(hs, l), |hs|)
    ensures OldLines([]) == NewLines([]) == 0 && !HasChange([])
  {
  }

  // _count_hunk_changes: accepts exactly the valid diffs, with their exact counts.
  method CountHunkChanges(diff: string) returns (r: Option<Counts>)
    ensures r.Some? <==> Valid(Lines(diff))
    ensures r.Some? ==> var ts := Lines(diff);
                        r.value == Counts(Added(ts), Removed(ts), ts != [], OldLines(ts), NewLines(ts))
  {
    hide Valid, Sound, LineOk, OldEnded, NewEnded, Linked, OldLines, NewLines, Added, Removed, Hunks, StepOk, Lex;
    var lines := SplitLines(diff);
    ghost var ts := Lines(diff);
    ValidIsSound(ts);
    StartSound(ts);
    if lines != [] && !StartsWith(lines[0], "@@") {
      NotAHeader(lines);
      return None;
    }
    var added, removed, totalOld, totalNew: nat := 0, 0, 0, 0;
    var hasHunk := false;
    var expectedOld: Option<nat>, expectedNew: Option<nat> := None, None;
    var consumedOld, consumedNew: nat := 0, 0;
    var hasChange := false;
    var lastPrefix: Option<char> := None;
    var oldEnded, newEnded := false, false;
    var previousOldEnd: Option<int>, previousNewEnd: Option<int> := None, None;
    var zeroSeen := false;
    ghost var hs: seq<Hunk> := [];
    for i := 0 to |lines|
      invariant Sound(ts, i) && hs == Hunks(ts, i)
      invariant hasHunk <==> hs != []
      invariant i > 0 ==> hasHunk
      invariant expectedOld == if hasHunk then Some(hs[|hs| - 1].oldCount) else None
      invariant expectedNew == if hasHunk then Some(hs[|hs| - 1].newCount) else None
      invariant hasHunk ==> consumedOld == OldLines(hs[|hs| - 1].body) && consumedNew == NewLines(hs[|hs| - 1].body)
      invariant hasHunk ==> (hasChange <==> HasChange(hs[|hs| - 1].body))
      invariant lastPrefix == LastPrefix(ts, i)
      invariant (oldEnded <==> OldEnded(ts, i)) && (newEnded <==> NewEnded(ts, i))
      invariant previousOldEnd == if hasHunk then Some(OldEnd(hs[|hs| - 1])) else None
      invariant previousNewEnd == if hasHunk then Some(NewEnd(hs[|hs| - 1])) else None
      invariant zeroSeen <==> hasHunk && Zero(hs[|hs| - 1])
      invariant added == Added(ts[..i]) && removed == Removed(ts[..i])
      invariant totalOld == OldLines(ts[..i]) && totalNew == NewLines(ts[..i])
    {
      var line := Lex(lines[i]);
      assert line == ts[i];
      assert ts[..i + 1] == ts[..i] + [line];
      BodyGrows(ts[..i], line);
      EndsAt(ts, i);
      SoundStep(ts, i);
      HunksNext(ts, i);
      FitsHere(ts, i, oldEnded, newEnded);
      if line.Header? {
        var complete := CheckPreviousHunk(expectedOld, expectedNew, consumedOld, consumedNew, hasChange);
        var linked := CheckHeader(line, hasHunk, zeroSeen, previousOldEnd, previousNewEnd, hs);
        HeaderFits(hs, line);
        if !complete || !linked {
          Rejected(ts, i);
          return None;
        }
        hs := Push(hs, line);
        expectedOld, expectedNew := Some(line.oldCount), Some(line.newCount);
        previousOldEnd := Some(Begin(line.oldStart, line.oldCount) + line.oldCount);
        previousNewEnd := Some(Begin(line.newStart, line.newCount) + line.newCount);
        zeroSeen := line.oldCount == 0 || line.newCount == 0;
        consumedOld, consumedNew, hasChange, lastPrefix, hasHunk := 0, 0, false, None, true;
      } else {
        if line.Malformed? || (line.NoNewline? && lastPrefix.None?) {
          Rejected(ts, i);
          return None;
        }
        assert expectedOld.Some? by {  // so no line is skipped before the first header
          FirstIsHeader(lines[0]);
        }
        if (OldLine(line) && oldEnded) || (NewLine(line) && newEnded) {
          Rejected(ts, i);
          return None;
        }
        LastHunk(hs, line);
        BodyGrows(hs[|hs| - 1].body, line);
        match line {
          case Keep(_) =>
            consumedOld, consumedNew, totalOld, totalNew := consumedOld + 1, consumedNew + 1, totalOld + 1,
              totalNew + 1;
            lastPrefix := Some(' ');
          case Add(_) =>
            added, consumedNew, totalNew, hasChange := added + 1, consumedNew + 1, totalNew + 1, true;
            lastPrefix := Some('+');
          case Remove(_) =>
            removed, consumedOld, totalOld, hasChange := removed + 1, consumedOld + 1, totalOld + 1, true;
            lastPrefix := Some('-');
          case NoNewline =>
            oldEnded := oldEnded || lastPrefix.value in {' ', '-'};
            newEnded := newEnded || lastPrefix.value in {' ', '+'};
            lastPrefix := None;
        }
        if consumedOld > expectedOld.value || consumedNew > expectedNew.value {
          Rejected(ts, i);
          return None;
        }
        hs := Push(hs, line);
      }
    }
    assert ts[..|lines|] == ts;
    var complete := CheckPreviousHunk(expectedOld, expectedNew, consumedOld, consumedNew, hasChange);
    if !complete {
      return None;
    }
    r := Some(Counts(added, removed, hasHunk, totalOld, totalNew));
  }

  // --- A short diff ---

  // One line replaced, under a header without counts: accepted at every line but 0.
  lemma OneLineReplaced(n: string, before: string, after: string)
    requires Numeral(n)
    requires forall i :: 0 <= i < |before| ==> !IsBoundary(before[i])
    requires forall i :: 0 <= i < |after| ==> !IsBoundary(after[i])
    ensures var ts := Lines(Concat(["@@ -" + (n + (" +" + (n + " @@"))) + "\n", "-" + (before + "\n"),
                                    "+" + (after + "\n")]));
            && ts == [Header(ValueOf(n), 1, ValueOf(n), 1), Remove(before + "\n"), Add(after + "\n")]
            && (Valid(ts) <==> ValueOf(n) >= 1)
            && Added(ts) == 1 && Removed(ts) == 1
  {
    hide Valid, Added, Removed, Lex, SplitLines, Concat, ValueOf;
    var header := "@@ -" + (n + (" +" + (n + " @@")));
    HeaderForms(n, None, n, None, "", "\n");
    assert HeaderText(n, None, n, None, "") == header by {
      assert " @@" + "" == " @@" && "" + " @@" == " @@" && "" + (" +" + (n + " @@")) == " +" + (n + " @@");
    }
    var lines := [header + "\n", "-" + (before + "\n"), "+" + (after + "\n")];
    ClosedLine(header);
    ClosedLine("-" + before);
    ClosedLine("+" + after);
    assert "-" + (before + "\n") == "-" + before + "\n" && "+" + (after + "\n") == "+" + after + "\n";
    SplitConcat(lines);
    PrintedContent("-", before + "\n");
    PrintedContent("+", after + "\n");
    ReplacementValid(ValueOf(n), before + "\n", after + "\n");
  }

  lemma ClosedLine(s: string)
    requires s != "" && forall i :: 0 <= i < |s| ==> !IsBoundary(s[i])
    ensures LineShape(s + "\n") && forall next :: Closes(s + "\n", next)
  {
  }

  lemma ReplacementValid(n: nat, before: string, after: string)
    ensures var ts := [Header(n, 1, n, 1), Remove(before), Add(after)];
            (Valid(ts) <==> n >= 1) && Added(ts) == 1 && Removed(ts) == 1
  {
    var ts := [Header(n, 1, n, 1), Remove(before), Add(after)];
    var body := [Remove(before), Add(after)];
    ReplacementHunks(n, before, after);
    ReplacementCounts(n, before, after);
    ReplacementLines(ts);
    hide LinesOk, Hunks, OldLines, NewLines, Added, Removed;
    var hs := [Hunk(n, 1, n, 1, body)];
    assert HunkOk(hs[0]) && (AllLinked(hs) <==> Linked(hs, 0));
    assert Linked(hs, 0) <==> n >= 1;
  }

  lemma ReplacementLines(ts: seq<Line>)
    requires |ts| == 3 && ts[0].Header? && ts[1].Remove? && ts[2].Add?
    ensures LinesOk(ts, 3)
  {
    assert forall q :: 0 < q < 3 ==> !ts[q].NoNewline?;
  }

  lemma ReplacementHunks(n: nat, before: string, after: string)
    ensures var ts := [Header(n, 1, n, 1), Remove(before), Add(after)];
            Hunks(ts, 3) == [Hunk(n, 1, n, 1, [Remove(before), Add(after)])]
  {
    var ts := [Header(n, 1, n, 1), Remove(before), Add(after)];
    assert Hunks(ts, 0) == [];
    hide Hunks;
    HunksNext(ts, 0);
    HunksNext(ts, 1);
    HunksNext(ts, 2);
    assert Hunks(ts, 1) == [Hunk(n, 1, n, 1, [])];
    assert [] + [Remove(before)] == [Remove(before)];
    assert Hunks(ts, 2) == [Hunk(n, 1, n, 1, [Remove(before)])];
    assert [Remove(before)] + [Add(after)] == [Remove(before), Add(after)];
  }

  lemma ReplacementCounts(n: nat, before: string, after: string)
    ensures var body := [Remove(before), Add(after)];
            OldLines(body) == NewLines(body) == Added(body) == Removed(body) == 1
    ensures var ts := [Header(n, 1, n, 1), Remove(before), Add(after)];
            Added(ts) == Removed(ts) == 1
  {
    hide OldLines, NewLines, Added, Removed;
    EmptyBody();
    TwoMore([], Remove(before), Add(after));
    BodyGrows([], Header(n, 1, n, 1));
    assert [] + [Header(n, 1, n, 1)] == [Header(n, 1, n, 1)];
    TwoMore([Header(n, 1, n, 1)], Remove(before), Add(after));
    assert [] + [Remove(before), Add(after)] == [Remove(before), Add(after)];
    assert [Header(n, 1, n, 1)] + [Remove(before), Add(after)] == [Header(n, 1, n, 1), Remove(before), Add(after)];
  }

  lemma EmptyBody()
    ensures OldLines([]) == NewLines([]) == Added([]) == Removed([]) == 0
  {
  }

  lemma TwoMore(body: seq<Line>, x: Line, y: Line)
    requires x.Remove? && y.Add?
    ensures var more := body + [x, y];
            && OldLines(more) == OldLines(body) + 1 && NewLines(more) == NewLines(body) + 1
            && Added(more) == Added(body) + 1 && Removed(more) == Removed(body) + 1
  {
    hide OldLines, NewLines, Added, Removed;
    BodyGrows(body, x);
    BodyGrows(body + [x], y);
    assert (body + [x]) + [y] == body + [x, y];
  }
}
