/** Paths in Git patches (_quote_git_path and _validate_path in
    skills-src/l2/local/gitcode-pr-review-fetch/scripts/gitcode_patch.py). A path is
    the sequence of its UTF-8 bytes, one per character. */
module GitPaths {
  predicate IsBytes(path: string) {
    forall i :: 0 <= i < |path| ==> path[i] < '\U{100}'
  }

  type Bytes = path: string | IsBytes(path)

  // A byte that Git does not write as itself. Characters above 0x7E become
  // bytes above 0x7F, and no space character lies between 0x21 and 0x7E.
  predicate Special(c: char) {
    c <= ' ' || c >= '\U{7f}' || c == '"' || c == '\\'
  }

  // --- Quoting ---

  function Octal(n: nat): char
    requires n < 8
  {
    '0' + n as char
  }

  function Escape(c: char): string
    requires c < '\U{100}'
  {
    if c == '"' then "\\\""
    else if c == '\\' then "\\\\"
    else if c == '\t' then "\\t"
    else if ' ' <= c < '\U{7f}' then [c]
    else ['\\', Octal(c as nat / 64), Octal(c as nat / 8 % 8), Octal(c as nat % 8)]
  }

  function EscapeAll(path: string): string
    requires IsBytes(path)
  {
    if path == [] then "" else EscapeAll(path[..|path| - 1]) + Escape(path[|path| - 1])
  }

  ghost predicate NeedsQuotes(path: string) {
    exists i :: 0 <= i < |path| && Special(path[i])
  }

  ghost function Quote(path: string): string
    requires IsBytes(path)
  {
    if NeedsQuotes(path) then "\"" + EscapeAll(path) + "\"" else path
  }

  // _quote_git_path
  method QuoteGitPath(path: string) returns (r: string)
    requires IsBytes(path)
    ensures r == Quote(path)
  {
    var needsQuotes := exists i :: 0 <= i < |path| && Special(path[i]);
    if !needsQuotes {
      return path;
    }
    var escaped := "";
    for i := 0 to |path|
      invariant escaped == EscapeAll(path[..i])
    {
      assert path[..i + 1][..i] == path[..i];
      var c := path[i];
      if c == '"' {
        escaped := escaped + "\\\"";
      } else if c == '\\' {
        escaped := escaped + "\\\\";
      } else if c == '\t' {
        escaped := escaped + "\\t";
      } else if ' ' <= c < '\U{7f}' {
        escaped := escaped + [c];
      } else {
        escaped := escaped + ['\\', Octal(c as nat / 64), Octal(c as nat / 8 % 8), Octal(c as nat % 8)];
      }
    }
    assert path[..|path|] == path;
    r := "\"" + escaped + "\"";
  }

  // --- Unquoting, as Git reads it back ---

  datatype Read = NoPath | Path(path: string, rest: string)

  predicate IsOctal(c: char) {
    '0' <= c <= '7'
  }

  // The byte at the front of quoted text, and how many characters it takes; 0
  // when there is none.
  function Unescape(s: string): (char, nat) {
    if s == [] || s[0] == '"' then ('\0', 0)
    else if s[0] != '\\' then (s[0], 1)
    else if |s| >= 2 && (s[1] == '"' || s[1] == '\\') then (s[1], 2)
    else if |s| >= 2 && s[1] == 't' then ('\t', 2)
    else if |s| >= 4 && '0' <= s[1] <= '3' && IsOctal(s[2]) && IsOctal(s[3])
    then (((s[1] - '0') as nat * 64 + (s[2] - '0') as nat * 8 + (s[3] - '0') as nat) as char, 4)
    else ('\0', 0)
  }

  // The path up to the closing quote.
  function ReadQuoted(s: string, done: string): Read {
    if s != [] && s[0] == '"' then Path(done, s[1..])
    else
      var u := Unescape(s);
      if u.1 == 0 || u.1 > |s| then NoPath else ReadQuoted(s[u.1..], done + [u.0])
  }

  predicate EndsPath(c: char) {
    c == ' ' || c == '\n'
  }

  // A bare path ends before a space or a line feed.
  function ReadBare(s: string, done: string): Read {
    if s == [] || EndsPath(s[0]) then Path(done, s) else ReadBare(s[1..], done + [s[0]])
  }

  function ReadPath(s: string): Read {
    if s != [] && s[0] == '"' then ReadQuoted(s[1..], "") else ReadBare(s, "")
  }

  // --- Reading inverts quoting ---

  lemma UnescapeEscape(c: char, rest: string)
    requires c < '\U{100}'
    ensures Unescape(Escape(c) + rest) == (c, |Escape(c)|)
    ensures |Escape(c)| > 0 && (Escape(c) + rest)[0] != '"' && (Escape(c) + rest)[|Escape(c)|..] == rest
  {
    var e := Escape(c);
    var s := e + rest;
    assert forall i :: 0 <= i < |e| ==> s[i] == e[i];
    if c != '"' && c != '\\' && c != '\t' && !(' ' <= c < '\U{7f}') {
      OctalDigits(c as nat);
    }
  }

  lemma OctalDigits(n: nat)
    requires n < 256
    ensures n / 64 < 4 && n / 64 * 64 + n / 8 % 8 * 8 + n % 8 == n
  {
    assert n / 8 / 8 == n / 64;
  }

  lemma EscapeNone()
    ensures EscapeAll("") == ""
  {
  }

  lemma EscapeLast(path: string)
    requires IsBytes(path) && path != []
    ensures EscapeAll(path) == EscapeAll(path[..|path| - 1]) + Escape(path[|path| - 1])
  {
  }

  lemma {:induction false} EscapeFront(path: string)
    requires IsBytes(path) && path != []
    ensures EscapeAll(path) == Escape(path[0]) + EscapeAll(path[1..])
  {
    hide Escape, EscapeAll;
    var n := |path| - 1;
    EscapeLast(path);
    if n == 0 {
      EscapeNone();
      assert path[..0] == [] && path[1..] == [];
      assert "" + Escape(path[0]) == Escape(path[0]) + "";
    } else {
      var tail := path[1..];
      EscapeFront(path[..n]);
      EscapeLast(tail);
      assert path[..n][1..] == tail[..n - 1] && tail[n - 1] == path[n];
      assert (Escape(path[0]) + EscapeAll(tail[..n - 1])) + Escape(path[n])
        == Escape(path[0]) + (EscapeAll(tail[..n - 1]) + Escape(path[n]));
    }
  }

  lemma ReadOne(c: char, more: string, done: string)
    requires c < '\U{100}'
    ensures ReadQuoted(Escape(c) + more, done) == ReadQuoted(more, done + [c])
  {
    UnescapeEscape(c, more);
    hide Escape, Unescape;
  }

  lemma {:induction false} ReadEscaped(path: string, rest: string, done: string)
    requires IsBytes(path)
    ensures ReadQuoted(EscapeAll(path) + "\"" + rest, done) == Path(done + path, rest)
    decreases |path|
  {
    hide Escape, EscapeAll, Unescape, ReadQuoted;
    if path == [] {
      EscapeNone();
      QuoteCloses(rest, done);
      assert "" + "\"" + rest == "\"" + rest && done + path == done;
    } else {
      EscapeFront(path);
      var more := EscapeAll(path[1..]) + "\"" + rest;
      assert EscapeAll(path) + "\"" + rest == Escape(path[0]) + more;
      ReadOne(path[0], more, done);
      ReadEscaped(path[1..], rest, done + [path[0]]);
      assert done + [path[0]] + path[1..] == done + path;
    }
  }

  lemma QuoteCloses(rest: string, done: string)
    ensures ReadQuoted("\"" + rest, done) == Path(done, rest)
  {
  }

  lemma {:induction false} ReadPlain(path: string, rest: string, done: string)
    requires !NeedsQuotes(path) && rest != [] && EndsPath(rest[0])
    ensures ReadBare(path + rest, done) == Path(done + path, rest)
    decreases |path|
  {
    if path == [] {
      assert path + rest == rest && done + path == done;
    } else {
      assert !Special(path[0]);
      assert (path + rest)[1..] == path[1..] + rest;
      assert !NeedsQuotes(path[1..]) by {
        forall i | 0 <= i < |path| - 1 ensures !Special(path[1..][i]) {
          assert !Special(path[i + 1]);
        }
      }
      ReadPlain(path[1..], rest, done + [path[0]]);
      assert done + [path[0]] + path[1..] == done + path;
    }
  }

  // Unquoting inverts quoting on every path, wherever the path ends.
  lemma ReadQuote(path: string, rest: string)
    requires IsBytes(path) && rest != [] && EndsPath(rest[0])
    ensures ReadPath(Quote(path) + rest) == Path(path, rest)
  {
    hide ReadQuoted, ReadBare, EscapeAll;
    if NeedsQuotes(path) {
      var s := Quote(path) + rest;
      assert s[0] == '"' && s[1..] == EscapeAll(path) + "\"" + rest;
      ReadEscaped(path, rest, "");
      assert "" + path == path;
    } else {
      if path != [] {
        assert !Special(path[0]);
        assert (path + rest)[0] == path[0];
      }
      ReadPlain(path, rest, "");
      assert "" + path == path;
    }
  }

  // A quoted path is one word of printable text.
  lemma {:induction false} EscapedPrints(path: string)
    requires IsBytes(path)
    ensures forall i :: 0 <= i < |EscapeAll(path)| ==> ' ' <= EscapeAll(path)[i] < '\U{7f}'
  {
    if path != [] {
      EscapedPrints(path[..|path| - 1]);
    }
  }

  lemma QuotePrints(path: string)
    requires IsBytes(path)
    ensures forall i :: 0 <= i < |Quote(path)| ==> ' ' <= Quote(path)[i] < '\U{7f}'
  {
    EscapedPrints(path);
    if !NeedsQuotes(path) {
      forall i | 0 <= i < |path| ensures ' ' <= path[i] < '\U{7f}' {
        assert !Special(path[i]);
      }
    }
  }

  // --- Safe paths ---

  // path.split("/")
  function Components(path: string): seq<string> {
    if '/' !in path then [path] else
      var i := SlashAt(path, 0);
      [path[..i]] + Components(path[i + 1..])
  }

  function SlashAt(path: string, i: nat): (k: nat)
    requires i <= |path| && '/' in path[i..]
    ensures i <= k < |path| && path[k] == '/'
    decreases |path| - i
  {
    if path[i] == '/' then i else SlashAt(path, i + 1)
  }

  // _validate_path
  predicate SafePath(path: string) {
    && (forall c :: c in Components(path) ==> c != "" && c != "." && c != "..")
    && '\0' !in path && '\r' !in path && '\n' !in path
  }

  // "/".join(parts)
  function JoinSlash(parts: seq<string>): string
    requires parts != []
  {
    if |parts| == 1 then parts[0] else parts[0] + ("/" + JoinSlash(parts[1..]))
  }

  lemma {:induction false} SlashAtFirst(path: string, i: nat)
    requires i <= |path| && '/' in path[i..]
    ensures forall j :: i <= j < SlashAt(path, i) ==> path[j] != '/'
    decreases |path| - i
  {
    if path[i] != '/' {
      assert path[i..] == [path[i]] + path[i + 1..];
      SlashAtFirst(path, i + 1);
    }
  }

  lemma ComponentsFirst(first: string, rest: string)
    requires '/' !in first
    ensures Components(first + ("/" + rest)) == [first] + Components(rest)
  {
    var path := first + ("/" + rest);
    assert path[|first|] == '/' && path[0..] == path;
    SlashAtFirst(path, 0);
    hide SlashAt;
    assert forall j :: 0 <= j < |first| ==> path[j] == first[j];
    assert SlashAt(path, 0) == |first|;
    assert path[..|first|] == first && path[|first| + 1..] == rest;
  }

  // Splitting undoes joining parts without slashes.
  lemma {:induction false} ComponentsOfJoin(parts: seq<string>)
    requires parts != [] && forall part :: part in parts ==> '/' !in part
    ensures Components(JoinSlash(parts)) == parts
    decreases |parts|
  {
    assert parts[0] in parts;
    if |parts| > 1 {
      hide Components;
      ComponentsOfJoin(parts[1..]);
      ComponentsFirst(parts[0], JoinSlash(parts[1..]));
      assert parts == [parts[0]] + parts[1..];
    }
  }

  lemma {:induction false} JoinChars(parts: seq<string>, c: char)
    requires parts != []
    ensures c in JoinSlash(parts) <==> (exists part :: part in parts && c in part) || (c == '/' && |parts| > 1)
  {
    if |parts| > 1 {
      JoinChars(parts[1..], c);
      assert parts == [parts[0]] + parts[1..];
    }
  }

  // A path is safe exactly if each of its parts is a name, and none holds a
  // character that would end a line or a C string.
  lemma SafePathIff(parts: seq<string>)
    requires parts != [] && forall part :: part in parts ==> '/' !in part
    ensures SafePath(JoinSlash(parts)) <==>
              forall part :: part in parts ==>
                part != "" && part != "." && part != ".." && '\0' !in part && '\r' !in part && '\n' !in part
  {
    ComponentsOfJoin(parts);
    JoinChars(parts, '\0');
    JoinChars(parts, '\r');
    JoinChars(parts, '\n');
  }

  // Every path is such a join.
  lemma {:induction false} JoinOfComponents(path: string)
    ensures Components(path) != [] && JoinSlash(Components(path)) == path
    ensures forall part :: part in Components(path) ==> '/' !in part
    decreases |path|
  {
    if '/' in path {
      assert path[0..] == path;
      var i := SlashAt(path, 0);
      SlashAtFirst(path, 0);
      JoinOfComponents(path[i + 1..]);
      var more := Components(path[i + 1..]);
      assert Components(path)[1..] == more;
      assert path == path[..i] + ("/" + path[i + 1..]);
    }
  }
}
