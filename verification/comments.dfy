/**
 The comment stripper of `manage_comments.py` (`remove_comments_from_file`):
 the content is split at newlines and every line is cleaned on its own.
 A blank line is kept as it is, a line holding only a comment becomes empty,
 and any other line is scanned left to right: single- and double-quoted
 strings are copied, a triple-quoted string is dropped up to its closing
 quotes or, when it does not close on the line, together with the rest of
 the line, and a `#` outside a string drops the rest of the line. The
 cleaned line loses its trailing whitespace.

 Like the script, the scanner knows nothing of backslash escapes, and
 triple-quoted strings spanning several lines are only cut on their first
 line. Reading and writing the file is not modelled.
 */
module Comments {
  import opened Stats
  import opened Sequences

  /** Python's `str.isspace` for one character. */
  predicate IsSpace(c: char) {
    || c == ' ' || c == '\t' || c == '\n' || c == '\r' || c == '\U{B}' || c == '\U{C}'
    || ('\U{1C}' <= c <= '\U{1F}') || c == '\U{85}' || c == '\U{A0}' || c == '\U{1680}'
    || ('\U{2000}' <= c <= '\U{200A}') || c == '\U{2028}' || c == '\U{2029}' || c == '\U{202F}'
    || c == '\U{205F}' || c == '\U{3000}'
  }

  /** Every character of `s` is whitespace. */
  predicate AllSpace(s: string) {
    forall k :: 0 <= k < |s| ==> IsSpace(s[k])
  }

  /** `s.rstrip()`: the longest prefix not ending in whitespace. */
  function RStrip(s: string): (r: string)
    ensures r <= s
    ensures |r| == 0 || !IsSpace(r[|r| - 1])
    ensures AllSpace(s[|r|..])
    decreases |s|
  {
    if |s| == 0 || !IsSpace(s[|s| - 1]) then s
    else
      var r := RStrip(s[..|s| - 1]);
      assert s[|r|..] == s[..|s| - 1][|r|..] + [s[|s| - 1]];
      r
  }

  /** `s.lstrip()`: the longest suffix not starting with whitespace. */
  function LStrip(s: string): (r: string)
    ensures |r| <= |s| && r == s[|s| - |r|..]
    ensures |r| == 0 || !IsSpace(r[0])
    ensures AllSpace(s[..|s| - |r|])
    decreases |s|
  {
    if |s| == 0 || !IsSpace(s[0]) then s
    else
      var r := LStrip(s[1..]);
      assert s[..|s| - |r|] == [s[0]] + s[1..][..|s[1..]| - |r|];
      r
  }

  /** `s.strip()`. */
  function Strip(s: string): string {
    LStrip(RStrip(s))
  }

  /** A string strips to nothing exactly when it is all whitespace. */
  lemma StripEmptyIff(s: string)
    ensures Strip(s) == [] <==> AllSpace(s)
  {
    var r := RStrip(s);
    if Strip(s) == [] {
      assert AllSpace(r[..|r|]);
      assert s == r + s[|r|..];
    }
  }

  /** The stripped text starts with the first non-whitespace character of the line. */
  lemma StripStart(s: string, k: nat)
    requires k < |s| && !IsSpace(s[k]) && AllSpace(s[..k])
    ensures |Strip(s)| > 0 && Strip(s)[0] == s[k]
  {
    var r := RStrip(s);
    RStripKeeps(s, k);
    assert r[..k] == s[..k];
    LStripStart(r, k);
  }

  /** `rstrip` keeps every character up to a non-whitespace one. */
  lemma {:induction false} RStripKeeps(s: string, k: nat)
    requires k < |s| && !IsSpace(s[k])
    ensures k < |RStrip(s)|
    decreases |s|
  {
    if IsSpace(s[|s| - 1]) {
      RStripKeeps(s[..|s| - 1], k);
    }
  }

  /** After leading whitespace, `lstrip` starts at the first other character. */
  lemma {:induction false} LStripStart(s: string, k: nat)
    requires k < |s| && !IsSpace(s[k]) && AllSpace(s[..k])
    ensures |LStrip(s)| > 0 && LStrip(s)[0] == s[k]
    decreases k
  {
    if IsSpace(s[0]) {
      assert s[1..][k - 1] == s[k];
      assert s[1..][..k - 1] == s[1..k];
      LStripStart(s[1..], k - 1);
    }
  }

  /** The two quote characters. */
  predicate IsQuote(c: char) {
    c == '"' || c == '\''
  }

  /** Neither a quote nor a `#`: a character the scan copies as it is outside a string. */
  predicate PlainChar(c: char) {
    !IsQuote(c) && c != '#'
  }

  /** Text made of plain characters only. */
  predicate Plain(s: string) {
    forall k :: 0 <= k < |s| ==> PlainChar(s[k])
  }

  /** The characters of `line` from `i` up to `j` are plain. */
  predicate PlainBetween(line: string, i: nat, j: nat)
    requires i <= j <= |line|
  {
    forall k :: i <= k < j ==> PlainChar(line[k])
  }

  /** Three `q` characters in a row from position `j` of the line. */
  predicate TripleOf(line: string, q: char, j: nat) {
    j + 2 < |line| && line[j] == q && line[j + 1] == q && line[j + 2] == q
  }

  /** `line[i:i+3] in ['"""', "'''"]`: three equal quotes, all on the line. */
  predicate TripleAt(line: string, i: nat) {
    i < |line| && IsQuote(line[i]) && TripleOf(line, line[i], i)
  }

  /** Three quote characters in a row. */
  function Triple(q: char): string {
    [q, q, q]
  }

  /** `pat` occurs in `s` at position `j`. */
  predicate Occurs(s: string, pat: string, j: nat) {
    j + |pat| <= |s| && s[j..j + |pat|] == pat
  }

  /** `s.find(pat, from)`: the first occurrence at or after `from`, nothing where Python gives -1. */
  function Find(s: string, pat: string, from: nat): (k: Option<nat>)
    ensures k.Some? ==> from <= k.value && Occurs(s, pat, k.value)
    ensures k.Some? ==> forall j :: from <= j < k.value ==> !Occurs(s, pat, j)
    ensures k.None? ==> forall j :: from <= j ==> !Occurs(s, pat, j)
    decreases |s| - from
  {
    if from + |pat| > |s| then None
    else if s[from..from + |pat|] == pat then Some(from)
    else Find(s, pat, from + 1)
  }

  /** The closing triple quote: the first three `q` in a row at or after `from`. */
  function FindTriple(line: string, q: char, from: nat): (k: Option<nat>)
    ensures k.Some? ==> from <= k.value && TripleOf(line, q, k.value)
    decreases |line| - from
  {
    if from + 3 > |line| then None
    else if TripleOf(line, q, from) then Some(from)
    else FindTriple(line, q, from + 1)
  }

  /** Searching for three quotes character by character is `find` with the three-quote pattern. */
  lemma {:induction false} FindTripleIsFind(line: string, q: char, from: nat)
    ensures FindTriple(line, q, from) == Find(line, Triple(q), from)
    decreases |line| - from
  {
    if from + 3 <= |line| {
      var w := line[from..from + 3];
      assert w == Triple(q) <==> TripleOf(line, q, from) by {
        assert w[0] == line[from] && w[1] == line[from + 1] && w[2] == line[from + 2];
      }
      FindTripleIsFind(line, q, from + 1);
    }
  }

  /**
   One pass of the scanning loop at position `i`: append the character and
   move on, possibly entering or leaving a string; jump past a closed
   triple-quoted string; or stop at an unclosed one or at a comment.
   */
  datatype Step = Emit(c: char, quote: Option<char>) | Jump(next: nat) | Stop

  function StepAt(line: string, i: nat, quote: Option<char>): (s: Step)
    requires i < |line|
    ensures s.Emit? ==> s.c == line[i]
    ensures s.Jump? ==> i + 6 <= s.next <= |line|
  {
    var c := line[i];
    if quote.None? && IsQuote(c) then
      if TripleAt(line, i) then
        match FindTriple(line, c, i + 3)
        case Some(e) => Jump(e + 3)
        case None => Stop
      else Emit(c, Some(c))
    else if quote.Some? && c == quote.value then Emit(c, None)
    else if quote.None? && c == '#' then Stop
    else Emit(c, quote)
  }

  /**
   What the scanning loop appends from position `i` on, `quote` being the
   quote character of the string the scan is in, if any.
   */
  function Scan(line: string, i: nat, quote: Option<char>): (out: string)
    requires i <= |line|
    decreases |line| - i
  {
    if i == |line| then []
    else
      match StepAt(line, i, quote)
      case Emit(c, q) => [c] + Scan(line, i + 1, q)
      case Jump(next) => Scan(line, next, None)
      case Stop => []
  }

  /** The cleaned form of one line. */
  function CleanLine(line: string): string {
    var stripped := Strip(line);
    if |stripped| == 0 then line
    else if stripped[0] == '#' then []
    else RStrip(Scan(line, 0, None))
  }

  /** A blank line is kept as it is; any other line comes out empty or without trailing whitespace. */
  lemma CleanLineShape(line: string)
    ensures AllSpace(line) ==> CleanLine(line) == line
    ensures !AllSpace(line) ==> |CleanLine(line)| == 0 || !IsSpace(CleanLine(line)[|CleanLine(line)| - 1])
  {
    StripEmptyIff(line);
  }

  /** The scan only deletes characters: what it keeps is in the original order. */
  lemma {:induction false} ScanSubsequence(line: string, i: nat, quote: Option<char>)
    requires i <= |line|
    ensures Subsequence(Scan(line, i, quote), line[i..])
    decreases |line| - i
  {
    if i < |line| {
      assert line[i..][1..] == line[i + 1..];
      match StepAt(line, i, quote)
      case Emit(c, q) =>
        ScanSubsequence(line, i + 1, q);
      case Jump(next) =>
        ScanSubsequence(line, next, None);
        DropSubsequence(line, i, next);
        SubsequenceTransitive(Scan(line, next, None), line[next..], line[i..]);
      case Stop =>
    }
  }

  /** A suffix of a suffix is a subsequence of it. */
  lemma {:induction false} DropSubsequence(line: string, i: nat, j: nat)
    requires i <= j <= |line|
    ensures Subsequence(line[j..], line[i..])
    decreases j - i
  {
    if i == j {
      SubsequenceOfItself(line[i..]);
    } else {
      DropSubsequence(line, i + 1, j);
      assert line[i..][1..] == line[i + 1..];
    }
  }

  /** A prefix is a subsequence. */
  lemma {:induction false} PrefixSubsequence(a: string, b: string)
    requires a <= b
    ensures Subsequence(a, b)
    decreases |b|
  {
    if |a| > 0 {
      PrefixSubsequence(a[1..], b[1..]);
    }
  }

  /** Cleaning a line only deletes characters from it. */
  lemma CleanLineSubsequence(line: string)
    ensures Subsequence(CleanLine(line), line)
  {
    var stripped := Strip(line);
    if |stripped| == 0 {
      SubsequenceOfItself(line);
    } else if stripped[0] != '#' {
      var s := Scan(line, 0, None);
      ScanSubsequence(line, 0, None);
      assert line[0..] == line;
      PrefixSubsequence(RStrip(s), s);
      SubsequenceTransitive(RStrip(s), s, line);
    }
  }

  /** Outside a string, plain text is copied as it is. */
  lemma {:induction false} ScanPlain(line: string, i: nat, j: nat)
    requires i <= j <= |line| && PlainBetween(line, i, j)
    ensures Scan(line, i, None) == line[i..j] + Scan(line, j, None)
    decreases j - i
  {
    if i < j {
      ScanCopies(line, i, None);
      ScanPlain(line, i + 1, j);
      assert line[i..j] == [line[i]] + line[i + 1..j];
      AppendOne([line[i]], line[i + 1..j], Scan(line, j, None));
    }
  }

  /** Inside a string, everything up to the closing quote is copied, `#` and the other quote included. */
  lemma {:induction false} ScanInString(line: string, i: nat, j: nat, q: char)
    requires i <= j <= |line| && forall k :: i <= k < j ==> line[k] != q
    ensures Scan(line, i, Some(q)) == line[i..j] + Scan(line, j, Some(q))
    decreases j - i
  {
    if i < j {
      ScanCopies(line, i, Some(q));
      ScanInString(line, i + 1, j, q);
      assert line[i..j] == [line[i]] + line[i + 1..j];
      AppendOne([line[i]], line[i + 1..j], Scan(line, j, Some(q)));
    }
  }

  /** A line without quotes or `#` loses only its trailing whitespace, unless it is blank. */
  lemma CleanPlainLine(line: string)
    requires Plain(line) && !AllSpace(line)
    ensures CleanLine(line) == RStrip(line)
  {
    assert PlainBetween(line, 0, |line|);
    ScanPlain(line, 0, |line|);
    assert Scan(line, 0, None) == line;
    var k :| 0 <= k < |line| && !IsSpace(line[k]);
    var f := FirstNonSpace(line, k);
    assert Strip(line)[0] != '#';
  }

  /** The first non-whitespace character of a line that has one is where the stripped line starts. */
  lemma FirstNonSpace(line: string, k: nat) returns (f: nat)
    requires k < |line| && !IsSpace(line[k])
    ensures f <= k && !IsSpace(line[f]) && AllSpace(line[..f])
    ensures |Strip(line)| > 0 && Strip(line)[0] == line[f]
    decreases k
  {
    if AllSpace(line[..k]) {
      StripStart(line, k);
      f := k;
    } else {
      var m :| 0 <= m < k && !IsSpace(line[..k][m]);
      f := FirstNonSpace(line, m);
    }
  }

  /** A `#` before any quote cuts the line there; this covers comment-only lines too. */
  lemma CommentCutsLine(line: string, k: nat)
    requires k < |line| && line[k] == '#' && PlainBetween(line, 0, k)
    ensures CleanLine(line) == RStrip(line[..k])
  {
    ScanPlain(line, 0, k);
    assert StepAt(line, k, None) == Stop;
    assert line[0..k] + [] == line[..k];
    if AllSpace(line[..k]) {
      StripStart(line, k);
    } else {
      var m :| 0 <= m < k && !IsSpace(line[..k][m]);
      var f := FirstNonSpace(line, m);
    }
  }

  /** A single- or double-quoted string after plain text is copied whole, its `#` included. */
  lemma QuotedStringKept(line: string, k: nat, j: nat)
    requires k < j < |line| && PlainBetween(line, 0, k) && IsQuote(line[k]) && !TripleAt(line, k)
    requires line[j] == line[k] && forall m :: k < m < j ==> line[m] != line[k]
    ensures Scan(line, 0, None) == line[..j + 1] + Scan(line, j + 1, None)
  {
    var q := line[k];
    var rest := Scan(line, j + 1, None);
    ScanPlain(line, 0, k);
    ScanOpensString(line, k);
    ScanInString(line, k + 1, j, q);
    ScanClosesString(line, j, q);
    QuotedPieces(line, k, j, rest);
  }

  lemma QuotedPieces(line: string, k: nat, j: nat, rest: string)
    requires k < j < |line| && line[j] == line[k]
    ensures line[0..k] + ([line[k]] + (line[k + 1..j] + ([line[k]] + rest))) == line[..j + 1] + rest
  {
    assert line[..j + 1] == line[0..k] + [line[k]] + line[k + 1..j] + [line[j]];
  }

  /** A quote that does not start a triple opens a string. */
  lemma ScanOpensString(line: string, k: nat)
    requires k < |line| && IsQuote(line[k]) && !TripleAt(line, k)
    ensures Scan(line, k, None) == [line[k]] + Scan(line, k + 1, Some(line[k]))
  {
    assert StepAt(line, k, None) == Emit(line[k], Some(line[k]));
  }

  /** The quote that opened a string closes it. */
  lemma ScanClosesString(line: string, j: nat, q: char)
    requires j < |line| && line[j] == q
    ensures Scan(line, j, Some(q)) == [q] + Scan(line, j + 1, None)
  {
    assert StepAt(line, j, Some(q)) == Emit(q, None);
  }

  /** A triple-quoted string closed on its line is removed, quotes and all. */
  lemma ClosedDocstringRemoved(line: string, k: nat, e: nat)
    requires TripleAt(line, k) && PlainBetween(line, 0, k)
    requires FindTriple(line, line[k], k + 3) == Some(e)
    ensures e + 3 <= |line|
    ensures Scan(line, 0, None) == line[..k] + Scan(line, e + 3, None)
  {
    ScanPlain(line, 0, k);
    assert StepAt(line, k, None) == Jump(e + 3);
    assert line[0..k] == line[..k];
  }

  /** A triple-quoted string left open takes the rest of the line with it. */
  lemma OpenDocstringCutsLine(line: string, k: nat)
    requires TripleAt(line, k) && PlainBetween(line, 0, k)
    requires FindTriple(line, line[k], k + 3).None?
    ensures Scan(line, 0, None) == line[..k]
  {
    ScanPlain(line, 0, k);
    assert StepAt(line, k, None) == Stop;
    assert line[0..k] + [] == line[..k];
  }

  /** A character that neither opens nor closes a string nor starts a comment is copied. */
  lemma ScanCopies(line: string, i: nat, quote: Option<char>)
    requires i < |line|
    requires !(quote.None? && IsQuote(line[i])) && !(quote.Some? && line[i] == quote.value) && !(quote.None? && line[i] == '#')
    ensures Scan(line, i, quote) == [line[i]] + Scan(line, i + 1, quote)
  {
    assert StepAt(line, i, quote) == Emit(line[i], quote);
  }

  /** A closed triple-quoted string is jumped over. */
  lemma ScanJumps(line: string, i: nat, e: nat)
    requires TripleAt(line, i) && FindTriple(line, line[i], i + 3) == Some(e)
    ensures e + 3 <= |line| && Scan(line, i, None) == Scan(line, e + 3, None)
  {
    assert StepAt(line, i, None) == Jump(e + 3);
  }

  /** An unclosed triple-quoted string, or a `#` outside a string, ends the scan. */
  lemma ScanStops(line: string, i: nat)
    requires i < |line|
    requires (TripleAt(line, i) && FindTriple(line, line[i], i + 3).None?) || line[i] == '#'
    ensures Scan(line, i, None) == []
  {
    assert StepAt(line, i, None) == Stop;
  }

  lemma AppendOne<T>(a: seq<T>, b: seq<T>, c: seq<T>)
    ensures a + (b + c) == (a + b) + c
  {
  }

  /**
   The `while` loop of `remove_comments_from_file` for a line that is
   neither blank nor comment-only; it computes what `Scan` describes.
   */
  method ScanLine(line: string) returns (cleaned: string)
    ensures cleaned == Scan(line, 0, None)
  {
    var quote: Option<char> := None;
    cleaned := "";
    var i := 0;
    var stop := false;
    while i < |line| && !stop
      invariant i <= |line|
      invariant !stop ==> cleaned + Scan(line, i, quote) == Scan(line, 0, None)
      invariant stop ==> cleaned == Scan(line, 0, None)
      decreases |line| - i, if stop then 0 else 1
    {
      var out, next, q, halt := ScanOne(line, i, quote);
      if halt {
        stop := true;
      } else {
        AppendOne(cleaned, out, Scan(line, next, q));
        cleaned := cleaned + out;
        i, quote := next, q;
      }
    }
  }

  /** One pass of the character loop: what it appends, where it resumes and in which state, or that it breaks. */
  method ScanOne(line: string, i: nat, quote: Option<char>) returns (out: string, next: nat, q: Option<char>, halt: bool)
    requires i < |line|
    ensures halt ==> Scan(line, i, quote) == []
    ensures !halt ==> i < next <= |line| && Scan(line, i, quote) == out + Scan(line, next, q)
  {
    var c := line[i];
    out, next, q, halt := [], i + 1, quote, false;
    if quote.None? && IsQuote(c) {
      if TripleAt(line, i) {
        assert line[i..i + 3] == Triple(c);
        var endQuote := Find(line, line[i..i + 3], i + 3);
        FindTripleIsFind(line, c, i + 3);
        if endQuote.Some? {
          ScanJumps(line, i, endQuote.value);
          next, q := endQuote.value + 3, None;
        } else {
          ScanStops(line, i);
          halt := true;
        }
      } else {
        ScanOpensString(line, i);
        out, q := [c], Some(c);
      }
    } else if quote.Some? && c == quote.value {
      ScanClosesString(line, i, c);
      out, q := [c], None;
    } else if quote.None? && c == '#' {
      ScanStops(line, i);
      halt := true;
    } else {
      ScanCopies(line, i, quote);
      out := [c];
    }
  }

  /** No line break in `s`. */
  predicate NoNewline(s: string) {
    forall k :: 0 <= k < |s| ==> s[k] != '\n'
  }

  /** The first newline of `s` at or after `from`, if there is one. */
  function FirstNewline(s: string, from: nat): (k: Option<nat>)
    requires from <= |s|
    ensures k.None? ==> forall j :: from <= j < |s| ==> s[j] != '\n'
    ensures k.Some? ==> from <= k.value < |s| && s[k.value] == '\n'
    ensures k.Some? ==> forall j :: from <= j < k.value ==> s[j] != '\n'
    decreases |s| - from
  {
    if from == |s| then None
    else if s[from] == '\n' then Some(from)
    else FirstNewline(s, from + 1)
  }

  /** `content.split('\n')`. */
  function Split(s: string): (lines: seq<string>)
    ensures |lines| >= 1
    ensures forall k :: 0 <= k < |lines| ==> NoNewline(lines[k])
    decreases |s|
  {
    match FirstNewline(s, 0)
    case None => [s]
    case Some(k) =>
      assert NoNewline(s[..k]) by {
        assert forall j :: 0 <= j < k ==> s[..k][j] == s[j];
      }
      [s[..k]] + Split(s[k + 1..])
  }

  /** `'\n'.join(lines)`. */
  function Join(lines: seq<string>): string
    requires |lines| >= 1
    decreases |lines|
  {
    if |lines| == 1 then lines[0] else lines[0] + "\n" + Join(lines[1..])
  }

  /** Joining the pieces of a split gives the content back. */
  lemma {:induction false} JoinSplit(s: string)
    ensures Join(Split(s)) == s
    decreases |s|
  {
    if FirstNewline(s, 0).Some? {
      var k := FirstNewline(s, 0).value;
      var head, rest := s[..k], s[k + 1..];
      var lines := Split(s);
      assert lines == [head] + Split(rest);
      assert lines[1..] == Split(rest);
      JoinSplit(rest);
      assert Join(lines) == head + "\n" + rest;
      assert s == head + "\n" + rest;
    }
  }

  /** Splitting lines without newlines joined by newlines gives the lines back. */
  lemma {:induction false} SplitJoin(lines: seq<string>)
    requires |lines| >= 1 && forall k :: 0 <= k < |lines| ==> NoNewline(lines[k])
    ensures Split(Join(lines)) == lines
    decreases |lines|
  {
    if |lines| > 1 {
      var head, tail := lines[0], Join(lines[1..]);
      SplitJoin(lines[1..]);
      SplitAtFirstNewline(head, tail);
    }
  }

  /** A line without newlines, a newline and more text split into that line and the split of the rest. */
  lemma SplitAtFirstNewline(head: string, tail: string)
    requires NoNewline(head)
    ensures Split(head + "\n" + tail) == [head] + Split(tail)
  {
    var s := head + "\n" + tail;
    assert s[|head|] == '\n';
    assert forall j :: 0 <= j < |head| ==> s[j] == head[j];
    assert FirstNewline(s, 0) == Some(|head|);
    assert s[..|head|] == head && s[|head| + 1..] == tail;
  }

  /** The cleaned line of every line. */
  function CleanLines(lines: seq<string>): seq<string> {
    MapSeq(lines, CleanLine)
  }

  /** What `remove_comments_from_file` writes back for a file's content. */
  function RemoveComments(content: string): string {
    Join(CleanLines(Split(content)))
  }

  /** A cleaned line has no newline, being a subsequence of a line without one. */
  lemma CleanLineNoNewline(line: string)
    requires NoNewline(line)
    ensures NoNewline(CleanLine(line))
  {
    CleanLineSubsequence(line);
    SubsequenceAvoids(CleanLine(line), line, '\n');
  }

  /**
   The file keeps its line structure: the written content has as many
   lines as the original, and line `k` is the cleaned line `k`.
   */
  lemma LinesKept(content: string)
    ensures |Split(RemoveComments(content))| == |Split(content)|
    ensures forall k :: 0 <= k < |Split(content)| ==> Split(RemoveComments(content))[k] == CleanLine(Split(content)[k])
  {
    var lines := Split(content);
    var cleaned := CleanLines(lines);
    forall k | 0 <= k < |cleaned|
      ensures NoNewline(cleaned[k])
    {
      CleanLineNoNewline(lines[k]);
    }
    SplitJoin(cleaned);
  }

  /** Content without comments, strings or trailing whitespace is written back unchanged. */
  lemma CleanContentUnchanged(content: string)
    requires Plain(content)
    requires forall k :: 0 <= k < |Split(content)| ==> AllSpace(Split(content)[k]) || RStrip(Split(content)[k]) == Split(content)[k]
    ensures RemoveComments(content) == content
  {
    PlainLines(content);
    CleanLinesUnchanged(Split(content));
    JoinSplit(content);
  }

  /** Plain lines that are blank or have no trailing whitespace are their own cleaned lines. */
  lemma CleanLinesUnchanged(lines: seq<string>)
    requires forall k :: 0 <= k < |lines| ==> Plain(lines[k]) && (AllSpace(lines[k]) || RStrip(lines[k]) == lines[k])
    ensures CleanLines(lines) == lines
  {
    var cleaned := CleanLines(lines);
    forall k | 0 <= k < |lines|
      ensures cleaned[k] == lines[k]
    {
      CleanLineFixed(lines[k]);
    }
  }

  lemma CleanLineFixed(line: string)
    requires Plain(line) && (AllSpace(line) || RStrip(line) == line)
    ensures CleanLine(line) == line
  {
    if !AllSpace(line) {
      CleanPlainLine(line);
    }
  }

  /** Plain content splits into plain lines. */
  lemma {:induction false} PlainLines(s: string)
    requires Plain(s)
    ensures forall k :: 0 <= k < |Split(s)| ==> Plain(Split(s)[k])
    decreases |s|
  {
    if FirstNewline(s, 0).Some? {
      var k := FirstNewline(s, 0).value;
      assert forall m :: 0 <= m < k ==> s[..k][m] == s[m];
      PlainLines(s[k + 1..]);
    }
  }

  /**
   The `for` loop of `remove_comments_from_file` over the lines of the
   content, followed by the join of the cleaned lines.
   */
  method RemoveCommentsFrom(content: string) returns (written: string)
    ensures written == RemoveComments(content)
  {
    var lines := Split(content);
    var cleaned := CleanEach(lines);
    written := Join(cleaned);
  }

  /** The loop of `remove_comments_from_file` over the lines of a file. */
  method CleanEach(lines: seq<string>) returns (cleaned: seq<string>)
    ensures cleaned == CleanLines(lines)
  {
    cleaned := [];
    for i := 0 to |lines|
      invariant cleaned == CleanLines(lines[..i])
    {
      var next := CleanOne(lines[i]);
      MapSnoc(lines, CleanLine, i);
      cleaned := cleaned + [next];
    }
    assert lines[..|lines|] == lines;
  }

  /** The loop body of `remove_comments_from_file` for one line. */
  method CleanOne(line: string) returns (next: string)
    ensures next == CleanLine(line)
  {
    var stripped := Strip(line);
    if |stripped| == 0 {
      next := line;
    } else if stripped[0] == '#' {
      next := "";
    } else {
      var cleanedLine := ScanLine(line);
      next := RStrip(cleanedLine);
    }
  }

  /** An inline comment goes, and so does the whitespace before it. */
  lemma InlineCommentExample()
    ensures CleanLine("x = 1  # one") == "x = 1"
  {
    var line, code, kept := "x = 1  # one", "x = 1  ", "x = 1";
    InlineCommentSplits(line, code);
    CommentCutsLine(line, 7);
    InlineCommentTrims(code, kept);
  }

  /** `"x = 1  # one"` is plain code up to the `#` at index 7. */
  lemma InlineCommentSplits(line: string, code: string)
    requires line == "x = 1  # one" && code == "x = 1  "
    ensures 7 < |line| && line[..7] == code && line[7] == '#' && PlainBetween(line, 0, 7)
  {
    assert line[..7] == code;
    assert Plain(code);
  }

  /** The code before the comment loses its two trailing spaces. */
  lemma InlineCommentTrims(code: string, kept: string)
    requires code == "x = 1  " && kept == "x = 1"
    ensures RStrip(code) == kept
  {
    assert kept <= code && AllSpace(code[5..]);
    RStripUnique(code, kept);
  }

  /** A `#` inside a string stays, and so does a comment-free line around it. */
  lemma HashInStringExample()
    ensures Scan("s = '#'", 0, None) == "s = '#'"
  {
    var line := "s = '#'";
    QuotedStringKept(line, 4, 6);
    assert line[..7] == line;
  }

  /** A prefix ending in a non-space character, followed only by whitespace, is the right-strip. */
  lemma RStripUnique(s: string, r: string)
    requires r <= s && |r| > 0 && !IsSpace(r[|r| - 1]) && AllSpace(s[|r|..])
    ensures RStrip(s) == r
  {
  }
}
