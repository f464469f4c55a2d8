/**
 * The Python `str` operations the system relies on, restricted to ASCII:
 * `strip`, `lower`, `isdigit`, `in` (substring), `startswith`, `str(n)`,
 * `int(s)`, `split(sep)`, `split()` and `splitlines()`.
 */
module Text {
  import opened Wrappers

  /** Characters `str.isspace()` accepts in the ASCII range. */
  predicate IsSpace(c: char) {
    c == ' ' || ('\t' <= c <= '\r') || ('\U{1C}' <= c <= '\U{1F}')
  }

  /** Characters at which `str.splitlines()` ends a line ("\r\n" counts once). */
  predicate IsLineBreak(c: char) {
    c == '\n' || c == '\r' || c == '\U{0B}' || c == '\U{0C}'
    || ('\U{1C}' <= c <= '\U{1E}') || c == '\U{85}' || c == '\U{2028}' || c == '\U{2029}'
  }

  predicate IsDigitChar(c: char) { '0' <= c <= '9' }

  predicate IsUpper(c: char) { 'A' <= c <= 'Z' }

  /** `str.isdigit()`: non-empty and every character a decimal digit. */
  predicate IsDigits(s: string) {
    |s| > 0 && forall i :: 0 <= i < |s| ==> IsDigitChar(s[i])
  }

  /** `piece` occurs in `s` starting at index `k`. */
  predicate SliceAt(s: string, k: int, piece: string) {
    0 <= k && k + |piece| <= |s| && s[k..k + |piece|] == piece
  }

  /** `sub in s`: `sub` occurs contiguously in `s` (the empty string always does). */
  predicate Contains(s: string, sub: string) {
    exists i :: 0 <= i <= |s| - |sub| && SliceAt(s, i, sub)
  }

  /** A non-empty run of non-whitespace characters (an element of `s.split()`). */
  predicate IsWord(w: string) {
    |w| > 0 && forall k :: 0 <= k < |w| ==> !IsSpace(w[k])
  }

  /** A string without line terminators (an element of `s.splitlines()`). */
  predicate IsLine(l: string) {
    forall k :: 0 <= k < |l| ==> !IsLineBreak(l[k])
  }

  /** `s.startswith(p)`. */
  predicate StartsWith(s: string, p: string) {
    |p| <= |s| && s[..|p|] == p
  }

  // ---------------------------------------------------------------- strip

  /** `s.lstrip()`: drops the leading whitespace and nothing else. */
  function LStrip(s: string): (r: string)
    ensures |r| <= |s| && r == s[|s| - |r|..]
    ensures forall i :: 0 <= i < |s| - |r| ==> IsSpace(s[i])
    ensures r == [] || !IsSpace(r[0])
    decreases |s|
  {
    if s != [] && IsSpace(s[0]) then LStrip(s[1..]) else s
  }

  /** `s.rstrip()`: drops the trailing whitespace and nothing else. */
  function RStrip(s: string): (r: string)
    ensures |r| <= |s| && r == s[..|r|]
    ensures forall i :: |r| <= i < |s| ==> IsSpace(s[i])
    ensures r == [] || !IsSpace(r[|r| - 1])
    decreases |s|
  {
    if s != [] && IsSpace(s[|s| - 1]) then RStrip(s[..|s| - 1]) else s
  }

  /** `s.strip()`: a contiguous piece of `s` with no whitespace at either end. */
  function Strip(s: string): (r: string)
    ensures |r| <= |s|
    ensures r == [] || (!IsSpace(r[0]) && !IsSpace(r[|r| - 1]))
    ensures exists k :: SliceAt(s, k, r)
  {
    var l := LStrip(s);
    var r := RStrip(l);
    assert SliceAt(s, |s| - |l|, r);
    r
  }

  /** A string with no whitespace at either end is its own `strip()`, also with one trailing newline. */
  lemma StripKeeps(s: string)
    requires s == [] || (!IsSpace(s[0]) && !IsSpace(s[|s| - 1]))
    ensures Strip(s) == s
    ensures Strip(s + "\n") == s
  {
    var t := s + "\n";
    var l := LStrip(t);
    if s == [] {
      assert |l| == 0;
    } else {
      assert l == t;
      assert RStrip(t) == s;
    }
  }

  /** One leading space is dropped by `strip()`. */
  lemma StripOneSpace(u: string)
    requires u != [] && !IsSpace(u[0]) && !IsSpace(u[|u| - 1])
    ensures Strip(" " + u) == u
  {
    LStripNoLeadingSpace(u);
    assert (" " + u)[1..] == u;
    assert LStrip(" " + u) == u;
    StripKeeps(u);
  }

  // ---------------------------------------------------------------- lower

  function LowerChar(c: char): char {
    if IsUpper(c) then (c as int + 32) as char else c
  }

  /** `s.lower()` on ASCII letters; every other character is kept. */
  function Lower(s: string): (r: string)
    ensures |r| == |s|
    ensures forall i :: 0 <= i < |r| ==> !IsUpper(r[i])
    ensures forall i :: 0 <= i < |s| && !IsUpper(s[i]) ==> r[i] == s[i]
    ensures forall i :: 0 <= i < |s| ==> r[i] == LowerChar(s[i])
  {
    seq(|s|, i requires 0 <= i < |s| => LowerChar(s[i]))
  }

  /** A string without upper-case letters is its own `lower()`. */
  lemma LowerOfLower(s: string)
    requires forall i :: 0 <= i < |s| ==> !IsUpper(s[i])
    ensures Lower(s) == s
  {
    var r := Lower(s);
    assert forall i :: 0 <= i < |s| ==> r[i] == s[i];
  }

  // ---------------------------------------------------------------- numbers

  function DigitChar(d: nat): char
    requires d < 10
  {
    ('0' as int + d) as char
  }

  function DigitValue(c: char): nat
    requires IsDigitChar(c)
  {
    c as int - '0' as int
  }

  /** `str(n)`: the decimal spelling of `n`, without leading zeros. */
  function NatToString(n: nat): (r: string)
    ensures IsDigits(r)
    ensures |r| == 1 || r[0] != '0'
    decreases n
  {
    if n < 10 then [DigitChar(n)] else NatToString(n / 10) + [DigitChar(n % 10)]
  }

  /** The value of a string of decimal digits (leading zeros allowed, as `int()` does). */
  function DigitsValue(s: string): nat
    requires forall i :: 0 <= i < |s| ==> IsDigitChar(s[i])
    decreases |s|
  {
    if s == [] then 0 else DigitsValue(s[..|s| - 1]) * 10 + DigitValue(s[|s| - 1])
  }

  /** `int(s)` on a word: an optional sign followed by decimal digits; anything else raises. */
  function ParseInt(s: string): (r: Option<int>)
    ensures r.Some? <==> IsDigits(s) || (|s| >= 2 && (s[0] == '-' || s[0] == '+') && IsDigits(s[1..]))
    ensures IsDigits(s) ==> r == Some(DigitsValue(s))
  {
    if IsDigits(s) then Some(DigitsValue(s))
    else if |s| >= 2 && (s[0] == '-' || s[0] == '+') && IsDigits(s[1..]) then
      var v: int := DigitsValue(s[1..]);
      Some(if s[0] == '-' then -v else v)
    else None
  }

  /** Reading back the decimal spelling of a number gives the number. */
  lemma {:induction false} NatToStringRoundTrip(n: nat)
    ensures DigitsValue(NatToString(n)) == n
    decreases n
  {
    var r := NatToString(n);
    if n >= 10 {
      NatToStringRoundTrip(n / 10);
      assert r[..|r| - 1] == NatToString(n / 10);
    }
  }

  /** `str` is injective on naturals (so a PID text names one PID). */
  lemma NatToStringInjective(a: nat, b: nat)
    requires NatToString(a) == NatToString(b)
    ensures a == b
  {
    NatToStringRoundTrip(a);
    NatToStringRoundTrip(b);
  }

  // ---------------------------------------------------------------- split(sep)

  function FirstIndex(s: string, c: char): (i: nat)
    requires c in s
    ensures i < |s| && s[i] == c && c !in s[..i]
    decreases |s|
  {
    if s[0] == c then 0
    else
      assert c in s[1..] by { var k :| 0 <= k < |s| && s[k] == c; assert s[1..][k - 1] == c; }
      var j := FirstIndex(s[1..], c);
      assert s[..j + 1] == [s[0]] + s[1..][..j];
      j + 1
  }

  /** The pieces joined back with `sep` between them (`sep.join(parts)`). */
  function Join(parts: seq<string>, sep: char): string
    decreases |parts|
  {
    if parts == [] then []
    else if |parts| == 1 then parts[0]
    else parts[0] + [sep] + Join(parts[1..], sep)
  }

  /** `s.split(sep)` for a one-character separator: at least one piece, none containing `sep`. */
  function SplitOn(s: string, sep: char): (r: seq<string>)
    ensures |r| >= 1
    ensures forall i :: 0 <= i < |r| ==> sep !in r[i]
    decreases |s|
  {
    if sep !in s then [s]
    else
      var i := FirstIndex(s, sep);
      [s[..i]] + SplitOn(s[i + 1..], sep)
  }

  /** Splitting then joining gives back the original string. */
  lemma {:induction false} SplitJoin(s: string, sep: char)
    ensures Join(SplitOn(s, sep), sep) == s
    decreases |s|
  {
    if sep in s {
      var i := FirstIndex(s, sep);
      var rest := SplitOn(s[i + 1..], sep);
      SplitJoin(s[i + 1..], sep);
      JoinCons(s[..i], rest, sep);
      assert s == s[..i] + [sep] + s[i + 1..];
    }
  }

  /** Joining a piece in front of at least one more adds the piece and a separator. */
  lemma JoinCons(a: string, rest: seq<string>, sep: char)
    requires |rest| >= 1
    ensures Join([a] + rest, sep) == a + [sep] + Join(rest, sep)
  {
    assert ([a] + rest)[1..] == rest;
  }

  /** Joining separator-free pieces then splitting gives back the pieces. */
  lemma {:induction false} JoinSplit(parts: seq<string>, sep: char)
    requires |parts| >= 1
    requires forall i :: 0 <= i < |parts| ==> sep !in parts[i]
    ensures SplitOn(Join(parts, sep), sep) == parts
    decreases |parts|
  {
    if |parts| > 1 {
      var s := Join(parts, sep);
      var tail := Join(parts[1..], sep);
      assert s == parts[0] + [sep] + tail;
      assert s[|parts[0]|] == sep;
      assert s[..|parts[0]|] == parts[0];
      var i := FirstIndex(s, sep);
      assert i == |parts[0]|;
      assert s[i + 1..] == tail;
      JoinSplit(parts[1..], sep);
    } else {
      assert Join(parts, sep) == parts[0];
    }
  }

  /** The text after the first `sep` (`s.split(sep, 1)[1]`), or None when `sep` is absent. */
  function AfterFirst(s: string, sep: char): (r: Option<string>)
    ensures r.None? <==> sep !in s
    ensures r.Some? ==> exists i :: 0 <= i < |s| && s[i] == sep && sep !in s[..i] && r.value == s[i + 1..]
  {
    if sep in s then
      var i := FirstIndex(s, sep);
      Some(s[i + 1..])
    else None
  }

  // ---------------------------------------------------------------- splitlines()

  function LineEnd(s: string): (i: nat)
    ensures i <= |s|
    ensures forall k :: 0 <= k < i ==> !IsLineBreak(s[k])
    ensures i < |s| ==> IsLineBreak(s[i])
    decreases |s|
  {
    if s == [] || IsLineBreak(s[0]) then 0
    else
      var j := LineEnd(s[1..]);
      assert forall k :: 1 <= k < j + 1 ==> s[k] == s[1..][k - 1];
      j + 1
  }

  /** `s.splitlines()`: the lines of `s` without their terminators; no trailing empty line. */
  function SplitLines(s: string): (r: seq<string>)
    ensures forall i :: 0 <= i < |r| ==> IsLine(r[i])
    ensures s == [] <==> r == []
    decreases |s|
  {
    if s == [] then []
    else
      var i := LineEnd(s);
      if i == |s| then [s]
      else
        var skip := if s[i] == '\r' && i + 1 < |s| && s[i + 1] == '\n' then 2 else 1;
        [s[..i]] + SplitLines(s[i + skip..])
  }

  /** Each line followed by "\n" (the shape of a tool's line-oriented output). */
  function Terminated(lines: seq<string>): string
    decreases |lines|
  {
    if lines == [] then [] else lines[0] + "\n" + Terminated(lines[1..])
  }

  /** A line followed by "\n" and more text splits off as that line. */
  lemma SplitLinesHead(line: string, rest: string)
    requires IsLine(line)
    ensures SplitLines(line + "\n" + rest) == [line] + SplitLines(rest)
  {
    var s := line + "\n" + rest;
    var n := |line|;
    assert forall k :: 0 <= k < n ==> s[k] == line[k];
    assert s[n] == '\n';
    assert LineEnd(s) == n;
    assert s[..n] == line;
    assert s[n + 1..] == rest;
  }

  /** Lines free of line breaks, each terminated by "\n", split back into themselves. */
  lemma {:induction false} SplitLinesTerminated(lines: seq<string>)
    requires forall i :: 0 <= i < |lines| ==> IsLine(lines[i])
    ensures SplitLines(Terminated(lines)) == lines
    decreases |lines|
  {
    if lines != [] {
      SplitLinesHead(lines[0], Terminated(lines[1..]));
      SplitLinesTerminated(lines[1..]);
    }
  }

  /** Lines joined by "\n" (`"\n".join(lines)`) split back into themselves when the last is non-empty. */
  lemma {:induction false} SplitLinesJoin(lines: seq<string>)
    requires forall i :: 0 <= i < |lines| ==> IsLine(lines[i])
    requires lines != [] ==> lines[|lines| - 1] != []
    ensures SplitLines(Join(lines, '\n')) == lines
    decreases |lines|
  {
    if |lines| == 1 {
      var s := Join(lines, '\n');
      assert s == lines[0];
      assert LineEnd(s) == |s|;
    } else if |lines| > 1 {
      var s := Join(lines, '\n');
      var rest := Join(lines[1..], '\n');
      assert s == lines[0] + "\n" + rest;
      var n := |lines[0]|;
      assert s[n] == '\n';
      assert forall k :: 0 <= k < n ==> s[k] == lines[0][k];
      assert LineEnd(s) == n;
      assert s[..n] == lines[0];
      assert s[n + 1..] == rest;
      SplitLinesJoin(lines[1..]);
    }
  }

  // ---------------------------------------------------------------- split()

  function WordEnd(s: string): (i: nat)
    ensures 0 < i <= |s| || (s == [] && i == 0) || (i == 0 && IsSpace(s[0]))
    ensures i <= |s|
    ensures forall k :: 0 <= k < i ==> !IsSpace(s[k])
    ensures i < |s| ==> IsSpace(s[i])
    decreases |s|
  {
    if s == [] || IsSpace(s[0]) then 0
    else
      var j := WordEnd(s[1..]);
      assert forall k :: 1 <= k < j + 1 ==> s[k] == s[1..][k - 1];
      j + 1
  }

  /** `s.split()`: the maximal runs of non-whitespace characters, in order. */
  function Words(s: string): (r: seq<string>)
    ensures forall i :: 0 <= i < |r| ==> IsWord(r[i])
    decreases |s|
  {
    var t := LStrip(s);
    if t == [] then []
    else
      var k := WordEnd(t);
      assert IsWord(t[..k]);
      [t[..k]] + Words(t[k..])
  }

  /** Words joined by single spaces. */
  function JoinWords(ws: seq<string>): string
    decreases |ws|
  {
    if ws == [] then [] else if |ws| == 1 then ws[0] else ws[0] + " " + JoinWords(ws[1..])
  }

  lemma LStripNoLeadingSpace(s: string)
    requires s == [] || !IsSpace(s[0])
    ensures LStrip(s) == s
  {
  }

  /** A single word splits into itself. */
  lemma WordsOfWord(w: string)
    requires IsWord(w)
    ensures Words(w) == [w]
  {
    LStripNoLeadingSpace(w);
    var k := WordEnd(w);
    assert k == |w|;
    assert w[k..] == [];
    assert w[..k] == w;
  }

  /** A word followed by a space splits off as the first word. */
  lemma WordsCons(w: string, rest: string)
    requires IsWord(w)
    requires rest == [] || !IsSpace(rest[0])
    ensures Words(w + " " + rest) == [w] + Words(rest)
  {
    var s := w + " " + rest;
    assert s[0] == w[0];
    LStripNoLeadingSpace(s);
    WordEndAtSpace(w, rest);
    WordsUnfold(s);
    SplitAfterWord(w, rest);
    WordsSkipSpace(rest);
  }

  /** `split()` of a string without leading whitespace: its first word, then the split of the rest. */
  lemma WordsUnfold(s: string)
    requires s != [] && LStrip(s) == s
    ensures Words(s) == [s[..WordEnd(s)]] + Words(s[WordEnd(s)..])
  {
  }

  lemma SplitAfterWord(w: string, rest: string)
    ensures (w + " " + rest)[..|w|] == w && (w + " " + rest)[|w|..] == " " + rest
  {
  }

  lemma WordsSkipSpace(rest: string)
    requires rest == [] || !IsSpace(rest[0])
    ensures Words(" " + rest) == Words(rest)
  {
    LStripNoLeadingSpace(rest);
    assert LStrip(" " + rest) == rest;
  }

  lemma WordEndAtSpace(w: string, rest: string)
    requires IsWord(w)
    ensures WordEnd(w + " " + rest) == |w|
  {
    var s := w + " " + rest;
    assert forall j :: 0 <= j < |w| ==> s[j] == w[j];
    assert s[|w|] == ' ';
  }

  /** One step of the round trip below: the first word splits off, the rest is unchanged. */
  lemma WordsJoinWordsStep(ws: seq<string>)
    requires |ws| > 1 && IsWord(ws[0]) && IsWord(ws[1])
    requires Words(JoinWords(ws[1..])) == ws[1..]
    ensures Words(JoinWords(ws)) == ws
  {
    var tail := ws[1..];
    var rest := JoinWords(tail);
    calc {
      Words(JoinWords(ws));
      { assert JoinWords(ws) == ws[0] + " " + rest; }
      Words(ws[0] + " " + rest);
      { JoinWordsHead(tail); WordsCons(ws[0], rest); }
      [ws[0]] + Words(rest);
      [ws[0]] + tail;
      ws;
    }
  }

  /** Splitting words joined by single spaces gives back the words. */
  lemma {:induction false} WordsJoinWords(ws: seq<string>)
    requires forall i :: 0 <= i < |ws| ==> IsWord(ws[i])
    ensures Words(JoinWords(ws)) == ws
    decreases |ws|
  {
    if |ws| == 1 {
      WordsOfWord(ws[0]);
    } else if |ws| > 1 {
      WordsJoinWords(ws[1..]);
      WordsJoinWordsStep(ws);
    }
  }

  lemma {:induction false} JoinWordsHead(ws: seq<string>)
    requires |ws| > 0 && |ws[0]| > 0
    ensures |JoinWords(ws)| > 0 && JoinWords(ws)[0] == ws[0][0]
  {
  }
}
