/**
 * The pieces of Python's `str` that the configuration decoder relies on:
 * `str.split()` with no separator, `str.splitlines()`, `str.split(sep)`,
 * `str.isdigit()` and `int()` on a string of digits. Each is written as a
 * recursive function whose contract says what the result means, and each
 * splitter is paired with the joiner it inverts.
 */
module PyText {
  import opened Wrappers

  // ---------------------------------------------------------------------------
  // str.split() with no argument: runs of whitespace separate the tokens, and
  // leading or trailing whitespace produces no empty token.
  // ---------------------------------------------------------------------------

  /** The characters Python's `str.isspace()` accepts (and `str.split()` splits on). */
  predicate IsSpace(c: char) {
    ('\t' <= c <= '\r') || ('\U{1C}' <= c <= '\U{1F}') || c == ' ' ||
    c == '\U{85}' || c == '\U{A0}' || c == '\U{1680}' ||
    ('\U{2000}' <= c <= '\U{200A}') || c == '\U{2028}' || c == '\U{2029}' ||
    c == '\U{202F}' || c == '\U{205F}' || c == '\U{3000}'
  }

  predicate NoSpace(s: string) {
    forall i :: 0 <= i < |s| ==> !IsSpace(s[i])
  }

  predicate AllSpace(s: string) {
    forall i :: 0 <= i < |s| ==> IsSpace(s[i])
  }

  /** Length of the longest prefix of `s` free of whitespace. */
  function TokenLength(s: string): (n: nat)
    ensures n <= |s|
    ensures NoSpace(s[..n])
    ensures n < |s| ==> IsSpace(s[n])
  {
    if s == [] || IsSpace(s[0]) then 0 else 1 + TokenLength(s[1..])
  }

  /**
   * `s.split()`: the whitespace-free runs of `s`, in order. All-whitespace
   * text (the empty text included) has no token.
   */
  function SplitWhitespace(s: string): (tokens: seq<string>)
    ensures forall i :: 0 <= i < |tokens| ==> tokens[i] != [] && NoSpace(tokens[i]) && |tokens[i]| <= |s|
    ensures tokens == [] <==> AllSpace(s)
    decreases |s|
  {
    if s == [] then []
    else if IsSpace(s[0]) then SplitWhitespace(s[1..])
    else
      var n := TokenLength(s);
      [s[..n]] + SplitWhitespace(s[n..])
  }

  /** `" ".join(tokens)` */
  function JoinSpaced(tokens: seq<string>): string {
    if tokens == [] then ""
    else if |tokens| == 1 then tokens[0]
    else tokens[0] + " " + JoinSpaced(tokens[1..])
  }

  lemma {:induction false} TokenLengthOfPrefix(t: string, rest: string)
    requires NoSpace(t)
    requires rest == [] || IsSpace(rest[0])
    ensures TokenLength(t + rest) == |t|
    decreases |t|
  {
    if t != [] {
      assert (t + rest)[1..] == t[1..] + rest;
      TokenLengthOfPrefix(t[1..], rest);
    }
  }

  /** Text without whitespace is its own single token. */
  lemma OneToken(s: string)
    requires s != [] && NoSpace(s)
    ensures SplitWhitespace(s) == [s]
  {
    TokenThen(s, []);
    assert s + [] == s;
  }

  /** Whitespace before the text produces no token. */
  lemma {:induction false} SkipLeading(w: string, s: string)
    requires AllSpace(w)
    ensures SplitWhitespace(w + s) == SplitWhitespace(s)
    decreases |w|
  {
    if w != [] {
      assert IsSpace(w[0]);
      assert (w + s)[0] == w[0] && (w + s)[1..] == w[1..] + s;
      assert SplitWhitespace(w + s) == SplitWhitespace(w[1..] + s);
      SkipLeading(w[1..], s);
    } else {
      assert w + s == s;
    }
  }

  /** A token that ends the text or is followed by whitespace is the first token. */
  lemma TokenThen(t: string, rest: string)
    requires t != [] && NoSpace(t)
    requires rest == [] || IsSpace(rest[0])
    ensures SplitWhitespace(t + rest) == [t] + SplitWhitespace(rest)
  {
    TokenLengthOfPrefix(t, rest);
    assert (t + rest)[0] == t[0];
    assert (t + rest)[..|t|] == t && (t + rest)[|t|..] == rest;
  }

  /**
   * A token followed by a run of whitespace is the first token, and the run
   * is one separator however long it is.
   */
  lemma TokenThenRun(t: string, w: string, s: string)
    requires t != [] && NoSpace(t)
    requires w != [] && AllSpace(w)
    ensures SplitWhitespace(t + w + s) == [t] + SplitWhitespace(s)
  {
    assert t + w + s == t + (w + s);
    TokenThen(t, w + s);
    SkipLeading(w, s);
  }

  /**
   * The tokens laid out with whitespace runs around and between them:
   * `gaps[0]` leads, and `gaps[i + 1]` follows `tokens[i]`.
   */
  function JoinRuns(tokens: seq<string>, gaps: seq<string>): string
    requires |gaps| == |tokens| + 1
  {
    if tokens == [] then gaps[0] else gaps[0] + tokens[0] + JoinRuns(tokens[1..], gaps[1..])
  }

  /** Whitespace runs around tokens, non-empty between two tokens. */
  predicate SpacingRuns(tokens: seq<string>, gaps: seq<string>) {
    |gaps| == |tokens| + 1 &&
    (forall i :: 0 <= i < |gaps| ==> AllSpace(gaps[i])) &&
    (forall i :: 0 < i < |tokens| ==> gaps[i] != [])
  }

  lemma SpacingRunsTail(tokens: seq<string>, gaps: seq<string>)
    requires tokens != [] && SpacingRuns(tokens, gaps)
    ensures SpacingRuns(tokens[1..], gaps[1..])
  {
    assert forall i :: 0 <= i < |gaps| - 1 ==> gaps[1..][i] == gaps[i + 1];
  }

  /** Laid-out tokens that lead with a non-empty run start with whitespace. */
  lemma RunsStartWithSpace(tokens: seq<string>, gaps: seq<string>)
    requires SpacingRuns(tokens, gaps)
    requires tokens != [] ==> gaps[0] != []
    ensures var s := JoinRuns(tokens, gaps); s == [] || IsSpace(s[0])
  {
    assert AllSpace(gaps[0]);
    if tokens != [] {
      assert JoinRuns(tokens, gaps) == gaps[0] + (tokens[0] + JoinRuns(tokens[1..], gaps[1..]));
    }
  }

  /** The first laid-out token is the first token split off. */
  lemma SplitRunsStep(tokens: seq<string>, gaps: seq<string>)
    requires tokens != [] && tokens[0] != [] && NoSpace(tokens[0])
    requires SpacingRuns(tokens, gaps)
    ensures SplitWhitespace(JoinRuns(tokens, gaps)) == [tokens[0]] + SplitWhitespace(JoinRuns(tokens[1..], gaps[1..]))
  {
    var t := tokens[0];
    var rest := JoinRuns(tokens[1..], gaps[1..]);
    assert AllSpace(gaps[0]);
    assert JoinRuns(tokens, gaps) == gaps[0] + (t + rest);
    SkipLeading(gaps[0], t + rest);
    SpacingRunsTail(tokens, gaps);
    RunsStartWithSpace(tokens[1..], gaps[1..]);
    TokenThen(t, rest);
  }

  /**
   * Splitting non-empty whitespace-free tokens laid out with any whitespace
   * runs gives the tokens back: each run between two tokens is one separator,
   * and the runs at the ends produce nothing.
   */
  lemma {:induction false} SplitJoinRuns(tokens: seq<string>, gaps: seq<string>)
    requires forall i :: 0 <= i < |tokens| ==> tokens[i] != [] && NoSpace(tokens[i])
    requires SpacingRuns(tokens, gaps)
    ensures SplitWhitespace(JoinRuns(tokens, gaps)) == tokens
  {
    if tokens == [] {
      assert AllSpace(gaps[0]);
    } else {
      SplitRunsStep(tokens, gaps);
      SpacingRunsTail(tokens, gaps);
      SplitJoinRuns(tokens[1..], gaps[1..]);
      assert tokens == [tokens[0]] + tokens[1..];
    }
  }

  /** Splitting a space-joined list of whitespace-free, non-empty tokens gives the tokens back. */
  lemma {:induction false} SplitJoinSpaced(tokens: seq<string>)
    requires forall i :: 0 <= i < |tokens| ==> tokens[i] != [] && NoSpace(tokens[i])
    ensures SplitWhitespace(JoinSpaced(tokens)) == tokens
  {
    if tokens != [] {
      var t := tokens[0];
      if |tokens| == 1 {
        OneToken(t);
      } else {
        var rest := JoinSpaced(tokens[1..]);
        assert JoinSpaced(tokens) == t + (" " + rest);
        TokenThen(t, " " + rest);
        assert AllSpace(" ");
        SkipLeading(" ", rest);
        SplitJoinSpaced(tokens[1..]);
        assert tokens == [t] + tokens[1..];
      }
    }
  }

  // ---------------------------------------------------------------------------
  // str.splitlines(): every line boundary Python knows ends a line, "\r\n"
  // counts as one boundary, and a final boundary does not start an empty line.
  // ---------------------------------------------------------------------------

  /** The line boundaries of Python's `str.splitlines()`. */
  predicate IsLineBreak(c: char) {
    ('\n' <= c <= '\r') || ('\U{1C}' <= c <= '\U{1E}') ||
    c == '\U{85}' || c == '\U{2028}' || c == '\U{2029}'
  }

  predicate NoLineBreak(s: string) {
    forall i :: 0 <= i < |s| ==> !IsLineBreak(s[i])
  }

  /** Length of the longest prefix of `s` free of line boundaries. */
  function LineLength(s: string): (n: nat)
    ensures n <= |s|
    ensures NoLineBreak(s[..n])
    ensures n < |s| ==> IsLineBreak(s[n])
  {
    if s == [] || IsLineBreak(s[0]) then 0 else 1 + LineLength(s[1..])
  }

  /**
   * `s.splitlines()`: the lines of `s` without their boundaries. Only the
   * empty text has no line (`SplitLinesOneLine`: text without a boundary is
   * one line).
   */
  function SplitLines(s: string): (lines: seq<string>)
    ensures forall i :: 0 <= i < |lines| ==> NoLineBreak(lines[i])
    ensures lines == [] <==> s == []
    decreases |s|
  {
    if s == [] then []
    else
      var n := LineLength(s);
      if n == |s| then [s]
      else
        var width := if s[n] == '\r' && n + 1 < |s| && s[n + 1] == '\n' then 2 else 1;
        [s[..n]] + SplitLines(s[n + width..])
  }

  /** Each line followed by "\n": the layout of a configuration dump. */
  function JoinLines(lines: seq<string>): string {
    if lines == [] then "" else lines[0] + "\n" + JoinLines(lines[1..])
  }

  lemma {:induction false} LineLengthOfPrefix(t: string, rest: string)
    requires NoLineBreak(t)
    requires rest != [] && IsLineBreak(rest[0])
    ensures LineLength(t + rest) == |t|
    decreases |t|
  {
    if t != [] {
      assert (t + rest)[1..] == t[1..] + rest;
      LineLengthOfPrefix(t[1..], rest);
    }
  }

  /** One boundary-free line followed by "\n" is the first line `splitlines()` reports. */
  lemma SplitLinesStep(t: string, tail: string)
    requires NoLineBreak(t)
    ensures SplitLines(t + "\n" + tail) == [t] + SplitLines(tail)
  {
    var s := t + "\n" + tail;
    LineLengthOfPrefix(t, "\n" + tail);
    assert s == t + ("\n" + tail);
    assert s[..|t|] == t && s[|t|] == '\n' && s[|t| + 1..] == tail;
  }

  /** A last line without a boundary is reported all the same. */
  lemma SplitLinesOneLine(s: string)
    requires s != [] && NoLineBreak(s)
    ensures SplitLines(s) == [s]
  {
    var n := LineLength(s);
    assert n == |s|;
  }

  /** A line ended by "\r\n" is one line: the pair is a single boundary. */
  lemma SplitLinesCrLfStep(t: string, tail: string)
    requires NoLineBreak(t)
    ensures SplitLines(t + "\r\n" + tail) == [t] + SplitLines(tail)
  {
    var s := t + "\r\n" + tail;
    LineLengthOfPrefix(t, "\r\n" + tail);
    assert s == t + ("\r\n" + tail);
    assert s[..|t|] == t && s[|t|] == '\r' && s[|t| + 1] == '\n' && s[|t| + 2..] == tail;
  }

  /**
   * Lines that carry no boundary, each terminated by "\n", come back from
   * `splitlines()` one for one, whatever text follows them.
   */
  lemma {:induction false} SplitLinesAppend(lines: seq<string>, rest: string)
    requires forall i :: 0 <= i < |lines| ==> NoLineBreak(lines[i])
    ensures SplitLines(JoinLines(lines) + rest) == lines + SplitLines(rest)
  {
    if lines == [] {
      assert JoinLines(lines) + rest == rest;
    } else {
      var t := lines[0];
      var tail := JoinLines(lines[1..]) + rest;
      assert NoLineBreak(t);
      calc {
        SplitLines(JoinLines(lines) + rest);
        { assert JoinLines(lines) + rest == t + "\n" + tail; }
        SplitLines(t + "\n" + tail);
        { SplitLinesStep(t, tail); }
        [t] + SplitLines(tail);
        { SplitLinesAppend(lines[1..], rest); }
        [t] + (lines[1..] + SplitLines(rest));
        { assert lines == [t] + lines[1..]; }
        lines + SplitLines(rest);
      }
    }
  }

  /** `splitlines()` inverts `JoinLines` on lines free of boundaries. */
  lemma SplitJoinLines(lines: seq<string>)
    requires forall i :: 0 <= i < |lines| ==> NoLineBreak(lines[i])
    ensures SplitLines(JoinLines(lines)) == lines
  {
    SplitLinesAppend(lines, "");
    assert JoinLines(lines) + "" == JoinLines(lines);
  }

  // ---------------------------------------------------------------------------
  // str.split(sep) for a non-empty separator: cut at each occurrence found by
  // scanning left to right, resuming after the occurrence just cut.
  // ---------------------------------------------------------------------------

  predicate OccursAt(s: string, sep: string, j: nat) {
    j + |sep| <= |s| && s[j..j + |sep|] == sep
  }

  /** `s.find(sep, k)`: the first position from `k` on where `sep` occurs, if any. */
  function FindFrom(s: string, sep: string, k: nat): (r: Option<nat>)
    ensures r.Some? ==> k <= r.value && OccursAt(s, sep, r.value)
    ensures r.Some? ==> forall j :: k <= j < r.value ==> !OccursAt(s, sep, j)
    ensures r.None? ==> forall j :: k <= j ==> !OccursAt(s, sep, j)
    decreases |s| - k
  {
    if |s| < k + |sep| then None
    else if OccursAt(s, sep, k) then Some(k)
    else FindFrom(s, sep, k + 1)
  }

  /** `s.find(sep)` */
  function Find(s: string, sep: string): Option<nat> {
    FindFrom(s, sep, 0)
  }

  /** `s.split(sep)` */
  function SplitOn(s: string, sep: string): (parts: seq<string>)
    requires sep != []
    ensures |parts| >= 1
    decreases |s|
  {
    match Find(s, sep)
    case None => [s]
    case Some(i) => [s[..i]] + SplitOn(s[i + |sep|..], sep)
  }

  /** `sep.join(parts)` */
  function JoinWith(parts: seq<string>, sep: string): string {
    if parts == [] then ""
    else if |parts| == 1 then parts[0]
    else parts[0] + sep + JoinWith(parts[1..], sep)
  }

  /** Joining the pieces of a split with the same separator rebuilds the text. */
  lemma {:induction false} JoinSplitOn(s: string, sep: string)
    requires sep != []
    ensures JoinWith(SplitOn(s, sep), sep) == s
    decreases |s|
  {
    var r := Find(s, sep);
    if r.Some? {
      var i := r.value;
      var rest := s[i + |sep|..];
      var tail := SplitOn(rest, sep);
      JoinSplitOn(rest, sep);
      var parts := [s[..i]] + tail;
      assert SplitOn(s, sep) == parts;
      assert parts[1..] == tail;
      assert JoinWith(parts, sep) == s[..i] + sep + JoinWith(tail, sep);
      assert s == s[..i] + s[i..i + |sep|] + rest;
    }
  }

  /**
   * A text made of `head`, one `sep` and `tail` splits into exactly those two
   * pieces when `sep` starts nowhere before the end of `head` and nowhere in `tail`.
   */
  lemma SplitOnOnce(head: string, sep: string, tail: string)
    requires sep != []
    requires forall j :: 0 <= j < |head| ==> !OccursAt(head + sep + tail, sep, j)
    requires forall j :: 0 <= j ==> !OccursAt(tail, sep, j)
    ensures SplitOn(head + sep + tail, sep) == [head, tail]
  {
    var s := head + sep + tail;
    assert OccursAt(s, sep, |head|) by {
      assert s[|head|..|head| + |sep|] == sep;
    }
    var r := Find(s, sep);
    assert r == Some(|head|);
    assert s[..|head|] == head && s[|head| + |sep|..] == tail;
    assert Find(tail, sep) == None;
  }

  // ---------------------------------------------------------------------------
  // str.isdigit() and int() on decimal text.
  // ---------------------------------------------------------------------------

  predicate IsDigit(c: char) {
    '0' <= c <= '9'
  }

  /** `s.isdigit()`: non-empty and made only of digits. */
  predicate IsDigits(s: string) {
    |s| > 0 && forall i :: 0 <= i < |s| ==> IsDigit(s[i])
  }

  /**
   * `int(s)` for a string of decimal digits (the empty string reads as 0).
   * Text without a leading zero is the decimal text of the number read, so
   * `str(int(s)) == s` for it.
   */
  function DecimalValue(s: string): (n: nat)
    requires forall i :: 0 <= i < |s| ==> IsDigit(s[i])
    ensures |s| > 0 && s[0] != '0' ==> n > 0 && Decimal(n) == s
  {
    if s == [] then 0
    else
      var init := s[..|s| - 1];
      var last := s[|s| - 1];
      assert IsDigit(last);
      var d := last as int - '0' as int;
      var n := 10 * DecimalValue(init) + d;
      assert n / 10 == DecimalValue(init) && n % 10 == d;
      assert |s| > 0 && s[0] != '0' && |s| > 1 ==> init[0] == s[0] && Decimal(n) == Decimal(n / 10) + [last];
      assert s == init + [last];
      n
  }

  /** `str(n)` for a natural number: its shortest decimal text. */
  function Decimal(n: nat): (s: string)
    ensures IsDigits(s)
  {
    var digit := ['0' + (n % 10) as char];
    if n < 10 then digit else Decimal(n / 10) + digit
  }

  /** Reading the decimal text of `n` gives `n` back. */
  lemma {:induction false} DecimalRoundTrip(n: nat)
    ensures DecimalValue(Decimal(n)) == n
  {
    var s := Decimal(n);
    if n >= 10 {
      DecimalRoundTrip(n / 10);
      assert s[..|s| - 1] == Decimal(n / 10);
    }
  }

  /** Leading zeros do not change the value `int()` reads. */
  lemma {:induction false} LeadingZero(s: string)
    requires forall i :: 0 <= i < |s| ==> IsDigit(s[i])
    ensures DecimalValue("0" + s) == DecimalValue(s)
  {
    if s != [] {
      var t := "0" + s;
      assert t[..|t| - 1] == "0" + s[..|s| - 1];
      LeadingZero(s[..|s| - 1]);
    }
  }
}
