/**
 * The decoder for the device's raw configuration text: `unpack_value`, which
 * turns one raw value into a typed value, and `iter_config_file`, which turns a
 * whole dump of `name = value` lines into (name, value) pairs.
 *
 * Python's `float()` is not modelled: whether a text parses as a float is the
 * parameter `isFloat`, and a decoded float keeps the text it was read from.
 */
module ConfigValues {
  import opened Wrappers
  import opened PyText

  /** A decoded configuration value. */
  datatype Value =
    | Bool(b: bool)
    | Int(i: int)
    | Float(literal: string)   // float(literal) succeeded; its numeric value is left opaque
    | List(items: seq<Value>)
    | Str(s: string)

  /** `value.startswith('{') and value.endswith('}')` */
  predicate IsBraced(v: string) {
    |v| > 0 && v[0] == '{' && v[|v| - 1] == '}'
  }

  /**
   * `unpack_value`: TRUE and FALSE first, then a braced list whose
   * whitespace-separated items are decoded by the same rules, then all-digit
   * text, then a float, and otherwise the text itself.
   */
  function Unpack(v: string, isFloat: string -> bool): (r: Value)
    ensures r == Bool(true) <==> v == "TRUE"
    ensures r == Bool(false) <==> v == "FALSE"
    ensures r.List? ==> IsBraced(v)
    ensures r.Int? ==> IsDigits(v) && r.i >= 0
    ensures r.Float? <==> v != "TRUE" && v != "FALSE" && !IsBraced(v) && !IsDigits(v) && isFloat(v)
    ensures r.Float? ==> r.literal == v
    ensures r.Str? ==> r.s == v && !isFloat(v)
    ensures (r.Str? || r.Float?) ==> v != "TRUE" && v != "FALSE" && !IsBraced(v) && !IsDigits(v)
    decreases |v|, 0
  {
    if v == "TRUE" then Bool(true)
    else if v == "FALSE" then Bool(false)
    else if IsBraced(v) then
      var items := SplitWhitespace(v[1..|v| - 1]);
      assert Longest(items) < |v|;
      List(UnpackAll(items, isFloat))
    else if IsDigits(v) then Int(DecimalValue(v))
    else if isFloat(v) then Float(v)
    else Str(v)
  }

  /** The list comprehension: each item decoded by `unpack_value`, in order. */
  function UnpackAll(items: seq<string>, isFloat: string -> bool): (r: seq<Value>)
    ensures |r| == |items|
    ensures forall i :: 0 <= i < |items| ==> r[i] == Unpack(items[i], isFloat)
    decreases Longest(items), 1
  {
    seq(|items|, i requires 0 <= i < |items| => Unpack(items[i], isFloat))
  }

  /** The length of the longest item, 0 for no items. */
  function Longest(items: seq<string>): (n: nat)
    ensures forall i :: 0 <= i < |items| ==> |items[i]| <= n
    ensures items == [] ==> n == 0
    ensures items != [] ==> exists i :: 0 <= i < |items| && n == |items[i]|
  {
    if items == [] then 0
    else
      var rest := Longest(items[1..]);
      if |items[0]| >= rest then |items[0]| else rest
  }

  /**
   * Text that is neither a boolean nor braced nor all digits, and that
   * `float()` accepts, decodes to a float: `float()` is tried before the
   * text fallback.
   */
  lemma UnpackFloat(v: string, isFloat: string -> bool)
    requires v != "TRUE" && v != "FALSE" && !IsBraced(v) && !IsDigits(v) && isFloat(v)
    ensures Unpack(v, isFloat) == Float(v)
  {
  }

  /** "TRUE" and "FALSE" are booleans, whatever `float()` would say. */
  lemma UnpackBooleans(isFloat: string -> bool)
    ensures Unpack("TRUE", isFloat) == Bool(true)
    ensures Unpack("FALSE", isFloat) == Bool(false)
  {
  }

  /**
   * The decimal text of any natural number decodes to that number: the digit
   * rule comes before the float rule, so `float()` is never consulted.
   */
  lemma UnpackDecimal(n: nat, isFloat: string -> bool)
    ensures Unpack(Decimal(n), isFloat) == Int(n)
  {
    var s := Decimal(n);
    assert s != "TRUE" && s != "FALSE" && !IsBraced(s) by {
      assert IsDigit(s[0]);
    }
    DecimalRoundTrip(n);
  }

  /** All-digit text decodes to its decimal reading, leading zeros included. */
  lemma UnpackDigits(s: string, isFloat: string -> bool)
    requires IsDigits(s)
    ensures Unpack(s, isFloat) == Int(DecimalValue(s))
  {
    assert s != "TRUE" && s != "FALSE" && !IsBraced(s) by {
      assert IsDigit(s[0]);
    }
  }

  /**
   * A sign makes a number fail the digit rule: "-5" is a float if `float()`
   * accepts it and the text itself otherwise, never an integer.
   */
  lemma UnpackSigned(n: nat, isFloat: string -> bool)
    ensures var s := "-" + Decimal(n);
      Unpack(s, isFloat) == if isFloat(s) then Float(s) else Str(s)
  {
    var s := "-" + Decimal(n);
    assert s[0] == '-' && !IsDigit(s[0]);
    assert s != "TRUE" && s != "FALSE" && !IsBraced(s) && !IsDigits(s);
  }

  /** Text that no earlier rule matches and `float()` rejects comes back unchanged. */
  lemma UnpackFallback(v: string, isFloat: string -> bool)
    requires v != "TRUE" && v != "FALSE" && !IsBraced(v) && !IsDigits(v)
    requires !isFloat(v)
    ensures Unpack(v, isFloat) == Str(v)
  {
  }

  /** The empty text and "hello" come back as themselves when `float()` rejects them. */
  lemma UnpackTextExamples(isFloat: string -> bool)
    requires !isFloat("") && !isFloat("hello")
    ensures Unpack("", isFloat) == Str("")
    ensures Unpack("hello", isFloat) == Str("hello")
  {
    assert !IsDigits("hello") by {
      assert !IsDigit("hello"[0]);
    }
  }

  /**
   * A braced list of non-empty, whitespace-free items, laid out with any runs
   * of whitespace between the items and optional whitespace inside the
   * braces, decodes to the list of the items' decodings, in order: each run
   * between two items is one separator.
   */
  lemma UnpackList(items: seq<string>, gaps: seq<string>, isFloat: string -> bool)
    requires forall i :: 0 <= i < |items| ==> items[i] != [] && NoSpace(items[i])
    requires SpacingRuns(items, gaps)
    ensures Unpack("{" + JoinRuns(items, gaps) + "}", isFloat) == List(UnpackAll(items, isFloat))
  {
    var v := "{" + JoinRuns(items, gaps) + "}";
    assert IsBraced(v);
    assert v != "TRUE" && v != "FALSE";
    assert v[1..|v| - 1] == JoinRuns(items, gaps);
    SplitJoinRuns(items, gaps);
  }

  /**
   * Padding inside the braces and a longer run between the items make no
   * difference: "{ 1  2 }" decodes to [1, 2].
   */
  lemma UnpackPadded(m: nat, n: nat, isFloat: string -> bool)
    ensures Unpack("{ " + Decimal(m) + "  " + Decimal(n) + " }", isFloat) == List([Int(m), Int(n)])
  {
    UnpackPairWith(m, n, " ", "  ", " ", isFloat);
    PaddedLayout(Decimal(m), Decimal(n));
  }

  /** A tab separates like a space: "{1\t2}" decodes to [1, 2]. */
  lemma UnpackTabbed(m: nat, n: nat, isFloat: string -> bool)
    ensures Unpack("{" + Decimal(m) + "\t" + Decimal(n) + "}", isFloat) == List([Int(m), Int(n)])
  {
    UnpackPairWith(m, n, "", "\t", "", isFloat);
    TabbedLayout(Decimal(m), Decimal(n));
  }

  /** `JoinRuns` of two items, written out. */
  lemma PairRuns(a: string, b: string, lead: string, mid: string, trail: string)
    ensures JoinRuns([a, b], [lead, mid, trail]) == lead + a + (mid + b + trail)
  {
    assert JoinRuns([], [trail]) == trail;
    assert JoinRuns([b], [mid, trail]) == mid + b + trail by {
      assert [b][1..] == [] && [mid, trail][1..] == [trail];
    }
    assert [a, b][1..] == [b] && [lead, mid, trail][1..] == [mid, trail];
  }

  lemma PaddedLayout(a: string, b: string)
    ensures "{ " + a + "  " + b + " }" == "{" + JoinRuns([a, b], [" ", "  ", " "]) + "}"
  {
    PairRuns(a, b, " ", "  ", " ");
    var s := "{" + (" " + a + ("  " + b + " ")) + "}";
    var t := "{ " + a + "  " + b + " }";
    assert |s| == |t|;
    forall i | 0 <= i < |s|
      ensures s[i] == t[i]
    {
    }
  }

  lemma TabbedLayout(a: string, b: string)
    ensures "{" + a + "\t" + b + "}" == "{" + JoinRuns([a, b], ["", "\t", ""]) + "}"
  {
    PairRuns(a, b, "", "\t", "");
    assert "" + a + ("\t" + b + "") == a + "\t" + b;
  }

  /** Two numbers with whitespace runs around them decode to the two numbers. */
  lemma UnpackPairWith(m: nat, n: nat, lead: string, mid: string, trail: string, isFloat: string -> bool)
    requires AllSpace(lead) && AllSpace(mid) && AllSpace(trail) && mid != []
    ensures Unpack("{" + JoinRuns([Decimal(m), Decimal(n)], [lead, mid, trail]) + "}", isFloat) == List([Int(m), Int(n)])
  {
    var items := [Decimal(m), Decimal(n)];
    var gaps := [lead, mid, trail];
    DecimalNoSpace(m);
    DecimalNoSpace(n);
    PairSpacing(items[0], items[1], lead, mid, trail);
    UnpackList(items, gaps, isFloat);
    assert UnpackAll(items, isFloat) == [Int(m), Int(n)] by {
      UnpackDecimal(m, isFloat);
      UnpackDecimal(n, isFloat);
    }
  }

  lemma PairSpacing(a: string, b: string, lead: string, mid: string, trail: string)
    requires a != [] && NoSpace(a) && b != [] && NoSpace(b)
    requires AllSpace(lead) && AllSpace(mid) && AllSpace(trail) && mid != []
    ensures forall i :: 0 <= i < |[a, b]| ==> [a, b][i] != [] && NoSpace([a, b][i])
    ensures SpacingRuns([a, b], [lead, mid, trail])
  {
  }

  lemma DecimalNoSpace(n: nat)
    ensures Decimal(n) != [] && NoSpace(Decimal(n))
  {
    var s := Decimal(n);
    assert forall i :: 0 <= i < |s| ==> IsDigit(s[i]);
  }

  /**
   * A braced, space-separated list of non-empty, whitespace-free items decodes
   * to the list of their decodings, in order; "{}" is the empty list.
   */
  lemma UnpackSpacedList(items: seq<string>, isFloat: string -> bool)
    requires forall i :: 0 <= i < |items| ==> items[i] != [] && NoSpace(items[i])
    ensures Unpack("{" + JoinSpaced(items) + "}", isFloat) == List(UnpackAll(items, isFloat))
  {
    var v := "{" + JoinSpaced(items) + "}";
    assert IsBraced(v);
    assert v != "TRUE" && v != "FALSE";
    assert v[1..|v| - 1] == JoinSpaced(items);
    SplitJoinSpaced(items);
  }

  /** "{}" decodes to the empty list. */
  lemma UnpackEmptyList(isFloat: string -> bool)
    ensures Unpack("{}", isFloat) == List([])
  {
    UnpackSpacedList([], isFloat);
    assert "{" + JoinSpaced([]) + "}" == "{}";
  }

  /** "{1}" decodes to [1]. */
  lemma UnpackSingleton(isFloat: string -> bool)
    ensures Unpack("{1}", isFloat) == List([Int(1)])
  {
    assert Decimal(1) == "1";
    UnpackDecimal(1, isFloat);
    UnpackSpacedList(["1"], isFloat);
    assert "{" + JoinSpaced(["1"]) + "}" == "{1}";
    assert UnpackAll(["1"], isFloat) == [Int(1)];
  }

  /**
   * A braced list of decimal numbers decodes to the list of those numbers:
   * "{1 2 3}" gives [1, 2, 3].
   */
  lemma UnpackNumberList(ns: seq<nat>, isFloat: string -> bool)
    ensures var items := seq(|ns|, i requires 0 <= i < |ns| => Decimal(ns[i]));
      Unpack("{" + JoinSpaced(items) + "}", isFloat) == List(seq(|ns|, i requires 0 <= i < |ns| => Int(ns[i])))
  {
    var items := seq(|ns|, i requires 0 <= i < |ns| => Decimal(ns[i]));
    forall i | 0 <= i < |items|
      ensures items[i] != [] && NoSpace(items[i])
    {
      assert IsDigits(items[i]);
    }
    UnpackSpacedList(items, isFloat);
    forall i | 0 <= i < |ns|
      ensures UnpackAll(items, isFloat)[i] == Int(ns[i])
    {
      UnpackDecimal(ns[i], isFloat);
    }
  }

  /**
   * A nested list decodes as a list when it holds no whitespace:
   * "{{1} 2}" gives [[1], 2].
   */
  lemma UnpackNestedCompact(isFloat: string -> bool)
    ensures Unpack("{{1} 2}", isFloat) == List([List([Int(1)]), Int(2)])
  {
    var items := ["{1}", "2"];
    UnpackSingleton(isFloat);
    assert Decimal(2) == "2";
    UnpackDecimal(2, isFloat);
    UnpackSpacedList(items, isFloat);
    SpacedLayout(["{1}", "2"], "{{1} 2}");
    assert UnpackAll(items, isFloat) == [List([Int(1)]), Int(2)];
  }

  /** The literal layout of a few small space-joined lists. */
  lemma SpacedLayout(items: seq<string>, text: string)
    requires (items == ["{1}", "2"] && text == "{{1} 2}") || (items == ["{1", "2}", "3"] && text == "{{1 2} 3}")
    ensures "{" + JoinSpaced(items) + "}" == text
  {
    if items == ["{1}", "2"] {
      assert JoinSpaced(items) == "{1} 2";
    } else {
      assert items[1..] == ["2}", "3"] && items[1..][1..] == ["3"];
      assert JoinSpaced(["2}", "3"]) == "2} 3";
      assert JoinSpaced(items) == "{1 2} 3";
    }
  }

  /**
   * Items are cut at whitespace before they are decoded, so the braces of an
   * inner list that holds a space are torn apart: in "{{1 2} 3}" the items
   * "{1" and "2}" reach the float and text rules instead of forming a list.
   */
  lemma UnpackNestedSpaced(isFloat: string -> bool)
    requires !isFloat("{1") && !isFloat("2}")
    ensures Unpack("{{1 2} 3}", isFloat) == List([Str("{1"), Str("2}"), Int(3)])
  {
    SpacedLayout(["{1", "2}", "3"], "{{1 2} 3}");
    UnpackSpacedList(["{1", "2}", "3"], isFloat);
    TornItems(isFloat);
  }

  /** The three items of "{{1 2} 3}", decoded one by one. */
  lemma TornItems(isFloat: string -> bool)
    requires !isFloat("{1") && !isFloat("2}")
    ensures UnpackAll(["{1", "2}", "3"], isFloat) == [Str("{1"), Str("2}"), Int(3)]
  {
    assert Decimal(3) == "3";
    UnpackDecimal(3, isFloat);
    assert !IsDigits("{1") by {
      assert !IsDigit("{1"[0]);
    }
    UnpackFallback("{1", isFloat);
    assert !IsBraced("2}") && !IsDigits("2}") by {
      assert !IsDigit("2}"[1]);
    }
    UnpackFallback("2}", isFloat);
  }

  // ---------------------------------------------------------------------------
  // iter_config_file
  // ---------------------------------------------------------------------------

  /** The separator between a name and its raw value on one line of the dump. */
  const Separator: string := " = "

  /**
   * What the generator `iter_config_file` produces before it stops: the pairs
   * it yielded, and the line on which `name, raw_value = row.split(' = ')`
   * raised, if it did.
   */
  datatype Parsed = Parsed(pairs: seq<(string, Value)>, failure: Option<string>)

  /** A line that splits into exactly a name and a raw value. */
  predicate SplitsInTwo(line: string) {
    |SplitOn(line, Separator)| == 2
  }

  /** The generator's body, run over the lines in order. */
  function IterLines(lines: seq<string>, isFloat: string -> bool): (p: Parsed)
    ensures |p.pairs| <= |lines|
    ensures p.failure.None? ==> |p.pairs| == |lines|
    ensures p.failure.Some? ==>
      |p.pairs| < |lines| && p.failure.value == lines[|p.pairs|] && !SplitsInTwo(lines[|p.pairs|])
  {
    if lines == [] then Parsed([], None)
    else
      var parts := SplitOn(lines[0], Separator);
      if |parts| != 2 then Parsed([], Some(lines[0]))
      else
        var rest := IterLines(lines[1..], isFloat);
        Parsed([(parts[0], Unpack(parts[1], isFloat))] + rest.pairs, rest.failure)
  }

  /**
   * Each pair yielded comes from the line at the same position: the text
   * before " = " is the name and the text after it, decoded, is the value.
   */
  lemma {:induction false} IterLinesPairs(lines: seq<string>, isFloat: string -> bool)
    ensures var p := IterLines(lines, isFloat);
      forall i :: 0 <= i < |p.pairs| ==>
        SplitsInTwo(lines[i]) &&
        p.pairs[i] == (SplitOn(lines[i], Separator)[0], Unpack(SplitOn(lines[i], Separator)[1], isFloat))
  {
    if lines != [] && SplitsInTwo(lines[0]) {
      IterLinesPairs(lines[1..], isFloat);
      var p := IterLines(lines, isFloat);
      var q := IterLines(lines[1..], isFloat);
      assert p.pairs[1..] == q.pairs;
      forall i | 1 <= i < |p.pairs|
        ensures p.pairs[i] == q.pairs[i - 1] && lines[i] == lines[1..][i - 1]
      {
      }
    }
  }

  /**
   * `iter_config_file(confstr)`: pair `i` is the name and the decoded value
   * of line `i`; every line yields until the first one that does not split
   * into exactly two parts, which is reported and ends the iteration.
   */
  function IterConfigFile(confstr: string, isFloat: string -> bool): (p: Parsed)
    ensures var lines := SplitLines(confstr);
      |p.pairs| <= |lines| &&
      (p.failure.None? ==> |p.pairs| == |lines|) &&
      (p.failure.Some? ==> |p.pairs| < |lines| && p.failure.value == lines[|p.pairs|] && !SplitsInTwo(p.failure.value)) &&
      forall i :: 0 <= i < |p.pairs| ==>
        SplitsInTwo(lines[i]) &&
        p.pairs[i] == (SplitOn(lines[i], Separator)[0], Unpack(SplitOn(lines[i], Separator)[1], isFloat))
  {
    IterLinesPairs(SplitLines(confstr), isFloat);
    IterLines(SplitLines(confstr), isFloat)
  }

  // ---------------------------------------------------------------------------
  // Dumps, and what iter_config_file makes of them.
  // ---------------------------------------------------------------------------

  /** A (name, raw value) entry that a dump line carries unambiguously. */
  ghost predicate WellFormedEntry(e: (string, string)) {
    NoLineBreak(e.0) && NoLineBreak(e.1) &&
    (forall j :: 0 <= j < |e.0| ==> e.0[j] != '=') &&
    (forall j :: 0 <= j ==> !OccursAt(e.1, Separator, j))
  }

  function DumpLine(e: (string, string)): string {
    e.0 + Separator + e.1
  }

  function DumpLines(entries: seq<(string, string)>): (lines: seq<string>)
    ensures |lines| == |entries|
  {
    seq(|entries|, i requires 0 <= i < |entries| => DumpLine(entries[i]))
  }

  /** The dump the device sends: one `name = value` line per entry. */
  function Dump(entries: seq<(string, string)>): string {
    JoinLines(DumpLines(entries))
  }

  /** The pairs `iter_config_file` should yield for `entries`. */
  function Decoded(entries: seq<(string, string)>, isFloat: string -> bool): (pairs: seq<(string, Value)>)
    ensures |pairs| == |entries|
  {
    seq(|entries|, i requires 0 <= i < |entries| => (entries[i].0, Unpack(entries[i].1, isFloat)))
  }

  /** A well-formed line splits on " = " into exactly its name and its raw value. */
  lemma SplitDumpLine(e: (string, string))
    requires WellFormedEntry(e)
    ensures SplitOn(DumpLine(e), Separator) == [e.0, e.1]
  {
    var s := DumpLine(e);
    forall j | 0 <= j < |e.0|
      ensures !OccursAt(s, Separator, j)
    {
      assert s[j + 1] != '=' by {
        if j + 1 < |e.0| {
          assert s[j + 1] == e.0[j + 1];
        } else {
          assert s[j + 1] == ' ';
        }
      }
      if j + 3 <= |s| {
        assert s[j..j + 3][1] == s[j + 1];
      }
    }
    SplitOnOnce(e.0, Separator, e.1);
  }

  lemma DumpLinesNoBreak(entries: seq<(string, string)>)
    requires forall i :: 0 <= i < |entries| ==> WellFormedEntry(entries[i])
    ensures forall i :: 0 <= i < |entries| ==> NoLineBreak(DumpLines(entries)[i])
  {
    forall i | 0 <= i < |entries|
      ensures NoLineBreak(DumpLines(entries)[i])
    {
      var e := entries[i];
      assert DumpLines(entries)[i] == e.0 + Separator + e.1;
    }
  }

  lemma DumpLinesCons(entries: seq<(string, string)>, more: seq<string>)
    requires entries != []
    ensures DumpLines(entries) + more == [DumpLine(entries[0])] + (DumpLines(entries[1..]) + more)
  {
    assert DumpLines(entries) == [DumpLine(entries[0])] + DumpLines(entries[1..]);
  }

  lemma DecodedCons(entries: seq<(string, string)>, isFloat: string -> bool)
    requires entries != []
    ensures Decoded(entries, isFloat) == [(entries[0].0, Unpack(entries[0].1, isFloat))] + Decoded(entries[1..], isFloat)
  {
  }

  /** A well-formed line yields its own pair and lets the iteration go on. */
  lemma IterLinesStep(e: (string, string), more: seq<string>, isFloat: string -> bool)
    requires WellFormedEntry(e)
    ensures var rest := IterLines(more, isFloat);
      IterLines([DumpLine(e)] + more, isFloat) == Parsed([(e.0, Unpack(e.1, isFloat))] + rest.pairs, rest.failure)
  {
    SplitDumpLine(e);
    assert ([DumpLine(e)] + more)[1..] == more;
  }

  /** Well-formed lines, followed by any lines, yield their own pairs first. */
  lemma {:induction false} IterLinesAppend(entries: seq<(string, string)>, more: seq<string>, isFloat: string -> bool)
    requires forall i :: 0 <= i < |entries| ==> WellFormedEntry(entries[i])
    ensures var rest := IterLines(more, isFloat);
      IterLines(DumpLines(entries) + more, isFloat) == Parsed(Decoded(entries, isFloat) + rest.pairs, rest.failure)
  {
    if entries == [] {
      assert DumpLines(entries) + more == more;
    } else {
      var e, tail := entries[0], entries[1..];
      var head := (e.0, Unpack(e.1, isFloat));
      var rest := IterLines(more, isFloat);
      calc {
        IterLines(DumpLines(entries) + more, isFloat);
        == { DumpLinesCons(entries, more); }
        IterLines([DumpLine(e)] + (DumpLines(tail) + more), isFloat);
        == { IterLinesStep(e, DumpLines(tail) + more, isFloat); }
        Parsed([head] + IterLines(DumpLines(tail) + more, isFloat).pairs,
               IterLines(DumpLines(tail) + more, isFloat).failure);
        == { IterLinesAppend(tail, more, isFloat); }
        Parsed([head] + (Decoded(tail, isFloat) + rest.pairs), rest.failure);
        == { assert [head] + (Decoded(tail, isFloat) + rest.pairs) == ([head] + Decoded(tail, isFloat)) + rest.pairs;
             DecodedCons(entries, isFloat); }
        Parsed(Decoded(entries, isFloat) + rest.pairs, rest.failure);
      }
    }
  }

  /** Every line of a well-formed dump yields its pair, in line order, and nothing fails. */
  lemma IterDump(entries: seq<(string, string)>, isFloat: string -> bool)
    requires forall i :: 0 <= i < |entries| ==> WellFormedEntry(entries[i])
    ensures IterConfigFile(Dump(entries), isFloat) == Parsed(Decoded(entries, isFloat), None)
  {
    DumpLinesNoBreak(entries);
    SplitJoinLines(DumpLines(entries));
    IterLinesAppend(entries, [], isFloat);
    assert DumpLines(entries) + [] == DumpLines(entries);
  }

  /**
   * A dump whose last line has no line break yields the same pairs: the
   * final line is reported by `splitlines()` all the same.
   */
  lemma IterDumpUnterminated(entries: seq<(string, string)>, last: (string, string), isFloat: string -> bool)
    requires forall i :: 0 <= i < |entries| ==> WellFormedEntry(entries[i])
    requires WellFormedEntry(last)
    ensures IterConfigFile(Dump(entries) + DumpLine(last), isFloat) == Parsed(Decoded(entries + [last], isFloat), None)
  {
    var all := entries + [last];
    assert forall i :: 0 <= i < |all| ==> WellFormedEntry(all[i]);
    DumpLinesNoBreak(all);
    assert DumpLines(all)[|entries|] == DumpLine(last);
    assert DumpLines(entries) + [DumpLine(last)] == DumpLines(all);
    assert forall i :: 0 <= i < |entries| ==> DumpLines(entries)[i] == DumpLines(all)[i];
    SplitLinesAppend(DumpLines(entries), DumpLine(last));
    SplitLinesOneLine(DumpLine(last));
    IterLinesAppend(all, [], isFloat);
    assert DumpLines(all) + [] == DumpLines(all);
  }

  /**
   * A line that does not split into exactly two parts stops the whole
   * iteration: the pairs of the lines before it are all that was yielded, and
   * nothing after it is read.
   */
  lemma IterAborts(entries: seq<(string, string)>, bad: string, rest: string, isFloat: string -> bool)
    requires forall i :: 0 <= i < |entries| ==> WellFormedEntry(entries[i])
    requires NoLineBreak(bad) && !SplitsInTwo(bad)
    ensures IterConfigFile(Dump(entries) + bad + "\n" + rest, isFloat) == Parsed(Decoded(entries, isFloat), Some(bad))
  {
    var lines := DumpLines(entries) + [bad];
    var more := [bad] + SplitLines(rest);
    DumpLinesNoBreak(entries);
    assert forall i :: 0 <= i < |lines| ==> NoLineBreak(lines[i]);
    calc {
      SplitLines(Dump(entries) + bad + "\n" + rest);
      { JoinLinesAppendOne(DumpLines(entries), bad);
        assert Dump(entries) + bad + "\n" + rest == JoinLines(lines) + rest; }
      SplitLines(JoinLines(lines) + rest);
      { SplitLinesAppend(lines, rest); }
      lines + SplitLines(rest);
      DumpLines(entries) + more;
    }
    assert IterLines(more, isFloat) == Parsed([], Some(bad));
    IterLinesAppend(entries, more, isFloat);
    assert Decoded(entries, isFloat) + [] == Decoded(entries, isFloat);
  }

  lemma {:induction false} JoinLinesAppendOne(lines: seq<string>, last: string)
    ensures JoinLines(lines + [last]) == JoinLines(lines) + last + "\n"
  {
    if lines != [] {
      assert (lines + [last])[1..] == lines[1..] + [last];
      JoinLinesAppendOne(lines[1..], last);
    } else {
      assert lines + [last] == [last];
    }
  }

  /**
   * A blank line has no " = ", so it aborts the iteration: only the lines
   * before it are yielded.
   */
  lemma BlankLineAborts(entries: seq<(string, string)>, rest: string, isFloat: string -> bool)
    requires forall i :: 0 <= i < |entries| ==> WellFormedEntry(entries[i])
    ensures IterConfigFile(Dump(entries) + "\n" + rest, isFloat) == Parsed(Decoded(entries, isFloat), Some(""))
  {
    assert !SplitsInTwo("") by {
      assert Find("", Separator) == None;
    }
    IterAborts(entries, "", rest, isFloat);
    assert Dump(entries) + "" + "\n" + rest == Dump(entries) + "\n" + rest;
  }
}
