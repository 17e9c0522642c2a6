/**
 * Line-oriented text: Python's `str.splitlines()` and its inverse, writing
 * lines out each followed by `\n`.  Shared by the playlist parser and the
 * concatenation manifest.
 */
module Lines {

  /** The characters at which Python's `str.splitlines()` ends a line. */
  predicate IsLineBreak(c: char) {
    var n := c as int;
    (0x0A <= n <= 0x0D) || (0x1C <= n <= 0x1E) || n == 0x85 || n == 0x2028 || n == 0x2029
  }

  predicate NoBreak(s: string) {
    forall k :: 0 <= k < |s| ==> !IsLineBreak(s[k])
  }

  predicate StartsWith(s: string, w: string) {
    |w| <= |s| && s[..|w|] == w
  }

  /** The first index at or after `i` holding a line break, or `|s|`. */
  function FirstBreak(s: string, i: nat): (k: nat)
    requires i <= |s|
    ensures i <= k <= |s| && (k < |s| ==> IsLineBreak(s[k]))
    ensures forall m :: i <= m < k ==> !IsLineBreak(s[m])
    decreases |s| - i
  {
    if i == |s| || IsLineBreak(s[i]) then i else FirstBreak(s, i + 1)
  }

  /**
   * `s.splitlines()`: the lines of `s` without their terminators; `\r\n`
   * ends one line, and a final terminator does not start an empty line.
   */
  function SplitLines(s: string): (lines: seq<string>)
    ensures forall k :: 0 <= k < |lines| ==> NoBreak(lines[k])
    decreases |s|
  {
    if s == [] then []
    else
      var k := FirstBreak(s, 0);
      if k == |s| then [s]
      else
        var width := if s[k] == '\r' && k + 1 < |s| && s[k + 1] == '\n' then 2 else 1;
        [s[..k]] + SplitLines(s[k + width..])
  }

  /** A text without a line break is one line, unless it is empty. */
  lemma SplitOne(l: string)
    requires NoBreak(l) && l != ""
    ensures SplitLines(l) == [l]
  {
    assert FirstBreak(l, 0) == |l|;
  }

  /** `\r\n` ends one line, not two. */
  lemma SplitCrLf(l: string, rest: string)
    requires NoBreak(l)
    ensures SplitLines(l + "\r\n" + rest) == [l] + SplitLines(rest)
  {
    var s := l + "\r\n" + rest;
    assert s[|l|] == '\r' && s[|l| + 1] == '\n';
    assert FirstBreak(s, 0) == |l| by {
      assert forall m :: 0 <= m < |l| ==> s[m] == l[m];
    }
    assert s[..|l|] == l;
    assert s[|l| + 2..] == rest;
  }

  /** Any other line boundary ends one line. */
  lemma SplitAtBreak(l: string, c: char, rest: string)
    requires NoBreak(l) && IsLineBreak(c)
    requires !(c == '\r' && |rest| > 0 && rest[0] == '\n')
    ensures SplitLines(l + [c] + rest) == [l] + SplitLines(rest)
  {
    var s := l + [c] + rest;
    assert s[|l|] == c;
    assert FirstBreak(s, 0) == |l| by {
      assert forall m :: 0 <= m < |l| ==> s[m] == l[m];
    }
    assert s[..|l|] == l;
    assert s[|l| + 1..] == rest;
  }

  /** The terminators `str.splitlines()` removes: `\r\n`, or one boundary character. */
  predicate IsTerminator(t: string) {
    t == "\r\n" || (|t| == 1 && IsLineBreak(t[0]))
  }

  /** `lines[k]` followed by its terminator `ends[k]`, for every k. */
  function Rejoin(lines: seq<string>, ends: seq<string>): string
    requires |lines| == |ends|
  {
    if lines == [] then "" else lines[0] + ends[0] + Rejoin(lines[1..], ends[1..])
  }

  /** A lone `\r` terminator that is not directly followed by `\n` (which would make it `\r\n`). */
  predicate LoneCrsStayLone(lines: seq<string>, ends: seq<string>)
    requires |lines| == |ends|
  {
    forall k :: 0 <= k < |lines| - 1 && ends[k] == "\r" && lines[k + 1] == "" ==> ends[k + 1] != "\n"
  }

  /**
   * Splitting any text written as break-free lines, each with any of the
   * terminators, and an optional unterminated last line, gives back exactly
   * those lines.
   */
  lemma {:induction false} SplitRejoin(lines: seq<string>, ends: seq<string>, last: string)
    requires |lines| == |ends| && NoBreak(last)
    requires forall k :: 0 <= k < |lines| ==> NoBreak(lines[k]) && IsTerminator(ends[k])
    requires LoneCrsStayLone(lines, ends)
    ensures SplitLines(Rejoin(lines, ends) + last) == lines + (if last == "" then [] else [last])
  {
    if lines == [] {
      if last != "" {
        SplitOne(last);
      }
      assert Rejoin(lines, ends) + last == last;
    } else {
      var rest := Rejoin(lines[1..], ends[1..]) + last;
      assert Rejoin(lines, ends) + last == lines[0] + ends[0] + rest;
      LoneCrsTail(lines, ends);
      SplitRejoin(lines[1..], ends[1..], last);
      SplitFirst(lines, ends, last);
      assert lines == [lines[0]] + lines[1..];
    }
  }

  lemma LoneCrsTail(lines: seq<string>, ends: seq<string>)
    requires |lines| == |ends| > 0 && LoneCrsStayLone(lines, ends)
    ensures LoneCrsStayLone(lines[1..], ends[1..])
  {
    forall k | 0 <= k < |lines| - 2 && ends[1..][k] == "\r" && lines[1..][k + 1] == ""
      ensures ends[1..][k + 1] != "\n"
    {
      assert ends[k + 1] == "\r" && lines[k + 2] == "";
    }
  }

  /** The first line and its terminator come off the front. */
  lemma SplitFirst(lines: seq<string>, ends: seq<string>, last: string)
    requires |lines| == |ends| > 0 && NoBreak(last)
    requires forall k :: 0 <= k < |lines| ==> NoBreak(lines[k]) && IsTerminator(ends[k])
    requires LoneCrsStayLone(lines, ends)
    ensures var rest := Rejoin(lines[1..], ends[1..]) + last;
      SplitLines(lines[0] + ends[0] + rest) == [lines[0]] + SplitLines(rest)
  {
    var rest := Rejoin(lines[1..], ends[1..]) + last;
    if ends[0] == "\r\n" {
      SplitCrLf(lines[0], rest);
    } else {
      if ends[0] == "\r" {
        RestStart(lines, ends, last);
      }
      assert lines[0] + ends[0] + rest == lines[0] + [ends[0][0]] + rest;
      SplitAtBreak(lines[0], ends[0][0], rest);
    }
  }

  /** What follows a lone `\r` terminator does not start with `\n`. */
  lemma RestStart(lines: seq<string>, ends: seq<string>, last: string)
    requires |lines| == |ends| > 0 && NoBreak(last) && ends[0] == "\r"
    requires forall k :: 0 <= k < |lines| ==> NoBreak(lines[k]) && IsTerminator(ends[k])
    requires LoneCrsStayLone(lines, ends)
    ensures var rest := Rejoin(lines[1..], ends[1..]) + last; |rest| > 0 ==> rest[0] != '\n'
  {
    var rest := Rejoin(lines[1..], ends[1..]) + last;
    if |lines| == 1 {
      assert rest == last;
      if |rest| > 0 {
        assert !IsLineBreak(last[0]);
      }
    } else {
      assert rest == lines[1] + ends[1] + (Rejoin(lines[2..], ends[2..]) + last) by {
        assert lines[1..][1..] == lines[2..] && ends[1..][1..] == ends[2..];
      }
      if lines[1] != "" {
        assert rest[0] == lines[1][0] && !IsLineBreak(lines[1][0]);
      } else {
        assert rest[0] == ends[1][0] && ends[1] != "\n";
      }
    }
  }

  /** The text whose lines are `lines`, each ended by `\n`. */
  function Terminated(lines: seq<string>): string {
    if lines == [] then "" else lines[0] + "\n" + Terminated(lines[1..])
  }

  /** Splitting undoes writing the lines out with a `\n` after each. */
  lemma {:induction false} SplitTerminated(lines: seq<string>)
    requires forall k :: 0 <= k < |lines| ==> NoBreak(lines[k])
    ensures SplitLines(Terminated(lines)) == lines
  {
    if lines != [] {
      assert Terminated(lines) == lines[0] + ['\n'] + Terminated(lines[1..]);
      SplitTerminated(lines[1..]);
      SplitAtBreak(lines[0], '\n', Terminated(lines[1..]));
    }
  }

  /** `"a\r\nb".splitlines()` is `["a", "b"]`: the pair `\r\n` is one boundary and the last line needs none. */
  lemma ExampleCrLf()
    ensures SplitLines("a\r\nb") == ["a", "b"]
  {
    assert Rejoin(["a"], ["\r\n"]) + "b" == "a\r\nb";
    SplitRejoin(["a"], ["\r\n"], "b");
  }

  lemma {:induction false} TerminatedAppend(lines: seq<string>, l: string)
    ensures Terminated(lines + [l]) == Terminated(lines) + l + "\n"
  {
    if lines == [] {
      assert [] + [l] == [l];
    } else {
      assert (lines + [l])[0] == lines[0];
      assert (lines + [l])[1..] == lines[1..] + [l];
      TerminatedAppend(lines[1..], l);
    }
  }
}
