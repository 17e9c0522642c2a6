/**
 * The playlist half of `download_m3u8` (bot.py:55-60): the playlist text is
 * split into lines, empty lines and `#` lines are dropped, and every other
 * line becomes a segment URL, either verbatim or joined to the playlist's
 * base URL.
 */
module Playlist {
  import opened Wrappers
  import opened Lines

  /** bot.py:58: `line and not line.startswith('#')`. */
  predicate IsSegmentLine(line: string) {
    line != "" && line[0] != '#'
  }

  /** The segment lines of a playlist, in their original order. */
  function SegmentLines(lines: seq<string>): seq<string> {
    if lines == [] then []
    else (if IsSegmentLine(lines[0]) then [lines[0]] else []) + SegmentLines(lines[1..])
  }

  lemma {:induction false} SegmentLinesAppend(a: seq<string>, b: seq<string>)
    ensures SegmentLines(a + b) == SegmentLines(a) + SegmentLines(b)
  {
    if a == [] {
      assert a + b == b;
    } else {
      assert (a + b)[0] == a[0];
      assert (a + b)[1..] == a[1..] + b;
      SegmentLinesAppend(a[1..], b);
    }
  }

  /** The segment lines are exactly the playlist's non-empty, non-`#` lines. */
  lemma {:induction false} SegmentLinesExactly(lines: seq<string>)
    ensures forall x :: x in SegmentLines(lines) <==> x in lines && IsSegmentLine(x)
  {
    if lines != [] {
      SegmentLinesExactly(lines[1..]);
      assert lines == [lines[0]] + lines[1..];
    }
  }

  /**
   * The segment lines keep the playlist's order: they are the lines at a
   * strictly increasing list of positions, and that list covers every
   * segment line.
   */
  lemma {:induction false} SegmentLinesInOrder(lines: seq<string>) returns (pos: seq<nat>)
    ensures |pos| == |SegmentLines(lines)|
    ensures forall k :: 0 <= k < |pos| ==> pos[k] < |lines| && SegmentLines(lines)[k] == lines[pos[k]]
    ensures forall k, m :: 0 <= k < m < |pos| ==> pos[k] < pos[m]
    ensures forall n :: 0 <= n < |lines| && IsSegmentLine(lines[n]) ==> n in pos
  {
    if lines == [] {
      pos := [];
    } else {
      var rest := SegmentLinesInOrder(lines[1..]);
      var head: seq<nat> := if IsSegmentLine(lines[0]) then [0] else [];
      var kept: seq<string> := if IsSegmentLine(lines[0]) then [lines[0]] else [];
      assert SegmentLines(lines) == kept + SegmentLines(lines[1..]);
      pos := head + Shift(rest);
      PositionsOfCons(lines, kept, SegmentLines(lines[1..]), head, rest);
    }
  }

  /** Every position moved one line down. */
  function Shift(p: seq<nat>): (r: seq<nat>)
    ensures |r| == |p| && forall k :: 0 <= k < |p| ==> r[k] == p[k] + 1
  {
    if p == [] then [] else Shift(p[..|p| - 1]) + [p[|p| - 1] + 1]
  }

  /** The inductive step of `SegmentLinesInOrder`: positions in the tail, moved down, after position 0 if it is kept. */
  lemma PositionsOfCons(lines: seq<string>, kept: seq<string>, tail: seq<string>, head: seq<nat>, rest: seq<nat>)
    requires lines != []
    requires IsSegmentLine(lines[0]) ==> kept == [lines[0]] && head == [0]
    requires !IsSegmentLine(lines[0]) ==> kept == [] && head == []
    requires |rest| == |tail|
    requires forall k :: 0 <= k < |rest| ==> rest[k] < |lines| - 1 && tail[k] == lines[1..][rest[k]]
    requires forall k, m :: 0 <= k < m < |rest| ==> rest[k] < rest[m]
    requires forall n :: 0 <= n < |lines| - 1 && IsSegmentLine(lines[1..][n]) ==> n in rest
    ensures var pos := head + Shift(rest);
      |pos| == |kept + tail|
      && (forall k :: 0 <= k < |pos| ==> pos[k] < |lines| && (kept + tail)[k] == lines[pos[k]])
      && (forall k, m :: 0 <= k < m < |pos| ==> pos[k] < pos[m])
      && (forall n :: 0 <= n < |lines| && IsSegmentLine(lines[n]) ==> n in pos)
  {
    PositionsHold(lines, kept, tail, head, rest);
    PositionsCover(lines, head, rest);
  }

  lemma PositionsHold(lines: seq<string>, kept: seq<string>, tail: seq<string>, head: seq<nat>, rest: seq<nat>)
    requires lines != [] && |kept| == |head| <= 1 && (|head| == 1 ==> head[0] == 0 && kept[0] == lines[0])
    requires |rest| == |tail|
    requires forall k :: 0 <= k < |rest| ==> rest[k] < |lines| - 1 && tail[k] == lines[1..][rest[k]]
    ensures var pos := head + Shift(rest);
      forall k :: 0 <= k < |pos| ==> pos[k] < |lines| && (kept + tail)[k] == lines[pos[k]]
  {
    var pos := head + Shift(rest);
    forall k | 0 <= k < |pos| ensures pos[k] < |lines| && (kept + tail)[k] == lines[pos[k]] {
      if k >= |head| {
        var i := k - |head|;
        assert pos[k] == rest[i] + 1 && (kept + tail)[k] == tail[i];
        assert lines[1..][rest[i]] == lines[rest[i] + 1];
      }
    }
  }

  lemma PositionsCover(lines: seq<string>, head: seq<nat>, rest: seq<nat>)
    requires lines != [] && (IsSegmentLine(lines[0]) ==> head == [0])
    requires forall n :: 0 <= n < |lines| - 1 && IsSegmentLine(lines[1..][n]) ==> n in rest
    ensures forall n :: 0 <= n < |lines| && IsSegmentLine(lines[n]) ==> n in head + Shift(rest)
  {
    var pos := head + Shift(rest);
    forall n | 0 <= n < |lines| && IsSegmentLine(lines[n]) ensures n in pos {
      if n > 0 {
        assert lines[1..][n - 1] == lines[n];
        var i :| 0 <= i < |rest| && rest[i] == n - 1;
        assert pos[|head| + i] == n;
      }
    }
  }

  /** The index of the last `/` among the first `n` characters of `s`. */
  function LastSlash(s: string, n: nat): (r: Option<nat>)
    requires n <= |s|
    ensures r.Some? ==> r.value < n && s[r.value] == '/' && forall m :: r.value < m < n ==> s[m] != '/'
    ensures r.None? ==> forall m :: 0 <= m < n ==> s[m] != '/'
  {
    if n == 0 then None
    else if s[n - 1] == '/' then Some(n - 1)
    else LastSlash(s, n - 1)
  }

  /** `rsplit('/', 1)[0]` (bot.py:55): everything before the last `/`, or the whole string when it has none. */
  function BaseUrl(url: string): (base: string)
    ensures StartsWith(url, base)
    ensures (forall m :: 0 <= m < |url| ==> url[m] != '/') ==> base == url
    ensures (exists m :: 0 <= m < |url| && url[m] == '/') ==>
      |base| < |url| && url[|base|] == '/' && forall m :: |base| < m < |url| ==> url[m] != '/'
  {
    match LastSlash(url, |url|)
    case None => url
    case Some(k) => url[..k]
  }

  /** The base of a URL is the URL with its last path component (and the `/` before it) removed. */
  lemma BaseUrlOfJoin(dir: string, name: string)
    requires '/' !in name
    ensures BaseUrl(dir + "/" + name) == dir
  {
    var u := dir + "/" + name;
    assert u[|dir|] == '/';
    var b := BaseUrl(u);
    assert forall m :: |dir| < m < |u| ==> u[m] == name[m - |dir| - 1];
    assert |b| == |dir|;
    assert b == u[..|b|];
  }

  /** bot.py:59: a line starting with `http` is used as it is, any other is joined to the base. */
  function ResolveSegment(base: string, line: string): string {
    if StartsWith(line, "http") then line else base + "/" + line
  }

  /** The segment URLs `download_m3u8` collects from a playlist fetched from `url` (bot.py:55-60). */
  function SegmentUrls(url: string, text: string): seq<string> {
    var base := BaseUrl(url);
    var lines := SegmentLines(SplitLines(text));
    seq(|lines|, k requires 0 <= k < |lines| => ResolveSegment(base, lines[k]))
  }

  /** The loop of bot.py:56-60. */
  method CollectSegments(url: string, text: string) returns (segments: seq<string>)
    ensures segments == SegmentUrls(url, text)
  {
    var base := BaseUrl(url);
    var lines := SplitLines(text);
    segments := [];
    for i := 0 to |lines|
      invariant |segments| == |SegmentLines(lines[..i])|
      invariant forall k :: 0 <= k < |segments| ==> segments[k] == ResolveSegment(base, SegmentLines(lines[..i])[k])
    {
      var line := lines[i];
      assert lines[..i + 1] == lines[..i] + [line];
      SegmentLinesAppend(lines[..i], [line]);
      if line != "" && !StartsWith(line, "#") {
        var segUrl := if StartsWith(line, "http") then line else base + "/" + line;
        segments := segments + [segUrl];
      }
    }
    assert lines[..|lines|] == lines;
  }

  /**
   * What the segment URLs are: a line beginning with `http` verbatim, any
   * other line in place of the playlist URL's last path component.
   */
  lemma SegmentUrlsResolve(dir: string, name: string, text: string, k: int)
    requires '/' !in name
    requires 0 <= k < |SegmentLines(SplitLines(text))|
    ensures var line := SegmentLines(SplitLines(text))[k];
      SegmentUrls(dir + "/" + name, text)[k] == if StartsWith(line, "http") then line else dir + "/" + line
  {
    BaseUrlOfJoin(dir, name);
  }

  const EXAMPLE_LINES := ["#EXTM3U", "seg0.ts", "http://other/seg1.ts", "seg2.ts"]

  lemma ExampleSplit()
    ensures SplitLines(Terminated(EXAMPLE_LINES)) == EXAMPLE_LINES
  {
    forall k | 0 <= k < |EXAMPLE_LINES| ensures NoBreak(EXAMPLE_LINES[k]) {}
    SplitTerminated(EXAMPLE_LINES);
  }

  lemma ExampleSegmentLines()
    ensures SegmentLines(EXAMPLE_LINES) == EXAMPLE_LINES[1..]
  {
  }

  lemma ExampleBase()
    ensures BaseUrl("http://h/p/list.m3u8") == "http://h/p"
  {
    assert "http://h/p/list.m3u8" == "http://h/p" + "/" + "list.m3u8";
    BaseUrlOfJoin("http://h/p", "list.m3u8");
  }

  lemma ExampleResolve()
    ensures ResolveSegment("http://h/p", "seg0.ts") == "http://h/p/seg0.ts"
    ensures ResolveSegment("http://h/p", "http://other/seg1.ts") == "http://other/seg1.ts"
    ensures ResolveSegment("http://h/p", "seg2.ts") == "http://h/p/seg2.ts"
  {
    assert !StartsWith("seg0.ts", "http") && !StartsWith("seg2.ts", "http") by {
      assert "seg0.ts"[0] != 'h' && "seg2.ts"[0] != 'h';
    }
    assert StartsWith("http://other/seg1.ts", "http");
  }

  /**
   * A playlist fetched from `http://h/p/list.m3u8` whose lines are `#EXTM3U`,
   * `seg0.ts`, `http://other/seg1.ts` and `seg2.ts`: the directive is dropped,
   * the absolute line kept, the relative ones placed beside `list.m3u8`.
   */
  lemma ExamplePlaylist()
    ensures SegmentUrls("http://h/p/list.m3u8", Terminated(EXAMPLE_LINES))
      == ["http://h/p/seg0.ts", "http://other/seg1.ts", "http://h/p/seg2.ts"]
  {
    ExampleSplit();
    ExampleSegmentLines();
    ExampleBase();
    ExampleResolve();
    var lines := SegmentLines(SplitLines(Terminated(EXAMPLE_LINES)));
    assert lines == ["seg0.ts", "http://other/seg1.ts", "seg2.ts"];
  }
}
