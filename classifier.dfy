/**
 * The URL classifier of `handle_message` (bot.py:99-104): the two compiled
 * patterns of bot.py:19-20, searched the way Python's `re.search` does it
 * (leftmost start, then greedy repetition with backtracking), and the
 * precedence expression of bot.py:102.
 *
 * Each pattern is given twice: as a declarative predicate saying which spans
 * of the text the pattern matches (`PlaylistMatch`, `VideoMatch`), and as a
 * scanner that computes the span `re.search` reports.  The scanners' contracts
 * tie the two together.
 */
module Classifier {
  import opened Wrappers

  /** The characters `\s` matches in a `str` pattern: those for which `str.isspace()` holds. */
  predicate IsSpace(c: char) {
    var n := c as int;
    (0x09 <= n <= 0x0D) || (0x1C <= n <= 0x20) || n == 0x85 || n == 0xA0 || n == 0x1680
    || (0x2000 <= n <= 0x200A) || n == 0x2028 || n == 0x2029 || n == 0x202F
    || n == 0x205F || n == 0x3000
  }

  /** `s[lo..hi]` is matched by `[^\s]` repeated. */
  predicate NoSpace(s: string, lo: int, hi: int)
    requires 0 <= lo <= hi <= |s|
  {
    forall k :: lo <= k < hi ==> !IsSpace(s[k])
  }

  /** `w` occurs in `s` at index `i`. */
  predicate HasAt(s: string, i: int, w: string) {
    0 <= i && i + |w| <= |s| && s[i..i + |w|] == w
  }

  predicate EndsWith(s: string, w: string) {
    |w| <= |s| && s[|s| - |w|..] == w
  }

  const PLAYLIST_SUFFIX := ".m3u8"

  /** The alternatives of `(?:\.mp4|\.mov|\.webm|\.mkv|\.avi|\.flv|\.ts)`, in the pattern's order. */
  const VIDEO_SUFFIXES := [".mp4", ".mov", ".webm", ".mkv", ".avi", ".flv", ".ts"]

  /** A match: where it starts, where its suffix (`.m3u8` or the video extension) starts, where it ends. */
  datatype Hit = Hit(start: nat, stem: nat, end: nat)

  // ---------------------------------------------------------------------------
  // Which spans the patterns match
  // ---------------------------------------------------------------------------

  /** `[^\s]+\.m3u8` matches `s[p..j]`. */
  predicate PlaylistBody(s: string, p: int, j: int) {
    0 <= p < j - 5 && j <= |s| && NoSpace(s, p, j - 5) && HasAt(s, j - 5, PLAYLIST_SUFFIX)
  }

  /** `https?://[^\s]+\.m3u8` (bot.py:19) matches `s[i..j]`. */
  predicate PlaylistMatch(s: string, i: int, j: int) {
    (HasAt(s, i, "https://") && PlaylistBody(s, i + 8, j))
    || (HasAt(s, i, "http://") && PlaylistBody(s, i + 7, j))
  }

  /**
   * The length of the first alternative of the extension group that matches
   * at `q`, trying `exts` in order (the way an alternation is tried).
   */
  function FirstSuffixAt(s: string, q: int, exts: seq<string>): (r: Option<nat>)
    ensures r.Some? ==> q + r.value <= |s| && exists x :: x in exts && |x| == r.value && HasAt(s, q, x)
    ensures r.None? ==> forall x :: x in exts ==> !HasAt(s, q, x)
    ensures r.Some? ==>
      exists k :: 0 <= k < |exts| && r.value == |exts[k]| && HasAt(s, q, exts[k])
        && forall m :: 0 <= m < k ==> !HasAt(s, q, exts[m])
  {
    if exts == [] then None
    else if HasAt(s, q, exts[0]) then Some(|exts[0]|)
    else FirstSuffixAt(s, q, exts[1..])
  }

  function ExtAt(s: string, q: int): Option<nat> {
    FirstSuffixAt(s, q, VIDEO_SUFFIXES)
  }

  /** `(?:\?[^\s]*)?` matches `s[t..j]`. */
  predicate QueryTail(s: string, t: int, j: int) {
    j == t || (0 <= t < j <= |s| && s[t] == '?' && NoSpace(s, t + 1, j))
  }

  /** `[^\s]+` matches `s[p..q]`, an extension matches at `q`, and the optional query ends at `j`. */
  predicate VideoBody(s: string, p: int, q: int, j: int) {
    0 <= p < q <= |s| && NoSpace(s, p, q) && ExtAt(s, q).Some? && QueryTail(s, q + ExtAt(s, q).value, j)
  }

  /** The video pattern (bot.py:20) matches `s[i..j]`, with its extension starting at `q`. */
  predicate VideoMatch(s: string, i: int, q: int, j: int) {
    (HasAt(s, i, "https://") && VideoBody(s, i + 8, q, j))
    || (HasAt(s, i, "http://") && VideoBody(s, i + 7, q, j))
  }

  // ---------------------------------------------------------------------------
  // Scanners
  // ---------------------------------------------------------------------------

  /** Where the scheme `https?://` that starts at `i` ends (the greedy `s?` is tried first). */
  function SchemeEnd(s: string, i: nat): (r: Option<nat>)
    ensures r == Some(i + 8) <==> HasAt(s, i, "https://")
    ensures r == Some(i + 7) <==> HasAt(s, i, "http://")
    ensures r.None? <==> !HasAt(s, i, "https://") && !HasAt(s, i, "http://")
  {
    if HasAt(s, i, "https://") then
      assert s[i + 4] == 's';
      Some(i + 8)
    else if HasAt(s, i, "http://") then Some(i + 7)
    else None
  }

  /** The end of the run of non-space characters that starts at `p`: how far `[^\s]+` can reach. */
  function RunEnd(s: string, p: nat): (e: nat)
    requires p <= |s|
    ensures p <= e <= |s| && NoSpace(s, p, e)
    ensures e < |s| ==> IsSpace(s[e])
    decreases |s| - p
  {
    if p == |s| || IsSpace(s[p]) then p else RunEnd(s, p + 1)
  }

  lemma {:induction false} NoSpaceUpToRunEnd(s: string, p: nat, x: int)
    requires p <= x <= |s|
    ensures NoSpace(s, p, x) <==> x <= RunEnd(s, p)
  {
  }

  /** The largest `q` with `p < q <= hi` at which `f` holds: how `[^\s]+` gives characters back one at a time. */
  function LastWhere(f: int -> bool, p: nat, hi: int): (r: Option<nat>)
    ensures r.Some? ==> p < r.value <= hi && f(r.value)
    ensures forall q :: p < q <= hi && f(q) ==> r.Some? && q <= r.value
    decreases hi
  {
    if hi <= p then None
    else if f(hi) then Some(hi)
    else LastWhere(f, p, hi - 1)
  }

  /** The largest `q` with `p < q <= hi` at which `.m3u8` occurs: the greedy backtracking of `[^\s]+`. */
  function LastPlaylistStem(s: string, p: nat, hi: int): (r: Option<nat>)
    ensures r.Some? ==> p < r.value <= hi && HasAt(s, r.value, PLAYLIST_SUFFIX)
    ensures forall q :: p < q <= hi && HasAt(s, q, PLAYLIST_SUFFIX) ==> r.Some? && q <= r.value
  {
    var f := (q: int) => HasAt(s, q, PLAYLIST_SUFFIX);
    assert forall q :: f(q) == HasAt(s, q, PLAYLIST_SUFFIX);
    LastWhere(f, p, hi)
  }

  /** The largest `q` with `p < q <= hi` at which an extension occurs. */
  function LastVideoStem(s: string, p: nat, hi: int): (r: Option<nat>)
    ensures r.Some? ==> p < r.value <= hi && ExtAt(s, r.value).Some?
    ensures forall q :: p < q <= hi && ExtAt(s, q).Some? ==> r.Some? && q <= r.value
  {
    var f := (q: int) => ExtAt(s, q).Some?;
    assert forall q :: f(q) == ExtAt(s, q).Some?;
    LastWhere(f, p, hi)
  }

  lemma SuffixCharsNotSpace(s: string, q: int, w: string, k: int)
    requires HasAt(s, q, w) && q <= k < q + |w|
    requires forall c :: c in w ==> !IsSpace(c)
    ensures !IsSpace(s[k])
  {
    assert s[k] == w[k - q];
  }

  /** The playlist pattern attempted at `i` only. */
  function PlaylistAt(s: string, i: nat): (r: Option<Hit>)
    ensures r.Some? ==> r.value.start == i && r.value.stem == r.value.end - 5 && PlaylistMatch(s, i, r.value.end)
    ensures r.Some? ==> forall j :: PlaylistMatch(s, i, j) ==> j <= r.value.end
    ensures r.None? ==> forall j :: !PlaylistMatch(s, i, j)
  {
    match SchemeEnd(s, i)
    case None => None
    case Some(p) =>
      var e := RunEnd(s, p);
      var stem := LastPlaylistStem(s, p, e - 5);
      PlaylistAtFacts(s, i, p, e, stem);
      if stem.Some? then Some(Hit(i, stem.value, stem.value + 5)) else None
  }

  lemma PlaylistAtFacts(s: string, i: nat, p: nat, e: nat, stem: Option<nat>)
    requires SchemeEnd(s, i) == Some(p) && p <= |s| && e == RunEnd(s, p)
    requires stem == LastPlaylistStem(s, p, e - 5)
    ensures stem.Some? ==> PlaylistMatch(s, i, stem.value + 5)
    ensures forall j :: PlaylistMatch(s, i, j) ==> stem.Some? && j <= stem.value + 5
  {
    if stem.Some? {
      var q := stem.value;
      NoSpaceUpToRunEnd(s, p, q);
    }
    forall j | PlaylistMatch(s, i, j)
      ensures stem.Some? && j <= stem.value + 5
    {
      assert PlaylistBody(s, p, j);
      forall k | j - 5 <= k < j ensures !IsSpace(s[k]) {
        SuffixCharsNotSpace(s, j - 5, PLAYLIST_SUFFIX, k);
      }
      assert NoSpace(s, p, j);
      NoSpaceUpToRunEnd(s, p, j);
    }
  }

  /** The video pattern attempted at `i` only. */
  function VideoAt(s: string, i: nat): (r: Option<Hit>)
    ensures r.Some? ==> r.value.start == i && VideoMatch(s, i, r.value.stem, r.value.end)
    ensures r.Some? ==> forall q, j :: VideoMatch(s, i, q, j) ==>
      q < r.value.stem || (q == r.value.stem && j <= r.value.end)
    ensures r.None? ==> forall q, j :: !VideoMatch(s, i, q, j)
  {
    match SchemeEnd(s, i)
    case None => None
    case Some(p) =>
      var e := RunEnd(s, p);
      var stem := LastVideoStem(s, p, e);
      if stem.None? then
        VideoNoStem(s, i, p, e);
        None
      else
        var q := stem.value;
        var j := QueryEnd(s, q + ExtAt(s, q).value);
        VideoStemFacts(s, i, p, e, q, j);
        Some(Hit(i, q, j))
  }

  /** Where `(?:\?[^\s]*)?` stops when tried at `t`: it takes the query when there is one, all of it. */
  function QueryEnd(s: string, t: nat): (j: nat)
    requires t <= |s|
    ensures QueryTail(s, t, j)
    ensures forall j' :: QueryTail(s, t, j') ==> j' <= j
  {
    if t < |s| && s[t] == '?' then
      QueryEndFacts(s, t);
      RunEnd(s, t + 1)
    else t
  }

  lemma QueryEndFacts(s: string, t: nat)
    requires t < |s| && s[t] == '?'
    ensures forall j' :: QueryTail(s, t, j') ==> j' <= RunEnd(s, t + 1)
  {
    forall j' | QueryTail(s, t, j') && j' != t ensures j' <= RunEnd(s, t + 1) {
      NoSpaceUpToRunEnd(s, t + 1, j');
    }
  }

  lemma VideoNoStem(s: string, i: nat, p: nat, e: nat)
    requires SchemeEnd(s, i) == Some(p) && p <= |s| && e == RunEnd(s, p)
    requires LastVideoStem(s, p, e).None?
    ensures forall q, j :: !VideoMatch(s, i, q, j)
  {
    forall q, j | VideoMatch(s, i, q, j) ensures false {
      assert VideoBody(s, p, q, j);
      NoSpaceUpToRunEnd(s, p, q);
    }
  }

  lemma VideoStemFacts(s: string, i: nat, p: nat, e: nat, q: nat, j: nat)
    requires SchemeEnd(s, i) == Some(p) && p <= |s| && e == RunEnd(s, p)
    requires LastVideoStem(s, p, e) == Some(q)
    requires j == QueryEnd(s, q + ExtAt(s, q).value)
    ensures VideoMatch(s, i, q, j)
    ensures forall q', j' :: VideoMatch(s, i, q', j') ==> q' < q || (q' == q && j' <= j)
  {
    NoSpaceUpToRunEnd(s, p, q);
    assert VideoBody(s, p, q, j);
    forall q', j' | VideoMatch(s, i, q', j')
      ensures q' < q || (q' == q && j' <= j)
    {
      VideoStemBeatsOther(s, i, p, e, q, j, q', j');
    }
  }

  /** One competing match against the one `VideoAt` picks. */
  lemma VideoStemBeatsOther(s: string, i: nat, p: nat, e: nat, q: nat, j: nat, q': int, j': int)
    requires SchemeEnd(s, i) == Some(p) && p <= |s| && e == RunEnd(s, p)
    requires LastVideoStem(s, p, e) == Some(q)
    requires j == QueryEnd(s, q + ExtAt(s, q).value)
    requires VideoMatch(s, i, q', j')
    ensures q' < q || (q' == q && j' <= j)
  {
    assert VideoBody(s, p, q', j');
    NoSpaceUpToRunEnd(s, p, q');
  }

  // ---------------------------------------------------------------------------
  // re.search: the leftmost start at which the pattern matches
  // ---------------------------------------------------------------------------

  /** `M3U8_REGEX.search(s)` restricted to starts at or after `i` (bot.py:100). */
  function SearchPlaylistFrom(s: string, i: nat): (r: Option<Hit>)
    requires i <= |s| + 1
    ensures r.Some? ==> i <= r.value.start && PlaylistMatch(s, r.value.start, r.value.end)
    ensures r.Some? ==> forall a, b :: i <= a && PlaylistMatch(s, a, b) ==>
      r.value.start < a || (a == r.value.start && b <= r.value.end)
    ensures r.None? ==> forall a, b :: i <= a ==> !PlaylistMatch(s, a, b)
    decreases |s| + 1 - i
  {
    if i > |s| then None
    else
      var h := PlaylistAt(s, i);
      if h.Some? then h else SearchPlaylistFrom(s, i + 1)
  }

  /** `VIDEO_REGEX.search(s)` restricted to starts at or after `i` (bot.py:101). */
  function SearchVideoFrom(s: string, i: nat): (r: Option<Hit>)
    requires i <= |s| + 1
    ensures r.Some? ==> i <= r.value.start && VideoMatch(s, r.value.start, r.value.stem, r.value.end)
    ensures r.Some? ==> forall a, q, b :: i <= a && VideoMatch(s, a, q, b) ==>
      r.value.start < a || (a == r.value.start && (q < r.value.stem || (q == r.value.stem && b <= r.value.end)))
    ensures r.None? ==> forall a, q, b :: i <= a ==> !VideoMatch(s, a, q, b)
    decreases |s| + 1 - i
  {
    if i > |s| then None
    else
      var h := VideoAt(s, i);
      if h.Some? then h else SearchVideoFrom(s, i + 1)
  }

  function SearchPlaylist(s: string): Option<Hit> {
    SearchPlaylistFrom(s, 0)
  }

  function SearchVideo(s: string): Option<Hit> {
    SearchVideoFrom(s, 0)
  }

  /** `group(0)` of a match. */
  function Group(s: string, h: Hit): string {
    if h.start <= h.end <= |s| then s[h.start..h.end] else ""
  }

  /** bot.py:99-102: `message.text or ""`, then the playlist match if any, else the video match if any. */
  function SelectUrl(text: Option<string>): Option<string> {
    var s := text.GetOr("");
    match SearchPlaylist(s)
    case Some(h) => Some(Group(s, h))
    case None =>
      match SearchVideo(s)
      case Some(h) => Some(Group(s, h))
      case None => None
  }

  // ---------------------------------------------------------------------------
  // Properties of the selection
  // ---------------------------------------------------------------------------

  /** A playlist match anywhere in the text makes the selected URL the leftmost playlist match, wherever a video match lies. */
  lemma PlaylistWins(text: string, i: int, j: int)
    requires PlaylistMatch(text, i, j)
    ensures exists a, b :: PlaylistMatch(text, a, b) && a <= i && SelectUrl(Some(text)) == Some(text[a..b])
  {
    var h := SearchPlaylist(text).value;
    assert PlaylistMatch(text, h.start, h.end);
  }

  /** No URL is selected exactly when neither pattern matches anywhere (bot.py:102-104). */
  lemma NothingSelected(text: Option<string>)
    ensures SelectUrl(text).None? <==>
      (forall a, b :: !PlaylistMatch(text.GetOr(""), a, b)) && (forall a, q, b :: !VideoMatch(text.GetOr(""), a, q, b))
  {
    var s := text.GetOr("");
    if SearchPlaylist(s).Some? {
      var h := SearchPlaylist(s).value;
      assert PlaylistMatch(s, h.start, h.end);
    } else if SearchVideo(s).Some? {
      var h := SearchVideo(s).value;
      assert VideoMatch(s, h.start, h.stem, h.end);
    }
  }

  lemma VideoSuffixFacts(x: string)
    requires x in VIDEO_SUFFIXES
    ensures 3 <= |x| && x[|x| - 1] != '8' && forall c :: c in x ==> !IsSpace(c)
  {
  }

  /** The extension that matched at `q`, and what follows it. */
  lemma ExtensionAt(s: string, q: int) returns (x: string)
    requires ExtAt(s, q).Some?
    ensures |x| == ExtAt(s, q).value && HasAt(s, q, x)
    ensures 3 <= |x| && x[|x| - 1] != '8' && forall c :: c in x ==> !IsSpace(c)
  {
    x :| x in VIDEO_SUFFIXES && |x| == ExtAt(s, q).value && HasAt(s, q, x);
    VideoSuffixFacts(x);
  }

  /** A video match that ends in `.m3u8` must end in its query, after the extension. */
  lemma QueryHoldsPlaylistSuffix(s: string, q: int, x: string, j: int)
    requires 0 <= q && q + |x| <= j <= |s| && HasAt(s, q, x) && 3 <= |x| && x[|x| - 1] != '8'
    requires QueryTail(s, q + |x|, j) && HasAt(s, j - 5, PLAYLIST_SUFFIX)
    ensures j != q + |x| && s[q + |x|] == '?' && NoSpace(s, q + |x| + 1, j)
  {
    var t := q + |x|;
    assert s[j - 1] == PLAYLIST_SUFFIX[4];
    assert s[t - 1] == x[|x| - 1];
  }

  /** The query tail holds the whole `.m3u8`, since `?` is not part of it. */
  lemma SuffixAfterQueryMark(s: string, t: int, j: int)
    requires 0 <= t < j <= |s| && s[t] == '?' && HasAt(s, j - 5, PLAYLIST_SUFFIX)
    ensures t < j - 5
  {
    assert forall k :: j - 5 <= k < j ==> s[k] == PLAYLIST_SUFFIX[k - (j - 5)];
  }

  /** After the scheme: a video body that ends in `.m3u8` is a playlist body. */
  lemma VideoBodyInPlaylistSuffix(s: string, p: int, q: int, j: int)
    requires VideoBody(s, p, q, j) && HasAt(s, j - 5, PLAYLIST_SUFFIX)
    ensures PlaylistBody(s, p, j)
  {
    var x := ExtensionAt(s, q);
    assert QueryTail(s, q + |x|, j);
    ExtensionThenPlaylistSuffix(s, p, q, x, j);
  }

  /** The same, once the extension `x` that matched is known. */
  lemma ExtensionThenPlaylistSuffix(s: string, p: int, q: int, x: string, j: int)
    requires 0 <= p < q && q + |x| <= j <= |s| && NoSpace(s, p, q) && HasAt(s, q, x)
    requires 3 <= |x| && x[|x| - 1] != '8' && forall c :: c in x ==> !IsSpace(c)
    requires QueryTail(s, q + |x|, j) && HasAt(s, j - 5, PLAYLIST_SUFFIX)
    ensures PlaylistBody(s, p, j)
  {
    QueryHoldsPlaylistSuffix(s, q, x, j);
    SuffixAfterQueryMark(s, q + |x|, j);
    NoSpaceAcross(s, p, q, x, j);
  }

  /** A run of non-space, an extension and a query mark, then more non-space: no space anywhere before `j - 5`. */
  lemma NoSpaceAcross(s: string, p: int, q: int, x: string, j: int)
    requires 0 <= p <= q && q + |x| < j - 5 && j <= |s|
    requires NoSpace(s, p, q) && HasAt(s, q, x) && forall c :: c in x ==> !IsSpace(c)
    requires s[q + |x|] == '?' && NoSpace(s, q + |x| + 1, j)
    ensures NoSpace(s, p, j - 5)
  {
    forall k | p <= k < j - 5 ensures !IsSpace(s[k]) {
      if q <= k < q + |x| {
        SuffixCharsNotSpace(s, q, x, k);
      }
    }
  }

  /** A span the video pattern matches and that ends in `.m3u8` is matched by the playlist pattern too. */
  lemma VideoEndingInPlaylistSuffix(s: string, i: int, q: int, j: int)
    requires VideoMatch(s, i, q, j) && HasAt(s, j - 5, PLAYLIST_SUFFIX)
    ensures PlaylistMatch(s, i, j)
  {
    if HasAt(s, i, "https://") && VideoBody(s, i + 8, q, j) {
      VideoBodyInPlaylistSuffix(s, i + 8, q, j);
    } else {
      VideoBodyInPlaylistSuffix(s, i + 7, q, j);
    }
  }

  /**
   * The handler takes the playlist branch (`url.endswith('.m3u8')`, bot.py:111)
   * exactly when the playlist pattern matched somewhere in the text.
   */
  lemma PlaylistBranchIffPlaylistMatch(text: Option<string>)
    requires SelectUrl(text).Some?
    ensures EndsWith(SelectUrl(text).value, PLAYLIST_SUFFIX) <==>
      exists a, b :: PlaylistMatch(text.GetOr(""), a, b)
  {
    var s := text.GetOr("");
    if SearchPlaylist(s).Some? {
      PlaylistUrlEnds(s, SearchPlaylist(s).value);
    } else {
      VideoUrlDoesNotEnd(s, SearchVideo(s).value);
    }
  }

  lemma PlaylistUrlEnds(s: string, h: Hit)
    requires PlaylistMatch(s, h.start, h.end)
    ensures EndsWith(Group(s, h), PLAYLIST_SUFFIX)
  {
    var u := Group(s, h);
    assert u == s[h.start..h.end];
    assert u[|u| - 5..] == s[h.end - 5..h.end];
  }

  lemma VideoUrlDoesNotEnd(s: string, h: Hit)
    requires VideoMatch(s, h.start, h.stem, h.end)
    requires forall a, b :: !PlaylistMatch(s, a, b)
    ensures !EndsWith(Group(s, h), PLAYLIST_SUFFIX)
  {
    var u := Group(s, h);
    if EndsWith(u, PLAYLIST_SUFFIX) {
      assert u == s[h.start..h.end];
      assert s[h.end - 5..h.end] == u[|u| - 5..];
      VideoEndingInPlaylistSuffix(s, h.start, h.stem, h.end);
    }
  }
}
