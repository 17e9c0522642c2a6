/**
 * `download_file` (bot.py:38-49) and the download half of `download_m3u8`
 * (bot.py:51-54, bot.py:61-69).  The network is the function `get`, which
 * gives the server's answer for each URL; the methods follow the source's
 * loops, and the functions beside them say what trace and result they produce.
 */
module Fetcher {
  import opened Wrappers
  import opened Effects
  import opened Naming
  import Playlist

  // ---------------------------------------------------------------------------
  // download_file
  // ---------------------------------------------------------------------------

  function Sum(chunks: seq<nat>): nat {
    if chunks == [] then 0 else Sum(chunks[..|chunks| - 1]) + chunks[|chunks| - 1]
  }

  /** The progress reports `download_file` makes while writing `chunks`: one per chunk, when a callback is given. */
  function ChunkReports(sink: Option<Sink>, chunks: seq<nat>, total: int): seq<Event> {
    if chunks == [] || sink.None? then []
    else ChunkReports(sink, chunks[..|chunks| - 1], total) + [Progress(sink.value, Sum(chunks), total)]
  }

  /** The effects of `download_file(session, url, dest, progress_cb)`. */
  function FileTrace(get: string -> Response, url: string, sink: Option<Sink>): seq<Event> {
    var resp := get(url);
    [Get(url)] + (if StatusOk(resp) then ChunkReports(sink, resp.chunks, resp.contentLength.GetOr(0)) else [])
  }

  /** What `download_file` returns or raises. */
  function FileResult(get: string -> Response, url: string, dest: string): Result<string, Error> {
    var resp := get(url);
    if Completes(resp) then Success(dest) else Failure(TransferError(url, resp))
  }

  /** How many bytes `download_file` leaves in `dest`. */
  function FileWritten(get: string -> Response, url: string): nat {
    var resp := get(url);
    if StatusOk(resp) then Sum(resp.chunks) else 0
  }

  /** bot.py:38-49. */
  method DownloadFile(get: string -> Response, url: string, dest: string, sink: Option<Sink>)
    returns (r: Result<string, Error>, written: nat, events: seq<Event>)
    ensures r == FileResult(get, url, dest)
    ensures written == FileWritten(get, url)
    ensures events == FileTrace(get, url, sink)
  {
    var resp := get(url);
    events := [Get(url)];
    if !StatusOk(resp) {
      return Failure(HttpStatus(url, resp.status)), 0, events;
    }
    var total := resp.contentLength.GetOr(0);
    var downloaded: nat := 0;
    for i := 0 to |resp.chunks|
      invariant downloaded == Sum(resp.chunks[..i])
      invariant events == [Get(url)] + ChunkReports(sink, resp.chunks[..i], total)
    {
      assert resp.chunks[..i + 1][..i] == resp.chunks[..i];
      downloaded := downloaded + resp.chunks[i];
      if sink.Some? {
        events := events + [Progress(sink.value, downloaded, total)];
      }
    }
    assert resp.chunks[..|resp.chunks|] == resp.chunks;
    written := downloaded;
    if resp.interrupted {
      r := Failure(Interrupted(url));
    } else {
      r := Success(dest);
    }
  }

  lemma {:induction false} SumPrefixMonotone(chunks: seq<nat>, a: nat, b: nat)
    requires a <= b <= |chunks|
    ensures Sum(chunks[..a]) <= Sum(chunks[..b])
    decreases b - a
  {
    if a < b {
      SumPrefixMonotone(chunks, a, b - 1);
      assert chunks[..b][..b - 1] == chunks[..b - 1];
    }
  }

  /**
   * The `k`-th report carries the number of bytes of the first `k + 1` chunks,
   * so the reported count never decreases and the last one is the whole body.
   */
  lemma {:induction false} ChunkReportsAreRunningSums(sink: Option<Sink>, chunks: seq<nat>, total: int)
    requires sink.Some?
    ensures |ChunkReports(sink, chunks, total)| == |chunks|
    ensures forall k :: 0 <= k < |chunks| ==>
      ChunkReports(sink, chunks, total)[k] == Progress(sink.value, Sum(chunks[..k + 1]), total)
  {
    if chunks != [] {
      var n := |chunks|;
      ChunkReportsAreRunningSums(sink, chunks[..n - 1], total);
      forall k | 0 < k < n ensures chunks[..n - 1][..k] == chunks[..k] {}
      assert chunks[..n] == chunks;
    }
  }

  lemma ChunkReportsNeverDecrease(sink: Option<Sink>, chunks: seq<nat>, total: int, a: nat, b: nat)
    requires sink.Some? && a <= b < |chunks|
    ensures var reports := ChunkReports(sink, chunks, total);
      |reports| == |chunks| && reports[a].Progress? && reports[b].Progress?
      && reports[a].done <= reports[b].done <= Sum(chunks)
  {
    ChunkReportsAreRunningSums(sink, chunks, total);
    SumPrefixMonotone(chunks, a + 1, b + 1);
    SumPrefixMonotone(chunks, b + 1, |chunks|);
    assert chunks[..|chunks|] == chunks;
  }

  // ---------------------------------------------------------------------------
  // The segment loop of download_m3u8
  // ---------------------------------------------------------------------------

  /** The first segment, from index `i` on, whose download does not complete. */
  function FirstFailure(get: string -> Response, segments: seq<string>, i: nat): (r: Option<nat>)
    requires i <= |segments|
    ensures r.Some? ==> i <= r.value < |segments| && !Completes(get(segments[r.value]))
    ensures forall k :: i <= k < |segments| && (r.None? || k < r.value) ==> Completes(get(segments[k]))
    decreases |segments| - i
  {
    if i == |segments| then None
    else if !Completes(get(segments[i])) then Some(i)
    else FirstFailure(get, segments, i + 1)
  }

  /** The effects of the first `n` rounds of the loop at bot.py:63-68, each of which completed. */
  function SegmentsTrace(get: string -> Response, segments: seq<string>, sink: Option<Sink>, n: nat): seq<Event>
    requires n <= |segments|
  {
    if n == 0 then [] else SegmentsTrace(get, segments, sink, n - 1) + Round(segments, sink, n)
  }

  /** Round `n` (counting from 1) of that loop: the segment's fetch, then its progress report. */
  function Round(segments: seq<string>, sink: Option<Sink>, n: nat): seq<Event>
    requires 0 < n <= |segments|
  {
    [Get(segments[n - 1])] + (if sink.Some? then [Progress(sink.value, n, |segments|)] else [])
  }

  /** The effects of the whole loop: it stops at the first segment that fails. */
  function FetchTrace(get: string -> Response, segments: seq<string>, sink: Option<Sink>): seq<Event> {
    match FirstFailure(get, segments, 0)
    case None => SegmentsTrace(get, segments, sink, |segments|)
    case Some(k) => SegmentsTrace(get, segments, sink, k) + [Get(segments[k])]
  }

  function SegmentPaths(workdir: string, n: nat): (paths: seq<string>)
    ensures |paths| == n
  {
    seq(n, k requires 0 <= k < n => SegmentPath(workdir, k))
  }

  /** `seg_files`, or the error of the first segment that failed. */
  function FetchResult(get: string -> Response, workdir: string, segments: seq<string>): Result<seq<string>, Error> {
    match FirstFailure(get, segments, 0)
    case None => Success(SegmentPaths(workdir, |segments|))
    case Some(k) => Failure(TransferError(segments[k], get(segments[k])))
  }

  /** bot.py:61-69. */
  method FetchSegments(get: string -> Response, workdir: string, segments: seq<string>, sink: Option<Sink>)
    returns (r: Result<seq<string>, Error>, events: seq<Event>)
    ensures r == FetchResult(get, workdir, segments)
    ensures events == FetchTrace(get, segments, sink)
  {
    var segFiles: seq<string> := [];
    var total := |segments|;
    events := [];
    for idx := 0 to |segments|
      invariant segFiles == SegmentPaths(workdir, idx)
      invariant events == SegmentsTrace(get, segments, sink, idx)
      invariant forall k :: 0 <= k < idx ==> Completes(get(segments[k]))
    {
      var segPath := SegmentPath(workdir, idx);
      var res, _, ev := DownloadFile(get, segments[idx], segPath, None);
      events := events + ev;
      if res.Failure? {
        return Failure(res.error), events;
      }
      segFiles := segFiles + [segPath];
      if sink.Some? {
        events := events + [Progress(sink.value, idx + 1, total)];
      }
    }
    r := Success(segFiles);
  }

  lemma {:induction false} SegmentsTraceGets(get: string -> Response, segments: seq<string>, sink: Option<Sink>, n: nat)
    requires n <= |segments|
    ensures Gets(SegmentsTrace(get, segments, sink, n)) == segments[..n]
  {
    if n > 0 {
      var prev := SegmentsTrace(get, segments, sink, n - 1);
      SegmentsTraceGets(get, segments, sink, n - 1);
      GetsThenRound(prev, segments, sink, n);
    }
  }

  /** A round of the loop after a prefix that fetched the segments before it. */
  lemma GetsThenRound(prev: seq<Event>, segments: seq<string>, sink: Option<Sink>, n: nat)
    requires 0 < n <= |segments| && Gets(prev) == segments[..n - 1]
    ensures Gets(prev + Round(segments, sink, n)) == segments[..n]
  {
    RoundGets(segments, sink, n);
    GetsAppend(prev, Round(segments, sink, n));
    assert segments[..n] == segments[..n - 1] + [segments[n - 1]];
  }

  /** One round of the segment loop fetches exactly its segment. */
  lemma RoundGets(segments: seq<string>, sink: Option<Sink>, n: nat)
    requires 0 < n <= |segments|
    ensures Gets(Round(segments, sink, n)) == [segments[n - 1]]
  {
    var reports := if sink.Some? then [Progress(sink.value, n, |segments|)] else [];
    GetsOne(Get(segments[n - 1]));
    GetsOfOthers(reports);
    GetsAppend([Get(segments[n - 1])], reports);
  }

  /** The segments the loop tries: all of them, or those up to and including the first that fails. */
  function Attempted(get: string -> Response, segments: seq<string>): (r: seq<string>)
    ensures |r| <= |segments| && r == segments[..|r|]
  {
    match FirstFailure(get, segments, 0)
    case None => segments
    case Some(k) => segments[..k + 1]
  }

  /**
   * Segments are fetched one after another in playlist order, and a segment
   * that fails is the last one fetched.
   */
  lemma FetchOrder(get: string -> Response, segments: seq<string>, sink: Option<Sink>)
    ensures Gets(FetchTrace(get, segments, sink)) == Attempted(get, segments)
  {
    match FirstFailure(get, segments, 0)
    case None =>
      SegmentsTraceGets(get, segments, sink, |segments|);
      assert segments[..|segments|] == segments;
    case Some(k) =>
      SegmentsTraceGets(get, segments, sink, k);
      GetsThenGet(SegmentsTrace(get, segments, sink, k), segments, k);
  }

  /** A fetch of segment `k` after a prefix that fetched the first `k` segments. */
  lemma GetsThenGet(prefix: seq<Event>, segments: seq<string>, k: nat)
    requires k < |segments| && Gets(prefix) == segments[..k]
    ensures Gets(prefix + [Get(segments[k])]) == segments[..k + 1]
  {
    GetsAppend(prefix, [Get(segments[k])]);
    GetsOne(Get(segments[k]));
    assert segments[..k + 1] == segments[..k] + [segments[k]];
  }

  lemma {:induction false} SegmentsTraceReports(get: string -> Response, segments: seq<string>, sink: Option<Sink>, n: nat)
    requires n <= |segments| && sink.Some?
    ensures var reports := Reports(SegmentsTrace(get, segments, sink, n));
      |reports| == n && forall k :: 0 <= k < n ==> reports[k] == (k + 1, |segments|)
  {
    if n > 0 {
      var prev := SegmentsTrace(get, segments, sink, n - 1);
      SegmentsTraceReports(get, segments, sink, n - 1);
      RoundReports(segments, sink.value, n);
      ReportsAppend(prev, Round(segments, sink, n));
    }
  }

  /** One round of the segment loop reports exactly one progress pair. */
  lemma RoundReports(segments: seq<string>, sink: Sink, n: nat)
    requires 0 < n <= |segments|
    ensures Reports(Round(segments, Some(sink), n)) == [(n, |segments|)]
  {
    var url, p := Get(segments[n - 1]), Progress(sink, n, |segments|);
    assert Round(segments, Some(sink), n) == [url] + [p];
    ReportsOne(url);
    ReportsOne(p);
    ReportsAppend([url], [p]);
  }

  /**
   * The playlist progress callback receives `(1, total)`, `(2, total)`, ... in
   * order, one per completed segment: `done` rises by one each time and never
   * exceeds `total`.
   */
  lemma FetchReports(get: string -> Response, segments: seq<string>, sink: Option<Sink>)
    requires sink.Some?
    ensures var reports := Reports(FetchTrace(get, segments, sink));
      var done := match FirstFailure(get, segments, 0) case None => |segments| case Some(k) => k;
      |reports| == done <= |segments| && forall k :: 0 <= k < done ==> reports[k] == (k + 1, |segments|)
  {
    match FirstFailure(get, segments, 0)
    case None =>
      SegmentsTraceReports(get, segments, sink, |segments|);
    case Some(k) =>
      SegmentsTraceReports(get, segments, sink, k);
      ReportsAppend(SegmentsTrace(get, segments, sink, k), [Get(segments[k])]);
      ReportsOne(Get(segments[k]));
  }

  /** `seg_files` names one distinct file per segment, the `i`-th being `seg_{i:05d}.ts` in the work directory. */
  lemma FetchedFiles(get: string -> Response, workdir: string, segments: seq<string>)
    requires FetchResult(get, workdir, segments).Success?
    ensures var files := FetchResult(get, workdir, segments).value;
      |files| == |segments|
      && (forall i :: 0 <= i < |files| ==> files[i] == PathJoin(workdir, "seg_" + Pad5(i) + ".ts"))
      && (forall i, j :: 0 <= i < j < |files| ==> files[i] != files[j])
  {
    var files := FetchResult(get, workdir, segments).value;
    forall i, j | 0 <= i < j < |files| ensures files[i] != files[j] {
      SegmentPathsDistinct(workdir, i, j);
    }
  }

  // ---------------------------------------------------------------------------
  // download_m3u8
  // ---------------------------------------------------------------------------

  /** The effects of `download_m3u8(session, url, workdir, progress_cb)`. */
  function PlaylistTrace(get: string -> Response, url: string, sink: Option<Sink>): seq<Event> {
    var resp := get(url);
    [Get(url)] + (if Completes(resp) then FetchTrace(get, Playlist.SegmentUrls(url, resp.text), sink) else [])
  }

  /** What `download_m3u8` returns or raises. */
  function PlaylistResult(get: string -> Response, url: string, workdir: string): Result<seq<string>, Error> {
    var resp := get(url);
    if Completes(resp) then FetchResult(get, workdir, Playlist.SegmentUrls(url, resp.text))
    else Failure(TransferError(url, resp))
  }

  /** bot.py:51-69, the step-by-step form of `PlaylistResult` and `PlaylistTrace`. */
  method DownloadPlaylist(get: string -> Response, url: string, workdir: string, sink: Option<Sink>)
    returns (r: Result<seq<string>, Error>, events: seq<Event>)
    ensures r == PlaylistResult(get, url, workdir)
    ensures events == PlaylistTrace(get, url, sink)
  {
    var resp := get(url);
    events := [Get(url)];
    if !StatusOk(resp) {
      return Failure(HttpStatus(url, resp.status)), events;
    }
    if resp.interrupted {
      return Failure(Interrupted(url)), events;
    }
    var segments := Playlist.CollectSegments(url, resp.text);
    var ev;
    r, ev := FetchSegments(get, workdir, segments, sink);
    events := events + ev;
  }

  // ---------------------------------------------------------------------------
  // What kinds of effect the downloads have
  // ---------------------------------------------------------------------------

  lemma {:induction false} ChunkReportsOnlyProgress(sink: Option<Sink>, chunks: seq<nat>, total: int)
    ensures forall e :: e in ChunkReports(sink, chunks, total) ==> e.Progress?
  {
    if chunks != [] && sink.Some? {
      ChunkReportsOnlyProgress(sink, chunks[..|chunks| - 1], total);
    }
  }

  lemma {:induction false} SegmentsTraceKinds(get: string -> Response, segments: seq<string>, sink: Option<Sink>, n: nat)
    requires n <= |segments|
    ensures forall e :: e in SegmentsTrace(get, segments, sink, n) ==> e.Get? || e.Progress?
  {
    if n > 0 {
      SegmentsTraceKinds(get, segments, sink, n - 1);
    }
  }

  /** `download_m3u8` only fetches and reports progress. */
  lemma PlaylistTraceKinds(get: string -> Response, url: string, sink: Option<Sink>)
    ensures forall e :: e in PlaylistTrace(get, url, sink) ==> e.Get? || e.Progress?
  {
    var resp := get(url);
    if Completes(resp) {
      var segments := Playlist.SegmentUrls(url, resp.text);
      match FirstFailure(get, segments, 0)
      case None => SegmentsTraceKinds(get, segments, sink, |segments|);
      case Some(k) => SegmentsTraceKinds(get, segments, sink, k);
    }
  }

  /** `download_file` fetches its one URL and otherwise only reports progress. */
  lemma FileTraceKinds(get: string -> Response, url: string, sink: Option<Sink>)
    ensures FileTrace(get, url, sink)[0] == Get(url)
    ensures forall e :: e in FileTrace(get, url, sink)[1..] ==> e.Progress?
  {
    var resp := get(url);
    if StatusOk(resp) {
      ChunkReportsOnlyProgress(sink, resp.chunks, resp.contentLength.GetOr(0));
      assert FileTrace(get, url, sink)[1..] == ChunkReports(sink, resp.chunks, resp.contentLength.GetOr(0));
    }
  }
}
