/**
 * `handle_message` (bot.py:97-134): classify the text, fetch the playlist
 * and its segments or the single file, merge, check the size, upload, and
 * turn any exception into one error report.  The temporary directory's path
 * is the parameter `workdir`.
 */
module Handler {
  import opened Wrappers
  import opened Effects
  import Classifier
  import Naming
  import Fetcher
  import Concat
  import Playlist
  import Lines

  /** bot.py:17: Telegram's upload limit for a bot, 2 GiB. */
  const TG_MAX_SIZE: nat := 2 * 1024 * 1024 * 1024

  /** bot.py:127: only a file strictly larger than the limit is refused. */
  predicate TooLargeToSend(size: nat) {
    size > TG_MAX_SIZE
  }

  /** bot.py:111: the playlist branch is taken for a URL ending in `.m3u8`. */
  predicate IsPlaylistUrl(url: string) {
    Classifier.EndsWith(url, Classifier.PLAYLIST_SUFFIX)
  }

  /** bot.py:117, bot.py:121: where the merged or downloaded video is put. */
  function MergedPath(workdir: string): string {
    Naming.PathJoin(workdir, "output.mp4")
  }

  /** The size `os.path.getsize(merged_path)` measures (bot.py:126), or the exception raised before it. */
  function Artifact(url: string, workdir: string, env: Env): Result<nat, Error> {
    if IsPlaylistUrl(url) then
      match Fetcher.PlaylistResult(env.get, url, workdir)
      case Failure(e) => Failure(e)
      case Success(_) =>
        match Concat.MergeResult(MergedPath(workdir), env.ffmpeg)
        case Failure(e) => Failure(e)
        case Success(_) => Success(env.ffmpeg.outputSize)
    else
      match Fetcher.FileResult(env.get, url, MergedPath(workdir))
      case Failure(e) => Failure(e)
      case Success(_) => Success(Fetcher.FileWritten(env.get, url))
  }

  /** The effects of the fetch and merge phase for `url` (bot.py:111-125). */
  function FetchPhase(url: string, workdir: string, env: Env): seq<Event> {
    if IsPlaylistUrl(url) then
      [Edit(FetchingPlaylist)] + Fetcher.PlaylistTrace(env.get, url, Some(SegmentCounter)) + MergePhase(url, workdir, env)
    else
      [Edit(FetchingFile)] + Fetcher.FileTrace(env.get, url, Some(Percentage))
  }

  /** The effects of merging the segments (bot.py:116-118); none when fetching them raised. */
  function MergePhase(url: string, workdir: string, env: Env): seq<Event> {
    match Fetcher.PlaylistResult(env.get, url, workdir)
    case Failure(_) => []
    case Success(files) => [Edit(Merging)] + Concat.MergeTrace(files, MergedPath(workdir), env.ffmpeg)
  }

  /** How the body of the `with` block ends. */
  datatype Ending = Delivered | Refused | Raised(error: Error)

  function Outcome(url: string, workdir: string, env: Env): Ending {
    EndingOf(Artifact(url, workdir, env), env)
  }

  /** How the body ends once the fetch phase produced `artifact`. */
  function EndingOf(artifact: Result<nat, Error>, env: Env): Ending {
    match artifact
    case Failure(e) => Raised(e)
    case Success(size) =>
      if TooLargeToSend(size) then Refused
      else if !env.uploadOk then Raised(UploadFailed)
      else Delivered
  }

  /** The effects of the delivery phase (bot.py:126-132), once the video is on disk. */
  function DeliveryPhase(size: nat, workdir: string, env: Env): seq<Event> {
    if TooLargeToSend(size) then [Edit(TooLarge)]
    else [Edit(Uploading), SendVideo(MergedPath(workdir))] + (if env.uploadOk then [DeleteStatus] else [])
  }

  /** The effects of the body of the `with` block (bot.py:110-132). */
  function RequestTrace(url: string, workdir: string, env: Env): seq<Event> {
    FetchPhase(url, workdir, env) + Delivery(url, workdir, env)
  }

  /** The delivery phase, when the fetch phase did not raise. */
  function Delivery(url: string, workdir: string, env: Env): seq<Event> {
    DeliveryOf(Artifact(url, workdir, env), workdir, env)
  }

  function DeliveryOf(artifact: Result<nat, Error>, workdir: string, env: Env): seq<Event> {
    match artifact case Failure(_) => [] case Success(size) => DeliveryPhase(size, workdir, env)
  }

  /** The error report of bot.py:133-134, when the body raised. */
  function ErrorReport(ending: Ending): seq<Event> {
    if ending.Raised? then [Edit(Failed(ending.error))] else []
  }

  /** The effects of `handle_message` once `url` is selected (bot.py:106-134). */
  function UrlTrace(url: string, workdir: string, env: Env): seq<Event> {
    Trace(FetchPhase(url, workdir, env), Artifact(url, workdir, env), workdir, env)
  }

  /** The whole trace, given the effects `fetch` of the fetch phase and what it produced. */
  function Trace(fetch: seq<Event>, artifact: Result<nat, Error>, workdir: string, env: Env): seq<Event> {
    [Reply(Processing)] + fetch + DeliveryOf(artifact, workdir, env) + [Cleanup] + ErrorReport(EndingOf(artifact, env))
  }

  /** `UrlTrace` as the body's effects, the directory's removal and the error report. */
  lemma UrlTraceParts(url: string, workdir: string, env: Env)
    ensures UrlTrace(url, workdir, env) ==
      [Reply(Processing)] + RequestTrace(url, workdir, env) + [Cleanup] + ErrorReport(Outcome(url, workdir, env))
  {
    var fetch, artifact := FetchPhase(url, workdir, env), Artifact(url, workdir, env);
    assert Delivery(url, workdir, env) == DeliveryOf(artifact, workdir, env);
    assert Outcome(url, workdir, env) == EndingOf(artifact, env);
    assert [Reply(Processing)] + fetch + DeliveryOf(artifact, workdir, env) == [Reply(Processing)] + (fetch + DeliveryOf(artifact, workdir, env));
  }

  /** The whole trace of `handle_message` for the message text `text`. */
  function HandleTrace(text: Option<string>, workdir: string, env: Env): seq<Event> {
    match Classifier.SelectUrl(text)
    case None => []
    case Some(url) => UrlTrace(url, workdir, env)
  }

  /**
   * bot.py:111-126: fetch (and for a playlist, merge) into the work directory, and measure the result.
   * The step-by-step form of `Artifact` and `FetchPhase`; the properties are proved about those.
   */
  method FetchAndMerge(url: string, workdir: string, env: Env) returns (size: Result<nat, Error>, events: seq<Event>)
    ensures size == Artifact(url, workdir, env)
    ensures events == FetchPhase(url, workdir, env)
  {
    var mergedPath := MergedPath(workdir);
    if IsPlaylistUrl(url) {
      events := [Edit(FetchingPlaylist)];
      var segFiles, ev := Fetcher.DownloadPlaylist(env.get, url, workdir, Some(SegmentCounter));
      events := events + ev;
      if segFiles.Failure? {
        return Failure(segFiles.error), events;
      }
      var ev2;
      events := events + [Edit(Merging)];
      var merged;
      merged, ev2 := Concat.MergeSegments(segFiles.value, mergedPath, env.ffmpeg);
      events := events + ev2;
      if merged.Failure? {
        return Failure(merged.error), events;
      }
      size := Success(env.ffmpeg.outputSize);
    } else {
      events := [Edit(FetchingFile)];
      var downloaded, written, ev := Fetcher.DownloadFile(env.get, url, mergedPath, Some(Percentage));
      events := events + ev;
      if downloaded.Failure? {
        return Failure(downloaded.error), events;
      }
      size := Success(written);
    }
  }

  /**
   * The body of the `with` block (bot.py:110-132); an exception ends it early.
   * The step-by-step form of `Outcome` and `RequestTrace`.
   */
  method RunRequest(url: string, workdir: string, env: Env) returns (ending: Ending, events: seq<Event>)
    ensures ending == Outcome(url, workdir, env)
    ensures events == RequestTrace(url, workdir, env)
  {
    var size;
    size, events := FetchAndMerge(url, workdir, env);
    if size.Failure? {
      return Raised(size.error), events;
    }
    if size.value > TG_MAX_SIZE {
      return Refused, events + [Edit(TooLarge)];
    }
    events := events + [Edit(Uploading), SendVideo(MergedPath(workdir))];
    if !env.uploadOk {
      return Raised(UploadFailed), events;
    }
    events := events + [DeleteStatus];
    ending := Delivered;
  }

  /** bot.py:97-134, the step-by-step form of `HandleTrace`. */
  method HandleMessage(text: Option<string>, workdir: string, env: Env) returns (events: seq<Event>)
    ensures events == HandleTrace(text, workdir, env)
  {
    var url := Classifier.SelectUrl(text);
    if url.None? {
      return [];
    }
    var ending, ev := RunRequest(url.value, workdir, env);
    UrlTraceParts(url.value, workdir, env);
    events := [Reply(Processing)] + ev + [Cleanup];
    if ending.Raised? {
      events := events + [Edit(Failed(ending.error))];
    }
  }

  // ---------------------------------------------------------------------------
  // Properties of the handler
  // ---------------------------------------------------------------------------

  /** The effects the fetch and merge phase can have. */
  predicate FetchEffect(e: Event) {
    e.Get? || e.Progress? || e.WriteFile? || e.Run? || e.Remove?
    || e == Edit(FetchingPlaylist) || e == Edit(Merging) || e == Edit(FetchingFile)
  }

  lemma FetchPhaseKinds(url: string, workdir: string, env: Env)
    ensures forall e :: e in FetchPhase(url, workdir, env) ==> FetchEffect(e)
  {
    if IsPlaylistUrl(url) {
      var fetches := Fetcher.PlaylistTrace(env.get, url, Some(SegmentCounter));
      var merge := MergePhase(url, workdir, env);
      Fetcher.PlaylistTraceKinds(env.get, url, Some(SegmentCounter));
      MergePhaseKinds(url, workdir, env);
      AllFetchEffects([Edit(FetchingPlaylist)] + fetches, merge);
    } else {
      var t := Fetcher.FileTrace(env.get, url, Some(Percentage));
      Fetcher.FileTraceKinds(env.get, url, Some(Percentage));
      assert t == [t[0]] + t[1..];
      AllFetchEffects([Edit(FetchingFile), t[0]], t[1..]);
      assert FetchPhase(url, workdir, env) == [Edit(FetchingFile), t[0]] + t[1..];
    }
  }

  lemma MergePhaseKinds(url: string, workdir: string, env: Env)
    ensures forall e :: e in MergePhase(url, workdir, env) ==> FetchEffect(e)
  {
  }

  lemma AllFetchEffects(a: seq<Event>, b: seq<Event>)
    requires forall e :: e in a ==> FetchEffect(e)
    requires forall e :: e in b ==> FetchEffect(e)
    ensures forall e :: e in a + b ==> FetchEffect(e)
  {
  }

  /** A message in which neither pattern matches gets no reply and causes no effect at all (bot.py:102-104). */
  lemma SilentWithoutUrl(text: Option<string>, workdir: string, env: Env)
    ensures HandleTrace(text, workdir, env) == [] <==>
      (forall a, b :: !Classifier.PlaylistMatch(text.GetOr(""), a, b))
      && (forall a, q, b :: !Classifier.VideoMatch(text.GetOr(""), a, q, b))
  {
    Classifier.NothingSelected(text);
  }

  /**
   * Once a URL is selected the status message is created first, and the
   * temporary directory is removed exactly once: as the last effect, or
   * just before the single error report when the request raised.
   */
  lemma CleanupOnce(url: string, workdir: string, env: Env)
    ensures var t := UrlTrace(url, workdir, env);
      |t| >= 2 && t[0] == Reply(Processing) &&
      match Outcome(url, workdir, env)
      case Raised(e) => |t| >= 3 && t[|t| - 1] == Edit(Failed(e)) && t[|t| - 2] == Cleanup && Cleanup !in t[..|t| - 2]
      case _ => t[|t| - 1] == Cleanup && Cleanup !in t[..|t| - 1]
  {
    var head := [Reply(Processing)] + RequestTrace(url, workdir, env);
    UrlTraceParts(url, workdir, env);
    NoCleanupInBody(url, workdir, env);
    CleanupPlacement(head, ErrorReport(Outcome(url, workdir, env)), UrlTrace(url, workdir, env));
  }

  /** Where the one `Cleanup` of a trace `head + [Cleanup] + report` sits. */
  lemma CleanupPlacement(head: seq<Event>, report: seq<Event>, t: seq<Event>)
    requires t == head + [Cleanup] + report && Cleanup !in head && |head| >= 1
    ensures |t| >= 2 && t[0] == head[0]
    ensures report == [] ==> t[|t| - 1] == Cleanup && Cleanup !in t[..|t| - 1]
    ensures |report| == 1 ==> |t| >= 3 && t[|t| - 1] == report[0] && t[|t| - 2] == Cleanup && Cleanup !in t[..|t| - 2]
  {
    if report == [] {
      assert t[..|t| - 1] == head;
    } else if |report| == 1 {
      assert t[..|t| - 2] == head;
    }
  }

  /** The body of the `with` block never removes the directory itself. */
  lemma NoCleanupInBody(url: string, workdir: string, env: Env)
    ensures Cleanup !in [Reply(Processing)] + RequestTrace(url, workdir, env)
  {
    FetchPhaseKinds(url, workdir, env);
    var fetch := FetchPhase(url, workdir, env);
    var delivery := Delivery(url, workdir, env);
    assert Cleanup !in fetch;
    assert Cleanup !in delivery;
    assert RequestTrace(url, workdir, env) == fetch + delivery;
  }

  /** `UrlTrace` cut into its phases, once the video is on disk. */
  lemma TraceWithArtifact(url: string, workdir: string, env: Env, size: nat)
    requires Artifact(url, workdir, env) == Success(size)
    ensures UrlTrace(url, workdir, env) ==
      ([Reply(Processing)] + FetchPhase(url, workdir, env)) + DeliveryPhase(size, workdir, env)
      + ([Cleanup] + ErrorReport(Outcome(url, workdir, env)))
  {
  }

  /**
   * The size gate of bot.py:126-129: the merged video is sent exactly when
   * its size is at most `TG_MAX_SIZE`, so a size equal to the limit is sent.
   */
  lemma SizeGateSend(url: string, workdir: string, env: Env, size: nat)
    requires Artifact(url, workdir, env) == Success(size)
    ensures SendVideo(MergedPath(workdir)) in UrlTrace(url, workdir, env) <==> size <= TG_MAX_SIZE
  {
    FetchPhaseKinds(url, workdir, env);
    var before := [Reply(Processing)] + FetchPhase(url, workdir, env);
    var after := [Cleanup] + ErrorReport(Outcome(url, workdir, env));
    assert SendVideo(MergedPath(workdir)) !in before;
    assert SendVideo(MergedPath(workdir)) !in after;
    TraceWithArtifact(url, workdir, env, size);
  }

  /** The size gate of bot.py:127-129: the warning is shown exactly when the video is larger than the limit. */
  lemma SizeGateWarn(url: string, workdir: string, env: Env, size: nat)
    requires Artifact(url, workdir, env) == Success(size)
    ensures Edit(TooLarge) in UrlTrace(url, workdir, env) <==> size > TG_MAX_SIZE
  {
    FetchPhaseKinds(url, workdir, env);
    var before := [Reply(Processing)] + FetchPhase(url, workdir, env);
    var after := [Cleanup] + ErrorReport(Outcome(url, workdir, env));
    assert Edit(TooLarge) !in before;
    assert Edit(TooLarge) !in after;
    TraceWithArtifact(url, workdir, env, size);
  }

  /** bot.py:130-132: the status message is deleted exactly when the video was within the limit and its upload succeeded. */
  lemma SizeGateDelete(url: string, workdir: string, env: Env, size: nat)
    requires Artifact(url, workdir, env) == Success(size)
    ensures DeleteStatus in UrlTrace(url, workdir, env) <==> size <= TG_MAX_SIZE && env.uploadOk
  {
    FetchPhaseKinds(url, workdir, env);
    var before := [Reply(Processing)] + FetchPhase(url, workdir, env);
    var after := [Cleanup] + ErrorReport(Outcome(url, workdir, env));
    assert DeleteStatus !in before;
    assert DeleteStatus !in after;
    TraceWithArtifact(url, workdir, env, size);
  }

  /** Whatever happens, a video that is sent is the merged file, and it passed the size gate. */
  lemma SentOnlyWithinLimit(url: string, workdir: string, env: Env)
    ensures forall e :: e in UrlTrace(url, workdir, env) && e.SendVideo? ==>
      e.path == MergedPath(workdir)
      && Artifact(url, workdir, env).Success? && Artifact(url, workdir, env).value <= TG_MAX_SIZE
  {
    FetchPhaseKinds(url, workdir, env);
    TraceSends(FetchPhase(url, workdir, env), Artifact(url, workdir, env), workdir, env);
  }

  /** Only the delivery phase sends, and only a video within the limit. */
  lemma TraceSends(fetch: seq<Event>, artifact: Result<nat, Error>, workdir: string, env: Env)
    requires forall e :: e in fetch ==> FetchEffect(e)
    ensures forall e :: e in Trace(fetch, artifact, workdir, env) && e.SendVideo? ==>
      e.path == MergedPath(workdir) && artifact.Success? && artifact.value <= TG_MAX_SIZE
  {
    var report := ErrorReport(EndingOf(artifact, env));
    assert forall e :: e in report ==> e.Edit?;
  }

  /** When fetching or merging raises, nothing is sent and the last effect is the error report. */
  lemma FailureReported(url: string, workdir: string, env: Env, e: Error)
    requires Artifact(url, workdir, env) == Failure(e)
    ensures var t := UrlTrace(url, workdir, env);
      t[|t| - 1] == Edit(Failed(e)) && forall x :: x in t ==> !x.SendVideo?
  {
    FetchPhaseKinds(url, workdir, env);
    RaisedTrace(url, workdir, env, e);
    var p := (x: Event) => !x.SendVideo?;
    assert forall x :: p(x) == !x.SendVideo?;
    RaisedShape(UrlTrace(url, workdir, env), FetchPhase(url, workdir, env), e, p);
  }

  /** The shape of the trace once the fetch phase raised `e`. */
  lemma RaisedTrace(url: string, workdir: string, env: Env, e: Error)
    requires Artifact(url, workdir, env) == Failure(e)
    ensures UrlTrace(url, workdir, env) == [Reply(Processing)] + FetchPhase(url, workdir, env) + [Cleanup, Edit(Failed(e))]
  {
    TraceRaised(FetchPhase(url, workdir, env), e, workdir, env);
  }

  lemma TraceRaised(fetch: seq<Event>, e: Error, workdir: string, env: Env)
    ensures Trace(fetch, Failure(e), workdir, env) == [Reply(Processing)] + fetch + [Cleanup, Edit(Failed(e))]
  {
    assert DeliveryOf(Failure(e), workdir, env) == [];
  }

  /** A trace that raised ends with its report and holds nothing but the fetch phase's effects besides. */
  lemma RaisedShape(t: seq<Event>, fetch: seq<Event>, e: Error, p: Event -> bool)
    requires t == [Reply(Processing)] + fetch + [Cleanup, Edit(Failed(e))]
    requires p(Reply(Processing)) && p(Cleanup) && p(Edit(Failed(e)))
    requires forall x :: x in fetch ==> p(x)
    ensures t[|t| - 1] == Edit(Failed(e)) && forall x :: x in t ==> p(x)
  {
  }

  /**
   * A text holding a playlist URL is handled as a playlist, whatever video
   * URLs it holds and wherever they are: the first thing fetched is the
   * leftmost playlist match.
   */
  lemma PlaylistTakesPrecedence(text: string, workdir: string, env: Env, i: int, j: int)
    requires Classifier.PlaylistMatch(text, i, j)
    ensures var t := HandleTrace(Some(text), workdir, env);
      |t| > 2 && t[1] == Edit(FetchingPlaylist) && t[2].Get?
      && exists a, b :: Classifier.PlaylistMatch(text, a, b) && a <= i && t[2].url == text[a..b]
  {
    Classifier.PlaylistWins(text, i, j);
    var a, b :| Classifier.PlaylistMatch(text, a, b) && a <= i && Classifier.SelectUrl(Some(text)) == Some(text[a..b]);
    var url := text[a..b];
    Classifier.PlaylistBranchIffPlaylistMatch(Some(text));
    assert IsPlaylistUrl(url);
    PlaylistStart(url, workdir, env);
    assert HandleTrace(Some(text), workdir, env) == UrlTrace(url, workdir, env);
  }

  lemma PlaylistStart(url: string, workdir: string, env: Env)
    requires IsPlaylistUrl(url)
    ensures var t := UrlTrace(url, workdir, env); |t| > 2 && t[1] == Edit(FetchingPlaylist) && t[2] == Get(url)
  {
    var p := Fetcher.PlaylistTrace(env.get, url, Some(SegmentCounter));
    assert p[0] == Get(url);
  }

  /** `UrlTrace` cut into its phases. */
  lemma TracePhases(url: string, workdir: string, env: Env)
    ensures UrlTrace(url, workdir, env) ==
      [Reply(Processing)] + FetchPhase(url, workdir, env)
      + (Delivery(url, workdir, env)
         + [Cleanup] + ErrorReport(Outcome(url, workdir, env)))
  {
  }

  /** Nothing after the fetch phase fetches a URL or runs the tool. */
  lemma AfterFetchPhase(url: string, workdir: string, env: Env)
    ensures forall e ::
      e in Delivery(url, workdir, env)
           + [Cleanup] + ErrorReport(Outcome(url, workdir, env))
      ==> !e.Get? && !e.Run? && !e.WriteFile?
  {
  }

  lemma GetsOfHead(url: string, notice: Notice)
    ensures Gets([Reply(Processing), Edit(notice), Get(url)]) == [url]
  {
    GetsOfOthers([Reply(Processing), Edit(notice)]);
    assert Gets([Get(url)]) == [url] by { assert [Get(url)][..0] == []; }
    GetsAppend([Reply(Processing), Edit(notice)], [Get(url)]);
    assert [Reply(Processing), Edit(notice)] + [Get(url)] == [Reply(Processing), Edit(notice), Get(url)];
  }

  /** The URLs fetched by a request whose fetches after the first are `middle`. */
  lemma GetsAfterHead(url: string, notice: Notice, middle: seq<Event>, rest: seq<Event>)
    requires forall e :: e in rest ==> !e.Get?
    ensures Gets([Reply(Processing), Edit(notice), Get(url)] + middle + rest) == [url] + Gets(middle)
  {
    var head := [Reply(Processing), Edit(notice), Get(url)];
    GetsOfOthers(rest);
    GetsOfHead(url, notice);
    GetsAppend(head, middle);
    GetsAppend(head + middle, rest);
  }

  /** The fetch phase of the playlist branch, once the playlist itself has been read. */
  lemma PlaylistFetchPhase(url: string, workdir: string, env: Env)
    requires IsPlaylistUrl(url) && Completes(env.get(url))
    ensures FetchPhase(url, workdir, env) ==
      [Edit(FetchingPlaylist)]
      + ([Get(url)] + Fetcher.FetchTrace(env.get, Playlist.SegmentUrls(url, env.get(url).text), Some(SegmentCounter)))
      + MergePhase(url, workdir, env)
  {
    assert Fetcher.PlaylistTrace(env.get, url, Some(SegmentCounter)) ==
      [Get(url)] + Fetcher.FetchTrace(env.get, Playlist.SegmentUrls(url, env.get(url).text), Some(SegmentCounter));
  }

  lemma Regroup(a: Event, b: Event, c: Event, fetches: seq<Event>, merge: seq<Event>, after: seq<Event>)
    ensures [a] + ([b] + ([c] + fetches) + merge) + after == [a, b, c] + fetches + (merge + after)
  {
  }

  /** The playlist branch, cut where the segment fetches are. */
  lemma PlaylistCut(url: string, workdir: string, env: Env) returns (rest: seq<Event>)
    requires IsPlaylistUrl(url) && Completes(env.get(url))
    ensures forall e :: e in rest ==> !e.Get?
    ensures UrlTrace(url, workdir, env) ==
      [Reply(Processing), Edit(FetchingPlaylist), Get(url)]
      + Fetcher.FetchTrace(env.get, Playlist.SegmentUrls(url, env.get(url).text), Some(SegmentCounter)) + rest
  {
    var fetches := Fetcher.FetchTrace(env.get, Playlist.SegmentUrls(url, env.get(url).text), Some(SegmentCounter));
    var merge := MergePhase(url, workdir, env);
    var after := Delivery(url, workdir, env) + [Cleanup] + ErrorReport(Outcome(url, workdir, env));
    PlaylistFetchPhase(url, workdir, env);
    TracePhases(url, workdir, env);
    AfterFetchPhase(url, workdir, env);
    assert forall e :: e in merge ==> !e.Get?;
    Regroup(Reply(Processing), Edit(FetchingPlaylist), Get(url), fetches, merge, after);
    rest := merge + after;
  }

  /**
   * A playlist is resolved and fetched in order: after the playlist itself,
   * the segment URLs are fetched in playlist order, up to and including the
   * first that fails.
   */
  lemma PlaylistFetchOrder(url: string, workdir: string, env: Env)
    requires IsPlaylistUrl(url) && Completes(env.get(url))
    ensures Gets(UrlTrace(url, workdir, env)) == [url] + Fetcher.Attempted(env.get, Playlist.SegmentUrls(url, env.get(url).text))
  {
    var segments := Playlist.SegmentUrls(url, env.get(url).text);
    var fetches := Fetcher.FetchTrace(env.get, segments, Some(SegmentCounter));
    var rest := PlaylistCut(url, workdir, env);
    GetsAfterHead(url, FetchingPlaylist, fetches, rest);
    Fetcher.FetchOrder(env.get, segments, Some(SegmentCounter));
  }

  /** When every segment is fetched, the list handed to the tool names the segment files in playlist order. */
  lemma PlaylistManifest(url: string, workdir: string, env: Env)
    requires IsPlaylistUrl(url) && Completes(env.get(url))
    requires Fetcher.FirstFailure(env.get, Playlist.SegmentUrls(url, env.get(url).text), 0).None?
    ensures var n := |Playlist.SegmentUrls(url, env.get(url).text)|;
      WriteFile(Concat.ListPath(MergedPath(workdir)), Concat.ManifestText(Fetcher.SegmentPaths(workdir, n)))
        in UrlTrace(url, workdir, env)
  {
    var n := |Playlist.SegmentUrls(url, env.get(url).text)|;
    var files := Fetcher.SegmentPaths(workdir, n);
    assert Fetcher.PlaylistResult(env.get, url, workdir) == Success(files);
    var merge := Concat.MergeTrace(files, MergedPath(workdir), env.ffmpeg);
    assert merge[0] == WriteFile(Concat.ListPath(MergedPath(workdir)), Concat.ManifestText(files));
    TracePhases(url, workdir, env);
  }

  /** When a segment fails, the concatenation tool is never run and nothing is sent. */
  lemma PlaylistFailureStops(url: string, workdir: string, env: Env)
    requires IsPlaylistUrl(url)
    requires Fetcher.PlaylistResult(env.get, url, workdir).Failure?
    ensures forall e :: e in UrlTrace(url, workdir, env) ==> !e.Run? && !e.WriteFile? && !e.SendVideo?
  {
    var fetches := Fetcher.PlaylistTrace(env.get, url, Some(SegmentCounter));
    Fetcher.PlaylistTraceKinds(env.get, url, Some(SegmentCounter));
    var e := Fetcher.PlaylistResult(env.get, url, workdir).error;
    assert MergePhase(url, workdir, env) == [];
    assert FetchPhase(url, workdir, env) == [Edit(FetchingPlaylist)] + fetches;
    assert Artifact(url, workdir, env) == Failure(e);
    RaisedTrace(url, workdir, env, e);
    var p := (x: Event) => !x.Run? && !x.WriteFile? && !x.SendVideo?;
    assert forall x :: p(x) == (!x.Run? && !x.WriteFile? && !x.SendVideo?);
    RaisedShape(UrlTrace(url, workdir, env), FetchPhase(url, workdir, env), e, p);
  }

  /** The direct-link branch, cut after its one fetch. */
  lemma FileCut(url: string, workdir: string, env: Env) returns (rest: seq<Event>)
    requires !IsPlaylistUrl(url)
    ensures forall e :: e in rest ==> !e.Get? && !e.Run? && !e.WriteFile?
    ensures UrlTrace(url, workdir, env) == [Reply(Processing), Edit(FetchingFile), Get(url)] + [] + rest
  {
    var file := Fetcher.FileTrace(env.get, url, Some(Percentage));
    Fetcher.FileTraceKinds(env.get, url, Some(Percentage));
    var after := Delivery(url, workdir, env) + [Cleanup] + ErrorReport(Outcome(url, workdir, env));
    assert file == [Get(url)] + file[1..];
    assert FetchPhase(url, workdir, env) == [Edit(FetchingFile)] + ([Get(url)] + file[1..]);
    TracePhases(url, workdir, env);
    AfterFetchPhase(url, workdir, env);
    rest := file[1..] + after;
    assert UrlTrace(url, workdir, env) == [Reply(Processing), Edit(FetchingFile), Get(url)] + [] + rest;
  }

  /**
   * A direct video link skips playlist resolution and merging: the one URL
   * fetched is the link itself, the tool is never run, and the size checked
   * is the number of bytes downloaded.
   */
  lemma DirectLink(url: string, workdir: string, env: Env)
    requires !IsPlaylistUrl(url)
    ensures var t := UrlTrace(url, workdir, env);
      |t| > 1 && t[1] == Edit(FetchingFile) && Gets(t) == [url]
      && (forall e :: e in t ==> !e.Run? && !e.WriteFile?)
      && (Artifact(url, workdir, env).Success? ==> Artifact(url, workdir, env).value == Fetcher.Sum(env.get(url).chunks))
  {
    var rest := FileCut(url, workdir, env);
    GetsAfterHead(url, FetchingFile, [], rest);
    assert Gets([]) == [];
  }

  /**
   * The playlist at `http://h/p/list.m3u8` holding `#EXTM3U`, `seg0.ts`,
   * `http://other/seg1.ts` and `seg2.ts`, with every segment available: the
   * playlist and then the three resolved segment URLs are fetched, in that
   * order.
   */
  lemma ExampleFetchOrder(workdir: string, env: Env)
    requires Completes(env.get("http://h/p/list.m3u8"))
    requires env.get("http://h/p/list.m3u8").text == Lines.Terminated(Playlist.EXAMPLE_LINES)
    requires Completes(env.get("http://h/p/seg0.ts"))
    requires Completes(env.get("http://other/seg1.ts"))
    requires Completes(env.get("http://h/p/seg2.ts"))
    ensures Gets(UrlTrace("http://h/p/list.m3u8", workdir, env))
      == ["http://h/p/list.m3u8", "http://h/p/seg0.ts", "http://other/seg1.ts", "http://h/p/seg2.ts"]
  {
    var url := "http://h/p/list.m3u8";
    ExampleIsPlaylist();
    var segments := ExampleSegmentsArrive(env);
    PlaylistFetchOrder(url, workdir, env);
    assert Gets(UrlTrace(url, workdir, env)) == [url] + segments;
  }

  /** In the same example, ffmpeg's list names the three segment files in order. */
  lemma ExampleManifest(workdir: string, env: Env)
    requires Completes(env.get("http://h/p/list.m3u8"))
    requires env.get("http://h/p/list.m3u8").text == Lines.Terminated(Playlist.EXAMPLE_LINES)
    requires Completes(env.get("http://h/p/seg0.ts"))
    requires Completes(env.get("http://other/seg1.ts"))
    requires Completes(env.get("http://h/p/seg2.ts"))
    ensures WriteFile(Concat.ListPath(MergedPath(workdir)), Concat.ManifestText(Fetcher.SegmentPaths(workdir, 3)))
      in UrlTrace("http://h/p/list.m3u8", workdir, env)
  {
    ExampleIsPlaylist();
    var segments := ExampleSegmentsArrive(env);
    PlaylistManifest("http://h/p/list.m3u8", workdir, env);
  }

  /** The example's merged video is delivered when within the limit and refused when larger. */
  lemma ExampleDelivery(workdir: string, env: Env)
    requires Completes(env.get("http://h/p/list.m3u8"))
    requires env.get("http://h/p/list.m3u8").text == Lines.Terminated(Playlist.EXAMPLE_LINES)
    requires Completes(env.get("http://h/p/seg0.ts"))
    requires Completes(env.get("http://other/seg1.ts"))
    requires Completes(env.get("http://h/p/seg2.ts"))
    requires env.ffmpeg.returnCode == 0
    ensures Artifact("http://h/p/list.m3u8", workdir, env) == Success(env.ffmpeg.outputSize)
    ensures env.ffmpeg.outputSize > TG_MAX_SIZE ==> Outcome("http://h/p/list.m3u8", workdir, env) == Refused
    ensures env.ffmpeg.outputSize <= TG_MAX_SIZE && env.uploadOk ==> Outcome("http://h/p/list.m3u8", workdir, env) == Delivered
  {
    ExampleIsPlaylist();
    var segments := ExampleSegmentsArrive(env);
  }

  lemma ExampleIsPlaylist()
    ensures IsPlaylistUrl("http://h/p/list.m3u8")
  {
    var url := "http://h/p/list.m3u8";
    assert url[|url| - 5..] == Classifier.PLAYLIST_SUFFIX;
  }

  /** The example playlist's three segments, all of which arrive. */
  lemma ExampleSegmentsArrive(env: Env) returns (segments: seq<string>)
    requires env.get("http://h/p/list.m3u8").text == Lines.Terminated(Playlist.EXAMPLE_LINES)
    requires Completes(env.get("http://h/p/seg0.ts"))
    requires Completes(env.get("http://other/seg1.ts"))
    requires Completes(env.get("http://h/p/seg2.ts"))
    ensures segments == Playlist.SegmentUrls("http://h/p/list.m3u8", env.get("http://h/p/list.m3u8").text)
    ensures segments == ["http://h/p/seg0.ts", "http://other/seg1.ts", "http://h/p/seg2.ts"]
    ensures Fetcher.FirstFailure(env.get, segments, 0) == None
  {
    Playlist.ExamplePlaylist();
    segments := Playlist.SegmentUrls("http://h/p/list.m3u8", env.get("http://h/p/list.m3u8").text);
    assert Fetcher.FirstFailure(env.get, segments, 3) == None;
  }

  /** On a text whose only URLs are direct links, `handle_message` takes the direct-link branch. */
  lemma NoPlaylistMeansDirect(text: Option<string>)
    requires Classifier.SelectUrl(text).Some?
    requires forall a, b :: !Classifier.PlaylistMatch(text.GetOr(""), a, b)
    ensures !IsPlaylistUrl(Classifier.SelectUrl(text).value)
  {
    Classifier.PlaylistBranchIffPlaylistMatch(text);
  }
}
