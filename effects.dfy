/**
 * The outside world of the script, reduced to values: what a server answers
 * to a GET, what the concatenation tool reports, whether the upload goes
 * through, and the trace of effects a run of the handler leaves behind.
 */
module Effects {
  import opened Wrappers

  /** What a server answers to one `session.get(url)` (bot.py:39-44, bot.py:52-54). */
  datatype Response = Response(
    status: int,                 // the HTTP status
    contentLength: Option<int>,  // the `content-length` header, as `int()` reads it, when sent
    chunks: seq<nat>,            // the lengths of the body chunks that arrive, in order
    text: string,                // the body as `resp.text()` decodes it
    interrupted: bool)           // the connection breaks after those chunks

  /** aiohttp's `raise_for_status()` raises for every status from 400 on. */
  predicate StatusOk(resp: Response) {
    resp.status < 400
  }

  /** The body can be read to its end. */
  predicate Completes(resp: Response) {
    StatusOk(resp) && !resp.interrupted
  }

  /** What the concatenation tool's run reports (bot.py:80-85), and the size of the file it writes. */
  datatype ToolRun = ToolRun(returnCode: int, stderr: string, outputSize: nat)

  /** Everything a request depends on outside the script. */
  datatype Env = Env(get: string -> Response, ffmpeg: ToolRun, uploadOk: bool)

  /** The exceptions the handler catches (bot.py:133). */
  datatype Error =
    | HttpStatus(url: string, status: int)  // `raise_for_status()`
    | Interrupted(url: string)              // the body broke off
    | MergeFailed(stderr: string)           // `ffmpeg failed: ...` (bot.py:85)
    | UploadFailed                          // `reply_video` raised

  /** The error `download_file` raises for a response that does not complete. */
  function TransferError(url: string, resp: Response): Error {
    if !StatusOk(resp) then HttpStatus(url, resp.status) else Interrupted(url)
  }

  /** Which progress closure is installed: `seg_progress` (bot.py:113-114) or `file_progress` (bot.py:122-124). */
  datatype Sink = SegmentCounter | Percentage

  /** The texts the status message shows (bot.py:106-134), by meaning. */
  datatype Notice =
    | Processing
    | FetchingPlaylist
    | Merging
    | FetchingFile
    | TooLarge
    | Uploading
    | Failed(error: Error)

  datatype Event =
    | Get(url: string)                             // `session.get(url)`
    | Progress(sink: Sink, done: int, total: int)  // `await progress_cb(done, total)`: the closure edits the status
    | Reply(notice: Notice)                        // `message.reply(...)`: the status message is created
    | Edit(notice: Notice)                         // `status_msg.edit(...)`
    | WriteFile(path: string, text: string)        // the concatenation list is written
    | Run(argv: seq<string>)                       // the concatenation tool is started
    | Remove(path: string)                         // `os.remove(...)`
    | SendVideo(path: string)                      // `message.reply_video(...)`
    | DeleteStatus                                 // `status_msg.delete()`
    | Cleanup                                      // the temporary directory is removed

  /** The URLs fetched, in order. */
  function Gets(events: seq<Event>): seq<string> {
    if events == [] then []
    else Gets(events[..|events| - 1]) + (if events[|events| - 1].Get? then [events[|events| - 1].url] else [])
  }

  /** The progress reports, in order, as `(done, total)`. */
  function Reports(events: seq<Event>): seq<(int, int)> {
    if events == [] then []
    else
      var e := events[|events| - 1];
      Reports(events[..|events| - 1]) + (if e.Progress? then [(e.done, e.total)] else [])
  }

  lemma {:induction false} GetsAppend(a: seq<Event>, b: seq<Event>)
    ensures Gets(a + b) == Gets(a) + Gets(b)
    decreases |b|
  {
    if b == [] {
      assert a + b == a;
    } else {
      assert (a + b)[..|a + b| - 1] == a + b[..|b| - 1];
      GetsAppend(a, b[..|b| - 1]);
    }
  }

  lemma {:induction false} ReportsAppend(a: seq<Event>, b: seq<Event>)
    ensures Reports(a + b) == Reports(a) + Reports(b)
    decreases |b|
  {
    if b == [] {
      assert a + b == a;
    } else {
      assert (a + b)[..|a + b| - 1] == a + b[..|b| - 1];
      ReportsAppend(a, b[..|b| - 1]);
    }
  }

  lemma {:induction false} GetsOfOthers(events: seq<Event>)
    requires forall e :: e in events ==> !e.Get?
    ensures Gets(events) == []
  {
    if events != [] {
      assert events[|events| - 1] in events;
      GetsOfOthers(events[..|events| - 1]);
    }
  }

  lemma GetsOne(e: Event)
    ensures Gets([e]) == if e.Get? then [e.url] else []
  {
    assert [e][..0] == [];
  }

  lemma ReportsOne(e: Event)
    ensures Reports([e]) == if e.Progress? then [(e.done, e.total)] else []
  {
    assert [e][..0] == [];
  }
}
