# medu8 video-merge bot: a Dafny model of its request pipeline

The bot reads every text message it is sent. It looks for an HLS playlist
URL (ending in `.m3u8`) or a direct video link (`.mp4`, `.mov`, `.webm`,
`.mkv`, `.avi`, `.flv`, `.ts`, optionally followed by a query string). For a
playlist it downloads the playlist and every segment it lists, writes an
ffmpeg concat list and runs ffmpeg to join the segments into one file. A
direct link is downloaded into that file as it is. Either way the result is
uploaded back to the chat when it is at most 2 GiB. This project models that
pipeline in Dafny and proves what it does:

- `Classifier` models the two fixed regular expressions and Python's
  `re.search` on them: leftmost match, then greedy `[^\s]+`, then the
  extension alternatives in order and the optional query. It proves that
  the scanners find exactly what the declarative match predicates describe.
  Playlist precedence, the no-match case and the choice of branch follow.
- `Lines` models `str.splitlines` (every Python line boundary, `\r\n` as
  one) and its round trip with newline-terminated text.
- `Playlist` models the segment-line filter, `rsplit('/', 1)[0]`, the
  `http` test and the segment loop of `download_m3u8`.
- `Naming` models `f"seg_{idx:05d}.ts"`, `os.path.join` and Python's string
  order. It proves the names are distinct and sort in index order below
  100000, and that they stop doing so at 100000.
- `Effects` holds the environment: HTTP responses, the ffmpeg run and the
  upload outcome. It also holds the trace of observable effects that each
  operation produces.
- `Fetcher` models `download_file` and both loops of `download_m3u8` as
  methods. Each method is proved against a function giving its result and
  its trace: running byte sums, ordered fetches that stop at the first
  failure, and `(k+1, total)` progress.
- `Concat` models the list-file writer, the exact ffmpeg command line and
  the return-code check of `merge_segments_ffmpeg`.
- `Handler` models `handle_message` with its branches, the strict size
  gate, the upload, the removal of the temporary directory (on every path,
  before any error report) and the single error report.

Network access, the Telegram client, the ffmpeg process and the filesystem
are parameters. `Env.get` gives the response for each URL. `Env.ffmpeg`
gives the tool's return code, its stderr and the size of the file it
writes. `Env.uploadOk` tells whether `reply_video` succeeds. Each operation
returns the list of effects it causes (`Event`), so "fetched in this
order", "never sent" and "removed exactly once" are statements about that
list.

The code has no separate error for an empty playlist. With zero
segments it writes an empty concat list and runs ffmpeg on it, so whether
the request fails depends only on ffmpeg's return code (`Handler.Artifact`).

## Model

| member | source | states |
|---|---|---|
| Classifier.SchemeEnd | bot.py:19-20 | where the body starts after `https://` or `http://` at a position; none exactly when neither scheme is there |
| Classifier.RunEnd | bot.py:19-20 | the end of the longest run of non-whitespace (Python `\s`) from a position: the run has no space and stops at a space or the end |
| Classifier.FirstSuffixAt | bot.py:20 | the first extension alternative present at a position, in the pattern's order; none exactly when no alternative is there |
| Classifier.LastPlaylistStem | bot.py:19 | the last position in a range where `.m3u8` occurs (the greedy run backs off to it); none exactly when there is none |
| Classifier.LastVideoStem | bot.py:20 | the last position in a range where one of the video extensions occurs; none exactly when there is none |
| Classifier.QueryEnd | bot.py:20 | the end of the optional `(?:\?[^\s]*)?` group after an extension: a valid query tail, and the longest one |
| Classifier.PlaylistAt | bot.py:19 | a playlist match anchored at a position is found exactly when one exists, and it is the longest one (greedy `[^\s]+`) |
| Classifier.VideoAt | bot.py:20 | a video match anchored at a position is found exactly when one exists: the greatest extension position, then the longest query |
| Classifier.SearchPlaylistFrom | bot.py:100 | `M3U8_REGEX.search`: the leftmost playlist match, the longest at that start; none exactly when no match starts at or after the position |
| Classifier.SearchVideoFrom | bot.py:101 | `VIDEO_REGEX.search`: the leftmost video match with the same backtracking preference; none exactly when there is none |
| Classifier.PlaylistWins | bot.py:100-102 | whenever a playlist match exists anywhere, the selected URL is a playlist match that starts no later than it, wherever the video matches are |
| Classifier.NothingSelected | bot.py:102-104 | no URL is selected exactly when neither pattern matches anywhere in the text (a missing text reads as empty) |
| Classifier.PlaylistBranchIffPlaylistMatch | bot.py:111 | the selected URL ends in `.m3u8` exactly when the text holds a playlist match, so a video link never enters the playlist branch |
| Classifier.VideoEndingInPlaylistSuffix | bot.py:19-20 | a video match that ends in `.m3u8` is also a playlist match at the same span |
| Lines.FirstBreak | bot.py:57 | the position of the first line boundary at or after a position, with none before it |
| Lines.SplitLines | bot.py:57 | `str.splitlines`: no produced line contains a line boundary (which lines it produces is stated by `Lines.SplitRejoin`) |
| Lines.SplitOne | bot.py:57 | a non-empty text without a boundary is one line |
| Lines.SplitCrLf | bot.py:57 | `\r\n` ends exactly one line and splitting continues after it |
| Lines.SplitAtBreak | bot.py:57 | any other boundary character ends exactly one line, a `\r` only when no `\n` follows it |
| Lines.SplitRejoin | bot.py:57 | for any boundary-free lines, each followed by any terminator (`\r\n` or one boundary character), and an optional unterminated last line, splitting gives back exactly those lines |
| Lines.ExampleCrLf | bot.py:57 | `"a\r\nb"` splits into `a` and `b` |
| Lines.SplitTerminated | bot.py:57 | splitting the newline-terminated join of boundary-free lines gives those lines back |
| Lines.TerminatedAppend | bot.py:74-75 | appending one line appends exactly that line and a newline to the text written so far |
| Playlist.SegmentLinesExactly | bot.py:57-58 | a string is a segment line exactly when it is a playlist line that is non-empty and does not start with `#` |
| Playlist.SegmentLinesInOrder | bot.py:57-60 | the segment lines are the playlist lines at strictly increasing positions, and every segment line's position is among them |
| Playlist.SegmentLinesAppend | bot.py:57-58 | filtering distributes over concatenation of line lists |
| Playlist.LastSlash | bot.py:55 | the index of the last `/` before a bound, or none exactly when there is no `/` before it |
| Playlist.BaseUrl | bot.py:55 | `rsplit('/', 1)[0]`: a prefix of the URL that stops just before its last `/`, or the whole URL when it has none |
| Playlist.BaseUrlOfJoin | bot.py:55 | the base of `dir + "/" + name`, where `name` has no `/`, is `dir` |
| Playlist.CollectSegments | bot.py:56-60 | the loop builds exactly the list of resolved segment URLs, in line order |
| Playlist.SegmentUrlsResolve | bot.py:55-60 | the k-th segment URL is the k-th segment line if it starts with `http`, otherwise the playlist's directory, `/` and the line |
| Playlist.ExampleBase | bot.py:55 | the base of `http://h/p/list.m3u8` is `http://h/p` |
| Playlist.ExampleResolve | bot.py:59 | relative lines are joined to that base with `/` and a line starting with `http` is kept as it is |
| Playlist.ExamplePlaylist | bot.py:51-60 | the playlist `#EXTM3U`, `seg0.ts`, `http://other/seg1.ts`, `seg2.ts` at `http://h/p/list.m3u8` resolves to `http://h/p/seg0.ts`, `http://other/seg1.ts`, `http://h/p/seg2.ts` |
| Naming.Digits | bot.py:64 | a fixed-width rendering made only of decimal digits |
| Naming.DigitsRoundTrip | bot.py:64 | reading back a fixed-width rendering that fits gives the number |
| Naming.NumDigits | bot.py:64 | the number of digits a number needs: it fits, and one digit fewer would not |
| Naming.Pad5RoundTrip | bot.py:64 | `{idx:05d}` reads back as `idx` for every index, including those of six or more digits |
| Naming.Pad5Short | bot.py:64 | below 100000 the rendering is exactly five digits wide |
| Naming.SegmentNamesDistinct | bot.py:64 | two different indices give two different segment file names |
| Naming.SegmentPathsDistinct | bot.py:64 | two different indices give two different segment paths in one work directory |
| Naming.LexLessCommonPrefix | bot.py:64 | Python string order ignores a common prefix |
| Naming.DigitsOrder | bot.py:64 | equal-width renderings compare as their numbers, whatever follows them |
| Naming.SegmentNameOrder | bot.py:64 | below 100000, name order is index order, in both directions |
| Naming.SegmentNameOrderEndsAt100000 | bot.py:64 | `seg_100000.ts` sorts before `seg_99999.ts`, so the ordering guarantee stops at 100000 segments |
| Fetcher.DownloadFile | bot.py:38-49 | the result (the destination, or the status or interruption error), the bytes written and the effects: one fetch, then progress after each chunk when a callback is given |
| Fetcher.SumPrefixMonotone | bot.py:46 | the byte count after a chunk is at least the count after any earlier chunk |
| Fetcher.ChunkReportsAreRunningSums | bot.py:44-48 | the k-th progress report carries the sum of the first k+1 chunk lengths and the advertised total |
| Fetcher.ChunkReportsNeverDecrease | bot.py:46-48 | reported byte counts never decrease and never exceed the bytes received |
| Fetcher.FirstFailure | bot.py:63-65 | the index of the first segment whose fetch fails; every segment before it, or every segment when there is none, completes |
| Fetcher.FetchSegments | bot.py:61-69 | the loop's result (the segment file list, or the first failing segment's error) and its effects, each segment fetched only after the one before completed |
| Fetcher.FetchOrder | bot.py:63-65 | the URLs fetched are the segments in playlist order, up to and including the first that fails, and none after it |
| Fetcher.FetchReports | bot.py:62-68 | the progress reports are `(1,total)`, `(2,total)`, … for every completed segment, in order, never more than `total` |
| Fetcher.FetchedFiles | bot.py:61-66 | on success there is one file per segment, the i-th named `seg_` + five-digit i + `.ts` in the work directory, all distinct |
| Fetcher.DownloadPlaylist | bot.py:51-69 | the result and the effects of fetching the playlist and then its segments; a failing playlist fetch stops everything |
| Fetcher.PlaylistTraceKinds | bot.py:51-69 | resolving a playlist only fetches and reports progress |
| Fetcher.FileTraceKinds | bot.py:38-49 | a file download begins with its one fetch and afterwards only reports progress |
| Concat.Entries | bot.py:74-75 | one list entry per segment path |
| Concat.WriteManifest | bot.py:72-75 | the loop writes exactly one `file '<path>'` line per segment, in order |
| Concat.ManifestRoundTrip | bot.py:73-75 | reading the written list back line by line gives exactly the segment paths, in order, when no path holds a line boundary |
| Concat.MergeSegments | bot.py:71-87 | the effects (write the list, run `ffmpeg -y -f concat -safe 0 -i <list> -c copy <out>`, remove the list only on success) and the result (the output path, or the merge error with stderr) |
| Concat.ListRemovedIffSuccess | bot.py:84-86 | the list file is removed exactly when ffmpeg succeeds |
| Handler.FetchAndMerge | bot.py:111-126 | the size measured (ffmpeg's output, or the bytes downloaded) or the error raised, and the effects of whichever branch the URL selects |
| Handler.RunRequest | bot.py:110-132 | how the body ends (delivered, refused as too large, or raised) and its effects |
| Handler.HandleMessage | bot.py:97-134 | the whole handler's effects: nothing without a URL, else reply, body, directory removal, and an error report when the body raised |
| Handler.FetchPhaseKinds | bot.py:111-125 | fetching and merging never sends, deletes the status or removes the directory |
| Handler.SilentWithoutUrl | bot.py:102-104 | the handler has no effect at all exactly when neither pattern matches the text |
| Handler.CleanupOnce | bot.py:106-134 | the first effect is the status reply; the temporary directory is removed exactly once, as the last effect or just before the single error report |
| Handler.SizeGateSend | bot.py:126-131 | the merged file is sent exactly when its size is at most 2 GiB, so a size equal to the limit is sent |
| Handler.SizeGateWarn | bot.py:127-129 | the too-large warning appears exactly when the size exceeds 2 GiB |
| Handler.SizeGateDelete | bot.py:130-132 | the status message is deleted exactly when the video was within the limit and the upload succeeded |
| Handler.SentOnlyWithinLimit | bot.py:126-131 | on every path, anything sent is the merged file and its measured size is at most 2 GiB |
| Handler.FailureReported | bot.py:133-134 | when fetching or merging raises, nothing is sent and the last effect is the report of that error |
| Handler.PlaylistTakesPrecedence | bot.py:100-115 | for a text with a playlist match, the handler enters the playlist branch and first fetches a playlist match that starts no later than it |
| Handler.NoPlaylistMeansDirect | bot.py:102-120 | when the text has a URL but no playlist match, the direct-link branch is taken |
| Handler.PlaylistFetchOrder | bot.py:111-118 | the URLs the handler fetches are the playlist, then its segments in order, up to and including the first that fails |
| Handler.PlaylistManifest | bot.py:115-118 | when every segment arrives, ffmpeg's list names the segment files in playlist order |
| Handler.PlaylistFailureStops | bot.py:115-118 | when resolving the playlist raises, ffmpeg is never run, no list is written and nothing is sent |
| Handler.DirectLink | bot.py:119-126 | a direct link is the only URL fetched, ffmpeg never runs, and the size checked is the number of bytes received |
| Handler.ExampleFetchOrder | bot.py:111-118 | the three-segment example playlist is fetched first, then its three resolved segment URLs in order |
| Handler.ExampleManifest | bot.py:115-118 | in that example, ffmpeg's list names the three segment files in order |
| Handler.ExampleDelivery | bot.py:118-132 | in that example, with ffmpeg succeeding, the size checked is ffmpeg's output size; the video is delivered when within the limit and refused when larger |
| Fetcher.Attempted | bot.py:63-65 | the segments the loop tries form a prefix of the segment list |
| Fetcher.SegmentsTraceReports | bot.py:63-68 | after n completed rounds there are n progress reports, the k-th being `(k+1, total)` |
| Fetcher.SegmentsTraceGets | bot.py:63-65 | after n completed rounds the URLs fetched are the first n segments, in order |

## Left out

- Network I/O: aiohttp sessions, `raise_for_status` and chunked streaming are a function from URL to response (status, `content-length`, chunk lengths, body text, interruption), and a server answers the same URL the same way each time.
- A `content-length` header that is not a number: `int()` would raise `ValueError`, but the model takes the header already parsed.
- Chunk contents: only chunk lengths are modelled, not the bytes written to each file.
- Telegram client: replies, edits, deletion and `reply_video` are effect events. The status texts and the caption are `Notice` values, not strings, and `str(e)` in the error report is the `Error` value itself.
- Failures of status edits, of the first reply and of the final error edit are not modelled; only the outcome of `reply_video` is a parameter.
- ffmpeg: the process is a parameter giving return code, stderr and output file size. Whether the output file exists after a zero return code is not modelled.
- Filesystem: `tempfile.TemporaryDirectory` is the `workdir` parameter and its removal is one `Cleanup` event. `os.path.getsize` is the byte count written, or ffmpeg's reported size.
- async/await scheduling and concurrent requests: each request is modelled alone and in sequence.
- Handler.FetchAndMerge: the percentage display `int(done / total * 100)` is not computed, because it uses floating point. Its progress reports carry `(done, total)`.
- Environment loading, `HELP_TEXT` and the `/start` and `/help` commands: constants and configuration.
- Quoting inside the concat list: a path holding `'` would need ffmpeg's escaping, which the code does not do; `Concat.ReadManifest` is the model's own reader (everything between `file '` and the last `'`), so `Concat.ManifestRoundTrip` does not say how ffmpeg itself parses such a path. The segment paths the bot writes never hold `'` unless the temporary directory does.
- Regular expressions in general: only the two fixed patterns are modelled, by scanners.
- Empty playlist: the code raises no error of its own when a playlist has no segments; the model follows the code, so the outcome is decided by ffmpeg's return code.
