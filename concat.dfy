/**
 * `merge_segments_ffmpeg` (bot.py:71-87): the concatenation list written
 * next to the output, the tool's command line, and what happens on its
 * exit status.  The tool itself is the value `tool`, the outcome of its run.
 */
module Concat {
  import opened Wrappers
  import opened Lines
  import opened Effects

  /** The `file '<path>'` entry of one segment, without its line end. */
  function Entry(path: string): string {
    "file '" + path + "'"
  }

  function Entries(paths: seq<string>): (entries: seq<string>)
    ensures |entries| == |paths|
  {
    seq(|paths|, k requires 0 <= k < |paths| => Entry(paths[k]))
  }

  /** The text of the concatenation list: one entry per line, each ended by `\n`. */
  function ManifestText(paths: seq<string>): string {
    Terminated(Entries(paths))
  }

  /** The loop of bot.py:73-75. */
  method WriteManifest(paths: seq<string>) returns (text: string)
    ensures text == ManifestText(paths)
  {
    text := "";
    for i := 0 to |paths|
      invariant text == ManifestText(paths[..i])
    {
      var seg := paths[i];
      TerminatedAppend(Entries(paths[..i]), Entry(seg));
      assert Entries(paths[..i + 1]) == Entries(paths[..i]) + [Entry(seg)];
      text := text + "file '" + seg + "'" + "\n";
    }
    assert paths[..|paths|] == paths;
  }

  /** How a line-based reader of the list recovers the path of an entry. */
  function EntryPath(line: string): Option<string> {
    if |line| >= 7 && line[..6] == "file '" && line[|line| - 1] == '\'' then Some(line[6..|line| - 1])
    else None
  }

  function ReadManifest(text: string): seq<Option<string>> {
    var lines := SplitLines(text);
    seq(|lines|, k requires 0 <= k < |lines| => EntryPath(lines[k]))
  }

  /**
   * The list holds exactly one entry per segment, in the order of
   * `segment_files`: read back line by line, it gives the paths again.
   */
  lemma ManifestRoundTrip(paths: seq<string>)
    requires forall k :: 0 <= k < |paths| ==> NoBreak(paths[k])
    ensures var entries := ReadManifest(ManifestText(paths));
      |entries| == |paths| && forall k :: 0 <= k < |paths| ==> entries[k] == Some(paths[k])
  {
    var entries := Entries(paths);
    forall k | 0 <= k < |entries| ensures NoBreak(entries[k]) {
      var e := entries[k];
      assert e == "file '" + paths[k] + "'";
      forall m | 0 <= m < |e| ensures !IsLineBreak(e[m]) {
        if 6 <= m < |e| - 1 { assert e[m] == paths[k][m - 6]; }
      }
    }
    SplitTerminated(entries);
    forall k | 0 <= k < |paths| ensures EntryPath(entries[k]) == Some(paths[k]) {
      var e := entries[k];
      assert e == "file '" + paths[k] + "'";
      assert e[6..|e| - 1] == paths[k];
    }
  }

  /** The `concat` demuxer's list file for `output_path` (bot.py:72). */
  function ListPath(output: string): string {
    output + ".txt"
  }

  /** The argument vector of bot.py:76-79: stream copy, no re-encoding. */
  function FfmpegArgv(listPath: string, output: string): seq<string> {
    ["ffmpeg", "-y", "-f", "concat", "-safe", "0", "-i", listPath, "-c", "copy", output]
  }

  /** The effects of `merge_segments_ffmpeg(paths, output)`. */
  function MergeTrace(paths: seq<string>, output: string, tool: ToolRun): seq<Event> {
    var listPath := ListPath(output);
    [WriteFile(listPath, ManifestText(paths)), Run(FfmpegArgv(listPath, output))]
    + (if tool.returnCode == 0 then [Remove(listPath)] else [])
  }

  /** What `merge_segments_ffmpeg` returns or raises. */
  function MergeResult(output: string, tool: ToolRun): Result<string, Error> {
    if tool.returnCode == 0 then Success(output) else Failure(MergeFailed(tool.stderr))
  }

  /** bot.py:71-87, the step-by-step form of `MergeResult` and `MergeTrace`. */
  method MergeSegments(paths: seq<string>, output: string, tool: ToolRun)
    returns (r: Result<string, Error>, events: seq<Event>)
    ensures r == MergeResult(output, tool)
    ensures events == MergeTrace(paths, output, tool)
  {
    var listPath := output + ".txt";
    var text := WriteManifest(paths);
    events := [WriteFile(listPath, text), Run(FfmpegArgv(listPath, output))];
    if tool.returnCode != 0 {
      return Failure(MergeFailed(tool.stderr)), events;
    }
    events := events + [Remove(listPath)];
    r := Success(output);
  }

  /** The list is removed exactly when the tool succeeds; on failure it stays for the directory cleanup. */
  lemma ListRemovedIffSuccess(paths: seq<string>, output: string, tool: ToolRun)
    ensures Remove(ListPath(output)) in MergeTrace(paths, output, tool) <==> MergeResult(output, tool).Success?
  {
  }
}
