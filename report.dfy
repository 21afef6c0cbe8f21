/** The loop of `main`: every FILE argument, in the order given, is checked
    with `is_valid_file`, counted with `get_details`, and reported with one
    `<new_lines> <path>` row when the count did not fail. */
module WcMain {
  import opened Newlines
  import opened Wc

  /** Everything printed while one path is handled: the path check's
      diagnostic, and for a valid path the counter's message or the row. */
  function PathOutput(fs: FileSystem, path: string): seq<Output>
  {
    var v := IsValidFile(fs, path);
    if !v.valid then v.printed
    else
      var t := fs[path].text;
      var d := DetailsOf(t);
      v.printed + DetailsPrinted(path, t) + (if d.err then [] else [Row(d.newLines, path)])
  }

  /** Everything printed for a list of paths, path after path. */
  function Transcript(fs: FileSystem, paths: seq<string>): seq<Output>
  {
    if paths == [] then []
    else Transcript(fs, paths[..|paths| - 1]) + PathOutput(fs, paths[|paths| - 1])
  }

  /** A path gets a row: it names a regular file that is read without error. */
  predicate Succeeds(fs: FileSystem, path: string)
  {
    path in fs && fs[path].File? && fs[path].text.failsAt.None?
  }

  /** The single line printed for a path, stated case by case from the
      filesystem alone, independently of how the program is composed. */
  function Outcome(fs: FileSystem, path: string): Output
  {
    if path !in fs then Message(NoSuchFile + path)
    else match fs[path]
      case NotAFile => Message(NotAFilePath + path)
      case File(t) =>
        if t.failsAt.Some? then Message(WentWrong + path)
        else Row(multiset(Concat(t.lines))[Terminator], path)
  }

  /** The report rows among printed lines, in order. */
  function Rows(out: seq<Output>): seq<Output>
  {
    if out == [] then []
    else Rows(out[..|out| - 1]) + (if out[|out| - 1].Row? then [out[|out| - 1]] else [])
  }

  /** The rows the program should print: one per path that succeeds, in
      argument order, holding the number of '\n' in the file's text. */
  function ExpectedRows(fs: FileSystem, paths: seq<string>): seq<Output>
  {
    if paths == [] then []
    else
      var p := paths[|paths| - 1];
      ExpectedRows(fs, paths[..|paths| - 1])
        + (if Succeeds(fs, p) then [Row(NewlineCount(Concat(fs[p].text.lines)), p)] else [])
  }

  /** Handling one path prints exactly one line: a diagnostic for a missing
      path, a non-file or a failed read, and otherwise the row. */
  lemma PathOutputIsOneLine(fs: FileSystem, path: string)
    ensures PathOutput(fs, path) == [Outcome(fs, path)]
    ensures Outcome(fs, path).Row? <==> Succeeds(fs, path)
  {
    if path in fs && fs[path].File? && fs[path].text.failsAt.None? {
      DetailsCountsNewlines(fs[path].text);
    }
  }

  /** The transcript has one line per argument, the i-th being the outcome
      of the i-th path. */
  lemma {:induction false} TranscriptIsPerPath(fs: FileSystem, paths: seq<string>)
    ensures |Transcript(fs, paths)| == |paths|
    ensures forall i :: 0 <= i < |paths| ==> Transcript(fs, paths)[i] == Outcome(fs, paths[i])
  {
    if paths != [] {
      var init := paths[..|paths| - 1];
      TranscriptIsPerPath(fs, init);
      PathOutputIsOneLine(fs, paths[|paths| - 1]);
    }
  }

  /** The rows printed are exactly the expected rows: one per successful
      path, in argument order, and nothing else (no total row). */
  lemma {:induction false} RowsOfTranscript(fs: FileSystem, paths: seq<string>)
    ensures Rows(Transcript(fs, paths)) == ExpectedRows(fs, paths)
  {
    if paths != [] {
      var init := paths[..|paths| - 1];
      var p := paths[|paths| - 1];
      RowsOfTranscript(fs, init);
      PathOutputIsOneLine(fs, p);
      var out := Transcript(fs, paths);
      assert out[..|out| - 1] == Transcript(fs, init);
      if Succeeds(fs, p) {
        NewlineCountIsMultiplicity(Concat(fs[p].text.lines));
      }
    }
  }

  /** Every row names one of the arguments, and there are never more rows
      than arguments: no aggregate line is added. */
  lemma {:induction false} ExpectedRowsNameArguments(fs: FileSystem, paths: seq<string>)
    ensures |ExpectedRows(fs, paths)| <= |paths|
    ensures forall k :: 0 <= k < |ExpectedRows(fs, paths)| ==>
              ExpectedRows(fs, paths)[k].Row? && ExpectedRows(fs, paths)[k].path in paths
              && Succeeds(fs, ExpectedRows(fs, paths)[k].path)
  {
    if paths != [] {
      var init := paths[..|paths| - 1];
      ExpectedRowsNameArguments(fs, init);
      forall k | 0 <= k < |ExpectedRows(fs, init)|
        ensures ExpectedRows(fs, init)[k].path in paths
      {
        assert ExpectedRows(fs, init)[k].path in init;
      }
    }
  }

  /** The loop of `main` over the FILE arguments. */
  method Run(fs: FileSystem, paths: seq<string>) returns (out: seq<Output>)
    ensures out == Transcript(fs, paths)
    ensures |out| == |paths|
    ensures forall i :: 0 <= i < |paths| ==> out[i] == Outcome(fs, paths[i])
    ensures Rows(out) == ExpectedRows(fs, paths)
  {
    out := [];
    for i := 0 to |paths|
      invariant out == Transcript(fs, paths[..i])
    {
      var path := paths[i];
      var v := IsValidFile(fs, path);
      out := out + v.printed;
      if v.valid {
        var details, printed := GetDetails(path, fs[path].text);
        out := out + printed;
        if !details.err {
          out := out + [Row(details.newLines, path)];
        }
      }
      assert paths[..i + 1][..i] == paths[..i];
    }
    assert paths[..|paths|] == paths;
    TranscriptIsPerPath(fs, paths);
    RowsOfTranscript(fs, paths);
  }
}
