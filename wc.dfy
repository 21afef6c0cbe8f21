/** The per-file pieces of the `wc` rewrite: the newline counter with its
    error flag (`get_details`) and the path check (`is_valid_file`), over an
    abstract filesystem whose files are already-decoded lines of text. */
module Wc {
  import opened Newlines

  datatype Option<T> = None | Some(value: T)

  /** What reading one file delivers: its decoded lines, in order, and the
      point at which reading raises, if it does. `failsAt == Some(k)` means the
      request for line `k` raises (`k == 0` covers a failing `open`); a `k` at
      or past the last line means the error comes when the reader looks for
      more after the last line. */
  datatype FileText = FileText(lines: seq<string>, failsAt: Option<nat>)

  /** A filesystem entry: a regular file with its text, or something that
      exists but is not a regular file (a directory, a device, ...). A path
      with no entry does not exist. */
  datatype Entry = File(text: FileText) | NotAFile

  type FileSystem = map<string, Entry>

  /** One line the program writes to standard output: a report row
      `<new_lines> <path>`, or a diagnostic message. */
  datatype Output = Row(newLines: nat, path: string) | Message(text: string)

  /** The dictionary `get_details` builds and returns. */
  datatype Details = Details(err: bool, newLines: nat)

  /** The result of `is_valid_file`: its boolean and what it printed. */
  datatype Verdict = Verdict(valid: bool, printed: seq<Output>)

  const NoSuchFile: string := "No such file or directory: "
  const NotAFilePath: string := "Path is not a file: "
  const WentWrong: string := "Something went wrong while processing file: "

  /** Number of lines handed out before the reader stops (at the end, or at
      the line whose request raises). */
  function Reached(t: FileText): (n: nat)
    ensures n <= |t.lines|
    ensures t.failsAt.None? ==> n == |t.lines|
  {
    match t.failsAt
    case None => |t.lines|
    case Some(k) => if k < |t.lines| then k else |t.lines|
  }

  /** The lines the counting loop gets to see. */
  function Delivered(t: FileText): seq<string>
  {
    t.lines[..Reached(t)]
  }

  /** What `get_details` returns for a file: `err` is set exactly when reading
      raised, and `new_lines` is the number of '\n' in the lines read up to
      that point (it is not reset on an error). */
  function DetailsOf(t: FileText): Details
  {
    Details(err := t.failsAt.Some?, newLines := NewlineCount(Concat(Delivered(t))))
  }

  /** What `get_details` prints for a file: one message when reading raised. */
  function DetailsPrinted(path: string, t: FileText): seq<Output>
  {
    if t.failsAt.Some? then [Message(WentWrong + path)] else []
  }

  /** `get_details`: starts from `err = False, new_lines = 0`, walks every
      character of every line and adds one per '\n'; when reading raises it
      prints a message, sets `err` and still returns the record. */
  method GetDetails(path: string, t: FileText) returns (d: Details, printed: seq<Output>)
    ensures d == DetailsOf(t)
    ensures printed == DetailsPrinted(path, t)
    ensures !d.err ==> d.newLines == multiset(Concat(t.lines))[Terminator]
  {
    d := Details(err := false, newLines := 0);
    printed := [];
    var i := 0;
    while i < |t.lines| && !(t.failsAt.Some? && t.failsAt.value <= i)
      invariant 0 <= i <= Reached(t)
      invariant !d.err
      invariant d.newLines == NewlineCount(Concat(t.lines[..i]))
    {
      var line := t.lines[i];
      ghost var before := d.newLines;
      for j := 0 to |line|
        invariant d.newLines == before + NewlineCount(line[..j])
        invariant !d.err
      {
        NewlineCountStep(line, j);
        if line[j] == Terminator {
          d := d.(newLines := d.newLines + 1);
        }
      }
      assert line[..|line|] == line;
      ConcatStep(t.lines, i);
      NewlineCountAppend(Concat(t.lines[..i]), line);
      i := i + 1;
    }
    if t.failsAt.Some? {
      printed := printed + [Message(WentWrong + path)];
      d := d.(err := true);
    }
    if !d.err {
      assert t.lines[..i] == t.lines;
      NewlineCountIsMultiplicity(Concat(t.lines));
    }
  }

  /** On success the count is the number of '\n' in the whole text; on an
      error the partial count is at most that number. */
  lemma DetailsCountsNewlines(t: FileText)
    ensures DetailsOf(t).err <==> t.failsAt.Some?
    ensures DetailsOf(t).newLines <= NewlineCount(Concat(t.lines))
    ensures !DetailsOf(t).err ==> DetailsOf(t).newLines == multiset(Concat(t.lines))[Terminator]
  {
    LinePrefixCount(t.lines, Reached(t));
    if t.failsAt.None? {
      assert Delivered(t) == t.lines;
      NewlineCountIsMultiplicity(Concat(t.lines));
    }
  }

  /** The partial count never exceeds the characters read before the error. */
  lemma DetailsBoundedByCharsRead(t: FileText)
    ensures DetailsOf(t).newLines <= |Concat(Delivered(t))|
  {
    NewlineCountBound(Concat(Delivered(t)));
  }

  /** A file whose readable text holds no '\n' (the empty file among them)
      gets `new_lines = 0`, and `err = False` when reading succeeds. */
  lemma DetailsOfTextWithoutNewline(t: FileText)
    requires Terminator !in Concat(t.lines)
    ensures DetailsOf(t).newLines == 0
    ensures t.failsAt.None? ==> DetailsOf(t) == Details(err := false, newLines := 0)
  {
    DetailsCountsNewlines(t);
    NewlineCountZero(Concat(t.lines));
  }

  /** `is_valid_file`: true iff the path exists and is a regular file; a
      missing path and an existing non-file each print their own message. */
  function IsValidFile(fs: FileSystem, path: string): (v: Verdict)
    ensures v.valid <==> path in fs && fs[path].File?
    ensures path !in fs ==> v.printed == [Message(NoSuchFile + path)]
    ensures path in fs && fs[path].NotAFile? ==> v.printed == [Message(NotAFilePath + path)]
    ensures v.valid ==> v.printed == []
  {
    if path !in fs then Verdict(false, [Message(NoSuchFile + path)])
    else if !fs[path].File? then Verdict(false, [Message(NotAFilePath + path)])
    else Verdict(true, [])
  }

  /** The message of a rejected path names the path and tells the two
      rejections apart: different paths or different cases never print the
      same line. */
  lemma DiagnosticsAreDistinct(fs: FileSystem, p: string, q: string)
    requires !IsValidFile(fs, p).valid && !IsValidFile(fs, q).valid
    requires IsValidFile(fs, p).printed == IsValidFile(fs, q).printed
    ensures p == q
  {
    var mp := IsValidFile(fs, p).printed[0].text;
    var mq := IsValidFile(fs, q).printed[0].text;
    assert mp[0] == mq[0];
    if p in fs {
      assert mp[0] == 'P';
      assert mq[0] == 'P';
      assert q in fs;
      assert p == mp[|NotAFilePath|..] == mq[|NotAFilePath|..] == q;
    } else {
      assert mq[0] == 'N';
      assert p == mp[|NoSuchFile|..] == mq[|NoSuchFile|..] == q;
    }
  }
}
