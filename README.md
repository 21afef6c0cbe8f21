# wc_python: a verified model of the newline counter

`wc_python` is a small rewrite of the Unix `wc` utility. What it actually
does is this. For every FILE argument, in the order given, it checks that the
path exists and is a regular file. If so, it reads the file as text and counts
the `'\n'` characters. It then prints `<count> <path>`. There are three
diagnostics: "No such file or directory: <path>", "Path is not a file: <path>"
and "Something went wrong while processing file: <path>". The last one is
printed when reading raises an exception. That file then gets no row.

The model has three modules:

- `Newlines` (newlines.dfy) defines what is counted. `NewlineCount` counts
  the `'\n'` of a text and `Concat` glues lines back into a text. Lemmas
  relate them to the multiset of characters, to concatenation and to any
  way of splitting the text into lines.
- `Wc` (wc.dfy) holds the data model and the two per-path operations.
  A file's decoded text is `FileText(lines, failsAt)`. It holds the lines the
  reader yields, in order, and optionally the line request that raises.
  `failsAt == Some(0)` stands for a failing `open`. The filesystem is a
  `map` from path to `File(text)` or `NotAFile`; a missing key is a missing
  path. `GetDetails` is the nested `for line` / `for c` loop, written as a
  method with loops. It is proved against the specification `DetailsOf`.
  `IsValidFile` is the three-way path check.
- `WcMain` (report.dfy) models the loop in `main`. `Run` goes over the
  paths and returns everything printed, as a sequence of `Output` values
  (`Row(newLines, path)` or `Message(text)`). It is proved equal to
  `Transcript`, and the lemmas show that this is one line per argument.

Each path produces exactly one printed line: the row, or exactly one of
the three diagnostics. The rows are exactly the successful paths, in argument
order, each with the number of `'\n'` in the file's text. No total row exists.

The program is narrower than the Unix `wc` it imitates, and the model follows
the program. It counts only newlines. It never reads standard input: `-` is looked up as an ordinary
path, and an empty FILE list prints nothing, although the argument's help
text says that both read standard input. It emits no TOTAL row, and words,
bytes, characters and maximum line length do not exist.

## Model

| member | source | states |
|---|---|---|
| `Newlines.NewlineCountStep` | wc/__main__.py:18-20 | looking at one more character adds one to the count exactly when it is `'\n'`, so the count never decreases during the scan |
| `Newlines.ConcatStep` | wc/__main__.py:17 | taking the next line appends it to the text read so far |
| `Newlines.NewlineCountAppend` | wc/__main__.py:17-20 | the count of a concatenation is the sum of the counts |
| `Newlines.NewlineCountIsMultiplicity` | wc/__main__.py:19-20 | the count equals the number of occurrences of `'\n'` in the text (its multiplicity in the multiset of characters) |
| `Newlines.NewlineCountBound` | wc/__main__.py:18-20 | the count never exceeds the number of characters visited, and equals it iff every character is `'\n'` |
| `Newlines.NewlineCountZero` | wc/__main__.py:9-20 | the count stays at its initial 0 iff the text contains no `'\n'` |
| `Newlines.NewlineCountPrefix` | wc/__main__.py:18-20 | the count of any prefix is at most the count of the whole text (monotone scan) |
| `Newlines.ConcatAppend` | wc/__main__.py:17 | gluing two groups of lines gives the concatenation of their texts |
| `Newlines.SumOfLineCountsIsCount` | wc/__main__.py:17-20 | the sum of per-line counts equals the count over the concatenated text |
| `Newlines.SplitDoesNotMatter` | wc/__main__.py:17-20 | two line splittings of the same text give the same line-by-line sum |
| `Newlines.LinePrefixCount` | wc/__main__.py:17-23 | the lines read before a failure hold at most as many `'\n'` as all lines |
| `Wc.GetDetails` | wc/__main__.py:4-30 | starting from `err = False, new_lines = 0`, returns `err` iff reading raised, and `new_lines` equal to the number of `'\n'` in the lines read up to that point (the partial count is kept on error). It prints the "Something went wrong" message iff reading raised. On success, `new_lines` is the multiplicity of `'\n'` in the whole text |
| `Wc.DetailsCountsNewlines` | wc/__main__.py:9-30 | `err` is set iff reading raised; `new_lines` is always at most the full-text count and equals the multiplicity of `'\n'` when `err` is false |
| `Wc.DetailsBoundedByCharsRead` | wc/__main__.py:17-23 | `new_lines` never exceeds the number of characters read before the reader stopped |
| `Wc.DetailsOfTextWithoutNewline` | wc/__main__.py:9-20 | a text without `'\n'` (an empty file, say) gives `new_lines = 0`, and the initial record `err = False, new_lines = 0` when reading succeeds |
| `Wc.IsValidFile` | wc/__main__.py:32-43 | true iff the path exists and is a regular file. A missing path prints "No such file or directory: path" and an existing non-file prints "Path is not a file: path", both returning false. A valid path prints nothing |
| `Wc.DiagnosticsAreDistinct` | wc/__main__.py:37-42 | two rejected paths print the same diagnostic only if they are the same path, so the message identifies the path |
| `WcMain.PathOutputIsOneLine` | wc/__main__.py:54-58 | handling one path prints exactly one line, the case-by-case `Outcome`. That line is a row iff the path is a regular file read without error |
| `WcMain.TranscriptIsPerPath` | wc/__main__.py:54-58 | the printed output has one line per argument, and line i is the outcome of argument i, in argument order |
| `WcMain.RowsOfTranscript` | wc/__main__.py:54-58 | the rows printed are exactly one `(count, path)` per successful path, in argument order, with count = number of `'\n'` in its text |
| `WcMain.ExpectedRowsNameArguments` | wc/__main__.py:54-58 | every row names an argument that succeeded, and there are never more rows than arguments (no aggregate row) |
| `WcMain.Run` | wc/__main__.py:54-58 | the loop prints the transcript: one line per argument in order, line i being the outcome of path i, and the rows are exactly the expected rows. An empty argument list prints nothing |

## Left out

- Argument parsing with argparse (wc/__main__.py:47-52): `Run` takes the FILE list directly. The `-l` flag is parsed but never used by the code, so it has no effect to model.
- Opening, decoding and closing files (wc/__main__.py:16, 25-28): the model takes the decoded lines. Encoding and universal-newline translation (`\r\n` and `\r` read as `\n`) happen before the model's input. Every exception during `open` or iteration becomes the `failsAt` point; a failing `close` is swallowed in the source and has no effect.
- `exists` and `isfile` are a fixed filesystem snapshot. A file that changes between the check and the read is modelled only through `failsAt`, not as a second lookup.
- Printing: output is a returned sequence of `Output` values. The text layout of a row (`print(n, path)`: the number, a space, the path) is not rendered to characters.
- Words, bytes, characters, maximum line length, a TOTAL row and reading standard input for `-` or for an empty FILE list: the code has none of these.
