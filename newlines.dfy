/** Specification of what `wc -l` counts: the '\n' characters of the decoded
    text of a file, and how that count behaves when the text is read line by
    line. Everything here is pure; the counting loop itself is Wc.GetDetails. */
module Newlines {

  /** The line terminator that the counter looks for. */
  const Terminator: char := '\n'

  /** Number of terminators in `s`, defined from the last character so that a
      left-to-right scan extends it one character at a time. */
  function NewlineCount(s: string): nat
  {
    if s == [] then 0
    else NewlineCount(s[..|s| - 1]) + (if s[|s| - 1] == Terminator then 1 else 0)
  }

  /** The text of a file read as a sequence of lines, glued back together. */
  function Concat(lines: seq<string>): string
  {
    if lines == [] then [] else Concat(lines[..|lines| - 1]) + lines[|lines| - 1]
  }

  /** Sum of the per-line counts: what the nested `for line` / `for c` loops add up. */
  function SumOfLineCounts(lines: seq<string>): nat
  {
    if lines == [] then 0
    else SumOfLineCounts(lines[..|lines| - 1]) + NewlineCount(lines[|lines| - 1])
  }

  /** Scanning one more character of `s` adds one exactly when it is a
      terminator. */
  lemma NewlineCountStep(s: string, j: nat)
    requires j < |s|
    ensures NewlineCount(s[..j + 1]) == NewlineCount(s[..j]) + (if s[j] == Terminator then 1 else 0)
  {
    assert s[..j + 1][..j] == s[..j];
  }

  /** Reading one more line appends it to the text read so far. */
  lemma ConcatStep(lines: seq<string>, i: nat)
    requires i < |lines|
    ensures Concat(lines[..i + 1]) == Concat(lines[..i]) + lines[i]
  {
    assert lines[..i + 1][..i] == lines[..i];
  }

  /** Counting distributes over concatenation. */
  lemma {:induction false} NewlineCountAppend(a: string, b: string)
    ensures NewlineCount(a + b) == NewlineCount(a) + NewlineCount(b)
    decreases |b|
  {
    if b != [] {
      var b' := b[..|b| - 1];
      assert (a + b)[..|a + b| - 1] == a + b';
      NewlineCountAppend(a, b');
    } else {
      assert a + b == a;
    }
  }

  /** The count is the multiplicity of '\n' in the text, an order-free
      definition independent of the scan. */
  lemma {:induction false} NewlineCountIsMultiplicity(s: string)
    ensures NewlineCount(s) == multiset(s)[Terminator]
  {
    if s != [] {
      var s' := s[..|s| - 1];
      assert s == s' + [s[|s| - 1]];
      NewlineCountIsMultiplicity(s');
    }
  }

  /** The count never exceeds the number of characters, and reaches it exactly
      when every character is a terminator. */
  lemma {:induction false} NewlineCountBound(s: string)
    ensures NewlineCount(s) <= |s|
    ensures NewlineCount(s) == |s| <==> forall i :: 0 <= i < |s| ==> s[i] == Terminator
  {
    if s != [] {
      var s' := s[..|s| - 1];
      NewlineCountBound(s');
      if NewlineCount(s) == |s| {
        forall i | 0 <= i < |s| ensures s[i] == Terminator {
          if i < |s| - 1 { assert s[i] == s'[i]; }
        }
      }
    }
  }

  /** A text has count zero exactly when it holds no terminator. */
  lemma {:induction false} NewlineCountZero(s: string)
    ensures NewlineCount(s) == 0 <==> Terminator !in s
  {
    if s != [] {
      var s' := s[..|s| - 1];
      assert s == s' + [s[|s| - 1]];
      NewlineCountZero(s');
    }
  }

  /** Reading further never lowers the count: a prefix has at most the
      count of the whole text. */
  lemma NewlineCountPrefix(s: string, k: nat)
    requires k <= |s|
    ensures NewlineCount(s[..k]) <= NewlineCount(s)
  {
    assert s == s[..k] + s[k..];
    NewlineCountAppend(s[..k], s[k..]);
  }

  /** Gluing two groups of lines is gluing their texts. */
  lemma {:induction false} ConcatAppend(xs: seq<string>, ys: seq<string>)
    ensures Concat(xs + ys) == Concat(xs) + Concat(ys)
    decreases |ys|
  {
    if ys == [] {
      assert xs + ys == xs;
    } else {
      var ys' := ys[..|ys| - 1];
      assert (xs + ys)[..|xs + ys| - 1] == xs + ys';
      ConcatAppend(xs, ys');
    }
  }

  /** Counting line by line gives the count of the whole text. */
  lemma {:induction false} SumOfLineCountsIsCount(lines: seq<string>)
    ensures SumOfLineCounts(lines) == NewlineCount(Concat(lines))
  {
    if lines != [] {
      var init := lines[..|lines| - 1];
      SumOfLineCountsIsCount(init);
      NewlineCountAppend(Concat(init), lines[|lines| - 1]);
    }
  }

  /** However a text is split into lines, the line-by-line sum is the same. */
  lemma SplitDoesNotMatter(xs: seq<string>, ys: seq<string>)
    requires Concat(xs) == Concat(ys)
    ensures SumOfLineCounts(xs) == SumOfLineCounts(ys)
  {
    SumOfLineCountsIsCount(xs);
    SumOfLineCountsIsCount(ys);
  }

  /** The lines read before a failure carry at most the count of all lines. */
  lemma LinePrefixCount(lines: seq<string>, k: nat)
    requires k <= |lines|
    ensures NewlineCount(Concat(lines[..k])) <= NewlineCount(Concat(lines))
  {
    assert lines == lines[..k] + lines[k..];
    ConcatAppend(lines[..k], lines[k..]);
    NewlineCountAppend(Concat(lines[..k]), Concat(lines[k..]));
  }
}
