/**
 Splitting a text into lines and joining lines back.

 The splitter is the regular expression /.*(?:\r\n|\n|\r|$)/g, so '.' also stops at the two Unicode
 separators U+2028 and U+2029, which the group that follows does not accept: the text before such a
 separator on its line, and the separator, take part in no match and are lost.
 */
module TextLines {
  type Line = string

  const LF: char := '\n'
  const CR: char := '\r'
  const LS: char := '\U{2028}'
  const PS: char := '\U{2029}'

  predicate IsBreak(c: char) { c == LF || c == CR }

  predicate IsSeparator(c: char) { c == LS || c == PS }

  /** The characters '.' does not match. */
  predicate StopsDot(c: char) { IsBreak(c) || IsSeparator(c) }

  predicate SeparatorFree(text: string) { forall c | c in text :: !IsSeparator(c) }

  /** How many characters '.*' consumes at the start of `text`. */
  function DotRun(text: string): (n: nat)
    ensures n <= |text|
    ensures forall k | 0 <= k < n :: !StopsDot(text[k])
    ensures n < |text| ==> StopsDot(text[n])
  {
    if text == [] || StopsDot(text[0]) then 0 else 1 + DotRun(text[1..])
  }

  /** The matches of the regular expression without the final empty one, which the source pops. */
  function SplitLines(text: string): seq<Line>
    decreases |text|
  {
    if text == [] then []
    else
      var n := DotRun(text);
      if n == |text| then [text]
      else if IsSeparator(text[n]) then SplitLines(text[n + 1..])
      else
        var m := LineEnd(text, n);
        [text[..m]] + SplitLines(text[m..])
  }

  /** The end of the terminator that starts at `n`: CRLF is one terminator. */
  function LineEnd(text: string, n: nat): (m: nat)
    requires n < |text|
    ensures n < m <= |text|
  {
    if text[n] == CR && n + 1 < |text| && text[n + 1] == LF then n + 2 else n + 1
  }

  function Join(lines: seq<Line>): string {
    if lines == [] then [] else lines[0] + Join(lines[1..])
  }

  /** A line that carries its own terminator: LF, CR or CRLF, and no other break character. */
  predicate Terminated(line: Line) {
    && line != []
    && (var n := DotRun(line);
        || (n + 1 == |line| && IsBreak(line[n]))
        || (n + 2 == |line| && line[n] == CR && line[n + 1] == LF))
  }

  /** The line sequences the splitter can produce: all lines but the last are terminated, the last is
      not empty, and no CR line is followed by a line that starts with LF. */
  predicate Canonical(lines: seq<Line>) {
    lines != [] ==>
      && (Terminated(lines[0]) || (|lines| == 1 && lines[0] != [] && DotRun(lines[0]) == |lines[0]|))
      && (|lines| > 1 ==> !(Last(lines[0]) == CR && lines[1] != [] && lines[1][0] == LF))
      && Canonical(lines[1..])
  }

  function Last(line: Line): char { if line == [] then ' ' else line[|line| - 1] }

  lemma JoinLength(text: string)
    ensures |Join(SplitLines(text))| <= |text|
    decreases |text|
  {
    if text != [] {
      var n := DotRun(text);
      if n == |text| {
        assert Join([text]) == text + Join([]);
      } else if IsSeparator(text[n]) {
        JoinLength(text[n + 1..]);
      } else {
        var m := LineEnd(text, n);
        JoinLength(text[m..]);
        assert SplitLines(text)[1..] == SplitLines(text[m..]);
      }
    }
  }

  lemma SeparatorFreeSplits(text: string, m: nat)
    requires m <= |text|
    ensures SeparatorFree(text) <==> SeparatorFree(text[..m]) && SeparatorFree(text[m..])
  {
    assert text == text[..m] + text[m..];
    assert forall c :: c in text <==> c in text[..m] || c in text[m..];
  }

  /** Splitting and joining restores exactly the texts without U+2028 and U+2029. */
  lemma {:induction false} SplitJoinRoundTrip(text: string)
    ensures Join(SplitLines(text)) == text <==> SeparatorFree(text)
    decreases |text|
  {
    if text != [] {
      var n := DotRun(text);
      if n == |text| {
        assert Join([text]) == text + Join([]);
      } else if IsSeparator(text[n]) {
        JoinLength(text[n + 1..]);
        assert text[n] in text;
      } else {
        var m := LineEnd(text, n);
        var head, rest := text[..m], text[m..];
        SplitJoinRoundTrip(rest);
        SeparatorFreeSplits(text, m);
        LineHasNoSeparator(text);
        JoinCons(head, SplitLines(rest));
        CancelHead(head, Join(SplitLines(rest)), rest);
        assert text == head + rest;
      }
    }
  }

  lemma LineHasNoSeparator(text: string)
    requires DotRun(text) < |text| && IsBreak(text[DotRun(text)])
    ensures SeparatorFree(text[..LineEnd(text, DotRun(text))])
  {
  }

  lemma CancelHead(head: string, a: string, b: string)
    ensures head + a == head + b <==> a == b
  {
    assert (head + a)[|head|..] == a && (head + b)[|head|..] == b;
  }

  lemma JoinCons(head: Line, rest: seq<Line>)
    ensures Join([head] + rest) == head + Join(rest)
  {
    assert ([head] + rest)[1..] == rest;
  }

  lemma DotRunOfPrefix(text: string, more: string)
    requires DotRun(text) < |text|
    ensures DotRun(text + more) == DotRun(text)
  {
    if !StopsDot(text[0]) {
      assert (text + more)[1..] == text[1..] + more;
      DotRunOfPrefix(text[1..], more);
    }
  }

  /** The other direction: the splitter returns any canonical line sequence unchanged. */
  lemma {:induction false} JoinSplitRoundTrip(lines: seq<Line>)
    requires Canonical(lines)
    ensures SplitLines(Join(lines)) == lines
  {
    if lines != [] {
      JoinSplitRoundTrip(lines[1..]);
      var head, rest := lines[0], Join(lines[1..]);
      if Terminated(head) {
        var n := DotRun(head);
        DotRunOfPrefix(head, rest);
        if |lines| > 1 {
          assert rest[0] == lines[1][0];
        }
        assert (head + rest)[..|head|] == head && (head + rest)[|head|..] == rest;
      } else {
        assert rest == [] && head + rest == head;
      }
    }
  }

  /** What the splitter returns is canonical, for every text without separators. */
  lemma {:induction false} SplitIsCanonical(text: string)
    requires SeparatorFree(text)
    ensures Canonical(SplitLines(text))
    ensures text != [] ==> SplitLines(text) != [] && SplitLines(text)[0] != [] && SplitLines(text)[0][0] == text[0]
    decreases |text|
  {
    if text != [] {
      var n := DotRun(text);
      if n < |text| {
        assert text[n] in text;
        var m := LineEnd(text, n);
        SeparatorFreeSplits(text, m);
        SplitIsCanonical(text[m..]);
        LineIsTerminated(text);
        assert SplitLines(text)[1..] == SplitLines(text[m..]);
      } else {
        assert [text][1..] == [];
      }
    }
  }

  lemma LineIsTerminated(text: string)
    requires DotRun(text) < |text| && IsBreak(text[DotRun(text)])
    ensures var m := LineEnd(text, DotRun(text));
      Terminated(text[..m]) && Last(text[..m]) == text[m - 1] && !(m < |text| && text[m - 1] == CR && text[m] == LF)
  {
    DotRunOfTake(text, LineEnd(text, DotRun(text)));
  }

  lemma DotRunOfTake(text: string, m: nat)
    requires DotRun(text) < m <= |text|
    ensures DotRun(text[..m]) == DotRun(text)
  {
    if !StopsDot(text[0]) {
      assert text[..m][1..] == text[1..][..m - 1];
      DotRunOfTake(text[1..], m - 1);
    }
  }
}
