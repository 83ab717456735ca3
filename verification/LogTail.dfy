/** internal/provider/lambda/lambda.go: following the remote log and event files of one job by polling.
    Redacting a line, and deciding whether a line is a structured event, are parameters. */
module LogTail {
  import opened Wrappers
  import opened App

  /** The scanner gives up on a line that, with its newline, does not fit in its buffer. */
  const MAX_TOKEN := 16 * 1024 * 1024

  // ---------- Lines ----------

  /** The length of the first line, without its newline. */
  function LineLength(s: string): (n: nat)
    ensures n <= |s| && forall i :: 0 <= i < n ==> s[i] != '\n'
    ensures n < |s| ==> s[n] == '\n'
  {
    if s == "" || s[0] == '\n' then 0 else LineLength(s[1..]) + 1
  }

  function AfterLine(s: string): (rest: string)
    ensures s != "" ==> |rest| < |s|
  {
    var n := LineLength(s);
    if n < |s| then s[n + 1..] else ""
  }

  /** Position `n` is the start of a line. */
  predicate LineStart(s: string, n: nat) {
    n <= |s| && (n == 0 || s[n - 1] == '\n')
  }

  /** Nothing, or whole lines. */
  predicate WholeLines(s: string) {
    LineStart(s, |s|)
  }

  /** The start of the line that is not complete yet. */
  function CompleteLength(s: string): (n: nat)
    ensures LineStart(s, n) && forall i :: n <= i < |s| ==> s[i] != '\n'
  {
    if s == "" || s[|s| - 1] == '\n' then |s| else CompleteLength(s[..|s| - 1])
  }

  function Complete(s: string): (c: string)
    ensures WholeLines(c)
  {
    s[..CompleteLength(s)]
  }

  lemma {:induction false} CompleteLengthUnique(s: string, n: nat)
    requires LineStart(s, n) && forall i :: n <= i < |s| ==> s[i] != '\n'
    ensures CompleteLength(s) == n
  {
  }

  lemma {:induction false} CompleteLengthGrows(s: string, t: string)
    requires s <= t
    ensures CompleteLength(s) <= CompleteLength(t) && Complete(s) <= Complete(t)
  {
    var m := CompleteLength(s);
    assert m == 0 || t[m - 1] == '\n';
  }

  // ---------- completeContent ----------

  function LastNewline(s: string): (i: int)
    ensures i == CompleteLength(s) - 1
  {
    if s == "" then -1 else if s[|s| - 1] == '\n' then |s| - 1 else LastNewline(s[..|s| - 1])
  }

  function CompleteContent(content: string, offset: nat): (string, nat) {
    if offset >= |content| then ("", offset)
    else
      var next := content[offset..];
      if next[|next| - 1] == '\n' then (next, |content|)
      else
        var lastNewline := LastNewline(next);
        if lastNewline < 0 then ("", offset)
        else var end := offset + lastNewline + 1; (content[offset..end], end)
  }

  lemma {:induction false} SuffixComplete(content: string, offset: nat)
    requires offset <= CompleteLength(content)
    ensures CompleteLength(content[offset..]) == CompleteLength(content) - offset
  {
    var c, next := CompleteLength(content), content[offset..];
    assert forall i :: 0 <= i < |next| ==> next[i] == content[offset + i];
    CompleteLengthUnique(next, c - offset);
  }

  lemma {:induction false} CompleteContentIs(content: string, offset: nat)
    requires offset <= CompleteLength(content)
    ensures CompleteContent(content, offset) == (content[offset..CompleteLength(content)], CompleteLength(content))
  {
    var c := CompleteLength(content);
    SuffixComplete(content, offset);
    if offset == |content| {
      assert content[offset..c] == "";
    } else if content[offset..][|content| - offset - 1] == '\n' {
      assert c == |content| && content[offset..c] == content[offset..];
    } else if c == offset {
      assert content[offset..c] == "";
    }
  }

  // ---------- Redaction, line by line ----------

  function RedactLines(s: string, redactLine: string -> string): string
    decreases |s|
  {
    if s == "" then ""
    else
      var n := LineLength(s);
      if n == |s| then redactLine(s) else redactLine(s[..n]) + "\n" + RedactLines(s[n + 1..], redactLine)
  }

  function SplitAfter(s: string): seq<string>
    decreases |s|
  {
    var n := LineLength(s);
    if n == |s| then [s] else [s[..n + 1]] + SplitAfter(s[n + 1..])
  }

  /** One part of `SplitAfter`, redacted. */
  ghost function RedactPart(part: string, redactLine: string -> string): string {
    if part == "" then ""
    else if part[|part| - 1] == '\n' then redactLine(part[..|part| - 1]) + "\n"
    else redactLine(part)
  }

  ghost function RedactParts(parts: seq<string>, redactLine: string -> string): string {
    if parts == [] then "" else RedactPart(parts[0], redactLine) + RedactParts(parts[1..], redactLine)
  }

  lemma {:induction false} RedactPartsOfSplit(s: string, redactLine: string -> string)
    ensures RedactParts(SplitAfter(s), redactLine) == RedactLines(s, redactLine)
    decreases |s|
  {
    var n := LineLength(s);
    if n == |s| {
      assert s[..n] == s;
      assert RedactParts([s], redactLine) == RedactLines(s, redactLine) + "";
    } else {
      RedactPartsOfSplit(s[n + 1..], redactLine);
      assert s[..n + 1][..n] == s[..n];
    }
  }

  lemma {:induction false} NextPart(out: string, parts: seq<string>, i: nat, redactLine: string -> string)
    requires i < |parts|
    ensures out + RedactParts(parts[i..], redactLine)
         == (out + RedactPart(parts[i], redactLine)) + RedactParts(parts[i + 1..], redactLine)
  {
    assert parts[i..][0] == parts[i] && parts[i..][1..] == parts[i + 1..];
  }

  method RedactedLogContent(content: string, redactLine: string -> string) returns (out: string)
    ensures out == RedactLines(content, redactLine)
  {
    RedactPartsOfSplit(content, redactLine);
    var parts := SplitAfter(content);
    out := "";
    for i := 0 to |parts|
      invariant out + RedactParts(parts[i..], redactLine) == RedactLines(content, redactLine)
    {
      var part := parts[i];
      NextPart(out, parts, i, redactLine);
      ghost var next := out + RedactPart(part, redactLine);
      if part == "" {
        assert next == out;
        continue;
      }
      if part[|part| - 1] == '\n' {
        var line := part[..|part| - 1];
        out := out + redactLine(line);
        out := out + "\n";
        assert next == out;
        continue;
      }
      out := out + redactLine(part);
    }
  }

  lemma {:induction false} LineOfConcat(a: string, b: string)
    requires a != "" && WholeLines(a)
    ensures LineLength(a + b) == LineLength(a) < |a|
    ensures (a + b)[..LineLength(a)] == a[..LineLength(a)]
    ensures AfterLine(a + b) == AfterLine(a) + b && WholeLines(AfterLine(a))
  {
    var n := LineLength(a);
    FirstLineUnique(a + b, n);
    assert (a + b)[n + 1..] == a[n + 1..] + b;
  }

  lemma {:induction false} FirstLineUnique(s: string, n: nat)
    requires n < |s| && s[n] == '\n' && forall i :: 0 <= i < n ==> s[i] != '\n'
    ensures LineLength(s) == n
  {
  }

  /** Redaction distributes over splits at line ends. */
  lemma {:induction false} RedactLinesSplit(a: string, b: string, redactLine: string -> string)
    requires WholeLines(a)
    ensures RedactLines(a + b, redactLine) == RedactLines(a, redactLine) + RedactLines(b, redactLine)
    decreases |a|
  {
    if a == "" {
      assert a + b == b;
    } else {
      LineOfConcat(a, b);
      RedactLinesSplit(AfterLine(a), b, redactLine);
      var head := redactLine(a[..LineLength(a)]) + "\n";
      assert head + (RedactLines(AfterLine(a), redactLine) + RedactLines(b, redactLine))
          == (head + RedactLines(AfterLine(a), redactLine)) + RedactLines(b, redactLine);
    }
  }

  // ---------- Scanning for events ----------

  function DropCR(line: string): string {
    if line != "" && line[|line| - 1] == '\r' then line[..|line| - 1] else line
  }

  datatype Scanned = Scanned(lines: seq<string>, tooLong: bool)

  /** The lines the scanner yields, and whether it stopped at a line that does not fit. */
  function ScanLines(s: string): Scanned
    decreases |s|
  {
    if s == "" then Scanned([], false)
    else if LineLength(s) >= MAX_TOKEN then Scanned([], true)
    else
      var rest := ScanLines(AfterLine(s));
      Scanned([DropCR(s[..LineLength(s)])] + rest.lines, rest.tooLong)
  }

  lemma {:induction false} ScanStep(a: string, b: string)
    requires a != "" && WholeLines(a)
    ensures ScanLines(a + b) ==
            if LineLength(a) >= MAX_TOKEN then Scanned([], true)
            else Scanned([DropCR(a[..LineLength(a)])] + ScanLines(AfterLine(a) + b).lines, ScanLines(AfterLine(a) + b).tooLong)
  {
    LineOfConcat(a, b);
  }

  lemma {:induction false} ScanLinesSplit(a: string, b: string)
    requires WholeLines(a)
    ensures ScanLines(a + b).tooLong <==> ScanLines(a).tooLong || ScanLines(b).tooLong
    ensures !ScanLines(a).tooLong ==> ScanLines(a + b).lines == ScanLines(a).lines + ScanLines(b).lines
    decreases |a|
  {
    if a == "" {
      assert a + b == b;
    } else {
      ScanStep(a, b);
      ScanStep(a, "");
      assert a + "" == a && AfterLine(a) + "" == AfterLine(a);
      if LineLength(a) < MAX_TOKEN {
        LineOfConcat(a, "");
        ScanLinesSplit(AfterLine(a), b);
        Prefixed([DropCR(a[..LineLength(a)])], ScanLines(AfterLine(a)).lines, ScanLines(b).lines);
      }
    }
  }

  lemma {:induction false} Prefixed(a: seq<string>, b: seq<string>, c: seq<string>)
    ensures a + (b + c) == (a + b) + c
  {
  }

  /** The structured lines not emitted before, each once, added in order. */
  function Emit(emitted: seq<string>, lines: seq<string>, structured: string -> bool): seq<string>
    decreases |lines|
  {
    if lines == [] then emitted
    else
      Emit(if structured(lines[0]) && lines[0] !in emitted then emitted + [lines[0]] else emitted, lines[1..], structured)
  }

  lemma {:induction false} EmitAppend(emitted: seq<string>, a: seq<string>, b: seq<string>, structured: string -> bool)
    ensures Emit(emitted, a + b, structured) == Emit(Emit(emitted, a, structured), b, structured)
    decreases |a|
  {
    if a == [] {
      assert a + b == b;
    } else {
      assert (a + b)[1..] == a[1..] + b;
      var next := if structured(a[0]) && a[0] !in emitted then emitted + [a[0]] else emitted;
      EmitAppend(next, a[1..], b, structured);
    }
  }

  ghost predicate NoRepeats(s: seq<string>) {
    forall i, j :: 0 <= i < j < |s| ==> s[i] != s[j]
  }

  /** What `Emit` adds, independently of how: no repeats, the structured lines, nothing else, and
      nothing already there is moved. */
  lemma {:induction false} EmitIs(emitted: seq<string>, lines: seq<string>, structured: string -> bool)
    requires NoRepeats(emitted)
    ensures NoRepeats(Emit(emitted, lines, structured)) && emitted <= Emit(emitted, lines, structured)
    ensures forall x :: x in Emit(emitted, lines, structured) <==> x in emitted || (x in lines && structured(x))
    decreases |lines|
  {
    if lines != [] {
      var next := if structured(lines[0]) && lines[0] !in emitted then emitted + [lines[0]] else emitted;
      assert forall x :: x in next <==> x in emitted || (x == lines[0] && structured(x));
      EmitIs(next, lines[1..], structured);
      assert forall x :: x in lines <==> x == lines[0] || x in lines[1..];
    }
  }

  /** Emission follows the order of first appearance: a line emitted before another appears first
      among the processed lines. */
  lemma {:induction false} EmitKeepsOrder(lines: seq<string>, structured: string -> bool, k: nat)
    requires k <= |lines|
    ensures Emit([], lines[..k], structured) <= Emit([], lines, structured)
  {
    assert lines == lines[..k] + lines[k..];
    EmitAppend([], lines[..k], lines[k..], structured);
    EmitIs([], lines[..k], structured);
    EmitIs(Emit([], lines[..k], structured), lines[k..], structured);
  }
}
