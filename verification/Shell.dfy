/** internal/provider/lambda/cloudinit.go (and the same quoting in chinacloud/vm_runtime.go): quoting
    a command line for the shell, and embedding a script in a cloud-init document. The reader of command
    lines follows sections 2.2.1-2.2.3 and 2.3 of the POSIX.1-2017 Shell Command Language. The reader of
    documents only removes the indentation from the block of the script: how a YAML parser detects that
    indentation and treats the line ends at the end of a block is not modelled. */
module Shell {
  import opened Wrappers
  import opened Strings

  const QUOTED_QUOTE := "'\"'\"'"

  function ShellQuote(value: string): string {
    if value == "" then "''" else "'" + ReplaceAll(value, "'", QUOTED_QUOTE) + "'"
  }

  function QuoteAll(args: seq<string>): (quoted: seq<string>)
    ensures |quoted| == |args|
  {
    if args == [] then [] else [ShellQuote(args[0])] + QuoteAll(args[1..])
  }

  function CommandLine(args: seq<string>): string {
    Join(QuoteAll(args), " ")
  }

  method ShellCommand(args: seq<string>) returns (line: string)
    ensures line == CommandLine(args)
  {
    var quoted := [];
    for i := 0 to |args|
      invariant quoted + QuoteAll(args[i..]) == QuoteAll(args)
    {
      assert args[i..][1..] == args[i + 1..];
      quoted := quoted + [ShellQuote(args[i])];
    }
    assert quoted + [] == quoted;
    line := Join(quoted, " ");
  }

  // ---------- The shell's reader ----------

  const NUL := '\0'

  /** Where the reader is: between words, in a word, after an unquoted backslash, in single quotes, in
      double quotes, or after a backslash in double quotes; with the word read so far. */
  datatype Mode =
    | Blank
    | Word(w: string)
    | Escape(w: string, inWord: bool)
    | Single(w: string)
    | Double(w: string)
    | DoubleEscape(w: string)

  /** Characters that, outside quotes, are operators or start an expansion: a line with one of them is
      not a plain list of words. */
  predicate Active(c: char) {
    c == '|' || c == '&' || c == ';' || c == '<' || c == '>' || c == '(' || c == ')' || c == '$' || c == '`'
    || c == '*' || c == '?' || c == '[' || c == '~' || c == '\n' || c == NUL
  }

  function Prepend(w: string, rest: Option<seq<string>>): Option<seq<string>> {
    match rest
    case None => None
    case Some(words) => Some([w] + words)
  }

  /** The words of a line, or None when the line is not a plain list of words. */
  function Words(s: string, mode: Mode): Option<seq<string>>
    decreases |s|
  {
    if s == "" then
      match mode
      case Blank => Some([])
      case Word(w) => Some([w])
      case _ => None
    else
      var c, rest := s[0], s[1..];
      if c == NUL then None else
      match mode
      case Blank =>
        if c == ' ' || c == '\t' then Words(rest, Blank)
        else if c == '#' then if '\n' in rest || NUL in rest then None else Some([])
        else WordChar(c, rest, "", false)
      case Word(w) =>
        if c == ' ' || c == '\t' then Prepend(w, Words(rest, Blank))
        else WordChar(c, rest, w, true)
      case Escape(w, inWord) =>
        if c == '\n' then Words(rest, if inWord then Word(w) else Blank) else Words(rest, Word(w + [c]))
      case Single(w) =>
        if c == '\'' then Words(rest, Word(w)) else Words(rest, Single(w + [c]))
      case Double(w) =>
        if c == '"' then Words(rest, Word(w))
        else if c == '\\' then Words(rest, DoubleEscape(w))
        else if c == '$' || c == '`' then None
        else Words(rest, Double(w + [c]))
      case DoubleEscape(w) =>
        if c == '\n' then Words(rest, Double(w))
        else if c == '$' || c == '`' || c == '"' || c == '\\' then Words(rest, Double(w + [c]))
        else Words(rest, Double(w + ['\\', c]))
  }

  /** An unquoted character that is not a blank. */
  function WordChar(c: char, rest: string, w: string, inWord: bool): Option<seq<string>>
    decreases |rest| + 1, 0
  {
    if c == '\'' then Words(rest, Single(w))
    else if c == '"' then Words(rest, Double(w))
    else if c == '\\' then Words(rest, Escape(w, inWord))
    else if Active(c) then None
    else Words(rest, Word(w + [c]))
  }

  /** An operator or the start of an expansion outside quotes makes the line no plain list of words. */
  lemma {:induction false} UnquotedIsRefused(before: string, c: char, rest: string)
    requires c == '|' || c == '&' || c == ';' || c == '<' || c == '>' || c == '(' || c == ')' || c == '$' || c == '`'
             || c == '*' || c == '?' || c == '[' || c == '~' || c == '\n'
    requires forall i :: 0 <= i < |before| ==> 'a' <= before[i] <= 'z' || 'A' <= before[i] <= 'Z' || '0' <= before[i] <= '9'
    ensures forall w :: Words(before + [c] + rest, Word(w)) == None
    ensures Words(before + [c] + rest, Blank) == None
  {
    var line := before + [c] + rest;
    if before == "" {
      assert line == [c] + rest && line[0] == c && line[1..] == rest;
    } else {
      UnquotedIsRefused(before[1..], c, rest);
      assert line[0] == before[0] && line[1..] == before[1..] + [c] + rest;
    }
  }

  // ---------- Round trip ----------

  lemma {:induction false} OpenQuote(rest: string)
    ensures Words("'" + rest, Blank) == Words(rest, Single(""))
  {
    assert ("'" + rest)[1..] == rest;
  }

  lemma {:induction false} CloseQuote(rest: string, w: string)
    ensures Words("'" + rest, Single(w)) == Words(rest, Word(w))
  {
    assert ("'" + rest)[1..] == rest;
  }

  lemma {:induction false} SingleChar(c: char, rest: string, w: string)
    requires c != '\'' && c != NUL
    ensures Words([c] + rest, Single(w)) == Words(rest, Single(w + [c]))
  {
    assert ([c] + rest)[1..] == rest;
  }

  lemma {:induction false} SingleQuotedBody(v: string, rest: string, w: string)
    requires NUL !in v
    ensures Words(ReplaceAll(v, "'", QUOTED_QUOTE) + "'" + rest, Single(w)) == Words(rest, Word(w + v))
    decreases |v|
  {
    ReplaceAllChar(v, '\'', QUOTED_QUOTE);
    if v == "" {
      assert "" + "'" + rest == "'" + rest && w + v == w;
      CloseQuote(rest, w);
    } else {
      var tail := ReplaceAll(v[1..], "'", QUOTED_QUOTE) + "'" + rest;
      var text := ReplaceAll(v, "'", QUOTED_QUOTE) + "'" + rest;
      assert w + v == (w + [v[0]]) + v[1..];
      SingleQuotedBody(v[1..], rest, w + [v[0]]);
      if v[0] == '\'' {
        assert text == QUOTED_QUOTE + tail;
        QuotedQuote(tail, w);
      } else {
        assert text == [v[0]] + tail;
        SingleChar(v[0], tail, w);
      }
    }
  }

  /** A single quote inside a quoted value closes the quotes, adds a double-quoted quote, and reopens. */
  lemma {:induction false} QuotedQuote(tail: string, w: string)
    ensures Words(QUOTED_QUOTE + tail, Single(w)) == Words(tail, Single(w + "'"))
  {
    var t0 := QUOTED_QUOTE + tail;
    var t1, t2, t3, t4 := "\"'\"'" + tail, "'\"'" + tail, "\"'" + tail, "'" + tail;
    assert t0[0] == '\'' && t0[1..] == t1;
    assert t1[0] == '"' && t1[1..] == t2;
    assert t2[0] == '\'' && t2[1..] == t3;
    assert t3[0] == '"' && t3[1..] == t4;
    assert t4[0] == '\'' && t4[1..] == tail;
    assert Words(t0, Single(w)) == Words(t1, Word(w));
    assert Words(t1, Word(w)) == Words(t2, Double(w));
    assert Words(t2, Double(w)) == Words(t3, Double(w + "'"));
    assert Words(t3, Double(w + "'")) == Words(t4, Word(w + "'"));
    assert Words(t4, Word(w + "'")) == Words(tail, Single(w + "'"));
  }

  lemma {:induction false} QuotedWord(v: string, rest: string)
    requires NUL !in v
    ensures Words(ShellQuote(v) + rest, Blank) == Words(rest, Word(v))
  {
    if v == "" {
      assert ShellQuote(v) + rest == "'" + ("'" + rest);
      OpenQuote("'" + rest);
      CloseQuote(rest, "");
    } else {
      var body := ReplaceAll(v, "'", QUOTED_QUOTE) + "'" + rest;
      assert ShellQuote(v) + rest == "'" + body;
      OpenQuote(body);
      SingleQuotedBody(v, rest, "");
      assert "" + v == v;
    }
  }

  lemma {:induction false} WordsOfCommandLine(args: seq<string>)
    requires forall i :: 0 <= i < |args| ==> NUL !in args[i]
    ensures Words(CommandLine(args), Blank) == Some(args)
  {
    if args == [] {
    } else if |args| == 1 {
      assert QuoteAll(args) == [ShellQuote(args[0])];
      assert CommandLine(args) == ShellQuote(args[0]) + "";
      QuotedWord(args[0], "");
      assert args == [args[0]];
    } else {
      var rest := CommandLine(args[1..]);
      assert QuoteAll(args)[1..] == QuoteAll(args[1..]);
      assert CommandLine(args) == ShellQuote(args[0]) + (" " + rest);
      QuotedWord(args[0], " " + rest);
      assert (" " + rest)[1..] == rest;
      assert Words(" " + rest, Word(args[0])) == Prepend(args[0], Words(rest, Blank));
      WordsOfCommandLine(args[1..]);
      assert [args[0]] + args[1..] == args;
    }
  }

  lemma {:induction false} NulIsNoWord(s: string, mode: Mode)
    requires NUL in s
    ensures Words(s, mode) == None
    decreases |s|
  {
    if s[0] != NUL {
      assert s == [s[0]] + s[1..];
      assert NUL in s[1..];
      forall m ensures Words(s[1..], m) == None { NulIsNoWord(s[1..], m); }
      match mode
      case Blank => assert WordChar(s[0], s[1..], "", false) == None;
      case Word(w) => assert WordChar(s[0], s[1..], w, true) == None;
      case _ =>
    }
  }

  lemma {:induction false} ReplaceKeepsNul(v: string)
    requires NUL in v
    ensures NUL in ReplaceAll(v, "'", QUOTED_QUOTE)
  {
    ReplaceAllChar(v, '\'', QUOTED_QUOTE);
    if v[0] != NUL {
      assert v == [v[0]] + v[1..];
      ReplaceKeepsNul(v[1..]);
    }
  }

  lemma {:induction false} CommandLineKeepsNul(args: seq<string>, i: nat)
    requires i < |args| && NUL in args[i]
    ensures NUL in CommandLine(args)
  {
    assert QuoteAll(args)[1..] == QuoteAll(args[1..]);
    if i == 0 {
      ReplaceKeepsNul(args[0]);
      assert NUL in ShellQuote(args[0]);
    } else {
      CommandLineKeepsNul(args[1..], i - 1);
    }
  }

  /** Main result: the shell reads a command line back as the arguments it was made from, exactly when
      no argument holds a NUL. */
  lemma ShellRoundTrip(args: seq<string>)
    ensures Words(CommandLine(args), Blank) == Some(args) <==> forall i :: 0 <= i < |args| ==> NUL !in args[i]
  {
    if forall i :: 0 <= i < |args| ==> NUL !in args[i] {
      WordsOfCommandLine(args);
    } else {
      var i :| 0 <= i < |args| && NUL in args[i];
      CommandLineKeepsNul(args, i);
      NulIsNoWord(CommandLine(args), Blank);
    }
  }

  // ---------- The script in the cloud-init document ----------

  const INDENT := "      "
  const HEADER :=
    ["#cloud-config", "write_files:", "  - path: /tmp/switchboard-run.sh", "    permissions: '0755'", "    content: |"]
  const FOOTER := ["runcmd:", "  - [ bash, /tmp/switchboard-run.sh ]"]

  /** Each line followed by a newline. */
  function Document(lines: seq<string>): string {
    if lines == [] then "" else lines[0] + "\n" + Document(lines[1..])
  }

  lemma {:induction false} DocumentAppend(a: seq<string>, b: seq<string>)
    ensures Document(a + b) == Document(a) + Document(b)
  {
    if a == [] {
      assert a + b == b;
    } else {
      assert (a + b)[1..] == a[1..] + b;
      DocumentAppend(a[1..], b);
    }
  }

  function Indented(lines: seq<string>): (r: seq<string>)
    ensures |r| == |lines|
    ensures forall i :: 0 <= i < |lines| ==> r[i] == INDENT + lines[i]
  {
    seq(|lines|, i requires 0 <= i < |lines| => INDENT + lines[i])
  }

  method CloudInitUserData(script: string) returns (out: string)
    ensures out == Document(HEADER + Indented(Split(script, '\n')) + FOOTER)
  {
    out := Document(HEADER);
    var lines := Split(script, '\n');
    assert HEADER + Indented(lines)[..0] == HEADER;
    for i := 0 to |lines|
      invariant out == Document(HEADER + Indented(lines)[..i])
    {
      out := out + INDENT;
      out := out + lines[i];
      out := out + "\n";
      var written := HEADER + Indented(lines)[..i];
      DocumentAppend(written, [INDENT + lines[i]]);
      assert HEADER + Indented(lines)[..i + 1] == written + [INDENT + lines[i]];
      assert Document([INDENT + lines[i]]) == INDENT + lines[i] + "\n";
      assert Document(written) + (INDENT + lines[i] + "\n") == Document(written) + INDENT + lines[i] + "\n";
    }
    assert Indented(lines)[..|lines|] == Indented(lines);
    out := out + Document(FOOTER);
    DocumentAppend(HEADER + Indented(lines), FOOTER);
  }

  lemma TwoLines(a: string, b: string)
    ensures Document([a, b]) == a + "\n" + b + "\n"
  {
    assert [a, b][1..] == [b] && [b][1..] == [];
    assert Document([b]) == b + "\n" + "" == b + "\n";
    assert a + "\n" + (b + "\n") == a + "\n" + b + "\n";
  }

  /** The document writes the script, each line behind six blanks, to the file that it then runs. */
  lemma DocumentText(script: string)
    ensures Document(HEADER + Indented(Split(script, '\n')) + FOOTER)
         == Document(["#cloud-config", "write_files:", "  - path: /tmp/switchboard-run.sh", "    permissions: '0755'", "    content: |"])
            + Document(Indented(Split(script, '\n')))
            + ("runcmd:" + "\n" + "  - [ bash, /tmp/switchboard-run.sh ]" + "\n")
    ensures forall i :: 0 <= i < |Split(script, '\n')| ==> Indented(Split(script, '\n'))[i] == "      " + Split(script, '\n')[i]
  {
    var block := Indented(Split(script, '\n'));
    DocumentAppend(HEADER + block, FOOTER);
    DocumentAppend(HEADER, block);
    TwoLines("runcmd:", "  - [ bash, /tmp/switchboard-run.sh ]");
  }

  /** The lines of a literal block: those that start with the indentation, without it. */
  function BlockLines(lines: seq<string>): seq<string> {
    if lines != [] && INDENT <= lines[0] then [lines[0][|INDENT|..]] + BlockLines(lines[1..]) else []
  }

  /** The script in a document: the block after the header, without its indentation. */
  function ReadScript(document: string): string {
    var lines := Split(document, '\n');
    if |lines| < |HEADER| then "" else Join(BlockLines(lines[|HEADER|..]), "\n")
  }

  lemma {:induction false} SplitLine(line: string, rest: string)
    requires '\n' !in line
    ensures Split(line + "\n" + rest, '\n') == [line] + Split(rest, '\n')
  {
    var text := line + "\n" + rest;
    if line == "" {
      assert text[0] == '\n' && text[1..] == rest;
    } else {
      assert text[1..] == line[1..] + "\n" + rest;
      SplitLine(line[1..], rest);
      assert [line[0]] + line[1..] == line;
    }
  }

  lemma {:induction false} SplitDocument(lines: seq<string>)
    requires forall i :: 0 <= i < |lines| ==> '\n' !in lines[i]
    ensures Split(Document(lines), '\n') == lines + [""]
  {
    if lines != [] {
      SplitDocument(lines[1..]);
      SplitLine(lines[0], Document(lines[1..]));
      assert [lines[0]] + (lines[1..] + [""]) == lines + [""];
    }
  }

  lemma {:induction false} BlockOfIndented(lines: seq<string>, after: seq<string>)
    requires after != [] && !(INDENT <= after[0])
    ensures BlockLines(Indented(lines) + after) == lines
  {
    var all := Indented(lines) + after;
    if lines == [] {
      assert all == after;
    } else {
      assert all[1..] == Indented(lines[1..]) + after;
      assert all[0] == INDENT + lines[0];
      BlockOfIndented(lines[1..], after);
      assert [lines[0]] + lines[1..] == lines;
    }
  }

  ghost predicate NoNewline(lines: seq<string>) {
    forall i :: 0 <= i < |lines| ==> '\n' !in lines[i]
  }

  lemma {:induction false} BlockAfterHeader(header: seq<string>, lines: seq<string>, footer: seq<string>)
    requires NoNewline(header) && NoNewline(lines) && NoNewline(footer)
    requires footer != [] && !(INDENT <= footer[0])
    ensures var all := Split(Document(header + Indented(lines) + footer), '\n');
            |all| >= |header| && BlockLines(all[|header|..]) == lines
  {
    var block := Indented(lines);
    assert NoNewline(block);
    var all := header + block + footer;
    assert NoNewline(all);
    SplitDocument(all);
    assert (all + [""])[|header|..] == block + (footer + [""]);
    BlockOfIndented(lines, footer + [""]);
  }

  lemma HeaderAndFooterAreLines()
    ensures NoNewline(HEADER) && NoNewline(FOOTER) && !(INDENT <= FOOTER[0])
  {
    assert FOOTER[0][0] != INDENT[0];
  }

  /** Removing the indentation that the document adds gives back the script, whatever it contains. */
  lemma ScriptRoundTrip(script: string)
    ensures ReadScript(Document(HEADER + Indented(Split(script, '\n')) + FOOTER)) == script
  {
    HeaderAndFooterAreLines();
    BlockAfterHeader(HEADER, Split(script, '\n'), FOOTER);
    JoinSplit(script, '\n');
  }
}
