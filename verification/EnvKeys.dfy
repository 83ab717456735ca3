/** `inputEnvKey` of internal/staging/staging.go: the part of a variable's name that stands for a data
    input. Here a string is a sequence of code points. */
module EnvKeys {
  import Strings

  /** The classification of code points outside ASCII. */
  datatype Unicode = Unicode(isLetterOrDigit: char -> bool, toUpper: char -> char)

  const ASCII_END: char := 128 as char

  predicate IsAsciiWordChar(c: char) {
    'a' <= c <= 'z' || 'A' <= c <= 'Z' || '0' <= c <= '9'
  }

  predicate IsWordChar(c: char, u: Unicode) {
    if c < ASCII_END then IsAsciiWordChar(c) else u.isLetterOrDigit(c)
  }

  function UpperChar(c: char, u: Unicode): char {
    if c < ASCII_END then (if 'a' <= c <= 'z' then c - 'a' + 'A' else c) else u.toUpper(c)
  }

  /** No letter has the underscore as its upper case. */
  ghost predicate Sane(u: Unicode) {
    forall c :: u.toUpper(c) != '_'
  }

  // ---------- Words ----------

  /** The maximal runs of letters and digits of a name, in upper case. */
  function Words(name: string, u: Unicode): (words: seq<string>)
    ensures name != "" && IsWordChar(name[|name| - 1], u) ==> words != []
  {
    if name == "" then []
    else
      var n := |name| - 1;
      var before, c := Words(name[..n], u), UpperChar(name[n], u);
      if !IsWordChar(name[n], u) then before
      else if n > 0 && IsWordChar(name[n - 1], u) then
        before[..|before| - 1] + [before[|before| - 1] + [c]]
      else before + [[c]]
  }

  /** Words without underscores, none empty. */
  ghost predicate PlainWords(words: seq<string>) {
    forall i :: 0 <= i < |words| ==> words[i] != "" && '_' !in words[i]
  }

  lemma {:induction false} WordsArePlain(name: string, u: Unicode)
    requires Sane(u)
    ensures PlainWords(Words(name, u))
  {
    if name != "" {
      var n := |name| - 1;
      WordsArePlain(name[..n], u);
      assert IsWordChar(name[n], u) ==> UpperChar(name[n], u) != '_';
    }
  }

  // ---------- Joining words by underscores ----------

  function Joined(words: seq<string>): string {
    Strings.Join(words, "_")
  }

  lemma {:induction false} JoinedNewWord(words: seq<string>, w: string)
    ensures Joined(words + [w]) == if words == [] then w else Joined(words) + "_" + w
  {
    if |words| > 1 {
      JoinedNewWord(words[1..], w);
      assert (words + [w])[1..] == words[1..] + [w];
    } else if |words| == 1 {
      assert (words + [w])[1..] == [w];
      assert Strings.Join([w], "_") == w;
    }
  }

  lemma JoinedLongerWord(words: seq<string>, c: char)
    requires words != []
    ensures var n := |words| - 1; Joined(words[..n] + [words[n] + [c]]) == Joined(words) + [c]
  {
    var n := |words| - 1;
    JoinedNewWord(words[..n], words[n] + [c]);
    JoinedNewWord(words[..n], words[n]);
    assert words == words[..n] + [words[n]];
  }

  /** No underscore at either end, and no two together. */
  ghost predicate Neat(s: string) {
    && (s != "" ==> s[0] != '_' && s[|s| - 1] != '_')
    && forall i :: 0 < i < |s| ==> s[i] != '_' || s[i - 1] != '_'
  }

  lemma {:induction false} JoinedIsNeat(words: seq<string>)
    requires PlainWords(words)
    ensures Neat(Joined(words)) && (Joined(words) == "" <==> words == [])
  {
    if words != [] {
      var n := |words| - 1;
      var before, w := Joined(words[..n]), words[n];
      JoinedIsNeat(words[..n]);
      JoinedNewWord(words[..n], w);
      assert words == words[..n] + [w];
      NeatNewWord(before, w);
    }
  }

  lemma NeatNewWord(s: string, w: string)
    requires Neat(s) && w != "" && '_' !in w
    ensures Neat(w) && (s != "" ==> Neat(s + "_" + w))
  {
    if s != "" {
      var t := s + "_" + w;
      assert forall i :: 0 <= i < |t| ==> t[i] == if i < |s| then s[i] else if i == |s| then '_' else w[i - |s| - 1];
    }
  }

  // ---------- The loop ----------

  /** Go's `strings.Trim(s, "_")`. */
  function TrimUnderscores(s: string): string {
    if s != "" && s[0] == '_' then TrimUnderscores(s[1..])
    else if s != "" && s[|s| - 1] == '_' then TrimUnderscores(s[..|s| - 1])
    else s
  }

  lemma TrimNeat(s: string)
    requires Neat(s)
    ensures TrimUnderscores(s) == s && (s != "" ==> TrimUnderscores(s + "_") == s)
  {
    if s != "" {
      assert (s + "_")[..|s|] == s;
    }
  }

  /** The builder's text after a part of the name: an underscore waits behind the last word. */
  function Built(part: string, u: Unicode): string {
    Joined(Words(part, u)) + if Waiting(part, u) then "_" else ""
  }

  predicate Waiting(part: string, u: Unicode) {
    part != "" && !IsWordChar(part[|part| - 1], u) && Words(part, u) != []
  }

  lemma BuiltStep(part: string, c: char, u: Unicode)
    requires Sane(u)
    ensures IsWordChar(c, u) ==> Built(part + [c], u) == Built(part, u) + [UpperChar(c, u)] && !Waiting(part + [c], u)
    ensures !IsWordChar(c, u) ==>
              && Waiting(part + [c], u) == (Waiting(part, u) || Built(part, u) != "")
              && Built(part + [c], u) == if !Waiting(part, u) && Built(part, u) != "" then Built(part, u) + "_" else Built(part, u)
  {
    var whole, words := part + [c], Words(part, u);
    assert whole[..|part|] == part;
    WordsArePlain(part, u);
    JoinedIsNeat(words);
    if IsWordChar(c, u) {
      if part != "" && IsWordChar(part[|part| - 1], u) {
        JoinedLongerWord(words, UpperChar(c, u));
      } else {
        JoinedNewWord(words, [UpperChar(c, u)]);
      }
    }
  }

  /** The key of an input: its words joined by single underscores. */
  method InputEnvKey(name: string, u: Unicode) returns (key: string)
    requires Sane(u)
    ensures key == Joined(Words(name, u))
  {
    var out: string, lastUnderscore := "", false;
    for n := 0 to |name|
      invariant out == Built(name[..n], u) && lastUnderscore == Waiting(name[..n], u)
    {
      assert name[..n + 1] == name[..n] + [name[n]];
      BuiltStep(name[..n], name[n], u);
      if IsWordChar(name[n], u) {
        out := out + [UpperChar(name[n], u)];
        lastUnderscore := false;
      } else {
        if !lastUnderscore && |out| > 0 {
          out := out + "_";
          lastUnderscore := true;
        }
      }
    }
    assert name[..|name|] == name;
    WordsArePlain(name, u);
    JoinedIsNeat(Words(name, u));
    TrimNeat(Joined(Words(name, u)));
    key := TrimUnderscores(out);
  }

  // ---------- What keys look like ----------

  predicate InputKeyChar(c: char) {
    'A' <= c <= 'Z' || '0' <= c <= '9' || c == '_'
  }

  /** Nonempty, of upper-case letters, digits and underscores. */
  predicate IsKey(s: string) {
    s != "" && forall i :: 0 <= i < |s| ==> InputKeyChar(s[i])
  }

  predicate IsAscii(s: string) {
    forall i :: 0 <= i < |s| ==> s[i] < ASCII_END
  }

  lemma {:induction false} AsciiWords(name: string, u: Unicode)
    requires IsAscii(name)
    ensures forall i :: 0 <= i < |Words(name, u)| ==> forall c :: c in Words(name, u)[i] ==> InputKeyChar(c)
  {
    if name != "" {
      AsciiWords(name[..|name| - 1], u);
    }
  }

  lemma {:induction false} JoinedChars(words: seq<string>)
    requires forall i :: 0 <= i < |words| ==> forall c :: c in words[i] ==> InputKeyChar(c)
    ensures forall c :: c in Joined(words) ==> InputKeyChar(c)
  {
    if words != [] {
      var n := |words| - 1;
      JoinedChars(words[..n]);
      JoinedNewWord(words[..n], words[n]);
      assert words == words[..n] + [words[n]];
    }
  }

  /** Keys never begin or end with an underscore nor have two together; an ASCII name with a letter or
      digit has a key of upper-case letters, digits and underscores. */
  lemma KeysAreNeat(name: string, u: Unicode)
    requires Sane(u)
    ensures Neat(Joined(Words(name, u)))
    ensures Joined(Words(name, u)) == "" <==> Words(name, u) == []
    ensures IsAscii(name) && Words(name, u) != [] ==> IsKey(Joined(Words(name, u)))
  {
    WordsArePlain(name, u);
    JoinedIsNeat(Words(name, u));
    if IsAscii(name) {
      AsciiWords(name, u);
      JoinedChars(Words(name, u));
    }
  }

  // ---------- Which key a name has ----------

  /** The words once the last word is longer, or there is one more. */
  ghost function WordsWith(words: seq<string>, longer: bool, c: char): seq<string>
    requires longer ==> words != []
  {
    if longer then words[..|words| - 1] + [words[|words| - 1] + [c]] else words + [[c]]
  }

  lemma {:induction false} WordsStep(part: string, c: char, u: Unicode)
    ensures var longer := part != "" && IsWordChar(part[|part| - 1], u);
            Words(part + [c], u) == if IsWordChar(c, u) then WordsWith(Words(part, u), longer, UpperChar(c, u)) else Words(part, u)
  {
    assert (part + [c])[..|part|] == part;
  }

  lemma WithAfter(before: seq<string>, words: seq<string>, longer: bool, c: char)
    requires longer ==> words != []
    ensures WordsWith(before + words, longer, c) == before + WordsWith(words, longer, c)
  {
    if longer {
      var all := before + words;
      assert all[..|all| - 1] == before + words[..|words| - 1];
    }
  }

  /** What stands before a separator does not matter for the words after it. */
  lemma {:induction false} WordsSplit(a: string, c: char, b: string, u: Unicode)
    requires !IsWordChar(c, u)
    ensures Words(a + [c] + b, u) == Words(a, u) + Words(b, u)
  {
    var n := |b| - 1;
    if b == "" {
      WordsStep(a, c, u);
      assert a + [c] + b == a + [c];
    } else {
      var part, last := a + [c] + b[..n], b[n];
      WordsSplit(a, c, b[..n], u);
      WordsStep(part, last, u);
      WordsStep(b[..n], last, u);
      assert a + [c] + b == part + [last] && b == b[..n] + [last];
      assert part[|part| - 1] == if n > 0 then b[..n][n - 1] else c;
      if IsWordChar(last, u) {
        WithAfter(Words(a, u), Words(b[..n], u), n > 0 && IsWordChar(b[..n][n - 1], u), UpperChar(last, u));
      }
    }
  }

  ghost predicate Alphanumeric(s: string) {
    forall i :: 0 <= i < |s| ==> 'a' <= s[i] <= 'z' || 'A' <= s[i] <= 'Z' || '0' <= s[i] <= '9'
  }

  /** The same text in upper case. */
  ghost predicate IsUpperOf(t: string, s: string) {
    && |t| == |s|
    && forall i :: 0 <= i < |s| ==> t[i] as int == if 'a' <= s[i] <= 'z' then s[i] as int - 32 else s[i] as int
  }

  lemma UpperCharIs(c: char, u: Unicode)
    requires Alphanumeric([c])
    ensures IsWordChar(c, u) && IsUpperOf([UpperChar(c, u)], [c])
  {
    assert [c][0] == c;
  }

  lemma UpperLonger(t: string, d: char, s: string, c: char)
    requires IsUpperOf(t, s) && IsUpperOf([d], [c])
    ensures IsUpperOf(t + [d], s + [c])
  {
    assert [d][0] == d && [c][0] == c;
  }

  lemma AlphanumericParts(s: string, c: char)
    requires Alphanumeric(s + [c])
    ensures Alphanumeric(s) && Alphanumeric([c])
  {
    assert (s + [c])[|s|] == c;
    assert forall i :: 0 <= i < |s| ==> (s + [c])[i] == s[i];
  }

  lemma OneLetter(c: char, u: Unicode)
    requires Alphanumeric([c])
    ensures Words([c], u) == [[UpperChar(c, u)]] && IsUpperOf([UpperChar(c, u)], [c])
  {
    UpperCharIs(c, u);
    WordsStep("", c, u);
    assert "" + [c] == [c];
  }

  lemma OneMoreLetter(part: string, w: string, c: char, u: Unicode)
    requires part != "" && IsWordChar(part[|part| - 1], u) && Alphanumeric([c])
    requires Words(part, u) == [w] && IsUpperOf(w, part)
    ensures Words(part + [c], u) == [w + [UpperChar(c, u)]] && IsUpperOf(w + [UpperChar(c, u)], part + [c])
  {
    UpperCharIs(c, u);
    WordsStep(part, c, u);
    UpperLonger(w, UpperChar(c, u), part, c);
  }

  lemma {:induction false} OneWord(name: string, u: Unicode) returns (w: string)
    requires name != "" && Alphanumeric(name)
    ensures Words(name, u) == [w] && IsUpperOf(w, name) && IsWordChar(name[|name| - 1], u)
  {
    var part, c := name[..|name| - 1], name[|name| - 1];
    assert name == part + [c];
    AlphanumericParts(part, c);
    UpperCharIs(c, u);
    if part == "" {
      OneLetter(c, u);
      assert name == [c];
      w := [UpperChar(c, u)];
    } else {
      var before := OneWord(part, u);
      OneMoreLetter(part, before, c, u);
      w := before + [UpperChar(c, u)];
    }
  }

  /** A name of ASCII letters and digits is its key in upper case; and any other ASCII character between two names
      becomes an underscore between their keys. */
  lemma KeyOfName(name: string, c: char, more: string, u: Unicode)
    ensures name != "" && Alphanumeric(name) ==> IsUpperOf(Joined(Words(name, u)), name)
    ensures c < 128 as char && !Alphanumeric([c]) && Words(name, u) != [] && Words(more, u) != [] ==>
              Joined(Words(name + [c] + more, u)) == Joined(Words(name, u)) + "_" + Joined(Words(more, u))
  {
    if name != "" && Alphanumeric(name) {
      var _ := OneWord(name, u);
    }
    if c < 128 as char && !Alphanumeric([c]) {
      assert [c][0] == c;
      WordsSplit(name, c, more, u);
      JoinedParts(Words(name, u), Words(more, u));
    }
  }

  lemma {:induction false} JoinedParts(a: seq<string>, b: seq<string>)
    ensures a != [] && b != [] ==> Joined(a + b) == Joined(a) + "_" + Joined(b)
  {
    if b != [] {
      var n := |b| - 1;
      JoinedParts(a, b[..n]);
      assert a + b == (a + b[..n]) + [b[n]] && b == b[..n] + [b[n]];
      JoinedNewWord(a + b[..n], b[n]);
      JoinedNewWord(b[..n], b[n]);
      if n == 0 {
        assert a + b[..n] == a;
      } else {
        assert Joined(a) + "_" + Joined(b[..n]) + "_" + b[n] == Joined(a) + "_" + (Joined(b[..n]) + "_" + b[n]);
      }
    }
  }
}
