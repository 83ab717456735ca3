/** The string operations the repository takes from its standard library. A string is a sequence
    of bytes, one `char` a byte. */
module Strings {
  /** `t` occurs in `s` at position `i`. */
  predicate MatchAt(s: string, t: string, i: int) {
    0 <= i && i + |t| <= |s| && s[i..i + |t|] == t
  }

  ghost predicate Contains(s: string, t: string) {
    exists i :: MatchAt(s, t, i)
  }

  /** The least position at or after `from` where `t` occurs, or -1. */
  function IndexFrom(s: string, t: string, from: nat): (r: int)
    requires from <= |s|
    ensures r < 0 ==> r == -1 && forall i :: from <= i ==> !MatchAt(s, t, i)
    ensures 0 <= r ==> from <= r && MatchAt(s, t, r) && forall i :: from <= i < r ==> !MatchAt(s, t, i)
    decreases |s| - from
  {
    if MatchAt(s, t, from) then from
    else if from == |s| then -1
    else IndexFrom(s, t, from + 1)
  }

  /** An occurrence inside a slice is an occurrence in the whole. */
  lemma SliceMatch(s: string, t: string, lo: nat, hi: nat, k: int)
    requires lo <= hi <= |s| && lo <= k && k + |t| <= hi
    ensures MatchAt(s, t, k) <==> MatchAt(s[lo..hi], t, k - lo)
  {
    var inner, whole := s[lo..hi][k - lo..k - lo + |t|], s[k..k + |t|];
    assert forall n :: 0 <= n < |t| ==> inner[n] == whole[n] == s[k + n];
    assert inner == whole;
  }

  lemma ContainsTransitive(text: string, mid: string, t: string)
    requires Contains(text, mid) && Contains(mid, t)
    ensures Contains(text, t)
  {
    var i :| MatchAt(text, mid, i);
    var j :| MatchAt(mid, t, j);
    SliceMatch(text, t, i, i + |mid|, i + j);
  }

  lemma ContainsChars(s: string, t: string)
    requires Contains(s, t)
    ensures forall c :: c in t ==> c in s
  {
    var i :| MatchAt(s, t, i);
    forall c | c in t ensures c in s {
      var n :| 0 <= n < |t| && t[n] == c;
      assert s[i..i + |t|][n] == s[i + n];
    }
  }

  lemma ContainedIsShorter(text: string, s: string)
    requires Contains(text, s)
    ensures |s| < |text| || s == text
  {
    var i :| MatchAt(text, s, i);
    if |s| == |text| {
      assert text[0..|text|] == text;
    }
  }

  /** Every occurrence of `t`, found from left to right without overlap, replaced by `r`. */
  function ReplaceAll(s: string, t: string, r: string): string
    requires t != ""
  {
    var i := IndexFrom(s, t, 0);
    if i < 0 then s else s[..i] + r + ReplaceAll(s[i + |t|..], t, r)
  }

  function Join(parts: seq<string>, sep: string): string {
    if parts == [] then ""
    else if |parts| == 1 then parts[0]
    else parts[0] + sep + Join(parts[1..], sep)
  }

  /** The pieces of `s` between occurrences of `sep`; always at least one piece. */
  function Split(s: string, sep: char): (parts: seq<string>)
    ensures parts != []
    ensures forall i :: 0 <= i < |parts| ==> sep !in parts[i]
  {
    if s == "" then [""]
    else if s[0] == sep then [""] + Split(s[1..], sep)
    else var rest := Split(s[1..], sep); [[s[0]] + rest[0]] + rest[1..]
  }

  lemma {:induction false} JoinSplit(s: string, sep: char)
    ensures Join(Split(s, sep), [sep]) == s
  {
    if s == "" {
    } else {
      JoinSplit(s[1..], sep);
      var rest := Split(s[1..], sep);
      if s[0] == sep {
        assert Split(s, sep)[1..] == rest;
        assert s == [sep] + s[1..];
      } else {
        assert Split(s, sep)[1..] == rest[1..];
        assert s == [s[0]] + s[1..];
      }
    }
  }

  /** ASCII lower case. */
  function LowerChar(c: char): char {
    if 'A' <= c <= 'Z' then c + 'a' - 'A' else c
  }

  function Lower(s: string): string {
    if s == "" then "" else [LowerChar(s[0])] + Lower(s[1..])
  }

  predicate EqualFold(a: string, b: string) {
    Lower(a) == Lower(b)
  }

  predicate ContainsFold(values: seq<string>, target: string) {
    exists i :: 0 <= i < |values| && EqualFold(values[i], target)
  }

  /** `name` is in the list, in whatever case. */
  ghost predicate Lists(names: seq<string>, name: string) {
    exists i :: 0 <= i < |names| && EqualFold(names[i], name)
  }

  lemma {:induction false} LowerTwice(s: string)
    ensures Lower(Lower(s)) == Lower(s)
  {
    if s != "" {
      LowerTwice(s[1..]);
    }
  }

  /** The same letter in either case, or the same character. */
  ghost predicate SameLetter(c: char, d: char) {
    c == d || ('A' <= c <= 'Z' && d as int == c as int + 32) || ('A' <= d <= 'Z' && c as int == d as int + 32)
  }

  lemma {:induction false} EqualFoldExactly(a: string, b: string)
    ensures EqualFold(a, b) <==> |a| == |b| && forall i :: 0 <= i < |a| ==> SameLetter(a[i], b[i])
  {
    if a != "" && b != "" {
      EqualFoldExactly(a[1..], b[1..]);
      assert forall i :: 0 <= i < |a| && 0 <= i < |b| ==> i == 0 || (a[i] == a[1..][i - 1] && b[i] == b[1..][i - 1]);
      FoldHead(a, b);
    }
  }

  lemma FoldHead(a: string, b: string)
    requires a != "" && b != ""
    ensures EqualFold(a, b) <==> SameLetter(a[0], b[0]) && EqualFold(a[1..], b[1..])
  {
    assert Lower(a)[0] == LowerChar(a[0]) && Lower(a)[1..] == Lower(a[1..]);
    assert Lower(b)[0] == LowerChar(b[0]) && Lower(b)[1..] == Lower(b[1..]);
  }

  /** Byte-wise lexicographic order. */
  predicate Less(a: string, b: string) {
    if b == "" then false
    else if a == "" then true
    else a[0] < b[0] || (a[0] == b[0] && Less(a[1..], b[1..]))
  }

  lemma LessIrreflexive(a: string)
    ensures !Less(a, a)
  {
  }

  lemma LessTransitive(a: string, b: string, c: string)
    requires Less(a, b) && Less(b, c)
    ensures Less(a, c)
  {
    if a != "" && a[0] == b[0] == c[0] {
      LessTransitive(a[1..], b[1..], c[1..]);
    }
  }

  lemma LessTotal(a: string, b: string)
    ensures a == b || Less(a, b) || Less(b, a)
  {
    if a != "" && b != "" && a[0] == b[0] {
      LessTotal(a[1..], b[1..]);
      assert a == [a[0]] + a[1..] && b == [b[0]] + b[1..];
    }
  }

  lemma LessIsStrictTotal()
    ensures forall a :: !Less(a, a)
    ensures forall a, b, c :: Less(a, b) && Less(b, c) ==> Less(a, c)
    ensures forall a, b :: a == b || Less(a, b) || Less(b, a)
  {
    forall a ensures !Less(a, a) { LessIrreflexive(a); }
    forall a, b, c | Less(a, b) && Less(b, c) ensures Less(a, c) { LessTransitive(a, b, c); }
    forall a, b ensures a == b || Less(a, b) || Less(b, a) { LessTotal(a, b); }
  }

  lemma MatchChar(s: string, c: char, i: int)
    ensures MatchAt(s, [c], i) <==> 0 <= i < |s| && s[i] == c
  {
    if 0 <= i < |s| {
      assert s[i..i + 1] == [s[i]];
    }
  }

  lemma IndexCharShift(s: string, c: char)
    requires s != "" && s[0] != c
    ensures IndexFrom(s, [c], 0) ==
            if IndexFrom(s[1..], [c], 0) < 0 then -1 else IndexFrom(s[1..], [c], 0) + 1
  {
    var i, j := IndexFrom(s, [c], 0), IndexFrom(s[1..], [c], 0);
    MatchChar(s, c, 0);
    MatchChar(s, c, i);
    MatchChar(s[1..], c, i - 1);
    MatchChar(s[1..], c, j);
    MatchChar(s, c, j + 1);
  }

  lemma {:induction false} ReplaceAllCharHead(s: string, c: char, r: string)
    requires s != "" && s[0] == c
    ensures ReplaceAll(s, [c], r) == r + ReplaceAll(s[1..], [c], r)
  {
    MatchChar(s, c, 0);
    assert s[..0] == "";
  }

  lemma {:induction false} ReplaceAllCharSkip(s: string, c: char, r: string)
    requires s != "" && s[0] != c
    ensures ReplaceAll(s, [c], r) == [s[0]] + ReplaceAll(s[1..], [c], r)
  {
    IndexCharShift(s, c);
    var j := IndexFrom(s[1..], [c], 0);
    if j < 0 {
      assert s == [s[0]] + s[1..];
    } else {
      var tail := ReplaceAll(s[j + 2..], [c], r);
      assert s[..j + 1] == [s[0]] + s[1..][..j];
      assert s[1..][j + 1..] == s[j + 2..];
      assert [s[0]] + (s[1..][..j] + r + tail) == ([s[0]] + s[1..][..j]) + r + tail;
    }
  }

  /** When `t` is one character, the replacement works character by character. */
  lemma {:induction false} ReplaceAllChar(s: string, c: char, r: string)
    ensures s == "" ==> ReplaceAll(s, [c], r) == ""
    ensures s != "" && s[0] == c ==> ReplaceAll(s, [c], r) == r + ReplaceAll(s[1..], [c], r)
    ensures s != "" && s[0] != c ==> ReplaceAll(s, [c], r) == [s[0]] + ReplaceAll(s[1..], [c], r)
  {
    if s != "" {
      if s[0] == c {
        ReplaceAllCharHead(s, c, r);
      } else {
        ReplaceAllCharSkip(s, c, r);
      }
    }
  }
}
