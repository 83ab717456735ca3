/** internal/runtimeprep/local.go: rewriting container mount paths to host paths inside arguments. */
module PathRewrite {
  import opened Strings
  import Sorting

  predicate IsPathBoundary(ch: char) {
    match ch
    case '/' | '\\' | ':' | ';' | ',' | ' ' | '\t' | '\n' | '\r' | '"' | '\'' | ')' | ']' | '}' | '?' | '&' | '#' | '=' => true
    case _ => false
  }

  predicate PathTokenBoundary(value: string, start: nat, end: nat) {
    && (0 < start <= |value| ==> IsPathBoundary(value[start - 1]))
    && (end < |value| ==> IsPathBoundary(value[end]))
  }

  // ---------- Specification: find all, keep the bounded ones, splice ----------

  /** Positions from `from` on, `len` or more apart, the last one `len` or more before `limit`. */
  ghost predicate Spaced(from: nat, ps: seq<nat>, len: nat, limit: nat)
    decreases |ps|
  {
    if ps == [] then from <= limit else from <= ps[0] && Spaced(ps[0] + len, ps[1..], len, limit)
  }

  lemma {:induction false} SpacedHead(from: nat, ps: seq<nat>, len: nat, limit: nat)
    requires Spaced(from, ps, len, limit)
    ensures from <= limit
    ensures ps != [] ==> from <= ps[0] && ps[0] + len <= limit
    decreases |ps|
  {
    if ps != [] {
      SpacedHead(ps[0] + len, ps[1..], len, limit);
    }
  }

  lemma {:induction false} SpacedMember(from: nat, ps: seq<nat>, len: nat, limit: nat, q: nat)
    requires Spaced(from, ps, len, limit) && q in ps
    ensures from <= q
    decreases |ps|
  {
    if q != ps[0] {
      SpacedMember(ps[0] + len, ps[1..], len, limit, q);
    }
  }

  /** The occurrences a left-to-right scan that skips each whole occurrence meets, from `from` on. */
  function Scan(value: string, needle: string, from: nat): (ps: seq<nat>)
    requires needle != "" && from <= |value|
    ensures Spaced(from, ps, |needle|, |value|)
    decreases |value| - from
  {
    var i := IndexFrom(value, needle, from);
    if i < 0 then [] else
      var rest := Scan(value, needle, i + |needle|);
      assert ([i] + rest)[1..] == rest;
      [i] + rest
  }

  function Bounded(value: string, from: nat, ps: seq<nat>, len: nat): (qs: seq<nat>)
    requires Spaced(from, ps, len, |value|)
    ensures Spaced(from, qs, len, |value|)
    decreases |ps|
  {
    if ps == [] then []
    else
      var rest := Bounded(value, ps[0] + len, ps[1..], len);
      if PathTokenBoundary(value, ps[0], ps[0] + len) then
        assert ([ps[0]] + rest)[1..] == rest;
        [ps[0]] + rest
      else
        SpacedWeaken(from, ps[0] + len, rest, len, |value|);
        rest
  }

  lemma {:induction false} SpacedWeaken(from: nat, from': nat, ps: seq<nat>, len: nat, limit: nat)
    requires from <= from' && Spaced(from', ps, len, limit)
    ensures Spaced(from, ps, len, limit)
  {
  }

  /** `value` from `from` on, with the `len` characters at each position of `ps` replaced by `r`. */
  function Splice(value: string, from: nat, ps: seq<nat>, len: nat, r: string): string
    requires Spaced(from, ps, len, |value|)
    decreases |ps|
  {
    SpacedHead(from, ps, len, |value|);
    if ps == [] then value[from..]
    else value[from..ps[0]] + r + Splice(value, ps[0] + len, ps[1..], len, r)
  }

  /** The occurrences that are replaced. */
  function Tokens(value: string, needle: string, from: nat := 0): (ps: seq<nat>)
    requires needle != "" && from <= |value|
    ensures Spaced(from, ps, |needle|, |value|)
  {
    Bounded(value, from, Scan(value, needle, from), |needle|)
  }

  function Replaced(value: string, needle: string, replacement: string): string {
    if needle == "" then value else Splice(value, 0, Tokens(value, needle), |needle|, replacement)
  }

  lemma {:induction false} SpliceFrom(value: string, lo: nat, from: nat, ps: seq<nat>, len: nat, r: string)
    requires lo <= from && Spaced(from, ps, len, |value|)
    ensures Spaced(lo, ps, len, |value|) && from <= |value|
    ensures Splice(value, lo, ps, len, r) == value[lo..from] + Splice(value, from, ps, len, r)
  {
    SpacedHead(from, ps, len, |value|);
    if ps == [] {
      assert value[lo..] == value[lo..from] + value[from..];
    } else {
      SplitBefore(value, lo, from, ps[0], r, Splice(value, ps[0] + len, ps[1..], len, r));
    }
  }

  lemma {:induction false} SplitBefore(value: string, lo: nat, from: nat, p: nat, r: string, rest: string)
    requires lo <= from <= p <= |value|
    ensures value[lo..p] + r + rest == value[lo..from] + (value[from..p] + r + rest)
  {
    assert value[lo..p] == value[lo..from] + value[from..p];
  }

  /** `value` from `from` on, its tokens replaced. */
  ghost function Tail(value: string, needle: string, from: nat, r: string): string
    requires needle != "" && from <= |value|
  {
    Splice(value, from, Tokens(value, needle, from), |needle|, r)
  }

  lemma {:induction false} NoOccurrence(value: string, needle: string, from: nat, r: string)
    requires needle != "" && from <= |value| && IndexFrom(value, needle, from) < 0
    ensures Tail(value, needle, from, r) == value[from..]
  {
  }

  lemma {:induction false} ScanStep(value: string, needle: string, from: nat, index: nat)
    requires needle != "" && from <= |value| && IndexFrom(value, needle, from) == index
    ensures from <= index && index + |needle| <= |value|
    ensures Scan(value, needle, from) == [index] + Scan(value, needle, index + |needle|)
  {
  }

  lemma {:induction false} BoundedStep(value: string, from: nat, p: nat, rest: seq<nat>, len: nat)
    requires from <= p && Spaced(p + len, rest, len, |value|)
    ensures Spaced(from, [p] + rest, len, |value|)
    ensures Bounded(value, from, [p] + rest, len)
         == (if PathTokenBoundary(value, p, p + len) then [p] else []) + Bounded(value, p + len, rest, len)
  {
    assert ([p] + rest)[1..] == rest;
  }

  lemma {:induction false} SpliceStep(value: string, from: nat, p: nat, rest: seq<nat>, len: nat, r: string)
    requires from <= p && Spaced(p + len, rest, len, |value|)
    ensures Spaced(from, [p] + rest, len, |value|) && p + len <= |value|
    ensures Splice(value, from, [p] + rest, len, r) == value[from..p] + r + Splice(value, p + len, rest, len, r)
  {
    assert ([p] + rest)[1..] == rest;
    SpacedHead(p + len, rest, len, |value|);
  }

  lemma {:induction false} TokensStep(value: string, needle: string, from: nat, index: nat, end: nat)
    requires needle != "" && from <= |value| && IndexFrom(value, needle, from) == index && end == index + |needle|
    ensures from <= index && end <= |value|
    ensures Tokens(value, needle, from)
         == (if PathTokenBoundary(value, index, end) then [index] else []) + Tokens(value, needle, end)
  {
    ScanStep(value, needle, from, index);
    BoundedStep(value, from, index, Scan(value, needle, end), |needle|);
  }

  /** One step of the scan: the first occurrence is replaced when it is on boundaries. */
  lemma {:induction false} TailStepToken(value: string, needle: string, from: nat, index: nat, end: nat, r: string)
    requires needle != "" && from <= |value| && IndexFrom(value, needle, from) == index && end == index + |needle|
    requires PathTokenBoundary(value, index, end)
    ensures Tail(value, needle, from, r) == value[from..index] + r + Tail(value, needle, end, r)
  {
    TokensStep(value, needle, from, index, end);
    SpliceStep(value, from, index, Tokens(value, needle, end), |needle|, r);
  }

  /** One step of the scan: the first occurrence is copied when it is not on boundaries. */
  lemma {:induction false} TailStepCopy(value: string, needle: string, from: nat, index: nat, end: nat, r: string)
    requires needle != "" && from <= |value| && IndexFrom(value, needle, from) == index && end == index + |needle|
    requires !PathTokenBoundary(value, index, end)
    ensures Tail(value, needle, from, r) == value[from..end] + Tail(value, needle, end, r)
  {
    TokensStep(value, needle, from, index, end);
    var qs := Tokens(value, needle, end);
    assert [] + qs == qs;
    SpliceFrom(value, from, end, qs, |needle|, r);
  }

  lemma {:induction false} RegroupToken(whole: string, out: string, rest: string, a: string, r: string, tail: string)
    requires whole == out + rest && rest == a + r + tail
    ensures whole == ((out + a) + r) + tail
  {
  }

  lemma {:induction false} RegroupCopy(whole: string, out: string, rest: string, a: string, tail: string)
    requires whole == out + rest && rest == a + tail
    ensures whole == (out + a) + tail
  {
  }

  lemma {:induction false} Trivial(value: string, needle: string, r: string)
    ensures needle == "" || value == "" ==> Replaced(value, needle, r) == value
    ensures needle != "" ==> Replaced(value, needle, r) == Tail(value, needle, 0, r)
  {
    if needle != "" && value == "" {
      NoOccurrence(value, needle, 0, r);
    }
  }

  method ReplacePathToken(value: string, needle: string, replacement: string) returns (out: string)
    ensures out == Replaced(value, needle, replacement)
  {
    Trivial(value, needle, replacement);
    if value == "" || needle == "" {
      return value;
    }
    out := "";
    var searchStart := 0;
    ghost var whole, rest := Replaced(value, needle, replacement), Tail(value, needle, 0, replacement);
    while true
      invariant searchStart <= |value| && rest == Tail(value, needle, searchStart, replacement)
      invariant whole == out + rest
      decreases |value| - searchStart
    {
      var index := IndexFrom(value, needle, searchStart);
      if index < 0 {
        NoOccurrence(value, needle, searchStart, replacement);
        out := out + value[searchStart..];
        break;
      }
      var end := index + |needle|;
      ghost var tail := Tail(value, needle, end, replacement);
      if PathTokenBoundary(value, index, end) {
        TailStepToken(value, needle, searchStart, index, end, replacement);
        RegroupToken(whole, out, rest, value[searchStart..index], replacement, tail);
        out := out + value[searchStart..index];
        out := out + replacement;
        searchStart, rest := end, tail;
        continue;
      }
      TailStepCopy(value, needle, searchStart, index, end, replacement);
      RegroupCopy(whole, out, rest, value[searchStart..end], tail);
      out := out + value[searchStart..end];
      searchStart, rest := end, tail;
    }
  }

  // ---------- What is scanned and what is kept ----------

  ghost predicate AllMatch(value: string, needle: string, ps: seq<nat>) {
    ps != [] ==> MatchAt(value, needle, ps[0]) && AllMatch(value, needle, ps[1..])
  }

  lemma {:induction false} AllMatchMember(value: string, needle: string, ps: seq<nat>, q: nat)
    requires AllMatch(value, needle, ps) && q in ps
    ensures MatchAt(value, needle, q)
  {
    if q != ps[0] {
      AllMatchMember(value, needle, ps[1..], q);
    }
  }

  lemma {:induction false} ScanMatches(value: string, needle: string, from: nat)
    requires needle != "" && from <= |value|
    ensures AllMatch(value, needle, Scan(value, needle, from))
    decreases |value| - from
  {
    var i := IndexFrom(value, needle, from);
    if i >= 0 {
      ScanStep(value, needle, from, i);
      ScanMatches(value, needle, i + |needle|);
      assert ([i] + Scan(value, needle, i + |needle|))[1..] == Scan(value, needle, i + |needle|);
    }
  }

  lemma {:induction false} BoundedMatches(value: string, from: nat, ps: seq<nat>, needle: string)
    requires Spaced(from, ps, |needle|, |value|) && AllMatch(value, needle, ps)
    ensures AllMatch(value, needle, Bounded(value, from, ps, |needle|))
    decreases |ps|
  {
    if ps != [] {
      var rest := Bounded(value, ps[0] + |needle|, ps[1..], |needle|);
      BoundedMatches(value, ps[0] + |needle|, ps[1..], needle);
      assert ([ps[0]] + rest)[1..] == rest;
    }
  }

  lemma {:induction false} BoundedMembers(value: string, from: nat, ps: seq<nat>, len: nat, q: nat)
    requires Spaced(from, ps, len, |value|)
    ensures q in Bounded(value, from, ps, len) <==> q in ps && PathTokenBoundary(value, q, q + len)
    decreases |ps|
  {
    if ps != [] {
      BoundedMembers(value, ps[0] + len, ps[1..], len, q);
      assert q in ps <==> q == ps[0] || q in ps[1..];
    }
  }

  /** The replaced occurrences are the scanned ones with separators on both sides. */
  lemma TokensMembers(value: string, needle: string, q: nat)
    requires needle != ""
    ensures q in Tokens(value, needle) <==> q in Scan(value, needle, 0) && IsToken(value, needle, q)
    ensures q in Scan(value, needle, 0) ==> MatchAt(value, needle, q)
  {
    BoundedMembers(value, 0, Scan(value, needle, 0), |needle|, q);
    ScanMatches(value, needle, 0);
    if q in Scan(value, needle, 0) {
      AllMatchMember(value, needle, Scan(value, needle, 0), q);
    }
  }

  // ---------- What the replacement does ----------

  lemma {:induction false} SpliceSelf(value: string, from: nat, ps: seq<nat>, needle: string)
    requires Spaced(from, ps, |needle|, |value|) && from <= |value|
    requires AllMatch(value, needle, ps)
    ensures Splice(value, from, ps, |needle|, needle) == value[from..]
    decreases |ps|
  {
    if ps != [] {
      var end := ps[0] + |needle|;
      SpliceHead(value, from, ps, |needle|, needle, ps[0], end);
      SpliceSelf(value, end, ps[1..], needle);
      AroundMatch(value, from, ps[0], end, needle);
    }
  }

  lemma {:induction false} SpliceHead(value: string, from: nat, ps: seq<nat>, len: nat, r: string, p: nat, end: nat)
    requires Spaced(from, ps, len, |value|) && ps != [] && p == ps[0] && end == p + len
    ensures from <= p && end <= |value| && Spaced(end, ps[1..], len, |value|)
    ensures Splice(value, from, ps, len, r) == value[from..p] + r + Splice(value, end, ps[1..], len, r)
  {
    SpacedHead(from, ps, len, |value|);
  }

  lemma AroundMatch(value: string, from: nat, p: nat, end: nat, needle: string)
    requires from <= p && MatchAt(value, needle, p) && end == p + |needle|
    ensures value[from..] == value[from..p] + needle + value[end..]
  {
    assert value[from..] == value[from..p] + value[p..end] + value[end..];
  }

  /** Replacing a token by itself changes nothing. */
  lemma {:induction false} SelfReplacementIsIdentity(value: string, needle: string)
    ensures Replaced(value, needle, needle) == value
  {
    if needle != "" {
      ScanMatches(value, needle, 0);
      BoundedMatches(value, 0, Scan(value, needle, 0), needle);
      SpliceSelf(value, 0, Tokens(value, needle), needle);
    }
  }

  lemma {:induction false} SpliceLength(value: string, from: nat, ps: seq<nat>, len: nat, r: string)
    requires Spaced(from, ps, len, |value|)
    ensures |Splice(value, from, ps, len, r)| == |value| - from + |ps| * (|r| - len)
    decreases |ps|
  {
    SpacedHead(from, ps, len, |value|);
    if ps != [] {
      SpliceLength(value, ps[0] + len, ps[1..], len, r);
      assert |ps| * (|r| - len) == |ps[1..]| * (|r| - len) + (|r| - len);
    }
  }

  lemma {:induction false} ReplacedLength(value: string, needle: string, replacement: string)
    requires needle != ""
    ensures |Replaced(value, needle, replacement)|
         == |value| + |Tokens(value, needle)| * (|replacement| - |needle|)
  {
    SpliceLength(value, 0, Tokens(value, needle), |needle|, replacement);
  }

  // ---------- Which bounded occurrences are found ----------

  /** The characters that may stand next to a path. */
  ghost predicate Separator(c: char) {
    || c == '/' || c == '\\' || c == ':' || c == ';' || c == ',' || c == '=' || c == '?' || c == '&' || c == '#'
    || c == ' ' || c == '\t' || c == '\n' || c == '\r' || c == '"' || c == '\'' || c == ')' || c == ']' || c == '}'
  }

  /** The characters of names, which make a longer path of the one they are next to. */
  ghost predicate NameChar(c: char) {
    'a' <= c <= 'z' || 'A' <= c <= 'Z' || '0' <= c <= '9' || c == '-' || c == '_' || c == '.'
  }

  lemma NamesDoNotSeparate(c: char)
    ensures NameChar(c) ==> !Separator(c)
    ensures IsPathBoundary(c) <==> Separator(c)
  {
  }

  /** An occurrence, wherever it is, with a separator or nothing on either side. */
  ghost predicate IsToken(value: string, needle: string, i: int) {
    && MatchAt(value, needle, i)
    && (0 < i ==> Separator(value[i - 1]))
    && (i + |needle| < |value| ==> Separator(value[i + |needle|]))
  }

  ghost predicate AllTokensReplaced(value: string, needle: string)
    requires needle != ""
  {
    forall i :: IsToken(value, needle, i) <==> i in Tokens(value, needle)
  }

  /** `needle` shifted by `d` agrees with itself, after a boundary character. */
  ghost predicate OverlapsAfterBoundary(needle: string, d: int) {
    0 < d < |needle| && needle[d..] <= needle && Separator(needle[d - 1])
  }

  /** Every occurrence at or after `from` is scanned, or is overlapped by a scanned one. */
  lemma {:induction false} ScanCovers(value: string, needle: string, from: nat, i: nat)
    requires needle != "" && from <= i && MatchAt(value, needle, i)
    ensures i in Scan(value, needle, from)
         || exists p :: p in Scan(value, needle, from) && p < i < p + |needle|
    decreases |value| - from
  {
    var p := IndexFrom(value, needle, from);
    assert p <= i;
    var ps := Scan(value, needle, p + |needle|);
    assert Scan(value, needle, from) == [p] + ps;
    assert forall x :: x in [p] + ps <==> x == p || x in ps;
    if p + |needle| <= i {
      ScanCovers(value, needle, p + |needle|, i);
    } else if p < i {
      assert p in Scan(value, needle, from) && p < i < p + |needle|;
    }
  }

  lemma {:induction false} OverlapShift(value: string, needle: string, p: nat, i: nat)
    requires MatchAt(value, needle, p) && IsToken(value, needle, i) && p < i < p + |needle|
    ensures OverlapsAfterBoundary(needle, i - p)
  {
    var d := i - p;
    assert needle[d..] == value[i..p + |needle|] by {
      assert value[p..p + |needle|][d..] == value[i..p + |needle|];
    }
    assert needle[..|needle| - d] == value[i..p + |needle|] by {
      assert value[i..i + |needle|][..|needle| - d] == value[i..p + |needle|];
    }
    assert value[i - 1] == value[p..p + |needle|][d - 1];
  }

  /** A character that is no boundary and does not start the needle. */
  function Outsider(needle: string): (c: char)
    requires needle != ""
    ensures !Separator(c) && c != needle[0]
  {
    if needle[0] == 'x' then 'y' else 'x'
  }

  lemma {:induction false} ScanFirst(value: string, needle: string, p: nat)
    requires needle != "" && IndexFrom(value, needle, 0) == p
    ensures forall q :: q in Scan(value, needle, 0) ==> q == p || p + |needle| <= q
  {
    ScanStep(value, needle, 0, p);
    var rest := Scan(value, needle, p + |needle|);
    forall q | q in rest ensures p + |needle| <= q {
      SpacedMember(p + |needle|, rest, |needle|, |value|, q);
    }
  }

  /** The text that shows a needle overlapping itself loses a token: an outside character, the part
      of the needle before the overlap, and the needle. */
  function LosingText(needle: string, d: nat): string
    requires OverlapsAfterBoundary(needle, d)
  {
    [Outsider(needle)] + needle[..d] + needle
  }

  lemma {:induction false} LosingMatches(needle: string, d: nat)
    requires OverlapsAfterBoundary(needle, d)
    ensures IndexFrom(LosingText(needle, d), needle, 0) == 1
    ensures IsToken(LosingText(needle, d), needle, 1 + d)
  {
    var n, value := |needle|, LosingText(needle, d);
    assert value[1 + d..1 + d + n] == needle;
    assert value[1..1 + n] == needle[..d] + needle[..n - d];
    assert needle == needle[..d] + needle[d..];
    assert MatchAt(value, needle, 1);
    assert value[0..n][0] == Outsider(needle);
    assert !MatchAt(value, needle, 0);
    assert value[d] == needle[d - 1];
  }

  lemma {:induction false} OverlapLosesToken(needle: string, d: nat)
    requires OverlapsAfterBoundary(needle, d)
    ensures exists value :: !AllTokensReplaced(value, needle)
  {
    var value := LosingText(needle, d);
    LosingMatches(needle, d);
    ScanFirst(value, needle, 1);
    TokensMembers(value, needle, 1 + d);
    assert 1 + d !in Tokens(value, needle);
    assert !AllTokensReplaced(value, needle);
  }

  /** Exactly for which needles every occurrence on path boundaries is replaced, whatever the text:
      those that cannot overlap themselves right after a boundary character. */
  lemma {:induction false} AllTokensReplacedExactly(needle: string)
    requires needle != ""
    ensures (forall value :: AllTokensReplaced(value, needle)) <==> !exists d :: OverlapsAfterBoundary(needle, d)
  {
    if d :| OverlapsAfterBoundary(needle, d) {
      OverlapLosesToken(needle, d);
    } else {
      forall value ensures AllTokensReplaced(value, needle) {
        forall i ensures IsToken(value, needle, i) <==> i in Tokens(value, needle) {
          if i >= 0 {
            TokensMembers(value, needle, i);
          }
          if IsToken(value, needle, i) {
            ScanCovers(value, needle, 0, i);
            if i !in Scan(value, needle, 0) {
              var p :| p in Scan(value, needle, 0) && p < i < p + |needle|;
              TokensMembers(value, needle, p);
              OverlapShift(value, needle, p, i);
            }
          }
        }
      }
    }
  }

  /** A mount that repeats a path after a boundary character is missed where it starts inside another
      occurrence of itself. */
  lemma {:induction false} RepeatedPathIsMissed(p: string)
    requires p != ""
    ensures !AllTokensReplaced(p + ":" + p + ":" + p, p + ":" + p)
  {
    var needle, value, d := p + ":" + p, p + ":" + p + ":" + p, |p| + 1;
    assert value[0..|needle|] == needle;
    assert value[d..d + |needle|] == needle;
    assert value[d - 1] == ':';
    assert MatchAt(value, needle, 0) && IsToken(value, needle, d);
    assert IndexFrom(value, needle, 0) == 0;
    ScanFirst(value, needle, 0);
    TokensMembers(value, needle, d);
  }

  /** Such a mount, under the workspace: "/workspace/x:/workspace/x". */
  lemma OverlappingMountIsMissed()
    ensures var p := "/workspace/x";
            !AllTokensReplaced(p + ":" + p + ":" + p, p + ":" + p)
  {
    RepeatedPathIsMissed("/workspace/x");
  }

  // ---------- RewriteValue ----------

  ghost predicate LongestFirst(keys: seq<string>) {
    forall i, j :: 0 <= i < j < |keys| ==> |keys[i]| >= |keys[j]|
  }

  function RewriteInOrder(value: string, order: seq<string>, mounts: map<string, string>): string
    requires forall i :: 0 <= i < |order| ==> order[i] in mounts
    decreases |order|
  {
    if order == [] then value
    else RewriteInOrder(Replaced(value, order[0], mounts[order[0]]), order[1..], mounts)
  }

  lemma {:induction false} SuffixMultiset(a: seq<string>, b: seq<string>, i: nat)
    requires multiset(a) == multiset(b) && i <= |a| && i <= |b| && a[..i] == b[..i]
    ensures multiset(a[i..]) == multiset(b[i..])
  {
    assert a == a[..i] + a[i..] && b == b[..i] + b[i..];
    assert multiset(a[i..]) == multiset(a) - multiset(a[..i]);
  }

  method Swap(keys: array<string>, i: nat, j: nat)
    requires i < j < keys.Length
    modifies keys
    ensures keys[i] == old(keys[j]) && keys[j] == old(keys[i])
    ensures forall b :: 0 <= b < keys.Length && b != i && b != j ==> keys[b] == old(keys[b])
    ensures multiset(keys[..]) == multiset(old(keys[..]))
  {
    keys[i], keys[j] := keys[j], keys[i];
  }

  /** The inner loop of the exchange sort: the longest of the keys from `i` on moves to `i`. */
  method BringLongest(keys: array<string>, i: nat)
    requires i < keys.Length
    modifies keys
    ensures multiset(keys[..]) == multiset(old(keys[..]))
    ensures multiset(keys[i..]) == multiset(old(keys[i..]))
    ensures keys[..i] == old(keys[..i])
    ensures forall b :: i < b < keys.Length ==> |keys[i]| >= |keys[b]|
  {
    for j := i + 1 to keys.Length
      invariant multiset(keys[..]) == multiset(old(keys[..]))
      invariant forall b :: 0 <= b < i ==> keys[b] == old(keys[b])
      invariant forall b :: i < b < j ==> |keys[i]| >= |keys[b]|
    {
      if |keys[j]| > |keys[i]| {
        Swap(keys, i, j);
      }
    }
    ghost var now, was := keys[..], old(keys[..]);
    assert now[..i] == was[..i];
    SuffixMultiset(now, was, i);
    assert keys[i..] == now[i..] && old(keys[i..]) == was[i..] && keys[..i] == now[..i] && old(keys[..i]) == was[..i];
  }

  /** The first `i` keys are the longest, in order. */
  ghost predicate LongestUpTo(keys: seq<string>, i: nat) {
    forall a, b :: 0 <= a < i && a < b < |keys| ==> |keys[a]| >= |keys[b]|
  }

  lemma OneMoreSorted(before: seq<string>, keys: seq<string>, i: nat)
    requires |keys| == |before| && i < |keys| && LongestUpTo(before, i)
    requires keys[..i] == before[..i] && multiset(keys[i..]) == multiset(before[i..])
    requires forall b :: i < b < |keys| ==> |keys[i]| >= |keys[b]|
    ensures LongestUpTo(keys, i + 1)
  {
    forall a, b | 0 <= a < i <= b < |keys| ensures |keys[a]| >= |keys[b]| {
      assert keys[b] == keys[i..][b - i] && keys[a] == keys[..i][a];
      SameAsSome(keys[i..], before[i..], b - i);
      var c :| 0 <= c < |before[i..]| && before[i..][c] == keys[b];
      assert before[i + c] == keys[b];
    }
    forall a, b | 0 <= a < b < i ensures |keys[a]| >= |keys[b]| {
      assert keys[a] == keys[..i][a] && keys[b] == keys[..i][b];
    }
  }

  lemma SameAsSome(s: seq<string>, t: seq<string>, n: nat)
    requires multiset(s) == multiset(t) && n < |s|
    ensures exists c :: 0 <= c < |t| && t[c] == s[n]
  {
    assert s[n] in multiset(s);
  }

  /** The exchange sort of `RewriteValue`, in place. */
  method ExchangeSort(keys: array<string>)
    modifies keys
    ensures multiset(keys[..]) == multiset(old(keys[..]))
    ensures LongestFirst(keys[..])
  {
    for i := 0 to keys.Length
      invariant multiset(keys[..]) == multiset(old(keys[..]))
      invariant LongestUpTo(keys[..], i)
    {
      ghost var before := keys[..];
      BringLongest(keys, i);
      OneMoreSorted(before, keys[..], i);
    }
    assert keys[..keys.Length] == keys[..];
  }

  method KeysOf(mounts: map<string, string>) returns (keys: array<string>)
    ensures fresh(keys) && multiset(keys[..]) == multiset(mounts.Keys)
  {
    var list := Sorting.SetToSeq(mounts.Keys);
    keys := new string[|list|](i requires 0 <= i < |list| => list[i]);
    assert keys[..] == list;
  }

  lemma RewriteStep(value: string, order: seq<string>, i: nat, mounts: map<string, string>)
    requires i < |order| && forall n :: 0 <= n < |order| ==> order[n] in mounts
    ensures RewriteInOrder(value, order[i..], mounts)
         == RewriteInOrder(Replaced(value, order[i], mounts[order[i]]), order[i + 1..], mounts)
  {
    assert order[i..][0] == order[i] && order[i..][1..] == order[i + 1..];
  }

  /** The second loop: the keys in the order of the array. */
  method RewriteWith(value: string, keys: array<string>, mounts: map<string, string>) returns (out: string)
    requires forall n :: 0 <= n < keys.Length ==> keys[n] in mounts
    ensures out == RewriteInOrder(value, keys[..], mounts)
  {
    ghost var order := keys[..];
    out := value;
    for i := 0 to keys.Length
      invariant RewriteInOrder(out, order[i..], mounts) == RewriteInOrder(value, order, mounts)
    {
      RewriteStep(out, order, i, mounts);
      out := ReplacePathToken(out, keys[i], mounts[keys[i]]);
    }
  }

  lemma KeysAreMounts(order: seq<string>, mounts: map<string, string>)
    requires multiset(order) == multiset(mounts.Keys)
    ensures forall i :: 0 <= i < |order| ==> order[i] in mounts
  {
    assert forall i :: 0 <= i < |order| ==> order[i] in multiset(order);
  }

  /** `out` is `value` with every mount rewritten once, in this order, longer mounts first. */
  ghost predicate RewrittenIn(order: seq<string>, value: string, mounts: map<string, string>, out: string) {
    && multiset(order) == multiset(mounts.Keys) && LongestFirst(order)
    && (forall i :: 0 <= i < |order| ==> order[i] in mounts)
    && out == RewriteInOrder(value, order, mounts)
  }

  method RewriteValue(value: string, mounts: map<string, string>) returns (out: string)
    ensures exists order :: RewrittenIn(order, value, mounts, out)
  {
    var keys := KeysOf(mounts);
    ExchangeSort(keys);
    ghost var order := keys[..];
    KeysAreMounts(order, mounts);
    assert forall i :: 0 <= i < keys.Length ==> keys[i] == order[i];
    out := RewriteWith(value, keys, mounts);
    assert RewrittenIn(order, value, mounts, out);
  }

  lemma {:induction false} TokensAreTokens(value: string, needle: string, from: nat)
    requires needle != "" && from <= |value|
    ensures var ps := Tokens(value, needle, from); ps == [] || (from <= ps[0] && IsToken(value, needle, ps[0]))
  {
    var scanned, ps := Scan(value, needle, from), Tokens(value, needle, from);
    if ps != [] {
      var p := ps[0];
      SpacedHead(from, ps, |needle|, |value|);
      BoundedMembers(value, from, scanned, |needle|, p);
      ScanMatches(value, needle, from);
      AllMatchMember(value, needle, scanned, p);
    }
  }

  lemma {:induction false} NoTokenFrom(value: string, needle: string, from: nat)
    requires needle != "" && from <= |value| && forall i :: from <= i ==> !IsToken(value, needle, i)
    ensures Tokens(value, needle, from) == []
  {
    TokensAreTokens(value, needle, from);
  }

  lemma {:induction false} AbsentTokenIsIdentity(value: string, needle: string, r: string)
    requires forall i :: !IsToken(value, needle, i)
    ensures Replaced(value, needle, r) == value
  {
    if needle != "" {
      NoTokenFrom(value, needle, 0);
      assert value[0..] == value;
    }
  }

  /** A text in which the needle occurs once is changed exactly when there is a separator or nothing on
      either side of it. */
  lemma {:induction false} SingleOccurrence(before: string, needle: string, after: string, r: string)
    requires needle != "" && forall i :: i != |before| ==> !MatchAt(before + needle + after, needle, i)
    ensures Replaced(before + needle + after, needle, r) ==
            if (before == "" || Separator(before[|before| - 1])) && (after == "" || Separator(after[0])) then before + r + after
            else before + needle + after
  {
    var value, i, end := before + needle + after, |before|, |before| + |needle|;
    assert value[i..end] == needle && value[..i] == before && value[end..] == after;
    assert 0 < i ==> value[i - 1] == before[i - 1];
    assert after != "" ==> value[end] == after[0];
    if IsToken(value, needle, i) {
      FirstTokenReplaced(value, needle, i, end, r);
    } else {
      AbsentTokenIsIdentity(value, needle, r);
    }
  }

  /** One token, which is the first occurrence. */
  lemma {:induction false} FirstTokenReplaced(value: string, needle: string, i: nat, end: nat, r: string)
    requires needle != "" && IsToken(value, needle, i) && end == i + |needle|
    requires forall j :: 0 <= j < i ==> !MatchAt(value, needle, j)
    requires forall j :: i < j ==> !IsToken(value, needle, j)
    ensures Replaced(value, needle, r) == value[..i] + r + value[end..]
  {
    assert IndexFrom(value, needle, 0) == i;
    TailStepToken(value, needle, 0, i, end, r);
    NoTokenFrom(value, needle, end);
    assert value[0..i] == value[..i];
  }

  /** A name that goes on after the needle, or that the needle ends, is another name. */
  lemma {:induction false} LongerNameStays(before: string, needle: string, after: string, r: string)
    requires needle != "" && forall i :: i != |before| ==> !MatchAt(before + needle + after, needle, i)
    requires (before != "" && NameChar(before[|before| - 1])) || (after != "" && NameChar(after[0]))
    ensures Replaced(before + needle + after, needle, r) == before + needle + after
  {
    SingleOccurrence(before, needle, after, r);
  }

  lemma MatchStarts(value: string, needle: string, i: int)
    requires |needle| >= 2 && MatchAt(value, needle, i)
    ensures value[i] == needle[0] && value[i + 1] == needle[1]
  {
    var part := value[i..i + |needle|];
    assert part[0] == value[i] && part[1] == value[i + 1];
  }

  /** The data mount is not part of the name of a database. */
  lemma DatabaseStays(r: string)
    ensures Replaced("/workspace/database", "/workspace/data", r) == "/workspace/database"
  {
    var mount, value := "/workspace/data", "/workspace/database";
    assert value == "" + mount + "base";
    forall i | i != 0 ensures !MatchAt("" + mount + "base", mount, i) {
      if MatchAt(value, mount, i) {
        MatchStarts(value, mount, i);
      }
    }
    SingleOccurrence("", mount, "base", r);
  }

  /** What sorting longest first is for: a value that is a mount, or a path under one, moves to the mount's
      host path, also when shorter mounts are parts of it. No longer mount may be a token of the value, and
      no other mount that comes later one of the result. */
  lemma {:induction false} MountBecomesHostPath(mount: string, rest: string, order: seq<string>, mounts: map<string, string>)
    requires mount != "" && mount in order && LongestFirst(order) && (rest == "" || rest[0] == '/')
    requires forall i, j :: 0 <= i < j < |order| ==> order[i] != order[j]
    requires forall i :: 0 <= i < |order| ==> order[i] in mounts
    requires forall i :: 0 < i ==> !IsToken(mount + rest, mount, i)
    requires forall k, i :: k in order && |mount| <= |k| && k != mount ==> !IsToken(mount + rest, k, i)
    requires forall k, i :: k in order && |k| <= |mount| && k != mount ==> !IsToken(mounts[mount] + rest, k, i)
    ensures RewriteInOrder(mount + rest, order, mounts) == mounts[mount] + rest
  {
    if order[0] == mount {
      PrefixReplaced(mount, rest, mounts[mount]);
      RewriteNothing(mounts[mount] + rest, order[1..], mounts);
    } else {
      var n :| 0 <= n < |order| && order[n] == mount;
      AbsentTokenIsIdentity(mount + rest, order[0], mounts[order[0]]);
      assert order[1..][n - 1] == mount;
      MountBecomesHostPath(mount, rest, order[1..], mounts);
    }
  }

  lemma {:induction false} PrefixReplaced(mount: string, rest: string, r: string)
    requires mount != "" && (rest == "" || rest[0] == '/') && forall i :: 0 < i ==> !IsToken(mount + rest, mount, i)
    ensures Replaced(mount + rest, mount, r) == r + rest
  {
    var value := mount + rest;
    assert value[0..|mount|] == mount && value[|mount|..] == rest;
    FirstTokenReplaced(value, mount, 0, |mount|, r);
    assert value[..0] == "";
  }

  /** A file under the data mount, with the workspace mounted as well. */
  lemma FileUnderMount(mounts: map<string, string>)
    requires "/workspace/data" in mounts && "/workspace" in mounts
    requires forall i :: !IsToken(mounts["/workspace/data"] + "/train.csv", "/workspace", i)
    ensures RewriteInOrder("/workspace/data/train.csv", ["/workspace/data", "/workspace"], mounts)
         == mounts["/workspace/data"] + "/train.csv"
  {
    var mount, file := "/workspace/data", "/train.csv";
    assert "/workspace/data/train.csv" == mount + file;
    forall i | 0 < i ensures !IsToken(mount + file, mount, i) {
      if MatchAt(mount + file, mount, i) {
        MatchStarts(mount + file, mount, i);
      }
    }
    MountBecomesHostPath(mount, file, [mount, "/workspace"], mounts);
  }

  lemma {:induction false} RewriteNothing(value: string, order: seq<string>, mounts: map<string, string>)
    requires forall i :: 0 <= i < |order| ==> order[i] in mounts
    requires forall k, i :: k in order ==> !IsToken(value, k, i)
    ensures RewriteInOrder(value, order, mounts) == value
  {
    if order != [] {
      AbsentTokenIsIdentity(value, order[0], mounts[order[0]]);
      RewriteNothing(value, order[1..], mounts);
    }
  }
}
