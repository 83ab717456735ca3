/** internal/redact/redact.go: collecting secret values from environments and replacing them in text.
    Recognising a secret key, and rewriting the URIs inside a text that has some, are library string
    work; they are parameters here. */
module Redaction {
  import opened Strings
  import Sorting

  const REPLACEMENT := "[REDACTED]"
  const SCHEME_MARK := "://"

  datatype Redactor = Redactor(values: seq<string>)

  ghost predicate NonEmpty(values: seq<string>) {
    forall i :: 0 <= i < |values| ==> values[i] != ""
  }

  // ---------- Collecting the secrets ----------

  predicate LongEnough(key: string, value: string, isSecretKey: string -> bool) {
    isSecretKey(key) && |value| >= 6
  }

  /** `v` is a secret of one `key=value` pair of the process environment. */
  predicate PairSecret(pair: string, v: string, isSecretKey: string -> bool) {
    var eq := IndexFrom(pair, "=", 0);
    eq >= 0 && pair[eq + 1..] == v && LongEnough(pair[..eq], v, isSecretKey)
  }

  ghost predicate MapSecret(env: map<string, string>, v: string, isSecretKey: string -> bool) {
    exists k :: k in env && env[k] == v && LongEnough(k, v, isSecretKey)
  }

  ghost predicate EnvironSecret(environ: seq<string>, v: string, isSecretKey: string -> bool) {
    exists i :: 0 <= i < |environ| && PairSecret(environ[i], v, isSecretKey)
  }

  /** `v` is the value of a secret key, long enough, in the process environment or in one of the maps. */
  ghost predicate IsSecret(environ: seq<string>, envMaps: seq<map<string, string>>, v: string, isSecretKey: string -> bool) {
    || EnvironSecret(environ, v, isSecretKey)
    || (exists i :: 0 <= i < |envMaps| && MapSecret(envMaps[i], v, isSecretKey))
  }

  predicate Longer(a: string, b: string) {
    |a| > |b|
  }

  ghost predicate Distinct(values: seq<string>) {
    forall i, j :: 0 <= i < j < |values| ==> values[i] != values[j]
  }

  lemma DistinctFromMultiset(values: seq<string>, elements: set<string>)
    requires multiset(values) == multiset(elements)
    ensures Distinct(values) && forall v :: v in values <==> v in elements
  {
    forall v ensures v in values <==> v in elements {
      assert v in values <==> v in multiset(values);
    }
    forall i, j | 0 <= i < j < |values| ensures values[i] != values[j] {
      if values[i] == values[j] {
        Sorting.RepeatedElement(values, i, j);
      }
    }
  }

  method SecretsOfEnviron(environ: seq<string>, isSecretKey: string -> bool) returns (values: set<string>)
    ensures forall v :: v in values <==> EnvironSecret(environ, v, isSecretKey)
  {
    values := {};
    for i := 0 to |environ|
      invariant forall v :: v in values <==> exists j :: 0 <= j < i && PairSecret(environ[j], v, isSecretKey)
    {
      var pair := environ[i];
      var eq := IndexFrom(pair, "=", 0);
      if eq >= 0 && LongEnough(pair[..eq], pair[eq + 1..], isSecretKey) {
        assert PairSecret(environ[i], pair[eq + 1..], isSecretKey);
        values := values + {pair[eq + 1..]};
      }
    }
  }

  method SecretsOfMap(env: map<string, string>, isSecretKey: string -> bool) returns (values: set<string>)
    ensures forall v :: v in values <==> MapSecret(env, v, isSecretKey)
  {
    values := {};
    var keys := env.Keys;
    while keys != {}
      invariant keys <= env.Keys
      invariant forall v :: v in values <==>
        exists k :: k in env && k !in keys && env[k] == v && LongEnough(k, v, isSecretKey)
      decreases keys
    {
      var k :| k in keys;
      if LongEnough(k, env[k], isSecretKey) {
        values := values + {env[k]};
      }
      keys := keys - {k};
    }
  }

  method FromEnvironment(environ: seq<string>, envMaps: seq<map<string, string>>, isSecretKey: string -> bool)
    returns (r: Redactor)
    ensures forall v :: v in r.values <==> IsSecret(environ, envMaps, v, isSecretKey)
    ensures Distinct(r.values) && NonEmpty(r.values)
    ensures forall i, j :: 0 <= i < j < |r.values| ==> |r.values[i]| >= |r.values[j]|
  {
    var values := SecretsOfEnviron(environ, isSecretKey);
    for i := 0 to |envMaps|
      invariant forall v :: v in values <==>
        EnvironSecret(environ, v, isSecretKey) || exists j :: 0 <= j < i && MapSecret(envMaps[j], v, isSecretKey)
    {
      var more := SecretsOfMap(envMaps[i], isSecretKey);
      values := values + more;
    }
    var out := Sorting.SetToSeq(values);
    Sorting.SortSorted(Longer, out);
    r := Redactor(Sorting.StableSort(Longer, out));
    DistinctFromMultiset(r.values, values);
    forall i | 0 <= i < |r.values| ensures r.values[i] != "" {
      assert r.values[i] in r.values;
    }
    forall i, j | 0 <= i < j < |r.values| ensures |r.values[i]| >= |r.values[j]| {
      assert !Longer(r.values[j], r.values[i]);
    }
  }

  ghost predicate VariableOf(pair: string, key: string, v: string) {
    '=' !in key && pair == key + "=" + v
  }

  lemma PairExactly(pair: string, v: string, isSecretKey: string -> bool)
    ensures PairSecret(pair, v, isSecretKey) <==> |v| >= 6 && exists key :: VariableOf(pair, key, v) && isSecretKey(key)
  {
    var eq := IndexFrom(pair, "=", 0);
    forall i { MatchChar(pair, '=', i); }
    if PairSecret(pair, v, isSecretKey) {
      assert pair == pair[..eq] + "=" + pair[eq + 1..];
      assert VariableOf(pair, pair[..eq], v);
    }
    if key :| VariableOf(pair, key, v) && isSecretKey(key) {
      FirstEquals(key, v);
    }
  }

  lemma FirstEquals(key: string, v: string)
    requires '=' !in key
    ensures IndexFrom(key + "=" + v, "=", 0) == |key|
    ensures (key + "=" + v)[..|key|] == key && (key + "=" + v)[|key| + 1..] == v
  {
    var pair := key + "=" + v;
    forall i { MatchChar(pair, '=', i); }
    assert pair[|key|] == '=' && forall i :: 0 <= i < |key| ==> pair[i] == key[i];
  }

  /** Which values are secrets: those with at least six characters that stand after the first "=" of a variable
      with a secret key, or under a secret key in a map. */
  lemma SecretsExactly(environ: seq<string>, envMaps: seq<map<string, string>>, v: string, isSecretKey: string -> bool)
    ensures IsSecret(environ, envMaps, v, isSecretKey) <==>
            && |v| >= 6
            && ((exists i, key :: 0 <= i < |environ| && VariableOf(environ[i], key, v) && isSecretKey(key))
                || (exists i, key :: 0 <= i < |envMaps| && key in envMaps[i] && envMaps[i][key] == v && isSecretKey(key)))
  {
    forall i | 0 <= i < |environ|
      ensures PairSecret(environ[i], v, isSecretKey) <==>
              |v| >= 6 && exists key :: VariableOf(environ[i], key, v) && isSecretKey(key)
    {
      PairExactly(environ[i], v, isSecretKey);
    }
  }

  // ---------- Replacing the secrets ----------

  /** Each secret in turn replaced in what the earlier replacements left. */
  function RedactAll(values: seq<string>, text: string): string
    requires NonEmpty(values)
  {
    if values == [] then text
    else RedactAll(values[1..], ReplaceAll(text, values[0], REPLACEMENT))
  }

  function SanitizeURIReferences(text: string, rewriteRefs: string -> string): string {
    if IndexFrom(text, SCHEME_MARK, 0) < 0 then text else rewriteRefs(text)
  }

  function Redacted(r: Redactor, text: string, rewriteRefs: string -> string): string
    requires NonEmpty(r.values)
  {
    SanitizeURIReferences(RedactAll(r.values, text), rewriteRefs)
  }

  method RedactString(r: Redactor, text: string, rewriteRefs: string -> string) returns (out: string)
    requires NonEmpty(r.values)
    ensures out == Redacted(r, text, rewriteRefs)
  {
    out := text;
    for i := 0 to |r.values|
      invariant RedactAll(r.values[i..], out) == RedactAll(r.values, text)
    {
      out := ReplaceAll(out, r.values[i], REPLACEMENT);
      assert r.values[i..][1..] == r.values[i + 1..];
    }
    out := SanitizeURIReferences(out, rewriteRefs);
  }

  // ---------- No secret survives ----------

  /** `t` can neither contain `m`, nor lie in it, nor overlap one of its ends: an occurrence of `t` never
      touches an `m`. */
  ghost predicate Apart(t: string, m: string) {
    && t != ""
    && !Contains(m, t) && !Contains(t, m)
    && (forall n :: 0 < n < |t| && n < |m| ==> t[..n] != m[|m| - n..])
    && (forall n :: 0 < n < |t| && n < |m| ==> t[|t| - n..] != m[..n])
  }

  /** `t` is apart from the replacement. */
  ghost predicate Detached(t: string) {
    Apart(t, REPLACEMENT)
  }

  predicate BracketFree(t: string) {
    '[' !in t && ']' !in t
  }

  lemma SliceOfMatch(s: string, t: string, k: nat, x: nat, y: nat)
    requires MatchAt(s, t, k) && x <= y <= |t|
    ensures t[x..y] == s[k + x..k + y]
  {
    forall i | 0 <= i < y - x ensures t[x..y][i] == s[k + x..k + y][i] {
      assert t[x..y][i] == t[x + i] == s[k..k + |t|][x + i] == s[k + (x + i)];
    }
  }

  lemma TouchesHead(s: string, m: string, at: nat, t: string, k: nat)
    requires at + |m| <= |s| && s[at..at + |m|] == m && MatchAt(s, t, k) && k < at < k + |t|
    ensures !Apart(t, m)
  {
    var n := k + |t| - at;
    assert MatchAt(s, m, at);
    if n < |m| {
      SliceOfMatch(s, t, k, |t| - n, |t|);
      SliceOfMatch(s, m, at, 0, n);
      assert t[|t| - n..] == t[|t| - n..|t|] && m[0..n] == m[..n];
    } else {
      SliceOfMatch(s, t, k, at - k, at - k + |m|);
      assert MatchAt(t, m, at - k);
    }
  }

  lemma TouchesTail(s: string, m: string, at: nat, t: string, k: nat)
    requires at + |m| <= |s| && s[at..at + |m|] == m && MatchAt(s, t, k) && at <= k < at + |m| < k + |t|
    ensures !Apart(t, m)
  {
    var n := at + |m| - k;
    assert MatchAt(s, m, at);
    SliceOfMatch(s, t, k, 0, n);
    SliceOfMatch(s, m, at, |m| - n, |m|);
    assert t[..n] == t[0..n] && m[|m| - n..] == m[|m| - n..|m|];
    if n == |m| {
      assert MatchAt(t, m, 0);
    }
  }

  lemma LiesInside(s: string, m: string, at: nat, t: string, k: nat)
    requires at + |m| <= |s| && s[at..at + |m|] == m && MatchAt(s, t, k) && at <= k && k + |t| <= at + |m|
    ensures !Apart(t, m)
  {
    assert MatchAt(s, m, at);
    SliceOfMatch(s, m, at, k - at, k - at + |t|);
    assert MatchAt(m, t, k - at);
  }

  /** An occurrence that touches the replacement is of a string that is not detached. */
  lemma TouchingOccurrence(a: string, m: string, b: string, t: string, k: int)
    requires MatchAt(a + m + b, t, k) && |a| < k + |t| && k < |a| + |m|
    ensures !Apart(t, m)
  {
    var s := a + m + b;
    assert s[|a|..|a| + |m|] == m;
    if k < |a| {
      TouchesHead(s, m, |a|, t, k);
    } else if k + |t| <= |a| + |m| {
      LiesInside(s, m, |a|, t, k);
    } else {
      TouchesTail(s, m, |a|, t, k);
    }
  }

  lemma OccurrenceBesideReplacement(a: string, b: string, t: string)
    requires Detached(t) && Contains(a + REPLACEMENT + b, t)
    ensures Contains(a, t) || Contains(b, t)
  {
    var s, R := a + REPLACEMENT + b, |REPLACEMENT|;
    var k :| MatchAt(s, t, k);
    if |a| < k + |t| && k < |a| + R {
      TouchingOccurrence(a, REPLACEMENT, b, t, k);
    } else if k + |t| <= |a| {
      SliceMatch(s, t, 0, |a|, k);
      assert s[0..|a|] == a;
    } else {
      SliceMatch(s, t, |a| + R, |s|, k);
      assert s[|a| + R..|s|] == b;
    }
  }

  lemma ContainsInSlice(s: string, t: string, lo: nat, hi: nat)
    requires lo <= hi <= |s| && Contains(s[lo..hi], t)
    ensures exists k :: lo <= k && k + |t| <= hi && MatchAt(s, t, k)
  {
    var k :| MatchAt(s[lo..hi], t, k);
    SliceMatch(s, t, lo, hi, lo + k);
    assert MatchAt(s, t, lo + k);
  }

  /** A replacement creates no occurrence of a detached string, and removes every occurrence of the
      string it replaces. */
  lemma {:induction false} ReplaceCreatesNothing(text: string, s: string, t: string)
    requires s != "" && Detached(t)
    requires Contains(ReplaceAll(text, s, REPLACEMENT), t)
    ensures Contains(text, t) && s != t
  {
    var i := IndexFrom(text, s, 0);
    if i >= 0 {
      var rest := text[i + |s|..];
      assert rest == text[i + |s|..|text|] && text[..i] == text[0..i];
      OccurrenceBesideReplacement(text[..i], ReplaceAll(rest, s, REPLACEMENT), t);
      if Contains(text[..i], t) {
        ContainsInSlice(text, t, 0, i);
      } else {
        ReplaceCreatesNothing(rest, s, t);
        ContainsInSlice(text, t, i + |s|, |text|);
      }
    }
  }

  lemma {:induction false} RedactCreatesNothing(values: seq<string>, text: string, t: string)
    requires NonEmpty(values) && Detached(t)
    requires Contains(RedactAll(values, text), t)
    ensures Contains(text, t) && t !in values
  {
    if values != [] {
      RedactCreatesNothing(values[1..], ReplaceAll(text, values[0], REPLACEMENT), t);
      ReplaceCreatesNothing(text, values[0], t);
    }
  }

  lemma ReplaceNothing(text: string, s: string)
    requires s != "" && !Contains(text, s)
    ensures ReplaceAll(text, s, REPLACEMENT) == text
  {
  }

  lemma {:induction false} RedactNothing(values: seq<string>, text: string)
    requires NonEmpty(values) && forall s :: s in values ==> !Contains(text, s)
    ensures RedactAll(values, text) == text
  {
    if values != [] {
      ReplaceNothing(text, values[0]);
      RedactNothing(values[1..], text);
    }
  }

  lemma SchemeMarkIsDetached()
    ensures Detached(SCHEME_MARK)
  {
    assert ':' in SCHEME_MARK;
    if Contains("REDACTED", SCHEME_MARK) {
      ContainsChars("REDACTED", SCHEME_MARK);
    }
    BracketFreeIsDetached(SCHEME_MARK);
  }

  lemma InsideReplacement(t: string)
    requires t != "" && Contains(REPLACEMENT, t)
    ensures '[' in t || ']' in t || Contains("REDACTED", t)
  {
    var k :| MatchAt(REPLACEMENT, t, k);
    if k == 0 {
      assert t[0] == REPLACEMENT[0];
    } else if k + |t| == |REPLACEMENT| {
      assert t[|t| - 1] == REPLACEMENT[|REPLACEMENT| - 1];
    } else {
      assert REPLACEMENT[1..9] == "REDACTED";
      SliceMatch(REPLACEMENT, t, 1, 9, k);
    }
  }

  lemma EndsOfReplacement(n: nat)
    requires 0 < n < |REPLACEMENT|
    ensures ']' in REPLACEMENT[|REPLACEMENT| - n..] && '[' in REPLACEMENT[..n]
  {
    assert REPLACEMENT[|REPLACEMENT| - n..][n - 1] == ']';
    assert REPLACEMENT[..n][0] == '[';
  }

  lemma BracketFreeIsDetached(t: string)
    requires t != "" && BracketFree(t) && !Contains("REDACTED", t)
    ensures Detached(t)
  {
    if Contains(REPLACEMENT, t) {
      InsideReplacement(t);
    }
    assert '[' in REPLACEMENT by { assert REPLACEMENT[0] == '['; }
    if Contains(t, REPLACEMENT) {
      ContainsChars(t, REPLACEMENT);
    }
    forall n | 0 < n < |t| && n < |REPLACEMENT|
      ensures t[..n] != REPLACEMENT[|REPLACEMENT| - n..] && t[|t| - n..] != REPLACEMENT[..n]
    {
      EndsOfReplacement(n);
      assert ']' !in t[..n] && '[' !in t[|t| - n..];
    }
  }

  lemma SanitizeKeepsPlainText(text: string, rewriteRefs: string -> string)
    requires !Contains(text, SCHEME_MARK)
    ensures SanitizeURIReferences(text, rewriteRefs) == text
  {
    assert IndexFrom(text, SCHEME_MARK, 0) < 0;
  }

  /** When the replacements leave a scheme mark, the references in what they leave are rewritten, and otherwise
      nothing is. */
  lemma ReferencesRewrittenExactly(r: Redactor, text: string, rewriteRefs: string -> string)
    requires NonEmpty(r.values)
    ensures var left := RedactAll(r.values, text);
            && (Contains(left, "://") ==> Redacted(r, text, rewriteRefs) == rewriteRefs(left))
            && (!Contains(left, "://") ==> Redacted(r, text, rewriteRefs) == left)
  {
    var left := RedactAll(r.values, text);
    if i :| MatchAt(left, "://", i) {
      assert IndexFrom(left, "://", 0) >= 0;
    }
  }

  /** Main result: with detached secrets and a text without URIs, redaction leaves no secret, makes no
      URI, and a second redaction changes nothing. */
  lemma NoSecretSurvives(r: Redactor, text: string, rewriteRefs: string -> string)
    requires NonEmpty(r.values) && forall s :: s in r.values ==> Detached(s)
    requires !Contains(text, SCHEME_MARK)
    ensures forall s :: s in r.values ==> !Contains(Redacted(r, text, rewriteRefs), s)
    ensures !Contains(Redacted(r, text, rewriteRefs), SCHEME_MARK)
    ensures Redacted(r, Redacted(r, text, rewriteRefs), rewriteRefs) == Redacted(r, text, rewriteRefs)
  {
    var out := RedactAll(r.values, text);
    SchemeMarkIsDetached();
    if Contains(out, SCHEME_MARK) { RedactCreatesNothing(r.values, text, SCHEME_MARK); }
    SanitizeKeepsPlainText(out, rewriteRefs);
    forall s | s in r.values ensures !Contains(out, s) {
      if Contains(out, s) { RedactCreatesNothing(r.values, text, s); }
    }
    RedactNothing(r.values, out);
  }

  lemma ReplacementPersists(text: string, s: string)
    requires s != "" && (Contains(text, s) || Contains(text, REPLACEMENT))
    ensures Contains(ReplaceAll(text, s, REPLACEMENT), REPLACEMENT)
  {
    var i := IndexFrom(text, s, 0);
    if i >= 0 {
      var out := ReplaceAll(text, s, REPLACEMENT);
      assert out[i..i + |REPLACEMENT|] == REPLACEMENT;
      assert MatchAt(out, REPLACEMENT, i);
    }
  }

  lemma {:induction false} RedactLeavesMark(values: seq<string>, text: string)
    requires NonEmpty(values)
    requires Contains(text, REPLACEMENT) || exists s :: s in values && Contains(text, s)
    ensures Contains(RedactAll(values, text), REPLACEMENT)
  {
    if values != [] {
      if Contains(text, REPLACEMENT) || Contains(text, values[0]) {
        ReplacementPersists(text, values[0]);
      } else {
        ReplaceNothing(text, values[0]);
      }
      RedactLeavesMark(values[1..], ReplaceAll(text, values[0], REPLACEMENT));
    }
  }

  ghost predicate LeakFree(r: Redactor, text: string, rewriteRefs: string -> string)
    requires NonEmpty(r.values)
  {
    forall s :: s in r.values ==> !Contains(Redacted(r, text, rewriteRefs), s)
  }

  lemma FragmentLeaks(r: Redactor, s: string, rewriteRefs: string -> string)
    requires NonEmpty(r.values) && s in r.values && Contains("REDACTED", s)
    ensures !Contains(s, SCHEME_MARK) && !LeakFree(r, s, rewriteRefs)
  {
    SchemeMarkIsDetached();
    assert MatchAt(REPLACEMENT, "REDACTED", 1);
    if Contains(s, SCHEME_MARK) {
      ContainsTransitive("REDACTED", s, SCHEME_MARK);
      ContainsTransitive(REPLACEMENT, "REDACTED", SCHEME_MARK);
    }
    var out := RedactAll(r.values, s);
    assert MatchAt(s, s, 0);
    RedactLeavesMark(r.values, s);
    ContainsTransitive(out, REPLACEMENT, "REDACTED");
    ContainsTransitive(out, "REDACTED", s);
    if Contains(out, SCHEME_MARK) {
      RedactCreatesNothing(r.values, s, SCHEME_MARK);
    }
    SanitizeKeepsPlainText(out, rewriteRefs);
  }

  /** Such a secret, long enough to be collected. */
  lemma RedactSurvives(rewriteRefs: string -> string)
    ensures !LeakFree(Redactor(["REDACT"]), "REDACT", rewriteRefs)
  {
    assert "REDACTED"[0..6] == "REDACT";
    assert MatchAt("REDACTED", "REDACT", 0);
    FragmentLeaks(Redactor(["REDACT"]), "REDACT", rewriteRefs);
  }

  /** Exactly when secrets without brackets never survive, over all texts without URIs: none of them
      is a fragment of the word REDACTED. */
  lemma LeakFreeExactly(r: Redactor, rewriteRefs: string -> string)
    requires NonEmpty(r.values) && forall s :: s in r.values ==> BracketFree(s)
    ensures (forall text :: !Contains(text, SCHEME_MARK) ==> LeakFree(r, text, rewriteRefs))
       <==> (forall s :: s in r.values ==> !Contains("REDACTED", s))
  {
    if forall s :: s in r.values ==> !Contains("REDACTED", s) {
      forall s | s in r.values ensures Detached(s) { BracketFreeIsDetached(s); }
      forall text | !Contains(text, SCHEME_MARK) ensures LeakFree(r, text, rewriteRefs) {
        NoSecretSurvives(r, text, rewriteRefs);
      }
    } else {
      var s :| s in r.values && Contains("REDACTED", s);
      FragmentLeaks(r, s, rewriteRefs);
    }
  }

  lemma FirstMatchAtFive()
    ensures IndexFrom("pass1pass1[", "pass1[", 0) == 5
  {
    var s, text := "pass1[", "pass1pass1[";
    assert text[5..11] == s;
    assert MatchAt(text, s, 5);
    forall j | 0 <= j < 5 ensures !MatchAt(text, s, j) {
      assert text[j..j + 6][5] != '[';
    }
  }

  lemma BracketSecretReplacement()
    ensures RedactAll(["pass1["], "pass1pass1[") == "pass1[REDACTED]"
  {
    var s, text := "pass1[", "pass1pass1[";
    FirstMatchAtFive();
    assert text[11..] == "" && text[..5] == "pass1";
    assert IndexFrom("", s, 0) == -1;
    assert ReplaceAll(text, s, REPLACEMENT) == "pass1" + REPLACEMENT + "" == "pass1[REDACTED]";
    assert [s][1..] == [];
  }

  /** What the replacements leave is the result when it has no colon. */
  lemma ResultLeaks(r: Redactor, text: string, out: string, s: string, rewriteRefs: string -> string)
    requires NonEmpty(r.values) && RedactAll(r.values, text) == out && ':' !in out
    requires s in r.values && MatchAt(out, s, 0)
    ensures !LeakFree(r, text, rewriteRefs)
  {
    assert ':' in SCHEME_MARK;
    if Contains(out, SCHEME_MARK) {
      ContainsChars(out, SCHEME_MARK);
    }
    SanitizeKeepsPlainText(out, rewriteRefs);
  }

  /** A secret with a bracket can be rebuilt from the text before a match and the replacement. */
  lemma BracketSecretCanLeak(rewriteRefs: string -> string)
    ensures !LeakFree(Redactor(["pass1["]), "pass1pass1[", rewriteRefs)
  {
    var s, out := "pass1[", "pass1[REDACTED]";
    BracketSecretReplacement();
    assert out[0..6] == s;
    ResultLeaks(Redactor([s]), "pass1pass1[", out, s, rewriteRefs);
  }

  // ---------- One secret ----------

  /** The text begins again inside itself. */
  ghost predicate OverlapsItself(s: string) {
    exists d :: 0 < d < |s| && s[d..] <= s
  }

  lemma ShiftedMatchOverlaps(text: string, s: string, i: nat, j: nat)
    requires MatchAt(text, s, i) && MatchAt(text, s, j) && i < j < i + |s|
    ensures OverlapsItself(s)
  {
    var d := j - i;
    SliceOfMatch(text, s, i, d, |s|);
    SliceOfMatch(text, s, j, 0, |s| - d);
    assert s[d..] == s[d..|s|] == s[0..|s| - d];
    assert s[d..] <= s;
  }

  lemma ReplaceInTheMiddle(p: string, s: string, q: string, m: string)
    requires |p| < |s| && |q| < |s| && !OverlapsItself(s)
    ensures ReplaceAll(p + s + q, s, m) == p + m + q
  {
    var text := p + s + q;
    assert text[|p|..|p| + |s|] == s && text[|p| + |s|..] == q && text[..|p|] == p;
    assert MatchAt(text, s, |p|);
    forall i | 0 <= i < |p| ensures !MatchAt(text, s, i) {
      if MatchAt(text, s, i) {
        ShiftedMatchOverlaps(text, s, i, |p|);
      }
    }
    assert IndexFrom(text, s, 0) == |p|;
    assert IndexFrom(q, s, 0) == -1;
  }

  lemma InsideReappears(s: string, m: string) returns (text: string)
    requires s != "" && !OverlapsItself(s) && Contains(m, s)
    ensures Contains(ReplaceAll(text, s, m), s)
  {
    text := "" + s + "";
    ReplaceInTheMiddle("", s, "", m);
    assert "" + m + "" == m;
  }

  lemma SplitAround(s: string, m: string, i: nat)
    requires MatchAt(s, m, i)
    ensures s == s[..i] + m + s[i + |m|..]
  {
  }

  lemma AroundReappears(s: string, m: string) returns (text: string)
    requires m != "" && !OverlapsItself(s) && Contains(s, m)
    ensures Contains(ReplaceAll(text, s, m), s)
  {
    var i :| MatchAt(s, m, i);
    SplitAround(s, m, i);
    var p, q := s[..i], s[i + |m|..];
    text := p + s + q;
    ReplaceInTheMiddle(p, s, q, m);
    PieceMatches("", s, "");
    assert "" + s + "" == s;
  }

  lemma PieceMatches(a: string, b: string, c: string)
    ensures Contains(a + b + c, b)
  {
    assert (a + b + c)[|a|..|a| + |b|] == b;
    assert MatchAt(a + b + c, b, |a|);
  }

  lemma Regroup(a: string, b: string, c: string)
    ensures "" + (a + b) + c == a + (b + c) + ""
    ensures a + (b + c) + "" == "" + (a + b) + c
  {
  }

  /** The secret `h + q` begins with the end of the mark `rest + h`. */
  lemma HeadReappears(h: string, q: string, rest: string)
    requires h != "" && !OverlapsItself(h + q)
    ensures Contains(ReplaceAll("" + (h + q) + q, h + q, rest + h), h + q)
  {
    ReplaceInTheMiddle("", h + q, q, rest + h);
    Regroup(rest, h, q);
    PieceMatches(rest, h + q, "");
  }

  /** The secret `p + h` ends with the beginning of the mark `h + rest`. */
  lemma TailReappears(p: string, h: string, rest: string)
    requires h != "" && !OverlapsItself(p + h)
    ensures Contains(ReplaceAll(p + (p + h) + "", p + h, h + rest), p + h)
  {
    ReplaceInTheMiddle(p, p + h, "", h + rest);
    Regroup(p, h, rest);
    PieceMatches("", p + h, rest);
  }

  /** A text that is left with the secret in it, when the secret is not apart from the mark. */
  lemma SecretReappears(s: string, m: string) returns (text: string)
    requires s != "" && m != "" && !OverlapsItself(s) && !Apart(s, m)
    ensures Contains(ReplaceAll(text, s, m), s)
  {
    if Contains(m, s) {
      text := InsideReappears(s, m);
    } else if Contains(s, m) {
      text := AroundReappears(s, m);
    } else if n :| 0 < n < |s| && n < |m| && s[..n] == m[|m| - n..] {
      text := HeadText(s, m, n);
    } else {
      var n :| 0 < n < |s| && n < |m| && s[|s| - n..] == m[..n];
      text := TailText(s, m, n);
    }
  }

  lemma HeadText(s: string, m: string, n: nat) returns (text: string)
    requires 0 < n < |s| && n < |m| && s[..n] == m[|m| - n..] && !OverlapsItself(s)
    ensures Contains(ReplaceAll(text, s, m), s)
  {
    var h, q, rest := s[..n], s[n..], m[..|m| - n];
    assert s == h + q && m == rest + h;
    text := "" + (h + q) + q;
    HeadReappears(h, q, rest);
  }

  lemma TailText(s: string, m: string, n: nat) returns (text: string)
    requires 0 < n < |s| && n < |m| && s[|s| - n..] == m[..n] && !OverlapsItself(s)
    ensures Contains(ReplaceAll(text, s, m), s)
  {
    var p, h, rest := s[..|s| - n], m[..n], m[n..];
    assert s == p + h && m == h + rest;
    text := p + (p + h) + "";
    TailReappears(p, h, rest);
  }

  lemma RedactOne(s: string, text: string)
    requires s != ""
    ensures RedactAll([s], text) == ReplaceAll(text, s, REPLACEMENT)
  {
    assert [s][1..] == [];
  }

  /** Exactly when the replacement of one secret that does not overlap itself, with or without brackets,
      never leaves the secret in any text. */
  lemma SingleSecretExactly(s: string)
    requires s != "" && !OverlapsItself(s)
    ensures (forall text :: !Contains(RedactAll([s], text), s)) <==> Detached(s)
  {
    if Detached(s) {
      forall text ensures !Contains(RedactAll([s], text), s) {
        RedactOne(s, text);
        if Contains(ReplaceAll(text, s, REPLACEMENT), s) {
          ReplaceCreatesNothing(text, s, s);
        }
      }
    } else {
      var text := SecretReappears(s, REPLACEMENT);
      RedactOne(s, text);
    }
  }

  // ---------- Why the secrets are sorted longest first ----------

  /** With the list `FromEnvironment` builds, a secret standing alone is replaced as a whole, even
      when shorter secrets are parts of it. */
  lemma {:induction false} WholeSecretReplaced(values: seq<string>, s: string)
    requires s in values && Distinct(values) && NonEmpty(values)
    requires forall i, j :: 0 <= i < j < |values| ==> |values[i]| >= |values[j]|
    requires forall v :: v in values ==> Detached(v)
    ensures RedactAll(values, s) == "[REDACTED]"
  {
    if values[0] == s {
      assert MatchAt(s, s, 0) && s[|s|..] == "" && s[..0] == "";
      assert IndexFrom("", s, 0) == -1;
      assert ReplaceAll(s, s, REPLACEMENT) == "" + REPLACEMENT + "" == REPLACEMENT;
      assert forall v :: v in values[1..] ==> v in values;
      RedactNothing(values[1..], REPLACEMENT);
    } else {
      var k :| 0 <= k < |values| && values[k] == s;
      if Contains(s, values[0]) {
        ContainedIsShorter(s, values[0]);
      }
      ReplaceNothing(s, values[0]);
      assert values[1..][k - 1] == s;
      WholeSecretReplaced(values[1..], s);
    }
  }
}
