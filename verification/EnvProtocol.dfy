/** The environment protocol for data inputs: `RuntimeEnv` of internal/staging/staging.go writes the
    variables that `discover_inputs` of runtime/container/switchboard_materialize_data.py reads. */
module EnvProtocol {
  import opened Wrappers
  import opened EnvKeys
  import Sorting
  import Strings

  // ---------- Names of variables ----------

  const DATA := "SWITCHBOARD_DATA_"
  const URI := "_URI"
  const MOUNT := "_MOUNT"

  /** The four prefix variables. */
  const CHECKPOINT_PREFIX := "SWITCHBOARD_CHECKPOINT_URI_PREFIX"
  const OLD_CHECKPOINT_PREFIX := "ORCHESTRATOR_CHECKPOINT_URI_PREFIX"
  const DATA_PREFIX := "SWITCHBOARD_DATA_URI_PREFIX"
  const OLD_DATA_PREFIX := "ORCHESTRATOR_DATA_URI_PREFIX"

  function UriVar(key: string): string {
    DATA + key + URI
  }

  function MountVar(key: string): string {
    DATA + key + MOUNT
  }

  /** The pattern of the reader: the key between the two fixed parts. The end mark of the pattern also
      matches before one line feed at the end of the name. */
  function MatchDataUri(name: string): Option<string> {
    var end := if name != "" && name[|name| - 1] == '\n' then |name| - 1 else |name|;
    if |DATA| + |URI| <= end && name[..|DATA|] == DATA && name[end - |URI|..end] == URI && IsKey(name[|DATA|..end - |URI|])
    then Some(name[|DATA|..end - |URI|]) else None
  }

  /** The last character of a name tells the three kinds of variables apart. */
  function LastChar(name: string): char {
    if name == "" then ' ' else name[|name| - 1]
  }

  lemma Endings(key: string)
    ensures LastChar(UriVar(key)) == 'I' && LastChar(MountVar(key)) == 'T'
  {
    assert UriVar(key)[|UriVar(key)| - 1] == URI[3];
    assert MountVar(key)[|MountVar(key)| - 1] == MOUNT[5];
  }

  lemma MatchesUriVar(key: string)
    ensures MatchDataUri(UriVar(key)) == if IsKey(key) then Some(key) else None
  {
    Endings(key);
    var name := UriVar(key);
    assert name[..|DATA|] == DATA && name[|name| - |URI|..] == URI && name[|DATA|..|name| - |URI|] == key;
  }

  /** The reader takes a variable for the source of an input exactly when its key is of capital letters, digits and
      underscores; one line feed at the end of the name makes no difference. */
  lemma AdmittedExactly(key: string)
    ensures MatchDataUri("SWITCHBOARD_DATA_" + key + "_URI") ==
            if key != "" && forall i :: 0 <= i < |key| ==> 'A' <= key[i] <= 'Z' || '0' <= key[i] <= '9' || key[i] == '_'
            then Some(key) else None
    ensures MatchDataUri("SWITCHBOARD_DATA_" + key + "_URI" + "\n") == MatchDataUri("SWITCHBOARD_DATA_" + key + "_URI")
  {
    MatchesUriVar(key);
    var name := UriVar(key);
    var fed := name + "\n";
    assert fed[|fed| - 1] == '\n' && fed[..|name|] == name;
    assert fed[..|DATA|] == DATA && fed[|name| - |URI|..|name|] == URI && fed[|DATA|..|name| - |URI|] == key;
  }

  lemma MatchesNothingElse(name: string)
    requires MatchDataUri(name).Some? && LastChar(name) != '\n'
    ensures LastChar(name) == 'I' && name == UriVar(MatchDataUri(name).value)
  {
    var n := |name| - |URI|;
    assert name[n..][3] == URI[3];
    assert name == name[..|DATA|] + name[|DATA|..n] + name[n..];
  }

  lemma UriVarsDiffer(a: string, b: string)
    ensures UriVar(a) == UriVar(b) <==> a == b
    ensures MountVar(a) == MountVar(b) <==> a == b
    ensures UriVar(a) != MountVar(b)
  {
    Endings(a);
    Endings(b);
    assert UriVar(a)[|DATA|..|DATA| + |a|] == a && UriVar(b)[|DATA|..|DATA| + |b|] == b;
    assert MountVar(a)[|DATA|..|DATA| + |a|] == a && MountVar(b)[|DATA|..|DATA| + |b|] == b;
  }

  lemma PrefixEndings()
    ensures LastChar(CHECKPOINT_PREFIX) == LastChar(OLD_CHECKPOINT_PREFIX) == LastChar(DATA_PREFIX) == LastChar(OLD_DATA_PREFIX) == 'X'
  {
  }

  // ---------- The writer ----------

  datatype InputMode = UriMode | BundleMode

  datatype DataInput = DataInput(mode: InputMode, name: string, source: string, mount: string)

  type Env = map<string, string>

  function KeyOf(input: DataInput, u: Unicode): string {
    Joined(Words(input.name, u))
  }

  /** The input gets variables. */
  predicate Exported(input: DataInput, u: Unicode) {
    input.mode.UriMode? && input.source != "" && input.name != "" && KeyOf(input, u) != ""
  }

  function AddInput(env: Env, input: DataInput, u: Unicode): Env {
    if !Exported(input, u) then env
    else
      var e := env[UriVar(KeyOf(input, u)) := input.source];
      if input.mount != "" then e[MountVar(KeyOf(input, u)) := input.mount] else e
  }

  function AddInputs(env: Env, inputs: seq<DataInput>, u: Unicode): Env {
    if inputs == [] then env
    else AddInput(AddInputs(env, inputs[..|inputs| - 1], u), inputs[|inputs| - 1], u)
  }

  function PrefixEnv(checkpointPrefix: Option<string>, dataPrefix: Option<string>): Env {
    var env: Env := map[];
    var env := if checkpointPrefix.Some?
               then env[CHECKPOINT_PREFIX := checkpointPrefix.value][OLD_CHECKPOINT_PREFIX := checkpointPrefix.value] else env;
    if dataPrefix.Some? then env[DATA_PREFIX := dataPrefix.value][OLD_DATA_PREFIX := dataPrefix.value] else env
  }

  /** The prefixes are given as the joined URIs, or None where the configuration has none. */
  method RuntimeEnv(checkpointPrefix: Option<string>, dataPrefix: Option<string>, inputs: seq<DataInput>, u: Unicode)
    returns (env: Env)
    requires Sane(u)
    ensures env == AddInputs(PrefixEnv(checkpointPrefix, dataPrefix), inputs, u)
  {
    env := PrefixEnv(checkpointPrefix, dataPrefix);
    for n := 0 to |inputs|
      invariant env == AddInputs(PrefixEnv(checkpointPrefix, dataPrefix), inputs[..n], u)
    {
      assert inputs[..n + 1][..n] == inputs[..n];
      var input := inputs[n];
      if input.mode != UriMode || input.source == "" || input.name == "" {
        continue;
      }
      var key := InputEnvKey(input.name, u);
      if key == "" {
        continue;
      }
      env := env[UriVar(key) := input.source];
      if input.mount != "" {
        env := env[MountVar(key) := input.mount];
      }
    }
    assert inputs[..|inputs|] == inputs;
  }

  // ---------- What the writer leaves for a key ----------

  /** The source of the last exported input with the key. */
  function SourceFor(inputs: seq<DataInput>, key: string, u: Unicode): Option<string> {
    if inputs == [] then None
    else
      var input := inputs[|inputs| - 1];
      if Exported(input, u) && KeyOf(input, u) == key then Some(input.source)
      else SourceFor(inputs[..|inputs| - 1], key, u)
  }

  /** The mount of the last exported input with the key that has one. */
  function MountFor(inputs: seq<DataInput>, key: string, u: Unicode): Option<string> {
    if inputs == [] then None
    else
      var input := inputs[|inputs| - 1];
      if Exported(input, u) && KeyOf(input, u) == key && input.mount != "" then Some(input.mount)
      else MountFor(inputs[..|inputs| - 1], key, u)
  }

  function Lookup(env: Env, name: string): Option<string> {
    if name in env then Some(env[name]) else None
  }

  /** An environment without variables of data inputs. */
  ghost predicate NoInputs(env: Env) {
    forall name :: name in env ==> LastChar(name) == 'X'
  }

  lemma PrefixEnvHasNoInputs(checkpointPrefix: Option<string>, dataPrefix: Option<string>)
    ensures NoInputs(PrefixEnv(checkpointPrefix, dataPrefix))
  {
    PrefixEndings();
  }

  lemma {:induction false} WriterLeaves(env: Env, inputs: seq<DataInput>, key: string, u: Unicode)
    requires NoInputs(env)
    ensures Lookup(AddInputs(env, inputs, u), "SWITCHBOARD_DATA_" + key + "_URI") == SourceFor(inputs, key, u)
    ensures Lookup(AddInputs(env, inputs, u), "SWITCHBOARD_DATA_" + key + "_MOUNT") == MountFor(inputs, key, u)
  {
    Endings(key);
    if inputs != [] {
      var input := inputs[|inputs| - 1];
      WriterLeaves(env, inputs[..|inputs| - 1], key, u);
      UriVarsDiffer(key, KeyOf(input, u));
      UriVarsDiffer(KeyOf(input, u), key);
    }
  }

  lemma {:induction false} PrefixesStay(env: Env, inputs: seq<DataInput>, name: string, u: Unicode)
    requires LastChar(name) == 'X'
    ensures Lookup(AddInputs(env, inputs, u), name) == Lookup(env, name)
  {
    if inputs != [] {
      PrefixesStay(env, inputs[..|inputs| - 1], name, u);
      Endings(KeyOf(inputs[|inputs| - 1], u));
    }
  }

  lemma PrefixNamesDiffer()
    ensures CHECKPOINT_PREFIX != OLD_CHECKPOINT_PREFIX && CHECKPOINT_PREFIX != DATA_PREFIX && CHECKPOINT_PREFIX != OLD_DATA_PREFIX
    ensures OLD_CHECKPOINT_PREFIX != DATA_PREFIX && OLD_CHECKPOINT_PREFIX != OLD_DATA_PREFIX && DATA_PREFIX != OLD_DATA_PREFIX
  {
    assert |CHECKPOINT_PREFIX| == 33 && |OLD_CHECKPOINT_PREFIX| == 34 && |DATA_PREFIX| == 27 && |OLD_DATA_PREFIX| == 28;
  }

  /** Each prefix is in the map under its new and its old name, and only when it is configured, whatever the
      inputs are. */
  lemma PrefixesAreLeft(checkpointPrefix: Option<string>, dataPrefix: Option<string>, inputs: seq<DataInput>, u: Unicode)
    ensures var env := AddInputs(PrefixEnv(checkpointPrefix, dataPrefix), inputs, u);
            && Lookup(env, "SWITCHBOARD_CHECKPOINT_URI_PREFIX") == checkpointPrefix
            && Lookup(env, "ORCHESTRATOR_CHECKPOINT_URI_PREFIX") == checkpointPrefix
            && Lookup(env, "SWITCHBOARD_DATA_URI_PREFIX") == dataPrefix
            && Lookup(env, "ORCHESTRATOR_DATA_URI_PREFIX") == dataPrefix
  {
    var base := PrefixEnv(checkpointPrefix, dataPrefix);
    PrefixEndings();
    PrefixNamesDiffer();
    PrefixesStay(base, inputs, "SWITCHBOARD_CHECKPOINT_URI_PREFIX", u);
    PrefixesStay(base, inputs, "ORCHESTRATOR_CHECKPOINT_URI_PREFIX", u);
    PrefixesStay(base, inputs, "SWITCHBOARD_DATA_URI_PREFIX", u);
    PrefixesStay(base, inputs, "ORCHESTRATOR_DATA_URI_PREFIX", u);
  }

  lemma {:induction false} WriterNames(env: Env, inputs: seq<DataInput>, u: Unicode)
    requires NoInputs(env)
    ensures forall name :: name in AddInputs(env, inputs, u) ==> LastChar(name) != '\n'
    ensures forall name :: name in AddInputs(env, inputs, u) ==> AddInputs(env, inputs, u)[name] != "" || name in env
  {
    if inputs != [] {
      WriterNames(env, inputs[..|inputs| - 1], u);
      Endings(KeyOf(inputs[|inputs| - 1], u));
    }
  }

  // ---------- The reader ----------

  datatype Found = Found(key: string, source: string, mount: string)

  /** What the reader makes of one variable. */
  function Discovered(env: Env, name: string): Option<Found>
    requires name in env
  {
    var key := MatchDataUri(name);
    if key.None? || env[name] == "" then None
    else
      var mount := Lookup(env, MountVar(key.value));
      if mount.None? || mount.value == "" then None else Some(Found(key.value, env[name], mount.value))
  }

  predicate KeyLess(a: Found, b: Found) {
    Strings.Less(a.key, b.key)
  }

  /** The inputs found among the first variables, in the order of the environment. */
  function FoundIn(env: Env, names: seq<string>): seq<Found>
    requires forall i :: 0 <= i < |names| ==> names[i] in env
  {
    if names == [] then []
    else
      var before, d := FoundIn(env, names[..|names| - 1]), Discovered(env, names[|names| - 1]);
      if d.Some? then before + [d.value] else before
  }

  /** `names` are the variables of the environment in the order it lists them. */
  method DiscoverInputs(env: Env, names: seq<string>) returns (found: seq<Found>)
    requires forall i :: 0 <= i < |names| ==> names[i] in env
    ensures found == Sorting.StableSort(KeyLess, FoundIn(env, names))
  {
    var inputs: seq<Found> := [];
    for n := 0 to |names|
      invariant inputs == FoundIn(env, names[..n])
    {
      assert names[..n + 1][..n] == names[..n];
      var name := names[n];
      var key := MatchDataUri(name);
      if key.None? || env[name] == "" {
        continue;
      }
      if MountVar(key.value) !in env || env[MountVar(key.value)] == "" {
        continue;
      }
      inputs := inputs + [Found(key.value, env[name], env[MountVar(key.value)])];
    }
    assert names[..|names|] == names;
    found := Sorting.StableSort(KeyLess, inputs);
  }

  // ---------- The round trip ----------

  /** A listing of an environment names each variable once. */
  ghost predicate Lists(names: seq<string>, env: Env) {
    && (forall i :: 0 <= i < |names| ==> names[i] in env)
    && (forall name :: name in env ==> name in names)
    && (forall i, j :: 0 <= i < j < |names| ==> names[i] != names[j])
  }

  lemma {:induction false} FoundInExactly(env: Env, names: seq<string>, d: Found)
    requires forall i :: 0 <= i < |names| ==> names[i] in env
    ensures d in FoundIn(env, names) <==> exists i :: 0 <= i < |names| && Discovered(env, names[i]) == Some(d)
  {
    if names != [] {
      var n := |names| - 1;
      FoundInExactly(env, names[..n], d);
      assert forall i :: 0 <= i < n ==> names[..n][i] == names[i];
    }
  }

  /** The triples that the writer's map stands for. */
  ghost predicate Stands(inputs: seq<DataInput>, d: Found, u: Unicode) {
    IsKey(d.key) && SourceFor(inputs, d.key, u) == Some(d.source) && MountFor(inputs, d.key, u) == Some(d.mount)
  }

  lemma DiscoveredExactly(base: Env, inputs: seq<DataInput>, name: string, d: Found, u: Unicode)
    requires NoInputs(base) && name in AddInputs(base, inputs, u)
    ensures Discovered(AddInputs(base, inputs, u), name) == Some(d) <==> name == UriVar(d.key) && Stands(inputs, d, u)
  {
    var env := AddInputs(base, inputs, u);
    WriterNames(base, inputs, u);
    WriterLeaves(base, inputs, d.key, u);
    MatchesUriVar(d.key);
    SourcesAndMountsAreNotEmpty(inputs, d.key, u);
    if Discovered(env, name) == Some(d) {
      MatchesNothingElse(name);
    }
  }

  lemma {:induction false} SourcesAndMountsAreNotEmpty(inputs: seq<DataInput>, key: string, u: Unicode)
    ensures SourceFor(inputs, key, u) != Some("") && MountFor(inputs, key, u) != Some("")
  {
    if inputs != [] {
      SourcesAndMountsAreNotEmpty(inputs[..|inputs| - 1], key, u);
    }
  }

  ghost predicate KeysDistinct(s: seq<Found>) {
    forall i, j :: 0 <= i < j < |s| ==> s[i].key != s[j].key
  }

  lemma {:induction false} OneFindPerKey(base: Env, inputs: seq<DataInput>, names: seq<string>, u: Unicode)
    requires NoInputs(base) && forall i :: 0 <= i < |names| ==> names[i] in AddInputs(base, inputs, u)
    requires forall i, j :: 0 <= i < j < |names| ==> names[i] != names[j]
    ensures KeysDistinct(FoundIn(AddInputs(base, inputs, u), names))
  {
    if names != [] {
      var n, env := |names| - 1, AddInputs(base, inputs, u);
      var before, d := FoundIn(env, names[..n]), Discovered(env, names[n]);
      OneFindPerKey(base, inputs, names[..n], u);
      if d.Some? {
        DiscoveredExactly(base, inputs, names[n], d.value, u);
        forall i | 0 <= i < |before| ensures before[i].key != d.value.key {
          FoundInExactly(env, names[..n], before[i]);
          var j :| 0 <= j < n && Discovered(env, names[..n][j]) == Some(before[i]);
          DiscoveredExactly(base, inputs, names[j], before[i], u);
        }
      }
    }
  }

  ghost predicate StrictlyByKey(found: seq<Found>) {
    forall i, j :: 0 <= i < j < |found| ==> Strings.Less(found[i].key, found[j].key)
  }

  lemma SortedByKey(s: seq<Found>)
    requires KeysDistinct(s)
    ensures StrictlyByKey(Sorting.StableSort(KeyLess, s))
  {
    var t := Sorting.StableSort(KeyLess, s);
    Strings.LessIsStrictTotal();
    Sorting.SortSorted(KeyLess, s);
    forall i, j | 0 <= i < j < |t| ensures Strings.Less(t[i].key, t[j].key) {
      assert !KeyLess(t[j], t[i]);
      KeysStayDistinct(s, t, i, j);
    }
  }

  lemma KeysStayDistinct(s: seq<Found>, t: seq<Found>, i: nat, j: nat)
    requires multiset(s) == multiset(t) && i < j < |t|
    requires KeysDistinct(s)
    ensures t[i].key != t[j].key
  {
    Sorting.SameElements(s, t);
    assert t[i] in s && t[j] in s;
    AtMostOnce(s, t[i]);
    if t[i] == t[j] {
      Sorting.RepeatedElement(t, i, j);
    }
  }

  lemma {:induction false} AtMostOnce(s: seq<Found>, x: Found)
    requires KeysDistinct(s)
    ensures multiset(s)[x] <= 1
  {
    if s != [] {
      AtMostOnce(s[1..], x);
      assert s == [s[0]] + s[1..];
      assert s[0] == x ==> x !in s[1..];
    }
  }

  /** The reader, given the writer's map in any order, finds exactly the triples the map stands for: for
      every key the last source, and the last mount, sorted by key without repetition. */
  lemma ReaderFindsWhatWriterLeft(checkpointPrefix: Option<string>, dataPrefix: Option<string>, inputs: seq<DataInput>,
                                  u: Unicode, names: seq<string>)
    requires Lists(names, AddInputs(PrefixEnv(checkpointPrefix, dataPrefix), inputs, u))
    ensures var env := AddInputs(PrefixEnv(checkpointPrefix, dataPrefix), inputs, u);
            var found := Sorting.StableSort(KeyLess, FoundIn(env, names));
            && StrictlyByKey(found)
            && forall d :: d in found <==> Stands(inputs, d, u)
  {
    var base := PrefixEnv(checkpointPrefix, dataPrefix);
    var env := AddInputs(base, inputs, u);
    var f := FoundIn(env, names);
    PrefixEnvHasNoInputs(checkpointPrefix, dataPrefix);
    OneFindPerKey(base, inputs, names, u);
    SortedByKey(f);
    Sorting.SameElements(f, Sorting.StableSort(KeyLess, f));
    forall d ensures d in f <==> Stands(inputs, d, u) {
      FoundInExactly(env, names, d);
      if d in f {
        var i :| 0 <= i < |names| && Discovered(env, names[i]) == Some(d);
        DiscoveredExactly(base, inputs, names[i], d, u);
      }
      if Stands(inputs, d, u) {
        WriterLeaves(base, inputs, d.key, u);
        DiscoveredExactly(base, inputs, UriVar(d.key), d, u);
      }
    }
  }

  function Triple(input: DataInput, u: Unicode): Found {
    Found(KeyOf(input, u), input.source, input.mount)
  }

  /** Every input gets both variables. */
  ghost predicate AllMounted(inputs: seq<DataInput>, u: Unicode) {
    forall i :: 0 <= i < |inputs| ==> Exported(inputs[i], u) && inputs[i].mount != ""
  }

  lemma {:induction false} StandsIsInput(inputs: seq<DataInput>, d: Found, u: Unicode)
    requires AllMounted(inputs, u) && Stands(inputs, d, u)
    ensures exists i :: 0 <= i < |inputs| && Triple(inputs[i], u) == d
  {
    var n := |inputs| - 1;
    if KeyOf(inputs[n], u) == d.key {
      assert Triple(inputs[n], u) == d;
    } else {
      StandsIsInput(inputs[..n], d, u);
      var i :| 0 <= i < n && Triple(inputs[..n][i], u) == d;
      assert Triple(inputs[i], u) == d;
    }
  }

  /** The inputs survive the trip exactly when every key is one the reader's pattern admits and no two
      inputs share a key without agreeing. Nothing else is ever found. */
  lemma RoundTripExactly(checkpointPrefix: Option<string>, dataPrefix: Option<string>, inputs: seq<DataInput>, u: Unicode,
                         names: seq<string>)
    requires AllMounted(inputs, u)
    requires Lists(names, AddInputs(PrefixEnv(checkpointPrefix, dataPrefix), inputs, u))
    ensures var found := Sorting.StableSort(KeyLess, FoundIn(AddInputs(PrefixEnv(checkpointPrefix, dataPrefix), inputs, u), names));
            && (forall d :: d in found ==> exists i :: 0 <= i < |inputs| && Triple(inputs[i], u) == d)
            && ((forall i :: 0 <= i < |inputs| ==> Triple(inputs[i], u) in found) <==> KeysAgree(inputs, u))
  {
    ReaderFindsWhatWriterLeft(checkpointPrefix, dataPrefix, inputs, u, names);
    var found := Sorting.StableSort(KeyLess, FoundIn(AddInputs(PrefixEnv(checkpointPrefix, dataPrefix), inputs, u), names));
    forall d | d in found ensures exists i :: 0 <= i < |inputs| && Triple(inputs[i], u) == d {
      StandsIsInput(inputs, d, u);
    }
    if KeysAgree(inputs, u) {
      forall i | 0 <= i < |inputs| ensures Triple(inputs[i], u) in found {
        AgreeingInputStands(inputs, i, u);
      }
    }
    if forall i :: 0 <= i < |inputs| ==> Triple(inputs[i], u) in found {
      forall i | 0 <= i < |inputs| ensures IsKey(KeyOf(inputs[i], u)) {
        assert Stands(inputs, Triple(inputs[i], u), u);
      }
      forall i, j | 0 <= i < j < |inputs| && KeyOf(inputs[i], u) == KeyOf(inputs[j], u)
        ensures Triple(inputs[i], u) == Triple(inputs[j], u)
      {
        assert Stands(inputs, Triple(inputs[i], u), u) && Stands(inputs, Triple(inputs[j], u), u);
      }
    }
  }

  ghost predicate KeysAgree(inputs: seq<DataInput>, u: Unicode) {
    && (forall i :: 0 <= i < |inputs| ==> IsKey(KeyOf(inputs[i], u)))
    && (forall i, j :: 0 <= i < j < |inputs| && KeyOf(inputs[i], u) == KeyOf(inputs[j], u) ==>
          Triple(inputs[i], u) == Triple(inputs[j], u))
  }

  lemma {:induction false} AgreeingInputStands(inputs: seq<DataInput>, i: nat, u: Unicode)
    requires AllMounted(inputs, u) && KeysAgree(inputs, u) && i < |inputs|
    ensures Stands(inputs, Triple(inputs[i], u), u)
  {
    var n := |inputs| - 1;
    if KeyOf(inputs[n], u) != KeyOf(inputs[i], u) {
      AgreeingInputStands(inputs[..n], i, u);
    }
  }

  /** ASCII names with a letter or digit have keys the reader admits, so with distinct keys the reader
      finds exactly the inputs, sorted by key. */
  lemma AsciiRoundTrip(checkpointPrefix: Option<string>, dataPrefix: Option<string>, inputs: seq<DataInput>, u: Unicode,
                       names: seq<string>)
    requires Sane(u) && AllMounted(inputs, u) && forall i :: 0 <= i < |inputs| ==> IsAscii(inputs[i].name)
    requires forall i, j :: 0 <= i < j < |inputs| ==> KeyOf(inputs[i], u) != KeyOf(inputs[j], u)
    requires Lists(names, AddInputs(PrefixEnv(checkpointPrefix, dataPrefix), inputs, u))
    ensures var found := Sorting.StableSort(KeyLess, FoundIn(AddInputs(PrefixEnv(checkpointPrefix, dataPrefix), inputs, u), names));
            && StrictlyByKey(found)
            && forall d :: d in found <==> exists i :: 0 <= i < |inputs| && Triple(inputs[i], u) == d
  {
    forall i | 0 <= i < |inputs| ensures IsKey(KeyOf(inputs[i], u)) {
      KeysAreNeat(inputs[i].name, u);
    }
    assert KeysAgree(inputs, u);
    RoundTripExactly(checkpointPrefix, dataPrefix, inputs, u, names);
    ReaderFindsWhatWriterLeft(checkpointPrefix, dataPrefix, inputs, u, names);
  }

  lemma TwoLetters(u: Unicode, mid: char)
    requires mid < ASCII_END && !IsAsciiWordChar(mid)
    ensures Joined(Words(['a', mid, 'b'], u)) == "A_B"
  {
    var name := ['a', mid, 'b'];
    assert name[..2] == ['a', mid] && name[..2][..1] == ['a'] && ['a'][..0] == [];
    assert Words(['a'], u) == ["A"];
    assert Words(['a', mid], u) == ["A"];
    assert Words(name, u) == ["A"] + ["B"];
    JoinedNewWord(["A"], "B");
    assert Joined(["A"]) == "A";
  }

  /** Two inputs whose names differ in a separator share a key, and the first is lost. */
  lemma CollidingNamesMerge(checkpointPrefix: Option<string>, dataPrefix: Option<string>, u: Unicode, names: seq<string>)
    requires var inputs := [DataInput(UriMode, "a-b", "s3://x", "/m"), DataInput(UriMode, "a.b", "s3://y", "/m")];
             Lists(names, AddInputs(PrefixEnv(checkpointPrefix, dataPrefix), inputs, u))
    ensures var inputs := [DataInput(UriMode, "a-b", "s3://x", "/m"), DataInput(UriMode, "a.b", "s3://y", "/m")];
            var found := Sorting.StableSort(KeyLess, FoundIn(AddInputs(PrefixEnv(checkpointPrefix, dataPrefix), inputs, u), names));
            Triple(inputs[0], u) !in found
  {
    var first, last := DataInput(UriMode, "a-b", "s3://x", "/m"), DataInput(UriMode, "a.b", "s3://y", "/m");
    TwoLetters(u, '-');
    TwoLetters(u, '.');
    assert KeyOf(first, u) == KeyOf(last, u) == "A_B";
    assert first.source[|first.source| - 1] != last.source[|last.source| - 1];
    LastSourceWins([first], last, u);
    assert [first] + [last] == [first, last];
    ReaderFindsWhatWriterLeft(checkpointPrefix, dataPrefix, [first, last], u, names);
  }

  lemma LastSourceWins(inputs: seq<DataInput>, last: DataInput, u: Unicode)
    requires Exported(last, u)
    ensures SourceFor(inputs + [last], KeyOf(last, u), u) == Some(last.source)
  {
  }
}
