/** The table of provider resources: `SaveProviderResource` of internal/state/store.go, the callbacks of
    one attempt (`persistProviderResource`) and the cleanup pass of internal/cli/root.go. Row identifiers
    are random there and never collide here. */
module Resources {
  import opened Wrappers
  import opened App

  /** What an adapter reports of a resource. Adapters leave the identifier and the creation time empty. */
  datatype Report = Report(
    runID: string, attemptID: string, provider: string, kind: string, externalID: string, providerRef: string,
    region: string, projectOrAccount: string, state: ResourceState, createdBySwitchboard: bool, policy: CleanupPolicy,
    metadata: map<string, string>, lastObservedAt: Option<int>)

  datatype Row = Row(report: Report, createdAt: int, updatedAt: int)

  // ---------- The table ----------

  class ResourceTable {
    var rows: map<nat, Row>
    /** Every identifier from here on is unused. */
    var nextID: nat

    predicate Valid()
      reads this
    {
      forall id :: id in rows ==> id < nextID
    }

    constructor ()
      ensures Valid() && rows == map[]
    {
      rows, nextID := map[], 0;
    }

    /** Inserts a row when there is no identifier; otherwise overwrites everything but the creation time. */
    method SaveProviderResource(id: Option<nat>, report: Report, now: int) returns (saved: nat)
      requires Valid() && (id.Some? ==> id.value < nextID)
      modifies this
      ensures Valid() && saved == (if id.Some? then id.value else old(nextID))
      ensures nextID == old(nextID) + (if id.Some? then 0 else 1)
      ensures rows == old(rows)[saved := Row(report, CreatedAt(old(rows), saved, now), now)]
    {
      saved := nextID;
      if id.Some? {
        saved := id.value;
      } else {
        nextID := nextID + 1;
      }
      if saved in rows {
        rows := rows[saved := rows[saved].(report := report, updatedAt := now)];
      } else {
        rows := rows[saved := Row(report, now, now)];
      }
    }
  }

  function CreatedAt(rows: map<nat, Row>, id: nat, now: int): int {
    if id in rows then rows[id].createdAt else now
  }

  // ---------- The callbacks of one attempt ----------

  function RedactValues(m: map<string, string>, redact: string -> string): map<string, string> {
    map k | k in m :: redact(m[k])
  }

  function RedactReport(r: Report, redact: string -> string): Report {
    r.(externalID := redact(r.externalID), providerRef := redact(r.providerRef),
       projectOrAccount := redact(r.projectOrAccount), metadata := RedactValues(r.metadata, redact))
  }

  /** The identity of a resource: its external identifier, or else its reference. */
  function Identity(r: Report): string {
    if r.externalID != "" then r.externalID else r.providerRef
  }

  predicate Identified(r: Report) {
    r.provider != "" && r.kind != "" && Identity(r) != ""
  }

  /** `providerResourceKey`; an empty key identifies nothing. */
  function ResourceKey(r: Report): string {
    if Identified(r) then r.provider + "|" + r.kind + "|" + Identity(r) else ""
  }

  datatype Callback = Callback(report: Report, now: int)

  /** The table and the attempt's map from keys to identifiers. */
  datatype Snapshot = Snapshot(rows: map<nat, Row>, nextID: nat, ids: map<string, nat>)

  function Step(s: Snapshot, c: Callback): Snapshot {
    var key := ResourceKey(c.report);
    if key != "" && key in s.ids then
      s.(rows := s.rows[s.ids[key] := Row(c.report, CreatedAt(s.rows, s.ids[key], c.now), c.now)])
    else
      Snapshot(s.rows[s.nextID := Row(c.report, CreatedAt(s.rows, s.nextID, c.now), c.now)], s.nextID + 1,
               if key != "" then s.ids[key := s.nextID] else s.ids)
  }

  class ResourceSession {
    const table: ResourceTable
    const redact: string -> string
    var resourceIDs: map<string, nat>

    function State(): Snapshot
      reads this, table
    {
      Snapshot(table.rows, table.nextID, resourceIDs)
    }

    predicate Valid()
      reads this, table
    {
      table.Valid() && forall key :: key in resourceIDs ==> resourceIDs[key] < table.nextID
    }

    constructor (table: ResourceTable, redact: string -> string)
      requires table.Valid()
      ensures Valid() && this.table == table && this.redact == redact && resourceIDs == map[]
    {
      this.table, this.redact, resourceIDs := table, redact, map[];
    }

    method PersistProviderResource(reported: Report, now: int)
      requires Valid()
      modifies this`resourceIDs, table
      ensures Valid() && State() == Step(old(State()), Callback(RedactReport(reported, redact), now))
    {
      var resource := RedactReport(reported, redact);
      var key := ResourceKey(resource);
      var id := None;
      if key != "" && key in resourceIDs {
        id := Some(resourceIDs[key]);
      }
      var saved := table.SaveProviderResource(id, resource, now);
      if key != "" {
        resourceIDs := resourceIDs[key := saved];
      }
    }
  }

  /** The callbacks of one attempt, in order. */
  function Steps(s: Snapshot, cs: seq<Callback>): Snapshot {
    if cs == [] then s else Step(Steps(s, cs[..|cs| - 1]), cs[|cs| - 1])
  }

  // ---------- One row per resource ----------

  function KeyOf(c: Callback): string {
    ResourceKey(c.report)
  }

  function Keys(cs: seq<Callback>): set<string> {
    if cs == [] then {}
    else
      var key := KeyOf(cs[|cs| - 1]);
      Keys(cs[..|cs| - 1]) + if key != "" then {key} else {}
  }

  function Unkeyed(cs: seq<Callback>): nat {
    if cs == [] then 0 else Unkeyed(cs[..|cs| - 1]) + if KeyOf(cs[|cs| - 1]) == "" then 1 else 0
  }

  /** The last callback with a key. */
  function LastOf(cs: seq<Callback>, key: string): Callback
    requires key in Keys(cs)
  {
    var c := cs[|cs| - 1];
    if KeyOf(c) == key then c else LastOf(cs[..|cs| - 1], key)
  }

  /** The time of the first callback with a key. */
  function FirstSeen(cs: seq<Callback>, key: string): int
    requires key in Keys(cs)
  {
    var before := cs[..|cs| - 1];
    if key in Keys(before) then FirstSeen(before, key) else cs[|cs| - 1].now
  }

  /** The rows a call sequence inserts. */
  function Inserted(cs: seq<Callback>): nat {
    |Keys(cs)| + Unkeyed(cs)
  }

  /** The new rows have consecutive identifiers from `first`; old rows are as they were. */
  ghost predicate OldRowsKept(rows: map<nat, Row>, first: nat, s: Snapshot, inserted: nat) {
    && s.nextID == first + inserted
    && (forall id :: id in s.rows <==> id in rows || first <= id < s.nextID)
    && (forall id :: id in rows ==> s.rows[id] == rows[id])
  }

  /** Each key has a row, with the last report and the first time. */
  ghost predicate KeyedRows(first: nat, cs: seq<Callback>, s: Snapshot) {
    && s.ids.Keys == Keys(cs)
    && (forall key :: key in s.ids ==> first <= s.ids[key] < s.nextID)
    && (forall key :: key in s.ids ==> s.ids[key] in s.rows && s.rows[s.ids[key]] == KeyedRow(cs, key))
  }

  function KeyedRow(cs: seq<Callback>, key: string): Row
    requires key in Keys(cs)
  {
    Row(LastOf(cs, key).report, FirstSeen(cs, key), LastOf(cs, key).now)
  }

  /** A callback without a key has a row of its own, which no later callback writes. */
  ghost predicate UnkeyedRow(first: nat, cs: seq<Callback>, i: nat, s: Snapshot)
    requires i < |cs|
  {
    var id := first + Inserted(cs[..i]);
    && id in s.rows && s.rows[id] == Row(cs[i].report, cs[i].now, cs[i].now)
    && id !in s.ids.Values
  }

  lemma {:induction false} EmptyKeyNotIn(cs: seq<Callback>)
    ensures "" !in Keys(cs)
  {
    if cs != [] {
      EmptyKeyNotIn(cs[..|cs| - 1]);
    }
  }

  lemma InsertedStep(cs: seq<Callback>)
    requires cs != []
    ensures var before, key := cs[..|cs| - 1], KeyOf(cs[|cs| - 1]);
            Inserted(cs) == Inserted(before) + if key != "" && key in Keys(before) then 0 else 1
  {
    var before, key := cs[..|cs| - 1], KeyOf(cs[|cs| - 1]);
    if key in Keys(before) {
      assert Keys(before) + {key} == Keys(before);
    }
  }

  lemma KeyedRowStep(cs: seq<Callback>, key: string)
    requires cs != [] && key in Keys(cs)
    ensures var before, c := cs[..|cs| - 1], cs[|cs| - 1];
            && (key != KeyOf(c) ==> key in Keys(before))
            && KeyedRow(cs, key) ==
               if key != KeyOf(c) then KeyedRow(before, key)
               else Row(c.report, if key in Keys(before) then FirstSeen(before, key) else c.now, c.now)
  {
  }

  lemma OldRowsStep(rows: map<nat, Row>, first: nat, s: Snapshot, n: nat, c: Callback)
    requires OldRowsKept(rows, first, s, n) && (forall id :: id in rows ==> id < first)
    requires forall key :: key in s.ids ==> first <= s.ids[key] < s.nextID
    ensures var key := KeyOf(c);
            OldRowsKept(rows, first, Step(s, c), n + if key != "" && key in s.ids then 0 else 1)
  {
  }

  lemma {:induction false} LastHasKey(cs: seq<Callback>, key: string)
    requires key in Keys(cs)
    ensures KeyOf(LastOf(cs, key)) == key
  {
    if KeyOf(cs[|cs| - 1]) != key {
      LastHasKey(cs[..|cs| - 1], key);
    }
  }

  /** No two keys share a row. */
  lemma KeysHaveOwnRows(first: nat, cs: seq<Callback>, s: Snapshot, key: string, key': string)
    requires KeyedRows(first, cs, s) && key in s.ids && key' in s.ids
    ensures s.ids[key] == s.ids[key'] ==> key == key'
  {
    LastHasKey(cs, key);
    LastHasKey(cs, key');
    assert s.rows[s.ids[key]].report == LastOf(cs, key).report;
    assert s.rows[s.ids[key']].report == LastOf(cs, key').report;
  }

  lemma KeyedRowAfter(first: nat, cs: seq<Callback>, s: Snapshot, key: string)
    requires cs != [] && KeyedRows(first, cs[..|cs| - 1], s) && s.nextID !in s.rows && key in Keys(cs)
    ensures var s' := Step(s, cs[|cs| - 1]);
            key in s'.ids && s'.ids[key] in s'.rows && s'.rows[s'.ids[key]] == KeyedRow(cs, key)
  {
    var before, c := cs[..|cs| - 1], cs[|cs| - 1];
    KeyedRowStep(cs, key);
    EmptyKeyNotIn(before);
    if key in Keys(before) {
      if KeyOf(c) in s.ids {
        KeysHaveOwnRows(first, before, s, key, KeyOf(c));
      }
      assert s.ids[key] in s.rows && s.rows[s.ids[key]] == KeyedRow(before, key);
    } else {
      assert key !in s.ids;
    }
  }

  lemma KeyedRowsStep(first: nat, cs: seq<Callback>, s: Snapshot)
    requires cs != [] && KeyedRows(first, cs[..|cs| - 1], s) && s.nextID !in s.rows && first <= s.nextID
    ensures KeyedRows(first, cs, Step(s, cs[|cs| - 1]))
  {
    var s' := Step(s, cs[|cs| - 1]);
    EmptyKeyNotIn(cs[..|cs| - 1]);
    assert s'.ids.Keys == Keys(cs);
    forall k | k in s'.ids ensures s'.ids[k] in s'.rows && s'.rows[s'.ids[k]] == KeyedRow(cs, k) {
      KeyedRowAfter(first, cs, s, k);
    }
  }

  lemma {:induction false} UnkeyedRowStep(first: nat, cs: seq<Callback>, i: nat, s: Snapshot)
    requires i < |cs| - 1 && UnkeyedRow(first, cs[..|cs| - 1], i, s) && s.nextID !in s.rows
    ensures UnkeyedRow(first, cs, i, Step(s, cs[|cs| - 1]))
  {
    var before := cs[..|cs| - 1];
    assert before[..i] == cs[..i] && before[i] == cs[i];
  }

  ghost predicate UnkeyedRows(first: nat, cs: seq<Callback>, s: Snapshot) {
    forall i :: 0 <= i < |cs| && KeyOf(cs[i]) == "" ==> UnkeyedRow(first, cs, i, s)
  }

  lemma UnkeyedRowsStep(first: nat, cs: seq<Callback>, s: Snapshot)
    requires cs != [] && UnkeyedRows(first, cs[..|cs| - 1], s)
    requires s.nextID == first + Inserted(cs[..|cs| - 1]) && s.nextID !in s.rows && s.nextID !in s.ids.Values
    ensures UnkeyedRows(first, cs, Step(s, cs[|cs| - 1]))
  {
    var before, c := cs[..|cs| - 1], cs[|cs| - 1];
    forall i | 0 <= i < |cs| && KeyOf(cs[i]) == "" ensures UnkeyedRow(first, cs, i, Step(s, c)) {
      if i < |before| {
        assert before[i] == cs[i];
        UnkeyedRowStep(first, cs, i, s);
      } else {
        assert cs[..i] == before;
      }
    }
  }

  ghost predicate Recorded(rows: map<nat, Row>, first: nat, cs: seq<Callback>, s: Snapshot) {
    OldRowsKept(rows, first, s, Inserted(cs)) && KeyedRows(first, cs, s) && UnkeyedRows(first, cs, s)
  }

  lemma RecordedStep(rows: map<nat, Row>, first: nat, cs: seq<Callback>, s: Snapshot)
    requires forall id :: id in rows ==> id < first
    requires cs != [] && Recorded(rows, first, cs[..|cs| - 1], s)
    ensures Recorded(rows, first, cs, Step(s, cs[|cs| - 1]))
  {
    UnkeyedRowsStep(first, cs, s);
    KeyedRowsStep(first, cs, s);
    OldRowsStep(rows, first, s, Inserted(cs[..|cs| - 1]), cs[|cs| - 1]);
    InsertedStep(cs);
  }

  /** For every sequence of callbacks of one attempt: old rows stay as they were; each distinct key has
      exactly one new row, with the last report and the first time; each callback without a key has one
      new row; and there are no other rows. */
  lemma {:induction false} OneRowPerResource(rows: map<nat, Row>, first: nat, cs: seq<Callback>)
    requires forall id :: id in rows ==> id < first
    ensures Recorded(rows, first, cs, Steps(Snapshot(rows, first, map[]), cs))
  {
    if cs != [] {
      OneRowPerResource(rows, first, cs[..|cs| - 1]);
      RecordedStep(rows, first, cs, Steps(Snapshot(rows, first, map[]), cs[..|cs| - 1]));
    }
  }

  // ---------- What a key identifies ----------

  predicate NoBar(s: string) {
    '|' !in s
  }

  lemma {:induction false} BarSplitsOnce(a: string, x: string, b: string, y: string)
    requires NoBar(a) && NoBar(b) && a + "|" + x == b + "|" + y
    ensures a == b && x == y
  {
    var s, t := a + "|" + x, b + "|" + y;
    assert s[|a|] == '|' && t[|b|] == '|';
    assert forall i :: 0 <= i < |a| ==> s[i] == a[i];
    assert forall i :: 0 <= i < |b| ==> t[i] == b[i];
    assert |a| == |b|;
    assert a == s[..|a|] && b == t[..|b|];
    assert x == s[|a| + 1..] && y == t[|b| + 1..];
  }

  /** Without a bar in provider and kind, equal keys mean the same provider, kind and identity. */
  lemma KeyIdentifies(a: Report, b: Report)
    requires Identified(a) && Identified(b) && NoBar(a.provider) && NoBar(a.kind) && NoBar(b.provider) && NoBar(b.kind)
    ensures ResourceKey(a) == ResourceKey(b) <==> a.provider == b.provider && a.kind == b.kind && Identity(a) == Identity(b)
  {
    var x, y := a.kind + "|" + Identity(a), b.kind + "|" + Identity(b);
    assert ResourceKey(a) == a.provider + "|" + x && ResourceKey(b) == b.provider + "|" + y;
    if ResourceKey(a) == ResourceKey(b) {
      BarSplitsOnce(a.provider, x, b.provider, y);
      BarSplitsOnce(a.kind, Identity(a), b.kind, Identity(b));
    }
  }

  /** What is redacted of a report before it is stored: the two identifiers, the account, and the values of the
      metadata; nothing else is changed. */
  lemma RedactedFields(r: Report, redact: string -> string)
    ensures var s := RedactReport(r, redact);
            && s.externalID == redact(r.externalID) && s.providerRef == redact(r.providerRef)
            && s.projectOrAccount == redact(r.projectOrAccount)
            && s.metadata.Keys == r.metadata.Keys && (forall k :: k in r.metadata ==> s.metadata[k] == redact(r.metadata[k]))
            && s.(externalID := r.externalID, providerRef := r.providerRef, projectOrAccount := r.projectOrAccount,
                  metadata := r.metadata) == r
  {
  }

  /** Two resources of a provider and kind are told apart by their external identifiers, and by their references
      when they have none; one without any of these, a provider or a kind has no key. */
  lemma KeysOnFields(a: Report, b: Report)
    requires a.provider == b.provider && a.kind == b.kind
    ensures ResourceKey(a) == "" <==> a.provider == "" || a.kind == "" || (a.externalID == "" && a.providerRef == "")
    ensures a.provider != "" && a.kind != "" && a.externalID != "" && b.externalID != "" ==>
              (ResourceKey(a) == ResourceKey(b) <==> a.externalID == b.externalID)
    ensures a.provider != "" && a.kind != "" && a.externalID == "" == b.externalID && a.providerRef != "" && b.providerRef != "" ==>
              (ResourceKey(a) == ResourceKey(b) <==> a.providerRef == b.providerRef)
  {
    if Identified(a) && Identified(b) {
      var front := a.provider + "|" + a.kind + "|";
      assert ResourceKey(a) == front + Identity(a) && ResourceKey(b) == front + Identity(b);
      assert (front + Identity(a))[|front|..] == Identity(a) && (front + Identity(b))[|front|..] == Identity(b);
    }
  }

  /** The key is made after redaction, which leaves provider and kind alone: two reports share a row exactly
      when, besides these, their redacted identities are the same. */
  lemma RedactedIdentityDecides(a: Report, b: Report, redact: string -> string)
    requires Identified(RedactReport(a, redact)) && Identified(RedactReport(b, redact))
    requires NoBar(a.provider) && NoBar(a.kind) && NoBar(b.provider) && NoBar(b.kind)
    ensures ResourceKey(RedactReport(a, redact)) == ResourceKey(RedactReport(b, redact)) <==>
            && a.provider == b.provider && a.kind == b.kind
            && Identity(RedactReport(a, redact)) == Identity(RedactReport(b, redact))
  {
    KeyIdentifies(RedactReport(a, redact), RedactReport(b, redact));
  }

  /** Two resources whose identifiers are redacted to the same text end up in one row. */
  lemma RedactionCanMerge(rows: map<nat, Row>, first: nat, r: Report, x: string, y: string, redact: string -> string, now: int)
    requires r.provider != "" && r.kind != "" && x != y && redact(x) == redact(y) != ""
    requires forall id :: id in rows ==> id < first
    ensures var a, b := RedactReport(r.(externalID := x), redact), RedactReport(r.(externalID := y), redact);
            var s := Steps(Snapshot(rows, first, map[]), [Callback(a, now), Callback(b, now)]);
            s.nextID == first + 1 && first in s.rows && s.rows[first].report == b
  {
    var a, b := RedactReport(r.(externalID := x), redact), RedactReport(r.(externalID := y), redact);
    var cs := [Callback(a, now), Callback(b, now)];
    assert cs[..1] == [Callback(a, now)] && [Callback(a, now)][..0] == [];
    assert ResourceKey(a) == ResourceKey(b) != "";
    var s0 := Snapshot(rows, first, map[]);
    assert Steps(s0, cs[..1]) == Step(s0, cs[0]);
    assert Steps(s0, cs) == Step(Step(s0, cs[0]), cs[1]);
  }

  /** With a bar in a kind, which no adapter uses, two kinds of one provider can share a key. */
  lemma BarCanConfuse(r: Report)
    ensures var a, b := r.(provider := "p", kind := "k", externalID := "x|y"), r.(provider := "p", kind := "k|x", externalID := "y");
            ResourceKey(a) == ResourceKey(b) && a.kind != b.kind
  {
    var a, b := r.(provider := "p", kind := "k", externalID := "x|y"), r.(provider := "p", kind := "k|x", externalID := "y");
    assert ResourceKey(a) == "p|k|x|y";
    assert ResourceKey(b) == "p|k|x|y";
    assert |a.kind| != |b.kind|;
  }
}
