/** The cleanup pass over the resource table, from internal/cli/root.go: `resources cleanup` cancels every
    eligible resource and records that it asked. Adapters answer by a script. */
module Cleanup {
  import opened Wrappers
  import opened App
  import opened Resources

  predicate StateActive(state: ResourceState) {
    match state
    case Creating | Booting | Running | Unknown => true
    case _ => false
  }

  predicate Eligible(r: Report) {
    r.createdBySwitchboard && r.providerRef != "" && StateActive(r.state) && r.policy != Never
  }

  datatype CleanupAdapter = GcpAdapter | LambdaAdapter | ChinaAdapter

  /** `cleanupAdapterForResource`; `isChina` says which names have a China cloud definition. */
  function AdapterFor(provider: string, isChina: string -> bool): Option<CleanupAdapter> {
    if provider == "gcp" then Some(GcpAdapter)
    else if provider == "lambda" then Some(LambdaAdapter)
    else if isChina(provider) then Some(ChinaAdapter)
    else None
  }

  /** `cleanupRequestedState`. */
  function RequestedState(provider: string, isChina: string -> bool): ResourceState {
    if provider == "lambda" then Terminating
    else if provider == "gcp" then Canceled
    else if isChina(provider) then Terminating
    else Unknown
  }

  /** A provider that cleanup supports never stays in a state that cleanup would pick again. */
  lemma RequestedStateIsInactive(provider: string, isChina: string -> bool)
    ensures AdapterFor(provider, isChina).Some? <==> !StateActive(RequestedState(provider, isChina))
  {
    DifferentNames();
  }

  const CLEANUP_REQUESTED_AT := "cleanup_requested_at"

  /** The row once its cancellation was accepted at `now`. */
  function Requested(row: Row, isChina: string -> bool, now: int, stamp: string): Row {
    Row(row.report.(state := RequestedState(row.report.provider, isChina), lastObservedAt := Some(now),
                    metadata := row.report.metadata[CLEANUP_REQUESTED_AT := stamp]),
        row.createdAt, now)
  }

  /** How the adapter of one listed resource answers; without credentials there is no adapter. */
  datatype Answer = NoCredentials | CancelFailed | CancelAccepted

  predicate Accepts(provider: string, isChina: string -> bool, a: Answer) {
    match AdapterFor(provider, isChina)
    case None => false
    case Some(_) => a.CancelAccepted?
  }

  // ---------- Lists of identifiers ----------

  /** What the table's query returns: rows of the table, none twice. */
  ghost predicate Listing(rows: map<nat, Row>, ids: seq<nat>) {
    && (forall i :: 0 <= i < |ids| ==> ids[i] in rows)
    && (forall i, j :: 0 <= i < j < |ids| ==> ids[i] != ids[j])
  }

  function Eligibles(rows: map<nat, Row>, ids: seq<nat>): (e: seq<nat>)
    requires forall i :: 0 <= i < |ids| ==> ids[i] in rows
    ensures forall i :: 0 <= i < |e| ==> e[i] in rows && e[i] in ids && Eligible(rows[e[i]].report)
  {
    if ids == [] then []
    else
      var before, id := Eligibles(rows, ids[..|ids| - 1]), ids[|ids| - 1];
      if Eligible(rows[id].report) then before + [id] else before
  }

  /** The table after the cancellations of `ids` were recorded. */
  ghost predicate RecordedAll(rows: map<nat, Row>, ids: seq<nat>, rows': map<nat, Row>, isChina: string -> bool, now: int,
                              stamp: string) {
    && rows'.Keys == rows.Keys
    && forall id :: id in rows ==> rows'[id] == if id in ids then Requested(rows[id], isChina, now, stamp) else rows[id]
  }

  lemma RecordedOneMore(rows: map<nat, Row>, ids: seq<nat>, mid: map<nat, Row>, id: nat, isChina: string -> bool, now: int,
                        stamp: string)
    requires RecordedAll(rows, ids, mid, isChina, now, stamp) && id in rows && id !in ids
    ensures RecordedAll(rows, ids + [id], mid[id := Requested(rows[id], isChina, now, stamp)], isChina, now, stamp)
  {
  }

  /** Cleanup has an adapter for every one of these resources. */
  ghost predicate AllSupported(rows: map<nat, Row>, ids: seq<nat>, isChina: string -> bool) {
    forall i :: 0 <= i < |ids| ==> ids[i] in rows && AdapterFor(rows[ids[i]].report.provider, isChina).Some?
  }

  /** A pass picks exactly the listed resources that Switchboard created, that the provider can be asked for,
      that are creating, booting, running or unknown, and that are not to be kept. */
  lemma {:induction false} PickedExactly(rows: map<nat, Row>, ids: seq<nat>, id: nat)
    requires forall i :: 0 <= i < |ids| ==> ids[i] in rows
    ensures id in Eligibles(rows, ids) <==>
            && id in ids
            && var r := rows[id].report;
               && r.createdBySwitchboard && r.providerRef != "" && r.policy != Never
               && (r.state == Creating || r.state == Booting || r.state == Running || r.state == Unknown)
  {
    if ids != [] {
      var n := |ids| - 1;
      PickedExactly(rows, ids[..n], id);
      assert id in ids <==> id in ids[..n] || id == ids[n];
    }
  }

  /** What is recorded of a resource when its cancellation was accepted, and what stays. */
  lemma RequestedOnFields(row: Row, isChina: string -> bool, now: int, stamp: string)
    ensures var row' := Requested(row, isChina, now, stamp);
            && row'.createdAt == row.createdAt && row'.updatedAt == now && row'.report.lastObservedAt == Some(now)
            && row'.report.metadata == row.report.metadata["cleanup_requested_at" := stamp]
            && row'.report.(state := row.report.state, lastObservedAt := row.report.lastObservedAt, metadata := row.report.metadata)
               == row.report
    ensures var provider, state := row.report.provider, Requested(row, isChina, now, stamp).report.state;
            && (provider == "gcp" ==> state == Canceled)
            && (provider == "lambda" || (provider != "gcp" && isChina(provider)) ==> state == Terminating)
            && (provider != "gcp" && provider != "lambda" && !isChina(provider) ==> state == Unknown)
  {
    DifferentNames();
  }

  lemma DifferentNames()
    ensures "gcp" != "lambda"
  {
    assert |"gcp"| != |"lambda"|;
  }

  /** Which providers can be asked, through which adapter. */
  lemma AdapterExactly(provider: string, isChina: string -> bool)
    ensures AdapterFor(provider, isChina) == Some(GcpAdapter) <==> provider == "gcp"
    ensures AdapterFor(provider, isChina) == Some(LambdaAdapter) <==> provider == "lambda"
    ensures AdapterFor(provider, isChina) == Some(ChinaAdapter) <==> provider != "gcp" && provider != "lambda" && isChina(provider)
  {
    DifferentNames();
  }

  // ---------- The pass ----------

  /** Asks the adapter to cancel one resource and records it when the adapter accepts. */
  method CancelOne(table: ResourceTable, id: nat, isChina: string -> bool, a: Answer, now: int, stamp: string)
    returns (accepted: bool)
    requires table.Valid() && id in table.rows
    modifies table
    ensures table.Valid() && accepted == Accepts(old(table.rows)[id].report.provider, isChina, a)
    ensures table.rows == if accepted then old(table.rows)[id := Requested(old(table.rows)[id], isChina, now, stamp)]
                          else old(table.rows)
  {
    var resource := table.rows[id];
    accepted := Accepts(resource.report.provider, isChina, a);
    if accepted {
      var row := Requested(resource, isChina, now, stamp);
      var _ := table.SaveProviderResource(Some(id), row.report, now);
    }
  }

  lemma SupportedOneMore(rows: map<nat, Row>, ids: seq<nat>, id: nat, isChina: string -> bool, a: Answer)
    requires AllSupported(rows, ids, isChina) && id in rows && Accepts(rows[id].report.provider, isChina, a)
    ensures AllSupported(rows, ids + [id], isChina)
  {
  }

  lemma CanceledOnFields(rows: map<nat, Row>, ids: seq<nat>, canceled: seq<nat>)
    requires forall i :: 0 <= i < |ids| ==> ids[i] in rows
    requires canceled <= Eligibles(rows, ids)
    ensures forall id :: id in canceled ==>
              && id in ids
              && var r := rows[id].report;
                 && r.createdBySwitchboard && r.providerRef != "" && r.policy != Never
                 && (r.state == Creating || r.state == Booting || r.state == Running || r.state == Unknown)
    ensures canceled == Eligibles(rows, ids) ==>
              forall id :: id in ids && id !in canceled ==>
                var r := rows[id].report;
                !r.createdBySwitchboard || r.providerRef == "" || r.policy == Never
                || (r.state != Creating && r.state != Booting && r.state != Running && r.state != Unknown)
  {
    forall id | id in canceled || id in ids
      ensures id in Eligibles(rows, ids) <==>
              && id in ids
              && var r := rows[id].report;
                 && r.createdBySwitchboard && r.providerRef != "" && r.policy != Never
                 && (r.state == Creating || r.state == Booting || r.state == Running || r.state == Unknown)
    {
      PickedExactly(rows, ids, id);
    }
  }

  /** Cleanup can ask this provider, and the provider accepts. */
  ghost predicate SaysYes(provider: string, isChina: string -> bool, a: Answer) {
    (provider == "gcp" || provider == "lambda" || isChina(provider)) && a == CancelAccepted
  }

  /** Every eligible one of the first `n` listed resources was accepted. */
  ghost predicate AcceptedUpTo(rows: map<nat, Row>, ids: seq<nat>, n: nat, isChina: string -> bool, answers: nat -> Answer)
    requires n <= |ids| && forall i :: 0 <= i < |ids| ==> ids[i] in rows
  {
    forall i: nat :: i < n && Eligible(rows[ids[i]].report) ==> SaysYes(rows[ids[i]].report.provider, isChina, answers(i))
  }

  lemma AcceptedStep(rows: map<nat, Row>, ids: seq<nat>, n: nat, isChina: string -> bool, answers: nat -> Answer)
    requires n < |ids| && forall i :: 0 <= i < |ids| ==> ids[i] in rows
    requires AcceptedUpTo(rows, ids, n, isChina, answers)
    requires Eligible(rows[ids[n]].report) ==> Accepts(rows[ids[n]].report.provider, isChina, answers(n))
    ensures AcceptedUpTo(rows, ids, n + 1, isChina, answers)
  {
    AdapterExactly(rows[ids[n]].report.provider, isChina);
  }

  /** The resources were canceled as their providers answered, up to the first that could not be asked or did
      not accept. */
  ghost predicate AsAnswered(rows: map<nat, Row>, ids: seq<nat>, canceled: seq<nat>, ok: bool, isChina: string -> bool,
                             answers: nat -> Answer)
    requires forall i :: 0 <= i < |ids| ==> ids[i] in rows
  {
    && (forall i: nat :: i < |ids| && ids[i] in canceled ==> SaysYes(rows[ids[i]].report.provider, isChina, answers(i)))
    && (!ok ==> exists i: nat :: i < |ids| && ids[i] in Eligibles(rows, ids) && canceled == Eligibles(rows, ids[..i])
                                 && !SaysYes(rows[ids[i]].report.provider, isChina, answers(i)))
  }

  lemma AnsweredUpTo(rows: map<nat, Row>, ids: seq<nat>, n: nat, canceled: seq<nat>, ok: bool, isChina: string -> bool,
                     answers: nat -> Answer)
    requires Listing(rows, ids) && n <= |ids| && AcceptedUpTo(rows, ids, n, isChina, answers)
    requires canceled == [] || canceled == Eligibles(rows, ids[..n])
    requires !ok ==> n < |ids| && canceled == Eligibles(rows, ids[..n]) && Eligible(rows[ids[n]].report)
                     && !Accepts(rows[ids[n]].report.provider, isChina, answers(n))
    ensures AsAnswered(rows, ids, canceled, ok, isChina, answers)
  {
    forall i: nat | i < |ids| && ids[i] in canceled ensures SaysYes(rows[ids[i]].report.provider, isChina, answers(i)) {
      PickedExactly(rows, ids[..n], ids[i]);
      var j :| 0 <= j < n && ids[..n][j] == ids[i];
      assert j == i;
    }
    if !ok {
      AdapterExactly(rows[ids[n]].report.provider, isChina);
      PickedExactly(rows, ids, ids[n]);
    }
  }

  /** One pass over the listed resources. `canceled` are the resources whose cancellation was accepted. */
  method CleanUp(table: ResourceTable, ids: seq<nat>, dryRun: bool, isChina: string -> bool, answers: nat -> Answer, now: int,
                 stamp: string)
    returns (cleaned: nat, ok: bool, ghost canceled: seq<nat>)
    requires table.Valid() && Listing(table.rows, ids)
    modifies table
    ensures table.Valid()
    ensures RecordedAll(old(table.rows), canceled, table.rows, isChina, now, stamp)
    ensures forall id :: id in old(table.rows) && id !in canceled ==> table.rows[id] == old(table.rows)[id]
    ensures forall id :: id in canceled ==>
              && id in ids
              && var r := old(table.rows)[id].report;
                 && r.createdBySwitchboard && r.providerRef != "" && r.policy != Never
                 && (r.state == Creating || r.state == Booting || r.state == Running || r.state == Unknown)
    ensures !dryRun && ok ==>
              forall id :: id in ids && id !in canceled ==>
                var r := old(table.rows)[id].report;
                !r.createdBySwitchboard || r.providerRef == "" || r.policy == Never
                || (r.state != Creating && r.state != Booting && r.state != Running && r.state != Unknown)
    ensures canceled <= Eligibles(old(table.rows), ids)
    ensures dryRun ==> ok && canceled == [] && cleaned == |Eligibles(old(table.rows), ids)|
    ensures !dryRun ==> cleaned == |canceled|
    ensures !dryRun && ok ==> canceled == Eligibles(old(table.rows), ids)
    ensures !ok ==> |canceled| < |Eligibles(old(table.rows), ids)|
    ensures AllSupported(old(table.rows), canceled, isChina)
    ensures AsAnswered(old(table.rows), ids, canceled, ok, isChina, answers)
  {
    var snapshot := table.rows;
    cleaned, ok, canceled := 0, true, [];
    for n := 0 to |ids|
      invariant ok && table.Valid() && RecordedAll(snapshot, canceled, table.rows, isChina, now, stamp)
      invariant cleaned == |Eligibles(snapshot, ids[..n])|
      invariant canceled == if dryRun then [] else Eligibles(snapshot, ids[..n])
      invariant AllSupported(snapshot, canceled, isChina)
      invariant !dryRun ==> AcceptedUpTo(snapshot, ids, n, isChina, answers)
    {
      assert ids[..n + 1][..n] == ids[..n];
      var resource := snapshot[ids[n]];
      if !Eligible(resource.report) {
        if !dryRun {
          AcceptedStep(snapshot, ids, n, isChina, answers);
        }
        continue;
      }
      if dryRun {
        cleaned := cleaned + 1;
        continue;
      }
      NotYetListed(snapshot, ids, n);
      ghost var mid := table.rows;
      var accepted := CancelOne(table, ids[n], isChina, answers(n), now, stamp);
      if !accepted {
        ok := false;
        StoppedShort(snapshot, ids, n);
        CanceledOnFields(snapshot, ids, canceled);
        AnsweredUpTo(snapshot, ids, n, canceled, ok, isChina, answers);
        return;
      }
      AcceptedStep(snapshot, ids, n, isChina, answers);
      RecordedOneMore(snapshot, canceled, mid, ids[n], isChina, now, stamp);
      SupportedOneMore(snapshot, canceled, ids[n], isChina, answers(n));
      canceled := canceled + [ids[n]];
      cleaned := cleaned + 1;
    }
    assert ids[..|ids|] == ids;
    CanceledOnFields(snapshot, ids, canceled);
    if !dryRun {
      AnsweredUpTo(snapshot, ids, |ids|, canceled, ok, isChina, answers);
    }
  }

  lemma {:induction false} EligiblesPrefix(rows: map<nat, Row>, ids: seq<nat>, n: nat)
    requires n <= |ids| && forall i :: 0 <= i < |ids| ==> ids[i] in rows
    ensures Eligibles(rows, ids[..n]) <= Eligibles(rows, ids)
  {
    if n == |ids| {
      assert ids[..n] == ids;
    } else {
      EligiblesPrefix(rows, ids[..|ids| - 1], n);
      assert ids[..|ids| - 1][..n] == ids[..n];
    }
  }

  lemma StoppedShort(rows: map<nat, Row>, ids: seq<nat>, n: nat)
    requires n < |ids| && forall i :: 0 <= i < |ids| ==> ids[i] in rows
    requires Eligible(rows[ids[n]].report)
    ensures Eligibles(rows, ids[..n]) <= Eligibles(rows, ids) && |Eligibles(rows, ids[..n])| < |Eligibles(rows, ids)|
  {
    EligiblesPrefix(rows, ids, n);
    EligiblesPrefix(rows, ids, n + 1);
    assert ids[..n + 1][..n] == ids[..n];
  }

  lemma NotYetListed(rows: map<nat, Row>, ids: seq<nat>, n: nat)
    requires Listing(rows, ids) && n < |ids|
    ensures ids[n] !in Eligibles(rows, ids[..n])
  {
    assert ids[n] !in ids[..n];
  }

  // ---------- Passes after passes ----------

  /** After a pass that canceled the first of the eligible resources, the others are still eligible, in
      the same order, and the canceled ones are not. */
  lemma {:induction false} WhatStaysEligible(rows: map<nat, Row>, ids: seq<nat>, canceled: seq<nat>, rows': map<nat, Row>,
                                             isChina: string -> bool, now: int, stamp: string)
    requires Listing(rows, ids) && canceled <= Eligibles(rows, ids)
    requires AllSupported(rows, canceled, isChina)
    requires RecordedAll(rows, canceled, rows', isChina, now, stamp)
    ensures Listing(rows', ids)
    ensures Eligibles(rows', ids) == Eligibles(rows, ids)[|canceled|..]
  {
    var all := Eligibles(rows, ids);
    EligiblesDistinct(rows, ids);
    assert forall id :: id in all[|canceled|..] ==> id !in canceled;
    forall i | 0 <= i < |ids|
      ensures Eligible(rows'[ids[i]].report) <==> Eligible(rows[ids[i]].report) && ids[i] !in canceled
    {
      RequestedStateIsInactive(rows[ids[i]].report.provider, isChina);
    }
    FilterWithout(rows, ids, canceled, rows');
    DropPrefix(all, canceled);
  }

  lemma {:induction false} EligiblesDistinct(rows: map<nat, Row>, ids: seq<nat>)
    requires Listing(rows, ids)
    ensures forall i, j :: 0 <= i < j < |Eligibles(rows, ids)| ==> Eligibles(rows, ids)[i] != Eligibles(rows, ids)[j]
  {
    if ids != [] {
      var n := |ids| - 1;
      EligiblesDistinct(rows, ids[..n]);
      NotYetListed(rows, ids, n);
    }
  }

  function Without(s: seq<nat>, gone: seq<nat>): seq<nat> {
    if s == [] then []
    else
      var before, x := Without(s[..|s| - 1], gone), s[|s| - 1];
      if x in gone then before else before + [x]
  }

  lemma {:induction false} FilterWithout(rows: map<nat, Row>, ids: seq<nat>, gone: seq<nat>, rows': map<nat, Row>)
    requires forall i :: 0 <= i < |ids| ==> ids[i] in rows && ids[i] in rows'
    requires forall i :: 0 <= i < |ids| ==>
               (Eligible(rows'[ids[i]].report) <==> Eligible(rows[ids[i]].report) && ids[i] !in gone)
    ensures Eligibles(rows', ids) == Without(Eligibles(rows, ids), gone)
  {
    if ids != [] {
      var n := |ids| - 1;
      FilterWithout(rows, ids[..n], gone, rows');
      var before := Eligibles(rows, ids[..n]);
      assert (before + [ids[n]])[..|before|] == before;
    }
  }

  lemma {:induction false} DropPrefix(s: seq<nat>, gone: seq<nat>)
    requires gone <= s && forall i, j :: 0 <= i < j < |s| ==> s[i] != s[j]
    ensures Without(s, gone) == s[|gone|..]
  {
    if s != [] {
      var n := |s| - 1;
      if |gone| == |s| {
        assert gone == s;
        AllGone(s, s);
      } else {
        DropPrefix(s[..n], gone);
        assert s[n] !in gone;
        assert s[..n][|gone|..] + [s[n]] == s[|gone|..];
      }
    }
  }

  lemma {:induction false} AllGone(s: seq<nat>, gone: seq<nat>)
    requires forall i :: 0 <= i < |s| ==> s[i] in gone
    ensures Without(s, gone) == []
  {
    if s != [] {
      AllGone(s[..|s| - 1], gone);
    }
  }

  /** What one pass did: the resources it canceled and the table it left. */
  datatype Pass = Pass(canceled: seq<nat>, rows: map<nat, Row>, now: int, stamp: string)

  /** What `CleanUp` ensures of a pass that is not a dry run; it may have stopped at an error. */
  ghost predicate PassOver(rows: map<nat, Row>, ids: seq<nat>, p: Pass, isChina: string -> bool)
    requires Listing(rows, ids)
  {
    && p.canceled <= Eligibles(rows, ids) && AllSupported(rows, p.canceled, isChina)
    && RecordedAll(rows, p.canceled, p.rows, isChina, p.now, p.stamp)
  }

  /** Passes over the same resources, one after another. */
  ghost predicate Passes(rows: map<nat, Row>, ids: seq<nat>, passes: seq<Pass>, isChina: string -> bool)
    decreases |passes|
  {
    passes != [] ==>
      var p := passes[0];
      && Listing(rows, ids) && PassOver(rows, ids, p, isChina)
      && Passes(p.rows, ids, passes[1..], isChina)
  }

  function CanceledBy(passes: seq<Pass>): seq<nat> {
    if passes == [] then [] else passes[0].canceled + CanceledBy(passes[1..])
  }

  lemma {:induction false} PassesGoOn(rows: map<nat, Row>, ids: seq<nat>, passes: seq<Pass>, isChina: string -> bool)
    requires Listing(rows, ids) && Passes(rows, ids, passes, isChina)
    ensures CanceledBy(passes) <= Eligibles(rows, ids)
    decreases |passes|
  {
    if passes != [] {
      var p := passes[0];
      WhatStaysEligible(rows, ids, p.canceled, p.rows, isChina, p.now, p.stamp);
      PassesGoOn(p.rows, ids, passes[1..], isChina);
      PrefixGoesOn(p.canceled, CanceledBy(passes[1..]), Eligibles(rows, ids));
    }
  }

  lemma PrefixGoesOn(a: seq<nat>, b: seq<nat>, all: seq<nat>)
    requires a <= all && b <= all[|a|..]
    ensures a + b <= all
  {
    assert all == a + all[|a|..];
  }

  /** However many passes run, and wherever they stop, together they cancel the eligible resources from
      the first on, each once. */
  lemma EachCanceledOnce(rows: map<nat, Row>, ids: seq<nat>, passes: seq<Pass>, isChina: string -> bool)
    requires Listing(rows, ids) && Passes(rows, ids, passes, isChina)
    ensures CanceledBy(passes) <= Eligibles(rows, ids)
    ensures forall i, j :: 0 <= i < j < |CanceledBy(passes)| ==> CanceledBy(passes)[i] != CanceledBy(passes)[j]
  {
    PassesGoOn(rows, ids, passes, isChina);
    EligiblesDistinct(rows, ids);
  }

  /** After a pass that ran through, the next one cancels nothing. */
  lemma SecondPassCancelsNothing(rows: map<nat, Row>, ids: seq<nat>, first: Pass, second: Pass, isChina: string -> bool)
    requires Listing(rows, ids) && Passes(rows, ids, [first, second], isChina) && first.canceled == Eligibles(rows, ids)
    ensures second.canceled == []
  {
    EachCanceledOnce(rows, ids, [first, second], isChina);
    assert [first, second][1..] == [second];
    assert CanceledBy([second]) == second.canceled + CanceledBy([second][1..]) == second.canceled;
    assert CanceledBy([first, second]) == first.canceled + second.canceled;
  }
}
