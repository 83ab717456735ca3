/** internal/checkpoint/resolver.go: the checkpoint a run resumes from. Cleaning a checkpoint URI is a
    parameter. */
module Checkpoint {
  import opened Wrappers
  import opened App

  datatype Event = Event(isCheckpoint: bool, checkpointUri: string, step: Option<int>)

  predicate Candidate(e: Event) {
    e.isCheckpoint && e.checkpointUri != ""
  }

  function StepOf(e: Event): int {
    if e.step.Some? then e.step.value else 0
  }

  function RefOf(e: Event, sanitize: string -> string): CheckpointRef {
    CheckpointRef(sanitize(e.checkpointUri), StepOf(e))
  }

  /** The latest checkpoint: the candidate of greatest step, the last one among equals. */
  ghost predicate LatestAt(events: seq<Event>, i: int) {
    && 0 <= i < |events| && Candidate(events[i])
    && (forall j :: 0 <= j < |events| && Candidate(events[j]) ==> StepOf(events[j]) <= StepOf(events[i]))
    && (forall j :: i < j < |events| && Candidate(events[j]) ==> StepOf(events[j]) < StepOf(events[i]))
  }

  ghost predicate IsLatest(events: seq<Event>, r: Option<CheckpointRef>, sanitize: string -> string) {
    match r
    case None => forall j :: 0 <= j < |events| ==> !Candidate(events[j])
    case Some(c) => exists i :: LatestAt(events, i) && c == RefOf(events[i], sanitize)
  }

  /** The fold over the log that `Latest` computes. */
  function LatestOf(events: seq<Event>, sanitize: string -> string): Option<CheckpointRef> {
    if events == [] then None
    else
      var e, before := events[|events| - 1], LatestOf(events[..|events| - 1], sanitize);
      if Candidate(e) && (before.None? || StepOf(e) >= before.value.step) then Some(RefOf(e, sanitize)) else before
  }

  method Latest(events: seq<Event>, sanitize: string -> string) returns (latest: Option<CheckpointRef>)
    ensures latest == LatestOf(events, sanitize)
  {
    latest := None;
    for n := 0 to |events|
      invariant latest == LatestOf(events[..n], sanitize)
    {
      assert events[..n + 1][..n] == events[..n];
      var e := events[n];
      if !e.isCheckpoint || e.checkpointUri == "" {
        continue;
      }
      var step := 0;
      if e.step.Some? {
        step := e.step.value;
      }
      if latest.None? || step >= latest.value.step {
        latest := Some(CheckpointRef(sanitize(e.checkpointUri), step));
      }
    }
    assert events[..|events|] == events;
  }

  /** The fold finds the latest checkpoint. */
  lemma {:induction false} LatestOfIsLatest(events: seq<Event>, sanitize: string -> string)
    ensures IsLatest(events, LatestOf(events, sanitize), sanitize)
  {
    if events != [] {
      var n := |events| - 1;
      LatestOfIsLatest(events[..n], sanitize);
      if LatestOf(events[..n], sanitize).Some? {
        var i :| LatestAt(events[..n], i) && LatestOf(events[..n], sanitize).value == RefOf(events[..n][i], sanitize);
        LatestStep(events, n, i);
      } else if Candidate(events[n]) {
        FirstCandidate(events, n);
      }
    }
  }

  lemma LatestStep(events: seq<Event>, n: nat, i: int)
    requires |events| == n + 1 && LatestAt(events[..n], i)
    ensures LatestAt(events, if Candidate(events[n]) && StepOf(events[n]) >= StepOf(events[i]) then n else i)
  {
    assert forall j :: 0 <= j < n ==> events[..n][j] == events[j];
  }

  lemma FirstCandidate(events: seq<Event>, n: nat)
    requires |events| == n + 1 && Candidate(events[n])
    requires forall j :: 0 <= j < n ==> !Candidate(events[..n][j])
    ensures LatestAt(events, n)
  {
    assert forall j :: 0 <= j < n ==> events[..n][j] == events[j];
  }

  lemma LatestIsUnique(events: seq<Event>, i: int, j: int)
    requires LatestAt(events, i) && LatestAt(events, j)
    ensures i == j
  {
  }

  /** A log has one latest checkpoint. */
  lemma IsLatestUnique(events: seq<Event>, r: Option<CheckpointRef>, r': Option<CheckpointRef>, sanitize: string -> string)
    requires IsLatest(events, r, sanitize) && IsLatest(events, r', sanitize)
    ensures r == r'
  {
    if r.Some? && r'.Some? {
      var i :| LatestAt(events, i) && r.value == RefOf(events[i], sanitize);
      var j :| LatestAt(events, j) && r'.value == RefOf(events[j], sanitize);
      LatestIsUnique(events, i, j);
    }
  }

  /** As the log grows, the latest checkpoint does not go away and its step never falls. */
  lemma LatestNeverFalls(events: seq<Event>, more: seq<Event>, r: Option<CheckpointRef>, r': Option<CheckpointRef>,
                         sanitize: string -> string)
    requires events <= more && IsLatest(events, r, sanitize) && IsLatest(more, r', sanitize) && r.Some?
    ensures r'.Some? && r.value.step <= r'.value.step
  {
    var i :| LatestAt(events, i) && r.value == RefOf(events[i], sanitize);
    assert more[i] == events[i];
  }
}
