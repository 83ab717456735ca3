/** internal/state/store.go as the orchestrator of one run sees it: the run's row, its attempts in order
    of creation, its event log, and `cancelRun` of internal/cli/root.go, the second process that writes
    these rows.

    Every store call first lets other processes write: `others` gives, for each store call by number, the
    writes of half-finished cancellations that reach the database just before it, so a theorem for every
    `others` holds under any interleaving of store calls. Store calls themselves succeed. */
module RunStore {
  import opened Wrappers
  import opened App
  import Checkpoint

  /** What a row says about its end; the texts of one message are not told apart, and `Reported` are the
      adapter's own words. */
  datatype Message =
    NoMessage | CanceledMessage | UnknownProvider | NotPrepared | NotSupported | NoEstimate(text: string) | NoRouteFound |
    NotReachable | NotResumable | ProviderFailed | NoCheckpoint | Reported(text: string)

  datatype Run = Run(state: RunState, exitCode: int, error: Message)

  datatype Attempt = Attempt(
    provider: string, state: AttemptState, exitCode: int, exitReason: Message, providerRef: string,
    resumeFrom: Option<CheckpointRef>, hourlyUSD: Option<real>)

  const CANCELED := Run(RunCanceled, EXIT_CANCELED, CanceledMessage)

  predicate Terminal(run: Run) {
    run.state != RunRunning
  }

  function Cancel(a: Attempt, ref: string): Attempt {
    a.(state := AttemptCanceled, exitCode := EXIT_CANCELED, exitReason := CanceledMessage, providerRef := ref)
  }

  function EndedRow(a: Attempt, state: AttemptState, code: int, reason: Message, ref: string): Attempt {
    a.(state := state, exitCode := code, exitReason := reason, providerRef := ref)
  }

  // ---------- Writes of other processes ----------

  datatype CancelWrite = CancelAttempt(id: nat, ref: string) | CancelTheRun

  /** `after` is `before` with some attempts canceled. */
  ghost predicate Touched(before: seq<Attempt>, after: seq<Attempt>) {
    && |after| == |before|
    && forall i :: 0 <= i < |before| ==> after[i] == before[i] || after[i] == Cancel(before[i], after[i].providerRef)
  }

  ghost predicate RunTouched(before: Run, after: Run) {
    after == before || after == CANCELED
  }

  lemma TouchedTransitive(a: seq<Attempt>, b: seq<Attempt>, c: seq<Attempt>)
    requires Touched(a, b) && Touched(b, c)
    ensures Touched(a, c)
  {
  }

  /** How many of the attempts from `base` on are running. */
  function RunningCount(attempts: seq<Attempt>, base: nat): nat {
    if |attempts| <= base then 0
    else
      RunningCount(attempts[..|attempts| - 1], base) + if attempts[|attempts| - 1].state == AttemptRunning then 1 else 0
  }

  /** Ending one attempt does not start another. */
  lemma {:induction false} EndingKeepsCount(attempts: seq<Attempt>, id: nat, a: Attempt, base: nat)
    requires id < |attempts| && (a.state == AttemptRunning ==> attempts[id].state == AttemptRunning)
    ensures RunningCount(attempts[id := a], base) <= RunningCount(attempts, base)
  {
    var n := |attempts| - 1;
    if base <= n {
      if id < n {
        EndingKeepsCount(attempts[..n], id, a, base);
        assert attempts[id := a][..n] == attempts[..n][id := a];
      } else {
        assert attempts[id := a][..n] == attempts[..n];
      }
    }
  }

  /** No attempt is running when the count is 0, and at most one when it is at most 1. */
  lemma {:induction false} CountExactly(attempts: seq<Attempt>, base: nat)
    ensures RunningCount(attempts, base) == 0 <==>
            forall i :: base <= i < |attempts| ==> attempts[i].state != AttemptRunning
    ensures RunningCount(attempts, base) <= 1 <==>
            forall i, j :: base <= i < j < |attempts| ==> !(attempts[i].state == AttemptRunning && attempts[j].state == AttemptRunning)
  {
    var n := |attempts| - 1;
    if base <= n {
      CountExactly(attempts[..n], base);
      assert forall i :: base <= i < n ==> attempts[i] == attempts[..n][i];
      if RunningCount(attempts[..n], base) > 0 {
        var i :| base <= i < n && attempts[..n][i].state == AttemptRunning;
        assert attempts[i].state == AttemptRunning;
      }
    }
  }

  /** The attempt `cancelRun` picks: the last running one, or -1. */
  function LastRunning(attempts: seq<Attempt>): (i: int)
    ensures -1 <= i < |attempts|
    ensures 0 <= i ==> attempts[i].state == AttemptRunning
    ensures forall k :: i < k < |attempts| ==> attempts[k].state != AttemptRunning
  {
    if attempts == [] then -1
    else if attempts[|attempts| - 1].state == AttemptRunning then |attempts| - 1
    else LastRunning(attempts[..|attempts| - 1])
  }

  method FindRunning(rows: seq<Attempt>) returns (running: int)
    ensures running == LastRunning(rows)
  {
    running := -1;
    for i := 0 to |rows|
      invariant running == LastRunning(rows[..i])
    {
      assert rows[..i + 1][..i] == rows[..i];
      if rows[i].state == AttemptRunning {
        running := i;
      }
    }
    assert rows[..|rows|] == rows;
  }

  class Store {
    var run: Run
    var attempts: seq<Attempt>
    var events: seq<Checkpoint.Event>
    const others: Option<nat -> seq<CancelWrite>>
    var clock: nat
    /** A monitor: whether two attempts from `base` on were ever running at the same time. */
    ghost var base: nat
    ghost var overlap: bool

    /** No cancellation is ever half finished. */
    predicate Quiet() {
      others.None?
    }

    ghost predicate Monitored()
      reads this
    {
      !overlap && RunningCount(attempts, base) <= 1
    }

    /** Lets the other processes write. */
    method Yield()
      modifies this`run, this`attempts, this`clock, this`overlap
      ensures RunTouched(old(run), run) && Touched(old(attempts), attempts)
      ensures RunningCount(attempts, base) <= old(RunningCount(attempts, base)) && (old(Monitored()) ==> Monitored())
      ensures Quiet() ==> run == old(run) && attempts == old(attempts)
    {
      var writes := if others.None? then [] else others.value(clock);
      clock := clock + 1;
      for i := 0 to |writes|
        invariant RunTouched(old(run), run) && Touched(old(attempts), attempts)
        invariant RunningCount(attempts, base) <= old(RunningCount(attempts, base)) && (old(Monitored()) ==> Monitored())
        invariant Quiet() ==> writes == [] && run == old(run) && attempts == old(attempts)
      {
        match writes[i] {
          case CancelTheRun => run := CANCELED;
          case CancelAttempt(id, ref) =>
            if id < |attempts| {
              EndingKeepsCount(attempts, id, Cancel(attempts[id], ref), base);
              attempts := attempts[id := Cancel(attempts[id], ref)];
              overlap := overlap || RunningCount(attempts, base) > 1;
            }
        }
      }
    }

    method GetRun() returns (r: Run)
      modifies this`run, this`attempts, this`clock, this`overlap
      ensures r == run && RunTouched(old(run), run) && Touched(old(attempts), attempts)
      ensures RunningCount(attempts, base) <= old(RunningCount(attempts, base)) && (old(Monitored()) ==> Monitored())
      ensures Quiet() ==> run == old(run) && attempts == old(attempts)
    {
      Yield();
      r := run;
    }

    method AttemptsByRun() returns (r: seq<Attempt>)
      modifies this`run, this`attempts, this`clock, this`overlap
      ensures r == attempts && RunTouched(old(run), run) && Touched(old(attempts), attempts)
      ensures RunningCount(attempts, base) <= old(RunningCount(attempts, base)) && (old(Monitored()) ==> Monitored())
      ensures Quiet() ==> run == old(run) && attempts == old(attempts)
    {
      Yield();
      r := attempts;
    }

    method FinishRun(state: RunState, exitCode: int, error: Message)
      modifies this`run, this`attempts, this`clock, this`overlap
      ensures run == Run(state, exitCode, error) && Touched(old(attempts), attempts)
      ensures RunningCount(attempts, base) <= old(RunningCount(attempts, base)) && (old(Monitored()) ==> Monitored())
      ensures Quiet() ==> attempts == old(attempts)
    {
      Yield();
      run := Run(state, exitCode, error);
    }

    method CreateAttempt(a: Attempt) returns (id: nat)
      modifies this`run, this`attempts, this`clock, this`overlap
      ensures id == |old(attempts)| && |attempts| == id + 1 && attempts[id] == a
      ensures RunTouched(old(run), run) && Touched(old(attempts), attempts[..id])
      ensures old(Monitored() && RunningCount(attempts, base) == 0) ==> Monitored()
      ensures Quiet() ==> run == old(run) && attempts == old(attempts) + [a]
    {
      Yield();
      id := |attempts|;
      attempts := attempts + [a];
      overlap := overlap || RunningCount(attempts, base) > 1;
    }

    /** Overwrites the row of attempt `id`, as it is when the write happens, by `a`. */
    method FinishAttempt(id: nat, state: AttemptState, exitCode: int, exitReason: Message, providerRef: string)
      requires id < |attempts| && state != AttemptRunning
      modifies this`run, this`attempts, this`clock, this`overlap
      ensures RunTouched(old(run), run) && |attempts| == |old(attempts)|
      ensures attempts[id] == EndedRow(old(attempts)[id], state, exitCode, exitReason, providerRef)
      ensures Touched(old(attempts)[id := attempts[id]], attempts)
      ensures RunningCount(attempts, base) <= old(RunningCount(attempts, base)) && (old(Monitored()) ==> Monitored())
      ensures Quiet() ==> run == old(run) && attempts == old(attempts)[id := attempts[id]]
    {
      Yield();
      var a := EndedRow(attempts[id], state, exitCode, exitReason, providerRef);
      EndingKeepsCount(attempts, id, a, base);
      attempts := attempts[id := a];
      overlap := overlap || RunningCount(attempts, base) > 1;
    }

    method UpdateAttemptProviderRef(id: nat, ref: string)
      requires id < |attempts|
      modifies this`run, this`attempts, this`clock, this`overlap
      ensures RunTouched(old(run), run) && |attempts| == |old(attempts)|
      ensures attempts[id].providerRef == ref
      ensures Touched(old(attempts)[id := old(attempts)[id].(providerRef := ref)], attempts)
      ensures RunningCount(attempts, base) <= old(RunningCount(attempts, base)) && (old(Monitored()) ==> Monitored())
      ensures Quiet() ==> run == old(run) && attempts == old(attempts)[id := old(attempts)[id].(providerRef := ref)]
    {
      Yield();
      var a := attempts[id].(providerRef := ref);
      EndingKeepsCount(attempts, id, a, base);
      attempts := attempts[id := a];
    }

    method UpdateAttemptEstimate(id: nat, hourlyUSD: real)
      requires id < |attempts|
      modifies this`run, this`attempts, this`clock, this`overlap
      ensures RunTouched(old(run), run) && |attempts| == |old(attempts)|
      ensures Touched(old(attempts)[id := old(attempts)[id].(hourlyUSD := Some(hourlyUSD))], attempts)
      ensures RunningCount(attempts, base) <= old(RunningCount(attempts, base)) && (old(Monitored()) ==> Monitored())
      ensures Quiet() ==> run == old(run) && attempts == old(attempts)[id := old(attempts)[id].(hourlyUSD := Some(hourlyUSD))]
    {
      Yield();
      var a := attempts[id].(hourlyUSD := Some(hourlyUSD));
      EndingKeepsCount(attempts, id, a, base);
      attempts := attempts[id := a];
    }

    /** Finishes attempt `id` and then the run. */
    method FinishBoth(id: nat, attemptState: AttemptState, runState: RunState, code: int, reason: Message, ref: string)
      requires id < |attempts| && attemptState != AttemptRunning
      modifies this`run, this`attempts, this`clock, this`overlap
      ensures run == Run(runState, code, reason) && |attempts| == |old(attempts)|
      ensures Touched(old(attempts)[id := EndedRow(old(attempts)[id], attemptState, code, reason, ref)], attempts)
      ensures RunningCount(attempts, base) <= old(RunningCount(attempts, base)) && (old(Monitored()) ==> Monitored())
      ensures Quiet() ==> attempts == old(attempts)[id := EndedRow(old(attempts)[id], attemptState, code, reason, ref)]
    {
      FinishAttempt(id, attemptState, code, reason, ref);
      ghost var mid := attempts;
      FinishRun(runState, code, reason);
      assert Touched(mid, attempts);
    }

    /** `cancelRun`, run as a whole; `adapterCancels` is whether the provider accepts the cancellation. */
    method CancelRun(adapterCancels: bool)
      modifies this`run, this`attempts, this`clock, this`overlap
      ensures RunTouched(old(run), run) && Touched(old(attempts), attempts)
      ensures RunningCount(attempts, base) <= old(RunningCount(attempts, base)) && (old(Monitored()) ==> Monitored())
      ensures Quiet() ==>
                var last := LastRunning(old(attempts));
                if old(run).state == RunRunning && last >= 0 && old(attempts)[last].providerRef != "" && adapterCancels
                then run == CANCELED && attempts == old(attempts)[last := Cancel(old(attempts)[last], old(attempts)[last].providerRef)]
                else run == old(run) && attempts == old(attempts)
    {
      var r := GetRun();
      if r.state != RunRunning {
        return;
      }
      var rows := AttemptsByRun();
      var running := FindRunning(rows);
      if running < 0 || rows[running].providerRef == "" || !adapterCancels {
        return;
      }
      FinishBoth(running, AttemptCanceled, RunCanceled, EXIT_CANCELED, CanceledMessage, rows[running].providerRef);
    }
  }
}
