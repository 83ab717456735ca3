/** internal/cli/root.go: `runAttempts` and `runAttempt`, the failover loop of one run, over the store
    that `cancelRun` also writes. What providers answer and what happens during each `Submit` is a
    script; every script is possible. */
module Failover {
  import opened Wrappers
  import opened App
  import opened RunStore
  import Strings
  import Checkpoint
  import Routing

  const LOCAL := "local"

  // ---------- Scripts ----------

  /** What can happen while `Submit` is in flight: the job is started, events are appended to the log,
      a cancellation runs from start to end. */
  datatype SubmitAction = Started(ref: string) | Emitted(events: seq<Checkpoint.Event>) | Canceling(adapterCancels: bool)

  datatype SubmitError = ProviderError(kind: ErrorKind) | OtherError

  datatype SubmitScript = SubmitScript(
    actions: seq<SubmitAction>, ref: string, exitCode: int, exitReason: string, error: Option<SubmitError>)

  /** One attempt: the adapters' answers when a provider is chosen, then those of the chosen adapter. */
  datatype AttemptScript = AttemptScript(
    registry: map<string, Routing.Adapter>, preparesLocal: bool, validates: bool, estimate: Result<real, string>,
    submit: SubmitScript, logReadable: bool)

  /** The provider of the configuration: "auto" or a name. */
  datatype ProviderChoice = Auto | Fixed(name: string)

  /** The resolved configuration and the job. */
  datatype Plan = Plan(
    provider: ProviderChoice, maxAttempts: int, options: Routing.Options, data: seq<Routing.DataInput>,
    schemeOf: string -> string, sanitize: string -> string)

  predicate IsRetryable(e: SubmitError) {
    e.ProviderError? && Retryable(e.kind)
  }

  /** The hourly rate the routed hardware reports, when it reports one. */
  predicate Priced(hardware: Option<Routing.Selection>) {
    hardware.Some? && hardware.value.hourlyUSD > 0.0
  }

  /** Why an attempt does not get as far as `Submit`: the exit code and the message. */
  function Refusal(s: AttemptScript, provider: string, hardware: Option<Routing.Selection>): Option<(int, Message)> {
    if provider !in s.registry then Some((EXIT_INTERNAL, UnknownProvider))
    else if provider == LOCAL && !s.preparesLocal then Some((EXIT_INVALID_SPEC, NotPrepared))
    else if !s.validates then Some((EXIT_INVALID_SPEC, NotSupported))
    else if !Priced(hardware) && s.estimate.Err? then Some((EXIT_ROUTING, NoEstimate(s.estimate.error)))
    else None
  }

  /** Some cancellation succeeds: the job has a reference when it comes, and the provider accepts it. */
  predicate CancelLands(actions: seq<SubmitAction>, ref: string) {
    if actions == [] then false
    else
      match actions[0]
      case Started(r) => CancelLands(actions[1..], r)
      case Emitted(_) => CancelLands(actions[1..], ref)
      case Canceling(ok) => (ok && ref != "") || CancelLands(actions[1..], ref)
  }

  function EventsOf(actions: seq<SubmitAction>): seq<Checkpoint.Event> {
    if actions == [] then []
    else (if actions[0].Emitted? then actions[0].events else []) + EventsOf(actions[1..])
  }

  /** One call of `runAttempts`: its plan, the checkpoint it starts from, the event log at its start, and
      what the world will answer. */
  datatype Call = Call(plan: Plan, initial: Option<CheckpointRef>, log: seq<Checkpoint.Event>, script: nat -> AttemptScript)

  /** The event log after `n` attempts. */
  function LogAfter(call: Call, n: nat): seq<Checkpoint.Event> {
    if n == 0 then call.log else LogAfter(call, n - 1) + EventsOf(call.script(n - 1).submit.actions)
  }

  // ---------- Submit ----------

  /** The attempt in flight is the last row and is running, and so is the run. */
  ghost predicate InFlight(run: Run, attempts: seq<Attempt>, id: nat) {
    run.state == RunRunning && id == |attempts| - 1 && attempts[id].state == AttemptRunning
  }

  /** The fields of an attempt that are fixed when it is submitted. */
  ghost predicate SameAttempt(a: Attempt, b: Attempt) {
    b.provider == a.provider && b.resumeFrom == a.resumeFrom && b.hourlyUSD == a.hourlyUSD
  }

  function RefAfter(action: SubmitAction, ref: string): string {
    match action
    case Started(r) => r
    case _ => ref
  }

  /** What an action does to the run and the attempt in flight, in a quiet store. */
  ghost predicate QuietAction(run: Run, a: Attempt, action: SubmitAction, run': Run, a': Attempt) {
    if run.state != RunRunning then run' == run && a'.state == a.state && a'.exitCode == a.exitCode
    else if action.Canceling? && action.adapterCancels && a.providerRef != "" then
      run' == CANCELED && a'.state == AttemptCanceled && a'.exitCode == EXIT_CANCELED
    else
      run' == run && a'.state == AttemptRunning && a'.providerRef == RefAfter(action, a.providerRef)
  }

  /** What the actions do: the first cancellation that lands ends both, and later ones change nothing. */
  ghost predicate QuietActions(run: Run, a: Attempt, actions: seq<SubmitAction>, run': Run, a': Attempt) {
    if run.state != RunRunning then run' == run && a'.state == a.state && a'.exitCode == a.exitCode
    else if CancelLands(actions, a.providerRef) then
      run' == CANCELED && a'.state == AttemptCanceled && a'.exitCode == EXIT_CANCELED
    else
      run' == run && a'.state == AttemptRunning
  }

  lemma QuietActionThenActions(run: Run, a: Attempt, actions: seq<SubmitAction>, run': Run, a': Attempt, run'': Run, a'': Attempt)
    requires actions != [] && QuietAction(run, a, actions[0], run', a') && QuietActions(run', a', actions[1..], run'', a'')
    ensures QuietActions(run, a, actions, run'', a'')
  {
  }

  /** One action during `Submit` of attempt `id`. */
  method Act(store: Store, id: nat, action: SubmitAction)
    requires id < |store.attempts|
    modifies store`run, store`attempts, store`clock, store`overlap, store`events
    ensures RunTouched(old(store.run), store.run) && |store.attempts| == |old(store.attempts)|
    ensures store.events == old(store.events) + if action.Emitted? then action.events else []
    ensures Touched(old(store.attempts)[id := store.attempts[id]], store.attempts)
    ensures SameAttempt(old(store.attempts)[id], store.attempts[id])
    ensures RunningCount(store.attempts, store.base) <= old(RunningCount(store.attempts, store.base))
    ensures old(store.Monitored()) ==> store.Monitored()
    ensures store.Quiet() && (old(InFlight(store.run, store.attempts, id)) || old(store.run.state != RunRunning)) ==>
              && store.attempts[..id] == old(store.attempts)[..id]
              && QuietAction(old(store.run), old(store.attempts)[id], action, store.run, store.attempts[id])
  {
    match action {
      case Started(ref) => store.UpdateAttemptProviderRef(id, ref);
      case Emitted(events) => store.events := store.events + events;
      case Canceling(adapterCancels) => store.CancelRun(adapterCancels);
    }
  }

  /** The actions during `Submit` of attempt `id`. */
  method DuringSubmit(store: Store, id: nat, actions: seq<SubmitAction>)
    requires id < |store.attempts|
    modifies store`run, store`attempts, store`clock, store`overlap, store`events
    ensures RunTouched(old(store.run), store.run) && |store.attempts| == |old(store.attempts)|
    ensures store.events == old(store.events) + EventsOf(actions)
    ensures Touched(old(store.attempts)[id := store.attempts[id]], store.attempts)
    ensures SameAttempt(old(store.attempts)[id], store.attempts[id])
    ensures RunningCount(store.attempts, store.base) <= old(RunningCount(store.attempts, store.base))
    ensures old(store.Monitored()) ==> store.Monitored()
    ensures store.Quiet() && (old(InFlight(store.run, store.attempts, id)) || old(store.run.state != RunRunning)) ==>
              && store.attempts[..id] == old(store.attempts)[..id]
              && QuietActions(old(store.run), old(store.attempts)[id], actions, store.run, store.attempts[id])
    decreases |actions|
  {
    if actions == [] {
      return;
    }
    ghost var run, before, log := store.run, store.attempts, store.events;
    Act(store, id, actions[0]);
    ghost var run', mid := store.run, store.attempts;
    DuringSubmit(store, id, actions[1..]);
    AppendTwice(log, if actions[0].Emitted? then actions[0].events else [], EventsOf(actions[1..]));
    TouchedTwice(before, mid, store.attempts, id);
    if store.Quiet() && (InFlight(run, before, id) || run.state != RunRunning) {
      QuietActionThenActions(run, before[id], actions, run', mid[id], store.run, store.attempts[id]);
    }
  }

  lemma AppendTwice(log: seq<Checkpoint.Event>, a: seq<Checkpoint.Event>, b: seq<Checkpoint.Event>)
    ensures log + a + b == log + (a + b)
  {
  }

  /** Two steps that concern row `id` make one. */
  lemma TouchedTwice(before: seq<Attempt>, mid: seq<Attempt>, after: seq<Attempt>, id: nat)
    requires id < |before| == |mid| == |after|
    requires Touched(before[id := mid[id]], mid) && Touched(mid[id := after[id]], after)
    ensures Touched(before[id := after[id]], after)
  {
  }

  // ---------- One attempt ----------

  /** Finishes attempt `id` and then the run. */
  method FinishBoth(store: Store, id: nat, attemptState: AttemptState, runState: RunState, code: int, reason: Message,
                    ref: string)
    requires id < |store.attempts| && attemptState != AttemptRunning
    modifies store`run, store`attempts, store`clock, store`overlap
    ensures store.run == Run(runState, code, reason) && |store.attempts| == |old(store.attempts)|
    ensures Touched(old(store.attempts)[id := store.attempts[id]], store.attempts)
    ensures SameAttempt(old(store.attempts)[id], store.attempts[id]) && store.attempts[id].state != AttemptRunning
    ensures RunningCount(store.attempts, store.base) <= old(RunningCount(store.attempts, store.base))
    ensures old(store.Monitored()) ==> store.Monitored()
    ensures store.Quiet() ==> store.attempts[..id] == old(store.attempts)[..id]
    ensures store.Quiet() ==>
              store.attempts[id] == old(store.attempts)[id].(state := attemptState, exitCode := code, exitReason := reason,
                                                             providerRef := ref)
  {
    store.FinishBoth(id, attemptState, runState, code, reason, ref);
  }

  method FinishFailed(store: Store, id: nat, code: int, reason: Message)
    requires id < |store.attempts|
    modifies store`run, store`attempts, store`clock, store`overlap
    ensures store.run == Run(RunFailed, code, reason) && |store.attempts| == |old(store.attempts)|
    ensures Touched(old(store.attempts)[id := store.attempts[id]], store.attempts)
    ensures SameAttempt(old(store.attempts)[id], store.attempts[id]) && store.attempts[id].state != AttemptRunning
    ensures RunningCount(store.attempts, store.base) <= old(RunningCount(store.attempts, store.base))
    ensures old(store.Monitored()) ==> store.Monitored()
    ensures store.Quiet() ==> store.attempts[..id] == old(store.attempts)[..id]
                              && store.attempts[id].state == AttemptFailed && store.attempts[id].exitCode == code
  {
    FinishBoth(store, id, AttemptFailed, RunFailed, code, reason, "");
  }

  /** The end of an attempt tells: its code, whether another provider may be tried, whether it failed. */
  datatype AttemptResult = Ended(code: int, retryable: bool, failed: bool)

  /** What a submission that is not canceled ends with. */
  function SubmitResult(submit: SubmitScript): AttemptResult {
    Ended(submit.exitCode, submit.error.Some? && IsRetryable(submit.error.value), submit.error.Some?)
  }

  const FOUND_CANCELED := Ended(EXIT_CANCELED, false, false)

  /** The run after a submission that is not canceled and not worth another provider. */
  function RunAfter(submit: SubmitScript): Run {
    Run(if submit.error.None? && submit.exitCode == 0 then RunSucceeded else RunFailed, submit.exitCode,
        Reported(submit.exitReason))
  }

  /** What holds after an attempt in a quiet store, in terms of the result. */
  ghost predicate QuietEnd(run: Run, a: Attempt, r: AttemptResult) {
    if r.retryable then
      r.failed && run.state == RunRunning && a.state == AttemptFailed && a.exitCode == r.code
    else if run == CANCELED then
      r == FOUND_CANCELED && a.state == AttemptCanceled && a.exitCode == EXIT_CANCELED
    else
      && run.exitCode == r.code && a.exitCode == r.code
      && (if !r.failed && r.code == 0 then run.state == RunSucceeded && a.state == AttemptSucceeded
          else run.state == RunFailed && a.state == AttemptFailed)
  }

  /** Either the run was found canceled, or the result is the submission's and, unless it is retryable,
      the run has it. */
  ghost predicate Submitted(submit: SubmitScript, r: AttemptResult, run: Run) {
    || (r == FOUND_CANCELED && run.state == RunCanceled)
    || (r == SubmitResult(submit) && (!r.retryable ==> run == RunAfter(submit)))
  }

  /** The rest of `runAttempt` once `Submit` has returned. */
  method AfterSubmit(store: Store, id: nat, submit: SubmitScript) returns (r: AttemptResult)
    requires id < |store.attempts|
    modifies store`run, store`attempts, store`clock, store`overlap
    ensures |store.attempts| == |old(store.attempts)|
    ensures Touched(old(store.attempts)[id := store.attempts[id]], store.attempts)
    ensures SameAttempt(old(store.attempts)[id], store.attempts[id])
    ensures Submitted(submit, r, store.run)
    ensures r.retryable ==> store.attempts[id].state != AttemptRunning
    ensures RunningCount(store.attempts, store.base) <= old(RunningCount(store.attempts, store.base))
    ensures old(store.Monitored()) ==> store.Monitored()
    ensures store.Quiet() ==> store.attempts[..id] == old(store.attempts)[..id]
    ensures store.Quiet() && old(store.run.state == RunRunning) ==>
              && r == SubmitResult(submit) && store.run == (if r.retryable then old(store.run) else RunAfter(submit))
              && QuietEnd(store.run, store.attempts[id], r)
              && store.attempts[id].exitReason == Reported(submit.exitReason) && store.attempts[id].providerRef == submit.ref
    ensures store.Quiet() && old(store.run) == CANCELED ==>
              store.run == CANCELED && store.attempts == old(store.attempts) && r == FOUND_CANCELED
  {
    var current := store.GetRun();
    if current.state == RunCanceled {
      return FOUND_CANCELED;
    }
    if submit.error.Some? {
      var retryable := IsRetryable(submit.error.value);
      if retryable {
        store.FinishAttempt(id, AttemptFailed, submit.exitCode, Reported(submit.exitReason), submit.ref);
      } else {
        FinishBoth(store, id, AttemptFailed, RunFailed, submit.exitCode, Reported(submit.exitReason), submit.ref);
      }
      return Ended(submit.exitCode, retryable, true);
    }
    var runState, attemptState := RunSucceeded, AttemptSucceeded;
    if submit.exitCode != 0 {
      runState, attemptState := RunFailed, AttemptFailed;
    }
    FinishBoth(store, id, attemptState, runState, submit.exitCode, Reported(submit.exitReason), submit.ref);
    return Ended(submit.exitCode, false, false);
  }

  /** The attempt in row `id` is priced, submitted and ended. */
  method SubmitAttempt(store: Store, id: nat, hourly: real, s: AttemptScript) returns (r: AttemptResult)
    requires id == |store.attempts| - 1
    modifies store`run, store`attempts, store`clock, store`overlap, store`events
    ensures |store.attempts| == |old(store.attempts)|
    ensures Touched(old(store.attempts)[id := store.attempts[id]], store.attempts)
    ensures SameChoice(old(store.attempts)[id], store.attempts[id]) && store.attempts[id].hourlyUSD == Some(hourly)
    ensures store.events == old(store.events) + EventsOf(s.submit.actions)
    ensures Submitted(s.submit, r, store.run)
    ensures r.retryable ==> store.attempts[id].state != AttemptRunning
    ensures RunningCount(store.attempts, store.base) <= old(RunningCount(store.attempts, store.base))
    ensures old(store.Monitored()) ==> store.Monitored()
    ensures store.Quiet() && old(InFlight(store.run, store.attempts, id)) && old(store.attempts)[id].providerRef == "" ==>
              && store.attempts[..id] == old(store.attempts)[..id]
              && QuietEnd(store.run, store.attempts[id], r)
              && (if CancelLands(s.submit.actions, "") then store.run == CANCELED else store.run != CANCELED && r == SubmitResult(s.submit))
  {
    ghost var before := store.attempts;
    store.UpdateAttemptEstimate(id, hourly);
    ghost var priced := store.attempts;
    DuringSubmit(store, id, s.submit.actions);
    ghost var submitted := store.attempts;
    r := AfterSubmit(store, id, s.submit);
    TouchedTwice(before, priced, submitted, id);
    TouchedTwice(before, submitted, store.attempts, id);
  }

  ghost predicate SameChoice(a: Attempt, b: Attempt) {
    b.provider == a.provider && b.resumeFrom == a.resumeFrom
  }

  /** The provider of an attempt, the checkpoint it is given, and the hardware that was routed. */
  datatype Choice = Choice(provider: string, resumeFrom: Option<CheckpointRef>, hardware: Option<Routing.Selection>)

  function RefusalOf(s: AttemptScript, c: Choice): Option<(int, Message)> {
    Refusal(s, c.provider, c.hardware)
  }

  /** The rate that is stored, when the attempt gets as far as `Submit`. */
  function Rate(s: AttemptScript, c: Choice): Option<real> {
    if RefusalOf(s, c).Some? then None else Some(if Priced(c.hardware) then c.hardware.value.hourlyUSD else s.estimate.value)
  }

  /** The row of the attempt that was chosen as `c`. */
  ghost predicate RowOf(a: Attempt, c: Choice, s: AttemptScript) {
    a.provider == c.provider && a.resumeFrom == c.resumeFrom && a.hourlyUSD == Rate(s, c)
  }

  /** How an attempt ended: refused before `Submit`, or submitted. */
  ghost predicate AttemptEnd(s: AttemptScript, c: Choice, r: AttemptResult, run: Run) {
    match RefusalOf(s, c)
    case Some(f) => r == Ended(f.0, false, true) && run == Run(RunFailed, f.0, f.1)
    case None => Submitted(s.submit, r, run)
  }

  /** A cancellation succeeds while the attempt is submitted. */
  predicate CanceledInSubmit(s: AttemptScript, c: Choice) {
    RefusalOf(s, c).None? && CancelLands(s.submit.actions, "")
  }

  method RunAttempt(store: Store, c: Choice, s: AttemptScript) returns (r: AttemptResult)
    requires store.Monitored() && RunningCount(store.attempts, store.base) == 0 && store.base <= |store.attempts|
    modifies store`run, store`attempts, store`clock, store`overlap, store`events
    ensures |store.attempts| == |old(store.attempts)| + 1
    ensures Touched(old(store.attempts), store.attempts[..|old(store.attempts)|])
    ensures RowOf(store.attempts[|old(store.attempts)|], c, s)
    ensures store.events == old(store.events) + if RefusalOf(s, c).None? then EventsOf(s.submit.actions) else []
    ensures AttemptEnd(s, c, r, store.run)
    ensures r.retryable ==> RunningCount(store.attempts, store.base) == 0
    ensures store.Monitored()
    ensures store.Quiet() && old(store.run.state == RunRunning) ==>
              && old(store.attempts) <= store.attempts && RunningCount(store.attempts, store.base) == 0
              && QuietEnd(store.run, store.attempts[|old(store.attempts)|], r)
              && (store.run == CANCELED <==> CanceledInSubmit(s, c))
  {
    ghost var before := store.attempts;
    var id := store.CreateAttempt(Attempt(c.provider, AttemptRunning, 0, NoMessage, "", c.resumeFrom, None));
    ghost var created := store.attempts;
    var refusal := RefusalOf(s, c);
    if refusal.Some? {
      FinishFailed(store, id, refusal.value.0, refusal.value.1);
      r := Ended(refusal.value.0, false, true);
    } else {
      r := SubmitAttempt(store, id, if Priced(c.hardware) then c.hardware.value.hourlyUSD else s.estimate.value, s);
    }
    Rows(before, created, store.attempts, id, store.attempts[id], store.base);
  }

  /** Cancellations start no attempt. */
  lemma {:induction false} TouchKeepsCount(before: seq<Attempt>, after: seq<Attempt>, base: nat)
    requires Touched(before, after)
    ensures RunningCount(after, base) <= RunningCount(before, base)
  {
    if base < |before| {
      var n := |before| - 1;
      TouchedPrefix(before, after);
      TouchKeepsCount(before[..n], after[..n], base);
      assert after[n] == before[n] || after[n] == Cancel(before[n], after[n].providerRef);
    }
  }

  lemma TouchedPrefix(before: seq<Attempt>, after: seq<Attempt>)
    requires Touched(before, after) && |before| > 0
    ensures Touched(before[..|before| - 1], after[..|before| - 1])
  {
    var n := |before| - 1;
    forall i | 0 <= i < n ensures after[..n][i] == before[..n][i] || after[..n][i] == Cancel(before[..n][i], after[..n][i].providerRef) {
      assert after[i] == before[i] || after[i] == Cancel(before[i], after[i].providerRef);
    }
  }

  /** A step that only concerns row `id` leaves the earlier rows touched at most. */
  lemma Rows(before: seq<Attempt>, mid: seq<Attempt>, after: seq<Attempt>, id: nat, row: Attempt, base: nat)
    requires id == |before| && |mid| == id + 1 && |after| == id + 1
    requires Touched(before, mid[..id])
    requires Touched(mid[id := row], after)
    ensures Touched(before, after[..id])
    ensures after[id].state != AttemptRunning ==> RunningCount(after, base) <= RunningCount(before, base)
  {
    forall i | 0 <= i < id ensures after[..id][i] == before[i] || after[..id][i] == Cancel(before[i], after[..id][i].providerRef) {
      assert mid[id := row][i] == mid[..id][i];
    }
    TouchKeepsCount(before, after[..id], base);
  }

  // ---------- Choosing a provider ----------

  function CutScheme(uri: string): string {
    var i := Strings.IndexFrom(uri, "://", 0);
    if i > 0 then Strings.Lower(uri[..i]) else "file"
  }

  /** `ensureProviderSupportsCheckpoint` finds no objection. */
  predicate FixedProviderResumes(provider: string, registry: map<string, Routing.Adapter>, c: CheckpointRef) {
    && provider in registry && registry[provider].capabilities.Ok?
    && Strings.ContainsFold(registry[provider].capabilities.value.checkpointSchemes, CutScheme(c.uri))
  }

  /** The providers routing can choose from, in name order. */
  ghost predicate Candidates(ps: seq<Routing.ProviderCandidate>, plan: Plan, s: AttemptScript, opts: Routing.Options) {
    Routing.EligibleList(ps, s.registry, plan.data, opts, plan.schemeOf)
  }

  /** No provider can take the run. */
  ghost predicate NoRoute(plan: Plan, s: AttemptScript, excluded: set<string>, resumeFrom: Option<CheckpointRef>) {
    match plan.provider
    case Fixed(name) => resumeFrom.Some? && !FixedProviderResumes(name, s.registry, resumeFrom.value)
    case Auto =>
      var opts := plan.options.(exclude := excluded, resumeFrom := resumeFrom);
      exists ps :: Candidates(ps, plan, s, opts) && Routing.RouteFails(ps, opts)
  }

  /** `c` is what the configuration or the route selects. */
  ghost predicate ChosenBy(plan: Plan, s: AttemptScript, excluded: set<string>, c: Choice) {
    match plan.provider
    case Fixed(name) =>
      c.provider == name && c.hardware.None? && (c.resumeFrom.Some? ==> FixedProviderResumes(name, s.registry, c.resumeFrom.value))
    case Auto =>
      var opts := plan.options.(exclude := excluded, resumeFrom := c.resumeFrom);
      exists ps :: Candidates(ps, plan, s, opts) && !Routing.RouteFails(ps, opts) && Routing.RoutesTo(ps, opts, c.provider, c.hardware)
  }

  /** The exit code of a run that no provider can take: it depends on whether there is a checkpoint. */
  function RouteExitCode(resumeFrom: Option<CheckpointRef>): int {
    if resumeFrom.Some? then EXIT_MISSING_RESUME else EXIT_ROUTING
  }

  function RouteMessage(plan: Plan, resumeFrom: Option<CheckpointRef>): Message {
    if plan.provider.Fixed? then NotResumable else if resumeFrom.Some? then NotReachable else NoRouteFound
  }

  /** Chooses the provider of the next attempt; `refused` is the exit code when there is none. */
  method Choose(store: Store, plan: Plan, excluded: set<string>, resumeFrom: Option<CheckpointRef>, s: AttemptScript)
    returns (c: Choice, refused: Option<int>)
    modifies store`run, store`attempts, store`clock, store`overlap
    ensures Touched(old(store.attempts), store.attempts)
    ensures RunningCount(store.attempts, store.base) <= old(RunningCount(store.attempts, store.base))
    ensures old(store.Monitored()) ==> store.Monitored()
    ensures store.Quiet() ==> store.attempts == old(store.attempts) && (refused.None? ==> store.run == old(store.run))
    ensures refused.Some? ==> NoRoute(plan, s, excluded, resumeFrom)
    ensures refused.Some? ==> refused.value == RouteExitCode(resumeFrom)
                              && store.run == Run(RunFailed, refused.value, RouteMessage(plan, resumeFrom))
    ensures refused.None? ==> ChosenBy(plan, s, excluded, c) && c.resumeFrom == resumeFrom
  {
    if plan.provider.Auto? {
      var opts := plan.options.(exclude := excluded, resumeFrom := resumeFrom);
      var decision, err, candidates := Routing.Select(s.registry, plan.data, opts, plan.schemeOf);
      c, refused := Choice(decision.selectedProvider, resumeFrom, decision.selectedHardware), None;
      assert Candidates(candidates, plan, s, opts);
      store.Yield();
      if err.Some? {
        ghost var rows := store.attempts;
        if resumeFrom.Some? {
          refused := Some(EXIT_MISSING_RESUME);
          store.FinishRun(RunFailed, EXIT_MISSING_RESUME, NotReachable);
        } else {
          refused := Some(EXIT_ROUTING);
          store.FinishRun(RunFailed, EXIT_ROUTING, NoRouteFound);
        }
        TouchedTransitive(old(store.attempts), rows, store.attempts);
      }
      return;
    }
    c, refused := Choice(plan.provider.name, resumeFrom, None), None;
    if resumeFrom.Some? {
      if !FixedProviderResumes(plan.provider.name, s.registry, resumeFrom.value) {
        store.FinishRun(RunFailed, EXIT_MISSING_RESUME, NotResumable);
        refused := Some(EXIT_MISSING_RESUME);
      }
    }
  }

  // ---------- The history of a call ----------

  function Max1(n: int): nat {
    if n < 1 then 1 else n
  }

  /** What attempt `k` of a call (from 0) resumes from: the given checkpoint when it is the first, and
      otherwise the latest one logged when the attempt before it failed. */
  function ResumePoint(call: Call, k: nat): Option<CheckpointRef> {
    if k == 0 then call.initial else Checkpoint.LatestOf(LogAfter(call, k), call.plan.sanitize)
  }

  /** The rows from `base` on are the attempts of the call, made by `choices`. */
  ghost predicate ChosenAs(attempts: seq<Attempt>, base: nat, choices: seq<Choice>, call: Call) {
    && |attempts| == base + |choices|
    && forall k :: 0 <= k < |choices| ==> RowOf(attempts[base + k], choices[k], call.script(k))
  }

  function Tried(choices: seq<Choice>): set<string> {
    if choices == [] then {} else Tried(choices[..|choices| - 1]) + {choices[|choices| - 1].provider}
  }

  /** Every choice of a call, at any time of the call, was made from the checkpoint of the moment, without
      the providers tried before. */
  ghost predicate Rounds(choices: seq<Choice>, call: Call) {
    choices != [] ==>
      var n := |choices| - 1;
      && Rounds(choices[..n], call)
      && choices[n].resumeFrom == ResumePoint(call, n)
      && ChosenBy(call.plan, call.script(n), Tried(choices[..n]), choices[n])
  }

  /** Attempt `k` failed in a way that another provider may mend, and there was a checkpoint to go on from. */
  predicate Retried(c: Choice, k: nat, call: Call) {
    && RefusalOf(call.script(k), c).None? && SubmitResult(call.script(k).submit).retryable
    && call.plan.provider.Auto? && k + 1 < Max1(call.plan.maxAttempts)
    && call.script(k).logReadable && ResumePoint(call, k + 1).Some?
  }

  ghost predicate AllRetried(choices: seq<Choice>, call: Call) {
    forall k :: 0 <= k < |choices| ==> Retried(choices[k], k, call)
  }

  /** Why a call ends. */
  datatype Reason = NoProvider | RefusedAttempt | RunFoundCanceled | SubmitEnded | OutOfAttempts | NoCheckpointToGoOn

  /** The call ends for this reason after these choices, with this result and run. */
  ghost predicate EndsFor(reason: Reason, choices: seq<Choice>, call: Call, code: int, failed: bool, run: Run) {
    if reason.NoProvider? then
      var k := |choices|;
      && NoRoute(call.plan, call.script(k), Tried(choices), ResumePoint(call, k))
      && failed && code == RouteExitCode(ResumePoint(call, k))
      && run == Run(RunFailed, code, RouteMessage(call.plan, ResumePoint(call, k)))
    else
      choices != [] && LastEnds(reason, choices[|choices| - 1], |choices| - 1, call, code, failed, run)
  }

  /** The last attempt, number `k`, ends the call. */
  ghost predicate LastEnds(reason: Reason, c: Choice, k: nat, call: Call, code: int, failed: bool, run: Run) {
    var s := call.script(k);
    var r := SubmitResult(s.submit);
    match reason
    case NoProvider => false
    case RefusedAttempt => RefusalOf(s, c).Some? && failed && code == RefusalOf(s, c).value.0 && run == Run(RunFailed, code, RefusalOf(s, c).value.1)
    case RunFoundCanceled => RefusalOf(s, c).None? && !failed && code == EXIT_CANCELED && run.state == RunCanceled
    case SubmitEnded =>
      RefusalOf(s, c).None? && !r.retryable && code == r.code && failed == r.failed && run == RunAfter(s.submit)
    case OutOfAttempts =>
      && RefusalOf(s, c).None? && r.retryable && (call.plan.provider.Fixed? || k + 1 == Max1(call.plan.maxAttempts))
      && failed && code == r.code && run == Run(RunFailed, code, ProviderFailed)
    case NoCheckpointToGoOn =>
      && RefusalOf(s, c).None? && r.retryable && call.plan.provider.Auto? && k + 1 < Max1(call.plan.maxAttempts)
      && (!s.logReadable || ResumePoint(call, k + 1).None?)
      && failed && code == EXIT_MISSING_RESUME && run == Run(RunFailed, code, NoCheckpoint)
  }

  /** The history of a whole call. */
  ghost predicate Whole(reason: Reason, choices: seq<Choice>, call: Call, code: int, failed: bool, run: Run) {
    && Rounds(choices, call)
    && EndsFor(reason, choices, call, code, failed, run)
    && AllRetried(if reason.NoProvider? then choices else choices[..|choices| - 1], call)
  }

  /** The event log once the call has made these choices. */
  function LogOf(choices: seq<Choice>, call: Call): seq<Checkpoint.Event> {
    if choices == [] then call.log
    else
      var k := |choices| - 1;
      LogAfter(call, k) + if RefusalOf(call.script(k), choices[k]).None? then EventsOf(call.script(k).submit.actions) else []
  }

  lemma LogOfRetried(choices: seq<Choice>, call: Call)
    requires AllRetried(choices, call)
    ensures LogOf(choices, call) == LogAfter(call, |choices|)
  {
    if choices != [] {
      assert Retried(choices[|choices| - 1], |choices| - 1, call);
    }
  }

  lemma LogAtEnd(reason: Reason, before: seq<Choice>, choices: seq<Choice>, call: Call, log: seq<Checkpoint.Event>)
    requires AllRetried(before, call) && (reason.NoProvider? ==> choices == before)
    requires log == if reason.NoProvider? then LogAfter(call, |before|) else LogOf(choices, call)
    ensures log == LogOf(choices, call)
  {
    LogOfRetried(before, call);
  }

  lemma WholeCall(reason: Reason, before: seq<Choice>, choices: seq<Choice>, call: Call, code: int, failed: bool, run: Run)
    requires AllRetried(before, call) && Rounds(choices, call) && EndsFor(reason, choices, call, code, failed, run)
    requires if reason.NoProvider? then choices == before else |choices| == |before| + 1 && choices[..|before|] == before
    ensures Whole(reason, choices, call, code, failed, run) && Terminal(run)
    ensures |choices| <= if call.plan.provider.Fixed? || call.plan.maxAttempts < 1 then 1 else call.plan.maxAttempts
  {
    if before != [] {
      var n := |before| - 1;
      assert Retried(before[n], n, call);
    }
  }

  /** Cancellations do not change the choices. */
  lemma TouchKeepsChoices(before: seq<Attempt>, after: seq<Attempt>, base: nat, choices: seq<Choice>, call: Call)
    requires Touched(before, after) && ChosenAs(before, base, choices, call)
    ensures ChosenAs(after, base, choices, call)
  {
    forall k | 0 <= k < |choices| ensures RowOf(after[base + k], choices[k], call.script(k)) {
      var i := base + k;
      assert after[i] == before[i] || after[i] == Cancel(before[i], after[i].providerRef);
    }
  }

  /** Running an attempt adds its choice. */
  lemma ChoiceAdded(rows: seq<Attempt>, after: seq<Attempt>, base: nat, choices: seq<Choice>, c: Choice, k: nat, call: Call)
    requires ChosenAs(rows, base, choices, call) && k == |choices|
    requires |after| == |rows| + 1 && Touched(rows, after[..|rows|]) && RowOf(after[|rows|], c, call.script(k))
    ensures ChosenAs(after, base, choices + [c], call)
  {
    TouchKeepsChoices(rows, after[..|rows|], base, choices, call);
    forall i | 0 <= i < |choices| ensures RowOf(after[base + i], choices[i], call.script(i)) {
      assert after[base + i] == after[..|rows|][base + i];
    }
  }

  lemma AnotherRound(choices: seq<Choice>, c: Choice, k: nat, call: Call)
    requires k == |choices| && Rounds(choices, call) && c.resumeFrom == ResumePoint(call, k)
    requires ChosenBy(call.plan, call.script(k), Tried(choices), c)
    ensures Rounds(choices + [c], call)
    ensures Tried(choices + [c]) == Tried(choices) + {c.provider}
  {
    assert (choices + [c])[..|choices|] == choices;
  }

  lemma HistoryGrows(rows: seq<Attempt>, after: seq<Attempt>, base: nat, choices: seq<Choice>, c: Choice, k: nat, call: Call)
    requires ChosenAs(rows, base, choices, call) && k == |choices| && Rounds(choices, call)
    requires |after| == |rows| + 1 && Touched(rows, after[..|rows|]) && RowOf(after[|rows|], c, call.script(k))
    requires c.resumeFrom == ResumePoint(call, k) && ChosenBy(call.plan, call.script(k), Tried(choices), c)
    ensures ChosenAs(after, base, choices + [c], call) && Rounds(choices + [c], call)
    ensures Tried(choices + [c]) == Tried(choices) + {c.provider}
  {
    ChoiceAdded(rows, after, base, choices, c, k, call);
    AnotherRound(choices, c, k, call);
  }

  // ---------- Quiet calls ----------

  /** The attempt failed without being canceled. */
  predicate Superseded(a: Attempt, c: Choice, s: AttemptScript) {
    a.state == AttemptFailed && !CanceledInSubmit(s, c)
  }

  ghost predicate AllSuperseded(attempts: seq<Attempt>, base: nat, choices: seq<Choice>, call: Call)
    requires |attempts| == base + |choices|
  {
    forall k :: 0 <= k < |choices| ==> Superseded(attempts[base + k], choices[k], call.script(k))
  }

  /** How the rows of a call end when every cancellation runs as a whole inside a `Submit`: no attempt is
      running, all but the last one failed without being canceled, and the run is canceled exactly when
      the last one was canceled during its `Submit`. */
  ghost predicate QuietOutcome(run: Run, attempts: seq<Attempt>, base: nat, choices: seq<Choice>, call: Call) {
    && |attempts| == base + |choices| && RunningCount(attempts, base) == 0
    && (choices == [] ==> run != CANCELED) && (run.state == RunCanceled ==> run == CANCELED)
    && (choices != [] ==>
          var k := |choices| - 1;
          var a := attempts[base + k];
          && AllSuperseded(attempts[..base + k], base, choices[..k], call)
          && (run == CANCELED <==> CanceledInSubmit(call.script(k), choices[k]))
          && a.state == (if run == CANCELED then AttemptCanceled else if run.state == RunSucceeded then AttemptSucceeded
                         else AttemptFailed)
          && (run == CANCELED ==> a.exitCode == EXIT_CANCELED))
  }

  /** How an attempt ends the call, or does not, in a quiet store. */
  lemma QuietStep(run: Run, rows: seq<Attempt>, after: seq<Attempt>, base: nat, choices: seq<Choice>, c: Choice, k: nat,
                  call: Call, r: AttemptResult)
    requires k == |choices| && |rows| == base + k && |after| == |rows| + 1 && rows <= after
    requires RunningCount(after, base) == 0 && AllSuperseded(rows, base, choices, call) && QuietEnd(run, after[|rows|], r)
    requires run == CANCELED <==> CanceledInSubmit(call.script(k), c)
    ensures r.retryable ==> AllSuperseded(after, base, choices + [c], call)
    ensures !r.retryable ==> QuietOutcome(run, after, base, choices + [c], call)
  {
    assert after[..|rows|] == rows && (choices + [c])[..k] == choices;
  }

  /** A run that is given up after failed attempts. */
  lemma QuietRefusal(run: Run, attempts: seq<Attempt>, base: nat, choices: seq<Choice>, call: Call)
    requires |attempts| == base + |choices| && RunningCount(attempts, base) == 0 && AllSuperseded(attempts, base, choices, call)
    requires run.state == RunFailed
    ensures QuietOutcome(run, attempts, base, choices, call)
  {
    if choices != [] {
      var k := |choices| - 1;
      forall i | 0 <= i < k ensures Superseded(attempts[..base + k][base + i], choices[..k][i], call.script(i)) {
        assert Superseded(attempts[base + i], choices[i], call.script(i));
      }
      assert Superseded(attempts[base + k], choices[k], call.script(k));
    }
  }

  // ---------- The failover loop ----------

  method FinishRunOnly(store: Store, call: Call, ghost choices: seq<Choice>, code: int, reason: Message)
    requires ChosenAs(store.attempts, store.base, choices, call) && RunningCount(store.attempts, store.base) == 0
    modifies store`run, store`attempts, store`clock, store`overlap
    ensures store.run == Run(RunFailed, code, reason)
    ensures old(store.Monitored()) ==> store.Monitored()
    ensures ChosenAs(store.attempts, store.base, choices, call)
    ensures store.Quiet() ==> store.attempts == old(store.attempts)
    ensures store.Quiet() && AllSuperseded(store.attempts, store.base, choices, call) ==>
              QuietOutcome(store.run, store.attempts, store.base, choices, call)
  {
    ghost var rows := store.attempts;
    store.FinishRun(RunFailed, code, reason);
    TouchKeepsChoices(rows, store.attempts, store.base, choices, call);
    if store.Quiet() && AllSuperseded(rows, store.base, choices, call) {
      QuietRefusal(store.run, rows, store.base, choices, call);
    }
  }

  /** Runs the chosen attempt. */
  method RunChosen(store: Store, call: Call, k: nat, c: Choice, ghost before: seq<Choice>)
    returns (r: AttemptResult, ghost choices: seq<Choice>)
    requires |before| == k && ChosenAs(store.attempts, store.base, before, call)
    requires store.Monitored() && RunningCount(store.attempts, store.base) == 0
    requires Rounds(before, call) && store.events == LogAfter(call, k)
    requires c.resumeFrom == ResumePoint(call, k) && ChosenBy(call.plan, call.script(k), Tried(before), c)
    requires store.Quiet() ==> store.run.state == RunRunning && AllSuperseded(store.attempts, store.base, before, call)
    modifies store`run, store`attempts, store`clock, store`overlap, store`events
    ensures choices == before + [c] && ChosenAs(store.attempts, store.base, choices, call)
    ensures store.events == LogOf(choices, call)
    ensures store.Monitored() && Rounds(choices, call) && Tried(choices) == Tried(before) + {c.provider}
    ensures AttemptEnd(call.script(k), c, r, store.run)
    ensures !r.retryable && store.Quiet() ==> QuietOutcome(store.run, store.attempts, store.base, choices, call)
    ensures r.retryable ==> RunningCount(store.attempts, store.base) == 0 && store.events == LogAfter(call, k + 1)
    ensures r.retryable && store.Quiet() ==>
              store.run.state == RunRunning && AllSuperseded(store.attempts, store.base, choices, call)
  {
    ghost var rows, base := store.attempts, store.base;
    r := RunAttempt(store, c, call.script(k));
    choices := before + [c];
    if store.Quiet() {
      QuietStep(store.run, rows, store.attempts, base, before, c, k, call, r);
    }
    HistoryGrows(rows, store.attempts, base, before, c, k, call);
  }

  /** What to do after attempt `k`: the call ends with `code`, or goes on from checkpoint `next`. */
  method AfterAttempt(store: Store, call: Call, k: nat, last: bool, c: Choice, r: AttemptResult, ghost choices: seq<Choice>)
    returns (next: Option<CheckpointRef>, code: int, failed: bool, ghost reason: Reason)
    requires |choices| == k + 1 && c == choices[k] && last == (k + 1 == Max1(call.plan.maxAttempts)) && k + 1 <= Max1(call.plan.maxAttempts)
    requires ChosenAs(store.attempts, store.base, choices, call) && store.Monitored()
    requires AttemptEnd(call.script(k), c, r, store.run)
    requires r.retryable ==> RunningCount(store.attempts, store.base) == 0 && store.events == LogAfter(call, k + 1)
    requires store.Quiet() ==>
               if r.retryable then AllSuperseded(store.attempts, store.base, choices, call)
               else QuietOutcome(store.run, store.attempts, store.base, choices, call)
    modifies store`run, store`attempts, store`clock, store`overlap
    ensures ChosenAs(store.attempts, store.base, choices, call) && store.Monitored()
    ensures next.Some? ==> Retried(c, k, call) && next == ResumePoint(call, k + 1)
    ensures next.Some? ==> r.retryable && store.attempts == old(store.attempts) && store.run == old(store.run)
    ensures next.None? ==> LastEnds(reason, c, k, call, code, failed, store.run)
    ensures next.None? && store.Quiet() ==> QuietOutcome(store.run, store.attempts, store.base, choices, call)
  {
    next, code, failed := None, r.code, r.failed;
    reason := if RefusalOf(call.script(k), c).Some? then RefusedAttempt
              else if store.run.state == RunCanceled && !r.retryable then RunFoundCanceled else SubmitEnded;
    if !r.failed {
      return;
    }
    if !r.retryable || call.plan.provider.Fixed? || last {
      if r.retryable {
        reason := OutOfAttempts;
        FinishRunOnly(store, call, choices, r.code, ProviderFailed);
      }
      return;
    }
    if call.script(k).logReadable {
      next := Checkpoint.Latest(store.events, call.plan.sanitize);
    }
    if next.None? {
      code, failed, reason := EXIT_MISSING_RESUME, true, NoCheckpointToGoOn;
      FinishRunOnly(store, call, choices, EXIT_MISSING_RESUME, NoCheckpoint);
    }
  }

  /** One iteration of the loop: the call ends with `code`, or goes on from checkpoint `next` without
      `provider`. */
  method Iterate(store: Store, call: Call, k: nat, last: bool, excluded: set<string>, resumeFrom: Option<CheckpointRef>,
                 ghost before: seq<Choice>)
    returns (provider: string, next: Option<CheckpointRef>, code: int, failed: bool, ghost choices: seq<Choice>,
             ghost reason: Reason)
    requires |before| == k && last == (k + 1 == Max1(call.plan.maxAttempts)) && k + 1 <= Max1(call.plan.maxAttempts)
    requires ChosenAs(store.attempts, store.base, before, call)
    requires store.Monitored() && RunningCount(store.attempts, store.base) == 0
    requires Rounds(before, call) && excluded == Tried(before)
    requires store.events == LogAfter(call, k) && resumeFrom == ResumePoint(call, k)
    requires store.Quiet() ==> store.run.state == RunRunning && AllSuperseded(store.attempts, store.base, before, call)
    modifies store`run, store`attempts, store`clock, store`overlap, store`events
    ensures ChosenAs(store.attempts, store.base, choices, call) && store.Monitored() && Rounds(choices, call)
    ensures next.None? ==> if reason.NoProvider? then choices == before else |choices| == k + 1 && choices[..k] == before
    ensures next.None? ==> EndsFor(reason, choices, call, code, failed, store.run)
    ensures next.None? ==> store.events == if reason.NoProvider? then LogAfter(call, k) else LogOf(choices, call)
    ensures next.None? && store.Quiet() ==> QuietOutcome(store.run, store.attempts, store.base, choices, call)
    ensures next.Some? ==>
              && |choices| == k + 1 && choices[..k] == before && Retried(choices[k], k, call)
              && Tried(choices) == excluded + {provider} && RunningCount(store.attempts, store.base) == 0
              && store.events == LogAfter(call, k + 1) && next == ResumePoint(call, k + 1)
    ensures next.Some? && store.Quiet() ==>
              store.run.state == RunRunning && AllSuperseded(store.attempts, store.base, choices, call)
  {
    ghost var rows := store.attempts;
    var c, refused := Choose(store, call.plan, excluded, resumeFrom, call.script(k));
    TouchKeepsChoices(rows, store.attempts, store.base, before, call);
    provider, next, failed := c.provider, None, true;
    if refused.Some? {
      code, choices, reason := refused.value, before, NoProvider;
      if store.Quiet() {
        QuietRefusal(store.run, rows, store.base, before, call);
      }
      return;
    }
    var r;
    r, choices := RunChosen(store, call, k, c, before);
    next, code, failed, reason := AfterAttempt(store, call, k, last, c, r, choices);
  }

  method RunAttempts(store: Store, plan: Plan, initial: Option<CheckpointRef>, script: nat -> AttemptScript)
    returns (code: int, failed: bool, ghost choices: seq<Choice>, ghost reason: Reason)
    requires store.run.state == RunRunning
    modifies store`run, store`attempts, store`clock, store`overlap, store`events, store`base
    ensures store.Monitored() && store.base == |old(store.attempts)|
    ensures Terminal(store.run)
    ensures |choices| <= if plan.provider.Fixed? || plan.maxAttempts < 1 then 1 else plan.maxAttempts
    ensures var call := Call(plan, initial, old(store.events), script);
            && ChosenAs(store.attempts, store.base, choices, call) && store.events == LogOf(choices, call)
            && Whole(reason, choices, call, code, failed, store.run)
            && (store.Quiet() ==> QuietOutcome(store.run, store.attempts, store.base, choices, call))
  {
    var call := Call(plan, initial, store.events, script);
    store.base, store.overlap, choices := |store.attempts|, false, [];
    var maxAttempts := Max1(plan.maxAttempts);
    var excluded: set<string> := {};
    var resumeFrom := initial;
    var attemptNumber := 1;
    while attemptNumber <= maxAttempts
      invariant 1 <= attemptNumber <= maxAttempts && |choices| == attemptNumber - 1
      invariant store.base == |old(store.attempts)| && ChosenAs(store.attempts, store.base, choices, call)
      invariant store.Monitored() && RunningCount(store.attempts, store.base) == 0
      invariant Rounds(choices, call) && excluded == Tried(choices) && AllRetried(choices, call)
      invariant store.events == LogAfter(call, |choices|) && resumeFrom == ResumePoint(call, |choices|)
      invariant store.Quiet() ==> store.run.state == RunRunning && AllSuperseded(store.attempts, store.base, choices, call)
    {
      var selectedProvider, next;
      ghost var before := choices;
      selectedProvider, next, code, failed, choices, reason :=
        Iterate(store, call, attemptNumber - 1, attemptNumber == maxAttempts, excluded, resumeFrom, before);
      if next.None? {
        WholeCall(reason, before, choices, call, code, failed, store.run);
        LogAtEnd(reason, before, choices, call, store.events);
        return;
      }
      RetriedOnce(before, choices, attemptNumber - 1, call);
      excluded, resumeFrom, attemptNumber := excluded + {selectedProvider}, next, attemptNumber + 1;
    }
    assert false;
    code, failed := EXIT_INTERNAL, true;
  }

  lemma RetriedOnce(before: seq<Choice>, choices: seq<Choice>, k: nat, call: Call)
    requires AllRetried(before, call) && k == |before| && |choices| == k + 1 && choices[..k] == before
    requires Retried(choices[k], k, call)
    ensures AllRetried(choices, call) && k + 1 < Max1(call.plan.maxAttempts) && call.plan.provider.Auto?
  {
    forall i | 0 <= i <= k ensures Retried(choices[i], i, call) {
      assert i < k ==> choices[i] == before[i];
    }
  }
}
