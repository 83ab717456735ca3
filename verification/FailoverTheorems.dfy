/** What every call of `runAttempts` (internal/cli/root.go) keeps, over all its attempts. */
module FailoverTheorems {
  import opened Wrappers
  import opened App
  import opened Failover
  import Checkpoint
  import Routing
  import RoutingTheorems
  import RunStore
  import Strings

  // ---------- Each choice ----------

  lemma {:induction false} RoundAt(choices: seq<Choice>, k: nat, call: Call)
    requires Rounds(choices, call) && k < |choices|
    ensures choices[k].resumeFrom == ResumePoint(call, k)
    ensures ChosenBy(call.plan, call.script(k), Tried(choices[..k]), choices[k])
  {
    var n := |choices| - 1;
    if k == n {
      return;
    }
    RoundAt(choices[..n], k, call);
    assert choices[..n][k] == choices[k] && choices[..n][..k] == choices[..k];
  }

  lemma MarkAfterScheme(scheme: string, rest: string)
    requires ':' !in scheme
    ensures Strings.IndexFrom(scheme + "://" + rest, "://", 0) == |scheme|
  {
    var whole := scheme + "://" + rest;
    assert whole[|scheme|..|scheme| + 3] == "://";
    assert Strings.MatchAt(whole, "://", |scheme|);
    forall i | 0 <= i < |scheme| ensures !Strings.MatchAt(whole, "://", i) {
      NoMarkAt(whole, i);
    }
  }

  /** The scheme of a checkpoint that a fixed provider must list: what stands before the first "://", or
      "file" when there is none or nothing before it. */
  lemma SchemeIsCut(uri: string, scheme: string, rest: string)
    ensures scheme != "" && ':' !in scheme ==> CutScheme(scheme + "://" + rest) == Strings.Lower(scheme)
    ensures !Strings.Contains(uri, "://") || Strings.MatchAt(uri, "://", 0) ==> CutScheme(uri) == "file"
  {
    if scheme != "" && ':' !in scheme {
      MarkAfterScheme(scheme, rest);
      assert (scheme + "://" + rest)[..|scheme|] == scheme;
    }
  }

  lemma NoMarkAt(s: string, i: nat)
    requires i < |s| && s[i] != ':'
    ensures !Strings.MatchAt(s, "://", i)
  {
    if i + 3 <= |s| {
      assert s[i..i + 3][0] == s[i];
    }
  }

  /** A chosen provider is registered, was not excluded, and lists the scheme of the checkpoint it is
      given; a fixed one is the configured one. */
  lemma ChosenProviderIsEligible(plan: Plan, s: AttemptScript, excluded: set<string>, c: Choice)
    requires ChosenBy(plan, s, excluded, c)
    ensures plan.provider.Fixed? ==> c.provider == plan.provider.name
    ensures plan.provider.Fixed? && c.resumeFrom.Some? ==>
              && c.provider in s.registry && s.registry[c.provider].capabilities.Ok?
              && Strings.Lists(s.registry[c.provider].capabilities.value.checkpointSchemes, CutScheme(c.resumeFrom.value.uri))
    ensures plan.provider.Auto? ==>
              && c.provider in s.registry && c.provider !in excluded && s.registry[c.provider].capabilities.Ok?
    ensures plan.provider.Auto? && c.resumeFrom.Some? ==>
              var scheme := plan.schemeOf(c.resumeFrom.value.uri);
              Strings.Lists(s.registry[c.provider].capabilities.value.checkpointSchemes, if scheme == "" then "file" else scheme)
  {
    if plan.provider.Auto? {
      var opts := plan.options.(exclude := excluded, resumeFrom := c.resumeFrom);
      var ps :| Candidates(ps, plan, s, opts) && !Routing.RouteFails(ps, opts) && Routing.RoutesTo(ps, opts, c.provider, c.hardware);
      RoutingTheorems.RouteIsACandidate(ps, opts, c.provider, c.hardware);
      var p: Routing.ProviderCandidate :| p in ps && p.provider == c.provider;
      assert Routing.IsCandidate(p, s.registry, plan.data, opts, plan.schemeOf);
      Routing.CandidateExactly(c.provider, s.registry[c.provider], plan.data, opts, plan.schemeOf);
    }
  }

  /** The run of a fixed provider is refused exactly when it resumes and the provider is not registered,
      does not answer, or does not list the scheme. */
  lemma FixedProviderRefusedExactly(plan: Plan, s: AttemptScript, excluded: set<string>, resumeFrom: Option<CheckpointRef>)
    requires plan.provider.Fixed?
    ensures NoRoute(plan, s, excluded, resumeFrom) <==>
            && resumeFrom.Some?
            && !(plan.provider.name in s.registry && s.registry[plan.provider.name].capabilities.Ok?
                 && Strings.Lists(s.registry[plan.provider.name].capabilities.value.checkpointSchemes, CutScheme(resumeFrom.value.uri)))
  {
  }

  // ---------- Distinct providers ----------

  ghost predicate AllFresh(choices: seq<Choice>) {
    choices != [] ==>
      var n := |choices| - 1;
      AllFresh(choices[..n]) && choices[n].provider !in Tried(choices[..n])
  }

  lemma {:induction false} RoundsAreFresh(choices: seq<Choice>, call: Call)
    requires Rounds(choices, call) && call.plan.provider.Auto?
    ensures AllFresh(choices)
  {
    if choices != [] {
      var n := |choices| - 1;
      RoundsAreFresh(choices[..n], call);
      ChosenProviderIsEligible(call.plan, call.script(n), Tried(choices[..n]), choices[n]);
    }
  }

  lemma {:induction false} TriedAt(choices: seq<Choice>, k: nat)
    requires k < |choices|
    ensures choices[k].provider in Tried(choices)
  {
    var n := |choices| - 1;
    if k < n {
      TriedAt(choices[..n], k);
      assert choices[..n][k] == choices[k];
    }
  }

  lemma {:induction false} FreshIsDistinct(choices: seq<Choice>, i: nat, j: nat)
    requires AllFresh(choices) && i < j < |choices|
    ensures choices[i].provider != choices[j].provider
  {
    var n := |choices| - 1;
    assert choices[..n][i] == choices[i];
    if j < n {
      FreshIsDistinct(choices[..n], i, j);
    } else {
      TriedAt(choices[..n], i);
    }
  }

  /** In auto mode no two attempts of a call go to the same provider. */
  lemma NoProviderTwice(choices: seq<Choice>, call: Call)
    requires Rounds(choices, call) && call.plan.provider.Auto?
    ensures forall i, j :: 0 <= i < j < |choices| ==> choices[i].provider != choices[j].provider
  {
    RoundsAreFresh(choices, call);
    forall i, j | 0 <= i < j < |choices| ensures choices[i].provider != choices[j].provider {
      FreshIsDistinct(choices, i, j);
    }
  }

  /** A registry that always has the names `names` bounds the attempts of a call by its size, whatever
      `MaxAttempts` is. */
  lemma AttemptsBoundedByRegistry(choices: seq<Choice>, names: set<string>, call: Call)
    requires Rounds(choices, call) && call.plan.provider.Auto?
    requires forall k: nat :: k < |choices| ==> call.script(k).registry.Keys == names
    ensures |Tried(choices)| == |choices| <= |names| && Tried(choices) <= names
  {
    TriedWithin(choices, names, call);
    SubsetSize(Tried(choices), names);
  }

  lemma {:induction false} TriedWithin(choices: seq<Choice>, names: set<string>, call: Call)
    requires Rounds(choices, call) && call.plan.provider.Auto?
    requires forall k: nat :: k < |choices| ==> call.script(k).registry.Keys == names
    ensures |Tried(choices)| == |choices| && Tried(choices) <= names
  {
    if choices != [] {
      var n := |choices| - 1;
      TriedWithin(choices[..n], names, call);
      ChosenProviderIsEligible(call.plan, call.script(n), Tried(choices[..n]), choices[n]);
      assert choices[n].provider in call.script(n).registry.Keys;
    }
  }

  lemma SubsetSize<T>(a: set<T>, b: set<T>)
    requires a <= b
    ensures |a| <= |b|
  {
    assert |b| == |a| + |b - a| by {
      assert b == a + (b - a);
    }
  }

  // ---------- Checkpoints ----------

  lemma {:induction false} LogOnlyGrows(call: Call, i: nat, j: nat)
    requires i <= j
    ensures LogAfter(call, i) <= LogAfter(call, j)
    decreases j
  {
    if i < j {
      LogOnlyGrows(call, i, j - 1);
    }
  }

  /** Resume steps never fall from one attempt to a later one, when the call starts afresh or from the
      run's latest checkpoint. Once an attempt resumes, so do all later ones. */
  lemma StepsNeverFall(choices: seq<Choice>, i: nat, j: nat, call: Call)
    requires Rounds(choices, call) && i <= j < |choices|
    requires call.initial.None? || call.initial == Checkpoint.LatestOf(call.log, call.plan.sanitize)
    requires choices[i].resumeFrom.Some?
    ensures choices[j].resumeFrom.Some? && choices[i].resumeFrom.value.step <= choices[j].resumeFrom.value.step
  {
    RoundAt(choices, i, call);
    RoundAt(choices, j, call);
    var before, after, sanitize := LogAfter(call, i), LogAfter(call, j), call.plan.sanitize;
    LogOnlyGrows(call, i, j);
    Checkpoint.LatestOfIsLatest(before, sanitize);
    Checkpoint.LatestOfIsLatest(after, sanitize);
    Checkpoint.LatestNeverFalls(before, after, choices[i].resumeFrom, Checkpoint.LatestOf(after, sanitize), sanitize);
  }

  lemma RetriedAt(reason: Reason, choices: seq<Choice>, call: Call, code: int, failed: bool, run: RunStore.Run, k: nat)
    requires Whole(reason, choices, call, code, failed, run) && k < |choices| && (reason.NoProvider? || k < |choices| - 1)
    ensures Retried(choices[k], k, call)
  {
    if !reason.NoProvider? {
      assert choices[..|choices| - 1][k] == choices[k];
    }
  }

  /** Every attempt after the first resumes from the checkpoint of greatest step logged by then, the
      last one logged among equals. */
  lemma ResumesFromLatest(reason: Reason, choices: seq<Choice>, call: Call, code: int, failed: bool, run: RunStore.Run, k: nat)
    requires Whole(reason, choices, call, code, failed, run) && 0 < k < |choices|
    ensures choices[k].resumeFrom.Some?
    ensures Checkpoint.IsLatest(LogAfter(call, k), choices[k].resumeFrom, call.plan.sanitize)
  {
    RoundAt(choices, k, call);
    RetriedAt(reason, choices, call, code, failed, run, k - 1);
    Checkpoint.LatestOfIsLatest(LogAfter(call, k), call.plan.sanitize);
  }

  // ---------- What is submitted ----------

  /** A row of a call has a rate, which is stored just before `Submit`, exactly when its provider is
      registered, a local job is prepared, the adapter validates the job, and the hardware has a positive
      rate or there is an estimate. The rate is then that of the hardware, or else the estimate. */
  lemma SubmittedExactly(attempts: seq<RunStore.Attempt>, base: nat, choices: seq<Choice>, call: Call, k: nat)
    requires ChosenAs(attempts, base, choices, call) && k < |choices|
    ensures var row, hardware, s := attempts[base + k], choices[k].hardware, call.script(k);
            && (row.hourlyUSD.Some? <==>
                  && row.provider in s.registry && (row.provider == "local" ==> s.preparesLocal) && s.validates
                  && ((hardware.Some? && hardware.value.hourlyUSD > 0.0) || s.estimate.Ok?))
            && (row.hourlyUSD.Some? && hardware.Some? && hardware.value.hourlyUSD > 0.0 ==>
                  row.hourlyUSD.value == hardware.value.hourlyUSD)
            && (row.hourlyUSD.Some? && !(hardware.Some? && hardware.value.hourlyUSD > 0.0) ==>
                  row.hourlyUSD.value == s.estimate.value)
  {
    assert RowOf(attempts[base + k], choices[k], call.script(k));
  }

  /** An attempt that is not submitted ends the call: the exit code and the message tell the first thing
      that is missing, and nothing was logged since the attempt before it. */
  lemma RefusedAttemptEndsCall(reason: Reason, choices: seq<Choice>, call: Call, code: int, failed: bool, run: RunStore.Run,
                               attempts: seq<RunStore.Attempt>, base: nat, k: nat)
    requires Whole(reason, choices, call, code, failed, run) && ChosenAs(attempts, base, choices, call)
    requires k < |choices| && attempts[base + k].hourlyUSD.None?
    ensures k == |choices| - 1 && failed && run.state == RunFailed && run.exitCode == code
    ensures LogOf(choices, call) == LogAfter(call, k)
    ensures var provider, s := attempts[base + k].provider, call.script(k);
            if provider !in s.registry then code == 1 && run.error == RunStore.UnknownProvider
            else if provider == "local" && !s.preparesLocal then code == 10 && run.error == RunStore.NotPrepared
            else if !s.validates then code == 10 && run.error == RunStore.NotSupported
            else code == 30 && s.estimate.Err? && run.error == RunStore.NoEstimate(s.estimate.error)
  {
    assert RowOf(attempts[base + k], choices[k], call.script(k));
    if reason.NoProvider? || k < |choices| - 1 {
      RetriedAt(reason, choices, call, code, failed, run, k);
    }
  }

  // ---------- Which errors are retried ----------

  /** The submission failed with a provider error of capacity, quota, network or internal kind. */
  predicate FailedRetryably(submit: SubmitScript) {
    && submit.error.Some? && submit.error.value.ProviderError?
    && var kind := submit.error.value.kind;
       kind == CapacityError || kind == QuotaError || kind == NetworkError || kind == InternalError
  }

  lemma RetryableExactly(submit: SubmitScript)
    ensures SubmitResult(submit).retryable <==> FailedRetryably(submit)
  {
  }

  /** Another provider is tried only after a submission of the one before failed retryably, in auto mode,
      below the limit, with a checkpoint to go on from. */
  lemma GoesOnOnlyAfterRetryableFailure(reason: Reason, choices: seq<Choice>, call: Call, code: int, failed: bool,
                                        run: RunStore.Run, k: nat)
    requires Whole(reason, choices, call, code, failed, run) && k + 1 < |choices|
    ensures RefusalOf(call.script(k), choices[k]).None? && FailedRetryably(call.script(k).submit)
    ensures call.plan.provider.Auto? && k + 1 < call.plan.maxAttempts && ResumePoint(call, k + 1).Some?
  {
    RetriedAt(reason, choices, call, code, failed, run, k);
    RetryableExactly(call.script(k).submit);
  }

  /** A call whose last submission failed retryably ends for one of four reasons: a cancellation was found,
      the limit was reached, there was no checkpoint, or no other provider could take the run. */
  lemma StopsOnlyForAReason(reason: Reason, choices: seq<Choice>, call: Call, code: int, failed: bool, run: RunStore.Run)
    requires Whole(reason, choices, call, code, failed, run) && choices != []
    requires var k := |choices| - 1;
             RefusalOf(call.script(k), choices[k]).None? && FailedRetryably(call.script(k).submit)
    ensures var k := |choices| - 1;
            || (run.state == RunCanceled && code == 130 && !failed)
            || (run.state == RunFailed && run.exitCode == code && failed
                && (|| ((call.plan.provider.Fixed? || k + 1 >= call.plan.maxAttempts) && code == call.script(k).submit.exitCode)
                    || ((!call.script(k).logReadable || ResumePoint(call, k + 1).None?) && code == 40)
                    || (NoRoute(call.plan, call.script(k + 1), Tried(choices), ResumePoint(call, k + 1)) && code == 40)))
  {
    var k := |choices| - 1;
    RetryableExactly(call.script(k).submit);
    if reason.NoProvider? {
      RetriedAt(reason, choices, call, code, failed, run, k);
    }
  }

  /** A call without any attempt had no provider to begin with. */
  lemma NoAttemptWithoutProvider(reason: Reason, choices: seq<Choice>, call: Call, code: int, failed: bool, run: RunStore.Run)
    requires Whole(reason, choices, call, code, failed, run) && choices == []
    ensures NoRoute(call.plan, call.script(0), {}, call.initial)
    ensures failed && run.state == RunFailed && run.exitCode == code && code == if call.initial.Some? then 40 else 30
  {
  }

  // ---------- Outcomes of quiet calls ----------

  /** With whole cancellations, the run succeeds exactly when the last attempt was submitted, not canceled,
      and returned without an error and with exit code 0. */
  lemma SucceedsExactly(reason: Reason, choices: seq<Choice>, call: Call, code: int, failed: bool, run: RunStore.Run,
                        attempts: seq<RunStore.Attempt>, base: nat)
    requires Whole(reason, choices, call, code, failed, run) && QuietOutcome(run, attempts, base, choices, call)
    ensures run.state == RunSucceeded <==>
            && !reason.NoProvider? && choices != []
            && var k := |choices| - 1;
               var submit := call.script(k).submit;
               RefusalOf(call.script(k), choices[k]).None? && !CanceledInSubmit(call.script(k), choices[k])
               && submit.error.None? && submit.exitCode == 0
    ensures run.state == RunSucceeded ==> code == 0 && !failed
  {
    if !reason.NoProvider? {
      var k := |choices| - 1;
      LastSucceeds(reason, choices[k], k, call, code, failed, run);
    }
  }

  lemma LastSucceeds(reason: Reason, c: Choice, k: nat, call: Call, code: int, failed: bool, run: RunStore.Run)
    requires LastEnds(reason, c, k, call, code, failed, run)
    requires run.state == RunCanceled <==> CanceledInSubmit(call.script(k), c)
    ensures run.state == RunSucceeded <==>
            && RefusalOf(call.script(k), c).None? && !CanceledInSubmit(call.script(k), c)
            && call.script(k).submit.error.None? && call.script(k).submit.exitCode == 0
    ensures run.state == RunSucceeded ==> code == 0 && !failed
  {
  }

  /** With whole cancellations, that attempt is the last one, canceled with code 130 whatever `Submit`
      returned, and the call reports no failure. */
  lemma CanceledAttemptIsLast(reason: Reason, choices: seq<Choice>, call: Call, code: int, failed: bool, run: RunStore.Run,
                              attempts: seq<RunStore.Attempt>, base: nat, k: nat)
    requires EndsFor(reason, choices, call, code, failed, run) && QuietOutcome(run, attempts, base, choices, call)
    requires k < |choices| && CanceledInSubmit(call.script(k), choices[k])
    ensures k == |choices| - 1 && code == 130 && !failed
    ensures attempts[base + k].state == AttemptCanceled && attempts[base + k].exitCode == 130
  {
    OnlyLastIsCanceled(run, attempts, base, choices, call, k);
    CanceledCode(reason, choices, call, code, failed, run);
  }

  /** With whole cancellations, the run is canceled exactly when one landed while some attempt was
      submitted. */
  lemma CanceledExactly(run: RunStore.Run, attempts: seq<RunStore.Attempt>, base: nat, choices: seq<Choice>, call: Call)
    requires QuietOutcome(run, attempts, base, choices, call)
    ensures run.state == RunCanceled <==> run == RunStore.CANCELED
    ensures run.state == RunCanceled ==> run.exitCode == 130
    ensures run.state == RunCanceled <==> exists k :: 0 <= k < |choices| && CanceledInSubmit(call.script(k), choices[k])
  {
    if run == RunStore.CANCELED {
      var k := |choices| - 1;
      assert 0 <= k && CanceledInSubmit(call.script(k), choices[k]);
      return;
    }
    if k :| 0 <= k < |choices| && CanceledInSubmit(call.script(k), choices[k]) {
      OnlyLastIsCanceled(run, attempts, base, choices, call, k);
    }
  }

  /** The reference of the job just before action `j`: that of the last start, or `ref`. */
  ghost function RefBefore(actions: seq<SubmitAction>, ref: string, j: nat): string
    requires j <= |actions|
  {
    if j == 0 then ref
    else if actions[j - 1].Started? then actions[j - 1].ref
    else RefBefore(actions, ref, j - 1)
  }

  lemma {:induction false} RefBeforeTail(actions: seq<SubmitAction>, ref: string, j: nat)
    requires 0 < j <= |actions|
    ensures RefBefore(actions, ref, j) == RefBefore(actions[1..], RefAfter(actions[0], ref), j - 1)
  {
    if j > 1 {
      RefBeforeTail(actions, ref, j - 1);
    }
  }

  ghost predicate LandsAt(actions: seq<SubmitAction>, ref: string, j: nat) {
    j < |actions| && actions[j] == Canceling(true) && RefBefore(actions, ref, j) != ""
  }

  /** A cancellation lands during `Submit` exactly when one that the provider accepts comes after the job
      was started with a reference. */
  lemma {:induction false} LandsExactly(actions: seq<SubmitAction>, ref: string)
    ensures CancelLands(actions, ref) <==> exists j :: LandsAt(actions, ref, j)
  {
    if actions == [] {
      return;
    }
    LandsExactly(actions[1..], RefAfter(actions[0], ref));
    if j: nat :| LandsAt(actions, ref, j) && j > 0 {
      RefBeforeTail(actions, ref, j);
      assert LandsAt(actions[1..], RefAfter(actions[0], ref), j - 1);
    }
    if j: nat :| LandsAt(actions[1..], RefAfter(actions[0], ref), j) {
      RefBeforeTail(actions, ref, j + 1);
      assert LandsAt(actions, ref, j + 1);
    }
    assert actions[0] == Canceling(true) && ref != "" ==> LandsAt(actions, ref, 0);
  }

  lemma OnlyLastIsCanceled(run: RunStore.Run, attempts: seq<RunStore.Attempt>, base: nat, choices: seq<Choice>, call: Call, k: nat)
    requires QuietOutcome(run, attempts, base, choices, call)
    requires k < |choices| && CanceledInSubmit(call.script(k), choices[k])
    ensures k == |choices| - 1 && run == RunStore.CANCELED
    ensures attempts[base + k].state == AttemptCanceled && attempts[base + k].exitCode == EXIT_CANCELED
  {
    if k + 1 < |choices| {
      NotCanceledAt(run, attempts, base, choices, call, k);
    }
  }

  lemma CanceledCode(reason: Reason, choices: seq<Choice>, call: Call, code: int, failed: bool, run: RunStore.Run)
    requires EndsFor(reason, choices, call, code, failed, run) && run == RunStore.CANCELED
    ensures choices != [] && code == EXIT_CANCELED && !failed
  {
  }

  lemma NotCanceledAt(run: RunStore.Run, attempts: seq<RunStore.Attempt>, base: nat, choices: seq<Choice>, call: Call, k: nat)
    requires QuietOutcome(run, attempts, base, choices, call) && k + 1 < |choices|
    ensures Superseded(attempts[base + k], choices[k], call.script(k))
  {
    var n := |choices| - 1;
    assert Superseded(attempts[..base + n][base + k], choices[..n][k], call.script(k));
  }

  /** In such a store every attempt of the call ends, all but the last one as failed. */
  lemma AllAttemptsEnd(run: RunStore.Run, attempts: seq<RunStore.Attempt>, base: nat, choices: seq<Choice>, call: Call)
    requires QuietOutcome(run, attempts, base, choices, call)
    ensures forall i :: base <= i < |attempts| ==> attempts[i].state != AttemptRunning
    ensures forall i :: base <= i < |attempts| - 1 ==> attempts[i].state == AttemptFailed
  {
    RunStore.CountExactly(attempts, base);
    forall i | base <= i < |attempts| - 1 ensures attempts[i].state == AttemptFailed {
      NotCanceledAt(run, attempts, base, choices, call, i - base);
    }
  }

  /** In auto mode outside manual hardware, an attempt on routed hardware that gets as far as `Submit`
      stores exactly the positive rate of that hardware. */
  lemma RoutedRateIsStored(attempts: seq<RunStore.Attempt>, base: nat, choices: seq<Choice>, call: Call, k: nat)
    requires ChosenAs(attempts, base, choices, call) && Rounds(choices, call) && k < |choices|
    requires call.plan.provider.Auto? && call.plan.options.mode != "manual" && choices[k].hardware.Some?
    requires RefusalOf(call.script(k), choices[k]).None?
    ensures choices[k].hardware.value.hourlyUSD > 0.0
    ensures attempts[base + k].hourlyUSD == Some(choices[k].hardware.value.hourlyUSD)
  {
    RoundAt(choices, k, call);
    var c, s := choices[k], call.script(k);
    var opts := call.plan.options.(exclude := Tried(choices[..k]), resumeFrom := c.resumeFrom);
    var ps :| Candidates(ps, call.plan, s, opts) && !Routing.RouteFails(ps, opts)
              && Routing.RoutesTo(ps, opts, c.provider, c.hardware);
    RoutingTheorems.RoutedHardwareIsPriced(ps, opts, c.provider, c.hardware);
    assert RowOf(attempts[base + k], c, s);
  }

  // ---------- A call is determined by what the world answers ----------

  lemma ChoiceIsUnique(plan: Plan, s: AttemptScript, excluded: set<string>, c: Choice, c': Choice)
    requires ChosenBy(plan, s, excluded, c) && ChosenBy(plan, s, excluded, c') && c.resumeFrom == c'.resumeFrom
    ensures c == c'
  {
    if plan.provider.Auto? {
      var opts := plan.options.(exclude := excluded, resumeFrom := c.resumeFrom);
      var ps :| Candidates(ps, plan, s, opts) && Routing.RoutesTo(ps, opts, c.provider, c.hardware);
      var ps' :| Candidates(ps', plan, s, opts) && Routing.RoutesTo(ps', opts, c'.provider, c'.hardware);
      RoutingTheorems.EligibleListIsUnique(ps, ps', s.registry, plan.data, opts, plan.schemeOf);
      RoutingTheorems.RouteIsUnique(ps, opts, c.provider, c.hardware, c'.provider, c'.hardware);
    }
  }

  /** A provider is chosen or none can be, never both. */
  lemma NoRouteMeansNoChoice(plan: Plan, s: AttemptScript, excluded: set<string>, c: Choice)
    requires ChosenBy(plan, s, excluded, c)
    ensures !NoRoute(plan, s, excluded, c.resumeFrom)
  {
    if NoRoute(plan, s, excluded, c.resumeFrom) && plan.provider.Auto? {
      var opts := plan.options.(exclude := excluded, resumeFrom := c.resumeFrom);
      var ps :| Candidates(ps, plan, s, opts) && !Routing.RouteFails(ps, opts) && Routing.RoutesTo(ps, opts, c.provider, c.hardware);
      var ps' :| Candidates(ps', plan, s, opts) && Routing.RouteFails(ps', opts);
      RoutingTheorems.EligibleListIsUnique(ps, ps', s.registry, plan.data, opts, plan.schemeOf);
    }
  }

  lemma SameChoiceAt(choices: seq<Choice>, choices': seq<Choice>, call: Call, k: nat)
    requires Rounds(choices, call) && Rounds(choices', call) && k < |choices| && k < |choices'|
    requires choices[..k] == choices'[..k]
    ensures choices[k] == choices'[k]
  {
    RoundAt(choices, k, call);
    RoundAt(choices', k, call);
    ChoiceIsUnique(call.plan, call.script(k), Tried(choices[..k]), choices[k], choices'[k]);
  }

  lemma SamePrefix(a: seq<Choice>, b: seq<Choice>, k: nat)
    requires k < |a| && k < |b| && a[..k] == b[..k] && a[k] == b[k]
    ensures a[..k + 1] == b[..k + 1]
  {
    assert a[..k + 1] == a[..k] + [a[k]] && b[..k + 1] == b[..k] + [b[k]];
  }

  lemma {:induction false} SameChoices(choices: seq<Choice>, choices': seq<Choice>, call: Call, n: nat)
    requires Rounds(choices, call) && Rounds(choices', call) && n <= |choices| && n <= |choices'|
    ensures choices[..n] == choices'[..n]
  {
    if n > 0 {
      var k := n - 1;
      SameChoices(choices, choices', call, k);
      SameChoiceAt(choices, choices', call, k);
      SamePrefix(choices, choices', k);
    }
  }

  /** A call does not end with an attempt that is retried, unless it finds the run canceled. */
  lemma RetriedIsNotLast(reason: Reason, c: Choice, k: nat, call: Call, code: int, failed: bool, run: RunStore.Run)
    requires Retried(c, k, call) && run.state != RunCanceled
    ensures !LastEnds(reason, c, k, call, code, failed, run)
  {
  }

  /** A run is found canceled only when its last attempt was. */
  ghost predicate CanceledOnlyInSubmit(run: RunStore.Run, choices: seq<Choice>, call: Call) {
    run.state == RunCanceled ==> choices != [] && CanceledInSubmit(call.script(|choices| - 1), choices[|choices| - 1])
  }

  lemma QuietCancel(run: RunStore.Run, attempts: seq<RunStore.Attempt>, base: nat, choices: seq<Choice>, call: Call)
    requires QuietOutcome(run, attempts, base, choices, call)
    ensures CanceledOnlyInSubmit(run, choices, call)
  {
  }

  /** No quiet call ends where another one goes on. */
  lemma GoingOnIsNoEnd(reason': Reason, choices': seq<Choice>, call: Call, code': int, failed': bool, run': RunStore.Run,
                       attempts': seq<RunStore.Attempt>, base': nat,
                       n: nat, reason: Reason, choices: seq<Choice>, code: int, failed: bool, run: RunStore.Run)
    requires Whole(reason', choices', call, code', failed', run') && QuietOutcome(run', attempts', base', choices', call)
    requires n < |choices'| && choices == choices'[..n] && CanceledOnlyInSubmit(run, choices, call)
    ensures !EndsFor(reason, choices, call, code, failed, run)
  {
    if reason.NoProvider? {
      RouteAt(choices', n, call);
      return;
    }
    if n > 0 {
      var k := n - 1;
      RetriedAt(reason', choices', call, code', failed', run', k);
      NotCanceledAt(run', attempts', base', choices', call, k);
      RetriedIsNotEnd(reason, choices, k, call, code, failed, run);
    }
  }

  lemma RetriedIsNotEnd(reason: Reason, choices: seq<Choice>, k: nat, call: Call, code: int, failed: bool, run: RunStore.Run)
    requires |choices| == k + 1 && Retried(choices[k], k, call) && run.state != RunCanceled && !reason.NoProvider?
    ensures !EndsFor(reason, choices, call, code, failed, run)
  {
    RetriedIsNotLast(reason, choices[k], k, call, code, failed, run);
  }

  lemma RouteAt(choices: seq<Choice>, k: nat, call: Call)
    requires Rounds(choices, call) && k < |choices|
    ensures !NoRoute(call.plan, call.script(k), Tried(choices[..k]), ResumePoint(call, k))
  {
    RoundAt(choices, k, call);
    NoRouteMeansNoChoice(call.plan, call.script(k), Tried(choices[..k]), choices[k]);
  }

  /** Of two quiet whole calls, the one with no more choices has as many. */
  lemma EndsNoEarlier(reason: Reason, choices: seq<Choice>, call: Call, code: int, failed: bool, run: RunStore.Run,
                      attempts: seq<RunStore.Attempt>, base: nat,
                      reason': Reason, choices': seq<Choice>, code': int, failed': bool, run': RunStore.Run,
                      attempts': seq<RunStore.Attempt>, base': nat)
    requires Whole(reason, choices, call, code, failed, run) && QuietOutcome(run, attempts, base, choices, call)
    requires Whole(reason', choices', call, code', failed', run') && QuietOutcome(run', attempts', base', choices', call)
    requires |choices| <= |choices'|
    ensures choices == choices'
  {
    var n := |choices|;
    SameChoices(choices, choices', call, n);
    assert choices[..n] == choices && choices'[..|choices'|] == choices';
    QuietCancel(run, attempts, base, choices, call);
    if n < |choices'| {
      GoingOnIsNoEnd(reason', choices', call, code', failed', run', attempts', base', n, reason, choices, code, failed, run);
    }
  }

  /** With whole cancellations, what the world answers determines the whole call: the providers, the
      checkpoints and the hardware of its attempts, its exit code, whether it fails, and the run. */
  lemma CallIsDetermined(reason: Reason, choices: seq<Choice>, call: Call, code: int, failed: bool, run: RunStore.Run,
                         attempts: seq<RunStore.Attempt>, base: nat,
                         reason': Reason, choices': seq<Choice>, code': int, failed': bool, run': RunStore.Run,
                         attempts': seq<RunStore.Attempt>, base': nat)
    requires Whole(reason, choices, call, code, failed, run) && QuietOutcome(run, attempts, base, choices, call)
    requires Whole(reason', choices', call, code', failed', run') && QuietOutcome(run', attempts', base', choices', call)
    ensures choices == choices' && code == code' && failed == failed' && run == run'
  {
    if |choices| <= |choices'| {
      EndsNoEarlier(reason, choices, call, code, failed, run, attempts, base,
                    reason', choices', code', failed', run', attempts', base');
    } else {
      EndsNoEarlier(reason', choices', call, code', failed', run', attempts', base',
                    reason, choices, code, failed, run, attempts, base);
    }
    SameEnd(reason, choices, call, code, failed, run, attempts, base, reason', code', failed', run', attempts', base');
  }

  lemma SameEnd(reason: Reason, choices: seq<Choice>, call: Call, code: int, failed: bool, run: RunStore.Run,
                attempts: seq<RunStore.Attempt>, base: nat,
                reason': Reason, code': int, failed': bool, run': RunStore.Run, attempts': seq<RunStore.Attempt>, base': nat)
    requires Whole(reason, choices, call, code, failed, run) && QuietOutcome(run, attempts, base, choices, call)
    requires Whole(reason', choices, call, code', failed', run') && QuietOutcome(run', attempts', base', choices, call)
    ensures code == code' && failed == failed' && run == run'
  {
    if reason.NoProvider? {
      NoProviderIsTheEnd(reason, choices, call, code, failed, run, reason', code', failed', run', attempts', base');
    } else if reason'.NoProvider? {
      NoProviderIsTheEnd(reason', choices, call, code', failed', run', reason, code, failed, run, attempts, base);
    } else {
      var k := |choices| - 1;
      SameLastEnd(reason, reason', choices[k], k, call, code, failed, run, code', failed', run');
    }
  }

  lemma NoProviderIsTheEnd(reason: Reason, choices: seq<Choice>, call: Call, code: int, failed: bool, run: RunStore.Run,
                           reason': Reason, code': int, failed': bool, run': RunStore.Run,
                           attempts': seq<RunStore.Attempt>, base': nat)
    requires reason.NoProvider? && Whole(reason, choices, call, code, failed, run)
    requires Whole(reason', choices, call, code', failed', run') && QuietOutcome(run', attempts', base', choices, call)
    requires choices != [] ==> !CanceledInSubmit(call.script(|choices| - 1), choices[|choices| - 1])
    ensures code == code' && failed == failed' && run == run'
  {
    AllRetriedIsNotEnd(reason', choices, call, code', failed', run');
  }

  lemma AllRetriedIsNotEnd(reason: Reason, choices: seq<Choice>, call: Call, code: int, failed: bool, run: RunStore.Run)
    ensures choices != [] && AllRetried(choices, call) && run.state != RunCanceled && !reason.NoProvider? ==>
              !EndsFor(reason, choices, call, code, failed, run)
  {
    if choices != [] && AllRetried(choices, call) && run.state != RunCanceled && !reason.NoProvider? {
      RetriedIsNotEnd(reason, choices, |choices| - 1, call, code, failed, run);
    }
  }

  lemma SameLastEnd(reason: Reason, reason': Reason, c: Choice, k: nat, call: Call, code: int, failed: bool, run: RunStore.Run,
                    code': int, failed': bool, run': RunStore.Run)
    requires LastEnds(reason, c, k, call, code, failed, run) && LastEnds(reason', c, k, call, code', failed', run')
    requires run.state == RunCanceled ==> run == RunStore.CANCELED
    requires run'.state == RunCanceled ==> run' == RunStore.CANCELED
    requires run == RunStore.CANCELED <==> run' == RunStore.CANCELED
    ensures code == code' && failed == failed' && run == run'
  {
  }
}
