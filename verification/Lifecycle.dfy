/** internal/provider/lambda/lambda.go and internal/provider/chinacloud/vm_runtime.go: the life of one
    rented instance inside `Submit`: launch, wait, monitor, terminate or keep. What the provider, the
    network and the resource callbacks answer is a script; every script is possible. */
module Lifecycle {
  import opened Wrappers
  import opened App
  import Monitor

  datatype Adapter = Lambda | VM

  datatype Config = Config(terminateOnCompletion: bool, keepInstanceOnFailure: bool)

  /** An error of `Submit`: from the provider, or from a resource callback of the caller. */
  datatype SubmitError = ProviderFailure(kind: ErrorKind) | CallbackFailure

  datatype SubmitResult = SubmitResult(launched: bool, code: int, error: Option<SubmitError>)

  datatype WaitPoll = WaitPoll(instance: Monitor.InstanceRead, sleeps: bool)

  /** The answers of the outside world, in the order `Submit` asks for them. `launch` is the error of
      the launch call, if any; `terminates` tells whether a termination request succeeds; the other
      booleans tell whether a step or callback succeeds. */
  datatype Script = Script(
    launch: Option<ErrorKind>, created: bool, started: bool, waits: seq<WaitPoll>, runningRecorded: bool,
    sshReady: bool, polls: seq<Monitor.Poll>, terminates: bool, finalRecorded: bool)

  // ---------- Policies ----------

  function CleanupPolicyOf(c: Config): CleanupPolicy {
    if c.terminateOnCompletion && !c.keepInstanceOnFailure then Always
    else if c.terminateOnCompletion && c.keepInstanceOnFailure then OnSuccess
    else if !c.terminateOnCompletion && !c.keepInstanceOnFailure then OnFailure
    else Never
  }

  predicate ShouldTerminate(c: Config, exitCode: int) {
    if exitCode == 0 then c.terminateOnCompletion else !c.keepInstanceOnFailure
  }

  /** What the recorded policy promises for a job that succeeded or failed. */
  predicate Covers(policy: CleanupPolicy, succeeded: bool) {
    match policy
    case Always => true
    case OnSuccess => succeeded
    case OnFailure => !succeeded
    case Never => false
  }

  function ExitCodeForProviderError(kind: ErrorKind): int {
    match kind
    case InvalidSpecError | AuthError => 10
    case CapacityError | QuotaError | NetworkError | InternalError => 40
    case _ => 1
  }

  // ---------- Waiting for the instance ----------

  datatype StartVerdict = Waiting | Active(ip: string) | StartLost(kind: ErrorKind)

  function StartStep(adapter: Adapter, r: Monitor.InstanceRead): StartVerdict {
    match r
    case ReadError(kind) => StartLost(kind)
    case Read(status, ip) =>
      match adapter
      case Lambda =>
        if status == "active" then (if ip == "" then StartLost(InternalError) else Active(ip))
        else if status == "booting" then Waiting
        else if status == "preempted" then StartLost(CapacityError)
        else if status == "unhealthy" || status == "terminated" || status == "terminating" then StartLost(RuntimeError)
        else StartLost(UnknownError)
      case VM =>
        if status == "running" then (if ip == "" then StartLost(InternalError) else Active(ip))
        else if status == "terminating" || status == "terminated" || status == "failed" then StartLost(RuntimeError)
        else Waiting
  }

  /** The first poll that decides: Some(None) for an active instance, Some(Some(kind)) for a lost one. */
  function WaitOutcome(adapter: Adapter, waits: seq<WaitPoll>): Option<Option<ErrorKind>> {
    if waits == [] then None
    else
      match StartStep(adapter, waits[0].instance)
      case Active(_) => Some(None)
      case StartLost(kind) => Some(Some(kind))
      case Waiting => if waits[0].sleeps then WaitOutcome(adapter, waits[1..]) else Some(Some(NetworkError))
  }

  /** When a monitored instance is lost. */
  function LostWhile(adapter: Adapter): Monitor.InstanceRead -> Option<ErrorKind> {
    (r: Monitor.InstanceRead) =>
      match r
      case ReadError(kind) => Some(kind)
      case Read(status, _) =>
        match adapter
        case Lambda =>
          if status == "active" || status == "booting" then None
          else if status == "preempted" then Some(CapacityError)
          else if status == "unhealthy" || status == "terminated" || status == "terminating" then Some(RuntimeError)
          else Some(UnknownError)
        case VM =>
          if status == "terminating" || status == "terminated" || status == "failed" then Some(RuntimeError) else None
  }

  // ---------- Specification of Submit ----------

  /** The recorded states, the termination requests with their success, and the result; no result when
      `Submit` is still running at the end of the script. */
  datatype Trace = Trace(records: seq<ResourceState>, terminations: seq<bool>, result: Option<SubmitResult>)

  function Finish(t: Trace, terminate: bool, kept: ResourceState, s: Script, code: int, error: Option<SubmitError>): Trace {
    var state := if terminate && s.terminates then Terminating else kept;
    var t' := if terminate then t.(terminations := t.terminations + [s.terminates]) else t;
    if s.finalRecorded then t'.(records := t'.records + [state], result := Some(SubmitResult(true, code, error)))
    else t'.(result := Some(SubmitResult(true, 1, Some(CallbackFailure))))
  }

  function Fail(t: Trace, c: Config, s: Script, kind: ErrorKind): Trace {
    Finish(t, !c.keepInstanceOnFailure, Failed, s, ExitCodeForProviderError(kind), Some(ProviderFailure(kind)))
  }

  function SubmitTrace(adapter: Adapter, c: Config, s: Script): Trace {
    if s.launch.Some? then
      Trace([], [], Some(SubmitResult(false, ExitCodeForProviderError(s.launch.value), Some(ProviderFailure(s.launch.value)))))
    else if !s.created then Trace([], [s.terminates], Some(SubmitResult(true, 1, Some(CallbackFailure))))
    else if !s.started then Trace([Booting], [s.terminates], Some(SubmitResult(true, 1, Some(CallbackFailure))))
    else
      var booted := Trace([Booting], [], None);
      match WaitOutcome(adapter, s.waits)
      case None => booted
      case Some(Some(kind)) => Fail(booted, c, s, kind)
      case Some(None) =>
        if !s.runningRecorded then booted.(result := Some(SubmitResult(true, 1, Some(CallbackFailure))))
        else if !s.sshReady then Fail(Trace([Booting, Running], [], None), c, s, NetworkError)
        else Monitored(Trace([Booting, Running], [], None), adapter, c, s)
  }

  function Monitored(t: Trace, adapter: Adapter, c: Config, s: Script): Trace {
    match Monitor.MonitorOutcome(s.polls, LostWhile(adapter))
    case None => t.(result := None)
    case Some(Lost(kind)) => Fail(t, c, s, kind)
    case Some(Exited(code, _)) =>
      Finish(t, ShouldTerminate(c, code), if code == 0 then Succeeded else Failed, s, code, None)
  }

  // ---------- The instance ----------

  class Instance {
    const adapter: Adapter
    const config: Config
    /** What the caller's table has been told, in order. */
    var records: seq<ResourceState>
    /** The policy told with every record. */
    const policy: CleanupPolicy
    /** The termination requests sent, in order, each with its success. */
    var terminations: seq<bool>

    constructor (adapter: Adapter, config: Config)
      ensures records == [] && terminations == []
      ensures this.adapter == adapter && this.config == config && policy == CleanupPolicyOf(config)
    {
      this.adapter, this.config, policy := adapter, config, CleanupPolicyOf(config);
      records, terminations := [], [];
    }

    method NotifyResource(state: ResourceState, succeeds: bool)
      modifies this`records
      ensures records == if succeeds then old(records) + [state] else old(records)
    {
      if succeeds {
        records := records + [state];
      }
    }

    method Terminate(succeeds: bool)
      modifies this`terminations
      ensures terminations == old(terminations) + [succeeds]
    {
      terminations := terminations + [succeeds];
    }

    method WaitForActive(waits: seq<WaitPoll>) returns (outcome: Option<Option<ErrorKind>>)
      ensures outcome == WaitOutcome(adapter, waits)
    {
      for i := 0 to |waits|
        invariant WaitOutcome(adapter, waits) == WaitOutcome(adapter, waits[i..])
      {
        assert waits[i..][0] == waits[i] && waits[i..][1..] == waits[i + 1..];
        match StartStep(adapter, waits[i].instance) {
          case Active(_) => return Some(None);
          case StartLost(kind) => return Some(Some(kind));
          case Waiting =>
        }
        if !waits[i].sleeps {
          return Some(Some(NetworkError));
        }
      }
      return None;
    }

    /** The VM adapter's monitor; the Lambda adapter's is `Monitor.Follower.MonitorRemote`. */
    method MonitorVM(polls: seq<Monitor.Poll>) returns (outcome: Option<Monitor.Verdict>)
      ensures outcome == Monitor.MonitorOutcome(polls, LostWhile(adapter))
    {
      for i := 0 to |polls|
        invariant Monitor.MonitorOutcome(polls, LostWhile(adapter)) == Monitor.MonitorOutcome(polls[i..], LostWhile(adapter))
      {
        assert polls[i..][0] == polls[i] && polls[i..][1..] == polls[i + 1..];
        var verdict := Monitor.PollVerdict(polls[i], LostWhile(adapter));
        if verdict != Monitor.Continue {
          return Some(verdict);
        }
      }
      return None;
    }

    ghost function TraceWith(result: Option<SubmitResult>): Trace
      reads this
    {
      Trace(records, terminations, result)
    }

    method FailureResult(kind: ErrorKind, s: Script) returns (result: Option<SubmitResult>)
      modifies this
      ensures TraceWith(result) == Fail(old(TraceWith(None)), config, s, kind)
    {
      var state := Failed;
      if !config.keepInstanceOnFailure {
        Terminate(s.terminates);
        if s.terminates {
          state := Terminating;
        }
      }
      NotifyResource(state, s.finalRecorded);
      if !s.finalRecorded {
        return Some(SubmitResult(true, 1, Some(CallbackFailure)));
      }
      return Some(SubmitResult(true, ExitCodeForProviderError(kind), Some(ProviderFailure(kind))));
    }

    method Submit(s: Script, follower: Monitor.Follower) returns (result: Option<SubmitResult>)
      requires records == [] && terminations == []
      requires follower.Valid() && follower.logFile == [] && follower.eventFile == []
      modifies this, follower
      ensures TraceWith(result) == SubmitTrace(adapter, config, s)
    {
      if s.launch.Some? {
        var kind := s.launch.value;
        return Some(SubmitResult(false, ExitCodeForProviderError(kind), Some(ProviderFailure(kind))));
      }
      NotifyResource(Booting, s.created);
      if !s.created {
        Terminate(s.terminates);
        assert terminations == [s.terminates];
        return Some(SubmitResult(true, 1, Some(CallbackFailure)));
      }
      assert records == [Booting];
      if !s.started {
        Terminate(s.terminates);
        assert terminations == [s.terminates];
        return Some(SubmitResult(true, 1, Some(CallbackFailure)));
      }
      var waited := WaitForActive(s.waits);
      if waited.None? {
        return None;
      }
      if waited.value.Some? {
        result := FailureResult(waited.value.value, s);
        return;
      }
      NotifyResource(Running, s.runningRecorded);
      if !s.runningRecorded {
        return Some(SubmitResult(true, 1, Some(CallbackFailure)));
      }
      assert records == [Booting, Running];
      if !s.sshReady {
        result := FailureResult(NetworkError, s);
        return;
      }
      result := RunMonitored(s, follower);
    }

    /** The rest of `Submit`, once the instance can be reached. */
    method RunMonitored(s: Script, follower: Monitor.Follower) returns (result: Option<SubmitResult>)
      requires follower.Valid() && follower.logFile == [] && follower.eventFile == []
      modifies this, follower
      ensures TraceWith(result) == Monitored(old(TraceWith(None)), adapter, config, s)
    {
      var outcome: Option<Monitor.Verdict>;
      if adapter == Lambda {
        var polled: nat;
        outcome, polled := follower.MonitorRemote(s.polls, LostWhile(adapter));
      } else {
        outcome := MonitorVM(s.polls);
      }
      if outcome.None? {
        return None;
      }
      if outcome.value.Lost? {
        result := FailureResult(outcome.value.kind, s);
        return;
      }
      var exitCode := outcome.value.code;
      var finalState := if exitCode != 0 then Failed else Succeeded;
      if ShouldTerminate(config, exitCode) {
        Terminate(s.terminates);
        if s.terminates {
          finalState := Terminating;
        }
      }
      NotifyResource(finalState, s.finalRecorded);
      if !s.finalRecorded {
        return Some(SubmitResult(true, 1, Some(CallbackFailure)));
      }
      return Some(SubmitResult(true, exitCode, None));
    }
  }

  // ---------- What Submit promises ----------

  ghost predicate CallbacksSucceed(s: Script) {
    s.created && s.started && s.runningRecorded && s.finalRecorded
  }

  ghost predicate Launched(s: Script) {
    s.launch.None?
  }

  // ---------- What the readings of an instance mean ----------

  /** A new instance with which waiting goes on. */
  ghost predicate StillBooting(adapter: Adapter, r: Monitor.InstanceRead) {
    && r.Read?
    && match adapter
       case Lambda => r.status == "booting"
       case VM => r.status != "running" && r.status != "terminating" && r.status != "terminated" && r.status != "failed"
  }

  ghost function UpStatus(adapter: Adapter): string {
    match adapter
    case Lambda => "active"
    case VM => "running"
  }

  /** An instance that is up and can be addressed. */
  ghost predicate CameUp(adapter: Adapter, r: Monitor.InstanceRead) {
    r.Read? && r.status == UpStatus(adapter) && r.ip != ""
  }

  /** A monitored instance with which monitoring goes on. */
  ghost predicate StillUp(adapter: Adapter, r: Monitor.InstanceRead) {
    && r.Read?
    && match adapter
       case Lambda => r.status == "active" || r.status == "booting"
       case VM => r.status != "terminating" && r.status != "terminated" && r.status != "failed"
  }

  /** The status of a lost instance tells the kind of the error. */
  ghost predicate Gone(adapter: Adapter, status: string, kind: ErrorKind) {
    match adapter
    case Lambda =>
      if status == "preempted" then kind == CapacityError
      else if status == "unhealthy" || status == "terminating" || status == "terminated" then kind == RuntimeError
      else kind == UnknownError
    case VM => kind == RuntimeError
  }

  /** A new instance that is given up: it cannot be read, has no address, or is gone. */
  ghost predicate FailedToStart(adapter: Adapter, r: Monitor.InstanceRead, kind: ErrorKind) {
    match r
    case ReadError(k) => k == kind
    case Read(status, ip) =>
      if status == UpStatus(adapter) then ip == "" && kind == InternalError
      else !StillBooting(adapter, r) && Gone(adapter, status, kind)
  }

  /** A monitored instance that is given up: it cannot be read or is gone. */
  ghost predicate WentDown(adapter: Adapter, r: Monitor.InstanceRead, kind: ErrorKind) {
    match r
    case ReadError(k) => k == kind
    case Read(status, _) => !StillUp(adapter, r) && Gone(adapter, status, kind)
  }

  lemma StatusesDiffer()
    ensures "active" != "booting" && "active" != "preempted" && "active" != "unhealthy" && "active" != "terminating"
    ensures "active" != "terminated" && "booting" != "preempted" && "booting" != "unhealthy" && "booting" != "terminating"
    ensures "booting" != "terminated" && "running" != "terminating" && "running" != "terminated" && "running" != "failed"
  {
    assert "active"[0] == 'a' && "booting"[0] == 'b' && "preempted"[0] == 'p' && "unhealthy"[0] == 'u' && "terminating"[0] == 't';
    assert "terminated"[0] == 't' && "running"[0] == 'r' && "failed"[0] == 'f';
  }

  /** While waiting: what each reading leads to, without an error for an instance that comes up. */
  lemma StartExactly(adapter: Adapter, r: Monitor.InstanceRead, kind: ErrorKind)
    ensures StartStep(adapter, r) == Waiting <==> StillBooting(adapter, r)
    ensures (exists ip :: StartStep(adapter, r) == Active(ip)) <==> CameUp(adapter, r)
    ensures StartStep(adapter, r) == StartLost(kind) <==> FailedToStart(adapter, r, kind)
  {
    StatusesDiffer();
    if CameUp(adapter, r) {
      assert StartStep(adapter, r) == Active(r.ip);
    }
  }

  /** While monitoring: what each reading leads to. */
  lemma LostWhileExactly(adapter: Adapter, r: Monitor.InstanceRead, kind: ErrorKind)
    ensures LostWhile(adapter)(r) == None <==> StillUp(adapter, r)
    ensures LostWhile(adapter)(r) == Some(kind) <==> WentDown(adapter, r, kind)
  {
    StatusesDiffer();
  }

  /** The instance came up at poll `k`, and none of the waits before was interrupted. */
  ghost predicate UpAt(adapter: Adapter, waits: seq<WaitPoll>, k: nat) {
    && k < |waits| && CameUp(adapter, waits[k].instance)
    && forall i :: 0 <= i < k ==> StillBooting(adapter, waits[i].instance) && waits[i].sleeps
  }

  /** The instance is given up at poll `k` for an error of this kind. */
  ghost predicate LostAt(adapter: Adapter, waits: seq<WaitPoll>, k: nat, kind: ErrorKind) {
    && k < |waits|
    && (forall i :: 0 <= i < k ==> StillBooting(adapter, waits[i].instance) && waits[i].sleeps)
    && (FailedToStart(adapter, waits[k].instance, kind)
        || (StillBooting(adapter, waits[k].instance) && !waits[k].sleeps && kind == NetworkError))
  }

  lemma {:induction false} NeverUpExactly(adapter: Adapter, waits: seq<WaitPoll>, kind: ErrorKind)
    ensures WaitOutcome(adapter, waits) == Some(Some(kind)) <==> exists k: nat :: LostAt(adapter, waits, k, kind)
  {
    if waits == [] {
      return;
    }
    StartExactly(adapter, waits[0].instance, kind);
    NeverUpExactly(adapter, waits[1..], kind);
    if FailedToStart(adapter, waits[0].instance, kind)
       || (StillBooting(adapter, waits[0].instance) && !waits[0].sleeps && kind == NetworkError) {
      assert LostAt(adapter, waits, 0, kind);
    }
    if k: nat :| LostAt(adapter, waits, k, kind) && k > 0 {
      assert LostAt(adapter, waits[1..], k - 1, kind);
    }
    if k: nat :| StillBooting(adapter, waits[0].instance) && waits[0].sleeps && LostAt(adapter, waits[1..], k, kind) {
      assert LostAt(adapter, waits, k + 1, kind);
    }
  }

  lemma {:induction false} ActiveExactly(adapter: Adapter, waits: seq<WaitPoll>)
    ensures WaitOutcome(adapter, waits) == Some(None) <==> exists k: nat :: UpAt(adapter, waits, k)
  {
    if waits == [] {
      return;
    }
    StartExactly(adapter, waits[0].instance, UnknownError);
    ActiveExactly(adapter, waits[1..]);
    if CameUp(adapter, waits[0].instance) {
      assert UpAt(adapter, waits, 0);
    }
    if k: nat :| UpAt(adapter, waits, k) && k > 0 {
      assert UpAt(adapter, waits[1..], k - 1);
    }
    if k: nat :| StillBooting(adapter, waits[0].instance) && waits[0].sleeps && UpAt(adapter, waits[1..], k) {
      assert UpAt(adapter, waits, k + 1);
    }
  }

  /** The exit marker is found at poll `k`, and before it the instance stayed up and no wait was interrupted. */
  ghost predicate ExitsAt(adapter: Adapter, polls: seq<Monitor.Poll>, k: nat) {
    && k < |polls| && polls[k].marker.Exit?
    && forall i :: 0 <= i < k ==> polls[i].marker.NoMarker? && StillUp(adapter, polls[i].instance) && polls[i].sleeps
  }

  lemma ExitCodeExactly(adapter: Adapter, polls: seq<Monitor.Poll>, code: int)
    ensures (exists reason :: Monitor.MonitorOutcome(polls, LostWhile(adapter)) == Some(Monitor.Exited(code, reason)))
       <==> exists k: nat :: ExitsAt(adapter, polls, k) && polls[k].marker.code == code
  {
    var lost := LostWhile(adapter);
    if reason :| Monitor.MonitorOutcome(polls, lost) == Some(Monitor.Exited(code, reason)) {
      Monitor.ExitedExactly(polls, lost, code, reason);
      var k :| 0 <= k < |polls| && Monitor.Uneventful(polls, lost, k) && Monitor.TellsExit(polls[k], code, reason);
      UneventfulIsUp(adapter, polls, k);
      assert ExitsAt(adapter, polls, k);
    }
    if k: nat :| ExitsAt(adapter, polls, k) && polls[k].marker.code == code {
      UneventfulIsUp(adapter, polls, k);
      assert Monitor.TellsExit(polls[k], code, polls[k].marker.reason);
      Monitor.ExitedExactly(polls, lost, code, polls[k].marker.reason);
    }
  }

  lemma UneventfulIsUp(adapter: Adapter, polls: seq<Monitor.Poll>, n: nat)
    requires n <= |polls|
    ensures Monitor.Uneventful(polls, LostWhile(adapter), n) <==>
            forall i :: 0 <= i < n ==> polls[i].marker.NoMarker? && StillUp(adapter, polls[i].instance) && polls[i].sleeps
  {
    forall i | 0 <= i < n ensures LostWhile(adapter)(polls[i].instance).None? <==> StillUp(adapter, polls[i].instance) {
      LostWhileExactly(adapter, polls[i].instance, UnknownError);
    }
  }

  /** The job is given up at poll `k` for an error of this kind. */
  ghost predicate GivenUpAt(adapter: Adapter, polls: seq<Monitor.Poll>, k: nat, kind: ErrorKind) {
    && k < |polls|
    && (forall i :: 0 <= i < k ==> polls[i].marker.NoMarker? && StillUp(adapter, polls[i].instance) && polls[i].sleeps)
    && match polls[k].marker
       case Exit(_, _) => false
       case InvalidMarker => kind == RuntimeError
       case NoMarker =>
         || WentDown(adapter, polls[k].instance, kind)
         || (StillUp(adapter, polls[k].instance) && !polls[k].sleeps && kind == NetworkError)
  }

  lemma GivenUpTells(adapter: Adapter, polls: seq<Monitor.Poll>, k: nat, kind: ErrorKind)
    requires k < |polls|
    ensures GivenUpAt(adapter, polls, k, kind) <==>
            Monitor.Uneventful(polls, LostWhile(adapter), k) && Monitor.TellsLoss(polls[k], LostWhile(adapter), kind)
  {
    UneventfulIsUp(adapter, polls, k);
    LostWhileExactly(adapter, polls[k].instance, kind);
  }

  lemma GivenUpExactly(adapter: Adapter, polls: seq<Monitor.Poll>, kind: ErrorKind)
    ensures Monitor.MonitorOutcome(polls, LostWhile(adapter)) == Some(Monitor.Lost(kind)) <==>
            exists k: nat :: GivenUpAt(adapter, polls, k, kind)
  {
    var lost := LostWhile(adapter);
    Monitor.LostExactly(polls, lost, kind);
    if k :| 0 <= k < |polls| && Monitor.Uneventful(polls, lost, k) && Monitor.TellsLoss(polls[k], lost, kind) {
      GivenUpTells(adapter, polls, k, kind);
    }
    if k: nat :| GivenUpAt(adapter, polls, k, kind) {
      GivenUpTells(adapter, polls, k, kind);
    }
  }

  /** The instance came up and could be reached, and the job ran to its end with this exit code. */
  ghost predicate JobExited(adapter: Adapter, s: Script, code: int) {
    && s.sshReady && (exists k: nat :: UpAt(adapter, s.waits, k))
    && exists k: nat :: ExitsAt(adapter, s.polls, k) && s.polls[k].marker.code == code
  }

  /** The job ran to its end with exit code 0. */
  ghost predicate JobSucceeded(adapter: Adapter, s: Script) {
    JobExited(adapter, s, 0)
  }

  lemma JobExitedExactly(adapter: Adapter, s: Script, code: int)
    ensures JobExited(adapter, s, code) <==>
            && WaitOutcome(adapter, s.waits) == Some(None) && s.sshReady
            && exists reason :: Monitor.MonitorOutcome(s.polls, LostWhile(adapter)) == Some(Monitor.Exited(code, reason))
  {
    ActiveExactly(adapter, s.waits);
    ExitCodeExactly(adapter, s.polls, code);
  }

  /** A submission whose callbacks succeed returns without an error exactly when the job ran to its end,
      and then with the exit code of the job. */
  lemma ExitCodeIsReturned(adapter: Adapter, c: Config, s: Script, code: int)
    requires Launched(s) && CallbacksSucceed(s)
    ensures SubmitTrace(adapter, c, s).result == Some(SubmitResult(true, code, None)) <==> JobExited(adapter, s, code)
  {
    JobExitedExactly(adapter, s, code);
  }

  /** The instance was lost before it came up, or could not be reached, or the job was given up. */
  ghost predicate JobLost(adapter: Adapter, s: Script, kind: ErrorKind) {
    || (exists k: nat :: LostAt(adapter, s.waits, k, kind))
    || ((exists k: nat :: UpAt(adapter, s.waits, k))
        && if s.sshReady then exists k: nat :: GivenUpAt(adapter, s.polls, k, kind) else kind == NetworkError)
  }

  lemma LossInTrace(adapter: Adapter, c: Config, s: Script, kind: ErrorKind)
    requires Launched(s) && CallbacksSucceed(s)
    ensures var r := SubmitTrace(adapter, c, s).result;
            r.Some? && r.value.error == Some(ProviderFailure(kind)) <==>
            || WaitOutcome(adapter, s.waits) == Some(Some(kind))
            || (WaitOutcome(adapter, s.waits) == Some(None)
                && if s.sshReady then Monitor.MonitorOutcome(s.polls, LostWhile(adapter)) == Some(Monitor.Lost(kind))
                   else kind == NetworkError)
  {
  }

  /** A submission whose callbacks succeed returns a provider's error exactly when the job was lost for it. */
  lemma LossIsReturned(adapter: Adapter, c: Config, s: Script, kind: ErrorKind)
    requires Launched(s) && CallbacksSucceed(s)
    ensures var r := SubmitTrace(adapter, c, s).result;
            r.Some? && r.value.error == Some(ProviderFailure(kind)) <==> JobLost(adapter, s, kind)
  {
    LossInTrace(adapter, c, s, kind);
    ActiveExactly(adapter, s.waits);
    NeverUpExactly(adapter, s.waits, kind);
    GivenUpExactly(adapter, s.polls, kind);
  }

  /** Every other submission that returns reports the code of its error. */
  lemma FailureCodeIsReturned(adapter: Adapter, c: Config, s: Script)
    ensures var r := SubmitTrace(adapter, c, s).result;
            r.Some? && r.value.error.Some? ==>
              r.value.code == match r.value.error.value {
                case CallbackFailure => 1
                case ProviderFailure(kind) =>
                  if kind == InvalidSpecError || kind == AuthError then 10
                  else if kind == CapacityError || kind == QuotaError || kind == NetworkError || kind == InternalError then 40
                  else 1 }
  {
  }

  ghost predicate Final(state: ResourceState) {
    state == Succeeded || state == Failed || state == Terminating
  }

  /** Main result: on every run that returns, with callbacks that succeed, the instance is terminated
      exactly when the recorded policy covers the outcome, once; the recorded states move from booting
      over running to one final state, which is terminating exactly when the request succeeded and
      otherwise tells the outcome. */
  lemma SubmitFollowsPolicy(adapter: Adapter, c: Config, s: Script)
    requires Launched(s) && CallbacksSucceed(s) && SubmitTrace(adapter, c, s).result.Some?
    ensures var t := SubmitTrace(adapter, c, s);
            var won := JobSucceeded(adapter, s);
            && |t.terminations| == (if Covers(CleanupPolicyOf(c), won) then 1 else 0)
            && |t.records| >= 2
            && var final := t.records[|t.records| - 1];
               && Final(final)
               && (t.records == [Booting, Running, final] || (!won && t.records == [Booting, final]))
               && (final == Terminating <==> t.terminations != [] && t.terminations[0])
               && (final != Terminating ==> final == if won then Succeeded else Failed)
               && (won <==> t.result.value.error.None? && t.result.value.code == 0)
               && (t.terminations != [] <==> if won then c.terminateOnCompletion else !c.keepInstanceOnFailure)
  {
    JobExitedExactly(adapter, s, 0);
  }

  /** While the instance is only waited for or monitored, it is recorded as live and not terminated. */
  lemma UnfinishedSubmitKeepsInstance(adapter: Adapter, c: Config, s: Script)
    requires Launched(s) && SubmitTrace(adapter, c, s).result.None?
    ensures var t := SubmitTrace(adapter, c, s);
            t.terminations == [] && (t.records == [Booting] || t.records == [Booting, Running])
  {
  }

  /** When a failed callback decides: before the instance is waited for, or after it became active. */
  ghost predicate EarlyCallbackFails(s: Script) {
    !s.created || !s.started
  }

  ghost predicate RunningCallbackFails(adapter: Adapter, s: Script) {
    !EarlyCallbackFails(s) && WaitOutcome(adapter, s.waits) == Some(None) && !s.runningRecorded
  }

  /** With failing callbacks the policy is followed exactly when an early failure finds a policy that
      terminates on failure, and a failure of the running update finds one that does not: early
      failures always terminate, the running update never does. */
  lemma PolicyFollowedExactly(adapter: Adapter, c: Config, s: Script)
    requires Launched(s) && SubmitTrace(adapter, c, s).result.Some?
    ensures var won := !EarlyCallbackFails(s) && !RunningCallbackFails(adapter, s) && JobSucceeded(adapter, s);
            |SubmitTrace(adapter, c, s).terminations| == (if Covers(CleanupPolicyOf(c), won) then 1 else 0)
            <==> && (EarlyCallbackFails(s) ==> !c.keepInstanceOnFailure)
                 && (RunningCallbackFails(adapter, s) ==> c.keepInstanceOnFailure)
  {
    var t := SubmitTrace(adapter, c, s);
    JobExitedExactly(adapter, s, 0);
    if EarlyCallbackFails(s) {
      assert |t.terminations| == 1;
    } else if RunningCallbackFails(adapter, s) {
      assert |t.terminations| == 0;
    }
  }

  /** The policy is Never, the job is not even waited for, and the instance is terminated all the same: the
      callback that records the reference failed. */
  lemma FailedCallbackDefeatsPolicy(adapter: Adapter)
    ensures var c, s := Config(false, true), Script(None, true, false, [], true, true, [], true, true);
            && Launched(s) && SubmitTrace(adapter, c, s).result.Some?
            && CleanupPolicyOf(c) == Never && SubmitTrace(adapter, c, s).terminations == [true]
  {
  }

  /** The policy is Always, and the instance is kept: the callback that records it as running failed. */
  lemma FailedRunningUpdateDefeatsPolicy(adapter: Adapter, waits: seq<WaitPoll>)
    requires WaitOutcome(adapter, waits) == Some(None)
    ensures var c, s := Config(true, false), Script(None, true, true, waits, false, true, [], true, true);
            && Launched(s) && SubmitTrace(adapter, c, s).result.Some?
            && CleanupPolicyOf(c) == Always && SubmitTrace(adapter, c, s).terminations == []
  {
  }
}
