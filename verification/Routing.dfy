/** internal/routing/routing.go: choosing a provider, and for the modes that ask for it a hardware
    shape. The answers of the adapters are given as values; the scheme of a URI, as `url.Parse` finds
    it ("" when it finds none), is a parameter. Floating-point numbers are reals. */
module Routing {
  import opened Wrappers
  import opened App
  import opened Strings
  import Registry
  import Sorting

  /** The availability hint of a shape: none, one the code tests or sets, or any other text. */
  datatype Hint =
    | NoHint | Configured | StaticEstimate | LivePricing | LiveInventory | UnknownQuota | NoQuota | Unavailable
    | OtherHint(text: string)

  datatype Shape = Shape(
    id: string, provider: string, region: string, machineType: string, acceleratorType: string, acceleratorCount: int,
    gpuFamily: string, vramGBPerGPU: int, totalVRAMGB: int, onDemandHourlyUSD: real, spotHourlyUSD: real,
    supportsOnDemand: bool, supportsSpot: bool, availabilityHint: Hint)

  datatype Sizing = Sizing(
    requiredVRAMGB: real, modelParametersB: real, modelArtifactGB: real, batchSize: int, precision: string,
    optimizer: string, expectedSteps: int)

  datatype Constraints = Constraints(
    maxGPUs: int, allowedGPUFamilies: seq<string>, minVRAMGBPerGPU: int, regions: seq<string>, allowSpot: bool,
    requireOnDemand: bool)

  datatype Manual = Manual(provider: string, shapeID: string, machineType: string, region: string)

  datatype Options = Options(
    mode: string, objective: string, exclude: set<string>, budgetMaxRunCostUSD: real, sizing: Sizing,
    hardware: Constraints, manual: Manual, resumeFrom: Option<CheckpointRef>)

  datatype DataInput = BundleInput(name: string) | UriInput(name: string, source: string)

  datatype Capabilities = Capabilities(
    shapes: seq<Shape>, supportsDataBundle: bool, uriSchemes: seq<string>, checkpointSchemes: seq<string>)

  datatype Support = Support(supported: bool, reasons: seq<string>)

  /** What an adapter answers: its capabilities, whether it supports the job, its hourly estimate. */
  datatype Adapter = Adapter(capabilities: Result<Capabilities, string>, support: Support, estimate: Result<real, string>)

  datatype Reason =
    | Excluded | Reported(text: string) | NoBundle(input: string) | NoUriScheme(scheme: string, input: string)
    | NoCheckpointScheme(scheme: string) | MissingID | TooLittleVRAM | TooManyGPUs | TooLittleVRAMPerGPU | FamilyNotAllowed
    | RegionNotAllowed | NoOnDemand | SpotOnly | MissingPrice | NotAvailable | OverBudget
    | ShapeMismatch | MachineTypeMismatch | RegionMismatch

  datatype ProviderCandidate = ProviderCandidate(provider: string, score: real, capabilities: Capabilities)

  datatype Rejected = Rejected(provider: string, reasons: seq<Reason>)

  datatype RejectedShape = RejectedShape(provider: string, shapeID: string, reasons: seq<Reason>)

  /** A shape of a provider with its estimates and what speaks against it. */
  datatype Assessed = Assessed(provider: string, shape: Shape, runtimeSeconds: real, totalCostUSD: real, reasons: seq<Reason>)

  datatype Selection = Selection(
    provider: string, shapeID: string, region: string, machineType: string, acceleratorCount: int, totalVRAMGB: int,
    hourlyUSD: real)

  datatype Decision = Decision(
    selectedProvider: string, selectedHardware: Option<Selection>, eligible: seq<ProviderCandidate>, rejected: seq<Rejected>,
    eligibleHardware: seq<Assessed>, rejectedHardware: seq<RejectedShape>, runtimeSeconds: Option<real>,
    totalCostUSD: Option<real>, confidence: string)

  datatype RouteError = NoEligibleProviders | NoSizing | NoEligibleHardware | NoManualMatch

  const FASTEST := "fastest_within_budget"
  const MIN_COST := "min_cost"

  // ---------- Estimates ----------

  function MaxInt(a: int, b: int): int {
    if a > b then a else b
  }

  function PrecisionBytes(precision: string): real {
    var p := Lower(precision);
    if p == "fp32" || p == "float32" then 4.0
    else if p == "int8" || p == "8bit" || p == "quantized" then 1.0
    else 2.0
  }

  function OptimizerMultiplier(optimizer: string): real {
    var o := Lower(optimizer);
    if o == "adam" || o == "adamw" then 4.0 else if o == "sgd" then 2.0 else 3.0
  }

  /** The memory the job needs with the confidence in it, or None without any hint. */
  function EstimateRequiredVRAM(opts: Options): Option<(real, string)> {
    var s := opts.sizing;
    if s.requiredVRAMGB > 0.0 then Some((s.requiredVRAMGB, "probe"))
    else if s.modelParametersB > 0.0 then
      Some((s.modelParametersB * PrecisionBytes(s.precision) * OptimizerMultiplier(s.optimizer)
            + MaxInt(s.batchSize, 1) as real * 0.5, "hinted"))
    else if s.modelArtifactGB > 0.0 then Some((s.modelArtifactGB * 2.0, "hinted"))
    else if opts.hardware.minVRAMGBPerGPU > 0 then Some((opts.hardware.minVRAMGBPerGPU as real, "constraint"))
    else None
  }

  function EstimateRuntimeSeconds(shape: Shape, sizing: Sizing): real {
    var accelerators := MaxInt(shape.acceleratorCount, 1);
    if sizing.expectedSteps > 0 then
      var seconds := (sizing.expectedSteps * 10) as real / accelerators as real;
      if seconds > 60.0 then seconds else 60.0
    else if shape.acceleratorCount > 0 then 3600.0 / accelerators as real
    else 7200.0
  }

  function EstimateTotalCostUSD(shape: Shape, providerHourly: real, runtimeSeconds: real): real {
    var hourly :=
      if shape.onDemandHourlyUSD != 0.0 then shape.onDemandHourlyUSD
      else if shape.spotHourlyUSD != 0.0 then shape.spotHourlyUSD
      else providerHourly;
    hourly * runtimeSeconds / 3600.0
  }

  function SelectedHourlyUSD(shape: Shape): real {
    if shape.onDemandHourlyUSD > 0.0 then shape.onDemandHourlyUSD else shape.spotHourlyUSD
  }

  function HardwareSelection(provider: string, shape: Shape): Selection {
    Selection(provider, shape.id, shape.region, shape.machineType, shape.acceleratorCount, shape.totalVRAMGB,
              SelectedHourlyUSD(shape))
  }

  // ---------- Rejections ----------

  function If(condition: bool, reason: Reason): seq<Reason> {
    if condition then [reason] else []
  }

  /** The reasons whose condition holds, in order. */
  function Collect(checks: seq<(bool, Reason)>): seq<Reason> {
    if checks == [] then [] else If(checks[0].0, checks[0].1) + Collect(checks[1..])
  }

  /** What is checked of a shape, with the reason to report. */
  function Checks(shape: Shape, requiredVRAM: real, c: Constraints): (checks: seq<(bool, Reason)>)
    ensures |checks| == 10
  {
    [
      (shape.id == "", MissingID),
      (requiredVRAM > 0.0 && shape.totalVRAMGB as real < requiredVRAM, TooLittleVRAM),
      (c.maxGPUs > 0 && shape.acceleratorCount > c.maxGPUs, TooManyGPUs),
      (c.minVRAMGBPerGPU > 0 && shape.vramGBPerGPU < c.minVRAMGBPerGPU, TooLittleVRAMPerGPU),
      (|c.allowedGPUFamilies| > 0 && !ContainsFold(c.allowedGPUFamilies, shape.gpuFamily), FamilyNotAllowed),
      (|c.regions| > 0 && !ContainsFold(c.regions, shape.region), RegionNotAllowed),
      (c.requireOnDemand && !shape.supportsOnDemand, NoOnDemand),
      (!c.allowSpot && !shape.supportsOnDemand && shape.supportsSpot, SpotOnly),
      (shape.onDemandHourlyUSD <= 0.0 && shape.spotHourlyUSD <= 0.0, MissingPrice),
      (shape.availabilityHint == NoQuota || shape.availabilityHint == Unavailable, NotAvailable)]
  }

  function HardwareRejections(shape: Shape, requiredVRAM: real, c: Constraints): seq<Reason> {
    Collect(Checks(shape, requiredVRAM, c))
  }

  /** What the user's hardware constraints demand of a shape. */
  ghost predicate MeetsConstraints(shape: Shape, requiredVRAM: real, c: Constraints) {
    && shape.id != ""
    && (requiredVRAM > 0.0 ==> shape.totalVRAMGB as real >= requiredVRAM)
    && (c.maxGPUs > 0 ==> shape.acceleratorCount <= c.maxGPUs)
    && (c.minVRAMGBPerGPU > 0 ==> shape.vramGBPerGPU >= c.minVRAMGBPerGPU)
    && (c.allowedGPUFamilies != [] ==> Lists(c.allowedGPUFamilies, shape.gpuFamily))
    && (c.regions != [] ==> Lists(c.regions, shape.region))
    && (c.requireOnDemand ==> shape.supportsOnDemand)
    && (!c.allowSpot && shape.supportsSpot ==> shape.supportsOnDemand)
    && (shape.onDemandHourlyUSD > 0.0 || shape.spotHourlyUSD > 0.0)
    && shape.availabilityHint != NoQuota && shape.availabilityHint != Unavailable
  }

  ghost predicate WithinBudget(cost: real, budget: real) {
    budget > 0.0 ==> cost <= budget
  }

  function CheckpointScheme(uri: string, schemeOf: string -> string): string {
    if schemeOf(uri) != "" then Lower(schemeOf(uri)) else "file"
  }

  function DataReasons(data: seq<DataInput>, caps: Capabilities, schemeOf: string -> string): seq<Reason> {
    if data == [] then [] else InputReasons(data[0], caps, schemeOf) + DataReasons(data[1..], caps, schemeOf)
  }

  function InputReasons(input: DataInput, caps: Capabilities, schemeOf: string -> string): seq<Reason> {
    match input
    case BundleInput(name) => If(!caps.supportsDataBundle, NoBundle(name))
    case UriInput(name, source) =>
      var scheme := Lower(schemeOf(source));
      If(scheme == "" || !ContainsLower(caps.uriSchemes, scheme), NoUriScheme(scheme, name))
  }

  /** `scheme` is one of `schemes` in lower case. */
  predicate ContainsLower(schemes: seq<string>, scheme: string) {
    exists i :: 0 <= i < |schemes| && Lower(schemes[i]) == scheme
  }

  predicate SupportsCheckpoint(caps: Capabilities, resumeFrom: Option<CheckpointRef>, schemeOf: string -> string) {
    resumeFrom.Some? ==> ContainsFold(caps.checkpointSchemes, CheckpointScheme(resumeFrom.value.uri, schemeOf))
  }

  function CapabilityReasons(data: seq<DataInput>, caps: Capabilities, resumeFrom: Option<CheckpointRef>,
                             schemeOf: string -> string): seq<Reason> {
    DataReasons(data, caps, schemeOf)
    + if SupportsCheckpoint(caps, resumeFrom, schemeOf) then []
      else [NoCheckpointScheme(CheckpointScheme(resumeFrom.value.uri, schemeOf))]
  }

  method SupportedSchemes(caps: Capabilities) returns (supported: set<string>)
    ensures forall s :: s in supported <==> ContainsLower(caps.uriSchemes, s)
  {
    supported := {};
    for i := 0 to |caps.uriSchemes|
      invariant forall s :: s in supported <==> exists k :: 0 <= k < i && Lower(caps.uriSchemes[k]) == s
    {
      supported := supported + {Lower(caps.uriSchemes[i])};
    }
  }

  method InputRejections(input: DataInput, caps: Capabilities, supported: set<string>, schemeOf: string -> string)
    returns (reasons: seq<Reason>)
    requires forall s :: s in supported <==> ContainsLower(caps.uriSchemes, s)
    ensures reasons == InputReasons(input, caps, schemeOf)
  {
    reasons := [];
    match input {
      case BundleInput(name) =>
        if !caps.supportsDataBundle {
          reasons := reasons + [NoBundle(name)];
        }
      case UriInput(name, source) =>
        var scheme := Lower(schemeOf(source));
        if scheme == "" || scheme !in supported {
          reasons := reasons + [NoUriScheme(scheme, name)];
        }
    }
  }

  lemma {:induction false} DataReasonsAppend(data: seq<DataInput>, i: nat, caps: Capabilities, schemeOf: string -> string)
    requires i < |data|
    ensures DataReasons(data[..i + 1], caps, schemeOf)
         == DataReasons(data[..i], caps, schemeOf) + InputReasons(data[i], caps, schemeOf)
    decreases i
  {
    if i > 0 {
      DataReasonsAppend(data[1..], i - 1, caps, schemeOf);
      assert data[..i + 1][1..] == data[1..][..i] && data[..i][1..] == data[1..][..i - 1];
    } else {
      assert data[..1][1..] == [];
    }
  }

  method CapabilityRejections(data: seq<DataInput>, caps: Capabilities, resumeFrom: Option<CheckpointRef>,
                              schemeOf: string -> string)
    returns (reasons: seq<Reason>)
    ensures reasons == CapabilityReasons(data, caps, resumeFrom, schemeOf)
  {
    var supported := SupportedSchemes(caps);
    reasons := [];
    for i := 0 to |data|
      invariant reasons == DataReasons(data[..i], caps, schemeOf)
    {
      var more := InputRejections(data[i], caps, supported, schemeOf);
      DataReasonsAppend(data, i, caps, schemeOf);
      reasons := reasons + more;
    }
    assert data[..|data|] == data;
    if resumeFrom.Some? {
      var scheme := CheckpointScheme(resumeFrom.value.uri, schemeOf);
      if !ContainsFold(caps.checkpointSchemes, scheme) {
        reasons := reasons + [NoCheckpointScheme(scheme)];
      }
    }
  }

  // ---------- Assessing the shapes ----------

  function Named(shape: Shape, provider: string): Shape {
    if shape.provider == "" then shape.(provider := provider) else shape
  }

  function Assess(p: ProviderCandidate, shape: Shape, requiredVRAM: real, opts: Options): Assessed {
    var s := Named(shape, p.provider);
    var runtime := EstimateRuntimeSeconds(s, opts.sizing);
    var cost := EstimateTotalCostUSD(s, p.score, runtime);
    Assessed(p.provider, s, runtime, cost,
             HardwareRejections(s, requiredVRAM, opts.hardware)
             + If(opts.budgetMaxRunCostUSD > 0.0 && cost > opts.budgetMaxRunCostUSD, OverBudget))
  }

  /** The shapes of one provider, assessed in order. */
  function AssessShapes(p: ProviderCandidate, shapes: seq<Shape>, requiredVRAM: real, opts: Options): (cs: seq<Assessed>)
    ensures |cs| == |shapes|
    ensures forall i :: 0 <= i < |shapes| ==> cs[i] == Assess(p, shapes[i], requiredVRAM, opts)
  {
    seq(|shapes|, i requires 0 <= i < |shapes| => Assess(p, shapes[i], requiredVRAM, opts))
  }

  /** All shapes of all providers, assessed in order. */
  function AssessAll(providers: seq<ProviderCandidate>, requiredVRAM: real, opts: Options): seq<Assessed> {
    if providers == [] then []
    else
      AssessShapes(providers[0], providers[0].capabilities.shapes, requiredVRAM, opts)
      + AssessAll(providers[1..], requiredVRAM, opts)
  }

  function Accepted(cs: seq<Assessed>): seq<Assessed> {
    if cs == [] then [] else (if cs[0].reasons == [] then [cs[0]] else []) + Accepted(cs[1..])
  }

  function Refused(cs: seq<Assessed>): seq<RejectedShape> {
    if cs == [] then []
    else
      (if cs[0].reasons != [] then [RejectedShape(cs[0].provider, cs[0].shape.id, cs[0].reasons)] else [])
      + Refused(cs[1..])
  }

  lemma {:induction false} SplitAccepted(a: seq<Assessed>, b: seq<Assessed>)
    ensures Accepted(a + b) == Accepted(a) + Accepted(b)
  {
    if a == [] {
      assert a + b == b;
    } else {
      assert (a + b)[1..] == a[1..] + b && (a + b)[0] == a[0];
      SplitAccepted(a[1..], b);
      var first := if a[0].reasons == [] then [a[0]] else [];
      assert first + (Accepted(a[1..]) + Accepted(b)) == first + Accepted(a[1..]) + Accepted(b);
    }
  }

  lemma {:induction false} SplitRefused(a: seq<Assessed>, b: seq<Assessed>)
    ensures Refused(a + b) == Refused(a) + Refused(b)
  {
    if a == [] {
      assert a + b == b;
    } else {
      assert (a + b)[1..] == a[1..] + b && (a + b)[0] == a[0];
      SplitRefused(a[1..], b);
      var first := if a[0].reasons != [] then [RejectedShape(a[0].provider, a[0].shape.id, a[0].reasons)] else [];
      assert first + (Refused(a[1..]) + Refused(b)) == first + Refused(a[1..]) + Refused(b);
    }
  }

  lemma SplitCandidates(a: seq<Assessed>, b: seq<Assessed>)
    ensures Accepted(a + b) == Accepted(a) + Accepted(b) && Refused(a + b) == Refused(a) + Refused(b)
  {
    SplitAccepted(a, b);
    SplitRefused(a, b);
  }

  // ---------- Ordering ----------

  predicate HardwareLess(objective: string, a: Assessed, b: Assessed) {
    if objective == FASTEST && a.runtimeSeconds != b.runtimeSeconds then a.runtimeSeconds < b.runtimeSeconds
    else if a.totalCostUSD != b.totalCostUSD then a.totalCostUSD < b.totalCostUSD
    else if a.provider != b.provider then Less(a.provider, b.provider)
    else Less(a.shape.id, b.shape.id)
  }

  function HardwareOrder(objective: string): (Assessed, Assessed) -> bool {
    (a, b) => HardwareLess(objective, a, b)
  }

  predicate ProviderLess(objective: string, a: ProviderCandidate, b: ProviderCandidate) {
    if objective == MIN_COST then a.score < b.score else Less(a.provider, b.provider)
  }

  function ProviderOrder(objective: string): (ProviderCandidate, ProviderCandidate) -> bool {
    (a, b) => ProviderLess(objective, a, b)
  }

  lemma HardwareOrderIsWeak(objective: string)
    ensures Sorting.StrictWeakOrder(HardwareOrder(objective))
  {
    LessIsStrictTotal();
    var less := HardwareOrder(objective);
    forall x, y, z | less(x, y) && less(y, z) ensures less(x, z) { }
    forall x, y, z | !less(x, y) && !less(y, z) ensures !less(x, z) { }
  }

  lemma ProviderOrderIsWeak(objective: string)
    ensures Sorting.StrictWeakOrder(ProviderOrder(objective))
  {
    LessIsStrictTotal();
  }

  // ---------- Hardware routes ----------

  lemma {:induction false} AcceptedOne(c: Assessed)
    ensures Accepted([c]) == if c.reasons == [] then [c] else []
    ensures Refused([c]) == if c.reasons != [] then [RejectedShape(c.provider, c.shape.id, c.reasons)] else []
  {
  }

  lemma {:induction false} SplitLast(cs: seq<Assessed>, i: nat)
    requires i < |cs|
    ensures Accepted(cs[..i + 1]) == Accepted(cs[..i]) + (if cs[i].reasons == [] then [cs[i]] else [])
    ensures Refused(cs[..i + 1])
         == Refused(cs[..i])
            + (if cs[i].reasons != [] then [RejectedShape(cs[i].provider, cs[i].shape.id, cs[i].reasons)] else [])
  {
    SplitCandidates(cs[..i], [cs[i]]);
    assert cs[..i + 1] == cs[..i] + [cs[i]];
    AcceptedOne(cs[i]);
  }

  method AssessProvider(p: ProviderCandidate, requiredVRAM: real, opts: Options)
    returns (eligible: seq<Assessed>, rejected: seq<RejectedShape>)
    ensures eligible == Accepted(AssessShapes(p, p.capabilities.shapes, requiredVRAM, opts))
    ensures rejected == Refused(AssessShapes(p, p.capabilities.shapes, requiredVRAM, opts))
  {
    eligible, rejected := [], [];
    var shapes := p.capabilities.shapes;
    ghost var cs := AssessShapes(p, shapes, requiredVRAM, opts);
    for i := 0 to |shapes|
      invariant eligible == Accepted(cs[..i]) && rejected == Refused(cs[..i])
    {
      var c := Assess(p, shapes[i], requiredVRAM, opts);
      assert c == cs[i];
      SplitLast(cs, i);
      if |c.reasons| > 0 {
        rejected := rejected + [RejectedShape(c.provider, c.shape.id, c.reasons)];
        continue;
      }
      eligible := eligible + [c];
    }
    assert cs[..|shapes|] == cs;
  }

  lemma {:induction false} AssessAllAppend(providers: seq<ProviderCandidate>, i: nat, requiredVRAM: real, opts: Options)
    requires i < |providers|
    ensures AssessAll(providers[..i + 1], requiredVRAM, opts)
         == AssessAll(providers[..i], requiredVRAM, opts)
            + AssessShapes(providers[i], providers[i].capabilities.shapes, requiredVRAM, opts)
    decreases i
  {
    if i > 0 {
      AssessAllAppend(providers[1..], i - 1, requiredVRAM, opts);
      assert providers[..i + 1][1..] == providers[1..][..i] && providers[..i][1..] == providers[1..][..i - 1];
    } else {
      assert providers[..1][1..] == [];
    }
  }

  /** The nested loops of a hardware route. */
  method AssessProviders(providers: seq<ProviderCandidate>, requiredVRAM: real, opts: Options)
    returns (eligible: seq<Assessed>, rejected: seq<RejectedShape>)
    ensures eligible == Accepted(AssessAll(providers, requiredVRAM, opts))
    ensures rejected == Refused(AssessAll(providers, requiredVRAM, opts))
  {
    eligible, rejected := [], [];
    for i := 0 to |providers|
      invariant eligible == Accepted(AssessAll(providers[..i], requiredVRAM, opts))
      invariant rejected == Refused(AssessAll(providers[..i], requiredVRAM, opts))
    {
      var more, refused := AssessProvider(providers[i], requiredVRAM, opts);
      AssessAllAppend(providers, i, requiredVRAM, opts);
      SplitCandidates(AssessAll(providers[..i], requiredVRAM, opts),
                      AssessShapes(providers[i], providers[i].capabilities.shapes, requiredVRAM, opts));
      eligible, rejected := eligible + more, rejected + refused;
    }
    assert providers[..|providers|] == providers;
  }

  /** The required memory a route is assessed with: without any hint, `full_auto` has none and the
      other modes fall back to the per-GPU constraint. */
  function RouteVRAM(opts: Options): Option<(real, string)> {
    var e := EstimateRequiredVRAM(opts);
    if e.Some? then e
    else if opts.mode == "full_auto" then None
    else Some((opts.hardware.minVRAMGBPerGPU as real, "constraint"))
  }

  /** Every shape of every provider, assessed for the route. */
  function RouteCandidates(providers: seq<ProviderCandidate>, opts: Options): seq<Assessed>
    requires RouteVRAM(opts).Some?
  {
    AssessAll(providers, RouteVRAM(opts).value.0, opts)
  }

  /** The accepted shape the route selects. */
  function Best(objective: string, providers: seq<ProviderCandidate>, opts: Options): Assessed
    requires RouteVRAM(opts).Some? && Accepted(RouteCandidates(providers, opts)) != []
  {
    Sorting.FirstLeast(HardwareOrder(objective), Accepted(RouteCandidates(providers, opts)))
  }

  ghost predicate BestHardware(d: Decision, objective: string, providers: seq<ProviderCandidate>, opts: Options) {
    && RouteVRAM(opts).Some? && Accepted(RouteCandidates(providers, opts)) != []
    && var best := Best(objective, providers, opts);
       && d.selectedProvider == best.provider
       && d.selectedHardware == Some(HardwareSelection(best.provider, best.shape))
       && d.runtimeSeconds == Some(best.runtimeSeconds)
       && d.totalCostUSD == Some(best.totalCostUSD)
  }

  method SelectHardwareRoute(objective: string, providers: seq<ProviderCandidate>, rejectedProviders: seq<Rejected>, opts: Options)
    returns (d: Decision, err: Option<RouteError>)
    requires opts.mode != "manual"
    ensures d.eligible == providers && d.rejected == rejectedProviders
    ensures err.None? || err == Some(NoSizing) || err == Some(NoEligibleHardware)
    ensures err == Some(NoSizing) <==> RouteVRAM(opts).None?
    ensures RouteVRAM(opts).Some? ==> d.rejectedHardware == Refused(RouteCandidates(providers, opts))
    ensures RouteVRAM(opts).Some? ==>
              d.eligibleHardware == Sorting.StableSort(HardwareOrder(objective), Accepted(RouteCandidates(providers, opts)))
    ensures RouteVRAM(opts).Some? ==> (err == Some(NoEligibleHardware) <==> Accepted(RouteCandidates(providers, opts)) == [])
    ensures err.None? ==> BestHardware(d, objective, providers, opts)
    ensures err.Some? ==> d.selectedHardware.None?
  {
    var estimate := EstimateRequiredVRAM(opts);
    if estimate.None? && opts.mode == "full_auto" {
      return Decision("", None, providers, rejectedProviders, [], [], None, None, "low"), Some(NoSizing);
    }
    var requiredVRAM, confidence := opts.hardware.minVRAMGBPerGPU as real, "constraint";
    if estimate.Some? {
      requiredVRAM, confidence := estimate.value.0, estimate.value.1;
    }
    var eligible, rejected := AssessProviders(providers, requiredVRAM, opts);
    var sorted := Sorting.StableSort(HardwareOrder(objective), eligible);
    if |eligible| == 0 {
      return Decision("", None, providers, rejectedProviders, sorted, rejected, None, None, confidence), Some(NoEligibleHardware);
    }
    Sorting.SortedHead(HardwareOrder(objective), eligible);
    var best := sorted[0];
    return Decision(best.provider, Some(HardwareSelection(best.provider, best.shape)), providers, rejectedProviders, sorted,
                    rejected, Some(best.runtimeSeconds), Some(best.totalCostUSD), confidence), None;
  }

  // ---------- Manual hardware ----------

  predicate ManualProviderMatches(p: ProviderCandidate, m: Manual) {
    m.provider == "" || p.provider == m.provider
  }

  predicate ManualShapeMatches(shape: Shape, m: Manual) {
    && (m.shapeID == "" || shape.id == m.shapeID)
    && (m.machineType == "" || shape.machineType == m.machineType)
    && (m.region == "" || shape.region == m.region)
  }

  ghost predicate ManualMatch(providers: seq<ProviderCandidate>, m: Manual, i: int, j: int) {
    && 0 <= i < |providers| && 0 <= j < |providers[i].capabilities.shapes|
    && ManualProviderMatches(providers[i], m) && ManualShapeMatches(providers[i].capabilities.shapes[j], m)
  }

  /** Shape `j` of provider `i` is the manual choice: it matches, and nothing before it does. */
  ghost predicate FirstManualMatch(providers: seq<ProviderCandidate>, m: Manual, i: int, j: int) {
    && ManualMatch(providers, m, i, j)
    && (forall j' :: 0 <= j' < j ==> !ManualMatch(providers, m, i, j'))
    && (forall i', j' :: 0 <= i' < i ==> !ManualMatch(providers, m, i', j'))
  }

  ghost predicate Selects(d: Decision, providers: seq<ProviderCandidate>, i: int, j: int)
    requires 0 <= i < |providers| && 0 <= j < |providers[i].capabilities.shapes|
  {
    && d.selectedProvider == providers[i].provider
    && d.selectedHardware == Some(HardwareSelection(providers[i].provider, providers[i].capabilities.shapes[j]))
  }

  method SelectManualHardware(providers: seq<ProviderCandidate>, rejectedProviders: seq<Rejected>, opts: Options)
    returns (d: Decision, err: Option<RouteError>)
    ensures d.eligible == providers && d.rejected == rejectedProviders
    ensures err.None? ==> exists i, j :: FirstManualMatch(providers, opts.manual, i, j) && Selects(d, providers, i, j)
    ensures err.Some? ==> err == Some(NoManualMatch) && d.selectedHardware.None?
    ensures err.Some? ==> forall i, j :: !ManualMatch(providers, opts.manual, i, j)
  {
    var m := opts.manual;
    var rejected: seq<RejectedShape> := [];
    for i := 0 to |providers|
      invariant forall i', j' :: 0 <= i' < i ==> !ManualMatch(providers, m, i', j')
    {
      var p := providers[i];
      if m.provider != "" && p.provider != m.provider {
        continue;
      }
      for j := 0 to |p.capabilities.shapes|
        invariant forall j' :: 0 <= j' < j ==> !ManualMatch(providers, m, i, j')
      {
        var shape := Named(p.capabilities.shapes[j], p.provider);
        if m.shapeID != "" && shape.id != m.shapeID {
          rejected := rejected + [RejectedShape(p.provider, shape.id, [ShapeMismatch])];
          continue;
        }
        if m.machineType != "" && shape.machineType != m.machineType {
          rejected := rejected + [RejectedShape(p.provider, shape.id, [MachineTypeMismatch])];
          continue;
        }
        if m.region != "" && shape.region != m.region {
          rejected := rejected + [RejectedShape(p.provider, shape.id, [RegionMismatch])];
          continue;
        }
        var runtime := EstimateRuntimeSeconds(shape, opts.sizing);
        var cost := EstimateTotalCostUSD(shape, p.score, runtime);
        assert FirstManualMatch(providers, m, i, j);
        return Decision(p.provider, Some(HardwareSelection(p.provider, shape)), providers, rejectedProviders, [], rejected,
                        Some(runtime), Some(cost), "manual"), None;
      }
    }
    return Decision("", None, providers, rejectedProviders, [], rejected, None, None, "manual"), Some(NoManualMatch);
  }

  // ---------- Select ----------

  predicate HardwareRoutingEnabled(opts: Options) {
    opts.mode == "full_auto" || opts.mode == "auto_provider" || opts.mode == "manual" || opts.objective == FASTEST
  }

  /** A registered provider as a candidate for the job, or what speaks against it. */
  function Considered(name: string, a: Adapter, data: seq<DataInput>, opts: Options, schemeOf: string -> string)
    : Result<ProviderCandidate, seq<Reason>>
  {
    if name in opts.exclude then Err([Excluded])
    else if a.capabilities.Err? then Err([Reported(a.capabilities.error)])
    else
      var reasons := CapabilityReasons(data, a.capabilities.value, opts.resumeFrom, schemeOf);
      if reasons != [] then Err(reasons)
      else if !a.support.supported then Err(ReportedAll(a.support.reasons))
      else if a.estimate.Err? then Err([Reported(a.estimate.error)])
      else Ok(ProviderCandidate(name, a.estimate.value, a.capabilities.value))
  }

  function ReportedAll(texts: seq<string>): seq<Reason> {
    seq(|texts|, i requires 0 <= i < |texts| => Reported(texts[i]))
  }

  method Consider(name: string, a: Adapter, data: seq<DataInput>, opts: Options, schemeOf: string -> string)
    returns (r: Result<ProviderCandidate, seq<Reason>>)
    ensures r == Considered(name, a, data, opts, schemeOf)
  {
    if name in opts.exclude {
      return Err([Excluded]);
    }
    if a.capabilities.Err? {
      return Err([Reported(a.capabilities.error)]);
    }
    var reasons := CapabilityRejections(data, a.capabilities.value, opts.resumeFrom, schemeOf);
    if |reasons| > 0 {
      return Err(reasons);
    }
    if !a.support.supported {
      return Err(ReportedAll(a.support.reasons));
    }
    if a.estimate.Err? {
      return Err([Reported(a.estimate.error)]);
    }
    return Ok(ProviderCandidate(name, a.estimate.value, a.capabilities.value));
  }

  /** The provider takes data bundles, or reads URIs of the scheme that the input has. */
  ghost predicate CanRead(input: DataInput, caps: Capabilities, schemeOf: string -> string) {
    match input
    case BundleInput(_) => caps.supportsDataBundle
    case UriInput(_, source) => schemeOf(source) != "" && Lists(caps.uriSchemes, schemeOf(source))
  }

  /** The provider reads checkpoints of the scheme the URI has; one without a scheme is a file. */
  ghost predicate CanResume(uri: string, caps: Capabilities, schemeOf: string -> string) {
    Lists(caps.checkpointSchemes, if schemeOf(uri) == "" then "file" else schemeOf(uri))
  }

  lemma CanReadExactly(input: DataInput, caps: Capabilities, schemeOf: string -> string)
    ensures InputReasons(input, caps, schemeOf) == [] <==> CanRead(input, caps, schemeOf)
  {
  }

  lemma CanResumeExactly(caps: Capabilities, resumeFrom: Option<CheckpointRef>, schemeOf: string -> string)
    ensures SupportsCheckpoint(caps, resumeFrom, schemeOf) <==> (resumeFrom.Some? ==> CanResume(resumeFrom.value.uri, caps, schemeOf))
  {
    if resumeFrom.Some? {
      LowerTwice(schemeOf(resumeFrom.value.uri));
    }
  }

  /** What it takes to be a candidate, which then has its own name, rate and capabilities. */
  lemma CandidateExactly(name: string, a: Adapter, data: seq<DataInput>, opts: Options, schemeOf: string -> string)
    ensures Considered(name, a, data, opts, schemeOf).Ok? <==>
              && name !in opts.exclude && a.capabilities.Ok? && a.support.supported && a.estimate.Ok?
              && (forall input :: input in data ==> CanRead(input, a.capabilities.value, schemeOf))
              && (opts.resumeFrom.Some? ==> CanResume(opts.resumeFrom.value.uri, a.capabilities.value, schemeOf))
    ensures Considered(name, a, data, opts, schemeOf).Ok? ==>
              Considered(name, a, data, opts, schemeOf).value == ProviderCandidate(name, a.estimate.value, a.capabilities.value)
  {
    if a.capabilities.Ok? {
      var caps := a.capabilities.value;
      NoDataReasons(data, caps, schemeOf);
      CanResumeExactly(caps, opts.resumeFrom, schemeOf);
      forall input ensures InputReasons(input, caps, schemeOf) == [] <==> CanRead(input, caps, schemeOf) {
        CanReadExactly(input, caps, schemeOf);
      }
    }
  }

  lemma {:induction false} NoDataReasons(data: seq<DataInput>, caps: Capabilities, schemeOf: string -> string)
    ensures DataReasons(data, caps, schemeOf) == [] <==> forall input :: input in data ==> InputReasons(input, caps, schemeOf) == []
  {
    if data != [] {
      NoDataReasons(data[1..], caps, schemeOf);
      assert forall input :: input in data <==> input == data[0] || input in data[1..];
    }
  }

  /** `p` is the candidate of a registered provider. */
  ghost predicate IsCandidate(p: ProviderCandidate, registry: map<string, Adapter>, data: seq<DataInput>, opts: Options,
                              schemeOf: string -> string) {
    p.provider in registry && Considered(p.provider, registry[p.provider], data, opts, schemeOf) == Ok(p)
  }

  /** The candidates are those of the registered providers, in name order. */
  ghost predicate EligibleList(providers: seq<ProviderCandidate>, registry: map<string, Adapter>, data: seq<DataInput>,
                               opts: Options, schemeOf: string -> string) {
    (forall p :: p in providers <==> IsCandidate(p, registry, data, opts, schemeOf)) && ByName(providers)
  }

  ghost predicate ByName(providers: seq<ProviderCandidate>) {
    forall i, j :: 0 <= i < j < |providers| ==> Less(providers[i].provider, providers[j].provider)
  }

  ghost predicate RejectedByName(rejected: seq<Rejected>) {
    forall i, j :: 0 <= i < j < |rejected| ==> Less(rejected[i].provider, rejected[j].provider)
  }

  /** The rejections are those of the other registered providers, each with its reasons, in name order. */
  ghost predicate RejectedList(rejected: seq<Rejected>, registry: map<string, Adapter>, data: seq<DataInput>,
                               opts: Options, schemeOf: string -> string) {
    (forall r :: r in rejected <==> RejectedFor(r, registry, data, opts, schemeOf)) && RejectedByName(rejected)
  }

  ghost predicate RejectedFor(r: Rejected, registry: map<string, Adapter>, data: seq<DataInput>, opts: Options,
                              schemeOf: string -> string) {
    r.provider in registry && Considered(r.provider, registry[r.provider], data, opts, schemeOf) == Err(r.reasons)
  }

  method EligibleProviders(registry: map<string, Adapter>, data: seq<DataInput>, opts: Options, schemeOf: string -> string)
    returns (eligible: seq<ProviderCandidate>, rejected: seq<Rejected>)
    ensures EligibleList(eligible, registry, data, opts, schemeOf)
    ensures RejectedList(rejected, registry, data, opts, schemeOf)
    ensures |eligible| + |rejected| == |registry|
  {
    eligible, rejected := [], [];
    var names := Registry.List(registry.Keys);
    for i := 0 to |names|
      invariant Partitioned(eligible, rejected, names[..i], registry, data, opts, schemeOf)
    {
      var name := names[i];
      assert name in names;
      PartitionStep(eligible, rejected, names, i, registry, data, opts, schemeOf);
      var considered := Consider(name, registry[name], data, opts, schemeOf);
      if considered.Err? {
        rejected := rejected + [Rejected(name, considered.error)];
        continue;
      }
      eligible := eligible + [considered.value];
    }
    assert names[..|names|] == names;
    PartitionedAll(eligible, rejected, names, registry, data, opts, schemeOf);
  }

  /** The names so far, each on one side, both sides in name order. */
  ghost predicate Partitioned(eligible: seq<ProviderCandidate>, rejected: seq<Rejected>, names: seq<string>,
                              registry: map<string, Adapter>, data: seq<DataInput>, opts: Options, schemeOf: string -> string) {
    && |eligible| + |rejected| == |names|
    && Listed(eligible, names, registry, data, opts, schemeOf) && ByName(eligible)
    && ListedRejected(rejected, names, registry, data, opts, schemeOf) && RejectedByName(rejected)
  }

  lemma PartitionedAll(eligible: seq<ProviderCandidate>, rejected: seq<Rejected>, names: seq<string>,
                       registry: map<string, Adapter>, data: seq<DataInput>, opts: Options, schemeOf: string -> string)
    requires Partitioned(eligible, rejected, names, registry, data, opts, schemeOf)
    requires forall name :: name in names <==> name in registry
    ensures EligibleList(eligible, registry, data, opts, schemeOf)
    ensures RejectedList(rejected, registry, data, opts, schemeOf)
  {
  }

  lemma PartitionStep(eligible: seq<ProviderCandidate>, rejected: seq<Rejected>, names: seq<string>, i: nat,
                      registry: map<string, Adapter>, data: seq<DataInput>, opts: Options, schemeOf: string -> string)
    requires Registry.Ascending(names) && i < |names| && names[i] in registry
    requires Partitioned(eligible, rejected, names[..i], registry, data, opts, schemeOf)
    ensures var c := Considered(names[i], registry[names[i]], data, opts, schemeOf);
            if c.Err? then Partitioned(eligible, rejected + [Rejected(names[i], c.error)], names[..i + 1], registry, data, opts, schemeOf)
            else Partitioned(eligible + [c.value], rejected, names[..i + 1], registry, data, opts, schemeOf)
  {
    ListedStep(eligible, names, i, registry, data, opts, schemeOf);
    ListedRejectedStep(rejected, names, i, registry, data, opts, schemeOf);
    ListedBefore(eligible, names, i, registry, data, opts, schemeOf);
    RejectedBefore(rejected, names, i, registry, data, opts, schemeOf);
  }

  lemma ListedBefore(eligible: seq<ProviderCandidate>, names: seq<string>, i: nat, registry: map<string, Adapter>,
                     data: seq<DataInput>, opts: Options, schemeOf: string -> string)
    requires Registry.Ascending(names) && i < |names| && Listed(eligible, names[..i], registry, data, opts, schemeOf)
    ensures forall b :: 0 <= b < |eligible| ==> Less(eligible[b].provider, names[i])
  {
    BeforeInList(names, i);
    assert forall b :: 0 <= b < |eligible| ==> eligible[b] in eligible && eligible[b].provider in names[..i];
  }

  lemma RejectedBefore(rejected: seq<Rejected>, names: seq<string>, i: nat, registry: map<string, Adapter>,
                       data: seq<DataInput>, opts: Options, schemeOf: string -> string)
    requires Registry.Ascending(names) && i < |names| && ListedRejected(rejected, names[..i], registry, data, opts, schemeOf)
    ensures forall b :: 0 <= b < |rejected| ==> Less(rejected[b].provider, names[i])
  {
    BeforeInList(names, i);
    assert forall b :: 0 <= b < |rejected| ==> rejected[b] in rejected && rejected[b].provider in names[..i];
  }

  /** `rejected` holds the rejections among `names`. */
  ghost predicate ListedRejected(rejected: seq<Rejected>, names: seq<string>, registry: map<string, Adapter>,
                                 data: seq<DataInput>, opts: Options, schemeOf: string -> string) {
    forall r :: r in rejected <==> r.provider in names && RejectedFor(r, registry, data, opts, schemeOf)
  }

  lemma {:induction false} ListedRejectedStep(rejected: seq<Rejected>, names: seq<string>, i: nat, registry: map<string, Adapter>,
                                              data: seq<DataInput>, opts: Options, schemeOf: string -> string)
    requires i < |names| && names[i] in registry
    requires ListedRejected(rejected, names[..i], registry, data, opts, schemeOf)
    ensures var c := Considered(names[i], registry[names[i]], data, opts, schemeOf);
            ListedRejected(if c.Err? then rejected + [Rejected(names[i], c.error)] else rejected, names[..i + 1], registry, data, opts,
                           schemeOf)
  {
    assert names[..i + 1] == names[..i] + [names[i]];
    var c := Considered(names[i], registry[names[i]], data, opts, schemeOf);
    var next := if c.Err? then rejected + [Rejected(names[i], c.error)] else rejected;
    forall r ensures r in next <==> r.provider in names[..i + 1] && RejectedFor(r, registry, data, opts, schemeOf) {
      assert r in next <==> r in rejected || (c.Err? && r == Rejected(names[i], c.error));
    }
  }

  /** `eligible` holds the candidates among `names`. */
  ghost predicate Listed(eligible: seq<ProviderCandidate>, names: seq<string>, registry: map<string, Adapter>,
                         data: seq<DataInput>, opts: Options, schemeOf: string -> string) {
    forall p :: p in eligible <==> p.provider in names && IsCandidate(p, registry, data, opts, schemeOf)
  }

  lemma {:induction false} ListedStep(eligible: seq<ProviderCandidate>, names: seq<string>, i: nat, registry: map<string, Adapter>,
                                      data: seq<DataInput>, opts: Options, schemeOf: string -> string)
    requires i < |names| && names[i] in registry
    requires Listed(eligible, names[..i], registry, data, opts, schemeOf)
    ensures var c := Considered(names[i], registry[names[i]], data, opts, schemeOf);
            Listed(if c.Ok? then eligible + [c.value] else eligible, names[..i + 1], registry, data, opts, schemeOf)
  {
    assert names[..i + 1] == names[..i] + [names[i]];
    var c := Considered(names[i], registry[names[i]], data, opts, schemeOf);
    assert c.Ok? ==> c.value.provider == names[i];
    var next := if c.Ok? then eligible + [c.value] else eligible;
    forall p ensures p in next <==> p.provider in names[..i + 1] && IsCandidate(p, registry, data, opts, schemeOf) {
      assert p in next <==> p in eligible || c == Ok(p);
    }
  }

  lemma {:induction false} BeforeInList(names: seq<string>, i: nat)
    requires Registry.Ascending(names) && i < |names|
    ensures forall name :: name in names[..i] ==> Less(name, names[i])
  {
  }

  /** Provider `i` is the choice without hardware: the cheapest for the cost objective, the first name
      among equals, and the first name for any other objective. */
  ghost predicate LeastProvider(objective: string, providers: seq<ProviderCandidate>, i: int) {
    && 0 <= i < |providers|
    && (if objective == "min_cost" then
          && (forall j :: 0 <= j < |providers| ==> providers[i].score <= providers[j].score)
          && (forall j :: 0 <= j < i ==> providers[i].score < providers[j].score)
        else i == 0)
  }

  lemma SortedProvidersStartWithLeast(objective: string, providers: seq<ProviderCandidate>)
    requires providers != [] && ByName(providers)
    ensures var sorted := Sorting.StableSort(ProviderOrder(objective), providers);
            sorted != [] && exists i :: LeastProvider(objective, providers, i) && sorted[0] == providers[i]
  {
    var less := ProviderOrder(objective);
    ProviderOrderIsWeak(objective);
    Sorting.SortedHead(less, providers);
    var i := Sorting.FirstLeastAt(less, providers);
    if objective == MIN_COST {
      assert forall j :: 0 <= j < |providers| ==> !less(providers[j], providers[i]);
      assert forall j :: 0 <= j < i ==> less(providers[i], providers[j]);
    } else {
      assert !less(providers[0], providers[i]);
    }
    assert LeastProvider(objective, providers, i);
  }

  /** When a route fails: there is no candidate, no shape matches the manual choice, or hardware routing
      has no sizing or no acceptable shape. */
  ghost predicate RouteFails(providers: seq<ProviderCandidate>, opts: Options) {
    || providers == []
    || (HardwareRoutingEnabled(opts) && opts.mode == "manual" && forall i, j :: !ManualMatch(providers, opts.manual, i, j))
    || (HardwareRoutingEnabled(opts) && opts.mode != "manual"
        && (RouteVRAM(opts).None? || Accepted(RouteCandidates(providers, opts)) == []))
  }

  /** What a route that does not fail selects. */
  ghost predicate RoutesTo(providers: seq<ProviderCandidate>, opts: Options, provider: string, hardware: Option<Selection>) {
    if !HardwareRoutingEnabled(opts) then
      hardware.None? && exists i :: LeastProvider(Objective(opts), providers, i) && provider == providers[i].provider
    else if opts.mode == "manual" then
      exists i, j :: FirstManualMatch(providers, opts.manual, i, j) && provider == providers[i].provider
                     && hardware == Some(HardwareSelection(provider, providers[i].capabilities.shapes[j]))
    else
      && RouteVRAM(opts).Some? && Accepted(RouteCandidates(providers, opts)) != []
      && var best := Best(Objective(opts), providers, opts);
         provider == best.provider && hardware == Some(HardwareSelection(best.provider, best.shape))
  }

  /** `candidates` are the providers the route chose from, in name order; without hardware routing the
      decision lists them sorted. */
  method Select(registry: map<string, Adapter>, data: seq<DataInput>, opts: Options, schemeOf: string -> string)
    returns (d: Decision, err: Option<RouteError>, ghost candidates: seq<ProviderCandidate>)
    ensures EligibleList(candidates, registry, data, opts, schemeOf)
    ensures RejectedList(d.rejected, registry, data, opts, schemeOf)
    ensures d.eligible == if HardwareRoutingEnabled(opts) then candidates
                          else Sorting.StableSort(ProviderOrder(Objective(opts)), candidates)
    ensures err.Some? <==> RouteFails(candidates, opts)
    ensures err == Some(NoEligibleProviders) <==> candidates == []
    ensures err.None? ==> RoutesTo(candidates, opts, d.selectedProvider, d.selectedHardware)
    ensures err.None? ==> exists p :: p in candidates && p.provider == d.selectedProvider
    ensures err.Some? ==> d.selectedHardware.None?
  {
    var objective := Objective(opts);
    var eligible, rejected := EligibleProviders(registry, data, opts, schemeOf);
    candidates := eligible;
    if |eligible| == 0 {
      return Decision("", None, eligible, rejected, [], [], None, None, ""), Some(NoEligibleProviders), candidates;
    }
    if HardwareRoutingEnabled(opts) {
      if opts.mode == "manual" {
        d, err := SelectManualHardware(eligible, rejected, opts);
        if err.None? {
          ghost var i, j :| FirstManualMatch(eligible, opts.manual, i, j) && Selects(d, eligible, i, j);
          assert eligible[i] in candidates;
        }
      } else {
        d, err := SelectHardwareRoute(objective, eligible, rejected, opts);
        if err.None? {
          AcceptedFromProvider(eligible, RouteVRAM(opts).value.0, opts, Best(objective, eligible, opts));
        }
      }
      return;
    }
    var sorted := Sorting.StableSort(ProviderOrder(objective), eligible);
    SortedProvidersStartWithLeast(objective, eligible);
    ghost var i :| LeastProvider(objective, eligible, i) && sorted[0] == eligible[i];
    assert eligible[i] in candidates;
    return Decision(sorted[0].provider, None, sorted, rejected, [], [], None, None, ""), None, candidates;
  }

  function Objective(opts: Options): string {
    if opts.objective == "" then MIN_COST else opts.objective
  }

  lemma {:induction false} AcceptedIn(cs: seq<Assessed>, c: Assessed)
    ensures c in Accepted(cs) <==> c in cs && c.reasons == []
  {
    if cs != [] {
      AcceptedIn(cs[1..], c);
      assert c in cs <==> c == cs[0] || c in cs[1..];
    }
  }

  /** Every assessed shape is a shape of one of the providers. */
  lemma {:induction false} AssessedFrom(providers: seq<ProviderCandidate>, requiredVRAM: real, opts: Options, c: Assessed)
    requires c in AssessAll(providers, requiredVRAM, opts)
    ensures exists p, shape :: p in providers && shape in p.capabilities.shapes && c == Assess(p, shape, requiredVRAM, opts)
  {
    var p := providers[0];
    var cs := AssessShapes(p, p.capabilities.shapes, requiredVRAM, opts);
    if c in cs {
      var i :| 0 <= i < |cs| && cs[i] == c;
      assert p in providers && p.capabilities.shapes[i] in p.capabilities.shapes;
    } else {
      AssessedFrom(providers[1..], requiredVRAM, opts, c);
    }
  }

  lemma AcceptedFromProvider(providers: seq<ProviderCandidate>, requiredVRAM: real, opts: Options, c: Assessed)
    requires c in Accepted(AssessAll(providers, requiredVRAM, opts))
    ensures exists p :: p in providers && p.provider == c.provider
  {
    AcceptedIn(AssessAll(providers, requiredVRAM, opts), c);
    AssessedFrom(providers, requiredVRAM, opts, c);
  }
}
