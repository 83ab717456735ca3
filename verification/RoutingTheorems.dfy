/** What the routes of internal/routing/routing.go promise: nothing is lost, the best accepted shape is
    selected, the budget only filters, and the reported price is the price used. */
module RoutingTheorems {
  import opened Wrappers
  import opened App
  import opened Strings
  import opened Routing
  import Sorting

  // ---------- Rejections and constraints ----------

  lemma {:induction false} NothingCollected(checks: seq<(bool, Reason)>)
    ensures Collect(checks) == [] <==> forall i :: 0 <= i < |checks| ==> !checks[i].0
  {
    if checks != [] {
      NothingCollected(checks[1..]);
      assert forall i :: 0 <= i < |checks| ==> i == 0 || checks[i] == checks[1..][i - 1];
    }
  }

  /** A shape is free of rejections exactly when it meets every hardware constraint. */
  lemma NoRejectionsExactly(shape: Shape, requiredVRAM: real, c: Constraints)
    ensures HardwareRejections(shape, requiredVRAM, c) == [] <==> MeetsConstraints(shape, requiredVRAM, c)
  {
    NoneOfTen(Checks(shape, requiredVRAM, c));
  }

  lemma NoneOfTen(checks: seq<(bool, Reason)>)
    requires |checks| == 10
    ensures Collect(checks) == [] <==>
              !checks[0].0 && !checks[1].0 && !checks[2].0 && !checks[3].0 && !checks[4].0
              && !checks[5].0 && !checks[6].0 && !checks[7].0 && !checks[8].0 && !checks[9].0
  {
    NothingCollected(checks);
  }

  lemma {:induction false} CollectedExactly(checks: seq<(bool, Reason)>, reason: Reason)
    ensures reason in Collect(checks) <==> (true, reason) in checks
  {
    if checks != [] {
      CollectedExactly(checks[1..], reason);
      assert (true, reason) in checks <==> checks[0] == (true, reason) || (true, reason) in checks[1..];
    }
  }

  lemma ReasonAt(shape: Shape, requiredVRAM: real, c: Constraints, k: nat)
    requires k < 10
    ensures var check := Checks(shape, requiredVRAM, c)[k]; check.1 in HardwareRejections(shape, requiredVRAM, c) <==> check.0
  {
    var checks := Checks(shape, requiredVRAM, c);
    CollectedExactly(checks, checks[k].1);
    if (true, checks[k].1) in checks {
      var i :| 0 <= i < 10 && checks[i] == (true, checks[k].1);
      OwnReasons(shape, requiredVRAM, c, i, k);
    }
  }

  lemma OwnReasons(shape: Shape, requiredVRAM: real, c: Constraints, i: nat, k: nat)
    requires i < 10 && k < 10 && Checks(shape, requiredVRAM, c)[i].1 == Checks(shape, requiredVRAM, c)[k].1
    ensures i == k
  {
  }

  /** Which reasons are given against a shape. */
  lemma ReasonsExactly(shape: Shape, requiredVRAM: real, c: Constraints)
    ensures var reasons := HardwareRejections(shape, requiredVRAM, c);
            && (MissingID in reasons <==> shape.id == "")
            && (TooLittleVRAM in reasons <==> 0.0 < requiredVRAM && shape.totalVRAMGB as real < requiredVRAM)
            && (TooManyGPUs in reasons <==> 0 < c.maxGPUs < shape.acceleratorCount)
            && (TooLittleVRAMPerGPU in reasons <==> 0 < c.minVRAMGBPerGPU && shape.vramGBPerGPU < c.minVRAMGBPerGPU)
            && (FamilyNotAllowed in reasons <==> c.allowedGPUFamilies != [] && !Lists(c.allowedGPUFamilies, shape.gpuFamily))
            && (RegionNotAllowed in reasons <==> c.regions != [] && !Lists(c.regions, shape.region))
            && (NoOnDemand in reasons <==> c.requireOnDemand && !shape.supportsOnDemand)
            && (SpotOnly in reasons <==> !c.allowSpot && shape.supportsSpot && !shape.supportsOnDemand)
            && (MissingPrice in reasons <==> shape.onDemandHourlyUSD <= 0.0 && shape.spotHourlyUSD <= 0.0)
            && (NotAvailable in reasons <==> shape.availabilityHint == NoQuota || shape.availabilityHint == Unavailable)
  {
    ReasonAt(shape, requiredVRAM, c, 0);
    ReasonAt(shape, requiredVRAM, c, 1);
    ReasonAt(shape, requiredVRAM, c, 2);
    ReasonAt(shape, requiredVRAM, c, 3);
    ReasonAt(shape, requiredVRAM, c, 4);
    ReasonAt(shape, requiredVRAM, c, 5);
    ReasonAt(shape, requiredVRAM, c, 6);
    ReasonAt(shape, requiredVRAM, c, 7);
    ReasonAt(shape, requiredVRAM, c, 8);
    ReasonAt(shape, requiredVRAM, c, 9);
  }

  /** Accepted means: all constraints met and within the budget. */
  lemma AcceptedExactly(p: ProviderCandidate, shape: Shape, requiredVRAM: real, opts: Options)
    ensures var c := Assess(p, shape, requiredVRAM, opts);
            c.reasons == [] <==>
              MeetsConstraints(c.shape, requiredVRAM, opts.hardware) && WithinBudget(c.totalCostUSD, opts.budgetMaxRunCostUSD)
  {
    NoRejectionsExactly(Named(shape, p.provider), requiredVRAM, opts.hardware);
  }

  // ---------- What a job needs ----------

  ghost predicate HasBytes(precision: string, bytes: real) {
    var p := Lower(precision);
    || (bytes == 4.0 && p in ["fp32", "float32"])
    || (bytes == 1.0 && p in ["int8", "8bit", "quantized"])
    || (bytes == 2.0 && p !in ["fp32", "float32", "int8", "8bit", "quantized"])
  }

  ghost predicate HasCopies(optimizer: string, copies: real) {
    var o := Lower(optimizer);
    (copies == 4.0 && o in ["adam", "adamw"]) || (copies == 2.0 && o == "sgd") || (copies == 3.0 && o !in ["adam", "adamw", "sgd"])
  }

  /** The job needs `gb` of memory: what was measured; or else that of its parameters in bytes, in as many
      copies as the optimizer keeps, and half a gigabyte for each item of a batch; or else twice its
      artifact; or else, outside `full_auto` also when it is nothing, the least memory of one device. */
  ghost predicate Needs(opts: Options, gb: real) {
    var s := opts.sizing;
    if s.requiredVRAMGB > 0.0 then gb == s.requiredVRAMGB
    else if s.modelParametersB > 0.0 then
      exists bytes, copies :: HasBytes(s.precision, bytes) && HasCopies(s.optimizer, copies)
        && gb == s.modelParametersB * bytes * copies + (if s.batchSize < 1 then 1 else s.batchSize) as real / 2.0
    else if s.modelArtifactGB > 0.0 then gb == s.modelArtifactGB + s.modelArtifactGB
    else gb == opts.hardware.minVRAMGBPerGPU as real && (gb > 0.0 || opts.mode != "full_auto")
  }

  lemma BytesExactly(precision: string, bytes: real)
    ensures HasBytes(precision, bytes) <==> bytes == PrecisionBytes(precision)
  {
    var p := Lower(precision);
    DifferentHeads("fp32", "int8");
    DifferentHeads("fp32", "8bit");
    DifferentHeads("fp32", "quantized");
    DifferentHeads("float32", "int8");
    DifferentHeads("float32", "8bit");
    DifferentHeads("float32", "quantized");
  }

  lemma DifferentHeads(a: string, b: string)
    requires a != "" && b != "" && a[0] != b[0]
    ensures a != b
  {
  }

  lemma CopiesExactly(optimizer: string, copies: real)
    ensures HasCopies(optimizer, copies) <==> copies == OptimizerMultiplier(optimizer)
  {
    DifferentHeads("adam", "sgd");
    DifferentHeads("adamw", "sgd");
  }

  /** Routing looks for exactly the memory the job needs, and has no number to look for only in `full_auto`
      when nothing is known. */
  lemma NeedsExactly(opts: Options, gb: real)
    ensures Needs(opts, gb) <==> RouteVRAM(opts).Some? && RouteVRAM(opts).value.0 == gb
    ensures RouteVRAM(opts).None? <==>
            && opts.mode == "full_auto" && opts.sizing.requiredVRAMGB <= 0.0 && opts.sizing.modelParametersB <= 0.0
            && opts.sizing.modelArtifactGB <= 0.0 && opts.hardware.minVRAMGBPerGPU <= 0
  {
    var bytes, copies := PrecisionBytes(opts.sizing.precision), OptimizerMultiplier(opts.sizing.optimizer);
    BytesExactly(opts.sizing.precision, bytes);
    CopiesExactly(opts.sizing.optimizer, copies);
    forall b, c ensures HasBytes(opts.sizing.precision, b) && HasCopies(opts.sizing.optimizer, c) <==> b == bytes && c == copies {
      BytesExactly(opts.sizing.precision, b);
      CopiesExactly(opts.sizing.optimizer, c);
    }
  }

  /** Seven billion parameters of two bytes, trained with Adam, need 56.5 gigabytes. */
  lemma AdamExample(opts: Options)
    requires opts.sizing == Sizing(0.0, 7.0, 0.0, 1, "fp16", "adam", 0)
    ensures Needs(opts, 56.5)
  {
    FoldedExample();
    assert HasBytes("fp16", 2.0) && HasCopies("adam", 4.0);
    assert 56.5 == 7.0 * 2.0 * 4.0 + 1 as real / 2.0;
  }

  /** So a shape with forty gigabytes is refused for that job, and one with eighty is not for its memory. */
  lemma FortyGigabytesAreTooLittle(opts: Options, p: ProviderCandidate, shape: Shape)
    requires opts.sizing == Sizing(0.0, 7.0, 0.0, 1, "fp16", "adam", 0)
    ensures RouteVRAM(opts).Some?
    ensures var reasons := Assess(p, shape, RouteVRAM(opts).value.0, opts).reasons;
            (shape.totalVRAMGB == 40 ==> TooLittleVRAM in reasons) && (shape.totalVRAMGB == 80 ==> TooLittleVRAM !in reasons)
  {
    AdamExample(opts);
    NeedsExactly(opts, 56.5);
    ReasonsExactly(Named(shape, p.provider), 56.5, opts.hardware);
  }

  lemma FoldedExample()
    ensures Lower("fp16") == "fp16" && Lower("adam") == "adam"
    ensures "fp16" !in ["fp32", "float32", "int8", "8bit", "quantized"]
  {
    LowerText("fp16");
    LowerText("adam");
    assert "fp16"[2] != "fp32"[2] && |"fp16"| != |"float32"|;
    DifferentHeads("fp16", "int8");
    DifferentHeads("fp16", "8bit");
    DifferentHeads("fp16", "quantized");
  }

  lemma {:induction false} LowerText(s: string)
    requires forall i :: 0 <= i < |s| ==> !('A' <= s[i] <= 'Z')
    ensures Lower(s) == s
  {
    if s != "" {
      LowerText(s[1..]);
    }
  }

  // ---------- Nothing is lost ----------

  ghost function ShapeCount(providers: seq<ProviderCandidate>): nat {
    if providers == [] then 0 else |providers[0].capabilities.shapes| + ShapeCount(providers[1..])
  }

  lemma {:induction false} AssessedCount(providers: seq<ProviderCandidate>, requiredVRAM: real, opts: Options)
    ensures |AssessAll(providers, requiredVRAM, opts)| == ShapeCount(providers)
  {
    if providers != [] {
      AssessedCount(providers[1..], requiredVRAM, opts);
    }
  }

  lemma {:induction false} PartitionCount(cs: seq<Assessed>)
    ensures |Accepted(cs)| + |Refused(cs)| == |cs|
  {
    if cs != [] {
      PartitionCount(cs[1..]);
    }
  }

  lemma {:induction false} RefusedIn(cs: seq<Assessed>, c: Assessed)
    requires c in cs && c.reasons != []
    ensures RejectedShape(c.provider, c.shape.id, c.reasons) in Refused(cs)
  {
    if c != cs[0] {
      RefusedIn(cs[1..], c);
    }
  }

  lemma {:induction false} RefusedHasReasons(cs: seq<Assessed>, r: RejectedShape)
    requires r in Refused(cs)
    ensures r.reasons != []
  {
    if cs[0].reasons == [] || r != RejectedShape(cs[0].provider, cs[0].shape.id, cs[0].reasons) {
      RefusedHasReasons(cs[1..], r);
    }
  }

  lemma {:induction false} ShapeIsAssessed(providers: seq<ProviderCandidate>, p: ProviderCandidate, shape: Shape,
                                           requiredVRAM: real, opts: Options)
    requires p in providers && shape in p.capabilities.shapes
    ensures Assess(p, shape, requiredVRAM, opts) in AssessAll(providers, requiredVRAM, opts)
  {
    if p == providers[0] {
      var j :| 0 <= j < |p.capabilities.shapes| && p.capabilities.shapes[j] == shape;
      assert AssessShapes(p, p.capabilities.shapes, requiredVRAM, opts)[j] == Assess(p, shape, requiredVRAM, opts);
    } else {
      ShapeIsAssessed(providers[1..], p, shape, requiredVRAM, opts);
    }
  }

  /** Every shape of every candidate is eligible or rejected, exactly one of them: it is listed on the
      side its assessment says, the two lists have as many entries as there are shapes, and only
      rejected entries have reasons. */
  lemma EveryShapeListedOnce(providers: seq<ProviderCandidate>, opts: Options)
    requires RouteVRAM(opts).Some?
    ensures var cs := RouteCandidates(providers, opts);
            && |Accepted(cs)| + |Refused(cs)| == ShapeCount(providers)
            && (forall p, shape :: p in providers && shape in p.capabilities.shapes ==>
                  var c := Assess(p, shape, RouteVRAM(opts).value.0, opts);
                  if c.reasons == [] then c in Accepted(cs)
                  else RejectedShape(c.provider, c.shape.id, c.reasons) in Refused(cs))
            && (forall c :: c in Accepted(cs) ==> c.reasons == [])
            && (forall r :: r in Refused(cs) ==> r.reasons != [])
  {
    var v := RouteVRAM(opts).value.0;
    var cs := RouteCandidates(providers, opts);
    AssessedCount(providers, v, opts);
    PartitionCount(cs);
    forall p, shape | p in providers && shape in p.capabilities.shapes
      ensures var c := Assess(p, shape, v, opts);
              if c.reasons == [] then c in Accepted(cs) else RejectedShape(c.provider, c.shape.id, c.reasons) in Refused(cs)
    {
      var c := Assess(p, shape, v, opts);
      ShapeIsAssessed(providers, p, shape, v, opts);
      AcceptedIn(cs, c);
      if c.reasons != [] { RefusedIn(cs, c); }
    }
    forall c | c in Accepted(cs) ensures c.reasons == [] { AcceptedIn(cs, c); }
    forall r | r in Refused(cs) ensures r.reasons != [] { RefusedHasReasons(cs, r); }
  }

  // ---------- The best shape ----------

  /** The order of an objective, spelled out: lexicographic by runtime (for the fastest objective
      only), cost, provider and shape. */
  ghost predicate NotAfter(objective: string, a: Assessed, b: Assessed) {
    if objective == "fastest_within_budget" && a.runtimeSeconds != b.runtimeSeconds then a.runtimeSeconds <= b.runtimeSeconds
    else if a.totalCostUSD != b.totalCostUSD then a.totalCostUSD <= b.totalCostUSD
    else if a.provider != b.provider then Less(a.provider, b.provider)
    else a.shape.id == b.shape.id || Less(a.shape.id, b.shape.id)
  }

  /** The selected shape is an offered one, meets the constraints and the budget, and comes before
      every other shape that does. */
  lemma BestIsBest(objective: string, providers: seq<ProviderCandidate>, opts: Options)
    requires RouteVRAM(opts).Some? && Accepted(RouteCandidates(providers, opts)) != []
    ensures var best := Best(objective, providers, opts);
            && (exists p, shape :: p in providers && shape in p.capabilities.shapes
                  && best == Assess(p, shape, RouteVRAM(opts).value.0, opts))
            && MeetsConstraints(best.shape, RouteVRAM(opts).value.0, opts.hardware)
            && WithinBudget(best.totalCostUSD, opts.budgetMaxRunCostUSD)
            && (forall p, shape :: p in providers && shape in p.capabilities.shapes ==>
                  var c := Assess(p, shape, RouteVRAM(opts).value.0, opts);
                  (MeetsConstraints(c.shape, RouteVRAM(opts).value.0, opts.hardware)
                   && WithinBudget(c.totalCostUSD, opts.budgetMaxRunCostUSD)) ==> NotAfter(objective, best, c))
  {
    var v := RouteVRAM(opts).value.0;
    var cs := RouteCandidates(providers, opts);
    var best := Best(objective, providers, opts);
    AcceptedIn(cs, best);
    AssessedFrom(providers, v, opts, best);
    var p0, shape0 :| p0 in providers && shape0 in p0.capabilities.shapes && best == Assess(p0, shape0, v, opts);
    AcceptedExactly(p0, shape0, v, opts);
    HardwareOrderIsWeak(objective);
    Sorting.FirstLeastIsLeast(HardwareOrder(objective), Accepted(cs));
    LessIsStrictTotal();
    forall p, shape | p in providers && shape in p.capabilities.shapes
      ensures var c := Assess(p, shape, v, opts);
              MeetsConstraints(c.shape, v, opts.hardware) && WithinBudget(c.totalCostUSD, opts.budgetMaxRunCostUSD) ==>
                NotAfter(objective, best, c)
    {
      var c := Assess(p, shape, v, opts);
      AcceptedExactly(p, shape, v, opts);
      ShapeIsAssessed(providers, p, shape, v, opts);
      AcceptedIn(cs, c);
      assert c.reasons == [] ==> !HardwareOrder(objective)(c, best);
    }
  }

  /** A provider of the list offers this shape. */
  ghost predicate Offers(providers: seq<ProviderCandidate>, name: string, score: real, shape: Shape) {
    exists p :: p in providers && p.provider == name && p.score == score && shape in p.capabilities.shapes
  }

  ghost predicate DistinctShapes(providers: seq<ProviderCandidate>, opts: Options)
    requires RouteVRAM(opts).Some?
  {
    forall a, b :: a in RouteCandidates(providers, opts) && b in RouteCandidates(providers, opts) ==>
      a.provider == b.provider && a.shape.id == b.shape.id ==> a == b
  }

  lemma OffersDecideCandidates(ps: seq<ProviderCandidate>, ps': seq<ProviderCandidate>, requiredVRAM: real, opts: Options, c: Assessed)
    requires forall name, score, shape :: Offers(ps, name, score, shape) ==> Offers(ps', name, score, shape)
    requires c in AssessAll(ps, requiredVRAM, opts)
    ensures c in AssessAll(ps', requiredVRAM, opts)
  {
    AssessedFrom(ps, requiredVRAM, opts, c);
    var p, shape :| p in ps && shape in p.capabilities.shapes && c == Assess(p, shape, requiredVRAM, opts);
    assert Offers(ps, p.provider, p.score, shape);
    var p' :| p' in ps' && p'.provider == p.provider && p'.score == p.score && shape in p'.capabilities.shapes;
    ShapeIsAssessed(ps', p', shape, requiredVRAM, opts);
    assert Assess(p', shape, requiredVRAM, opts) == c;
  }

  /** The choice does not depend on the order in which the shapes are reported. */
  lemma ChoiceIgnoresOrder(objective: string, ps: seq<ProviderCandidate>, ps': seq<ProviderCandidate>, opts: Options)
    requires RouteVRAM(opts).Some? && DistinctShapes(ps, opts)
    requires forall name, score, shape :: Offers(ps, name, score, shape) <==> Offers(ps', name, score, shape)
    requires Accepted(RouteCandidates(ps, opts)) != []
    ensures Accepted(RouteCandidates(ps', opts)) != []
    ensures Best(objective, ps, opts) == Best(objective, ps', opts)
  {
    var v := RouteVRAM(opts).value.0;
    var cs, cs' := RouteCandidates(ps, opts), RouteCandidates(ps', opts);
    var best := Best(objective, ps, opts);
    AcceptedIn(cs, best);
    OffersDecideCandidates(ps, ps', v, opts, best);
    AcceptedIn(cs', best);
    var best' := Best(objective, ps', opts);
    AcceptedIn(cs', best');
    OffersDecideCandidates(ps', ps, v, opts, best');
    AcceptedIn(cs, best');
    HardwareOrderIsWeak(objective);
    Sorting.FirstLeastIsLeast(HardwareOrder(objective), Accepted(cs));
    Sorting.FirstLeastIsLeast(HardwareOrder(objective), Accepted(cs'));
    assert !HardwareOrder(objective)(best', best) && !HardwareOrder(objective)(best, best');
    LessTotal(best.provider, best'.provider);
    LessTotal(best.shape.id, best'.shape.id);
  }

  // ---------- Budgets ----------

  /** `b'` allows at least what `b` allows; a budget that is not positive is no limit. */
  ghost predicate NoTighter(b: real, b': real) {
    b' <= 0.0 || (b > 0.0 && b <= b')
  }

  /** The assessments `cs'` under a looser budget differ from `cs` only by admitting costlier shapes. */
  ghost predicate Loosened(cs: seq<Assessed>, cs': seq<Assessed>) {
    && |cs| == |cs'|
    && (forall k :: 0 <= k < |cs| && cs[k].reasons == [] ==> cs'[k] == cs[k])
    && (forall j, k :: 0 <= j < |cs| && 0 <= k < |cs| && cs[j].reasons == [] && cs[k].reasons != [] && cs'[k].reasons == [] ==>
          cs[j].totalCostUSD < cs'[k].totalCostUSD)
  }

  lemma {:induction false} BudgetLoosens(providers: seq<ProviderCandidate>, requiredVRAM: real, opts: Options, b': real)
    requires NoTighter(opts.budgetMaxRunCostUSD, b')
    ensures Loosened(AssessAll(providers, requiredVRAM, opts), AssessAll(providers, requiredVRAM, opts.(budgetMaxRunCostUSD := b')))
  {
    var opts' := opts.(budgetMaxRunCostUSD := b');
    var cs, cs' := AssessAll(providers, requiredVRAM, opts), AssessAll(providers, requiredVRAM, opts');
    BudgetPointwise(providers, requiredVRAM, opts, b');
    forall j, k | 0 <= j < |cs| && 0 <= k < |cs| && cs[j].reasons == [] && cs[k].reasons != [] && cs'[k].reasons == []
      ensures cs[j].totalCostUSD < cs'[k].totalCostUSD
    {
      assert BudgetPair(cs[j], cs'[j], opts.budgetMaxRunCostUSD) && BudgetPair(cs[k], cs'[k], opts.budgetMaxRunCostUSD);
    }
    forall k | 0 <= k < |cs| && cs[k].reasons == [] ensures cs'[k] == cs[k] {
      assert BudgetPair(cs[k], cs'[k], opts.budgetMaxRunCostUSD);
    }
  }

  /** One shape assessed under the budget `b` and under a looser one. */
  ghost predicate BudgetPair(c: Assessed, c': Assessed, b: real) {
    && (c.reasons == [] ==> c' == c && (b > 0.0 ==> c.totalCostUSD <= b))
    && (c.reasons != [] && c'.reasons == [] ==> b > 0.0 && c'.totalCostUSD > b)
  }

  lemma BudgetOne(p: ProviderCandidate, shape: Shape, requiredVRAM: real, opts: Options, b': real)
    requires NoTighter(opts.budgetMaxRunCostUSD, b')
    ensures BudgetPair(Assess(p, shape, requiredVRAM, opts), Assess(p, shape, requiredVRAM, opts.(budgetMaxRunCostUSD := b')),
                       opts.budgetMaxRunCostUSD)
  {
  }

  lemma {:induction false} BudgetPointwise(providers: seq<ProviderCandidate>, requiredVRAM: real, opts: Options, b': real)
    requires NoTighter(opts.budgetMaxRunCostUSD, b')
    ensures var cs := AssessAll(providers, requiredVRAM, opts);
            var cs' := AssessAll(providers, requiredVRAM, opts.(budgetMaxRunCostUSD := b'));
            |cs| == |cs'| && forall k :: 0 <= k < |cs| ==> BudgetPair(cs[k], cs'[k], opts.budgetMaxRunCostUSD)
  {
    if providers != [] {
      BudgetPointwise(providers[1..], requiredVRAM, opts, b');
      var p := providers[0];
      forall j | 0 <= j < |p.capabilities.shapes|
        ensures BudgetPair(Assess(p, p.capabilities.shapes[j], requiredVRAM, opts),
                           Assess(p, p.capabilities.shapes[j], requiredVRAM, opts.(budgetMaxRunCostUSD := b')),
                           opts.budgetMaxRunCostUSD)
      {
        BudgetOne(p, p.capabilities.shapes[j], requiredVRAM, opts, b');
      }
    }
  }

  lemma {:induction false} AcceptedStay(cs: seq<Assessed>, cs': seq<Assessed>, c: Assessed)
    requires Loosened(cs, cs') && c in Accepted(cs)
    ensures c in Accepted(cs')
  {
    AcceptedIn(cs, c);
    var k :| 0 <= k < |cs| && cs[k] == c;
    assert cs'[k] == c;
    AcceptedIn(cs', c);
  }

  lemma {:induction false} AcceptedAt(cs: seq<Assessed>, c: Assessed) returns (k: nat)
    requires c in Accepted(cs)
    ensures k < |cs| && cs[k] == c && c.reasons == []
  {
    AcceptedIn(cs, c);
    k :| 0 <= k < |cs| && cs[k] == c;
  }

  /** A newly admitted shape is costlier than every shape accepted before. */
  lemma {:induction false} NewIsCostlier(objective: string, cs: seq<Assessed>, cs': seq<Assessed>, earlier: Assessed, k: nat)
    requires objective != FASTEST && Loosened(cs, cs') && earlier in Accepted(cs)
    requires k < |cs| && cs[k].reasons != [] && cs'[k].reasons == []
    ensures HardwareOrder(objective)(earlier, cs'[k]) && !HardwareOrder(objective)(cs'[k], earlier)
  {
    var j := AcceptedAt(cs, earlier);
    assert cs[j].totalCostUSD < cs'[k].totalCostUSD;
  }

  lemma {:induction false} HeadAccepted(cs: seq<Assessed>)
    requires cs != []
    ensures Accepted(cs) == if cs[0].reasons == [] then [cs[0]] + Accepted(cs[1..]) else Accepted(cs[1..])
    ensures forall c :: c in Accepted(cs[1..]) ==> c in Accepted(cs)
  {
  }

  /** Under an order that looks at the cost first, the first least accepted shape stays the same. */
  lemma {:induction false} FirstLeastStays(objective: string, cs: seq<Assessed>, cs': seq<Assessed>)
    requires objective != FASTEST && Loosened(cs, cs') && Accepted(cs) != []
    ensures Accepted(cs') != []
    ensures Sorting.FirstLeast(HardwareOrder(objective), Accepted(cs')) == Sorting.FirstLeast(HardwareOrder(objective), Accepted(cs))
  {
    var less := HardwareOrder(objective);
    var rest, rest' := cs[1..], cs'[1..];
    LoosenedTail(cs, cs');
    HeadAccepted(cs);
    HeadAccepted(cs');
    if Accepted(rest) != [] {
      FirstLeastStays(objective, rest, rest');
      ConsLeast(less, cs[0], Accepted(rest));
      ConsLeast(less, cs'[0], Accepted(rest'));
      if cs[0].reasons != [] && cs'[0].reasons == [] {
        NewIsCostlier(objective, cs, cs', Sorting.FirstLeast(less, Accepted(rest)), 0);
      }
    } else if Accepted(rest') != [] {
      OnlyHeadStays(objective, cs, cs');
    }
  }

  lemma LoosenedTail(cs: seq<Assessed>, cs': seq<Assessed>)
    requires Loosened(cs, cs') && cs != []
    ensures Loosened(cs[1..], cs'[1..])
  {
  }

  /** The case where the head is the only accepted shape and the tail admits new ones. */
  lemma OnlyHeadStays(objective: string, cs: seq<Assessed>, cs': seq<Assessed>)
    requires objective != FASTEST && Loosened(cs, cs') && cs != [] && cs[0].reasons == []
    requires Accepted(cs[1..]) == [] && Accepted(cs'[1..]) != []
    ensures Sorting.FirstLeast(HardwareOrder(objective), [cs'[0]] + Accepted(cs'[1..])) == cs[0]
  {
    var less, rest, rest' := HardwareOrder(objective), cs[1..], cs'[1..];
    var m := Sorting.FirstLeast(less, Accepted(rest'));
    ConsLeast(less, cs'[0], Accepted(rest'));
    var k := AcceptedAt(rest', m);
    assert rest[k].reasons != [] by { AcceptedIn(rest, rest[k]); }
    NewIsCostlier(objective, cs, cs', cs[0], k + 1);
  }

  lemma {:induction false} ConsLeast(less: (Assessed, Assessed) -> bool, c: Assessed, cs: seq<Assessed>)
    requires cs != []
    ensures Sorting.FirstLeast(less, [c] + cs)
         == var m := Sorting.FirstLeast(less, cs); if less(m, c) then m else c
  {
    assert ([c] + cs)[1..] == cs;
  }

  /** Raising the budget removes no eligible shape; the fastest objective then selects nothing slower,
      and an objective ordered by cost keeps its selection. */
  lemma RaisingBudget(objective: string, providers: seq<ProviderCandidate>, opts: Options, b': real)
    requires RouteVRAM(opts).Some? && NoTighter(opts.budgetMaxRunCostUSD, b')
    ensures var opts' := opts.(budgetMaxRunCostUSD := b');
            && RouteVRAM(opts') == RouteVRAM(opts)
            && (forall c :: c in Accepted(RouteCandidates(providers, opts)) ==> c in Accepted(RouteCandidates(providers, opts')))
            && (Accepted(RouteCandidates(providers, opts)) != [] ==>
                  && Accepted(RouteCandidates(providers, opts')) != []
                  && (if objective == FASTEST
                      then Best(objective, providers, opts').runtimeSeconds <= Best(objective, providers, opts).runtimeSeconds
                      else Best(objective, providers, opts') == Best(objective, providers, opts)))
  {
    var opts' := opts.(budgetMaxRunCostUSD := b');
    assert RouteVRAM(opts') == RouteVRAM(opts);
    var v := RouteVRAM(opts).value.0;
    var cs, cs' := AssessAll(providers, v, opts), AssessAll(providers, v, opts');
    BudgetLoosens(providers, v, opts, b');
    forall c | c in Accepted(cs) ensures c in Accepted(cs') { AcceptedStay(cs, cs', c); }
    if Accepted(cs) != [] {
      var best := Best(objective, providers, opts);
      assert best in Accepted(cs');
      if objective == FASTEST {
        HardwareOrderIsWeak(objective);
        Sorting.FirstLeastIsLeast(HardwareOrder(objective), Accepted(cs'));
        assert !HardwareOrder(objective)(best, Best(objective, providers, opts'));
      } else {
        FirstLeastStays(objective, cs, cs');
      }
    }
  }

  // ---------- Estimates ----------

  lemma RuntimeIsPositive(shape: Shape, sizing: Sizing)
    ensures EstimateRuntimeSeconds(shape, sizing) > 0.0
  {
  }

  lemma QuotientFalls(x: real, m: real, n: real)
    requires x >= 0.0 && 0.0 < m <= n
    ensures x / n <= x / m
  {
    assert x / n <= x / m <==> (x / n) * n * m <= (x / m) * m * n;
    assert (x / n) * n == x && (x / m) * m == x;
    assert x * m <= x * n;
  }

  /** More accelerators never make the estimated run longer. */
  lemma RuntimeFallsWithAccelerators(shape: Shape, more: int, sizing: Sizing)
    requires shape.acceleratorCount <= more
    ensures EstimateRuntimeSeconds(shape.(acceleratorCount := more), sizing) <= EstimateRuntimeSeconds(shape, sizing)
  {
    var m, n := MaxInt(shape.acceleratorCount, 1) as real, MaxInt(more, 1) as real;
    if sizing.expectedSteps > 0 {
      QuotientFalls((sizing.expectedSteps * 10) as real, m, n);
    } else {
      QuotientFalls(3600.0, m, n);
      QuotientFalls(3600.0, 1.0, n);
    }
  }

  lemma SameQuotient(x: real, y: real, runtime: real)
    requires runtime > 0.0
    ensures x * runtime / 3600.0 == y * runtime / 3600.0 <==> x == y
  {
    if x * runtime / 3600.0 == y * runtime / 3600.0 {
      assert x * runtime == y * runtime;
      assert (x - y) * runtime == 0.0;
    }
  }

  /** A shape that passes rejection has a positive reported rate, and its estimated cost does not depend
      on the provider's own estimate; the cost is that rate times the runtime exactly when the
      on-demand price is not negative. */
  lemma CostIsReportedRateExactly(shape: Shape, requiredVRAM: real, c: Constraints, providerHourly: real, sizing: Sizing)
    requires HardwareRejections(shape, requiredVRAM, c) == []
    ensures SelectedHourlyUSD(shape) > 0.0
    ensures forall other :: EstimateTotalCostUSD(shape, other, EstimateRuntimeSeconds(shape, sizing))
                         == EstimateTotalCostUSD(shape, providerHourly, EstimateRuntimeSeconds(shape, sizing))
    ensures EstimateTotalCostUSD(shape, providerHourly, EstimateRuntimeSeconds(shape, sizing))
              == SelectedHourlyUSD(shape) * EstimateRuntimeSeconds(shape, sizing) / 3600.0
            <==> shape.onDemandHourlyUSD >= 0.0
  {
    NoRejectionsExactly(shape, requiredVRAM, c);
    RuntimeIsPositive(shape, sizing);
    SameQuotient(if shape.onDemandHourlyUSD != 0.0 then shape.onDemandHourlyUSD else shape.spotHourlyUSD,
                 SelectedHourlyUSD(shape), EstimateRuntimeSeconds(shape, sizing));
  }

  /** A shape with a negative on-demand price, and a job that demands nothing. */
  function NegativelyPriced(): Shape {
    Shape("s", "p", "r", "m", "a", 1, "g", 80, 80, -1.0, 1.0, true, true, NoHint)
  }

  function NoConstraints(): Constraints {
    Constraints(0, [], 0, [], true, false)
  }

  function NoSizingHints(): Sizing {
    Sizing(0.0, 0.0, 0.0, 0, "", "", 0)
  }

  /** The shape passes rejection and reports one dollar an hour, yet its estimated cost is below zero. */
  lemma NegativePriceBreaksCost(providerHourly: real)
    ensures HardwareRejections(NegativelyPriced(), 0.0, NoConstraints()) == []
    ensures SelectedHourlyUSD(NegativelyPriced()) == 1.0
    ensures EstimateTotalCostUSD(NegativelyPriced(), providerHourly, EstimateRuntimeSeconds(NegativelyPriced(), NoSizingHints())) == -1.0
  {
    NegativelyPricedFits();
    NoRejectionsExactly(NegativelyPriced(), 0.0, NoConstraints());
    assert EstimateRuntimeSeconds(NegativelyPriced(), NoSizingHints()) == 3600.0;
  }

  lemma NegativelyPricedFits()
    ensures MeetsConstraints(NegativelyPriced(), 0.0, NoConstraints())
  {
    assert NegativelyPriced().id != "";
  }

  // ---------- Routes on the fields of the shapes ----------

  /** How long a run on the shape takes: ten seconds a step, divided among its accelerators, but at least a
      minute; without a number of steps an hour, divided likewise, or two hours without accelerators. */
  ghost predicate Takes(shape: Shape, sizing: Sizing, seconds: real) {
    var n := (if shape.acceleratorCount < 1 then 1 else shape.acceleratorCount) as real;
    if sizing.expectedSteps > 0 then
      var work := 10.0 * sizing.expectedSteps as real;
      if work >= 60.0 * n then seconds * n == work else seconds == 60.0
    else if shape.acceleratorCount > 0 then seconds * n == 3600.0
    else seconds == 7200.0
  }

  /** What the run costs: at the on-demand price, or else the spot price, or else the provider's rate. */
  ghost predicate Costs(shape: Shape, providerHourly: real, seconds: real, cost: real) {
    if shape.onDemandHourlyUSD != 0.0 then cost * 3600.0 == shape.onDemandHourlyUSD * seconds
    else if shape.spotHourlyUSD != 0.0 then cost * 3600.0 == shape.spotHourlyUSD * seconds
    else cost * 3600.0 == providerHourly * seconds
  }

  lemma QuotientIs(x: real, n: real, q: real)
    requires n > 0.0
    ensures q * n == x <==> q == x / n
  {
    assert (x / n) * n == x;
    if q * n == x {
      assert (q - x / n) * n == 0.0;
    }
  }

  lemma QuotientAbove(x: real, n: real, bound: real)
    requires n > 0.0
    ensures x / n > bound <==> x > bound * n
  {
    assert (x / n) * n == x;
    assert x - bound * n == (x / n - bound) * n;
  }

  lemma TakesExactly(shape: Shape, sizing: Sizing, seconds: real)
    ensures Takes(shape, sizing, seconds) <==> seconds == EstimateRuntimeSeconds(shape, sizing)
  {
    var n := MaxInt(shape.acceleratorCount, 1) as real;
    if sizing.expectedSteps > 0 {
      var work := (sizing.expectedSteps * 10) as real;
      QuotientIs(work, n, seconds);
      QuotientIs(work, n, 60.0);
      QuotientAbove(work, n, 60.0);
    } else {
      QuotientIs(3600.0, n, seconds);
    }
  }

  /** The provider offers the shape, and the job, which needs `gb`, can run on it for this time and cost
      within all constraints and the budget. */
  ghost predicate CanRunOn(ps: seq<ProviderCandidate>, p: ProviderCandidate, shape: Shape, opts: Options, gb: real,
                           seconds: real, cost: real) {
    && p in ps && shape in p.capabilities.shapes
    && Takes(shape, opts.sizing, seconds) && Costs(shape, p.score, seconds, cost)
    && MeetsConstraints(shape, gb, opts.hardware) && WithinBudget(cost, opts.budgetMaxRunCostUSD)
  }

  lemma CostsExactly(shape: Shape, providerHourly: real, seconds: real)
    ensures Costs(shape, providerHourly, seconds, EstimateTotalCostUSD(shape, providerHourly, seconds))
  {
  }

  /** The name of its provider makes no difference to a shape. */
  lemma NameDoesNotMatter(shape: Shape, name: string, gb: real, opts: Options, providerHourly: real, seconds: real)
    ensures var s := Named(shape, name);
            && s.(provider := shape.provider) == shape
            && (MeetsConstraints(s, gb, opts.hardware) <==> MeetsConstraints(shape, gb, opts.hardware))
            && EstimateRuntimeSeconds(s, opts.sizing) == EstimateRuntimeSeconds(shape, opts.sizing)
            && EstimateTotalCostUSD(s, providerHourly, seconds) == EstimateTotalCostUSD(shape, providerHourly, seconds)
  {
  }

  lemma AssessedOnFields(p: ProviderCandidate, shape: Shape, opts: Options, gb: real)
    ensures var c := Assess(p, shape, gb, opts);
            && c.provider == p.provider && c.shape.(provider := shape.provider) == shape
            && Takes(shape, opts.sizing, c.runtimeSeconds) && Costs(shape, p.score, c.runtimeSeconds, c.totalCostUSD)
            && (c.reasons == [] <==> MeetsConstraints(shape, gb, opts.hardware) && WithinBudget(c.totalCostUSD, opts.budgetMaxRunCostUSD))
  {
    var seconds := EstimateRuntimeSeconds(shape, opts.sizing);
    AcceptedExactly(p, shape, gb, opts);
    NameDoesNotMatter(shape, p.provider, gb, opts, p.score, seconds);
    TakesExactly(shape, opts.sizing, seconds);
    CostsExactly(shape, p.score, seconds);
  }

  lemma CanRunExactly(ps: seq<ProviderCandidate>, p: ProviderCandidate, shape: Shape, opts: Options, gb: real, seconds: real,
                      cost: real)
    ensures var c := Assess(p, shape, gb, opts);
            CanRunOn(ps, p, shape, opts, gb, seconds, cost) <==>
            p in ps && shape in p.capabilities.shapes && c.reasons == [] && seconds == c.runtimeSeconds && cost == c.totalCostUSD
  {
    AssessedOnFields(p, shape, opts, gb);
    TakesExactly(shape, opts.sizing, seconds);
  }

  /** The options ask for hardware that is chosen by the route. */
  ghost predicate AsksForHardware(opts: Options) {
    && opts.mode != "manual"
    && (opts.mode == "full_auto" || opts.mode == "auto_provider" || opts.objective == "fastest_within_budget")
  }

  /** The best of what the job can run on: no slower for the fastest objective, then no costlier, then first by
      the names of provider and shape. */
  ghost predicate BestOffer(ps: seq<ProviderCandidate>, p: ProviderCandidate, shape: Shape, opts: Options, gb: real,
                            seconds: real, cost: real) {
    && CanRunOn(ps, p, shape, opts, gb, seconds, cost)
    && forall p', shape', seconds', cost' :: CanRunOn(ps, p', shape', opts, gb, seconds', cost') ==>
         if opts.objective == "fastest_within_budget" && seconds != seconds' then seconds <= seconds'
         else if cost != cost' then cost <= cost'
         else if p.provider != p'.provider then Less(p.provider, p'.provider)
         else shape.id == shape'.id || Less(shape.id, shape'.id)
  }

  /** Hardware routing selects the best of what the job can run on, given the memory it needs, and reports the
      fields of that shape with a rate of its own. */
  lemma RouteSelectsBestOffer(ps: seq<ProviderCandidate>, opts: Options, provider: string, hardware: Option<Selection>)
    requires RoutesTo(ps, opts, provider, hardware) && AsksForHardware(opts)
    ensures exists p, shape, gb, seconds, cost :: Needs(opts, gb) && BestOffer(ps, p, shape, opts, gb, seconds, cost)
              && provider == p.provider
              && hardware == Some(Selection(provider, shape.id, shape.region, shape.machineType, shape.acceleratorCount, shape.totalVRAMGB,
                                            if shape.onDemandHourlyUSD > 0.0 then shape.onDemandHourlyUSD else shape.spotHourlyUSD))
  {
    var gb, best := RouteVRAM(opts).value.0, Best(Objective(opts), ps, opts);
    NeedsExactly(opts, gb);
    BestIsBest(Objective(opts), ps, opts);
    var p, shape :| p in ps && shape in p.capabilities.shapes && best == Assess(p, shape, gb, opts);
    AssessedOnFields(p, shape, opts, gb);
    BestIsBestOffer(ps, p, shape, opts, gb);
  }

  lemma BestIsBestOffer(ps: seq<ProviderCandidate>, p: ProviderCandidate, shape: Shape, opts: Options, gb: real)
    requires RouteVRAM(opts).Some? && gb == RouteVRAM(opts).value.0 && Accepted(RouteCandidates(ps, opts)) != []
    requires p in ps && shape in p.capabilities.shapes && Best(Objective(opts), ps, opts) == Assess(p, shape, gb, opts)
    ensures var c := Assess(p, shape, gb, opts); BestOffer(ps, p, shape, opts, gb, c.runtimeSeconds, c.totalCostUSD)
  {
    var c := Assess(p, shape, gb, opts);
    BestIsBest(Objective(opts), ps, opts);
    AssessedOnFields(p, shape, opts, gb);
    AcceptedExactly(p, shape, gb, opts);
    forall p', shape', seconds', cost' | CanRunOn(ps, p', shape', opts, gb, seconds', cost')
      ensures NotAfter(opts.objective, c, Assess(p', shape', gb, opts))
      ensures var c' := Assess(p', shape', gb, opts);
              c'.provider == p'.provider && c'.shape.id == shape'.id && seconds' == c'.runtimeSeconds && cost' == c'.totalCostUSD
    {
      CanRunExactly(ps, p', shape', opts, gb, seconds', cost');
      AssessedOnFields(p', shape', opts, gb);
      AcceptedExactly(p', shape', gb, opts);
    }
  }

  /** Hardware routing fails exactly when there is no candidate, when in `full_auto` nothing tells the memory that
      is needed, or when there is no shape the job can run on. */
  lemma HardwareRouteFailsExactly(ps: seq<ProviderCandidate>, opts: Options)
    requires AsksForHardware(opts)
    ensures RouteFails(ps, opts) <==>
            ps == [] || !exists p, shape, gb, seconds, cost :: Needs(opts, gb) && CanRunOn(ps, p, shape, opts, gb, seconds, cost)
  {
    if RouteVRAM(opts).None? {
      forall gb ensures !Needs(opts, gb) { NeedsExactly(opts, gb); }
      return;
    }
    var v := RouteVRAM(opts).value.0;
    var cs := RouteCandidates(ps, opts);
    forall gb ensures Needs(opts, gb) <==> gb == v { NeedsExactly(opts, gb); }
    if Accepted(cs) != [] {
      var best := Accepted(cs)[0];
      AcceptedIn(cs, best);
      AssessedFrom(ps, v, opts, best);
      var p, shape :| p in ps && shape in p.capabilities.shapes && best == Assess(p, shape, v, opts);
      CanRunExactly(ps, p, shape, opts, v, best.runtimeSeconds, best.totalCostUSD);
    }
    if p, shape, seconds, cost :| CanRunOn(ps, p, shape, opts, v, seconds, cost) {
      CanRunExactly(ps, p, shape, opts, v, seconds, cost);
      ShapeIsAssessed(ps, p, shape, v, opts);
      AcceptedIn(cs, Assess(p, shape, v, opts));
    }
  }

  // ---------- The route of a list of candidates ----------

  /** A route leads to one of the candidates. */
  lemma RouteIsACandidate(ps: seq<ProviderCandidate>, opts: Options, provider: string, hardware: Option<Selection>)
    requires RoutesTo(ps, opts, provider, hardware)
    ensures exists p :: p in ps && p.provider == provider
  {
    if !HardwareRoutingEnabled(opts) {
      var i :| LeastProvider(Objective(opts), ps, i) && provider == ps[i].provider;
      assert ps[i] in ps;
    } else if opts.mode == "manual" {
      var i, j :| FirstManualMatch(ps, opts.manual, i, j) && provider == ps[i].provider;
      assert ps[i] in ps;
    } else {
      AcceptedFromProvider(ps, RouteVRAM(opts).value.0, opts, Best(Objective(opts), ps, opts));
    }
  }

  /** Hardware routing outside manual mode selects hardware with a positive rate. */
  lemma RoutedHardwareIsPriced(ps: seq<ProviderCandidate>, opts: Options, provider: string, hardware: Option<Selection>)
    requires RoutesTo(ps, opts, provider, hardware) && opts.mode != "manual" && hardware.Some?
    ensures hardware.value.hourlyUSD > 0.0
  {
    var v := RouteVRAM(opts).value.0;
    var best := Best(Objective(opts), ps, opts);
    AcceptedIn(RouteCandidates(ps, opts), best);
    AssessedFrom(ps, v, opts, best);
    var p, shape :| p in ps && shape in p.capabilities.shapes && best == Assess(p, shape, v, opts);
    AcceptedExactly(p, shape, v, opts);
    NoRejectionsExactly(best.shape, v, opts.hardware);
    CostIsReportedRateExactly(best.shape, v, opts.hardware, p.score, opts.sizing);
  }

  /** A route is unique. */
  lemma RouteIsUnique(ps: seq<ProviderCandidate>, opts: Options, provider: string, hardware: Option<Selection>,
                      provider': string, hardware': Option<Selection>)
    requires RoutesTo(ps, opts, provider, hardware) && RoutesTo(ps, opts, provider', hardware')
    ensures provider == provider' && hardware == hardware'
  {
    if !HardwareRoutingEnabled(opts) {
      var i :| LeastProvider(Objective(opts), ps, i) && provider == ps[i].provider;
      var i' :| LeastProvider(Objective(opts), ps, i') && provider' == ps[i'].provider;
      LeastIsUnique(Objective(opts), ps, i, i');
    } else if opts.mode == "manual" {
      var i, j :| FirstManualMatch(ps, opts.manual, i, j) && provider == ps[i].provider
                  && hardware == Some(HardwareSelection(provider, ps[i].capabilities.shapes[j]));
      var i', j' :| FirstManualMatch(ps, opts.manual, i', j') && provider' == ps[i'].provider
                    && hardware' == Some(HardwareSelection(provider', ps[i'].capabilities.shapes[j']));
      FirstManualIsUnique(ps, opts.manual, i, j, i', j');
    }
  }

  /** Without hardware routing, which takes another mode and objective, the route selects no hardware and the
      cheapest provider, the first name among equals; with an objective other than the cost, the first name. */
  lemma RouteWithoutHardware(ps: seq<ProviderCandidate>, opts: Options, provider: string, hardware: Option<Selection>)
    requires RoutesTo(ps, opts, provider, hardware)
    requires !AsksForHardware(opts) && opts.mode != "manual"
    ensures hardware.None?
    ensures exists i :: 0 <= i < |ps| && ps[i].provider == provider
              && if opts.objective == "" || opts.objective == "min_cost"
                 then forall j :: 0 <= j < |ps| ==> if j < i then ps[i].score < ps[j].score else ps[i].score <= ps[j].score
                 else i == 0
  {
    var i :| LeastProvider(Objective(opts), ps, i) && provider == ps[i].provider;
  }

  /** The shape is one the manual choice allows. */
  ghost predicate Allowed(ps: seq<ProviderCandidate>, m: Manual, i: int, j: int) {
    && 0 <= i < |ps| && 0 <= j < |ps[i].capabilities.shapes| && (m.provider == "" || ps[i].provider == m.provider)
    && var shape := ps[i].capabilities.shapes[j];
       && (m.shapeID == "" || shape.id == m.shapeID)
       && (m.machineType == "" || shape.machineType == m.machineType) && (m.region == "" || shape.region == m.region)
  }

  /** The manual choice selects the first shape that it allows, of the first provider with one. */
  lemma ManualRoute(ps: seq<ProviderCandidate>, opts: Options, provider: string, hardware: Option<Selection>)
    requires RoutesTo(ps, opts, provider, hardware) && opts.mode == "manual"
    ensures exists i, j :: Allowed(ps, opts.manual, i, j) && provider == ps[i].provider
              && (forall i', j' :: Allowed(ps, opts.manual, i', j') ==> i < i' || (i == i' && j <= j'))
              && var shape := ps[i].capabilities.shapes[j];
                 hardware == Some(Selection(provider, shape.id, shape.region, shape.machineType, shape.acceleratorCount, shape.totalVRAMGB,
                                            if shape.onDemandHourlyUSD > 0.0 then shape.onDemandHourlyUSD else shape.spotHourlyUSD))
  {
    var i, j :| FirstManualMatch(ps, opts.manual, i, j) && provider == ps[i].provider
                && hardware == Some(HardwareSelection(provider, ps[i].capabilities.shapes[j]));
    forall i', j' | Allowed(ps, opts.manual, i', j') ensures i < i' || (i == i' && j <= j') {
      assert ManualMatch(ps, opts.manual, i', j');
    }
    assert Allowed(ps, opts.manual, i, j);
  }

  lemma LeastIsUnique(objective: string, ps: seq<ProviderCandidate>, i: int, i': int)
    requires LeastProvider(objective, ps, i) && LeastProvider(objective, ps, i')
    ensures i == i'
  {
    if objective == MIN_COST {
      CheapestAt(objective, ps, i, i');
      CheapestAt(objective, ps, i', i);
    }
  }

  lemma CheapestAt(objective: string, ps: seq<ProviderCandidate>, i: int, j: int)
    requires LeastProvider(objective, ps, i) && objective == MIN_COST && 0 <= j < |ps|
    ensures ps[i].score <= ps[j].score && (j < i ==> ps[i].score < ps[j].score)
  {
  }

  lemma FirstManualIsUnique(ps: seq<ProviderCandidate>, m: Manual, i: int, j: int, i': int, j': int)
    requires FirstManualMatch(ps, m, i, j) && FirstManualMatch(ps, m, i', j')
    ensures i == i' && j == j'
  {
  }

  /** There is one list of candidates. */
  lemma EligibleListIsUnique(ps: seq<ProviderCandidate>, ps': seq<ProviderCandidate>, registry: map<string, Adapter>,
                             data: seq<DataInput>, opts: Options, schemeOf: string -> string)
    requires EligibleList(ps, registry, data, opts, schemeOf) && EligibleList(ps', registry, data, opts, schemeOf)
    ensures ps == ps'
  {
    OneListByName(ps, ps');
  }

  lemma {:induction false} OneListByName(ps: seq<ProviderCandidate>, ps': seq<ProviderCandidate>)
    requires ByName(ps) && ByName(ps') && forall p :: p in ps <==> p in ps'
    ensures ps == ps'
  {
    LessIsStrictTotal();
    if ps == [] || ps' == [] {
      SameWhenEmpty(ps, ps');
      return;
    }
    assert ps[0] in ps' && ps'[0] in ps;
    SameHead(ps, ps');
    forall p ensures p in ps[1..] <==> p in ps'[1..] {
      TailMembers(ps, p);
      TailMembers(ps', p);
    }
    OneListByName(ps[1..], ps'[1..]);
    assert ps == [ps[0]] + ps[1..] && ps' == [ps'[0]] + ps'[1..];
  }

  lemma SameWhenEmpty(ps: seq<ProviderCandidate>, ps': seq<ProviderCandidate>)
    requires (ps == [] || ps' == []) && forall p :: p in ps <==> p in ps'
    ensures ps == ps'
  {
    if ps != [] {
      HeadIsIn(ps);
    }
    if ps' != [] {
      HeadIsIn(ps');
    }
  }

  lemma HeadIsIn(ps: seq<ProviderCandidate>)
    requires ps != []
    ensures ps[0] in ps
  {
  }

  lemma SameHead(ps: seq<ProviderCandidate>, ps': seq<ProviderCandidate>)
    requires ByName(ps) && ByName(ps') && ps != [] && ps' != [] && ps[0] in ps' && ps'[0] in ps
    ensures ps[0] == ps'[0]
  {
    LessIsStrictTotal();
    var i :| 0 <= i < |ps'| && ps'[i] == ps[0];
    var j :| 0 <= j < |ps| && ps[j] == ps'[0];
    if i > 0 && j > 0 {
      LessTransitive(ps[0].provider, ps[j].provider, ps[0].provider);
    }
  }

  lemma TailMembers(ps: seq<ProviderCandidate>, p: ProviderCandidate)
    requires ByName(ps) && ps != []
    ensures p in ps[1..] <==> p in ps && p != ps[0]
  {
    LessIsStrictTotal();
    if p in ps[1..] {
      var i :| 0 <= i < |ps[1..]| && ps[1..][i] == p;
      assert ps[i + 1] == p;
    }
    if p in ps && p != ps[0] {
      var i :| 0 <= i < |ps| && ps[i] == p;
      assert ps[1..][i - 1] == p;
    }
  }
}
