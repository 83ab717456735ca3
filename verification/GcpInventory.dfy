/** internal/provider/gcp/gcp.go: adding live inventory and quota facts to hardware shapes. Prices and
    the names of quota metrics are parameters. */
module GcpInventory {
  import opened Wrappers
  import opened App
  import Strings
  import Sorting
  import Routing
  import RoutingTheorems

  datatype Quota = Quota(limit: real, usage: real)

  datatype Snapshot = Snapshot(
    machineCpus: map<string, int>, machineZones: map<string, seq<string>>, acceleratorZones: map<string, seq<string>>,
    acceleratorMax: map<string, int>, quotas: map<string, Quota>)

  /** The live price of a shape (0 when there is none), and the naming rules of the cloud. */
  datatype Catalog = Catalog(
    price: Routing.Shape -> real, normalizeAccelerator: string -> string, gpuMetric: string -> string, cpuMetric: string -> string)

  /** A hardware shape with the facts that enrichment adds. */
  datatype GcpShape = GcpShape(
    shape: Routing.Shape, zones: seq<string>, quotaMetric: string, quotaLimit: real, quotaUsage: real, quotaAvailable: real)

  function Lookup(zones: map<string, seq<string>>, key: string): seq<string> {
    if key in zones then zones[key] else []
  }

  function WithHint(g: GcpShape, hint: Routing.Hint): GcpShape {
    g.(shape := g.shape.(availabilityHint := hint))
  }

  // ---------- Zones ----------

  function AppendUnique(values: seq<string>, value: string): seq<string> {
    if value == "" || value in values then values else values + [value]
  }

  function IntersectFrom(a: seq<string>, b: seq<string>, out: seq<string>): seq<string>
    decreases |b|
  {
    if b == [] then out else IntersectFrom(a, b[1..], if b[0] in a then AppendUnique(out, b[0]) else out)
  }

  /** The common zones, each once, without the empty name. */
  lemma {:induction false} IntersectIs(a: seq<string>, b: seq<string>, out: seq<string>)
    requires forall i, j :: 0 <= i < j < |out| ==> out[i] != out[j]
    ensures var r := IntersectFrom(a, b, out);
            && (forall x :: x in r <==> x in out || (x in a && x in b && x != ""))
            && (forall i, j :: 0 <= i < j < |r| ==> r[i] != r[j])
    decreases |b|
  {
    if b != [] {
      var next := if b[0] in a then AppendUnique(out, b[0]) else out;
      assert forall x :: x in next <==> x in out || (x == b[0] && x in a && x != "");
      IntersectIs(a, b[1..], next);
      assert forall x :: x in b <==> x == b[0] || x in b[1..];
    }
  }

  method IntersectStrings(a: seq<string>, b: seq<string>) returns (out: seq<string>)
    ensures out == IntersectFrom(a, b, [])
    ensures forall x :: x in out <==> x in a && x in b && x != ""
    ensures forall i, j :: 0 <= i < j < |out| ==> out[i] != out[j]
  {
    var seen := set x | x in a;
    out := [];
    for i := 0 to |b|
      invariant IntersectFrom(a, b[i..], out) == IntersectFrom(a, b, [])
    {
      assert b[i..][0] == b[i] && b[i..][1..] == b[i + 1..];
      if b[i] in seen {
        out := AppendUnique(out, b[i]);
      }
    }
    IntersectIs(a, b, []);
  }

  // ---------- Quota ----------

  function ApplyQuota(g: GcpShape, snapshot: Snapshot, metric: string, required: real): GcpShape {
    if metric == "" then g
    else
      var g1 := g.(quotaMetric := metric);
      if metric !in snapshot.quotas then
        if snapshot.quotas != map[] && g.shape.availabilityHint == Routing.NoHint then WithHint(g1, Routing.UnknownQuota) else g1
      else
        var quota := snapshot.quotas[metric];
        var g2 := g1.(quotaLimit := quota.limit, quotaUsage := quota.usage, quotaAvailable := quota.limit - quota.usage);
        if quota.limit > 0.0 && quota.limit - quota.usage < required then WithHint(g2, Routing.NoQuota) else g2
  }

  /** A positive limit with less available than required. */
  predicate Short(snapshot: Snapshot, metric: string, required: real) {
    metric != "" && metric in snapshot.quotas
    && snapshot.quotas[metric].limit > 0.0 && snapshot.quotas[metric].limit - snapshot.quotas[metric].usage < required
  }

  // ---------- Availability ----------

  predicate NoInventory(snapshot: Snapshot) {
    snapshot.machineZones == map[] && snapshot.acceleratorZones == map[] && snapshot.quotas == map[]
  }

  predicate Accelerated(shape: Routing.Shape) {
    shape.acceleratorType != "" && shape.acceleratorCount > 0
  }

  function ApplyLiveAvailability(g: GcpShape, snapshot: Snapshot, cat: Catalog): GcpShape {
    if NoInventory(snapshot) then g
    else
      var shape := g.shape;
      var machineZones := Lookup(snapshot.machineZones, shape.machineType);
      if snapshot.machineZones != map[] && machineZones == [] then WithHint(g, Routing.Unavailable)
      else if Accelerated(shape) then
        var name := cat.normalizeAccelerator(shape.acceleratorType);
        var acceleratorZones := Lookup(snapshot.acceleratorZones, name);
        if snapshot.acceleratorZones != map[] && acceleratorZones == [] then WithHint(g, Routing.Unavailable)
        else
          var zones :=
            if machineZones != [] && acceleratorZones != [] then IntersectFrom(machineZones, acceleratorZones, [])
            else if acceleratorZones != [] then acceleratorZones
            else machineZones;
          if name in snapshot.acceleratorMax && 0 < snapshot.acceleratorMax[name] < shape.acceleratorCount then
            WithHint(g, Routing.Unavailable)
          else
            Placed(ApplyQuota(g, snapshot, cat.gpuMetric(shape.acceleratorType), shape.acceleratorCount as real), zones)
      else if shape.machineType in snapshot.machineCpus then
        Placed(ApplyQuota(g, snapshot, cat.cpuMetric(shape.machineType), snapshot.machineCpus[shape.machineType] as real),
               machineZones)
      else Placed(g, machineZones)
  }

  /** The zones found, and the hint that goes with them unless a stronger one was set. */
  function Placed(g: GcpShape, zones: seq<string>): GcpShape {
    if zones == [] then g
    else
      var g1 := g.(zones := Sorting.StableSort(Strings.Less, zones));
      var hint := g.shape.availabilityHint;
      if hint == Routing.NoHint || hint == Routing.Configured || hint == Routing.StaticEstimate || hint == Routing.LivePricing then
        WithHint(g1, Routing.LiveInventory)
      else g1
  }

  /** The live price, with the hint that tells about it. */
  function Priced(g: GcpShape, price: real): GcpShape {
    if price > 0.0 then
      var g1 := g.(shape := g.shape.(onDemandHourlyUSD := price));
      if g.shape.availabilityHint == Routing.StaticEstimate then WithHint(g1, Routing.LivePricing) else g1
    else g
  }

  function Enrich(g: GcpShape, snapshot: Snapshot, cat: Catalog): GcpShape {
    ApplyLiveAvailability(Priced(g, cat.price(g.shape)), snapshot, cat)
  }

  method EnrichHardwareShapes(shapes: array<GcpShape>, snapshot: Snapshot, cat: Catalog)
    modifies shapes
    ensures forall i :: 0 <= i < shapes.Length ==> shapes[i] == Enrich(old(shapes[i]), snapshot, cat)
  {
    for i := 0 to shapes.Length
      invariant forall k :: 0 <= k < i ==> shapes[k] == Enrich(old(shapes[k]), snapshot, cat)
      invariant forall k :: i <= k < shapes.Length ==> shapes[k] == old(shapes[k])
    {
      var g := shapes[i];
      var price := cat.price(g.shape);
      if price > 0.0 {
        g := g.(shape := g.shape.(onDemandHourlyUSD := price));
        if g.shape.availabilityHint == Routing.StaticEstimate {
          g := WithHint(g, Routing.LivePricing);
        }
      }
      shapes[i] := ApplyLiveAvailability(g, snapshot, cat);
    }
  }

  // ---------- What enrichment promises ----------

  /** The inventory does not list the machine or the accelerator, or not with that many cards. */
  predicate Unlisted(shape: Routing.Shape, snapshot: Snapshot, cat: Catalog) {
    && (snapshot.machineZones != map[] || snapshot.acceleratorZones != map[] || snapshot.quotas != map[])
    && (|| (snapshot.machineZones != map[] && Lookup(snapshot.machineZones, shape.machineType) == [])
        || (Accelerated(shape)
            && var name := cat.normalizeAccelerator(shape.acceleratorType);
               || (snapshot.acceleratorZones != map[] && Lookup(snapshot.acceleratorZones, name) == [])
               || (name in snapshot.acceleratorMax && 0 < snapshot.acceleratorMax[name] < shape.acceleratorCount)))
  }

  /** The quota of what the shape uses is looked up, and is short. */
  predicate Starved(shape: Routing.Shape, snapshot: Snapshot, cat: Catalog) {
    && !Unlisted(shape, snapshot, cat)
    && (if Accelerated(shape) then Short(snapshot, cat.gpuMetric(shape.acceleratorType), shape.acceleratorCount as real)
        else
          shape.machineType in snapshot.machineCpus
          && Short(snapshot, cat.cpuMetric(shape.machineType), snapshot.machineCpus[shape.machineType] as real))
  }

  predicate Barred(shape: Routing.Shape) {
    shape.availabilityHint == Routing.NoQuota || shape.availabilityHint == Routing.Unavailable
  }

  lemma PlacingKeepsBar(g: GcpShape, zones: seq<string>)
    ensures Barred(Placed(g, zones).shape) <==> Barred(g.shape)
    ensures Barred(g.shape) ==> Placed(g, zones).shape.availabilityHint == g.shape.availabilityHint
  {
  }

  lemma QuotaBars(g: GcpShape, snapshot: Snapshot, metric: string, required: real)
    ensures Barred(ApplyQuota(g, snapshot, metric, required).shape) <==> Barred(g.shape) || Short(snapshot, metric, required)
    ensures Short(snapshot, metric, required) ==> ApplyQuota(g, snapshot, metric, required).shape.availabilityHint == Routing.NoQuota
  {
  }

  lemma AvailabilityBars(g: GcpShape, snapshot: Snapshot, cat: Catalog)
    ensures Barred(ApplyLiveAvailability(g, snapshot, cat).shape)
       <==> Barred(g.shape) || Unlisted(g.shape, snapshot, cat) || Starved(g.shape, snapshot, cat)
    ensures Starved(g.shape, snapshot, cat) ==>
              ApplyLiveAvailability(g, snapshot, cat).shape.availabilityHint == Routing.NoQuota
  {
    if !NoInventory(snapshot) && !Unlisted(g.shape, snapshot, cat) {
      var shape := g.shape;
      if Accelerated(shape) {
        QuotaBars(g, snapshot, cat.gpuMetric(shape.acceleratorType), shape.acceleratorCount as real);
        var g' := ApplyQuota(g, snapshot, cat.gpuMetric(shape.acceleratorType), shape.acceleratorCount as real);
        forall zones { PlacingKeepsBar(g', zones); }
      } else if shape.machineType in snapshot.machineCpus {
        QuotaBars(g, snapshot, cat.cpuMetric(shape.machineType), snapshot.machineCpus[shape.machineType] as real);
        var g' := ApplyQuota(g, snapshot, cat.cpuMetric(shape.machineType), snapshot.machineCpus[shape.machineType] as real);
        PlacingKeepsBar(g', Lookup(snapshot.machineZones, shape.machineType));
      } else {
        PlacingKeepsBar(g, Lookup(snapshot.machineZones, shape.machineType));
      }
    }
  }

  lemma PricingKeepsFacts(g: GcpShape, price: real, snapshot: Snapshot, cat: Catalog)
    ensures Barred(Priced(g, price).shape) <==> Barred(g.shape)
    ensures Unlisted(Priced(g, price).shape, snapshot, cat) <==> Unlisted(g.shape, snapshot, cat)
    ensures Starved(Priced(g, price).shape, snapshot, cat) <==> Starved(g.shape, snapshot, cat)
  {
    var shape, shape' := g.shape, Priced(g, price).shape;
    assert shape'.machineType == shape.machineType && shape'.acceleratorType == shape.acceleratorType
        && shape'.acceleratorCount == shape.acceleratorCount;
  }

  /** Exactly the shapes that end up barred from routing: the ones that were barred, the unlisted and
      the starved ones. No later step of enrichment clears such a hint. */
  lemma BarredExactly(g: GcpShape, snapshot: Snapshot, cat: Catalog)
    ensures Barred(Enrich(g, snapshot, cat).shape)
       <==> Barred(g.shape) || Unlisted(g.shape, snapshot, cat) || Starved(g.shape, snapshot, cat)
    ensures Starved(g.shape, snapshot, cat) ==> Enrich(g, snapshot, cat).shape.availabilityHint == Routing.NoQuota
  {
    PricingKeepsFacts(g, cat.price(g.shape), snapshot, cat);
    AvailabilityBars(Priced(g, cat.price(g.shape)), snapshot, cat);
  }

  /** The zones that have both the machine and the accelerator; where the inventory lists zones for one of them only,
      its zones. */
  ghost predicate HasZone(shape: Routing.Shape, snapshot: Snapshot, cat: Catalog, zone: string) {
    var machine := Lookup(snapshot.machineZones, shape.machineType);
    var accelerator := Lookup(snapshot.acceleratorZones, cat.normalizeAccelerator(shape.acceleratorType));
    if shape.acceleratorType == "" || shape.acceleratorCount <= 0 then zone in machine
    else if machine == [] then zone in accelerator
    else if accelerator == [] then zone in machine
    else zone in machine && zone in accelerator && zone != ""
  }

  ghost function ZonesFound(shape: Routing.Shape, snapshot: Snapshot, cat: Catalog): seq<string> {
    var machine := Lookup(snapshot.machineZones, shape.machineType);
    var accelerator := Lookup(snapshot.acceleratorZones, cat.normalizeAccelerator(shape.acceleratorType));
    if !Accelerated(shape) || accelerator == [] then machine
    else if machine == [] then accelerator
    else IntersectFrom(machine, accelerator, [])
  }

  lemma FoundExactly(shape: Routing.Shape, snapshot: Snapshot, cat: Catalog, zone: string)
    ensures zone in ZonesFound(shape, snapshot, cat) <==> HasZone(shape, snapshot, cat, zone)
  {
    IntersectIs(Lookup(snapshot.machineZones, shape.machineType),
                Lookup(snapshot.acceleratorZones, cat.normalizeAccelerator(shape.acceleratorType)), []);
  }

  lemma SortedZones(shape: Routing.Shape, snapshot: Snapshot, cat: Catalog)
    ensures var zones := ZonesFound(shape, snapshot, cat);
            && (zones == [] <==> forall zone :: !HasZone(shape, snapshot, cat, zone))
            && forall zone :: zone in Sorting.StableSort(Strings.Less, zones) <==> HasZone(shape, snapshot, cat, zone)
  {
    var zones := ZonesFound(shape, snapshot, cat);
    Sorting.SameElements(zones, Sorting.StableSort(Strings.Less, zones));
    forall zone ensures zone in zones <==> HasZone(shape, snapshot, cat, zone) {
      FoundExactly(shape, snapshot, cat, zone);
    }
    if zones != [] {
      assert zones[0] in zones;
    }
  }

  /** The quota that a shape needs, "" for none: of its accelerators, or else of its machine's processors. */
  ghost function MetricOf(shape: Routing.Shape, snapshot: Snapshot, cat: Catalog): string {
    if Accelerated(shape) then cat.gpuMetric(shape.acceleratorType)
    else if shape.machineType in snapshot.machineCpus then cat.cpuMetric(shape.machineType)
    else ""
  }

  ghost function AmountOf(shape: Routing.Shape, snapshot: Snapshot): real {
    if Accelerated(shape) then shape.acceleratorCount as real
    else if shape.machineType in snapshot.machineCpus then snapshot.machineCpus[shape.machineType] as real
    else 0.0
  }

  lemma AvailabilityIs(g: GcpShape, snapshot: Snapshot, cat: Catalog)
    ensures ApplyLiveAvailability(g, snapshot, cat) ==
            if NoInventory(snapshot) then g
            else if Unlisted(g.shape, snapshot, cat) then WithHint(g, Routing.Unavailable)
            else Placed(ApplyQuota(g, snapshot, MetricOf(g.shape, snapshot, cat), AmountOf(g.shape, snapshot)),
                        ZonesFound(g.shape, snapshot, cat))
  {
  }

  lemma FoundZonesArePlaced(g: GcpShape, snapshot: Snapshot, cat: Catalog)
    ensures var zones := ZonesFound(g.shape, snapshot, cat);
            ApplyLiveAvailability(g, snapshot, cat).zones ==
            if NoInventory(snapshot) || Unlisted(g.shape, snapshot, cat) || zones == [] then g.zones
            else Sorting.StableSort(Strings.Less, zones)
  {
    AvailabilityIs(g, snapshot, cat);
  }

  lemma PricingKeepsNeeds(g: GcpShape, price: real, snapshot: Snapshot, cat: Catalog)
    ensures MetricOf(Priced(g, price).shape, snapshot, cat) == MetricOf(g.shape, snapshot, cat)
    ensures AmountOf(Priced(g, price).shape, snapshot) == AmountOf(g.shape, snapshot)
    ensures ZonesFound(Priced(g, price).shape, snapshot, cat) == ZonesFound(g.shape, snapshot, cat)
  {
  }

  /** The quota that a listed shape needs is recorded with it, as far as the inventory knows it. */
  lemma QuotaIsRecorded(g: GcpShape, snapshot: Snapshot, cat: Catalog)
    requires snapshot.machineZones != map[] || snapshot.acceleratorZones != map[] || snapshot.quotas != map[]
    requires !Unlisted(g.shape, snapshot, cat) && MetricOf(g.shape, snapshot, cat) != ""
    ensures var e, metric := Enrich(g, snapshot, cat), MetricOf(g.shape, snapshot, cat);
            && e.quotaMetric == metric
            && (metric in snapshot.quotas ==>
                  var quota := snapshot.quotas[metric];
                  e.quotaLimit == quota.limit && e.quotaUsage == quota.usage && e.quotaAvailable == quota.limit - quota.usage)
  {
    PricingKeepsFacts(g, cat.price(g.shape), snapshot, cat);
    PricingKeepsNeeds(g, cat.price(g.shape), snapshot, cat);
    AvailabilityIs(Priced(g, cat.price(g.shape)), snapshot, cat);
  }

  lemma PlacedHint(g: GcpShape, zones: seq<string>)
    ensures var hint := g.shape.availabilityHint;
            Placed(g, zones).shape.availabilityHint ==
            if zones != [] && (hint == Routing.NoHint || hint == Routing.Configured || hint == Routing.StaticEstimate || hint == Routing.LivePricing)
            then Routing.LiveInventory else hint
  {
  }

  lemma QuotaHint(g: GcpShape, snapshot: Snapshot, metric: string, required: real)
    requires !Short(snapshot, metric, required)
    ensures ApplyQuota(g, snapshot, metric, required).shape.availabilityHint ==
            if g.shape.availabilityHint == Routing.NoHint && metric != "" && metric !in snapshot.quotas && snapshot.quotas != map[]
            then Routing.UnknownQuota else g.shape.availabilityHint
  {
  }

  lemma PricedHint(g: GcpShape, price: real)
    ensures Priced(g, price).shape.availabilityHint ==
            if g.shape.availabilityHint == Routing.StaticEstimate && price > 0.0 then Routing.LivePricing else g.shape.availabilityHint
  {
  }

  /** The hint of a shape that is not barred: an unknown quota is told where nothing else was; a shape with zones is
      live, also where the configuration, an estimate or a price was the hint; otherwise a live price replaces
      an estimate, and any other hint stays. */
  lemma HintExactly(g: GcpShape, snapshot: Snapshot, cat: Catalog)
    requires !Barred(Enrich(g, snapshot, cat).shape)
    ensures var before, after := g.shape.availabilityHint, Enrich(g, snapshot, cat).shape.availabilityHint;
            var metric := MetricOf(g.shape, snapshot, cat);
            after == if before == Routing.NoHint && metric != "" && metric !in snapshot.quotas && snapshot.quotas != map[] then Routing.UnknownQuota
                     else if (exists zone :: HasZone(g.shape, snapshot, cat, zone))
                             && (before == Routing.NoHint || before == Routing.Configured || before == Routing.StaticEstimate
                                 || before == Routing.LivePricing) then Routing.LiveInventory
                     else if before == Routing.StaticEstimate && cat.price(g.shape) > 0.0 then Routing.LivePricing
                     else before
  {
    var g' := Priced(g, cat.price(g.shape));
    BarredExactly(g, snapshot, cat);
    PricingKeepsFacts(g, cat.price(g.shape), snapshot, cat);
    PricingKeepsNeeds(g, cat.price(g.shape), snapshot, cat);
    AvailabilityIs(g', snapshot, cat);
    SortedZones(g.shape, snapshot, cat);
    PricedHint(g, cat.price(g.shape));
    if !NoInventory(snapshot) {
      var metric, amount, zones := MetricOf(g.shape, snapshot, cat), AmountOf(g.shape, snapshot), ZonesFound(g.shape, snapshot, cat);
      QuotaHint(g', snapshot, metric, amount);
      PlacedHint(ApplyQuota(g', snapshot, metric, amount), zones);
    }
  }

  /** A listed shape ends up with exactly the zones that have what it needs, when there are any; otherwise its
      zones stay as they were. */
  lemma ZonesExactly(g: GcpShape, snapshot: Snapshot, cat: Catalog)
    ensures Unlisted(g.shape, snapshot, cat) || (forall zone :: !HasZone(g.shape, snapshot, cat, zone)) ==>
              Enrich(g, snapshot, cat).zones == g.zones
    ensures !Unlisted(g.shape, snapshot, cat) && (exists zone :: HasZone(g.shape, snapshot, cat, zone)) ==>
              forall zone :: zone in Enrich(g, snapshot, cat).zones <==> HasZone(g.shape, snapshot, cat, zone)
  {
    var g', zones := Priced(g, cat.price(g.shape)), ZonesFound(g.shape, snapshot, cat);
    PricingKeepsFacts(g, cat.price(g.shape), snapshot, cat);
    FoundZonesArePlaced(g', snapshot, cat);
    assert ZonesFound(g'.shape, snapshot, cat) == zones && g'.zones == g.zones;
    SortedZones(g.shape, snapshot, cat);
  }

  /** A shape short of quota is never the hardware a route selects. */
  lemma StarvedNeverSelected(g: GcpShape, snapshot: Snapshot, cat: Catalog, objective: string,
                             providers: seq<Routing.ProviderCandidate>, p: Routing.ProviderCandidate, opts: Routing.Options)
    requires Starved(g.shape, snapshot, cat)
    requires p in providers && Enrich(g, snapshot, cat).shape in p.capabilities.shapes
    requires Routing.RouteVRAM(opts).Some? && Routing.Accepted(Routing.RouteCandidates(providers, opts)) != []
    ensures var v := Routing.RouteVRAM(opts).value.0;
            var c := Routing.Assess(p, Enrich(g, snapshot, cat).shape, v, opts);
            && c !in Routing.Accepted(Routing.RouteCandidates(providers, opts))
            && Routing.RejectedShape(c.provider, c.shape.id, c.reasons) in Routing.Refused(Routing.RouteCandidates(providers, opts))
            && Routing.Best(objective, providers, opts) != c
  {
    var v := Routing.RouteVRAM(opts).value.0;
    var shape := Enrich(g, snapshot, cat).shape;
    var c := Routing.Assess(p, shape, v, opts);
    BarredExactly(g, snapshot, cat);
    RoutingTheorems.AcceptedExactly(p, shape, v, opts);
    assert c.reasons != [];
    RoutingTheorems.EveryShapeListedOnce(providers, opts);
  }
}
