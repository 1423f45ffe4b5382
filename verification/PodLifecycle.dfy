/** Which pods of a node pool should be replaced, and how. */
module PodLifecycles {
  import opened Kube
  import opened NodePools
  import opened Seqs
  import opened PodSanitizer
  import opened PodHasher
  import opened PodComparisons

  /** `configurationDifference` holds whether all pods must restart at the same time. */
  datatype Lifecycle = Lifecycle(
    strategy: UpdateStrategyType,
    podsToBeReplaced: seq<Pod>,
    versionDifference: Option<VersionMismatch>,
    configurationDifference: Option<bool>)
  {
    predicate FoundVersionDifference() { versionDifference.Some? }

    predicate FoundConfigurationDifference() { configurationDifference.Some? }

    predicate FoundDifference() { FoundVersionDifference() || FoundConfigurationDifference() }

    predicate ADifferenceWasDetectedAndManualDeletionsNotEnabled() {
      !strategy.OnDelete? && FoundDifference()
    }

    predicate ShouldRollingRestart() {
      if FoundVersionDifference()
        && (versionDifference.value.from.Latest? || versionDifference.value.to.Latest?) then false
      else if FoundConfigurationDifference() && configurationDifference.value then false
      else match strategy
        case ReplaceAllOnUpdate => false
        case RollingUpdate => true
        case RollingUpdateBestEffort =>
          && FoundVersionDifference()
          && versionDifference.value.from.major == versionDifference.value.to.major
          && versionDifference.value.from.minor == versionDifference.value.to.minor
        case OnDelete => false
        case Unspecified => false
    }
  }

  /** What one pass compares against: the desired pod, the zone of each worker node, and whether errors lift the zone
      restriction. */
  datatype Context = Context(pool: NodePool, desired: Pod, zones: map<string, string>, bypassZones: bool)

  predicate Comparable(p: Pod, desired: Pod) { HasHumioContainer(p.spec) && HasHumioContainer(desired.spec) }

  function ZoneOf(zones: map<string, string>, p: Pod): string { Lookup(zones, p.spec.nodeName) }

  /** The zone restriction lets the pod be replaced now. */
  predicate ZoneAllows(ctx: Context, p: Pod) {
    || ctx.bypassZones
    || !ctx.pool.GetUpdateStrategy().enableZoneAwareness
    || (p.spec.nodeName != ""
        && (ctx.pool.zoneUnderMaintenance == "" || ZoneOf(ctx.zones, p) == ctx.pool.zoneUnderMaintenance))
  }

  /** A live pod that no longer matches, for a reason that calls for a restart. */
  predicate Outdated(ctx: Context, p: Pod) {
    !p.deleting && Comparable(p, ctx.desired) && CriticallyMismatched(p, ctx.desired)
  }

  /** Differs from the desired pod in something that calls for a restart, whether or not it is terminating. */
  predicate Obsolete(desired: Pod, p: Pod) {
    CriticalAnnotationDiffers(p, desired) || (Comparable(p, desired) && ImageDiffers(p, desired))
  }

  lemma OutdatedIsObsolete(ctx: Context, p: Pod)
    ensures Outdated(ctx, p) <==> !p.deleting && Comparable(p, ctx.desired) && Obsolete(ctx.desired, p)
  {
  }

  predicate Replaceable(ctx: Context, p: Pod) { Outdated(ctx, p) && ZoneAllows(ctx, p) }

  function ReplaceTest(ctx: Context): Pod -> bool { (p: Pod) => Replaceable(ctx, p) }

  predicate VersionChanges(ctx: Context, p: Pod) { Outdated(ctx, p) && ImageDiffers(p, ctx.desired) }

  predicate SimultaneousChange(ctx: Context, p: Pod)
    requires Comparable(p, ctx.desired)
  {
    EXTERNAL_URL in Compare(ctx.pool, p, ctx.desired).envMismatches
  }

  predicate ConfigurationChanges(ctx: Context, p: Pod) {
    Outdated(ctx, p) && (Compare(ctx.pool, p, ctx.desired).annotationMismatches != [] || SimultaneousChange(ctx, p))
  }

  /** The pod that comes last in the list decides: differences are overwritten, not joined. */
  function LifecycleOf(ctx: Context, pods: seq<Pod>): Lifecycle {
    if pods == [] then Lifecycle(ctx.pool.GetUpdateStrategy().kind, [], None, None)
    else
      var l := LifecycleOf(ctx, pods[..|pods| - 1]);
      var p := pods[|pods| - 1];
      Lifecycle(
        l.strategy,
        l.podsToBeReplaced + (if Replaceable(ctx, p) then [p] else []),
        if VersionChanges(ctx, p)
          then Some(VersionMismatch(HumioContainer(p).image.version, HumioContainer(ctx.desired).image.version))
          else l.versionDifference,
        if ConfigurationChanges(ctx, p) then Some(SimultaneousChange(ctx, p)) else l.configurationDifference)
  }

  predicate AllComparable(ctx: Context, pods: seq<Pod>) {
    forall p :: p in pods && !p.deleting ==> Comparable(p, ctx.desired)
  }

  /** The body of the comparison loop. */
  method ConsiderPod(ctx: Context, l: Lifecycle, currentPod: Pod) returns (r: Lifecycle)
    requires currentPod.deleting || Comparable(currentPod, ctx.desired)
    ensures r == Lifecycle(
        l.strategy,
        l.podsToBeReplaced + (if Replaceable(ctx, currentPod) then [currentPod] else []),
        if VersionChanges(ctx, currentPod)
          then Some(VersionMismatch(HumioContainer(currentPod).image.version,
                                    HumioContainer(ctx.desired).image.version))
          else l.versionDifference,
        if ConfigurationChanges(ctx, currentPod) then Some(SimultaneousChange(ctx, currentPod))
          else l.configurationDifference)
  {
    r := l;
    if currentPod.deleting { return; }
    var comparison := new PodComparison(ctx.pool, currentPod, ctx.desired);
    CriticalLeavesTrace(ctx.pool, currentPod, ctx.desired);
    if comparison.severity == NoMismatch { return; }
    if comparison.severity == Warning { return; }
    for k := 0 to |comparison.annotationMismatches|
      invariant k == 0 ==> r == l
      invariant k > 0 ==> r == l.(configurationDifference := Some(false))
    {
      r := r.(configurationDifference := Some(false));
    }
    if comparison.mismatchType == VersionType {
      r := r.(versionDifference := comparison.version);
    }
    if EXTERNAL_URL in comparison.envMismatches {
      r := r.(configurationDifference := Some(true));
    }
    if !ctx.bypassZones && ctx.pool.GetUpdateStrategy().enableZoneAwareness {
      if currentPod.spec.nodeName == "" { return; }
      if ctx.pool.zoneUnderMaintenance != "" && ZoneOf(ctx.zones, currentPod) != ctx.pool.zoneUnderMaintenance {
        return;
      }
    }
    r := r.(podsToBeReplaced := r.podsToBeReplaced + [currentPod]);
  }

  method GetPodDesiredLifecycleState(ctx: Context, foundPodList: seq<Pod>) returns (r: Option<Lifecycle>)
    ensures r == if AllComparable(ctx, foundPodList) then Some(LifecycleOf(ctx, foundPodList)) else None
  {
    var l := Lifecycle(ctx.pool.GetUpdateStrategy().kind, [], None, None);
    for k := 0 to |foundPodList|
      invariant AllComparable(ctx, foundPodList[..k])
      invariant l == LifecycleOf(ctx, foundPodList[..k])
    {
      var p := foundPodList[k];
      assert foundPodList[..k + 1][..k] == foundPodList[..k] && foundPodList[..k + 1][k] == p;
      if !p.deleting && !Comparable(p, ctx.desired) {
        assert p in foundPodList;
        return None;
      }
      l := ConsiderPod(ctx, l, p);
    }
    assert foundPodList[..|foundPodList|] == foundPodList;
    return Some(l);
  }

  // ----- What the decision means

  lemma {:induction false} ReplacedPods(ctx: Context, pods: seq<Pod>)
    ensures LifecycleOf(ctx, pods).podsToBeReplaced == Filter(ReplaceTest(ctx), pods)
    ensures LifecycleOf(ctx, pods).strategy == ctx.pool.GetUpdateStrategy().kind
  {
    if pods != [] {
      var init := pods[..|pods| - 1];
      assert pods == init + [pods[|pods| - 1]];
      ReplacedPods(ctx, init);
      FilterSnoc(ReplaceTest(ctx), init, pods[|pods| - 1]);
    }
  }

  lemma {:induction false} FoundDifferences(ctx: Context, pods: seq<Pod>)
    ensures var l := LifecycleOf(ctx, pods);
      && (l.FoundVersionDifference() <==> exists p :: p in pods && VersionChanges(ctx, p))
      && (l.FoundConfigurationDifference() <==> exists p :: p in pods && ConfigurationChanges(ctx, p))
  {
    if pods != [] {
      var init, last := pods[..|pods| - 1], pods[|pods| - 1];
      FoundDifferences(ctx, init);
      assert forall p :: p in pods <==> p in init || p == last;
    }
  }

  /** A difference is found exactly when some live pod is outdated. */
  lemma DifferenceMeansOutdated(ctx: Context, pods: seq<Pod>)
    ensures LifecycleOf(ctx, pods).FoundDifference() <==> exists p :: p in pods && Outdated(ctx, p)
  {
    FoundDifferences(ctx, pods);
    forall p | p in pods && Outdated(ctx, p) ensures VersionChanges(ctx, p) || ConfigurationChanges(ctx, p) {
      CriticalLeavesTrace(ctx.pool, p, ctx.desired);
    }
  }

  /** A difference is found exactly when some live pod has another image, hash, revision, token, variable source or
      certificate than the desired pod. */
  lemma DifferenceByName(ctx: Context, pods: seq<Pod>)
    ensures LifecycleOf(ctx, pods).FoundDifference() <==>
      exists p :: p in pods && !p.deleting && Comparable(p, ctx.desired) && NeedsRestart(p, ctx.desired)
  {
    DifferenceMeansOutdated(ctx, pods);
    forall p | Comparable(p, ctx.desired)
      ensures CriticallyMismatched(p, ctx.desired) <==> NeedsRestart(p, ctx.desired)
    {
      CriticalByName(p, ctx.desired);
    }
  }

  /** A version difference is found exactly when some live pod runs another image. */
  lemma VersionDifferenceByImage(ctx: Context, pods: seq<Pod>)
    ensures LifecycleOf(ctx, pods).FoundVersionDifference() <==>
      exists p :: p in pods && !p.deleting && Comparable(p, ctx.desired)
        && HumioContainer(p).image != HumioContainer(ctx.desired).image
  {
    FoundDifferences(ctx, pods);
  }

  /** The index of the last element that passes the test, or -1. */
  function LastIndex(test: Pod -> bool, pods: seq<Pod>): (i: int)
    ensures -1 <= i < |pods|
    ensures i >= 0 ==> test(pods[i])
    ensures forall j :: i < j < |pods| ==> !test(pods[j])
  {
    if pods == [] then -1
    else if test(pods[|pods| - 1]) then |pods| - 1
    else LastIndex(test, pods[..|pods| - 1])
  }

  function VersionTest(ctx: Context): Pod -> bool { (p: Pod) => VersionChanges(ctx, p) }
  function ConfigurationTest(ctx: Context): Pod -> bool { (p: Pod) => ConfigurationChanges(ctx, p) }

  /** The recorded differences are those of the last pod that has one. */
  lemma {:induction false} LastPodDecides(ctx: Context, pods: seq<Pod>)
    ensures var l := LifecycleOf(ctx, pods);
      && l.versionDifference == (
          var i := LastIndex(VersionTest(ctx), pods);
          if i < 0 then None
          else Some(VersionMismatch(HumioContainer(pods[i]).image.version, HumioContainer(ctx.desired).image.version)))
      && l.configurationDifference == (
          var i := LastIndex(ConfigurationTest(ctx), pods);
          if i < 0 then None else Some(SimultaneousChange(ctx, pods[i])))
  {
    if pods != [] { LastPodDecides(ctx, pods[..|pods| - 1]); }
  }

  /** Whether the pod and the desired pod disagree on having EXTERNAL_URL, which calls for a simultaneous restart. */
  predicate UrlAppearsOrGoes(ctx: Context, p: Pod)
    requires Comparable(p, ctx.desired)
  {
    HasKey(HumioContainer(p).env, EXTERNAL_URL) != HasKey(HumioContainer(ctx.desired).env, EXTERNAL_URL)
  }

  /** What the strategy says about a change of version from that of the given pod; None when no version changes. */
  predicate StrategyRolls(ctx: Context, changed: Option<Pod>)
    requires changed.Some? ==> Comparable(changed.value, ctx.desired)
  {
    match ctx.pool.GetUpdateStrategy().kind
    case RollingUpdate => true
    case RollingUpdateBestEffort =>
      changed.Some? &&
      var from, to := HumioContainer(changed.value).image.version, HumioContainer(ctx.desired).image.version;
      !from.Latest? && !to.Latest? && from.major == to.major && from.minor == to.minor
    case _ => false
  }

  /** The last outdated pod whose version changes. */
  function LastVersionChange(ctx: Context, pods: seq<Pod>): (p: Option<Pod>)
    ensures p.Some? ==> p.value in pods && VersionChanges(ctx, p.value) && Comparable(p.value, ctx.desired)
  {
    var i := LastIndex(VersionTest(ctx), pods);
    if i < 0 then None else Some(pods[i])
  }

  /** The last outdated pod whose configuration changes. */
  function LastConfigurationChange(ctx: Context, pods: seq<Pod>): (p: Option<Pod>)
    ensures p.Some? ==> p.value in pods && ConfigurationChanges(ctx, p.value) && Comparable(p.value, ctx.desired)
  {
    var i := LastIndex(ConfigurationTest(ctx), pods);
    if i < 0 then None else Some(pods[i])
  }

  /** Both versions of the change are known. */
  predicate KnownVersions(ctx: Context, changed: Option<Pod>)
    requires changed.Some? ==> Comparable(changed.value, ctx.desired)
  {
    changed.Some? ==>
      !HumioContainer(changed.value).image.version.Latest? && !HumioContainer(ctx.desired).image.version.Latest?
  }

  /** When a restart rolls, for every strategy and all pods: the last change of version is between known versions, the
      last change of configuration neither adds nor removes EXTERNAL_URL, and the strategy rolls such a version
      change. */
  lemma RollsExactly(ctx: Context, pods: seq<Pod>)
    ensures LifecycleOf(ctx, pods).ShouldRollingRestart() <==>
      && KnownVersions(ctx, LastVersionChange(ctx, pods))
      && (LastConfigurationChange(ctx, pods).Some? ==> !UrlAppearsOrGoes(ctx, LastConfigurationChange(ctx, pods).value))
      && StrategyRolls(ctx, LastVersionChange(ctx, pods))
  {
    LastPodDecides(ctx, pods);
    ReplacedPods(ctx, pods);
    var c := LastConfigurationChange(ctx, pods);
    if c.Some? { ExternalUrlMismatch(ctx.pool, c.value, ctx.desired); }
  }

  /** Some outdated pod asks for a simultaneous restart. */
  ghost predicate AsksForSimultaneousRestart(ctx: Context, pods: seq<Pod>) {
    exists p :: p in pods && Outdated(ctx, p) && UrlAppearsOrGoes(ctx, p)
  }

  /** A restart that some pod asks to be simultaneous, and that would roll otherwise, is simultaneous exactly when the
      last pod whose configuration changes asks for it too: the others are overruled. */
  lemma SimultaneousExactly(ctx: Context, pods: seq<Pod>)
    requires AsksForSimultaneousRestart(ctx, pods)
    requires KnownVersions(ctx, LastVersionChange(ctx, pods)) && StrategyRolls(ctx, LastVersionChange(ctx, pods))
    ensures LastConfigurationChange(ctx, pods).Some?
    ensures !LifecycleOf(ctx, pods).ShouldRollingRestart() <==>
      UrlAppearsOrGoes(ctx, LastConfigurationChange(ctx, pods).value)
  {
    RollsExactly(ctx, pods);
    var p :| p in pods && Outdated(ctx, p) && UrlAppearsOrGoes(ctx, p);
    ExternalUrlMismatch(ctx.pool, p, ctx.desired);
    assert ConfigurationTest(ctx)(p);
  }

  const WITNESS_URL := EnvVar(EXTERNAL_URL, "url", None)

  function WitnessContainer(env: seq<EnvVar>): Container {
    Container(HUMIO_CONTAINER, Image("humio:1.0.0", SemVer(1, 0, 0)), "", "", "", env, "")
  }

  function WitnessPod(name: string, podHash: string, env: seq<EnvVar>): Pod {
    Pod(name, map[POD_HASH := podHash], false,
        PodSpec([WitnessContainer(env)], [], [], "", "worker", "", "", "", None, None, None, "", [], [], ""),
        PodStatus(PhaseRunning, "", [], [], ClaimFine))
  }

  lemma WitnessHumioContainer(name: string, podHash: string, env: seq<EnvVar>)
    ensures HasHumioContainer(WitnessPod(name, podHash, env).spec)
    ensures HumioContainer(WitnessPod(name, podHash, env)) == WitnessContainer(env)
  {
    assert WitnessPod(name, podHash, env).spec.containers[0] == WitnessContainer(env);
  }

  lemma HashChanges(ctx: Context, p: Pod)
    requires Outdated(ctx, p) && Differs(p, ctx.desired)(POD_HASH)
    ensures ConfigurationChanges(ctx, p)
  {
    assert CRITICAL_ANNOTATIONS[1] == POD_HASH;
    assert POD_HASH in Compare(ctx.pool, p, ctx.desired).annotationMismatches;
  }

  lemma LastOfTwo(ctx: Context, p: Pod, q: Pod)
    requires ConfigurationChanges(ctx, q) && !VersionChanges(ctx, p) && !VersionChanges(ctx, q)
    ensures LastConfigurationChange(ctx, [p, q]) == Some(q) && LastVersionChange(ctx, [p, q]) == None
  {
    assert ConfigurationTest(ctx)([p, q][1]);
  }

  /** Two outdated pods, of which only the first asks for a simultaneous restart. */
  lemma OverruledPods(ctx: Context, p: Pod, q: Pod)
    requires ctx.pool.GetUpdateStrategy().kind.RollingUpdate?
    requires Outdated(ctx, p) && Outdated(ctx, q) && UrlAppearsOrGoes(ctx, p) && !UrlAppearsOrGoes(ctx, q)
    requires Differs(q, ctx.desired)(POD_HASH) && !ImageDiffers(p, ctx.desired) && !ImageDiffers(q, ctx.desired)
    ensures AsksForSimultaneousRestart(ctx, [p, q]) && LifecycleOf(ctx, [p, q]).ShouldRollingRestart()
  {
    assert p in [p, q];
    HashChanges(ctx, q);
    LastOfTwo(ctx, p, q);
    RollsExactly(ctx, [p, q]);
  }

  /** A rolling restart although one of the pods asks for a simultaneous one. */
  lemma SimultaneousRestartOverruled(pool: NodePool) returns (ctx: Context, pods: seq<Pod>)
    requires pool.GetUpdateStrategy().kind.RollingUpdate?
    ensures ctx.pool == pool && AsksForSimultaneousRestart(ctx, pods) && LifecycleOf(ctx, pods).ShouldRollingRestart()
  {
    var without, with: seq<EnvVar> := [], [WITNESS_URL];
    var p, q := WitnessPod("first", "old", without), WitnessPod("second", "old", with);
    var desired := WitnessPod("", "new", with);
    WitnessHumioContainer("first", "old", without);
    WitnessHumioContainer("second", "old", with);
    WitnessHumioContainer("", "new", with);
    assert WITNESS_URL in with;
    assert CRITICAL_ANNOTATIONS[1] == POD_HASH;
    assert Differs(p, desired)(POD_HASH) && Differs(q, desired)(POD_HASH);
    ctx := Context(pool, desired, map[], false);
    pods := [p, q];
    OverruledPods(ctx, p, q);
  }
}
