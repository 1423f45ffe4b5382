/** How many pods a rolling restart leaves available, over whole runs and with pods failing at any time. */
module Availability {
  import opened Kube
  import opened NodePools
  import opened Decimal
  import opened Ordering
  import opened Seqs
  import opened PodComparisons
  import opened PodsStatuses
  import opened PodLifecycles
  import opened Maintenance

  // ----- One pass

  /** The guard against deleting while pods are missing is in force: nothing would be deleted in this cluster state at
      all, or the pass is part of a restart that rolls. */
  predicate Guarded(p: Pass, s: PodsStatus) {
    var l := p.LifecycleFrom(s);
    && !p.clusterState.Pending? && !p.clusterState.NoState?
    && (p.Replacing() && l.ADifferenceWasDetectedAndManualDeletionsNotEnabled() ==> l.ShouldRollingRestart())
  }

  ghost predicate PodsWellFormed(pods: seq<Pod>) { forall p :: p in pods ==> WellFormed(p) }

  ghost predicate AllAvailable(pods: seq<Pod>) { forall p :: p in pods ==> Available(p) }

  ghost predicate NoneAvailable(pods: seq<Pod>) { forall p :: p in pods ==> !Available(p) }

  /** The pods that a decision deletes. */
  function Deleted(d: Decision): seq<Pod> {
    match d
    case CleanUp(pod) => [pod]
    case DeleteBatch(pods) => pods
    case _ => []
  }

  /** What a decision to delete says about the findings it was made from. */
  lemma DeletionReasons(p: Pass, s: PodsStatus, l: Lifecycle)
    requires p.DecideFrom(s, l).Some?
    ensures var d := p.DecideFrom(s, l).value;
      && (d.CleanUp? ==> d.pod in s.podsRequiringDeletion)
      && (d.DeleteBatch? ==>
            && !p.Entering(l) && !p.Waits(s, l) && l.ADifferenceWasDetectedAndManualDeletionsNotEnabled()
            && !s.FoundEvictedPodsOrPodsWithOrphanedPVCs()
            && |d.pods| <= Max(s.DeletionBudget(), 0)
            && forall q :: q in d.pods ==> q in l.podsToBeReplaced)
  {
  }

  lemma DecideUnfolds(p: Pass)
    requires p.Decide().Some?
    ensures StatusOf(p.pool, p.pods, p.now).Some?
    ensures var s := StatusOf(p.pool, p.pods, p.now).value;
      p.Decide() == p.DecideFrom(s, p.LifecycleFrom(s)) && AllComparable(p.CompareContext(s), p.Considered(s))
  {
  }

  lemma ReplacedAreConsidered(p: Pass, s: PodsStatus)
    ensures forall q :: q in p.LifecycleFrom(s).podsToBeReplaced ==> q in p.Considered(s) && !q.deleting
  {
    ReplacedPods(p.CompareContext(s), p.Considered(s));
  }

  lemma DeletedAreListed(p: Pass, s: PodsStatus, l: Lifecycle)
    requires p.DecideFrom(s, l).Some?
    requires forall q :: q in l.podsToBeReplaced ==> q in p.Considered(s) && !q.deleting
    requires forall e :: e in s.podsWithErrors ==> e in p.pods && !e.deleting && !Available(e)
    requires forall e :: e in s.podsRequiringDeletion ==> e in p.pods && !e.deleting && !Available(e)
    requires 0 <= s.DeletionBudget() <= s.scaledMaxUnavailable && s.scaledMaxUnavailable >= 1
    ensures var d := p.DecideFrom(s, l).value;
      && (forall q :: q in Deleted(d) ==> q in p.pods && !q.deleting)
      && |Deleted(d)| <= s.scaledMaxUnavailable
      && (d.CleanUp? ==> !Available(d.pod))
  {
    DeletionReasons(p, s, l);
  }

  /** Deletions come from the listing, touch no terminating pod and stay within the budget. */
  lemma DeletesListedPods(p: Pass)
    requires PodsWellFormed(p.pods) && p.Decide().Some?
    ensures forall q :: q in Deleted(p.Decide().value) ==> q in p.pods && !q.deleting
    ensures |Deleted(p.Decide().value)| <= StatusOf(p.pool, p.pods, p.now).value.scaledMaxUnavailable
    ensures p.Decide().value.CleanUp? ==> !Available(p.Decide().value.pod)
  {
    DecideUnfolds(p);
    var s := StatusOf(p.pool, p.pods, p.now).value;
    Accounting(p.pool, p.pods, p.now);
    ReplacedAreConsidered(p, s);
    DeletedAreListed(p, s, p.LifecycleFrom(s));
  }

  /** In a Running or ConfigError cluster a difference starts maintenance first: no batch is deleted. */
  lemma NoBatchOutsideMaintenance(p: Pass)
    requires p.clusterState.Running? || p.clusterState.ConfigError?
    ensures p.Decide().Some? ==> !p.Decide().value.DeleteBatch?
  {
  }

  lemma GuardedFrom(p: Pass, s: PodsStatus, l: Lifecycle)
    requires p.DecideFrom(s, l).Some?
    requires !p.clusterState.Pending? && !p.clusterState.NoState?
    requires p.Replacing() && l.ADifferenceWasDetectedAndManualDeletionsNotEnabled() ==> l.ShouldRollingRestart()
    requires s.nodeCount == p.pool.nodeCount && s.readyCount + s.notReadyCount == |p.pods|
    requires s.notReadyCount == 0 ==> AllAvailable(p.pods)
    requires 0 <= s.readyCount <= |p.pods|
    requires forall q :: q in l.podsToBeReplaced ==> q in p.Considered(s)
    requires NoneAvailable(s.podsWithErrors) && NoneAvailable(s.podsRequiringDeletion)
    ensures NoneAvailable(Deleted(p.DecideFrom(s, l).value)) || (AllAvailable(p.pods) && |p.pods| >= p.pool.nodeCount)
  {
    DeletionReasons(p, s, l);
  }

  /** A guarded pass deletes available pods only when every listed pod is available and none is missing; otherwise it
      deletes only evicted, orphaned or broken pods. */
  lemma GuardedDeletion(p: Pass)
    requires PodsWellFormed(p.pods) && p.Decide().Some?
    requires Guarded(p, StatusOf(p.pool, p.pods, p.now).value)
    ensures NoneAvailable(Deleted(p.Decide().value)) || (AllAvailable(p.pods) && |p.pods| >= p.pool.nodeCount)
  {
    DecideUnfolds(p);
    var s := StatusOf(p.pool, p.pods, p.now).value;
    Accounting(p.pool, p.pods, p.now);
    ReplacedAreConsidered(p, s);
    GuardedFrom(p, s, p.LifecycleFrom(s));
  }

  /** With the rolling strategy: in Pending (and in a cluster that was never written) no pass is guarded, in Running and
      ConfigError every pass is, and in between exactly those without a difference, or whose last change of version is
      between known versions and whose last change of configuration neither adds nor removes EXTERNAL_URL. */
  lemma RollingStrategyIsGuarded(p: Pass, s: PodsStatus)
    requires p.pool.GetUpdateStrategy().kind.RollingUpdate?
    ensures var ctx, pods := p.CompareContext(s), p.Considered(s);
      Guarded(p, s) <==>
        && !p.clusterState.Pending? && !p.clusterState.NoState?
        && (p.Replacing() && p.LifecycleFrom(s).FoundDifference() ==>
              && KnownVersions(ctx, LastVersionChange(ctx, pods))
              && (LastConfigurationChange(ctx, pods).Some? ==>
                    !UrlAppearsOrGoes(ctx, LastConfigurationChange(ctx, pods).value)))
  {
    RollsExactly(p.CompareContext(s), p.Considered(s));
    ReplacedPods(p.CompareContext(s), p.Considered(s));
  }

  // ----- The states in which the promise fails

  /** What a rolling restart promises about one pass. */
  ghost predicate KeepsPromise(p: Pass) {
    p.Decide().Some? ==>
      NoneAvailable(Deleted(p.Decide().value)) || (AllAvailable(p.pods) && |p.pods| >= p.pool.nodeCount)
  }

  /** A pass over well-formed pods in the given cluster state, whose differences call for a rolling restart. */
  ghost predicate RollingPass(p: Pass, state: State) {
    && p.clusterState == state && PodsWellFormed(p.pods) && ConstructedFor(p.pool, p.desired)
    && StatusOf(p.pool, p.pods, p.now).Some?
    && p.LifecycleFrom(StatusOf(p.pool, p.pods, p.now).value).ShouldRollingRestart()
  }

  const WITNESS_CONTAINER := Container(HUMIO_CONTAINER, Image("humio:1.0.0", SemVer(1, 0, 0)), "", "", "", [], "")
  const WITNESS_SPEC := PodSpec([WITNESS_CONTAINER], [], [], "", "worker", "", "", "", None, None, None, "", [], [], "")

  function WitnessPod(podHash: string): Pod {
    Pod("pod", map[POD_REVISION := "1", POD_HASH := podHash, BOOTSTRAP_TOKEN_HASH := "token"], false, WITNESS_SPEC,
        PodStatus(PhaseRunning, "", [Condition(PodReady, ConditionTrue, "", 0)], [], ClaimFine))
  }

  const WITNESS_POOL := NodePool(
    "pool", "cluster", "namespace", 2, Some(UpdateStrategySpec(RollingUpdate, 0, Some(false), None)), false, false,
    "", "", [], [], Pending, "", 1, "old", "token")

  /** One of two pods is missing and the other is outdated. */
  function WitnessPass(state: State): Pass {
    Pass(WITNESS_POOL, state, WitnessPod("new"), map[], [WitnessPod("old")], 0)
  }

  const WITNESS_READY := Condition(PodReady, ConditionTrue, "", 0)

  lemma WitnessRevision()
    ensures Revision(WitnessPod("old")) == Some(1)
  {
    assert "1"[..0] == "" && DigitValue('1') == 1;
    assert ParseDigits("1") == 1;
  }

  lemma WitnessIsAvailable()
    ensures WellFormed(WitnessPod("old")) && Available(WitnessPod("old"))
  {
    assert WITNESS_READY in WitnessPod("old").status.conditions;
  }

  lemma NoWait(minReadySeconds: int)
    ensures RemainingWait([WITNESS_READY], minReadySeconds, 0) == -1
  {
    assert LatestTransition([WITNESS_READY][..0]) == 0;
    assert LatestTransition([WITNESS_READY]) == 0;
  }

  lemma ReadyConditionTally(p: Pod, c: Condition)
    requires ReadyTrue(c)
    ensures ConditionTally(p, c, -1) == Tally(1, 0, [])
  {
  }

  lemma OneConditionTally(p: Pod, conditions: seq<Condition>, wait: int)
    requires |conditions| == 1
    ensures ConditionsTally(p, conditions, wait) == ConditionTally(p, conditions[0], wait)
  {
    assert conditions[..|conditions| - 1] == [];
    NothingAdded(ConditionTally(p, conditions[0], wait));
  }

  lemma NothingAdded(t: Tally)
    ensures AddTally(NOTHING, t) == t
  {
  }

  lemma ReadyPodTally(p: Pod)
    requires !p.deleting && p.status.phase.PhaseRunning? && p.status.conditions == [WITNESS_READY]
    ensures PodTally(p, 0, 0) == Tally(1, 0, [])
  {
    NoWait(0);
    OneConditionTally(p, p.status.conditions, -1);
    ReadyConditionTally(p, WITNESS_READY);
  }

  lemma OnePodTally(pods: seq<Pod>, p: Pod, minReadySeconds: int, now: nat)
    requires pods == [p]
    ensures PodsTally(pods, minReadySeconds, now) == AddTally(NOTHING, PodTally(p, minReadySeconds, now))
  {
    var none := pods[..|pods| - 1];
    assert none == [];
    assert pods[|pods| - 1] == p;
  }

  lemma OnePodCleanup(pool: NodePool, p: Pod)
    requires p.status.phase.PhaseRunning?
    ensures Filter(CleanupTest(pool), [p]) == []
  {
    assert !CleanupTest(pool)(p);
  }

  lemma OnePodRevisions(p: Pod, n: int)
    requires Revision(p) == Some(n)
    ensures Revisions([p]) == [n]
  {
    var r := Revisions([p]);
    assert |r| == 1 && r[0] == n;
  }

  lemma SoFarUnfolds(pool: NodePool, pods: seq<Pod>, total: nat, scaled: int, now: nat, tally: Tally,
                     revisions: seq<int>, cleanup: seq<Pod>)
    requires PodsTally(pods, pool.GetUpdateStrategy().minReadySeconds, now) == tally
    requires Revisions(pods) == revisions && Filter(CleanupTest(pool), pods) == cleanup
    ensures StatusSoFar(pool, pods, total, scaled, now) == MakeStatus(pool, tally, total, revisions, cleanup, scaled)
  {
  }

  lemma MakeStatusOfOne(pool: NodePool)
    ensures MakeStatus(pool, Tally(1, 0, []), 1, [1], [], 1)
         == PodsStatus(pool.nodeCount, 1, 0, 0, [1], [], [], 1, pool.GetUpdateStrategy().minReadySeconds)
  {
  }

  lemma ReadableStatus(pool: NodePool, pods: seq<Pod>, now: nat, scaled: int)
    requires pool.GetUpdateStrategy().maxUnavailable == Absolute(scaled)
    requires forall p :: p in pods ==> !Unreadable(p)
    ensures StatusOf(pool, pods, now) == Some(StatusSoFar(pool, pods, |pods|, scaled, now))
  {
  }

  lemma OneReadable(p: Pod)
    requires Revision(p).Some? && p.status.phase.PhaseRunning?
    ensures forall q :: q in [p] ==> !Unreadable(q)
  {
  }

  /** A listing of one ready pod. */
  lemma StatusOfOne(pool: NodePool, p: Pod)
    requires pool.GetUpdateStrategy().minReadySeconds == 0 && pool.GetUpdateStrategy().maxUnavailable == Absolute(1)
    requires PodTally(p, 0, 0) == Tally(1, 0, []) && Revision(p) == Some(1)
    requires p.status.phase.PhaseRunning?
    ensures StatusOf(pool, [p], 0) == Some(PodsStatus(pool.nodeCount, 1, 0, 0, [1], [], [], 1, 0))
  {
    hide *;
    OneReadable(p);
    OnePodTally([p], p, 0, 0);
    NothingAdded(Tally(1, 0, []));
    OnePodCleanup(pool, p);
    OnePodRevisions(p, 1);
    SoFarUnfolds(pool, [p], 1, 1, 0, Tally(1, 0, []), [1], []);
    MakeStatusOfOne(pool);
    ReadableStatus(pool, [p], 0, 1);
  }

  lemma WitnessStatus()
    ensures StatusOf(WITNESS_POOL, [WitnessPod("old")], 0) == Some(PodsStatus(2, 1, 0, 0, [1], [], [], 1, 0))
    ensures WellFormed(WitnessPod("old")) && Available(WitnessPod("old"))
  {
    ReadyPodTally(WitnessPod("old"));
    WitnessRevision();
    WitnessIsAvailable();
    StatusOfOne(WITNESS_POOL, WitnessPod("old"));
  }

  /** One pod that differs from the desired pod in its hash only. */
  lemma LifecycleOfOne(ctx: Context, p: Pod)
    requires !p.deleting && p.spec == ctx.desired.spec && HasHumioContainer(p.spec)
    requires !HumioContainer(p).image.version.Latest?
    requires Differs(p, ctx.desired)(POD_HASH)
    requires ctx.pool.GetUpdateStrategy().kind.RollingUpdate? && !ctx.pool.GetUpdateStrategy().enableZoneAwareness
    ensures AllComparable(ctx, [p])
    ensures var l := LifecycleOf(ctx, [p]);
      l.podsToBeReplaced == [p] && l.FoundConfigurationDifference()
      && !l.FoundVersionDifference() && l.ShouldRollingRestart()
  {
    assert CRITICAL_ANNOTATIONS[1] == POD_HASH;
    assert Replaceable(ctx, p) && !ImageDiffers(p, ctx.desired);
    HashChanges(ctx, p);
    OnePodLifecycle(ctx, p);
  }

  lemma OnePodLifecycle(ctx: Context, p: Pod)
    requires Replaceable(ctx, p) && ConfigurationChanges(ctx, p) && !VersionChanges(ctx, p) && !UrlAppearsOrGoes(ctx, p)
    requires ctx.pool.GetUpdateStrategy().kind.RollingUpdate?
    ensures var l := LifecycleOf(ctx, [p]);
      l.podsToBeReplaced == [p] && l.FoundConfigurationDifference()
      && !l.FoundVersionDifference() && l.ShouldRollingRestart()
  {
    assert p in [p] && ConfigurationTest(ctx)([p][0]) && ReplaceTest(ctx)([p][0]);
    ReplacedPods(ctx, [p]);
    FoundDifferences(ctx, [p]);
    RollsExactly(ctx, [p]);
  }

  lemma WitnessLifecycle(state: State, s: PodsStatus)
    requires s == PodsStatus(2, 1, 0, 0, [1], [], [], 1, 0)
    ensures AllComparable(WitnessPass(state).CompareContext(s), [WitnessPod("old")])
    ensures var l := WitnessPass(state).LifecycleFrom(s);
      l.podsToBeReplaced == [WitnessPod("old")] && l.FoundConfigurationDifference() && !l.FoundVersionDifference()
      && l.ShouldRollingRestart()
  {
    var p := WitnessPod("old");
    assert p.spec.containers[0] == WITNESS_CONTAINER;
    assert HasHumioContainer(p.spec) && HumioContainer(p) == WITNESS_CONTAINER;
    LifecycleOfOne(WitnessPass(state).CompareContext(s), p);
  }

  lemma WitnessDecision(state: State)
    requires state.Pending? || state.NoState?
    ensures WitnessPass(state).Decide() == Some(DeleteBatch([WitnessPod("old")]))
    ensures RollingPass(WitnessPass(state), state)
  {
    var p := WitnessPass(state);
    var s := PodsStatus(2, 1, 0, 0, [1], [], [], 1, 0);
    WitnessStatus();
    WitnessLifecycle(state, s);
    WitnessDesired();
    WitnessDecidesFrom(state, s, p.LifecycleFrom(s));
  }

  lemma WitnessDesired()
    ensures ConstructedFor(WITNESS_POOL, WitnessPod("new"))
  {
    assert WitnessPod("new").spec.containers[0] == WITNESS_CONTAINER;
    assert Itoa(1) == "1";
  }

  lemma WitnessDecidesFrom(state: State, s: PodsStatus, l: Lifecycle)
    requires state.Pending? || state.NoState?
    requires s == PodsStatus(2, 1, 0, 0, [1], [], [], 1, 0)
    requires l.podsToBeReplaced == [WitnessPod("old")] && l.FoundConfigurationDifference() && l.ShouldRollingRestart()
    ensures WitnessPass(state).DecideFrom(s, l) == Some(DeleteBatch([WitnessPod("old")]))
  {
    var p := WitnessPass(state);
    assert !p.NewRevision() && !p.ZoneAware();
    assert [WitnessPod("old")][..1] == [WitnessPod("old")];
  }

  lemma RollingKeepsPromise(p: Pass)
    requires RollingPass(p, p.clusterState) && !p.clusterState.Pending? && !p.clusterState.NoState?
    ensures KeepsPromise(p)
  {
    if p.Decide().Some? { GuardedDeletion(p); }
  }

  lemma BreaksPromise(p: Pass, q: Pod)
    requires p.Decide() == Some(DeleteBatch([q])) && Available(q) && |p.pods| < p.pool.nodeCount
    ensures !KeepsPromise(p)
  {
    var d := DeleteBatch([q]);
    assert q in Deleted(d);
  }

  lemma WitnessBreaksPromise(state: State)
    requires state.Pending? || state.NoState?
    ensures RollingPass(WitnessPass(state), state) && !KeepsPromise(WitnessPass(state))
  {
    WitnessDecision(state);
    WitnessIsAvailable();
    BreaksPromise(WitnessPass(state), WitnessPod("old"));
  }

  /** The promise holds for every rolling pass in exactly the cluster states other than Pending (and never written):
      there the batch is deleted without looking whether other pods are ready. */
  lemma PromiseIsExact(state: State)
    ensures (forall p :: RollingPass(p, state) ==> KeepsPromise(p)) <==> !state.Pending? && !state.NoState?
  {
    if state.Pending? || state.NoState? {
      WitnessBreaksPromise(state);
    } else {
      forall p | RollingPass(p, state) ensures KeepsPromise(p) { RollingKeepsPromise(p); }
    }
  }

  // ----- Whole runs

  function DoomedIn(w: World, pool: string): seq<string> {
    if w.worker.Deleting? && w.worker.pool == pool then w.worker.victims else []
  }

  predicate SafePod(p: Pod, doomed: seq<string>) { Available(p) && p.name !in doomed }

  function SafeTest(doomed: seq<string>): Pod -> bool { (p: Pod) => SafePod(p, doomed) }

  function AvailableTest(): Pod -> bool { (p: Pod) => Available(p) }

  /** How many pods of the pool are available. */
  function AvailableCount(w: World, pool: string): nat { |Filter(AvailableTest(), w.PodsOf(pool))| }

  /** Available pods that the pass in progress will not delete. */
  function SafeCount(w: World, pool: string): nat { |Filter(SafeTest(DoomedIn(w, pool)), w.PodsOf(pool))| }

  /** The step takes an available pod of the pool away, and it is not the operator that does it. */
  predicate Fails(w: World, a: Action, pool: string) {
    match a
    case Kubelet(n, k, after) => n == pool && k < |w.PodsOf(pool)| && Available(w.PodsOf(pool)[k]) && !Available(after)
    case PodGone(n, k) => n == pool && k < |w.PodsOf(pool)| && Available(w.PodsOf(pool)[k])
    case _ => false
  }

  function Failures(ws: seq<World>, acts: seq<Action>, pool: string): nat
    requires |ws| == |acts| + 1
  {
    if acts == [] then 0
    else
      var n := |acts| - 1;
      Failures(ws[..n + 1], acts[..n], pool) + if Fails(ws[n], acts[n], pool) then 1 else 0
  }

  /** Every pass over the pool is guarded, wants at least `wanted` pods and deletes at most `most`. */
  predicate Steady(w: World, a: Action, pool: string, wanted: int, most: int) {
    a.Maintain? && a.pool.name == pool ==>
      var pass := PassOf(w, a);
      match StatusOf(pass.pool, pass.pods, pass.now)
      case None => true
      case Some(s) => Guarded(pass, s) && a.pool.nodeCount >= wanted && s.scaledMaxUnavailable <= most
  }

  ghost predicate Inv(w: World, pool: string, floor: int) {
    && PodsWellFormed(w.PodsOf(pool)) && UniqueNames(w.PodsOf(pool))
    && SafeCount(w, pool) >= floor
  }

  /** Taking names off a list of available pods loses at most one pod per name. */
  lemma {:induction false} SafeAmongAvailable(pods: seq<Pod>, doomed: seq<string>, names: set<string>)
    requires UniqueNames(pods) && AllAvailable(pods) && forall n :: n in doomed <==> n in names
    ensures |Filter(SafeTest(doomed), pods)| >= |pods| - |names|
  {
    if pods != [] {
      var rest, first := pods[1..], pods[0];
      assert UniqueNames(rest) by {
        forall i, j | 0 <= i < j < |rest|
          ensures rest[i].name != rest[j].name
        {
          assert pods[i + 1].name != pods[j + 1].name;
        }
      }
      assert forall p :: p in rest ==> p in pods;
      assert first in pods;
      if first.name in doomed {
        var fewer := Filter((n: string) => n != first.name, doomed);
        SafeAmongAvailable(rest, fewer, names - {first.name});
        forall p | p in rest && SafeTest(fewer)(p) ensures SafeTest(doomed)(p) {
          var i :| 0 <= i < |rest| && rest[i] == p;
          assert pods[i + 1] == p && p.name != pods[0].name;
        }
        FilterMonotone(SafeTest(fewer), SafeTest(doomed), rest);
      } else {
        SafeAmongAvailable(rest, doomed, names);
      }
    }
  }

  lemma {:induction false} NamesCount(names: seq<string>)
    ensures |set n | n in names| <= |names|
  {
    if names != [] {
      NamesCount(names[1..]);
      assert (set n | n in names) == {names[0]} + (set n | n in names[1..]);
    }
  }

  lemma SortedListing(pods: seq<Pod>)
    ensures |SortByName(pods)| == |pods|
    ensures forall p :: p in SortByName(pods) <==> p in pods
  {
    SortPermutes(PodLess(), pods);
    SortMembers(PodLess(), pods);
  }

  lemma NamesTellApart(pods: seq<Pod>, p: Pod, q: Pod)
    requires UniqueNames(pods) && p in pods && q in pods && p != q
    ensures p.name != q.name
  {
    var i :| 0 <= i < |pods| && pods[i] == p;
    var j :| 0 <= j < |pods| && pods[j] == q;
  }

  /** Naming pods that are not available dooms no available pod. */
  lemma DoomingUnavailable(pods: seq<Pod>, victims: seq<Pod>)
    requires UniqueNames(pods) && NoneAvailable(victims) && forall v :: v in victims ==> v in pods
    ensures |Filter(SafeTest(Map(Name(), victims)), pods)| >= |Filter(AvailableTest(), pods)|
  {
    forall p | p in pods && AvailableTest()(p) ensures SafeTest(Map(Name(), victims))(p) {
      forall k | 0 <= k < |victims| ensures victims[k].name != p.name {
        assert victims[k] in victims;
        NamesTellApart(pods, p, victims[k]);
      }
    }
    FilterMonotone(AvailableTest(), SafeTest(Map(Name(), victims)), pods);
  }

  lemma VictimsAreDeleted(d: Decision)
    ensures VictimsOf(d) == Map(Name(), Deleted(d))
  {
  }

  /** Starting to delete keeps the floor: the doomed pods are unavailable, or there are enough others. */
  lemma StartDeleting(w: World, pass: Pass, pool: string, wanted: int, most: int)
    requires UniqueNames(w.PodsOf(pool)) && PodsWellFormed(w.PodsOf(pool))
    requires pass.pods == SortByName(w.PodsOf(pool)) && pass.pool.nodeCount >= wanted
    requires pass.Decide().Some? && Guarded(pass, StatusOf(pass.pool, pass.pods, pass.now).value)
    requires StatusOf(pass.pool, pass.pods, pass.now).value.scaledMaxUnavailable <= most
    ensures var safe := |Filter(SafeTest(VictimsOf(pass.Decide().value)), w.PodsOf(pool))|;
      safe >= AvailableCount(w, pool) || safe >= wanted - most
  {
    var pods, d := w.PodsOf(pool), pass.Decide().value;
    SortedListing(pods);
    GuardedDeletion(pass);
    DeletesListedPods(pass);
    VictimsAreDeleted(d);
    if NoneAvailable(Deleted(d)) {
      DoomingUnavailable(pods, Deleted(d));
    } else {
      var names := set n | n in VictimsOf(d);
      NamesCount(VictimsOf(d));
      SafeAmongAvailable(pods, VictimsOf(d), names);
    }
  }

  lemma SafeIsAvailable(w: World, pool: string)
    ensures SafeCount(w, pool) <= AvailableCount(w, pool)
  {
    FilterMonotone(SafeTest(DoomedIn(w, pool)), AvailableTest(), w.PodsOf(pool));
  }

  lemma MaintainKeeps(configured: set<string>, w: World, a: Action, w': World, pool: string, wanted: int, most: int,
                      floor: int)
    requires a.Maintain? && MaintainStep(configured, w, a, w') && Inv(w, pool, floor)
    requires Steady(w, a, pool, wanted, most)
    requires floor <= wanted - most
    ensures Inv(w', pool, floor)
  {
    var pass := PassOf(w, a);
    if w'.worker.Deleting? && a.pool.name == pool {
      DecideUnfolds(pass);
      StartDeleting(w, pass, pool, wanted, most);
      SafeIsAvailable(w, pool);
    }
  }

  lemma {:induction false} MarkKeepsSafe(pods: seq<Pod>, name: string, doomed: seq<string>)
    ensures |Filter(SafeTest(doomed), MarkDeleted(pods, name))| >= |Filter(SafeTest([name] + doomed), pods)|
  {
    if pods != [] {
      MarkKeepsSafe(pods[1..], name, doomed);
      var r := MarkDeleted(pods, name);
      assert r[1..] == MarkDeleted(pods[1..], name);
      assert SafeTest([name] + doomed)(pods[0]) ==> SafeTest(doomed)(r[0]);
    }
  }

  lemma {:induction false} SameErrorCount(p: Pod, q: Pod, statuses: seq<ContainerStatus>)
    ensures |ContainerErrors(p, statuses)| == |ContainerErrors(q, statuses)|
  {
    if statuses != [] { SameErrorCount(p, q, statuses[..|statuses| - 1]); }
  }

  lemma MarkedIsWellFormed(p: Pod)
    requires WellFormed(p)
    ensures WellFormed(p.(deleting := true))
  {
    SameErrorCount(p, p.(deleting := true), p.status.containerStatuses);
  }

  lemma DeleteKeeps(w: World, w': World, pool: string, floor: int)
    requires DeleteNextStep(w, w') && Inv(w, pool, floor)
    ensures Inv(w', pool, floor)
  {
    if w.worker.pool == pool {
      var pods, victims := w.PodsOf(pool), w.worker.victims;
      var r := MarkDeleted(pods, victims[0]);
      assert victims == [victims[0]] + victims[1..];
      MarkKeepsSafe(pods, victims[0], victims[1..]);
      forall p | p in r ensures WellFormed(p) {
        var i :| 0 <= i < |r| && r[i] == p;
        assert pods[i] in pods;
        MarkedIsWellFormed(pods[i]);
      }
    }
  }

  lemma KubeletKeeps(w: World, a: Action, w': World, pool: string, floor: int)
    requires a.Kubelet? && KubeletStep(w, a, w') && Inv(w, pool, floor)
    ensures Inv(w', pool, floor - if Fails(w, a, pool) then 1 else 0)
  {
    if a.poolName == pool { FilterUpdate(SafeTest(DoomedIn(w, pool)), w.PodsOf(pool), a.index, a.after); }
  }

  lemma PodGoneKeeps(w: World, a: Action, w': World, pool: string, floor: int)
    requires a.PodGone? && PodGoneStep(w, a, w') && Inv(w, pool, floor)
    ensures Inv(w', pool, floor - if Fails(w, a, pool) then 1 else 0)
  {
    if a.poolName == pool { FilterRemove(SafeTest(DoomedIn(w, pool)), w.PodsOf(pool), a.index); }
  }

  lemma CreateKeeps(configured: set<string>, w: World, a: Action, w': World, pool: string, floor: int)
    requires a.CreatePods? && CreateStep(configured, w, a, w') && Inv(w, pool, floor)
    ensures Inv(w', pool, floor)
  {
    if a.pool.name == pool {
      FilterConcat(SafeTest(DoomedIn(w, pool)), w.PodsOf(pool), a.created);
      CreatedWellFormed(a.pool, a.created);
    }
  }

  lemma CreatedWellFormed(pool: NodePool, created: seq<Pod>)
    requires forall p :: p in created ==> FreshPod(pool, p)
    ensures PodsWellFormed(created)
  {
  }

  lemma EndKeeps(w: World, w': World, pool: string, floor: int)
    requires w' == w.(worker := Idle) && Inv(w, pool, floor)
    ensures Inv(w', pool, floor)
  {
    FilterMonotone(SafeTest(DoomedIn(w, pool)), SafeTest([]), w.PodsOf(pool));
  }

  lemma StepKeeps(configured: set<string>, w: World, a: Action, w': World, pool: string, wanted: int, most: int,
                  floor: int)
    requires Next(configured, w, a, w') && Inv(w, pool, floor) && Steady(w, a, pool, wanted, most)
    requires floor <= wanted - most
    ensures Inv(w', pool, floor - if Fails(w, a, pool) then 1 else 0)
  {
    match a
    case Maintain(_, _, _, _, _) => MaintainKeeps(configured, w, a, w', pool, wanted, most, floor);
    case DeleteNext => DeleteKeeps(w, w', pool, floor);
    case EndPass => EndKeeps(w, w', pool, floor);
    case Kubelet(_, _, _) => KubeletKeeps(w, a, w', pool, floor);
    case PodGone(_, _) => PodGoneKeeps(w, a, w', pool, floor);
    case CreatePods(_, _) => CreateKeeps(configured, w, a, w', pool, floor);
    case _ =>
  }

  /** Over any run whose passes are guarded, pods failing at any time: the available pods, together with those that
      failed, never number fewer than the wanted pods less the allowed unavailable ones. */
  lemma {:induction false} AvailabilityOverRuns(
    configured: set<string>, ws: seq<World>, acts: seq<Action>, pool: string, wanted: int, most: int)
    requires Run(configured, ws, acts)
    requires ws[0].worker.Idle? && PodsWellFormed(ws[0].PodsOf(pool)) && UniqueNames(ws[0].PodsOf(pool))
    requires AvailableCount(ws[0], pool) >= wanted - most
    requires forall i :: 0 <= i < |acts| ==> Steady(ws[i], acts[i], pool, wanted, most)
    ensures forall i :: 0 <= i <= |acts| ==>
      AvailableCount(ws[i], pool) + Failures(ws[..i + 1], acts[..i], pool) >= wanted - most
    decreases |acts|
  {
    forall i | 0 <= i <= |acts|
      ensures AvailableCount(ws[i], pool) + Failures(ws[..i + 1], acts[..i], pool) >= wanted - most
    {
      InvOverRun(configured, ws, acts, pool, wanted, most, i);
      SafeIsAvailable(ws[i], pool);
    }
  }

  lemma {:induction false} InvOverRun(
    configured: set<string>, ws: seq<World>, acts: seq<Action>, pool: string, wanted: int, most: int, n: nat)
    requires Run(configured, ws, acts) && n <= |acts|
    requires ws[0].worker.Idle? && PodsWellFormed(ws[0].PodsOf(pool)) && UniqueNames(ws[0].PodsOf(pool))
    requires AvailableCount(ws[0], pool) >= wanted - most
    requires forall i :: 0 <= i < |acts| ==> Steady(ws[i], acts[i], pool, wanted, most)
    ensures Inv(ws[n], pool, wanted - most - Failures(ws[..n + 1], acts[..n], pool))
  {
    if n == 0 {
      FilterMonotone(AvailableTest(), SafeTest([]), ws[0].PodsOf(pool));
    } else {
      InvOverRun(configured, ws, acts, pool, wanted, most, n - 1);
      var before := Failures(ws[..n], acts[..n - 1], pool);
      StepKeeps(configured, ws[n - 1], acts[n - 1], ws[n], pool, wanted, most, wanted - most - before);
      assert ws[..n + 1][..n] == ws[..n] && acts[..n][..n - 1] == acts[..n - 1];
    }
  }
}
