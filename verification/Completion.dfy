/** Maintenance comes to an end: passes over available pods finish it, and new pods are left alone. */
module Completion {
  import opened Kube
  import opened NodePools
  import opened Decimal
  import opened Seqs
  import opened PodComparisons
  import opened PodsStatuses
  import opened PodLifecycles
  import opened Maintenance
  import opened Availability
  import opened Exclusion
  import opened Zones
  import opened Deletions
  import opened Progress
  import opened PodCreation
  import opened NodeCertificates

  // ----- Passes over pods that are all available

  /** Available for long enough, placed on a worker node, and readable. */
  ghost predicate Settled(p: Pod, minReadySeconds: int, now: nat) {
    && WellFormed(p) && Available(p) && RemainingWait(p.status.conditions, minReadySeconds, now) <= 0
    && Revision(p).Some? && p.spec.nodeName != "" && HasHumioContainer(p.spec)
  }

  /** The wanted number of pods, all settled, and a strategy that deletes pods at all. */
  ghost predicate Calm(pool: NodePool, pods: seq<Pod>, now: nat) {
    var strategy := pool.GetUpdateStrategy();
    && |pods| == pool.nodeCount && (forall p :: p in pods ==> Settled(p, strategy.minReadySeconds, now))
    && !strategy.kind.OnDelete? && ScaledValue(strategy.maxUnavailable, pool.nodeCount).Some?
  }

  lemma {:induction false} NobodyWaits(p: Pod, conditions: seq<Condition>, wait: int)
    requires wait <= 0
    ensures ConditionsTally(p, conditions, wait).waiting == 0
    ensures (exists c :: c in conditions && ReadyTrue(c)) ==> ConditionsTally(p, conditions, wait).ready >= 1
  {
    if conditions != [] {
      var init, last := conditions[..|conditions| - 1], conditions[|conditions| - 1];
      NobodyWaits(p, init, wait);
      assert forall c :: c in conditions <==> c in init || c == last;
    }
  }

  lemma SettledTally(p: Pod, minReadySeconds: int, now: nat)
    requires Settled(p, minReadySeconds, now)
    ensures PodTally(p, minReadySeconds, now) == Tally(1, 0, [])
  {
    var conditions := p.status.conditions;
    var wait := RemainingWait(conditions, minReadySeconds, now);
    NobodyWaits(p, conditions, wait);
    PodTallyMeaning(p, minReadySeconds, now);
    AvailablePodHasNoErrors(p, conditions, wait);
  }

  lemma OneMore(pods: seq<Pod>, p: Pod, minReadySeconds: int, now: nat)
    requires PodsTally(pods, minReadySeconds, now) == Tally(|pods|, 0, [])
    requires PodTally(p, minReadySeconds, now) == Tally(1, 0, [])
    ensures PodsTally(pods + [p], minReadySeconds, now) == Tally(|pods + [p]|, 0, [])
  {
    hide PodTally, PodsTally;
    PodsTallySnoc(pods, p, minReadySeconds, now);
  }

  lemma {:induction false} OneEach(pods: seq<Pod>, minReadySeconds: int, now: nat)
    requires forall p :: p in pods ==> PodTally(p, minReadySeconds, now) == Tally(1, 0, [])
    ensures PodsTally(pods, minReadySeconds, now) == Tally(|pods|, 0, [])
  {
    hide PodTally;
    if pods == [] {
    } else {
      hide PodsTally;
      var init, last := pods[..|pods| - 1], pods[|pods| - 1];
      assert forall p :: p in init ==> p in pods;
      OneEach(init, minReadySeconds, now);
      assert last in pods;
      OneMore(init, last, minReadySeconds, now);
      assert pods == init + [last];
    }
  }

  lemma SettledTallies(pods: seq<Pod>, minReadySeconds: int, now: nat)
    requires forall p :: p in pods ==> Settled(p, minReadySeconds, now)
    ensures PodsTally(pods, minReadySeconds, now) == Tally(|pods|, 0, [])
  {
    forall p | p in pods
      ensures PodTally(p, minReadySeconds, now) == Tally(1, 0, [])
    {
      SettledTally(p, minReadySeconds, now);
    }
    OneEach(pods, minReadySeconds, now);
  }

  /** What such a pass counts: everything ready, nothing waiting, broken or to be cleaned up. */
  predicate CalmStatus(s: PodsStatus, pool: NodePool, pods: seq<Pod>) {
    && s.nodeCount == pool.nodeCount && s.readyCount == pool.nodeCount && s.notReadyCount == 0
    && s.podsWithErrors == [] && s.podsRequiringDeletion == [] && s.podRevisions == PodsStatuses.Revisions(pods)
    && s.DeletionBudget() >= 1
  }

  lemma SettledIsClean(pool: NodePool, p: Pod, minReadySeconds: int, now: nat)
    requires Settled(p, minReadySeconds, now)
    ensures !CleanupTest(pool)(p) && !Unreadable(p)
  {
  }

  lemma CalmStatusOf(pool: NodePool, pods: seq<Pod>, now: nat)
    requires Calm(pool, pods, now)
    ensures StatusOf(pool, pods, now).Some? && CalmStatus(StatusOf(pool, pods, now).value, pool, pods)
  {
    var minReadySeconds := pool.GetUpdateStrategy().minReadySeconds;
    SettledTallies(pods, minReadySeconds, now);
    forall p | p in pods
      ensures !CleanupTest(pool)(p) && !Unreadable(p)
    {
      SettledIsClean(pool, p, minReadySeconds, now);
    }
    FilterNone(CleanupTest(pool), pods);
  }

  lemma UpToDateRevision(pool: NodePool, desired: Pod, p: Pod)
    requires ConstructedFor(pool, desired) && !Obsolete(desired, p)
    ensures Revision(p) == Some(pool.desiredPodRevision)
  {
    assert CRITICAL_ANNOTATIONS[2] == POD_REVISION;
    assert !Differs(p, desired)(POD_REVISION);
    AtoiItoa(pool.desiredPodRevision);
  }

  /** With nothing obsolete left, the pass finishes. */
  lemma CalmFinish(p: Pass, s: PodsStatus, l: Lifecycle)
    requires p.Replacing() && !p.pool.state.Running? && CalmStatus(s, p.pool, p.pods) && |p.pods| == p.pool.nodeCount
    requires !l.FoundDifference() && forall q :: q in p.pods ==> Revision(q) == Some(p.pool.desiredPodRevision)
    ensures p.DecideFrom(s, l) == Some(FinishMaintenance)
  {
    forall i | 0 <= i < |p.pods| ensures s.podRevisions[i] == p.pool.desiredPodRevision { assert p.pods[i] in p.pods; }
  }

  /** With something obsolete left, the pass does something. */
  lemma CalmWork(p: Pass, s: PodsStatus, l: Lifecycle)
    requires p.Replacing() && !p.NewRevision() && BOOTSTRAP_TOKEN_HASH in p.desired.annotations
    requires CalmStatus(s, p.pool, p.pods)
    requires l.ADifferenceWasDetectedAndManualDeletionsNotEnabled()
    requires p.DecideZone().None? ==> l.podsToBeReplaced != []
    ensures p.DecideFrom(s, l).Some? && DoesWork(p.DecideFrom(s, l).value)
  {
  }

  /** When neither a pin nor a clear is due, some obsolete pod may be deleted at once. */
  lemma SomethingReplaceable(c: Settings, p: Pass, ctx: Context, q: Pod)
    requires c.Valid() && p.desired == c.desired && forall r :: StaleTest(p.pool)(r) <==> StaleTest(c.pool)(r)
    requires ctx == Context(p.pool, p.desired, p.zones, false)
    requires forall r :: r in p.pods ==> !r.deleting && r.spec.nodeName != "" && HasHumioContainer(r.spec)
    requires q in p.pods && Outdated(ctx, q) && p.DecideZone().None?
    ensures exists r :: r in p.pods && Replaceable(ctx, r)
  {
    if p.ZoneAware() && p.pool.zoneUnderMaintenance != "" {
      var r :| r in p.pods && ZoneOf(p.zones, r) == p.pool.zoneUnderMaintenance && StaleTest(p.pool)(r);
      StaleIsObsolete(c, r);
      OutdatedIsObsolete(ctx, r);
      assert Replaceable(ctx, r);
    } else {
      assert Replaceable(ctx, q);
    }
  }

  lemma CalmDecision(c: Settings, p: Pass, s: PodsStatus)
    requires c.Valid() && p.clusterState == c.state && p.desired == c.desired && Calm(p.pool, p.pods, p.now)
    requires p.pool == c.pool.(state := c.state, zoneUnderMaintenance := p.pool.zoneUnderMaintenance)
    requires CalmStatus(s, p.pool, p.pods)
    ensures AllComparable(p.CompareContext(s), p.Considered(s))
    ensures var d := p.DecideFrom(s, p.LifecycleFrom(s)); d.Some? && (d.value.FinishMaintenance? || DoesWork(d.value))
  {
    var ctx, l := p.CompareContext(s), p.LifecycleFrom(s);
    DifferenceMeansOutdated(ctx, p.pods);
    ReplacedPods(ctx, p.pods);
    if l.FoundDifference() {
      var q :| q in p.pods && Outdated(ctx, q);
      if p.DecideZone().None? {
        SomethingReplaceable(c, p, ctx, q);
        var r :| r in p.pods && Replaceable(ctx, r);
        assert ReplaceTest(ctx)(r);
      }
      CalmWork(p, s, l);
    } else {
      forall q | q in p.pods ensures Revision(q) == Some(p.pool.desiredPodRevision) {
        OutdatedIsObsolete(ctx, q);
        UpToDateRevision(c.pool, c.desired, q);
      }
      CalmFinish(p, s, l);
    }
  }

  /** Over such pods a pass finishes, or does something. */
  lemma CalmPassDecides(c: Settings, p: Pass)
    requires c.Valid() && p.clusterState == c.state && p.desired == c.desired && Calm(p.pool, p.pods, p.now)
    requires p.pool == c.pool.(state := c.state, zoneUnderMaintenance := p.pool.zoneUnderMaintenance)
    ensures p.Decide().Some? && (p.Decide().value.FinishMaintenance? || DoesWork(p.Decide().value))
  {
    CalmStatusOf(p.pool, p.pods, p.now);
    CalmDecision(c, p, StatusOf(p.pool, p.pods, p.now).value);
  }

  ghost predicate IsCalm(w: World, a: Action, name: string) {
    a.Maintain? && a.pool.name == name && a.written && Calm(a.pool, w.PodsOf(name), a.now)
  }

  /** A pass over settled pods that does not finish does something. */
  lemma CalmPassWorks(configured: set<string>, c: Settings, w: World, a: Action, w': World)
    requires Next(configured, w, a, w') && c.Valid() && c.InForce(w) && KeepsTo(c, w, a)
    requires IsCalm(w, a, c.pool.name) && !Finishes(w, a, c.pool.name)
    ensures Works(w, a, c.pool.name)
  {
    StepsSnapshot(configured, w, a, w');
    PassIsMade(c, w, a);
    SortedListing(c.PodsIn(w));
    CalmPassDecides(c, PassOf(w, a));
  }

  ghost function CalmTest(name: string): (World, Action) -> bool { (w: World, a: Action) => IsCalm(w, a, name) }

  /** Maintenance comes to an end: in a run that keeps to the settings, whatever the kubelets do, more passes over
      settled pods than there was to do at the start and delete calls were given up cannot be made without one of
      them, or one in between, finishing. */
  lemma FinishIsReached(configured: set<string>, c: Settings, ws: seq<World>, acts: seq<Action>)
    requires Undisturbed(configured, c, ws, acts)
    requires Count(ws, acts, CalmTest(c.pool.name)) > Rank(c, ws[0]) + GivenUp(ws, acts, c.pool.name)
    ensures exists i :: 0 <= i < |acts| && Finishes(ws[i], acts[i], c.pool.name)
  {
    if forall i :: 0 <= i < |acts| ==> !Finishes(ws[i], acts[i], c.pool.name) {
      CalmIsWork(configured, c, ws, acts);
      BoundedWork(configured, c, ws, acts);
    }
  }

  lemma {:induction false} CalmIsWork(configured: set<string>, c: Settings, ws: seq<World>, acts: seq<Action>)
    requires Undisturbed(configured, c, ws, acts)
    requires forall i :: 0 <= i < |acts| ==> !Finishes(ws[i], acts[i], c.pool.name)
    ensures Count(ws, acts, CalmTest(c.pool.name)) <= Count(ws, acts, WorkTest(c.pool.name))
    decreases |acts|
  {
    if acts != [] {
      var n := |acts| - 1;
      PrefixUndisturbed(configured, c, ws, acts);
      CalmIsWork(configured, c, ws[..n + 1], acts[..n]);
      BoundedWork(configured, c, ws[..n + 1], acts[..n]);
      assert ws[..n + 1][n] == ws[n];
      if IsCalm(ws[n], acts[n], c.pool.name) { CalmPassWorks(configured, c, ws[n], acts[n], ws[n + 1]); }
    }
  }

  // ----- New pods are left alone

  /** No pod of that name is obsolete. */
  predicate UpToDate(c: Settings, w: World, name: string) {
    forall p :: p in c.PodsIn(w) && p.name == name ==> !Obsolete(c.desired, p)
  }

  lemma StepStaysUpToDate(configured: set<string>, c: Settings, w: World, a: Action, w': World, name: string)
    requires Next(configured, w, a, w') && c.Valid() && KeepsTo(c, w, a) && UpToDate(c, w, name)
    ensures UpToDate(c, w', name)
  {
    hide Next, Obsolete;
    forall q | q in c.PodsIn(w') && q !in c.PodsIn(w) && q.name == name ensures !Obsolete(c.desired, q) {
      NewInListing(configured, w, a, w', c.pool.name, q);
      match a
      case DeleteNext => {
        var p :| p in c.PodsIn(w) && q == p.(deleting := true);
        SamePodObsolete(c.desired, p, q);
      }
      case Kubelet(_, k, after) => ChangedStaysUpToDate(configured, c, w, a, w', name);
      case CreatePods(pool, _) => MadeIsUpToDate(c, pool, q);
    }
  }

  lemma ChangedStaysUpToDate(configured: set<string>, c: Settings, w: World, a: Action, w': World, name: string)
    requires Next(configured, w, a, w') && KeepsTo(c, w, a) && UpToDate(c, w, name)
    requires a.Kubelet? && a.poolName == c.pool.name && a.after.name == name
    ensures !Obsolete(c.desired, a.after)
  {
    var p := c.PodsIn(w)[a.index];
    assert p in c.PodsIn(w) && p.name == name;
    SamePodObsolete(c.desired, p, a.after);
  }

  lemma {:induction false} StaysUpToDate(
    configured: set<string>, c: Settings, ws: seq<World>, acts: seq<Action>, name: string, i: nat, j: nat)
    requires Run(configured, ws, acts) && i <= j <= |acts| && c.Valid() && UpToDate(c, ws[i], name)
    requires forall k :: i <= k < j ==> KeepsTo(c, ws[k], acts[k])
    ensures UpToDate(c, ws[j], name)
  {
    hide KeepsTo, UpToDate, Next;
    if i < j {
      StaysUpToDate(configured, c, ws, acts, name, i, j - 1);
      StepStaysUpToDate(configured, c, ws[j - 1], acts[j - 1], ws[j], name);
    }
  }

  lemma CreatedIsUpToDate(configured: set<string>, c: Settings, w: World, a: Action, w': World, p: Pod)
    requires Next(configured, w, a, w') && c.Valid() && KeepsTo(c, w, a)
    requires a.CreatePods? && a.pool.name == c.pool.name && p in a.created
    ensures p in c.PodsIn(w') && UpToDate(c, w', p.name)
  {
    MadeIsUpToDate(c, a.pool, p);
    forall q | q in c.PodsIn(w') && q.name == p.name
      ensures q == p
    {
      if q != p { NamesTellApart(c.PodsIn(w'), p, q); }
    }
  }

  lemma BatchSparesUpToDate(c: Settings, w: World, a: Action, name: string)
    requires DeletesBatch(w, a) && a.pool.name == c.pool.name && KeepsTo(c, w, a) && UpToDate(c, w, name)
    ensures name !in SetOut(w, a)
  {
    var d := PassOf(w, a).Decide().value;
    BatchIsObsolete(PassOf(w, a), d);
    SortedListing(c.PodsIn(w));
    forall victim | victim in SetOut(w, a) ensures victim != name {
      VictimIsDeleted(d, victim);
      var q :| q in Deleted(d) && q.name == victim;
      assert q in c.PodsIn(w);
    }
  }

  /** A pod that is created under the settings is in no later batch, as long as they stay as they are. */
  lemma NewPodsAreLeftAlone(
    configured: set<string>, c: Settings, ws: seq<World>, acts: seq<Action>, i: nat, j: nat, p: Pod)
    requires Run(configured, ws, acts) && c.Valid() && i < j < |acts|
    requires forall k :: i <= k <= j ==> KeepsTo(c, ws[k], acts[k])
    requires acts[i].CreatePods? && acts[i].pool.name == c.pool.name && p in acts[i].created
    requires DeletesBatch(ws[j], acts[j]) && acts[j].pool.name == c.pool.name
    ensures p.name !in SetOut(ws[j], acts[j])
  {
    CreatedIsUpToDate(configured, c, ws[i], acts[i], ws[i + 1], p);
    StaysUpToDate(configured, c, ws, acts, p.name, i + 1, j);
    BatchSparesUpToDate(c, ws[j], acts[j], p.name);
  }

  /** What the part of a reconcile that creates pods leaves behind is a step that keeps to the settings, as long as it
      takes certificates under names that the operator gave. */
  lemma CreationKeepsTo(configured: set<string>, c: Settings, w: World, b: Blueprint, certificates: seq<Certificate>,
                        pods': seq<Pod>)
    requires w.worker.Idle? && b.pool.name in configured && b.pool.name == c.pool.name && b.DesiredPod() == c.desired
    requires Allows(configured, w.entries, b.pool.name) && Snapshot(b.pool, w.entries)
    requires var pods := w.PodsOf(b.pool.name);
      && pods <= pods' && UniqueNames(pods') && |pods'| <= Max(|pods|, b.pool.nodeCount)
      && forall k :: |pods| <= k < |pods'| ==>
           && MadeWell(b, certificates, pods'[k])
           && (b.tls ==> IsNodeName(b.pool, pods'[k].name))
    requires b.tls ==> AllCurrent(b.pool, b.certificateHash, certificates)
    ensures var pods := w.PodsOf(b.pool.name);
      var a := CreatePods(b.pool, pods'[|pods|..]);
      Next(configured, w, a, w.(pods := w.pods[b.pool.name := pods'])) && KeepsTo(c, w, a)
  {
    hide MadeWell, MadeBySettings, AllCurrent, Next, FreshPod;
    var pods := w.PodsOf(b.pool.name);
    forall k | |pods| <= k < |pods'| ensures FreshPod(b.pool, pods'[k]) && MadeBySettings(c, b.pool, pods'[k]) {
      MadeWellBySettings(c, b, certificates, pods'[k]);
    }
    CreationIsAStep(configured, w, b, pods');
    forall p | p in pods'[|pods|..] ensures MadeBySettings(c, b.pool, p) {
      var k :| 0 <= k < |pods'| - |pods| && pods'[|pods|..][k] == p;
      assert pods'[|pods| + k] == p;
    }
  }

  lemma MadeWellBySettings(c: Settings, b: Blueprint, certificates: seq<Certificate>, p: Pod)
    requires b.DesiredPod() == c.desired && MadeWell(b, certificates, p) && (b.tls ==> IsNodeName(b.pool, p.name))
    requires b.tls ==> AllCurrent(b.pool, b.certificateHash, certificates)
    ensures FreshPod(b.pool, p) && MadeBySettings(c, b.pool, p)
  {
  }
}
