/** Accounting of the pods of a node pool. */
module PodsStatuses {
  import opened Kube
  import opened NodePools
  import opened Decimal
  import opened Ordering
  import opened Seqs

  const CONTAINER_CREATING := "ContainerCreating"
  const COMPLETED := "Completed"
  const POD_INITIALIZING := "PodInitializing"
  const UNSCHEDULABLE := "Unschedulable"
  const EVICTED := "Evicted"
  const MAXIMUM_MIN_READY_REQUEUE := 300

  function Max(a: int, b: int): int { if a >= b then a else b }
  function Min(a: int, b: int): int { if a <= b then a else b }

  datatype PodsStatus = PodsStatus(
    nodeCount: int,
    readyCount: int,
    notReadyCount: int,
    notReadyDueToMinReadySeconds: int,
    podRevisions: seq<int>,
    podsWithErrors: seq<Pod>,
    podsRequiringDeletion: seq<Pod>,
    scaledMaxUnavailable: int,
    minReadySeconds: int)
  {
    predicate HaveUnschedulablePodsOrPodsWithBadStatusConditions() { |podsWithErrors| > 0 }

    predicate FoundEvictedPodsOrPodsWithOrphanedPVCs() { |podsRequiringDeletion| > 0 }

    predicate WaitingOnPods() {
      && (readyCount < nodeCount || notReadyCount > 0)
      && !HaveUnschedulablePodsOrPodsWithBadStatusConditions()
      && !FoundEvictedPodsOrPodsWithOrphanedPVCs()
    }

    /** How many pods one pass may delete. */
    function DeletionBudget(): int { Max(scaledMaxUnavailable - notReadyDueToMinReadySeconds, 0) }

    predicate RevisionsMatch(podRevision: int) {
      |podRevisions| == nodeCount && forall i :: 0 <= i < |podRevisions| ==> podRevisions[i] == podRevision
    }

    /** The counting loop behind `RevisionsMatch`. */
    method PodRevisionCountMatchesNodeCountAndAllPodsHaveRevision(podRevision: int) returns (r: bool)
      ensures r == RevisionsMatch(podRevision)
    {
      if |podRevisions| != nodeCount { return false; }
      var numCorrectRevisionsFound := 0;
      for i := 0 to |podRevisions|
        invariant 0 <= numCorrectRevisionsFound <= i
        invariant numCorrectRevisionsFound == i <==> forall k :: 0 <= k < i ==> podRevisions[k] == podRevision
      {
        if podRevisions[i] == podRevision { numCorrectRevisionsFound := numCorrectRevisionsFound + 1; }
      }
      return numCorrectRevisionsFound == nodeCount;
    }
  }

  // ----- How long a pod still has to stay ready

  predicate ReadyTrue(c: Condition) { c.kind.PodReady? && c.status.ConditionTrue? }

  /** The latest transition to ready, or 0 (the zero time) when there is none. */
  function LatestTransition(conditions: seq<Condition>): (t: nat)
    ensures forall c :: c in conditions && ReadyTrue(c) ==> c.lastTransition <= t
    ensures t != 0 ==> exists c :: c in conditions && ReadyTrue(c) && c.lastTransition == t
  {
    if conditions == [] then 0
    else
      var c := conditions[|conditions| - 1];
      var t := LatestTransition(conditions[..|conditions| - 1]);
      if ReadyTrue(c) && c.lastTransition > t then c.lastTransition else t
  }

  /** Seconds left of the wait, rounded down and capped; -1 when the wait is over. `now` is in milliseconds. */
  function RemainingWait(conditions: seq<Condition>, minReadySeconds: int, now: nat): int {
    var t := LatestTransition(conditions);
    if t == 0 || now - t > 1000 * minReadySeconds then -1
    else Min((1000 * minReadySeconds - (now - t)) / 1000, MAXIMUM_MIN_READY_REQUEUE)
  }

  method LatestTransitionTime(conditions: seq<Condition>) returns (t: nat)
    requires forall c :: c in conditions ==> ReadyTrue(c)
    ensures t == LatestTransition(conditions)
  {
    if |conditions| == 0 { return 0; }
    t := conditions[0].lastTransition;
    for idx := 0 to |conditions|
      invariant idx == 0 ==> t == conditions[0].lastTransition
      invariant idx > 0 ==> t == LatestTransition(conditions[..idx])
    {
      var prefix := conditions[..idx + 1];
      assert prefix[|prefix| - 1] == conditions[idx] && prefix[..|prefix| - 1] == conditions[..idx];
      assert ReadyTrue(conditions[idx]);
      if conditions[idx].lastTransition == 0 { continue; }
      if idx == 0 || conditions[idx].lastTransition > t {
        t := conditions[idx].lastTransition;
      }
    }
    assert conditions[..|conditions|] == conditions;
  }

  lemma LatestSnoc(conditions: seq<Condition>, c: Condition)
    ensures var t := LatestTransition(conditions);
      LatestTransition(conditions + [c]) == if ReadyTrue(c) && c.lastTransition > t then c.lastTransition else t
  {
    assert (conditions + [c])[..|conditions|] == conditions;
  }

  lemma {:induction false} LatestOfFiltered(conditions: seq<Condition>)
    ensures LatestTransition(Filter(ReadyTrue, conditions)) == LatestTransition(conditions)
  {
    if conditions != [] {
      var init, c := conditions[..|conditions| - 1], conditions[|conditions| - 1];
      assert conditions == init + [c];
      LatestOfFiltered(init);
      FilterSnoc(ReadyTrue, init, c);
      LatestSnoc(init, c);
      LatestSnoc(Filter(ReadyTrue, init), c);
    }
  }

  method ReadyConditions(all: seq<Condition>) returns (conditions: seq<Condition>)
    ensures conditions == Filter(ReadyTrue, all)
  {
    conditions := [];
    for k := 0 to |all|
      invariant conditions == Filter(ReadyTrue, all[..k])
    {
      assert all[..k + 1] == all[..k] + [all[k]];
      FilterSnoc(ReadyTrue, all[..k], all[k]);
      if ReadyTrue(all[k]) { conditions := conditions + [all[k]]; }
    }
    assert all[..|all|] == all;
  }

  method RemainingMinReadyWaitTime(pod: Pod, minReadySeconds: int, now: nat) returns (wait: int)
    ensures wait == RemainingWait(pod.status.conditions, minReadySeconds, now)
  {
    var conditions := ReadyConditions(pod.status.conditions);
    LatestOfFiltered(pod.status.conditions);
    var latest := LatestTransitionTime(conditions);
    if latest != 0 {
      var diff := now - latest;
      var minRdy := 1000 * minReadySeconds;
      if diff <= minRdy {
        return Min((minRdy - diff) / 1000, MAXIMUM_MIN_READY_REQUEUE);
      }
    }
    return -1;
  }

  /** A pod whose transition time is known has waited enough one second early at most, and never later than asked. What
      is left to wait is told in whole seconds, 300 at most; after that, or without a known time, it is -1. */
  lemma MinReadyWindow(conditions: seq<Condition>, minReadySeconds: int, now: nat)
    ensures var wait, t := RemainingWait(conditions, minReadySeconds, now), LatestTransition(conditions);
      var left := 1000 * minReadySeconds - (now - t);
      && (t == 0 || left < 0 ==> wait == -1)
      && (t != 0 ==> (wait <= 0 <==> now - t > 1000 * (minReadySeconds - 1)))
      && (t != 0 && 0 <= left < 300 * 1000 ==> 1000 * wait <= left < 1000 * (wait + 1))
      && (t != 0 && left >= 300 * 1000 ==> wait == 300)
  {
  }

  // ----- What one pod adds to the counts

  predicate Evicted(p: Pod) { p.status.phase.PhaseFailed? && p.status.reason == EVICTED }

  predicate NeedsCleanup(pool: NodePool, p: Pod) {
    && !p.deleting
    && (Evicted(p) || (p.status.phase.PhasePending? && p.status.claimCheck.ClaimOrphaned? && pool.OkToDeletePvc()))
  }

  function CleanupTest(pool: NodePool): Pod -> bool { (p: Pod) => NeedsCleanup(pool, p) }

  predicate ClaimCheckFails(p: Pod) {
    !p.deleting && !Evicted(p) && p.status.phase.PhasePending? && p.status.claimCheck.ClaimCheckFailed?
  }

  function Revision(p: Pod): Option<int> { Atoi(Lookup(p.annotations, POD_REVISION)) }

  function ContainerErrors(p: Pod, statuses: seq<ContainerStatus>): seq<Pod> {
    if statuses == [] then []
    else
      var s := statuses[|statuses| - 1];
      ContainerErrors(p, statuses[..|statuses| - 1])
      + (if s.waiting.Some? && s.waiting.value != CONTAINER_CREATING && s.waiting.value != POD_INITIALIZING
           then [p] else [])
      + (if s.terminated.Some? && s.terminated.value != COMPLETED then [p] else [])
  }

  predicate UnschedulableCondition(c: Condition) { c.status.ConditionFalse? && c.reason == UNSCHEDULABLE }

  /** What the conditions of a pod contribute: ready counts, waits for the minimum ready time, and error entries. */
  datatype Tally = Tally(ready: nat, waiting: nat, errors: seq<Pod>)

  function AddTally(a: Tally, b: Tally): Tally { Tally(a.ready + b.ready, a.waiting + b.waiting, a.errors + b.errors) }

  const NOTHING := Tally(0, 0, [])

  function ConditionTally(p: Pod, c: Condition, wait: int): Tally {
    if UnschedulableCondition(c) then Tally(0, 0, [p])
    else if !c.kind.PodReady? then NOTHING
    else if c.status.ConditionTrue? && wait <= 0 then Tally(1, 0, [])
    else Tally(0, if wait > 0 then 1 else 0, ContainerErrors(p, p.status.containerStatuses))
  }

  function ConditionsTally(p: Pod, conditions: seq<Condition>, wait: int): Tally {
    if conditions == [] then NOTHING
    else AddTally(ConditionsTally(p, conditions[..|conditions| - 1], wait),
                  ConditionTally(p, conditions[|conditions| - 1], wait))
  }

  function PodTally(p: Pod, minReadySeconds: int, now: nat): Tally {
    if p.deleting || Evicted(p) then NOTHING
    else ConditionsTally(p, p.status.conditions, RemainingWait(p.status.conditions, minReadySeconds, now))
  }

  function PodsTally(pods: seq<Pod>, minReadySeconds: int, now: nat): Tally {
    if pods == [] then NOTHING
    else AddTally(PodsTally(pods[..|pods| - 1], minReadySeconds, now), PodTally(pods[|pods| - 1], minReadySeconds, now))
  }

  // ----- The whole status

  function ScaledValue(v: IntOrPercent, total: int): Option<int> {
    match v
    case Absolute(n) => Some(n)
    case Percent(p) => Some(p * total / 100)
    case Malformed => None
  }

  function PodLess(): (Pod, Pod) -> bool { (x: Pod, y: Pod) => StrLess(x.name, y.name) }

  function SortByName(pods: seq<Pod>): seq<Pod> { Sort(PodLess(), pods) }

  /** The listing order is a proper one, and when names are unique it does not depend on the order of the API's
      answer. */
  lemma ListingOrder(pods: seq<Pod>, answer: seq<Pod>)
    requires multiset(pods) == multiset(answer)
    requires forall i, j :: 0 <= i < j < |pods| ==> pods[i].name != pods[j].name
    ensures WeakOrder(PodLess()) && Sorted(PodLess(), SortByName(pods))
    ensures var sorted := SortByName(pods);
      forall i, j :: 0 <= i < j < |sorted| ==> !StrLess(sorted[j].name, sorted[i].name)
    ensures SortByName(pods) == SortByName(answer)
  {
    NameOrder((p: Pod) => p.name, PodLess());
    SortSorts(PodLess(), pods);
    forall i, j | 0 <= i < |pods| && 0 <= j < |pods| && pods[i] != pods[j]
      ensures PodLess()(pods[i], pods[j]) || PodLess()(pods[j], pods[i])
    {
      assert pods[i].name != pods[j].name;
      StrLessTotal(pods[i].name, pods[j].name);
    }
    SortCanonical(PodLess(), pods, answer);
  }

  function Revisions(pods: seq<Pod>): (r: seq<int>)
    ensures |r| == |pods|
    ensures forall i :: 0 <= i < |pods| && Revision(pods[i]).Some? ==> r[i] == Revision(pods[i]).value
  {
    Map((p: Pod) => RevisionNumber(p), pods)
  }

  lemma RevisionsSnoc(pods: seq<Pod>, p: Pod)
    ensures Revisions(pods + [p]) == Revisions(pods) + [RevisionNumber(p)]
  {
  }

  function MakeStatus(pool: NodePool, tally: Tally, total: nat, revisions: seq<int>,
                      cleanup: seq<Pod>, scaledMaxUnavailable: int): PodsStatus {
    PodsStatus(
      pool.nodeCount, tally.ready, total - tally.ready, tally.waiting, revisions, tally.errors, cleanup,
      Max(scaledMaxUnavailable, 1), pool.GetUpdateStrategy().minReadySeconds)
  }

  /** The status after the first pods of a list of `total` pods. */
  function StatusSoFar(pool: NodePool, pods: seq<Pod>, total: nat, scaledMaxUnavailable: int, now: nat): PodsStatus {
    MakeStatus(pool, PodsTally(pods, pool.GetUpdateStrategy().minReadySeconds, now), total,
               Revisions(pods), Filter(CleanupTest(pool), pods), scaledMaxUnavailable)
  }

  /** What one more pod changes. */
  function Counted(s: PodsStatus, tally: Tally, revision: int, cleanup: seq<Pod>): PodsStatus {
    s.(podRevisions := s.podRevisions + [revision],
       readyCount := s.readyCount + tally.ready,
       notReadyCount := s.notReadyCount - tally.ready,
       notReadyDueToMinReadySeconds := s.notReadyDueToMinReadySeconds + tally.waiting,
       podsWithErrors := s.podsWithErrors + tally.errors,
       podsRequiringDeletion := s.podsRequiringDeletion + cleanup)
  }

  lemma MakeCounted(pool: NodePool, a: Tally, b: Tally, total: nat, revisions: seq<int>, revision: int, c: seq<Pod>,
                    d: seq<Pod>, scaled: int)
    ensures MakeStatus(pool, AddTally(a, b), total, revisions + [revision], c + d, scaled)
         == Counted(MakeStatus(pool, a, total, revisions, c, scaled), b, revision, d)
  {
  }

  function RevisionNumber(p: Pod): int { if Revision(p).Some? then Revision(p).value else 0 }

  function CleanupOf(pool: NodePool, p: Pod): seq<Pod> { if NeedsCleanup(pool, p) then [p] else [] }

  predicate Unreadable(p: Pod) { Revision(p).None? || ClaimCheckFails(p) }

  /** The status of a list of pods, in name order; none when a pod has no readable revision, a claim check fails, or
      maxUnavailable is malformed. */
  function StatusOf(pool: NodePool, pods: seq<Pod>, now: nat): Option<PodsStatus> {
    var scaled := ScaledValue(pool.GetUpdateStrategy().maxUnavailable, pool.nodeCount);
    if scaled.None? || (exists p :: p in pods && Unreadable(p)) then None
    else Some(StatusSoFar(pool, pods, |pods|, scaled.value, now))
  }

  lemma PodsTallySnoc(pods: seq<Pod>, p: Pod, minReadySeconds: int, now: nat)
    ensures PodsTally(pods + [p], minReadySeconds, now)
         == AddTally(PodsTally(pods, minReadySeconds, now), PodTally(p, minReadySeconds, now))
  {
    assert (pods + [p])[..|pods|] == pods;
  }

  lemma CleanupSnoc(pool: NodePool, pods: seq<Pod>, p: Pod)
    ensures Filter(CleanupTest(pool), pods + [p]) == Filter(CleanupTest(pool), pods) + CleanupOf(pool, p)
  {
    FilterSnoc(CleanupTest(pool), pods, p);
  }

  lemma StatusSnoc(pool: NodePool, pods: seq<Pod>, p: Pod, total: nat, scaledMaxUnavailable: int, now: nat)
    ensures StatusSoFar(pool, pods + [p], total, scaledMaxUnavailable, now)
         == Counted(StatusSoFar(pool, pods, total, scaledMaxUnavailable, now),
                    PodTally(p, pool.GetUpdateStrategy().minReadySeconds, now), RevisionNumber(p), CleanupOf(pool, p))
  {
    var minReadySeconds := pool.GetUpdateStrategy().minReadySeconds;
    PodsTallySnoc(pods, p, minReadySeconds, now);
    CleanupSnoc(pool, pods, p);
    RevisionsSnoc(pods, p);
    MakeCounted(pool, PodsTally(pods, minReadySeconds, now), PodTally(p, minReadySeconds, now), total,
                Revisions(pods), RevisionNumber(p), Filter(CleanupTest(pool), pods),
                CleanupOf(pool, p), scaledMaxUnavailable);
  }

  method TallyCondition(t: Tally, p: Pod, condition: Condition, minReadySeconds: int, now: nat) returns (r: Tally)
    ensures r == AddTally(t, ConditionTally(p, condition, RemainingWait(p.status.conditions, minReadySeconds, now)))
  {
    if condition.status.ConditionFalse? {
      if condition.reason == UNSCHEDULABLE { return t.(errors := t.errors + [p]); }
    }
    r := t;
    if condition.kind.PodReady? {
      var wait := RemainingMinReadyWaitTime(p, minReadySeconds, now);
      if condition.status.ConditionTrue? && wait <= 0 {
        r := r.(ready := r.ready + 1);
      } else {
        if wait > 0 { r := r.(waiting := r.waiting + 1); }
        var errors := CollectContainerErrors(p);
        r := r.(errors := r.errors + errors);
      }
    }
  }

  method TallyConditions(p: Pod, minReadySeconds: int, now: nat) returns (t: Tally)
    requires !p.deleting && !Evicted(p)
    ensures t == PodTally(p, minReadySeconds, now)
  {
    t := NOTHING;
    var conditions := p.status.conditions;
    ghost var w := RemainingWait(conditions, minReadySeconds, now);
    for k := 0 to |conditions|
      invariant t == ConditionsTally(p, conditions[..k], w)
    {
      assert conditions[..k + 1][..k] == conditions[..k];
      t := TallyCondition(t, p, conditions[k], minReadySeconds, now);
    }
    assert conditions[..|conditions|] == conditions;
  }

  method CollectContainerErrors(p: Pod) returns (errors: seq<Pod>)
    ensures errors == ContainerErrors(p, p.status.containerStatuses)
  {
    errors := [];
    var statuses := p.status.containerStatuses;
    for k := 0 to |statuses|
      invariant errors == ContainerErrors(p, statuses[..k])
    {
      assert statuses[..k + 1][..k] == statuses[..k];
      var s := statuses[k];
      if s.waiting.Some? && s.waiting.value != CONTAINER_CREATING && s.waiting.value != POD_INITIALIZING {
        errors := errors + [p];
      }
      if s.terminated.Some? && s.terminated.value != COMPLETED {
        errors := errors + [p];
      }
    }
    assert statuses[..|statuses|] == statuses;
  }

  /** The body of the counting loop: one more pod. */
  method AddPod(s: PodsStatus, pool: NodePool, pod: Pod, now: nat) returns (r: Option<PodsStatus>)
    requires s.minReadySeconds == pool.GetUpdateStrategy().minReadySeconds
    ensures r.None? <==> Unreadable(pod)
    ensures r.Some? ==>
      r.value == Counted(s, PodTally(pod, s.minReadySeconds, now), RevisionNumber(pod), CleanupOf(pool, pod))
  {
    var podRevision := Revision(pod);
    if podRevision.None? { return None; }
    var status := s.(podRevisions := s.podRevisions + [podRevision.value]);
    if pod.deleting { return Some(status); }
    if Evicted(pod) {
      status := status.(podsRequiringDeletion := status.podsRequiringDeletion + [pod]);
      return Some(status);
    }
    if pod.status.phase.PhasePending? {
      if pod.status.claimCheck.ClaimCheckFailed? { return None; }
      if pod.status.claimCheck.ClaimOrphaned? && pool.OkToDeletePvc() {
        status := status.(podsRequiringDeletion := status.podsRequiringDeletion + [pod]);
      }
    }
    var tally := TallyConditions(pod, s.minReadySeconds, now);
    return Some(status.(
      readyCount := status.readyCount + tally.ready,
      notReadyCount := status.notReadyCount - tally.ready,
      notReadyDueToMinReadySeconds := status.notReadyDueToMinReadySeconds + tally.waiting,
      podsWithErrors := status.podsWithErrors + tally.errors));
  }

  /** One turn of the counting loop. */
  method CountPod(s: PodsStatus, pool: NodePool, ghost counted: seq<Pod>, pod: Pod, ghost total: nat,
                  ghost scaledMaxUnavailable: int, now: nat)
      returns (r: Option<PodsStatus>)
    requires s == StatusSoFar(pool, counted, total, scaledMaxUnavailable, now)
    ensures r.None? <==> Unreadable(pod)
    ensures r.Some? ==> r.value == StatusSoFar(pool, counted + [pod], total, scaledMaxUnavailable, now)
  {
    StatusSnoc(pool, counted, pod, total, scaledMaxUnavailable, now);
    r := AddPod(s, pool, pod, now);
  }

  method CountPods(pool: NodePool, pods: seq<Pod>, scaledMaxUnavailable: int, now: nat) returns (r: Option<PodsStatus>)
    ensures r.None? <==> exists p :: p in pods && Unreadable(p)
    ensures r.Some? ==> r.value == StatusSoFar(pool, pods, |pods|, scaledMaxUnavailable, now)
  {
    var status := PodsStatus(pool.nodeCount, 0, |pods|, 0, [], [], [], Max(scaledMaxUnavailable, 1),
                             pool.GetUpdateStrategy().minReadySeconds);
    for k := 0 to |pods|
      invariant forall i :: 0 <= i < k ==> !Unreadable(pods[i])
      invariant status == StatusSoFar(pool, pods[..k], |pods|, scaledMaxUnavailable, now)
    {
      assert pods[..k + 1] == pods[..k] + [pods[k]];
      assert pods[k] in pods;
      var added := CountPod(status, pool, pods[..k], pods[k], |pods|, scaledMaxUnavailable, now);
      if added.None? { return None; }
      status := added.value;
    }
    assert pods[..|pods|] == pods;
    return Some(status);
  }

  method GetPodsStatus(pool: NodePool, foundPodList: seq<Pod>, now: nat) returns (r: Option<PodsStatus>)
    ensures r == StatusOf(pool, SortByName(foundPodList), now)
  {
    var scaledMaxUnavailable := ScaledValue(pool.GetUpdateStrategy().maxUnavailable, pool.nodeCount);
    if scaledMaxUnavailable.None? { return None; }
    r := CountPods(pool, SortByName(foundPodList), scaledMaxUnavailable.value, now);
  }

  // ----- What the counts mean

  /** The pod's Ready condition holds and nobody is deleting it. */
  predicate Available(p: Pod) {
    !p.deleting && exists c :: c in p.status.conditions && ReadyTrue(c)
  }

  predicate AtMostOneReadyCondition(p: Pod) {
    forall i, j :: 0 <= i < j < |p.status.conditions| ==>
      !(p.status.conditions[i].kind.PodReady? && p.status.conditions[j].kind.PodReady?)
  }

  /** What the kubelet guarantees: one Ready condition, and a ready pod is neither pending, evicted, unschedulable nor
      broken. */
  predicate WellFormed(p: Pod) {
    && AtMostOneReadyCondition(p)
    && ((exists c :: c in p.status.conditions && ReadyTrue(c)) ==>
          && !Evicted(p)
          && !p.status.phase.PhasePending?
          && (forall c :: c in p.status.conditions ==> !UnschedulableCondition(c))
          && ContainerErrors(p, p.status.containerStatuses) == [])
  }

  /** Counted as ready by the operator. */
  predicate CountsAsReady(p: Pod, minReadySeconds: int, now: nat) {
    PodTally(p, minReadySeconds, now).ready > 0
  }

  lemma {:induction false} ConditionsReady(p: Pod, conditions: seq<Condition>, wait: int)
    ensures var t := ConditionsTally(p, conditions, wait);
            && (t.ready > 0 ==> wait <= 0 && exists c :: c in conditions && ReadyTrue(c))
            && ((forall i, j :: 0 <= i < j < |conditions| ==>
                   !(conditions[i].kind.PodReady? && conditions[j].kind.PodReady?))
                ==> t.ready <= 1)
            && ((forall i :: 0 <= i < |conditions| ==> !conditions[i].kind.PodReady?) ==> t.ready == 0)
            && (forall e :: e in t.errors ==> e == p)
  {
    if conditions != [] {
      var init := conditions[..|conditions| - 1];
      ConditionsReady(p, init, wait);
      ContainerErrorsAreThePod(p, p.status.containerStatuses);
      assert forall c :: c in init ==> c in conditions;
      assert conditions[|conditions| - 1] in conditions;
      assert forall i :: 0 <= i < |init| ==> init[i] == conditions[i];
    }
  }

  lemma {:induction false} ContainerErrorsAreThePod(p: Pod, statuses: seq<ContainerStatus>)
    ensures forall e :: e in ContainerErrors(p, statuses) ==> e == p
  {
    if statuses != [] { ContainerErrorsAreThePod(p, statuses[..|statuses| - 1]); }
  }

  lemma {:induction false} AvailablePodHasNoErrors(p: Pod, conditions: seq<Condition>, wait: int)
    requires WellFormed(p) && Available(p) && forall c :: c in conditions ==> c in p.status.conditions
    ensures ConditionsTally(p, conditions, wait).errors == []
  {
    if conditions != [] {
      AvailablePodHasNoErrors(p, conditions[..|conditions| - 1], wait);
      assert conditions[|conditions| - 1] in p.status.conditions;
    }
  }

  /** Per pod: at most one count, only for an available pod; error entries are the pod itself, and never an available
      one. */
  lemma PodTallyMeaning(p: Pod, minReadySeconds: int, now: nat)
    requires WellFormed(p)
    ensures var t := PodTally(p, minReadySeconds, now);
            && t.ready <= 1
            && (t.ready > 0 ==> Available(p))
            && (forall e :: e in t.errors ==> e == p && !p.deleting && !Available(p))
  {
    var wait := RemainingWait(p.status.conditions, minReadySeconds, now);
    ConditionsReady(p, p.status.conditions, wait);
    if Available(p) { AvailablePodHasNoErrors(p, p.status.conditions, wait); }
  }

  /** Terminating and evicted pods never count as ready. */
  lemma TerminatingAndEvictedNeverReady(p: Pod, minReadySeconds: int, now: nat)
    ensures p.deleting || Evicted(p) ==> !CountsAsReady(p, minReadySeconds, now)
    ensures CountsAsReady(p, minReadySeconds, now) ==> RemainingWait(p.status.conditions, minReadySeconds, now) <= 0
  {
    ConditionsReady(p, p.status.conditions, RemainingWait(p.status.conditions, minReadySeconds, now));
  }

  lemma {:induction false} PodsTallyMeaning(pods: seq<Pod>, minReadySeconds: int, now: nat)
    requires forall p :: p in pods ==> WellFormed(p)
    ensures var t := PodsTally(pods, minReadySeconds, now);
            && t.ready <= |pods|
            && t.ready == |Filter((p: Pod) => CountsAsReady(p, minReadySeconds, now), pods)|
            && (t.ready == |pods| ==> forall p :: p in pods ==> Available(p) && CountsAsReady(p, minReadySeconds, now))
            && (forall e :: e in t.errors ==> e in pods && !e.deleting && !Available(e))
  {
    if pods != [] {
      var init, last := pods[..|pods| - 1], pods[|pods| - 1];
      assert pods == init + [last];
      PodsTallyMeaning(init, minReadySeconds, now);
      PodTallyMeaning(last, minReadySeconds, now);
      FilterSnoc((p: Pod) => CountsAsReady(p, minReadySeconds, now), init, last);
    }
  }

  // ----- Which pods are counted as what

  /** LogScale's container, or another one, is in trouble: it waits for another reason than being created, or ended
      otherwise than by being done. */
  predicate InTrouble(s: ContainerStatus) {
    || (s.waiting.Some? && s.waiting.value != "ContainerCreating" && s.waiting.value != "PodInitializing")
    || (s.terminated.Some? && s.terminated.value != "Completed")
  }

  /** A live pod that is not evicted is broken when it is unschedulable, or when its Ready condition does not count, for
      want of readiness or of waiting time, and a container is in trouble. */
  predicate Broken(p: Pod, minReadySeconds: int, now: nat) {
    && !p.deleting && !(p.status.phase.PhaseFailed? && p.status.reason == "Evicted")
    && exists c :: c in p.status.conditions &&
         (|| (c.status.ConditionFalse? && c.reason == "Unschedulable")
          || (c.kind.PodReady?
              && !(c.status.ConditionTrue? && RemainingWait(p.status.conditions, minReadySeconds, now) <= 0)
              && exists s :: s in p.status.containerStatuses && InTrouble(s)))
  }

  lemma LastContainerErrors(p: Pod, statuses: seq<ContainerStatus>)
    requires statuses != []
    ensures var init, last := statuses[..|statuses| - 1], statuses[|statuses| - 1];
      ContainerErrors(p, statuses) != [] <==> ContainerErrors(p, init) != [] || InTrouble(last)
  {
    assert |ContainerErrors(p, statuses)| >= |ContainerErrors(p, statuses[..|statuses| - 1])|;
  }

  lemma {:induction false} ContainerErrorsExactly(p: Pod, statuses: seq<ContainerStatus>)
    ensures ContainerErrors(p, statuses) != [] <==> exists s :: s in statuses && InTrouble(s)
  {
    if statuses != [] {
      var init, last := statuses[..|statuses| - 1], statuses[|statuses| - 1];
      ContainerErrorsExactly(p, init);
      LastContainerErrors(p, statuses);
      assert forall s :: s in statuses <==> s in init || s == last;
    }
  }

  /** A condition that makes the pod an error entry. */
  predicate BreaksPod(p: Pod, c: Condition, wait: int) {
    || (c.status.ConditionFalse? && c.reason == "Unschedulable")
    || (c.kind.PodReady? && !(c.status.ConditionTrue? && wait <= 0)
        && exists s :: s in p.status.containerStatuses && InTrouble(s))
  }

  lemma {:induction false} ConditionsErrorsExactly(p: Pod, conditions: seq<Condition>, wait: int)
    ensures ConditionsTally(p, conditions, wait).errors != [] <==> exists c :: c in conditions && BreaksPod(p, c, wait)
  {
    if conditions != [] {
      var init, last := conditions[..|conditions| - 1], conditions[|conditions| - 1];
      ConditionsErrorsExactly(p, init, wait);
      ContainerErrorsExactly(p, p.status.containerStatuses);
      assert ConditionTally(p, last, wait).errors != [] <==> BreaksPod(p, last, wait);
      assert forall c :: c in conditions <==> c in init || c == last;
    }
  }

  lemma PodErrorsExactly(p: Pod, minReadySeconds: int, now: nat, e: Pod)
    ensures e in PodTally(p, minReadySeconds, now).errors <==> e == p && Broken(p, minReadySeconds, now)
  {
    hide RemainingWait, ConditionsTally, InTrouble;
    var wait := RemainingWait(p.status.conditions, minReadySeconds, now);
    var errors := PodTally(p, minReadySeconds, now).errors;
    ConditionsReady(p, p.status.conditions, wait);
    ConditionsErrorsExactly(p, p.status.conditions, wait);
    if errors != [] { assert errors[0] in errors; }
    assert (exists c :: c in p.status.conditions && BreaksPod(p, c, wait)) && !p.deleting && !Evicted(p) <==>
      Broken(p, minReadySeconds, now);
  }

  /** The error entries are exactly the broken pods of the listing. */
  lemma {:induction false} ErrorEntriesExactly(pods: seq<Pod>, minReadySeconds: int, now: nat, e: Pod)
    ensures e in PodsTally(pods, minReadySeconds, now).errors <==> e in pods && Broken(e, minReadySeconds, now)
  {
    if pods != [] {
      var init, last := pods[..|pods| - 1], pods[|pods| - 1];
      assert e in pods <==> e in init || e == last;
      ErrorEntriesExactly(init, minReadySeconds, now, e);
      PodErrorsExactly(last, minReadySeconds, now, e);
      TallyErrorsSplit(pods, minReadySeconds, now);
    }
  }

  lemma TallyErrorsSplit(pods: seq<Pod>, minReadySeconds: int, now: nat)
    requires pods != []
    ensures var init, last := pods[..|pods| - 1], pods[|pods| - 1];
      PodsTally(pods, minReadySeconds, now).errors
        == PodsTally(init, minReadySeconds, now).errors + PodTally(last, minReadySeconds, now).errors
  {
  }

  /** A Ready condition that is not one about scheduling. */
  predicate TellsReadiness(c: Condition) {
    c.kind.PodReady? && !(c.status.ConditionFalse? && c.reason == "Unschedulable")
  }

  lemma LastConditionCounts(p: Pod, conditions: seq<Condition>, wait: int)
    requires conditions != []
    ensures var init, last := conditions[..|conditions| - 1], conditions[|conditions| - 1];
      var t, before := ConditionsTally(p, conditions, wait), ConditionsTally(p, init, wait);
      && (t.ready > 0 <==> before.ready > 0 || (wait <= 0 && ReadyTrue(last)))
      && (t.waiting > 0 <==> before.waiting > 0 || (wait > 0 && TellsReadiness(last)))
  {
  }

  lemma {:induction false} ConditionsCount(p: Pod, conditions: seq<Condition>, wait: int)
    ensures var t := ConditionsTally(p, conditions, wait);
      && (t.ready > 0 <==> wait <= 0 && exists c :: c in conditions && ReadyTrue(c))
      && (t.waiting > 0 <==> wait > 0 && exists c :: c in conditions && TellsReadiness(c))
  {
    if conditions != [] {
      var init, last := conditions[..|conditions| - 1], conditions[|conditions| - 1];
      ConditionsCount(p, init, wait);
      LastConditionCounts(p, conditions, wait);
      assert forall c :: c in conditions <==> c in init || c == last;
    }
  }

  /** Exactly the live, not evicted pods with a true Ready condition that have waited long enough count as ready; those
      that have not, whatever the Ready condition says, are held against the deletion budget. */
  lemma ReadyExactly(p: Pod, minReadySeconds: int, now: nat)
    ensures var live := !p.deleting && !(p.status.phase.PhaseFailed? && p.status.reason == "Evicted");
      var wait := RemainingWait(p.status.conditions, minReadySeconds, now);
      && (CountsAsReady(p, minReadySeconds, now) <==>
            live && wait <= 0 && exists c :: c in p.status.conditions && c.kind.PodReady? && c.status.ConditionTrue?)
      && (PodTally(p, minReadySeconds, now).waiting > 0 <==>
            live && wait > 0 && exists c :: c in p.status.conditions && TellsReadiness(c))
  {
    var wait := RemainingWait(p.status.conditions, minReadySeconds, now);
    ConditionsCount(p, p.status.conditions, wait);
    assert forall c :: ReadyTrue(c) <==> c.kind.PodReady? && c.status.ConditionTrue?;
  }

  /** Which pods are cleaned up, which are broken, and how many pods may be unavailable: an absolute number as it is, a
      percentage rounded down, but never less than one. */
  lemma StatusExactly(pool: NodePool, pods: seq<Pod>, now: nat, p: Pod)
    requires StatusOf(pool, pods, now).Some?
    ensures var s := StatusOf(pool, pods, now).value;
      && (p in s.podsWithErrors <==> p in pods && Broken(p, s.minReadySeconds, now))
      && (p in s.podsRequiringDeletion <==>
            && p in pods && !p.deleting
            && (|| (p.status.phase.PhaseFailed? && p.status.reason == "Evicted")
                || (p.status.phase.PhasePending? && p.status.claimCheck.ClaimOrphaned?
                    && pool.pvcsEnabled && pool.reclaimOnNodeDelete)))
      && s.nodeCount == pool.nodeCount && s.minReadySeconds == pool.GetUpdateStrategy().minReadySeconds
      && s.notReadyCount == |pods| - s.readyCount
  {
    ErrorEntriesExactly(pods, pool.GetUpdateStrategy().minReadySeconds, now, p);
  }

  lemma MaximumExactly(pool: NodePool, pods: seq<Pod>, now: nat)
    requires StatusOf(pool, pods, now).Some?
    ensures var s, strategy := StatusOf(pool, pods, now).value, pool.GetUpdateStrategy();
      && !strategy.maxUnavailable.Malformed?
      && (strategy.maxUnavailable.Absolute? ==>
            s.scaledMaxUnavailable == if strategy.maxUnavailable.count >= 1 then strategy.maxUnavailable.count else 1)
      && (strategy.maxUnavailable.Percent? ==>
            var share := strategy.maxUnavailable.percent * pool.nodeCount;
            && (share < 200 ==> s.scaledMaxUnavailable == 1)
            && (share >= 200 ==> 100 * s.scaledMaxUnavailable <= share < 100 * (s.scaledMaxUnavailable + 1)))
  {
  }

  /** When the status cannot be had: the maximum is malformed, or some pod has no readable revision or, being live and
      pending, a claim that cannot be checked. */
  lemma UnreadableExactly(pool: NodePool, pods: seq<Pod>, now: nat)
    ensures StatusOf(pool, pods, now).None? <==>
      || pool.GetUpdateStrategy().maxUnavailable.Malformed?
      || exists p :: p in pods &&
           (|| Atoi(Lookup(p.annotations, POD_REVISION)).None?
            || (!p.deleting && p.status.phase.PhasePending? && p.status.claimCheck.ClaimCheckFailed?))
  {
    assert forall p :: Unreadable(p) <==>
      || Atoi(Lookup(p.annotations, POD_REVISION)).None?
      || (!p.deleting && p.status.phase.PhasePending? && p.status.claimCheck.ClaimCheckFailed?);
  }

  /** Every listed pod is either counted ready or not ready; the ready count is the number of pods that count as ready;
      the budget is never negative and never more than what the strategy allows, which is at least one pod. */
  lemma Accounting(pool: NodePool, pods: seq<Pod>, now: nat)
    requires forall p :: p in pods ==> WellFormed(p)
    requires StatusOf(pool, pods, now).Some?
    ensures var s := StatusOf(pool, pods, now).value;
            && s.readyCount + s.notReadyCount == |pods|
            && 0 <= s.readyCount <= |pods|
            && 0 <= s.DeletionBudget() <= s.scaledMaxUnavailable && s.scaledMaxUnavailable >= 1
            && s.readyCount == |Filter((p: Pod) => CountsAsReady(p, s.minReadySeconds, now), pods)|
            && (s.notReadyCount == 0 ==> forall p :: p in pods ==> Available(p))
            && (forall e :: e in s.podsWithErrors ==> e in pods && !e.deleting && !Available(e))
            && (forall e :: e in s.podsRequiringDeletion ==> e in pods && !e.deleting && !Available(e))
  {
    PodsTallyMeaning(pods, pool.GetUpdateStrategy().minReadySeconds, now);
  }
}
