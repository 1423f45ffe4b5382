/** What a pass decides, told from the pods, the annotations and the status entry: when it finishes, saves a revision,
    cleans up, turns to a zone, waits, or deletes, and in which order it asks. */
module Decisions {
  import opened Kube
  import opened NodePools
  import opened Decimal
  import opened PodComparisons
  import opened PodsStatuses
  import opened PodLifecycles
  import opened ClusterStatuses
  import opened Maintenance
  import opened Availability
  import opened Exclusion
  import Reconcile

  // ----- The questions, in the order in which a pass asks them

  predicate Steady(p: Pass) { p.clusterState == Running || p.clusterState == ConfigError }

  predicate UnderReplacement(p: Pass) { p.clusterState == Restarting || p.clusterState == Upgrading }

  /** The pool is in maintenance although it has all its pods, ready, at the wanted revision, and none to restart. */
  ghost predicate AllDone(p: Pass, s: PodsStatus) {
    && p.pool.state != Running
    && |p.pods| == p.pool.nodeCount && s.readyCount == |p.pods|
    && (forall q :: q in p.pods ==> Atoi(Lookup(q.annotations, POD_REVISION)) == Some(p.pool.desiredPodRevision))
    && !RestartNeeded(p, s)
  }

  /** The hashes of the desired pod are not those of the stored revision, or no revision was stored yet. */
  predicate RevisionDue(p: Pass) {
    && (p.pool.desiredPodRevision == 0 || UnderReplacement(p))
    && (|| Lookup(p.desired.annotations, POD_HASH) != p.pool.desiredPodHash
        || Lookup(p.desired.annotations, BOOTSTRAP_TOKEN_HASH) != p.pool.desiredBootstrapTokenHash)
  }

  /** The pod carries another revision or hash than the stored ones, or none. */
  predicate LeftOver(p: Pass, q: Pod) {
    || POD_REVISION !in q.annotations || q.annotations[POD_REVISION] != Itoa(p.pool.desiredPodRevision)
    || POD_HASH !in q.annotations || q.annotations[POD_HASH] != p.pool.desiredPodHash
  }

  /** With zone awareness: no zone is pinned and a left-over pod on a worker node has a known zone, or one is pinned and
      has no left-over pod. */
  predicate ZoneDue(p: Pass) {
    && p.pool.GetUpdateStrategy().enableZoneAwareness
    && if p.pool.zoneUnderMaintenance == "" then
         exists q :: q in p.pods && LeftOver(p, q) && q.spec.nodeName != "" && Lookup(p.zones, q.spec.nodeName) != ""
       else
         forall q :: q in p.pods && Lookup(p.zones, q.spec.nodeName) == p.pool.zoneUnderMaintenance ==> !LeftOver(p, q)
  }

  /** Pods are missing or not ready, and none is broken or to be cleaned up. */
  predicate PodsOutstanding(s: PodsStatus) {
    (s.readyCount < s.nodeCount || s.notReadyCount > 0) && s.podsWithErrors == [] && s.podsRequiringDeletion == []
  }

  // ----- The order

  lemma FinishingExactly(p: Pass, s: PodsStatus)
    requires StatusOf(p.pool, p.pods, p.now) == Some(s)
    ensures p.Finishing(s, p.LifecycleFrom(s)) <==> AllDone(p, s)
  {
    DifferenceByName(p.CompareContext(s), p.Considered(s));
    if s.RevisionsMatch(p.pool.desiredPodRevision) { RevisionsAgree(p.pool, p.pods, p.now); }
    assert s.podRevisions == Revisions(p.pods) && s.readyCount == |p.pods| - s.notReadyCount;
    if AllDone(p, s) {
      forall i | 0 <= i < |p.pods| ensures s.podRevisions[i] == p.pool.desiredPodRevision {
        assert p.pods[i] in p.pods;
      }
    }
  }

  lemma {:induction false} ZoneFound(p: Pass, pods: seq<Pod>)
    ensures FirstZone(StaleTest(p.pool), p.zones, pods) != "" <==>
      exists q :: q in pods && LeftOver(p, q) && q.spec.nodeName != "" && Lookup(p.zones, q.spec.nodeName) != ""
  {
    if pods != [] {
      ZoneFound(p, pods[1..]);
      assert forall q :: q in pods <==> q == pods[0] || q in pods[1..];
    }
  }

  lemma ZoneDueExactly(p: Pass)
    ensures p.DecideZone().Some? <==> ZoneDue(p)
    ensures p.DecideZone().Some? ==>
      if p.pool.zoneUnderMaintenance == "" then p.DecideZone().value.PinZone? else p.DecideZone().value == ClearZone
  {
    ZoneFound(p, p.pods);
    assert forall q :: LeftOver(p, q) <==> StaleTest(p.pool)(q);
  }

  /** The branches as `DecideFrom` tells them apart. */
  lemma Branches(p: Pass, s: PodsStatus, l: Lifecycle)
    ensures var d := p.DecideFrom(s, l);
      var enters, finishes, noToken := p.Entering(l), p.Finishing(s, l), BOOTSTRAP_TOKEN_HASH !in p.desired.annotations;
      && (enters <==> d.Some? && d.value.EnterMaintenance?)
      && (!enters ==> (finishes <==> d == Some(FinishMaintenance)))
      && (!enters && !finishes ==> (noToken <==> d.None?))
      && (!enters && !finishes && !noToken ==>
            && (RevisionDue(p) <==> d.value.SaveRevision?)
            && (!RevisionDue(p) ==>
                  && (s.podsRequiringDeletion != [] <==> d.value.CleanUp?)
                  && (s.podsRequiringDeletion == [] ==>
                        && (p.DecideZone().Some? ==> d == p.DecideZone())
                        && (p.DecideZone().None? ==> d == Some(p.DecideDeletion(s, l))))))
  {
  }

  /** A pass asks in this order: whether maintenance has to be entered, whether it is done, whether the bootstrap token
      is known, whether a revision is due, whether pods are to be cleaned up, whether the zone changes, whether
      anything is to be replaced, and whether to wait. The first answer decides. */
  lemma DecidesInOrder(p: Pass, s: PodsStatus)
    requires StatusOf(p.pool, p.pods, p.now) == Some(s) && AllComparable(p.CompareContext(s), p.Considered(s))
    ensures var d, enters := p.Decide(), Steady(p) && RestartNeeded(p, s);
      var noToken := BOOTSTRAP_TOKEN_HASH !in p.desired.annotations;
      && (enters <==> d.Some? && d.value.EnterMaintenance?)
      && (!enters ==> (AllDone(p, s) <==> d == Some(FinishMaintenance)))
      && (!enters && !AllDone(p, s) ==> (noToken <==> d.None?))
      && (!enters && !AllDone(p, s) && !noToken ==>
            && (RevisionDue(p) <==> d.value.SaveRevision?)
            && (!RevisionDue(p) ==>
                  && (s.podsRequiringDeletion != [] <==> d.value.CleanUp?)
                  && (s.podsRequiringDeletion == [] ==>
                        && (ZoneDue(p) <==> d.value.PinZone? || d.value.ClearZone?)
                        && (!ZoneDue(p) ==> d == Some(p.DecideDeletion(s, p.LifecycleFrom(s)))))))
  {
    hide LifecycleOf, AllComparable;
    var l := p.LifecycleFrom(s);
    DifferenceByName(p.CompareContext(s), p.Considered(s));
    FinishingExactly(p, s);
    ZoneDueExactly(p);
    Branches(p, s, l);
  }

  // ----- What is decided about deletion

  /** A pass that gets as far as deleting does nothing without a pod to restart or under OnDelete, waits for outstanding
      pods when the restart rolls, and otherwise deletes from the front of the list as many pods as the maximum leaves
      after those that still have to wait for their minimum ready time. */
  lemma DeletesExactly(p: Pass, s: PodsStatus)
    ensures var d, l := p.DecideDeletion(s, p.LifecycleFrom(s)), p.LifecycleFrom(s);
      var idle := !RestartNeeded(p, s) || p.pool.GetUpdateStrategy().kind == OnDelete;
      var waits := UnderReplacement(p) && PodsOutstanding(s) && l.ShouldRollingRestart();
      && (idle <==> d == Nothing)
      && (!idle ==> (waits <==> d == WaitForPods))
      && (!idle && !waits ==>
            && d.DeleteBatch? && d.pods <= l.podsToBeReplaced
            && (|d.pods| == |l.podsToBeReplaced| || |d.pods| == s.scaledMaxUnavailable - s.notReadyDueToMinReadySeconds
                || (d.pods == [] && s.scaledMaxUnavailable <= s.notReadyDueToMinReadySeconds))
            && (d.pods == [] || |d.pods| <= s.scaledMaxUnavailable - s.notReadyDueToMinReadySeconds))
  {
    hide LifecycleOf;
    DifferenceByName(p.CompareContext(s), p.Considered(s));
    ReplacedPods(p.CompareContext(s), p.Considered(s));
  }

  /** A pod is to be replaced exactly when it is live, has to be restarted, and lies in the pinned zone, if there is
      one. Without zone awareness, or with pods to clean up or broken ones, the zone is of no account; otherwise pods
      without a worker node are left alone. */
  lemma ReplacesExactly(p: Pass, s: PodsStatus, q: Pod)
    ensures var candidates := if s.podsWithErrors != [] then s.podsWithErrors else p.pods;
      var anyZone := s.podsRequiringDeletion != [] || s.podsWithErrors != []
                     || !p.pool.GetUpdateStrategy().enableZoneAwareness;
      q in p.LifecycleFrom(s).podsToBeReplaced <==>
        && q in candidates && !q.deleting && Comparable(q, p.desired) && NeedsRestart(q, p.desired)
        && (|| anyZone
            || (q.spec.nodeName != ""
                && p.pool.zoneUnderMaintenance in {"", Lookup(p.zones, q.spec.nodeName)}))
  {
    ReplacedPods(p.CompareContext(s), p.Considered(s));
    if Comparable(q, p.desired) { CriticalByName(q, p.desired); }
  }

  // ----- What the decisions carry

  lemma {:induction false} FirstLeftOver(p: Pass, pods: seq<Pod>) returns (i: nat)
    requires FirstZone(StaleTest(p.pool), p.zones, pods) != ""
    ensures i < |pods| && LeftOver(p, pods[i]) && pods[i].spec.nodeName != ""
    ensures Lookup(p.zones, pods[i].spec.nodeName) == FirstZone(StaleTest(p.pool), p.zones, pods)
    ensures forall k :: 0 <= k < i && LeftOver(p, pods[k]) && pods[k].spec.nodeName != "" ==>
      Lookup(p.zones, pods[k].spec.nodeName) == ""
  {
    var q := pods[0];
    if LeftOver(p, q) && q.spec.nodeName != "" && Lookup(p.zones, q.spec.nodeName) != "" { return 0; }
    i := FirstLeftOver(p, pods[1..]);
    i := i + 1;
    forall k | 0 <= k < i && LeftOver(p, pods[k]) && pods[k].spec.nodeName != ""
      ensures Lookup(p.zones, pods[k].spec.nodeName) == ""
    {
      if k > 0 { assert pods[k] == pods[1..][k - 1]; }
    }
  }

  /** The pod, in listing order, whose zone is pinned: the first left-over pod on a worker node with a known zone. */
  ghost predicate PinnedAfter(p: Pass, zone: string, i: nat) {
    && i < |p.pods| && LeftOver(p, p.pods[i]) && p.pods[i].spec.nodeName != ""
    && zone != "" && Lookup(p.zones, p.pods[i].spec.nodeName) == zone
    && forall k :: 0 <= k < i && LeftOver(p, p.pods[k]) && p.pods[k].spec.nodeName != "" ==>
         Lookup(p.zones, p.pods[k].spec.nodeName) == ""
  }

  lemma ContentsFrom(p: Pass, s: PodsStatus, l: Lifecycle)
    requires p.DecideFrom(s, l).Some?
    ensures var d := p.DecideFrom(s, l).value;
      && (d.SaveRevision? ==>
            && d.podHash == Lookup(p.desired.annotations, POD_HASH)
            && d.bootstrapTokenHash == Lookup(p.desired.annotations, BOOTSTRAP_TOKEN_HASH))
      && (d.CleanUp? ==> s.podsRequiringDeletion != [] && d.pod == s.podsRequiringDeletion[0])
      && (d.PinZone? ==> d.zone != "" && d.zone == FirstZone(StaleTest(p.pool), p.zones, p.pods))
  {
  }

  /** A saved revision carries the two hashes of the desired pod; one pod is cleaned up at a time, the first one; the
      zone that is pinned is that of the first left-over pod that has one. */
  lemma DecisionContents(p: Pass)
    requires p.Decide().Some?
    ensures var d := p.Decide().value;
      && (d.SaveRevision? ==>
            && d.podHash == Lookup(p.desired.annotations, POD_HASH)
            && d.bootstrapTokenHash == Lookup(p.desired.annotations, BOOTSTRAP_TOKEN_HASH))
      && (d.CleanUp? ==>
            && d.pod in StatusOf(p.pool, p.pods, p.now).value.podsRequiringDeletion
            && d.pod == StatusOf(p.pool, p.pods, p.now).value.podsRequiringDeletion[0])
      && (d.PinZone? ==> exists i :: PinnedAfter(p, d.zone, i))
  {
    hide LifecycleOf, StatusOf;
    DecideUnfolds(p);
    var s := StatusOf(p.pool, p.pods, p.now).value;
    ContentsFrom(p, s, p.LifecycleFrom(s));
    if p.Decide().value.PinZone? {
      var i := FirstLeftOver(p, p.pods);
      assert PinnedAfter(p, p.Decide().value.zone, i);
    }
  }

  /** Entering and finishing clear the zone; a revision is stored with the next number, the state of the cluster and no
      zone; the zone decisions change the zone only; nothing else writes an entry. */
  lemma StoresExactly(p: Pass, d: Decision)
    ensures var stored := PoolStatus(p.pool.name, p.pool.state, p.pool.zoneUnderMaintenance, p.pool.desiredPodRevision,
                                     p.pool.desiredPodHash, p.pool.desiredBootstrapTokenHash);
      && (d.EnterMaintenance? ==> p.WriteFor(d) == Some(stored.(state := d.state, zoneUnderMaintenance := "")))
      && (d.FinishMaintenance? ==> p.WriteFor(d) == Some(stored.(state := Running, zoneUnderMaintenance := "")))
      && (d.SaveRevision? ==>
            && p.WriteFor(d).Some? && p.WriteFor(d).value.name == p.pool.name
            && p.WriteFor(d).value.state == p.clusterState && p.WriteFor(d).value.zoneUnderMaintenance == ""
            && p.WriteFor(d).value.desiredPodRevision - p.pool.desiredPodRevision == 1
            && p.WriteFor(d).value.desiredPodHash == d.podHash
            && p.WriteFor(d).value.desiredBootstrapTokenHash == d.bootstrapTokenHash)
      && (d.PinZone? ==> p.WriteFor(d) == Some(stored.(zoneUnderMaintenance := d.zone)))
      && (d.ClearZone? ==> p.WriteFor(d) == Some(stored.(zoneUnderMaintenance := "")))
      && (d.CleanUp? || d.WaitForPods? || d.DeleteBatch? || d.Nothing? <==> p.WriteFor(d) == None)
  {
  }

  /** The reconcile goes on to the next pool when the pass waits, or when it deletes pods or finds nothing to do, unless
      an upgrade restarts all pods at once. */
  lemma CarriesOnExactly(p: Pass, s: PodsStatus)
    requires StatusOf(p.pool, p.pods, p.now) == Some(s) && p.Decide().Some?
    ensures var d, l := p.Decide().value, p.LifecycleFrom(s);
      var atOnce := p.clusterState == Upgrading && RestartNeeded(p, s)
                    && p.pool.GetUpdateStrategy().kind != OnDelete && !l.ShouldRollingRestart();
      Reconcile.CarriesOn(p) <==> d.WaitForPods? || (!atOnce && (d.DeleteBatch? || d.Nothing?))
  {
    hide LifecycleOf, StatusOf, Pass.Decide;
    DifferenceByName(p.CompareContext(s), p.Considered(s));
    ReplacedPods(p.CompareContext(s), p.Considered(s));
  }

  /** The writes that skip the maintenance check: changed service account annotations store the state of the cluster, no
      zone, and the next revision if they call for a restart; the others store Pending, but not while pods are being
      replaced, or ConfigError, and keep the rest of the entry. */
  lemma UngatedWritesExactly(configured: set<string>, w: World, a: Action, w': World)
    requires a.ServiceAccountBump? || a.PendingWrite? || a.PoolConfigErrorWrite?
    requires Next(configured, w, a, w')
    ensures var e, e' := EntryOf(w.entries, a.pool.name), EntryOf(w'.entries, a.pool.name);
      && w'.pods == w.pods
      && (a.ServiceAccountBump? ==>
            && e' == e.(state := w.state, zoneUnderMaintenance := "", desiredPodRevision := e'.desiredPodRevision)
            && e'.desiredPodRevision - e.desiredPodRevision == if a.restart then 1 else 0)
      && (a.PendingWrite? ==>
            w.state != Restarting && w.state != Upgrading && e' == e.(state := Pending) && w'.state == Pending)
      && (a.PoolConfigErrorWrite? ==> e' == e.(state := ConfigError) && w'.state == ConfigError)
  {
    PutPoolEntries(w.entries, UngatedEntry(w, a), a.pool.name);
  }
}
