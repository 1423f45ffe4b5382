/** Zone awareness: a pool is replaced one availability zone after the other. */
module Zones {
  import opened Kube
  import opened NodePools
  import opened PodsStatuses
  import opened PodLifecycles
  import opened ClusterStatuses
  import opened Maintenance
  import opened Availability
  import opened Deletions
  import opened Revisions

  function ZoneAt(w: World, name: string): string { EntryOf(w.entries, name).zoneUnderMaintenance }

  // ----- One pass

  /** No broken, evicted or orphaned pods: nothing lifts the zone restriction. */
  predicate Clean(p: Pass) {
    match StatusOf(p.pool, p.pods, p.now)
    case None => true
    case Some(s) =>
      !s.HaveUnschedulablePodsOrPodsWithBadStatusConditions() && !s.FoundEvictedPodsOrPodsWithOrphanedPVCs()
  }

  lemma ReplacedInZone(p: Pass, s: PodsStatus)
    requires p.ZoneAware() && p.pool.zoneUnderMaintenance != ""
    requires !s.HaveUnschedulablePodsOrPodsWithBadStatusConditions() && !s.FoundEvictedPodsOrPodsWithOrphanedPVCs()
    ensures forall q :: q in p.LifecycleFrom(s).podsToBeReplaced ==>
      q in p.pods && !q.deleting && q.spec.nodeName != "" && ZoneOf(p.zones, q) == p.pool.zoneUnderMaintenance
  {
    ReplacedPods(p.CompareContext(s), p.Considered(s));
  }

  /** While a zone is pinned, a clean pass deletes pods of that zone only. */
  lemma DeletesInPinnedZone(p: Pass)
    requires p.ZoneAware() && p.pool.zoneUnderMaintenance != "" && Clean(p) && p.Decide().Some?
    ensures forall q :: q in Deleted(p.Decide().value) ==>
      q in p.pods && ZoneOf(p.zones, q) == p.pool.zoneUnderMaintenance
  {
    DecideUnfolds(p);
    var s := StatusOf(p.pool, p.pods, p.now).value;
    ReplacedInZone(p, s);
    DeletionInZoneFrom(p, s, p.LifecycleFrom(s));
  }

  lemma DeletionInZoneFrom(p: Pass, s: PodsStatus, l: Lifecycle)
    requires p.DecideFrom(s, l).Some? && !s.FoundEvictedPodsOrPodsWithOrphanedPVCs()
    requires forall q :: q in l.podsToBeReplaced ==> q in p.pods && ZoneOf(p.zones, q) == p.pool.zoneUnderMaintenance
    ensures forall q :: q in Deleted(p.DecideFrom(s, l).value) ==>
      q in p.pods && ZoneOf(p.zones, q) == p.pool.zoneUnderMaintenance
  {
    DeletionReasons(p, s, l);
  }

  /** A zone is pinned for a stale pod in it, and cleared when no listed pod in it is stale, terminating ones
      included. */
  lemma ZoneDecisionsFollowStalePods(p: Pass)
    requires p.Decide().Some?
    ensures p.Decide().value.PinZone? ==>
      && p.pool.zoneUnderMaintenance == "" && p.Decide().value.zone != ""
      && StaleInZone(p.pool, p.zones, p.pods, p.Decide().value.zone)
    ensures p.Decide().value.ClearZone? ==>
      && p.pool.zoneUnderMaintenance != "" && !StaleInZone(p.pool, p.zones, p.pods, p.pool.zoneUnderMaintenance)
  {
    DecideUnfolds(p);
    var s := StatusOf(p.pool, p.pods, p.now).value;
    ZoneDecisionFrom(p, s, p.LifecycleFrom(s));
  }

  lemma ZoneDecisionFrom(p: Pass, s: PodsStatus, l: Lifecycle)
    requires p.DecideFrom(s, l).Some?
    ensures var d := p.DecideFrom(s, l).value;
      d.PinZone? || d.ClearZone? ==> p.DecideZone() == Some(d)
  {
  }

  // ----- Runs

  /** Any step: the pinned zone stays, is cleared, or is pinned from nothing; a new revision clears it. */
  lemma StepZone(configured: set<string>, w: World, a: Action, w': World, name: string)
    requires Next(configured, w, a, w')
    ensures ZoneAt(w', name) == ZoneAt(w, name) || ZoneAt(w', name) == "" || ZoneAt(w, name) == ""
    ensures RevisionAt(w', name) != RevisionAt(w, name) ==> ZoneAt(w', name) == ""
  {
    match a
    case Maintain(_, _, _, _, _) => MaintainZone(configured, w, a, w', name);
    case ServiceAccountBump(pool, _) => PutPoolEntries(w.entries, UngatedEntry(w, a), name);
    case PendingWrite(pool) => PutPoolEntries(w.entries, UngatedEntry(w, a), name);
    case PoolConfigErrorWrite(pool) => PutPoolEntries(w.entries, UngatedEntry(w, a), name);
    case _ =>
  }

  /** Only a pass that decides to pin a zone makes it the pinned one. */
  lemma PinningStep(configured: set<string>, w: World, a: Action, w': World, name: string)
    requires Next(configured, w, a, w') && ZoneAt(w', name) != ZoneAt(w, name) && ZoneAt(w', name) != ""
    ensures a.Maintain? && a.pool.name == name && Pins(w, a, ZoneAt(w', name))
  {
    match a
    case Maintain(_, _, _, _, _) => MaintainZone(configured, w, a, w', name);
    case ServiceAccountBump(pool, _) => PutPoolEntries(w.entries, UngatedEntry(w, a), name);
    case PendingWrite(pool) => PutPoolEntries(w.entries, UngatedEntry(w, a), name);
    case PoolConfigErrorWrite(pool) => PutPoolEntries(w.entries, UngatedEntry(w, a), name);
    case _ =>
  }

  predicate Pins(w: World, a: Action, zone: string)
    requires a.Maintain?
  {
    PassOf(w, a).Decide() == Some(PinZone(zone))
  }

  lemma MaintainZone(configured: set<string>, w: World, a: Action, w': World, name: string)
    requires a.Maintain? && MaintainStep(configured, w, a, w')
    ensures ZoneAt(w', name) == ZoneAt(w, name) || ZoneAt(w', name) == "" || ZoneAt(w, name) == ""
    ensures ZoneAt(w', name) != ZoneAt(w, name) && ZoneAt(w', name) != "" ==>
      a.pool.name == name && Pins(w, a, ZoneAt(w', name))
    ensures RevisionAt(w', name) != RevisionAt(w, name) ==> ZoneAt(w', name) == ""
  {
    MaintainWrites(configured, w, a, w');
    if w'.entries != w.entries {
      PutPoolEntries(w.entries, WrittenBy(w, a), name);
      WrittenEntry(PassOf(w, a), PassOf(w, a).Decide().value);
      ZoneDecisionsFollowStalePods(PassOf(w, a));
    }
  }

  /** A clean, zone-aware pass over the pool whenever the step is a pass over it. */
  predicate ZoneAwarePass(w: World, a: Action, name: string) {
    a.Maintain? && a.pool.name == name ==> PassOf(w, a).ZoneAware() && Clean(PassOf(w, a))
  }

  predicate DeletesOutside(w: World, a: Action, name: string, zone: string) {
    && a.Maintain? && a.pool.name == name && PassOf(w, a).Decide().Some?
    && exists q :: q in Deleted(PassOf(w, a).Decide().value) && ZoneOf(a.zones, q) != zone
  }

  lemma PassDeletesInside(configured: set<string>, w: World, a: Action, w': World, name: string)
    requires Next(configured, w, a, w') && ZoneAwarePass(w, a, name) && ZoneAt(w, name) != ""
    ensures !DeletesOutside(w, a, name, ZoneAt(w, name))
  {
    if a.Maintain? && a.pool.name == name && PassOf(w, a).Decide().Some? {
      DeletesInPinnedZone(PassOf(w, a));
    }
  }

  lemma {:induction false} PinnedZoneStays(configured: set<string>, ws: seq<World>, acts: seq<Action>, name: string,
                                           i: nat, j: nat)
    requires Run(configured, ws, acts) && i <= j <= |acts|
    requires forall k :: i <= k <= j ==> ZoneAt(ws[k], name) != ""
    ensures ZoneAt(ws[j], name) == ZoneAt(ws[i], name) && RevisionAt(ws[j], name) == RevisionAt(ws[i], name)
  {
    if i < j {
      PinnedZoneStays(configured, ws, acts, name, i, j - 1);
      StepZone(configured, ws[j - 1], acts[j - 1], ws[j], name);
    }
  }

  /** From the moment a zone is pinned until it is cleared, over any run: it is the same zone, the revision does not
      change, and every pod that a clean, zone-aware pass sets out to delete lies in it. */
  lemma ZoneByZone(configured: set<string>, ws: seq<World>, acts: seq<Action>, name: string, i: nat, j: nat)
    requires Run(configured, ws, acts) && i <= j < |acts|
    requires forall k :: i <= k <= j ==> ZoneAt(ws[k], name) != ""
    requires ZoneAwarePass(ws[j], acts[j], name)
    ensures ZoneAt(ws[j], name) == ZoneAt(ws[i], name) && RevisionAt(ws[j], name) == RevisionAt(ws[i], name)
    ensures !DeletesOutside(ws[j], acts[j], name, ZoneAt(ws[i], name))
  {
    PinnedZoneStays(configured, ws, acts, name, i, j);
    PassDeletesInside(configured, ws[j], acts[j], ws[j + 1], name);
  }

  /** At each delete call that such a pass decided the pin and the revision still stand, and the name is that of a pod
      of the pool that lay in the pinned zone. */
  lemma DeleteCallsInZone(configured: set<string>, ws: seq<World>, acts: seq<Action>, name: string, i: nat, k: nat)
    requires Run(configured, ws, acts) && k <= |acts| && DecidedAt(ws, acts, i, k) && acts[i].pool.name == name
    requires ZoneAwarePass(ws[i], acts[i], name) && ZoneAt(ws[i], name) != ""
    ensures ZoneAt(ws[k], name) == ZoneAt(ws[i], name) && RevisionAt(ws[k], name) == RevisionAt(ws[i], name)
    ensures forall n :: n in ws[k].worker.victims ==> LiesIn(ws[i].PodsOf(name), n, acts[i].zones, ZoneAt(ws[i], name))
  {
    assert Next(configured, ws[i], acts[i], ws[i + 1]);
    forall n | n in ws[k].worker.victims ensures LiesIn(ws[i].PodsOf(name), n, acts[i].zones, ZoneAt(ws[i], name)) {
      SetOutInZone(configured, ws[i], acts[i], ws[i + 1], name, n);
    }
  }

  /** A pod of that name is in the zone. */
  ghost predicate LiesIn(pods: seq<Pod>, name: string, zones: map<string, string>, zone: string) {
    exists q :: q in pods && q.name == name && ZoneOf(zones, q) == zone
  }

  lemma SetOutInZone(configured: set<string>, w: World, a: Action, w': World, name: string, victim: string)
    requires Next(configured, w, a, w') && a.Maintain? && a.pool.name == name
    requires ZoneAwarePass(w, a, name) && ZoneAt(w, name) != "" && victim in SetOut(w, a)
    ensures LiesIn(w.PodsOf(name), victim, a.zones, ZoneAt(w, name))
  {
    var pass := PassOf(w, a);
    StepsSnapshot(configured, w, a, w');
    DeletesInPinnedZone(pass);
    VictimIsDeleted(pass.Decide().value, victim);
    SortedListing(w.PodsOf(name));
    var q :| q in Deleted(pass.Decide().value) && q.name == victim;
    assert q in w.PodsOf(name);
  }

  lemma VictimIsDeleted(d: Decision, victim: string)
    requires victim in VictimsOf(d)
    ensures exists q :: q in Deleted(d) && q.name == victim
  {
    VictimsAreDeleted(d);
    var k :| 0 <= k < |VictimsOf(d)| && VictimsOf(d)[k] == victim;
    assert Deleted(d)[k] in Deleted(d);
  }

  /** The pin never moves from one zone to another: in between it is cleared. */
  lemma {:induction false} PinIsClearedInBetween(configured: set<string>, ws: seq<World>, acts: seq<Action>,
                                                 name: string, i: nat, j: nat)
    requires Run(configured, ws, acts) && i <= j <= |acts|
    requires ZoneAt(ws[i], name) != "" && ZoneAt(ws[j], name) != "" && ZoneAt(ws[i], name) != ZoneAt(ws[j], name)
    ensures exists k :: i < k < j && ZoneAt(ws[k], name) == ""
  {
    StepZone(configured, ws[j - 1], acts[j - 1], ws[j], name);
    if ZoneAt(ws[j - 1], name) != "" { PinIsClearedInBetween(configured, ws, acts, name, i, j - 1); }
  }

  // ----- Each zone once per revision

  /** The step brings no stale pod into the zone: a worker node label never changes and stale pods are not moved. */
  predicate NoLateArrival(w: World, a: Action, name: string, zones: map<string, string>, zone: string, pool: NodePool) {
    && (a.Maintain? && a.pool.name == name ==> a.zones == zones)
    && (a.Kubelet? && a.poolName == name && a.index < |w.PodsOf(name)|
        && ZoneOf(zones, a.after) == zone && StaleTest(pool)(a.after) ==>
          ZoneOf(zones, w.PodsOf(name)[a.index]) == zone && StaleTest(pool)(w.PodsOf(name)[a.index]))
  }

  lemma StaysClear(configured: set<string>, w: World, a: Action, w': World, name: string, zones: map<string, string>,
                   zone: string, pool: NodePool)
    requires Next(configured, w, a, w') && NoLateArrival(w, a, name, zones, zone, pool)
    requires zone != "" && "" !in zones && !StaleInZone(pool, zones, w.PodsOf(name), zone)
    ensures !StaleInZone(pool, zones, w'.PodsOf(name), zone)
  {
    hide Next;
    forall q | q in w'.PodsOf(name) && q !in w.PodsOf(name) ensures !(ZoneOf(zones, q) == zone && StaleTest(pool)(q)) {
      NewInListing(configured, w, a, w', name, q);
      match a
      case DeleteNext => {
        var p :| p in w.PodsOf(name) && q == p.(deleting := true);
        assert StaleTest(pool)(q) == StaleTest(pool)(p);
      }
      case Kubelet(_, k, after) => { assert w.PodsOf(name)[k] in w.PodsOf(name); }
      case CreatePods(_, _) => { assert ZoneOf(zones, q) == ""; }
    }
  }

  predicate ClearsZone(w: World, a: Action, name: string, zones: map<string, string>, zone: string) {
    && a.Maintain? && a.pool.name == name && a.zones == zones && a.written
    && PassOf(w, a).Decide() == Some(ClearZone) && ZoneAt(w, name) == zone
  }

  /** The pool's pods and its entry after zone maintenance: the zone is not pinned and holds no stale pod. */
  ghost predicate ZoneDone(w: World, name: string, pool: NodePool, zones: map<string, string>, zone: string) {
    && ZoneAt(w, name) != zone && !StaleInZone(pool, zones, w.PodsOf(name), zone)
  }

  /** The stored entry still has the revision and the hash of the settings. */
  predicate Current(pool: NodePool, w: World) {
    && EntryOf(w.entries, pool.name).desiredPodRevision == pool.desiredPodRevision
    && EntryOf(w.entries, pool.name).desiredPodHash == pool.desiredPodHash
  }

  lemma {:induction false} StaysDone(
    configured: set<string>, ws: seq<World>, acts: seq<Action>, zones: map<string, string>, zone: string,
    pool: NodePool, i: nat, j: nat)
    requires Run(configured, ws, acts) && i <= j <= |acts| && zone != "" && "" !in zones
    requires ZoneDone(ws[i], pool.name, pool, zones, zone)
    requires forall k :: i <= k < j ==>
      Current(pool, ws[k]) && NoLateArrival(ws[k], acts[k], pool.name, zones, zone, pool)
    ensures ZoneDone(ws[j], pool.name, pool, zones, zone)
  {
    if i < j {
      StaysDone(configured, ws, acts, zones, zone, pool, i, j - 1);
      StepStaysDone(configured, ws[j - 1], acts[j - 1], ws[j], zones, zone, pool);
    }
  }

  /** Once a pass has cleared a zone, the zone is not pinned again under the same revision, whatever happens to the
      pods, as long as no stale pod is scheduled into it afterwards. */
  lemma ClearedOnce(
    configured: set<string>, ws: seq<World>, acts: seq<Action>, name: string, zones: map<string, string>, zone: string,
    i: nat, j: nat)
    requires Run(configured, ws, acts) && i < j <= |acts| && zone != "" && "" !in zones
    requires ClearsZone(ws[i], acts[i], name, zones, zone)
    requires RevisionAt(ws[j], name) == RevisionAt(ws[i], name)
    requires forall k :: i < k < j ==> NoLateArrival(ws[k], acts[k], name, zones, zone, acts[i].pool)
    ensures ZoneDone(ws[j], name, acts[i].pool, zones, zone)
  {
    ClearingStep(configured, ws[i], acts[i], ws[i + 1], name, zones, zone);
    ClearsSnapshot(configured, ws[i], acts[i], ws[i + 1], name, zones, zone);
    forall k | i < k < j ensures Current(acts[i].pool, ws[k]) {
      RevisionsOverRuns(configured, ws, acts, name, i, k);
      RevisionsOverRuns(configured, ws, acts, name, k, j);
    }
    StaysDone(configured, ws, acts, zones, zone, acts[i].pool, i + 1, j);
  }

  lemma ClearsSnapshot(configured: set<string>, w: World, a: Action, w': World, name: string,
                       zones: map<string, string>, zone: string)
    requires Next(configured, w, a, w') && ClearsZone(w, a, name, zones, zone)
    ensures Snapshot(a.pool, w.entries) && a.pool.name == name
  {
  }

  lemma StepsSnapshot(configured: set<string>, w: World, a: Action, w': World)
    requires Next(configured, w, a, w') && a.Maintain?
    ensures Snapshot(a.pool, w.entries)
  {
  }

  lemma ClearingStep(configured: set<string>, w: World, a: Action, w': World, name: string, zones: map<string, string>,
                     zone: string)
    requires Next(configured, w, a, w') && ClearsZone(w, a, name, zones, zone) && zone != ""
    ensures ZoneDone(w', name, a.pool, zones, zone)
  {
    hide StatusOf, LifecycleOf;
    var pass := PassOf(w, a);
    StepsSnapshot(configured, w, a, w');
    PutPoolEntries(w.entries, pass.EntryWith(pass.pool.state, ""), name);
    ClearLeavesNoStalePod(pass, ClearZone);
    SortedListing(w.PodsOf(name));
  }

  lemma ClearLeavesNoStalePod(p: Pass, d: Decision)
    requires p.Decide() == Some(d) && d.ClearZone?
    ensures !StaleInZone(p.pool, p.zones, p.pods, p.pool.zoneUnderMaintenance)
  {
    ZoneDecisionsFollowStalePods(p);
  }

  lemma StepStaysDone(configured: set<string>, w: World, a: Action, w': World,
                      zones: map<string, string>, zone: string, pool: NodePool)
    requires Next(configured, w, a, w') && NoLateArrival(w, a, pool.name, zones, zone, pool) && Current(pool, w)
    requires ZoneDone(w, pool.name, pool, zones, zone) && zone != "" && "" !in zones
    ensures ZoneDone(w', pool.name, pool, zones, zone)
  {
    StaysClear(configured, w, a, w', pool.name, zones, zone, pool);
    if ZoneAt(w', pool.name) == zone {
      PinningStep(configured, w, a, w', pool.name);
      RepinNeedsStalePod(configured, w, a, w', zones, zone, pool);
    }
  }

  lemma RepinNeedsStalePod(configured: set<string>, w: World, a: Action, w': World,
                           zones: map<string, string>, zone: string, pool: NodePool)
    requires Next(configured, w, a, w') && a.Maintain? && a.pool.name == pool.name && a.zones == zones
    requires Pins(w, a, zone)
    requires Current(pool, w)
    ensures StaleInZone(pool, zones, w.PodsOf(pool.name), zone)
  {
    StepsSnapshot(configured, w, a, w');
    PinNeedsStalePod(PassOf(w, a), zone);
    SortedListing(w.PodsOf(pool.name));
    var q :| q in PassOf(w, a).pods && ZoneOf(zones, q) == zone && StaleTest(a.pool)(q);
    assert StaleTest(pool)(q);
  }

  lemma PinNeedsStalePod(p: Pass, zone: string)
    requires p.Decide() == Some(PinZone(zone))
    ensures StaleInZone(p.pool, p.zones, p.pods, zone)
  {
    ZoneDecisionsFollowStalePods(p);
  }
}
