/** Rolling maintenance of a cluster: what one pass over a node pool decides, and the runs that these passes and the
    surroundings make up. */
module Maintenance {
  import opened Kube
  import opened NodePools
  import opened Decimal
  import opened Seqs
  import opened PodComparisons
  import opened PodsStatuses
  import opened PodLifecycles
  import opened ClusterStatuses

  // ----- What one pass decides

  datatype Decision =
    | EnterMaintenance(state: State)
    | FinishMaintenance
    | SaveRevision(podHash: string, bootstrapTokenHash: string)
    | CleanUp(pod: Pod)
    | PinZone(zone: string)
    | ClearZone
    | WaitForPods
    | DeleteBatch(pods: seq<Pod>)
    | Nothing

  /** No longer, or not yet, created from the given revision and hash. */
  predicate Stale(p: Pod, podRevision: int, podHash: string) {
    !(POD_REVISION in p.annotations && POD_HASH in p.annotations
      && p.annotations[POD_REVISION] == Itoa(podRevision) && p.annotations[POD_HASH] == podHash)
  }

  function StaleTest(pool: NodePool): Pod -> bool {
    (p: Pod) => Stale(p, pool.desiredPodRevision, pool.desiredPodHash)
  }

  /** The zone of the first pod that passes the test and runs on a worker node with a known zone. */
  function FirstZone(test: Pod -> bool, zones: map<string, string>, pods: seq<Pod>): (zone: string)
    ensures zone != "" ==> exists p :: p in pods && test(p) && ZoneOf(zones, p) == zone
  {
    if pods == [] then ""
    else if test(pods[0]) && pods[0].spec.nodeName != "" && ZoneOf(zones, pods[0]) != "" then ZoneOf(zones, pods[0])
    else FirstZone(test, zones, pods[1..])
  }

  predicate StaleInZone(pool: NodePool, zones: map<string, string>, pods: seq<Pod>, zone: string) {
    exists p :: p in pods && ZoneOf(zones, p) == zone && StaleTest(pool)(p)
  }

  /** Everything one pass over a node pool looks at; `pods` is the listing in name order. */
  datatype Pass = Pass(
    pool: NodePool,
    clusterState: State,
    desired: Pod,
    zones: map<string, string>,
    pods: seq<Pod>,
    now: nat)
  {
    predicate Replacing() { clusterState.Restarting? || clusterState.Upgrading? }

    predicate ZoneAware() { pool.GetUpdateStrategy().enableZoneAwareness }

    function CompareContext(s: PodsStatus): Context {
      Context(pool, desired, zones,
              s.FoundEvictedPodsOrPodsWithOrphanedPVCs() || s.HaveUnschedulablePodsOrPodsWithBadStatusConditions())
    }

    /** Broken pods, if there are any, are the only ones considered. */
    function Considered(s: PodsStatus): seq<Pod> {
      if s.HaveUnschedulablePodsOrPodsWithBadStatusConditions() then s.podsWithErrors else pods
    }

    function LifecycleFrom(s: PodsStatus): Lifecycle { LifecycleOf(CompareContext(s), Considered(s)) }

    predicate Entering(l: Lifecycle) { (clusterState.Running? || clusterState.ConfigError?) && l.FoundDifference() }

    predicate Finishing(s: PodsStatus, l: Lifecycle) {
      && !pool.state.Running?
      && s.RevisionsMatch(pool.desiredPodRevision)
      && s.notReadyCount == 0
      && !s.WaitingOnPods()
      && !l.FoundDifference()
    }

    predicate NewRevision() {
      && (pool.desiredPodRevision == 0 || Replacing())
      && (Lookup(desired.annotations, POD_HASH) != pool.desiredPodHash
          || Lookup(desired.annotations, BOOTSTRAP_TOKEN_HASH) != pool.desiredBootstrapTokenHash)
    }

    function DecideZone(): Option<Decision> {
      if !ZoneAware() then None
      else if pool.zoneUnderMaintenance == "" then
        var zone := FirstZone(StaleTest(pool), zones, pods);
        if zone == "" then None else Some(PinZone(zone))
      else if !StaleInZone(pool, zones, pods, pool.zoneUnderMaintenance) then Some(ClearZone)
      else None
    }

    predicate Waits(s: PodsStatus, l: Lifecycle) { Replacing() && s.WaitingOnPods() && l.ShouldRollingRestart() }

    function DecideDeletion(s: PodsStatus, l: Lifecycle): Decision {
      if !l.ADifferenceWasDetectedAndManualDeletionsNotEnabled() then Nothing
      else if Waits(s, l) then WaitForPods
      else DeleteBatch(l.podsToBeReplaced[..Min(Max(s.DeletionBudget(), 0), |l.podsToBeReplaced|)])
    }

    function DecideFrom(s: PodsStatus, l: Lifecycle): Option<Decision> {
      if Entering(l) then Some(EnterMaintenance(if l.FoundVersionDifference() then Upgrading else Restarting))
      else if Finishing(s, l) then Some(FinishMaintenance)
      else if BOOTSTRAP_TOKEN_HASH !in desired.annotations then None
      else if NewRevision()
        then Some(SaveRevision(Lookup(desired.annotations, POD_HASH), desired.annotations[BOOTSTRAP_TOKEN_HASH]))
      else if s.FoundEvictedPodsOrPodsWithOrphanedPVCs() then Some(CleanUp(s.podsRequiringDeletion[0]))
      else if DecideZone().Some? then DecideZone()
      else Some(DecideDeletion(s, l))
    }

    /** None when the pass gives up with an error before it changes anything. */
    function Decide(): Option<Decision> {
      match StatusOf(pool, pods, now)
      case None => None
      case Some(s) =>
        if !AllComparable(CompareContext(s), Considered(s)) then None else DecideFrom(s, LifecycleFrom(s))
    }

    function Entry(state: State, podRevision: int, podHash: string,
                   bootstrapTokenHash: string, zone: string): PoolStatus {
      PoolStatus(pool.name, state, zone, podRevision, podHash, bootstrapTokenHash)
    }

    function EntryWith(state: State, zone: string): PoolStatus {
      Entry(state, pool.desiredPodRevision, pool.desiredPodHash, pool.desiredBootstrapTokenHash, zone)
    }

    /** The status entry a decision writes. */
    function WriteFor(d: Decision): Option<PoolStatus> {
      match d
      case EnterMaintenance(state) => Some(EntryWith(state, ""))
      case FinishMaintenance => Some(EntryWith(Running, ""))
      case SaveRevision(podHash, token) => Some(Entry(clusterState, pool.desiredPodRevision + 1, podHash, token, ""))
      case PinZone(zone) => Some(EntryWith(pool.state, zone))
      case ClearZone => Some(EntryWith(pool.state, ""))
      case _ => None
    }
  }

  function Name(): Pod -> string { (p: Pod) => p.name }

  /** The pods a decision sets out to delete, by name. */
  function VictimsOf(d: Decision): seq<string> {
    match d
    case CleanUp(pod) => [pod.name]
    case DeleteBatch(pods) => Map(Name(), pods)
    case _ => []
  }

  // ----- The cluster, its pods, and the worker that goes through one pass at a time

  datatype Worker = Idle | Deleting(pool: string, victims: seq<string>)

  datatype World = World(
    state: State,
    entries: seq<PoolStatus>,
    pods: map<string, seq<Pod>>,
    worker: Worker)
  {
    function PodsOf(pool: string): seq<Pod> { if pool in pods then pods[pool] else [] }

    function Write(e: PoolStatus): World {
      this.(state := if e.state.NoState? then state else e.state, entries := PutPool(entries, e))
    }
  }

  /** Writing an entry is what the status option for a node pool does to the stored status. */
  lemma WriteIsStatusOption(w: World, s: Status, e: PoolStatus)
    requires s.state == w.state && s.pools == w.entries && e.name != ""
    ensures var s' := ApplyOption(s, WithNodePoolState(e));
      s'.state == w.Write(e).state && s'.pools == w.Write(e).entries
  {
  }

  predicate InMaintenance(entries: seq<PoolStatus>, name: string) {
    exists e :: e in entries && e.name == name && !e.state.Running?
  }

  /** Maintenance of a pool is allowed when no configured pool is in maintenance, or when that pool is. */
  predicate Allows(configured: set<string>, entries: seq<PoolStatus>, name: string) {
    || (forall other :: other in configured ==> !InMaintenance(entries, other))
    || (name in configured && InMaintenance(entries, name))
  }

  /** The pool settings carry the pool's status entry. */
  predicate Snapshot(pool: NodePool, entries: seq<PoolStatus>) {
    EntryOf(entries, pool.name) == PoolStatus(pool.name, pool.state, pool.zoneUnderMaintenance,
                                              pool.desiredPodRevision,
                                              pool.desiredPodHash, pool.desiredBootstrapTokenHash)
  }

  /** What pod construction puts into every desired pod of the pool. */
  predicate ConstructedFor(pool: NodePool, p: Pod) {
    && HasHumioContainer(p.spec)
    && Lookup(p.annotations, POD_HASH) != ""
    && Lookup(p.annotations, POD_REVISION) == Itoa(pool.desiredPodRevision)
  }

  /** A delete call: the pod stays listed until the kubelet is done with it. */
  function MarkDeleted(pods: seq<Pod>, name: string): (r: seq<Pod>)
    ensures |r| == |pods|
    ensures forall i :: 0 <= i < |r| ==> r[i] == if pods[i].name == name then pods[i].(deleting := true) else pods[i]
  {
    Map((p: Pod) => if p.name == name then p.(deleting := true) else p, pods)
  }

  /** The API server keeps names unique. */
  ghost predicate UniqueNames(pods: seq<Pod>) {
    forall i, j :: 0 <= i < j < |pods| ==> pods[i].name != pods[j].name
  }

  datatype Action =
    | Maintain(pool: NodePool, desired: Pod, zones: map<string, string>, now: nat, written: bool)
    | DeleteNext
    | EndPass
    | CreatePods(pool: NodePool, created: seq<Pod>)
    | Kubelet(poolName: string, index: nat, after: Pod)
    | PodGone(poolName: string, index: nat)
    | ServiceAccountBump(pool: NodePool, restart: bool)
    | PendingWrite(pool: NodePool)
    | PoolConfigErrorWrite(pool: NodePool)
    | ClusterStateWrite(state: State)

  /** The pass of a maintenance action in a given world. */
  function PassOf(w: World, a: Action): Pass
    requires a.Maintain?
  {
    Pass(a.pool, w.state, a.desired, a.zones, SortByName(w.PodsOf(a.pool.name)), a.now)
  }

  /** A pass starts on a configured pool that the maintenance check lets in, with settings made from the stored
      entry. */
  ghost predicate Admitted(configured: set<string>, w: World, a: Action)
    requires a.Maintain?
  {
    && w.worker.Idle?
    && a.pool.name in configured && Allows(configured, w.entries, a.pool.name)
    && Snapshot(a.pool, w.entries) && ConstructedFor(a.pool, a.desired)
  }

  ghost predicate MaintainStep(configured: set<string>, w: World, a: Action, w': World)
    requires a.Maintain?
  {
    && Admitted(configured, w, a)
    && var pass := PassOf(w, a);
       match pass.Decide()
       case None => w' == w
       case Some(d) =>
         var write := pass.WriteFor(d);
         if write.Some? then w' == if a.written then w.Write(write.value) else w
         else w' == w.(worker := if VictimsOf(d) == [] then Idle else Deleting(a.pool.name, VictimsOf(d)))
  }

  predicate Writes(w: World, a: Action)
    requires a.Maintain?
  {
    PassOf(w, a).Decide().Some? && PassOf(w, a).WriteFor(PassOf(w, a).Decide().value).Some?
  }

  /** The entry that a writing pass stores. */
  function WrittenBy(w: World, a: Action): PoolStatus
    requires a.Maintain? && Writes(w, a)
  {
    PassOf(w, a).WriteFor(PassOf(w, a).Decide().value).value
  }

  /** A pass leaves the entries alone, or replaces the entry of its own pool. */
  lemma MaintainWrites(configured: set<string>, w: World, a: Action, w': World)
    requires a.Maintain? && MaintainStep(configured, w, a, w')
    ensures Admitted(configured, w, a)
    ensures w'.entries == w.entries || (Writes(w, a) && a.written && w' == w.Write(WrittenBy(w, a)))
  {
  }

  /** What the entry of a decision keeps from the pool's settings. */
  lemma WrittenEntry(pass: Pass, d: Decision)
    requires pass.WriteFor(d).Some?
    ensures var e := pass.WriteFor(d).value;
      && e.name == pass.pool.name
      && (e.desiredPodRevision == pass.pool.desiredPodRevision + 1 <==> d.SaveRevision?)
      && (!d.SaveRevision? ==>
            && e.desiredPodRevision == pass.pool.desiredPodRevision && e.desiredPodHash == pass.pool.desiredPodHash
            && e.desiredBootstrapTokenHash == pass.pool.desiredBootstrapTokenHash)
      && (e.zoneUnderMaintenance != "" ==> d == PinZone(e.zoneUnderMaintenance))
      && (e.state.Running? ==>
            || d.FinishMaintenance? || pass.clusterState.Running? || pass.pool.state.Running?
            || (d.EnterMaintenance? && d.state.Running?))
  {
  }

  ghost predicate DeleteNextStep(w: World, w': World) {
    && w.worker.Deleting? && w.worker.victims != []
    && w' == w.(pods := w.pods[w.worker.pool := MarkDeleted(w.PodsOf(w.worker.pool), w.worker.victims[0])],
                worker := Deleting(w.worker.pool, w.worker.victims[1..]))
  }

  /** A pod as it is created: nothing has run yet. */
  predicate FreshPod(pool: NodePool, p: Pod) {
    && ConstructedFor(pool, p)
    && !p.deleting && p.spec.nodeName == "" && p.status.conditions == []
  }

  ghost predicate CreateStep(configured: set<string>, w: World, a: Action, w': World)
    requires a.CreatePods?
  {
    var pods := w.PodsOf(a.pool.name);
    && w.worker.Idle?
    && a.pool.name in configured && Allows(configured, w.entries, a.pool.name) && Snapshot(a.pool, w.entries)
    && |pods| + |a.created| <= Max(|pods|, a.pool.nodeCount)
    && (forall p :: p in a.created ==> FreshPod(a.pool, p))
    && UniqueNames(pods + a.created)
    && w' == w.(pods := w.pods[a.pool.name := pods + a.created])
  }

  /** The kubelet, the scheduler or a user change one pod; nobody takes a deletion back. */
  ghost predicate KubeletStep(w: World, a: Action, w': World)
    requires a.Kubelet?
  {
    var pods := w.PodsOf(a.poolName);
    && a.index < |pods|
    && a.after.name == pods[a.index].name && (pods[a.index].deleting ==> a.after.deleting) && WellFormed(a.after)
    && w' == w.(pods := w.pods[a.poolName := pods[a.index := a.after]])
  }

  ghost predicate PodGoneStep(w: World, a: Action, w': World)
    requires a.PodGone?
  {
    var pods := w.PodsOf(a.poolName);
    && a.index < |pods|
    && w' == w.(pods := w.pods[a.poolName := pods[..a.index] + pods[a.index + 1..]])
  }

  function PoolEntry(pool: NodePool, state: State, podRevision: int, zone: string): PoolStatus {
    PoolStatus(pool.name, state, zone, podRevision, pool.desiredPodHash, pool.desiredBootstrapTokenHash)
  }

  /** The entry written by the steps that do not ask whether the pool may be maintained. */
  function UngatedEntry(w: World, a: Action): PoolStatus
    requires a.ServiceAccountBump? || a.PendingWrite? || a.PoolConfigErrorWrite?
  {
    match a
    case ServiceAccountBump(pool, restart) =>
      PoolEntry(pool, w.state, pool.desiredPodRevision + if restart then 1 else 0, "")
    case PendingWrite(pool) => PoolEntry(pool, Pending, pool.desiredPodRevision, pool.zoneUnderMaintenance)
    case PoolConfigErrorWrite(pool) => PoolEntry(pool, ConfigError, pool.desiredPodRevision, pool.zoneUnderMaintenance)
  }

  ghost predicate UngatedStep(configured: set<string>, w: World, a: Action, w': World)
    requires a.ServiceAccountBump? || a.PendingWrite? || a.PoolConfigErrorWrite?
  {
    && w.worker.Idle? && a.pool.name in configured && Snapshot(a.pool, w.entries)
    && (a.PendingWrite? ==> !w.state.Restarting? && !w.state.Upgrading?)
    && w' == w.Write(UngatedEntry(w, a))
  }

  ghost predicate Next(configured: set<string>, w: World, a: Action, w': World) {
    match a
    case Maintain(_, _, _, _, _) => MaintainStep(configured, w, a, w')
    case DeleteNext => DeleteNextStep(w, w')
    case EndPass => w' == w.(worker := Idle)
    case CreatePods(_, _) => CreateStep(configured, w, a, w')
    case Kubelet(_, _, _) => KubeletStep(w, a, w')
    case PodGone(_, _) => PodGoneStep(w, a, w')
    case ClusterStateWrite(state) =>
      w.worker.Idle? && (state.Running? || state.ConfigError?) && w' == w.(state := state)
    case _ => UngatedStep(configured, w, a, w')
  }

  lemma MarkedInListing(w: World, w': World, name: string, q: Pod)
    requires DeleteNextStep(w, w') && q in w'.PodsOf(name) && q !in w.PodsOf(name)
    ensures exists p :: p in w.PodsOf(name) && q == p.(deleting := true)
  {
    var i :| 0 <= i < |w'.PodsOf(name)| && w'.PodsOf(name)[i] == q;
    assert w.PodsOf(name)[i] in w.PodsOf(name);
  }

  lemma ChangedInListing(w: World, a: Action, w': World, name: string, q: Pod)
    requires a.Kubelet? && KubeletStep(w, a, w') && q in w'.PodsOf(name) && q !in w.PodsOf(name)
    ensures a.poolName == name && a.index < |w.PodsOf(name)| && q == a.after
  {
    var i :| 0 <= i < |w'.PodsOf(name)| && w'.PodsOf(name)[i] == q;
  }

  lemma CreatedInListing(configured: set<string>, w: World, a: Action, w': World, name: string, q: Pod)
    requires a.CreatePods? && CreateStep(configured, w, a, w') && q in w'.PodsOf(name) && q !in w.PodsOf(name)
    ensures a.pool.name == name && q in a.created && FreshPod(a.pool, q)
  {
  }

  lemma OnlyTheseChangePods(configured: set<string>, w: World, a: Action, w': World, name: string, q: Pod)
    requires Next(configured, w, a, w') && q in w'.PodsOf(name) && q !in w.PodsOf(name)
    ensures a.DeleteNext? || a.Kubelet? || a.CreatePods?
  {
    hide DeleteNextStep, KubeletStep, CreateStep;
    if a.PodGone? { assert forall p :: p in w'.PodsOf(name) ==> p in w.PodsOf(name); }
  }

  /** How a pod comes to be in the listing that was not there before: it was marked as deleted, it was changed from
      outside, or it was created. */
  lemma NewInListing(configured: set<string>, w: World, a: Action, w': World, name: string, q: Pod)
    requires Next(configured, w, a, w') && q in w'.PodsOf(name) && q !in w.PodsOf(name)
    ensures a.DeleteNext? || a.Kubelet? || a.CreatePods?
    ensures a.DeleteNext? ==> exists p :: p in w.PodsOf(name) && q == p.(deleting := true)
    ensures a.Kubelet? ==> a.poolName == name && a.index < |w.PodsOf(name)| && q == a.after
    ensures a.CreatePods? ==> a.pool.name == name && q in a.created && FreshPod(a.pool, q)
  {
    hide DeleteNextStep, KubeletStep, CreateStep, MaintainStep, PodGoneStep, UngatedStep;
    OnlyTheseChangePods(configured, w, a, w', name, q);
    match a
    case DeleteNext => MarkedInListing(w, w', name, q);
    case Kubelet(_, _, _) => ChangedInListing(w, a, w', name, q);
    case CreatePods(_, _) => CreatedInListing(configured, w, a, w', name, q);
  }

  /** A run: one world more than there are steps. */
  ghost predicate Run(configured: set<string>, ws: seq<World>, acts: seq<Action>) {
    && |ws| == |acts| + 1
    && forall i :: 0 <= i < |acts| ==> Next(configured, ws[i], acts[i], ws[i + 1])
  }
}
