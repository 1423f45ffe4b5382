/** The maintenance part of a reconcile, step by step, and the proof that it only takes steps of the maintenance
    runs. */
module Reconcile {
  import Decimal
  import opened Kube
  import opened NodePools
  import opened Seqs
  import opened PodsStatuses
  import opened PodLifecycles
  import opened ClusterStatuses
  import opened Maintenance

  // ----- Pod filters

  method FilterPodsExcludePodsWithPodRevisionOrPodHash(podList: seq<Pod>, pool: NodePool) returns (r: seq<Pod>)
    ensures r == Filter(StaleTest(pool), podList)
  {
    r := [];
    for k := 0 to |podList|
      invariant r == Filter(StaleTest(pool), podList[..k])
    {
      var pod := podList[k];
      assert podList[..k + 1] == podList[..k] + [pod];
      FilterSnoc(StaleTest(pool), podList[..k], pod);
      if POD_REVISION in pod.annotations && POD_HASH in pod.annotations {
        if Decimal.Itoa(pool.desiredPodRevision) == pod.annotations[POD_REVISION]
           && pool.desiredPodHash == pod.annotations[POD_HASH] {
          continue;
        }
      }
      r := r + [pod];
    }
    assert podList[..|podList|] == podList;
  }


  function InZone(zones: map<string, string>, zone: string): Pod -> bool { (p: Pod) => ZoneOf(zones, p) == zone }

  method FilterPodsByZoneName(podList: seq<Pod>, zones: map<string, string>, zone: string) returns (r: seq<Pod>)
    ensures r == Filter(InZone(zones, zone), podList)
  {
    r := [];
    for k := 0 to |podList|
      invariant r == Filter(InZone(zones, zone), podList[..k])
    {
      assert podList[..k + 1] == podList[..k] + [podList[k]];
      FilterSnoc(InZone(zones, zone), podList[..k], podList[k]);
      if ZoneOf(zones, podList[k]) == zone { r := r + [podList[k]]; }
    }
    assert podList[..|podList|] == podList;
  }

  lemma FirstZoneCons(test: Pod -> bool, zones: map<string, string>, p: Pod, rest: seq<Pod>)
    ensures FirstZone(test, zones, [p] + rest)
         == if test(p) && p.spec.nodeName != "" && ZoneOf(zones, p) != "" then ZoneOf(zones, p)
            else FirstZone(test, zones, rest)
  {
    assert ([p] + rest)[1..] == rest;
  }

  lemma {:induction false} FirstZoneOfFiltered(test: Pod -> bool, zones: map<string, string>, pods: seq<Pod>)
    ensures FirstZone(test, zones, Filter(test, pods)) == FirstZone(test, zones, pods)
  {
    if pods != [] {
      FirstZoneOfFiltered(test, zones, pods[1..]);
      FirstZoneOfFilteredStep(test, zones, pods[0], pods[1..]);
      assert pods == [pods[0]] + pods[1..];
    }
  }

  lemma FirstZoneOfFilteredStep(test: Pod -> bool, zones: map<string, string>, p: Pod, rest: seq<Pod>)
    requires FirstZone(test, zones, Filter(test, rest)) == FirstZone(test, zones, rest)
    ensures FirstZone(test, zones, Filter(test, [p] + rest)) == FirstZone(test, zones, [p] + rest)
  {
    FilterCons(test, p, rest);
    FirstZoneCons(test, zones, p, rest);
    FirstZoneCons(test, zones, p, Filter(test, rest));
  }

  /** The zone that is pinned next: of the first stale pod on a worker node with a known zone. */
  method PickZone(pool: NodePool, zones: map<string, string>, pods: seq<Pod>) returns (zone: string)
    ensures zone == FirstZone(StaleTest(pool), zones, pods)
  {
    var stale := FilterPodsExcludePodsWithPodRevisionOrPodHash(pods, pool);
    FirstZoneOfFiltered(StaleTest(pool), zones, pods);
    zone := FirstKnownZone(StaleTest(pool), zones, stale);
  }

  method FirstKnownZone(ghost test: Pod -> bool, zones: map<string, string>, stale: seq<Pod>) returns (zone: string)
    requires forall p :: p in stale ==> test(p)
    ensures zone == FirstZone(test, zones, stale)
  {
    for k := 0 to |stale|
      invariant FirstZone(test, zones, stale) == FirstZone(test, zones, stale[k..])
    {
      assert stale[k..][1..] == stale[k + 1..];
      assert stale[k] in stale;
      if stale[k].spec.nodeName == "" { continue; }
      var newZoneUnderMaintenance := ZoneOf(zones, stale[k]);
      if newZoneUnderMaintenance != "" { return newZoneUnderMaintenance; }
    }
    return "";
  }

  /** The zone part of a pass: pin, clear, or neither. */
  method DecideZone(pass: Pass) returns (d: Option<Decision>)
    ensures d == pass.DecideZone()
  {
    if !pass.ZoneAware() { return None; }
    if pass.pool.zoneUnderMaintenance == "" {
      var zone := PickZone(pass.pool, pass.zones, pass.pods);
      if zone != "" { return Some(PinZone(zone)); }
    } else {
      var inZone := FilterPodsByZoneName(pass.pods, pass.zones, pass.pool.zoneUnderMaintenance);
      var leftovers := FilterPodsExcludePodsWithPodRevisionOrPodHash(inZone, pass.pool);
      NoLeftovers(pass, inZone, leftovers);
      if |leftovers| == 0 { return Some(ClearZone); }
    }
    return None;
  }

  lemma NoLeftovers(pass: Pass, inZone: seq<Pod>, leftovers: seq<Pod>)
    requires inZone == Filter(InZone(pass.zones, pass.pool.zoneUnderMaintenance), pass.pods)
    requires leftovers == Filter(StaleTest(pass.pool), inZone)
    ensures |leftovers| == 0 <==> !StaleInZone(pass.pool, pass.zones, pass.pods, pass.pool.zoneUnderMaintenance)
  {
    if |leftovers| > 0 { assert leftovers[0] in leftovers; }
    if q :| q in pass.pods && ZoneOf(pass.zones, q) == pass.pool.zoneUnderMaintenance && StaleTest(pass.pool)(q) {
      assert q in leftovers;
    }
  }

  // ----- The maintenance check

  method CurrentlyConfiguredNodePoolsInMaintenance(entries: seq<PoolStatus>, pools: seq<string>)
      returns (r: seq<string>)
    ensures forall n :: n in r <==> n in pools && InMaintenance(entries, n)
  {
    r := [];
    for i := 0 to |pools|
      invariant forall n :: n in r <==> n in pools[..i] && InMaintenance(entries, n)
    {
      assert pools[..i + 1] == pools[..i] + [pools[i]];
      ghost var before := r;
      for j := 0 to |entries|
        invariant forall n :: n in before ==> n in r
        invariant forall n :: n in r ==> n in before || (n == pools[i] && InMaintenance(entries, n))
        invariant forall k :: 0 <= k < j && entries[k].name == pools[i] && !entries[k].state.Running? ==> pools[i] in r
      {
        if entries[j].name == pools[i] && !entries[j].state.Running? {
          assert entries[j] in entries;
          r := r + [pools[i]];
        }
      }
    }
    assert pools[..|pools|] == pools;
  }

  method NodePoolAllowsMaintenanceOperations(entries: seq<PoolStatus>, pool: string, pools: seq<string>)
      returns (r: bool)
    ensures r == Allows((set n | n in pools), entries, pool)
  {
    var poolsInMaintenance := CurrentlyConfiguredNodePoolsInMaintenance(entries, pools);
    if |poolsInMaintenance| == 0 {
      assert forall n :: n !in poolsInMaintenance;
      return true;
    }
    assert poolsInMaintenance[0] in poolsInMaintenance;
    for k := 0 to |poolsInMaintenance|
      invariant forall i :: 0 <= i < k ==> poolsInMaintenance[i] != pool
    {
      if poolsInMaintenance[k] == pool {
        assert poolsInMaintenance[k] in poolsInMaintenance;
        return true;
      }
    }
    assert pool !in poolsInMaintenance;
    return false;
  }

  // ----- Deleting one pod after the other

  function DeleteAll(pods: seq<Pod>, names: seq<string>): seq<Pod> {
    if names == [] then pods else MarkDeleted(DeleteAll(pods, names[..|names| - 1]), names[|names| - 1])
  }

  /** A terminating pod had its name given to a delete call, or was terminating before; nothing else changes. */
  lemma {:induction false} DeleteAllAt(pods: seq<Pod>, names: seq<string>)
    ensures |DeleteAll(pods, names)| == |pods|
    ensures forall i :: 0 <= i < |pods| ==>
      DeleteAll(pods, names)[i] == pods[i].(deleting := pods[i].deleting || pods[i].name in names)
  {
    if names != [] {
      var init := names[..|names| - 1];
      assert names == init + [names[|names| - 1]];
      DeleteAllAt(pods, init);
    }
  }

  function Erased(w: World, pool: string, victims: seq<string>, n: nat): World
    requires n <= |victims|
  {
    w.(pods := w.pods[pool := DeleteAll(w.PodsOf(pool), victims[..n])], worker := Deleting(pool, victims[n..]))
  }

  lemma {:induction false} DeletingRun(configured: set<string>, w: World, pool: string, victims: seq<string>, n: nat)
      returns (ws: seq<World>, acts: seq<Action>)
    requires w.worker == Deleting(pool, victims) && n <= |victims| && pool in w.pods
    ensures Run(configured, ws, acts) && ws[0] == w && ws[|acts|] == Erased(w, pool, victims, n)
  {
    if n == 0 {
      assert victims[..0] == [] && victims[0..] == victims;
      assert w.pods[pool := w.pods[pool]] == w.pods;
      return [w], [];
    }
    ws, acts := DeletingRun(configured, w, pool, victims, n - 1);
    var u, v := Erased(w, pool, victims, n - 1), Erased(w, pool, victims, n);
    assert victims[..n][..n - 1] == victims[..n - 1] && victims[n - 1..][0] == victims[n - 1]
        && victims[n - 1..][1..] == victims[n..];
    assert u.pods[pool := v.pods[pool]] == v.pods;
    assert Next(configured, u, DeleteNext, v);
    ws, acts := Extend(configured, ws, acts, DeleteNext, v);
  }

  lemma Extend(configured: set<string>, ws: seq<World>, acts: seq<Action>, a: Action, v: World)
      returns (ws': seq<World>, acts': seq<Action>)
    requires Run(configured, ws, acts) && Next(configured, ws[|acts|], a, v)
    ensures Run(configured, ws', acts') && ws'[0] == ws[0] && ws'[|acts'|] == v && |acts'| == |acts| + 1
  {
    ws', acts' := ws + [v], acts + [a];
    forall i | 0 <= i < |acts'| ensures Next(configured, ws'[i], acts'[i], ws'[i + 1]) {
      if i < |acts| { assert ws'[i] == ws[i] && ws'[i + 1] == ws[i + 1] && acts'[i] == acts[i]; }
    }
  }

  lemma Join(configured: set<string>, ws: seq<World>, acts: seq<Action>, vs: seq<World>, bcts: seq<Action>)
      returns (ws': seq<World>, acts': seq<Action>)
    requires Run(configured, ws, acts) && Run(configured, vs, bcts) && ws[|acts|] == vs[0]
    ensures Run(configured, ws', acts') && ws'[0] == ws[0] && ws'[|acts'|] == vs[|bcts|]
  {
    ws', acts' := ws + vs[1..], acts + bcts;
    forall i | 0 <= i < |acts'| ensures Next(configured, ws'[i], acts'[i], ws'[i + 1]) {
      if i < |acts| {
        assert ws'[i] == ws[i] && ws'[i + 1] == ws[i + 1] && acts'[i] == acts[i];
      } else {
        assert ws'[i] == vs[i - |acts|] && ws'[i + 1] == vs[i - |acts| + 1] && acts'[i] == bcts[i - |acts|];
      }
    }
  }

  // ----- What a pass does to the cluster

  /** After the pass: the entry it decided to write is stored or the write failed; or some of the pods it decided to
      delete, in order, got their delete call. */
  ghost predicate CarriedOut(w: World, pass: Pass, decision: Option<Decision>, w': World, deleted: nat) {
    match decision
    case None => w' == w
    case Some(d) =>
      match pass.WriteFor(d)
      case Some(e) => w' == w || w' == w.Write(e)
      case None =>
        && deleted <= |VictimsOf(d)|
        && w' == w.(pods := w.pods[pass.pool.name := DeleteAll(w.PodsOf(pass.pool.name), VictimsOf(d)[..deleted])])
  }

  /** The pass did all that it decided. */
  ghost predicate Complete(w: World, pass: Pass, decision: Option<Decision>, w': World) {
    match decision
    case None => false
    case Some(d) =>
      match pass.WriteFor(d)
      case Some(e) => w' == w.Write(e)
      case None => w' == w.(pods := w.pods[pass.pool.name := DeleteAll(w.PodsOf(pass.pool.name), VictimsOf(d))])
  }

  /** An upgrade that does not roll still has a difference to deal with. */
  predicate AllAtOnce(pass: Pass, l: Lifecycle) {
    pass.clusterState.Upgrading? && l.ADifferenceWasDetectedAndManualDeletionsNotEnabled() && !l.ShouldRollingRestart()
  }

  /** After such a pass the reconcile carries on with the next step. */
  predicate Continues(pass: Pass, d: Decision, allAtOnce: bool) {
    pass.WriteFor(d).None? && !d.CleanUp? && (d.WaitForPods? || !allAtOnce)
  }

  /** The reconcile goes on to the next pool after this pass, provided that every call works. */
  predicate CarriesOn(pass: Pass) {
    var s := StatusOf(pass.pool, pass.pods, pass.now);
    s.Some? && pass.Decide().Some?
    && Continues(pass, pass.Decide().value, AllAtOnce(pass, pass.LifecycleFrom(s.value)))
  }

  /** Whatever a pass manages to carry out is a run of maintenance steps. */
  lemma CarryingOutIsARun(configured: set<string>, w: World, a: Action, w': World, deleted: nat)
      returns (ws: seq<World>, acts: seq<Action>)
    requires a.Maintain? && Admitted(configured, w, a) && a.pool.name in w.pods
    requires CarriedOut(w, PassOf(w, a), PassOf(w, a).Decide(), w', deleted)
    ensures Run(configured, ws, acts) && ws[0] == w && ws[|acts|] == w'
  {
    var pass := PassOf(w, a);
    if pass.Decide().None? {
      return [w], [];
    }
    var d := pass.Decide().value;
    if pass.WriteFor(d).Some? {
      if w' == w { return [w], []; }
      var b := a.(written := true);
      assert PassOf(w, b) == pass;
      assert Next(configured, w, b, w');
      return [w, w'], [b];
    }
    ws, acts := DeletionRun(configured, w, a, d, deleted);
    if VictimsOf(d) == [] { assert w.pods[a.pool.name := w.pods[a.pool.name]] == w.pods; }
  }

  lemma DeletionRun(configured: set<string>, w: World, a: Action, d: Decision, deleted: nat)
      returns (ws: seq<World>, acts: seq<Action>)
    requires a.Maintain? && Admitted(configured, w, a) && a.pool.name in w.pods
    requires PassOf(w, a).Decide() == Some(d) && PassOf(w, a).WriteFor(d).None? && deleted <= |VictimsOf(d)|
    ensures Run(configured, ws, acts) && ws[0] == w
    ensures ws[|acts|] == w.(pods := w.pods[a.pool.name := DeleteAll(w.PodsOf(a.pool.name), VictimsOf(d)[..deleted])])
  {
    var name, victims := a.pool.name, VictimsOf(d);
    if victims == [] {
      assert w.pods[name := w.pods[name]] == w.pods;
      return [w], [];
    }
    var u := w.(worker := Deleting(name, victims));
    assert Next(configured, w, a, u);
    var vs, bcts := DeletingRun(configured, u, name, victims, deleted);
    var v := Erased(u, name, victims, deleted).(worker := Idle);
    vs, bcts := Extend(configured, vs, bcts, EndPass, v);
    ws, acts := Join(configured, [w, u], [a], vs, bcts);
  }

  // ----- The reconciler

  class HumioClusterReconciler {
    const hc: ClusterResource
    var pods: map<string, seq<Pod>>
    ghost var failures: nat

    constructor (hc: ClusterResource, pods: map<string, seq<Pod>>)
      ensures this.hc == hc && this.pods == pods
    {
      this.hc, this.pods := hc, pods;
      failures := 0;
    }

    /** How many calls went wrong: they failed, or the cluster resource had been written in between. */
    ghost function Troubles(): nat
      reads this, hc
    {
      failures + hc.failures + hc.conflicts
    }

    function View(): World
      reads this, hc
    {
      World(hc.status.state, hc.status.pools, pods, Idle)
    }

    function ListPods(name: string): (r: seq<Pod>)
      reads this
      ensures name in pods ==> r == pods[name]
    {
      if name in pods then pods[name] else []
    }

    method SetPool(e: PoolStatus) returns (ok: bool)
      requires e.name != ""
      modifies hc
      ensures View() == old(View()).Write(e) || (!ok && View() == old(View()))
      ensures Troubles() >= old(Troubles()) && (!ok ==> Troubles() > old(Troubles()))
    {
      var requeueAfter;
      var options := [WithNodePoolState(e)];
      ok, requeueAfter := hc.UpdateStatus(options);
      assert options[..0] == [];
    }

    method SetMessage(message: string) returns (ok: bool)
      modifies hc
      ensures View() == old(View())
      ensures Troubles() >= old(Troubles()) && (!ok ==> Troubles() > old(Troubles()))
    {
      var options := [MessageOption(message)];
      var requeueAfter;
      ok, requeueAfter := hc.UpdateStatus(options);
      assert options[..0] == [];
    }

    /** Delete calls in list order, up to the first failure. */
    method DeletePods(name: string, victims: seq<string>) returns (deleted: nat)
      requires name in pods
      modifies this
      ensures deleted <= |victims|
      ensures View() == old(View()).(pods := old(pods)[name := DeleteAll(old(pods[name]), victims[..deleted])])
      ensures failures >= old(failures) && (deleted < |victims| ==> failures > old(failures))
    {
      deleted := 0;
      assert victims[..0] == [] && old(pods)[name := old(pods[name])] == old(pods);
      while deleted < |victims|
        invariant deleted <= |victims|
        invariant pods == old(pods)[name := DeleteAll(old(pods[name]), victims[..deleted])]
        invariant failures == old(failures)
      {
        if * {
          failures := failures + 1;
          return;
        }
        assert victims[..deleted + 1][..deleted] == victims[..deleted];
        pods := pods[name := MarkDeleted(pods[name], victims[deleted])];
        deleted := deleted + 1;
      }
    }

    /** One pass over a node pool. `goOn` tells the caller to carry on with the rest of the reconcile; it does so even
        when a delete call failed, as long as that could be noted in the status. `failed` says that some call did not
        work, or that nothing could be decided. */
    method EnsureMismatchedPodsAreDeleted(pool: NodePool, desired: Pod, zones: map<string, string>, now: nat)
        returns (goOn: bool, failed: bool, ghost deleted: nat)
      requires pool.name in pods && pool.name != ""
      modifies this, hc
      ensures var pass := Pass(pool, old(hc.status.state), desired, zones, SortByName(old(pods[pool.name])), now);
        && CarriedOut(old(View()), pass, pass.Decide(), View(), deleted)
        && (!failed ==> Complete(old(View()), pass, pass.Decide(), View()))
        && (failed ==> Troubles() > old(Troubles()) || (pass.Decide().None? && !goOn))
        && (!failed ==> (goOn <==> CarriesOn(pass)))
      ensures Troubles() >= old(Troubles())
      ensures goOn ==> hc.status.pools == old(hc.status.pools) && hc.status.state == old(hc.status.state)
      ensures pods.Keys == old(pods.Keys)
    {
      deleted, goOn, failed := 0, false, true;
      var foundPods := SortByName(ListPods(pool.name));
      var found := GetPodsStatus(pool, ListPods(pool.name), now);
      if found.None? { return; }
      var podsStatus := found.value;
      var pass := Pass(pool, hc.status.state, desired, zones, foundPods, now);
      var compared := GetPodDesiredLifecycleState(pass.CompareContext(podsStatus), pass.Considered(podsStatus));
      if compared.None? { return; }
      var d := DecideNext(pass, podsStatus, compared.value);
      if d.None? { return; }
      goOn, failed, deleted := CarryOut(pass, d.value, compared.value);
    }

    method CarryOut(pass: Pass, d: Decision, lifecycle: Lifecycle)
        returns (goOn: bool, failed: bool, ghost deleted: nat)
      requires pass.pool.name in pods && pass.pool.name != ""
      modifies this, hc
      ensures CarriedOut(old(View()), pass, Some(d), View(), deleted)
      ensures !failed ==> Complete(old(View()), pass, Some(d), View())
      ensures !failed ==> (goOn <==> Continues(pass, d, AllAtOnce(pass, lifecycle)))
      ensures Troubles() >= old(Troubles()) && (failed ==> Troubles() > old(Troubles()))
      ensures goOn ==>
        pass.WriteFor(d).None? && hc.status.pools == old(hc.status.pools) && hc.status.state == old(hc.status.state)
      ensures pods.Keys == old(pods.Keys)
    {
      deleted := 0;
      var entry := pass.WriteFor(d);
      if entry.Some? {
        var written := SetPool(entry.value);
        return false, !written, 0;
      }
      var victims := VictimsOf(d);
      var n := DeletePods(pass.pool.name, victims);
      deleted := n;
      assert victims[..|victims|] == victims;
      if n < |victims| {
        goOn := SetMessage("could not delete pod " + victims[n]);
        return goOn, true, n;
      }
      if d.WaitForPods? {
        goOn := SetMessage("waiting for pods to become ready");
        return goOn, !goOn, n;
      }
      return !d.CleanUp? && !AllAtOnce(pass, lifecycle), false, n;
    }

    /** The branches of a pass, in the order in which they are tried. */
    method DecideNext(pass: Pass, podsStatus: PodsStatus, lifecycle: Lifecycle) returns (d: Option<Decision>)
      ensures d == pass.DecideFrom(podsStatus, lifecycle)
    {
      if pass.clusterState.Running? || pass.clusterState.ConfigError? {
        if lifecycle.FoundVersionDifference() { return Some(EnterMaintenance(Upgrading)); }
        if !lifecycle.FoundVersionDifference() && lifecycle.FoundConfigurationDifference() {
          return Some(EnterMaintenance(Restarting));
        }
      }
      var revisionsMatch :=
        podsStatus.PodRevisionCountMatchesNodeCountAndAllPodsHaveRevision(pass.pool.desiredPodRevision);
      if !pass.pool.state.Running? && revisionsMatch && podsStatus.notReadyCount == 0 && !podsStatus.WaitingOnPods()
         && !lifecycle.FoundConfigurationDifference() && !lifecycle.FoundVersionDifference() {
        return Some(FinishMaintenance);
      }
      if BOOTSTRAP_TOKEN_HASH !in pass.desired.annotations { return None; }
      if pass.pool.desiredPodRevision == 0 || pass.Replacing() {
        if Lookup(pass.desired.annotations, POD_HASH) != pass.pool.desiredPodHash
           || Lookup(pass.desired.annotations, BOOTSTRAP_TOKEN_HASH) != pass.pool.desiredBootstrapTokenHash {
          return Some(SaveRevision(Lookup(pass.desired.annotations, POD_HASH),
                                   pass.desired.annotations[BOOTSTRAP_TOKEN_HASH]));
        }
      }
      if podsStatus.FoundEvictedPodsOrPodsWithOrphanedPVCs() {
        return Some(CleanUp(podsStatus.podsRequiringDeletion[0]));
      }
      var zoneDecision := DecideZone(pass);
      if zoneDecision.Some? { return zoneDecision; }
      var podsForDeletion := lifecycle.podsToBeReplaced;
      if !lifecycle.ADifferenceWasDetectedAndManualDeletionsNotEnabled() { return Some(Nothing); }
      if pass.Replacing() && podsStatus.WaitingOnPods() && lifecycle.ShouldRollingRestart() {
        return Some(WaitForPods);
      }
      var batch: seq<Pod> := [];
      var i := 0;
      while i < podsStatus.DeletionBudget() && i < |podsForDeletion|
        invariant 0 <= i <= |podsForDeletion| && i <= Max(podsStatus.DeletionBudget(), 0)
        invariant batch == podsForDeletion[..i]
      {
        batch := batch + [podsForDeletion[i]];
        i := i + 1;
      }
      return Some(DeleteBatch(batch));
    }

    /** The maintenance loop of a reconcile over all pools. The settings of every pool are made once, at the beginning;
        they stay current because the loop ends at the first pass that writes an entry. When nothing fails and the loop
        reaches its end, every pool that the maintenance check lets in has had the deletions of its own pass, decided on
        the pods and the status from before the loop, and no other pod was touched. */
    method MaintainPools(pools: seq<NodePool>, desired: seq<Pod>, zones: map<string, string>, now: nat)
        returns (goOn: bool, failed: bool, ghost ws: seq<World>, ghost acts: seq<Action>)
      requires |desired| == |pools|
      requires forall k :: 0 <= k < |pools| ==>
        && pools[k].name != "" && pools[k].name in pods
        && Snapshot(pools[k], hc.status.pools) && ConstructedFor(pools[k], desired[k])
      requires forall i, j :: 0 <= i < j < |pools| ==> pools[i].name != pools[j].name
      modifies this, hc
      ensures Run(NamesOf(pools), ws, acts) && ws[0] == old(View()) && ws[|acts|] == View()
      ensures failed && Troubles() == old(Troubles()) ==> exists k ::
        && 0 <= k < |pools|
        && Allows(NamesOf(pools), old(hc.status.pools), pools[k].name)
        && Pass(pools[k], old(hc.status.state), desired[k], zones, SortByName(old(pods[pools[k].name])), now)
             .Decide().None?
      ensures !goOn && !failed ==> exists k ::
        && 0 <= k < |pools|
        && Allows(NamesOf(pools), old(hc.status.pools), pools[k].name)
        && !CarriesOn(Pass(pools[k], old(hc.status.state), desired[k], zones,
                           SortByName(old(pods[pools[k].name])), now))
      ensures goOn && !failed ==> forall k :: 0 <= k < |pools| ==>
        pools[k].name in pods &&
        PoolMaintained(NamesOf(pools), old(hc.status.pools),
                       Pass(pools[k], old(hc.status.state), desired[k], zones,
                            SortByName(old(pods[pools[k].name])), now),
                       old(pods[pools[k].name]), pods[pools[k].name])
    {
      hide PoolMaintained, Snapshot, ConstructedFor;
      var names := PoolNames(pools);
      goOn, failed, ws, acts := true, false, [View()], [];
      for k := 0 to |pools|
        invariant goOn && Run(NamesOf(pools), ws, acts) && ws[0] == old(View()) && ws[|acts|] == View()
        invariant hc.status.pools == old(hc.status.pools) && hc.status.state == old(hc.status.state)
        invariant pods.Keys == old(pods.Keys) && Troubles() >= old(Troubles())
        invariant failed ==> Troubles() > old(Troubles())
        invariant !failed ==> forall i :: 0 <= i < k ==>
          PoolMaintained(NamesOf(pools), old(hc.status.pools),
                         Pass(pools[i], old(hc.status.state), desired[i], zones,
                              SortByName(old(pods[pools[i].name])), now),
                         old(pods[pools[i].name]), pods[pools[i].name])
        invariant forall i :: k <= i < |pools| ==> pods[pools[i].name] == old(pods[pools[i].name])
      {
        var passFailed;
        goOn, passFailed, ws, acts := MaintainPool(pools[k], desired[k], zones, now, names, ws, acts);
        failed := failed || passFailed;
        if !goOn { return; }
      }
    }

    /** One turn of the loop. */
    method MaintainPool(pool: NodePool, desired: Pod, zones: map<string, string>, now: nat, names: seq<string>,
                        ghost ws0: seq<World>, ghost acts0: seq<Action>)
        returns (goOn: bool, failed: bool, ghost ws: seq<World>, ghost acts: seq<Action>)
      requires Run((set n | n in names), ws0, acts0) && ws0[|acts0|] == View()
      requires pool.name != "" && pool.name in pods && pool.name in names
      requires Snapshot(pool, hc.status.pools) && ConstructedFor(pool, desired)
      modifies this, hc
      ensures Run((set n | n in names), ws, acts) && ws[0] == ws0[0] && ws[|acts|] == View()
      ensures pods.Keys == old(pods.Keys) && forall n :: n in pods && n != pool.name ==> pods[n] == old(pods)[n]
      ensures goOn ==> hc.status.pools == old(hc.status.pools) && hc.status.state == old(hc.status.state)
      ensures var pass := Pass(pool, old(hc.status.state), desired, zones, SortByName(old(pods[pool.name])), now);
        var allowed := Allows((set n | n in names), old(hc.status.pools), pool.name);
        && (failed ==> Troubles() > old(Troubles()) || (!goOn && allowed && pass.Decide().None?))
        && (!goOn && !failed ==> allowed && !CarriesOn(pass))
      ensures Troubles() >= old(Troubles())
      ensures !failed ==>
        PoolMaintained((set n | n in names), old(hc.status.pools),
                       Pass(pool, old(hc.status.state), desired, zones, SortByName(old(pods[pool.name])), now),
                       old(pods[pool.name]), pods[pool.name])
    {
      goOn, failed, ws, acts := true, false, ws0, acts0;
      var allowed := NodePoolAllowsMaintenanceOperations(hc.status.pools, pool.name, names);
      if allowed {
        ghost var w := View();
        ghost var a := Maintain(pool, desired, zones, now, false);
        ghost var deleted;
        goOn, failed, deleted := EnsureMismatchedPodsAreDeleted(pool, desired, zones, now);
        ws, acts := CarryingOutIsARun((set n | n in names), w, a, View(), deleted);
        ws, acts := Join((set n | n in names), ws0, acts0, ws, acts);
        OtherPodsStay(w, PassOf(w, a), View(), deleted);
        if !failed { CompletePool((set n | n in names), w, PassOf(w, a), View()); }
      }
    }
  }

  function NamesOf(pools: seq<NodePool>): set<string> { set k | 0 <= k < |pools| :: pools[k].name }

  /** What the loop leaves of a pool: if it was let in, all deletions of its pass, unless the pass wrote an entry
      instead; otherwise its pods as they were. */
  ghost predicate PoolMaintained(configured: set<string>, entries: seq<PoolStatus>, pass: Pass,
                                 pods: seq<Pod>, pods': seq<Pod>) {
    if Allows(configured, entries, pass.pool.name) then
      pass.Decide().Some? && pods' == DeleteAll(pods, VictimsOf(pass.Decide().value))
    else pods' == pods
  }

  lemma CompletePool(configured: set<string>, w: World, pass: Pass, w': World)
    requires Complete(w, pass, pass.Decide(), w') && pass.pool.name in w.pods
    requires Allows(configured, w.entries, pass.pool.name)
    ensures pass.pool.name in w'.pods
    ensures PoolMaintained(configured, w.entries, pass, w.pods[pass.pool.name], w'.pods[pass.pool.name])
  {
  }

  lemma OtherPodsStay(w: World, pass: Pass, w': World, deleted: nat)
    requires CarriedOut(w, pass, pass.Decide(), w', deleted) && pass.pool.name in w.pods
    ensures forall n :: n in w.pods && n != pass.pool.name ==> n in w'.pods && w'.pods[n] == w.pods[n]
  {
  }

  method PoolNames(pools: seq<NodePool>) returns (names: seq<string>)
    ensures forall n :: n in names <==> n in NamesOf(pools)
    ensures (set n | n in names) == NamesOf(pools)
  {
    names := Map((p: NodePool) => p.name, pools);
  }
}
