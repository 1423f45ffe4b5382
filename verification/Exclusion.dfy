/** Only one node pool is in maintenance at a time, and what it takes for a pool to be Running again. */
module Exclusion {
  import opened Kube
  import opened NodePools
  import opened PodComparisons
  import opened PodsStatuses
  import opened PodLifecycles
  import opened ClusterStatuses
  import opened Maintenance
  import opened Availability
  import opened Deletions

  // ----- Entries in maintenance

  /** The stored entries belong to configured pools, one each. */
  ghost predicate Tidy(configured: set<string>, w: World) {
    && DistinctEntries(w.entries)
    && forall n :: HasEntry(w.entries, n) ==> n in configured
  }

  /** No two pools are in maintenance. */
  ghost predicate Exclusive(w: World) {
    forall m, n :: InMaintenance(w.entries, m) && InMaintenance(w.entries, n) ==> m == n
  }

  /** The cluster is Running exactly when no pool is in maintenance, and otherwise it is in the state of that pool. */
  ghost predicate Coherent(w: World) {
    && !w.state.NoState?
    && (forall n :: InMaintenance(w.entries, n) ==> EntryOf(w.entries, n).state == w.state)
    && (w.state.Running? <==> forall n :: !InMaintenance(w.entries, n))
  }

  ghost predicate Alone(w: World, name: string) {
    forall n :: n != name ==> !InMaintenance(w.entries, n)
  }

  lemma {:induction false} EntryIsUnique(entries: seq<PoolStatus>, e: PoolStatus)
    requires DistinctEntries(entries) && e in entries
    ensures EntryOf(entries, e.name) == e
  {
    if entries[0].name != e.name {
      var i :| 0 <= i < |entries| && entries[i] == e;
      var rest := entries[1..];
      assert rest[i - 1] == e;
      forall k, l | 0 <= k < l < |rest|
        ensures rest[k].name != rest[l].name
      {
        assert entries[k + 1].name != entries[l + 1].name;
      }
      EntryIsUnique(rest, e);
    } else {
      var i :| 0 <= i < |entries| && entries[i] == e;
    }
  }

  lemma MaintenanceByEntry(entries: seq<PoolStatus>, name: string)
    requires DistinctEntries(entries)
    ensures InMaintenance(entries, name) <==> HasEntry(entries, name) && !EntryOf(entries, name).state.Running?
  {
    if e :| e in entries && e.name == name && !e.state.Running? { EntryIsUnique(entries, e); }
  }

  lemma WriteMaintenance(configured: set<string>, w: World, e: PoolStatus, n: string)
    requires Tidy(configured, w)
    ensures DistinctEntries(w.Write(e).entries)
    ensures InMaintenance(w.Write(e).entries, n) <==>
      if n == e.name then !e.state.Running? else InMaintenance(w.entries, n)
    ensures EntryOf(w.Write(e).entries, n) == if n == e.name then e else EntryOf(w.entries, n)
    ensures HasEntry(w.Write(e).entries, n) <==> HasEntry(w.entries, n) || n == e.name
  {
    PutPoolDistinct(w.entries, e);
    PutPoolEntries(w.entries, e, n);
    MaintenanceByEntry(w.entries, n);
    MaintenanceByEntry(PutPool(w.entries, e), n);
  }

  lemma WriteTidy(configured: set<string>, w: World, e: PoolStatus)
    requires Tidy(configured, w) && e.name in configured
    ensures Tidy(configured, w.Write(e))
  {
    forall n ensures HasEntry(w.Write(e).entries, n) ==> n in configured { WriteMaintenance(configured, w, e, n); }
    PutPoolDistinct(w.entries, e);
  }

  /** The maintenance check lets a pool in only when no other pool is in maintenance. */
  lemma AllowedAlone(configured: set<string>, w: World, name: string)
    requires Tidy(configured, w) && Exclusive(w) && Allows(configured, w.entries, name)
    ensures Alone(w, name)
  {
    forall n | n != name ensures !InMaintenance(w.entries, n) { MaintenanceByEntry(w.entries, n); }
  }

  /** Writing one entry keeps the exclusion exactly when the entry is Running or its pool is alone. */
  lemma WriteExclusive(configured: set<string>, w: World, e: PoolStatus)
    requires Tidy(configured, w) && Exclusive(w)
    ensures Exclusive(w.Write(e)) <==> e.state.Running? || Alone(w, e.name)
  {
    forall n
      ensures InMaintenance(w.Write(e).entries, n) <==>
        if n == e.name then !e.state.Running? else InMaintenance(w.entries, n)
    {
      WriteMaintenance(configured, w, e, n);
    }
    assert InMaintenance(w.Write(e).entries, e.name) <==> !e.state.Running?;
  }

  lemma WriteCoherent(configured: set<string>, w: World, e: PoolStatus)
    requires Tidy(configured, w) && Alone(w, e.name) && !e.state.NoState?
    ensures Coherent(w.Write(e))
  {
    forall n
      ensures InMaintenance(w.Write(e).entries, n) <==> n == e.name && !e.state.Running?
      ensures n == e.name ==> EntryOf(w.Write(e).entries, n) == e
    {
      WriteMaintenance(configured, w, e, n);
    }
    assert InMaintenance(w.Write(e).entries, e.name) <==> !e.state.Running?;
  }

  // ----- Steps and runs

  /** The steps that go through the maintenance check, and those of the surroundings. */
  predicate IsGated(a: Action) {
    a.Maintain? || a.DeleteNext? || a.EndPass? || a.CreatePods? || a.Kubelet? || a.PodGone?
  }

  /** A pass that pins or clears a zone works on a pool that has an entry. */
  lemma ZoneDecisionsNeedAnEntry(pass: Pass, entries: seq<PoolStatus>)
    requires Snapshot(pass.pool, entries) && ConstructedFor(pass.pool, pass.desired)
    requires pass.Decide().Some? && (pass.Decide().value.PinZone? || pass.Decide().value.ClearZone?)
    ensures HasEntry(entries, pass.pool.name)
  {
    DecideUnfolds(pass);
    var s := StatusOf(pass.pool, pass.pods, pass.now).value;
    ZoneDecisionMeans(pass, s, pass.LifecycleFrom(s));
    BlankUnlessEntry(entries, pass.pool.name);
  }

  lemma ZoneDecisionMeans(p: Pass, s: PodsStatus, l: Lifecycle)
    requires p.DecideFrom(s, l).Some? && (p.DecideFrom(s, l).value.PinZone? || p.DecideFrom(s, l).value.ClearZone?)
    ensures p.DecideFrom(s, l) == p.DecideZone() && !p.NewRevision()
    ensures p.DecideZone().Some?
  {
  }

  lemma {:induction false} BlankUnlessEntry(entries: seq<PoolStatus>, name: string)
    ensures HasEntry(entries, name) || EntryOf(entries, name) == PoolStatus(name, NoState, "", 0, "", "")
  {
    if entries != [] {
      BlankUnlessEntry(entries[1..], name);
      if HasEntry(entries[1..], name) {
        var e :| e in entries[1..] && e.name == name;
        assert e in entries;
      }
      assert entries[0] in entries;
    }
  }

  ghost predicate KnownStates(w: World) { forall n :: HasEntry(w.entries, n) ==> !EntryOf(w.entries, n).state.NoState? }

  lemma WrittenStateOf(pass: Pass, d: Decision)
    requires pass.WriteFor(d).Some? && !pass.clusterState.NoState?
    requires d.EnterMaintenance? ==> !d.state.NoState?
    requires d.PinZone? || d.ClearZone? ==> !pass.pool.state.NoState?
    ensures pass.WriteFor(d).value.name == pass.pool.name && !pass.WriteFor(d).value.state.NoState?
  {
  }

  lemma PassEntersKnownState(pass: Pass)
    requires pass.Decide().Some? && pass.Decide().value.EnterMaintenance?
    ensures !pass.Decide().value.state.NoState?
  {
    DecideUnfolds(pass);
    EntersKnownState(pass, StatusOf(pass.pool, pass.pods, pass.now).value);
  }

  /** The entry a pass writes, in a known state. */
  lemma WrittenState(configured: set<string>, w: World, a: Action)
    requires a.Maintain? && !w.state.NoState? && KnownStates(w)
    requires Snapshot(a.pool, w.entries) && ConstructedFor(a.pool, a.desired)
    requires Writes(w, a)
    ensures WrittenBy(w, a).name == a.pool.name && !WrittenBy(w, a).state.NoState?
  {
    var pass := PassOf(w, a);
    var d := pass.Decide().value;
    if d.PinZone? || d.ClearZone? { ZoneDecisionsNeedAnEntry(pass, w.entries); }
    if d.EnterMaintenance? { PassEntersKnownState(pass); }
    WrittenStateOf(pass, d);
  }

  lemma EntersKnownState(p: Pass, s: PodsStatus)
    requires p.DecideFrom(s, p.LifecycleFrom(s)).Some?
    ensures var d := p.DecideFrom(s, p.LifecycleFrom(s)).value;
      d.EnterMaintenance? ==> d.state.Upgrading? || d.state.Restarting?
  {
  }

  /** Some considered live pod runs another image than the desired pod. */
  ghost predicate ImageChanges(p: Pass, s: PodsStatus) {
    exists q :: q in p.Considered(s) && !q.deleting && Comparable(q, p.desired)
      && HumioContainer(q).image != HumioContainer(p.desired).image
  }

  /** Some considered live pod calls for a restart. */
  ghost predicate RestartNeeded(p: Pass, s: PodsStatus) {
    exists q :: q in p.Considered(s) && !q.deleting && Comparable(q, p.desired) && NeedsRestart(q, p.desired)
  }

  lemma EntersFrom(p: Pass, s: PodsStatus, l: Lifecycle)
    ensures p.DecideFrom(s, l).Some? && p.DecideFrom(s, l).value.EnterMaintenance? <==>
      (p.clusterState.Running? || p.clusterState.ConfigError?) && l.FoundDifference()
    ensures p.DecideFrom(s, l).Some? && p.DecideFrom(s, l).value.EnterMaintenance? ==>
      p.DecideFrom(s, l).value.state == if l.FoundVersionDifference() then Upgrading else Restarting
  {
  }

  /** Maintenance is entered exactly in a Running or ConfigError cluster with a pod that calls for a restart; as an
      upgrade exactly when some pod runs another image, and as a restart otherwise. */
  lemma EntersExactly(p: Pass, s: PodsStatus)
    requires StatusOf(p.pool, p.pods, p.now) == Some(s) && AllComparable(p.CompareContext(s), p.Considered(s))
    ensures p.Decide().Some? && p.Decide().value.EnterMaintenance? <==>
      (p.clusterState.Running? || p.clusterState.ConfigError?) && RestartNeeded(p, s)
    ensures p.Decide().Some? && p.Decide().value.EnterMaintenance? ==>
      p.Decide().value.state == if ImageChanges(p, s) then Upgrading else Restarting
  {
    var ctx, l := p.CompareContext(s), p.LifecycleFrom(s);
    DifferenceByName(ctx, p.Considered(s));
    VersionDifferenceByImage(ctx, p.Considered(s));
    EntersFrom(p, s, l);
  }

  ghost predicate Ordered(configured: set<string>, w: World) {
    Tidy(configured, w) && Exclusive(w) && Coherent(w) && KnownStates(w)
  }

  lemma GatedStepOrdered(configured: set<string>, w: World, a: Action, w': World)
    requires Next(configured, w, a, w') && IsGated(a) && Ordered(configured, w)
    ensures Ordered(configured, w')
  {
    if a.Maintain? && w'.entries != w.entries {
      AllowedAlone(configured, w, a.pool.name);
      WrittenState(configured, w, a);
      var e := PassOf(w, a).WriteFor(PassOf(w, a).Decide().value).value;
      WriteTidy(configured, w, e);
      WriteExclusive(configured, w, e);
      WriteCoherent(configured, w, e);
      forall n | HasEntry(w'.entries, n)
        ensures !EntryOf(w'.entries, n).state.NoState?
      {
        WriteMaintenance(configured, w, e, n);
      }
    } else if a.Maintain? {
      SameEntriesSameState(configured, w, a, w');
    }
  }

  /** A write that leaves the entries as they are leaves the cluster state as well. */
  lemma SameEntriesSameState(configured: set<string>, w: World, a: Action, w': World)
    requires a.Maintain? && MaintainStep(configured, w, a, w') && Ordered(configured, w) && w'.entries == w.entries
    ensures w'.state == w.state
  {
    var pass := PassOf(w, a);
    if pass.Decide().Some? && pass.WriteFor(pass.Decide().value).Some? && a.written {
      AllowedAlone(configured, w, a.pool.name);
      WrittenState(configured, w, a);
      WriteCoherent(configured, w, pass.WriteFor(pass.Decide().value).value);
      if !w.state.Running? { var n :| InMaintenance(w.entries, n); }
      if !w'.state.Running? { var n :| InMaintenance(w'.entries, n); }
    }
  }

  /** When the cluster is not Running, the pool that is let in is the one in maintenance. */
  lemma AllowedIsInMaintenance(configured: set<string>, w: World, name: string)
    requires Ordered(configured, w) && Allows(configured, w.entries, name) && !w.state.Running?
    ensures InMaintenance(w.entries, name) && Alone(w, name) && EntryOf(w.entries, name).state == w.state
  {
    AllowedAlone(configured, w, name);
    var n :| InMaintenance(w.entries, n);
  }

  predicate DeletesBatch(w: World, a: Action) {
    a.Maintain? && PassOf(w, a).Decide().Some? && PassOf(w, a).Decide().value.DeleteBatch?
  }

  lemma BatchClusterState(w: World, a: Action)
    requires DeletesBatch(w, a)
    ensures !w.state.Running?
  {
    if w.state.Running? { NoBatchOutsideMaintenance(PassOf(w, a)); }
  }

  lemma StepsAreAdmitted(configured: set<string>, w: World, a: Action, w': World)
    requires Next(configured, w, a, w') && a.Maintain?
    ensures Allows(configured, w.entries, a.pool.name)
  {
  }

  /** Over any run of gated steps from an orderly state: at most one pool is in maintenance, the cluster is in its state
      (or Running when there is none), and batches are decided for that pool only, which is still the one in maintenance
      at each delete call of the batch. */
  lemma {:induction false} ExclusionOverRuns(configured: set<string>, ws: seq<World>, acts: seq<Action>)
    requires Run(configured, ws, acts) && Ordered(configured, ws[0])
    requires forall i :: 0 <= i < |acts| ==> IsGated(acts[i])
    ensures forall i :: 0 <= i <= |acts| ==> Exclusive(ws[i]) && Coherent(ws[i])
    ensures forall i :: 0 <= i < |acts| && DeletesBatch(ws[i], acts[i]) ==>
              InMaintenance(ws[i].entries, acts[i].pool.name) && Alone(ws[i], acts[i].pool.name)
    ensures forall i, k :: 0 <= i < k <= |acts| && DecidedAt(ws, acts, i, k) && DeletesBatch(ws[i], acts[i]) ==>
              InMaintenance(ws[k].entries, ws[k].worker.pool) && Alone(ws[k], ws[k].worker.pool)
  {
    forall i | 0 <= i <= |acts| ensures Ordered(configured, ws[i]) { OrderedOverRun(configured, ws, acts, i); }
    forall i | 0 <= i < |acts| && DeletesBatch(ws[i], acts[i])
      ensures InMaintenance(ws[i].entries, acts[i].pool.name) && Alone(ws[i], acts[i].pool.name)
    {
      BatchClusterState(ws[i], acts[i]);
      StepsAreAdmitted(configured, ws[i], acts[i], ws[i + 1]);
      AllowedIsInMaintenance(configured, ws[i], acts[i].pool.name);
    }
  }

  lemma {:induction false} OrderedOverRun(configured: set<string>, ws: seq<World>, acts: seq<Action>, n: nat)
    requires Run(configured, ws, acts) && Ordered(configured, ws[0]) && n <= |acts|
    requires forall i :: 0 <= i < |acts| ==> IsGated(acts[i])
    ensures Ordered(configured, ws[n])
  {
    if n > 0 {
      OrderedOverRun(configured, ws, acts, n - 1);
      GatedStepOrdered(configured, ws[n - 1], acts[n - 1], ws[n]);
    }
  }

  /** Every delete call in such a run was decided by an earlier pass, and if that was a batch, the pod belongs to the
      one pool in maintenance at the time of the call. */
  lemma DeleteCallsInMaintenance(configured: set<string>, ws: seq<World>, acts: seq<Action>, k: nat) returns (i: nat)
    requires Run(configured, ws, acts) && Ordered(configured, ws[0]) && ws[0].worker.Idle?
    requires forall j :: 0 <= j < |acts| ==> IsGated(acts[j])
    requires k < |acts| && acts[k].DeleteNext?
    ensures ws[k].worker.Deleting? && DecidedAt(ws, acts, i, k)
    ensures DeletesBatch(ws[i], acts[i]) ==>
      InMaintenance(ws[k].entries, ws[k].worker.pool) && Alone(ws[k], ws[k].worker.pool)
  {
    CallsWhileDeleting(configured, ws[k], acts[k], ws[k + 1]);
    i := DeletionsAreDecided(configured, ws, acts, k);
    ExclusionOverRuns(configured, ws, acts);
  }

  lemma CallsWhileDeleting(configured: set<string>, w: World, a: Action, w': World)
    requires Next(configured, w, a, w') && a.DeleteNext?
    ensures w.worker.Deleting?
  {
  }

  /** The steps that skip the maintenance check keep the exclusion exactly when no other pool is in maintenance, or the
      state they write is Running. */
  lemma UngatedStepExclusive(configured: set<string>, w: World, a: Action, w': World)
    requires a.ServiceAccountBump? || a.PendingWrite? || a.PoolConfigErrorWrite?
    requires Next(configured, w, a, w') && Tidy(configured, w) && Exclusive(w)
    ensures Exclusive(w') <==> UngatedEntry(w, a).state.Running? || Alone(w, a.pool.name)
  {
    WriteExclusive(configured, w, UngatedEntry(w, a));
  }

  /** Another pool's service account annotations change during a restart: a second pool is put into maintenance. */
  lemma UngatedStepBreaksExclusion() returns (configured: set<string>, w: World, a: Action, w': World)
    ensures Next(configured, w, a, w') && IsUngatedWrite(a)
    ensures Ordered(configured, w) && !Exclusive(w')
  {
    var first := PoolStatus("first", Restarting, "", 1, "hash", "token");
    var second := PoolStatus("second", Running, "", 1, "hash", "token");
    configured := {"first", "second"};
    w := World(Restarting, [first, second], map[], Idle);
    a := ServiceAccountBump(WITNESS_POOL.(name := "second", state := Running, desiredPodHash := "hash"), true);
    w' := w.Write(UngatedEntry(w, a));
    WitnessEntries(w, first, second);
    assert Snapshot(a.pool, w.entries);
    assert Alone(w, "first") && InMaintenance(w.entries, "first");
    UngatedStepExclusive(configured, w, a, w');
  }

  lemma WitnessEntries(w: World, first: PoolStatus, second: PoolStatus)
    requires w == World(Restarting, [first, second], map[], Idle)
    requires first.name == "first" && first.state == Restarting && second.name == "second" && second.state == Running
    ensures EntryOf(w.entries, "first") == first && EntryOf(w.entries, "second") == second
    ensures forall n :: HasEntry(w.entries, n) <==> n == "first" || n == "second"
    ensures forall n :: InMaintenance(w.entries, n) <==> n == "first"
    ensures DistinctEntries(w.entries)
  {
    assert w.entries[0] in w.entries && w.entries[1] in w.entries;
    assert "first"[0] != "second"[0];
    assert w.entries[1..] == [second];
  }

  predicate IsUngatedWrite(a: Action) { a.ServiceAccountBump? || a.PendingWrite? || a.PoolConfigErrorWrite? }

  /** An ungated write that finds no other pool in maintenance, or writes Running; any other step. */
  ghost predicate Harmless(w: World, a: Action) {
    IsUngatedWrite(a) ==> UngatedEntry(w, a).state.Running? || Alone(w, a.pool.name)
  }

  lemma MaintainExclusive(configured: set<string>, w: World, a: Action, w': World)
    requires a.Maintain? && MaintainStep(configured, w, a, w') && Tidy(configured, w) && Exclusive(w)
    ensures Tidy(configured, w') && Exclusive(w')
  {
    MaintainWrites(configured, w, a, w');
    if w'.entries != w.entries {
      AllowedAlone(configured, w, a.pool.name);
      WrittenEntry(PassOf(w, a), PassOf(w, a).Decide().value);
      WriteTidy(configured, w, WrittenBy(w, a));
      WriteExclusive(configured, w, WrittenBy(w, a));
    }
  }

  lemma StepExclusive(configured: set<string>, w: World, a: Action, w': World)
    requires Next(configured, w, a, w') && Harmless(w, a) && Tidy(configured, w) && Exclusive(w)
    ensures Tidy(configured, w') && Exclusive(w')
  {
    if a.Maintain? {
      MaintainExclusive(configured, w, a, w');
    } else if IsUngatedWrite(a) {
      UngatedStepExclusive(configured, w, a, w');
      WriteTidy(configured, w, UngatedEntry(w, a));
    }
  }

  /** Over any run of any steps, cluster-wide error states included, at most one pool is in maintenance as long as every
      ungated write finds no other pool there, or writes Running. */
  lemma {:induction false} ExclusiveOverRuns(configured: set<string>, ws: seq<World>, acts: seq<Action>, n: nat)
    requires Run(configured, ws, acts) && Tidy(configured, ws[0]) && Exclusive(ws[0]) && n <= |acts|
    requires forall i :: 0 <= i < |acts| ==> Harmless(ws[i], acts[i])
    ensures Tidy(configured, ws[n]) && Exclusive(ws[n])
  {
    if n > 0 {
      ExclusiveOverRuns(configured, ws, acts, n - 1);
      StepExclusive(configured, ws[n - 1], acts[n - 1], ws[n]);
    }
  }

  // ----- What a Running pool certifies

  /** Exactly the wanted number of pods, each available, of the given revision, and matching the desired pod. */
  ghost predicate Certified(pass: Pass) {
    && |pass.pods| == pass.pool.nodeCount
    && forall p :: p in pass.pods ==>
         && Available(p)
         && Revision(p) == Some(pass.pool.desiredPodRevision)
         && Comparable(p, pass.desired) && !CriticallyMismatched(p, pass.desired)
  }

  lemma FinishReasons(p: Pass, s: PodsStatus, l: Lifecycle)
    requires p.DecideFrom(s, l) == Some(FinishMaintenance)
    ensures p.Finishing(s, l)
  {
  }

  lemma RevisionsAgree(pool: NodePool, pods: seq<Pod>, now: nat)
    requires StatusOf(pool, pods, now).Some? && StatusOf(pool, pods, now).value.RevisionsMatch(pool.desiredPodRevision)
    ensures |pods| == pool.nodeCount && forall p :: p in pods ==> Revision(p) == Some(pool.desiredPodRevision)
  {
    var s := StatusOf(pool, pods, now).value;
    assert s.podRevisions == Revisions(pods);
    forall p | p in pods ensures Revision(p) == Some(pool.desiredPodRevision) {
      assert !Unreadable(p);
      var i :| 0 <= i < |pods| && pods[i] == p;
    }
  }

  lemma FinishCertifies(p: Pass)
    requires PodsWellFormed(p.pods) && p.Decide() == Some(FinishMaintenance)
    ensures Certified(p)
  {
    DecideUnfolds(p);
    var s := StatusOf(p.pool, p.pods, p.now).value;
    FinishReasons(p, s, p.LifecycleFrom(s));
    Accounting(p.pool, p.pods, p.now);
    RevisionsAgree(p.pool, p.pods, p.now);
    NoErrorsWhenAllAvailable(p, s);
    DifferenceMeansOutdated(p.CompareContext(s), p.pods);
    forall q | q in p.pods ensures Comparable(q, p.desired) && !CriticallyMismatched(q, p.desired) {
      assert Available(q) && !Outdated(p.CompareContext(s), q);
    }
  }

  lemma FirstIsMember(pods: seq<Pod>)
    ensures pods == [] || pods[0] in pods
  {
  }

  lemma NoErrorsWhenAllAvailable(p: Pass, s: PodsStatus)
    requires AllAvailable(p.pods) && forall e :: e in s.podsWithErrors ==> e in p.pods && !Available(e)
    ensures p.Considered(s) == p.pods
  {
    FirstIsMember(s.podsWithErrors);
  }

  /** In a run of gated steps a pool leaves maintenance only by a finishing pass, so it is certified at that moment. */
  lemma RunningIsCertified(configured: set<string>, ws: seq<World>, acts: seq<Action>, i: nat, name: string)
    requires Run(configured, ws, acts) && Ordered(configured, ws[0]) && i < |acts|
    requires forall k :: 0 <= k < |acts| ==> IsGated(acts[k])
    requires PodsWellFormed(ws[i].PodsOf(name))
    requires InMaintenance(ws[i].entries, name) && !InMaintenance(ws[i + 1].entries, name)
    ensures acts[i].Maintain? && acts[i].pool.name == name && Certified(PassOf(ws[i], acts[i]))
    ensures ws[i + 1].state.Running?
  {
    var w, a := ws[i], acts[i];
    OrderedOverRun(configured, ws, acts, i);
    assert Next(configured, w, a, ws[i + 1]);
    var pass := PassOf(w, a);
    var e := pass.WriteFor(pass.Decide().value).value;
    WriteMaintenance(configured, w, e, name);
    MaintenanceByEntry(w.entries, name);
    OnlyFinishWritesRunning(pass, w);
    SortedListing(w.PodsOf(name));
    FinishCertifies(pass);
  }

  lemma OnlyFinishWritesRunning(pass: Pass, w: World)
    requires pass.Decide().Some? && pass.WriteFor(pass.Decide().value).Some?
    requires pass.WriteFor(pass.Decide().value).value.state.Running?
    requires !pass.clusterState.Running? && !pass.pool.state.Running?
    ensures pass.Decide() == Some(FinishMaintenance)
  {
    DecideUnfolds(pass);
    EntersKnownState(pass, StatusOf(pass.pool, pass.pods, pass.now).value);
  }
}
