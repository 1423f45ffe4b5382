/** The operator's side of downscaling, call by call. Any call may fail, with or without having had its effect, and
    between any two calls the surroundings may take any number of steps. */
module DownscalingController {
  import opened Kube
  import opened Decimal
  import opened Seqs
  import opened Downscaling
  import ZoneBalance

  const WAIT_FOR_POD_TIMEOUT_SECONDS := 10

  /** A node in LogScale's own listing; `podName` is the first part of the host name in its address. */
  datatype ClusterNode = ClusterNode(id: int, available: bool, podName: string)

  /** Later nodes win, as with the assignments to Go's map. */
  function HostOf(nodes: seq<ClusterNode>, name: string): Option<int> {
    if nodes == [] then None
    else
      var n := nodes[|nodes| - 1];
      if n.available && n.podName == name then Some(n.id) else HostOf(nodes[..|nodes| - 1], name)
  }

  ghost predicate Matches(pods: seq<NodePod>, nodes: seq<ClusterNode>, hosts: map<string, int>) {
    forall name :: name in hosts <==> HostOf(nodes, name).Some? && exists p :: p in pods && p.name == name
  }

  ghost predicate MatchesValues(nodes: seq<ClusterNode>, hosts: map<string, int>) {
    forall name :: name in hosts ==> HostOf(nodes, name) == Some(hosts[name])
  }

  method MatchPodsToHosts(podsInNodePool: seq<NodePod>, clusterNodes: seq<ClusterNode>)
      returns (hosts: map<string, int>)
    ensures Matches(podsInNodePool, clusterNodes, hosts) && MatchesValues(clusterNodes, hosts)
  {
    hosts := map[];
    for i := 0 to |podsInNodePool|
      invariant Matches(podsInNodePool[..i], clusterNodes, hosts) && MatchesValues(clusterNodes, hosts)
    {
      var pod := podsInNodePool[i];
      assert podsInNodePool[..i + 1] == podsInNodePool[..i] + [pod];
      var host := FindHost(pod.name, clusterNodes);
      if host.Some? { hosts := hosts[pod.name := host.value]; }
    }
    assert podsInNodePool[..|podsInNodePool|] == podsInNodePool;
  }

  method FindHost(name: string, clusterNodes: seq<ClusterNode>) returns (host: Option<int>)
    ensures host == HostOf(clusterNodes, name)
  {
    host := None;
    for j := 0 to |clusterNodes|
      invariant host == HostOf(clusterNodes[..j], name)
    {
      assert clusterNodes[..j + 1][..j] == clusterNodes[..j];
      if clusterNodes[j].available {
        if clusterNodes[j].podName == name { host := Some(clusterNodes[j].id); }
      }
    }
    assert clusterNodes[..|clusterNodes|] == clusterNodes;
  }

  /** The listing that LogScale gives when every scheduled pod has its node up. */
  function NodeListing(pods: seq<NodePod>): seq<ClusterNode> {
    Map((p: NodePod) => ClusterNode(p.node, p.scheduled, p.name), pods)
  }

  lemma {:induction false} ListingIsAccurate(pods: seq<NodePod>, p: NodePod)
    requires forall i, j :: 0 <= i < j < |pods| ==> pods[i].name != pods[j].name
    requires p in pods
    ensures HostOf(NodeListing(pods), p.name) == if p.scheduled then Some(p.node) else None
  {
    var init, last := pods[..|pods| - 1], pods[|pods| - 1];
    var listing := NodeListing(pods);
    assert listing[..|listing| - 1] == NodeListing(init);
    if p == last {
      if !p.scheduled { NoHostFor(init, p.name); }
    } else {
      var k :| 0 <= k < |pods| && pods[k] == p;
      assert init[k] == p;
      ListingIsAccurate(init, p);
    }
  }

  lemma {:induction false} NoHostFor(pods: seq<NodePod>, name: string)
    requires forall p :: p in pods ==> p.name != name
    ensures HostOf(NodeListing(pods), name) == None
  {
    if pods != [] {
      var listing := NodeListing(pods);
      assert listing[..|listing| - 1] == NodeListing(pods[..|pods| - 1]);
      assert pods[|pods| - 1] in pods;
      NoHostFor(pods[..|pods| - 1], name);
    }
  }

  // ----- What was done in a pass

  /** The step was taken after the first `n` steps. */
  ghost predicate Did(acts: seq<Action>, n: nat, a: Action) { exists i :: n <= i < |acts| && acts[i] == a }

  /** Something was done about the id: it was forgotten, LogScale refused to drop its node, or the node was alive. */
  ghost predicate Attended(trace: seq<System>, acts: seq<Action>, n: nat, id: int) {
    || Did(acts, n, Forget(id))
    || Did(acts, n, Refused(id))
    || exists i :: n <= i < |acts| && i < |trace| && acts[i] == ReadNodes
         && id in trace[i].nodes && trace[i].nodes[id].alive
  }

  /** The chosen pod was flagged, and then labelled unless a later read of the node list shows no flag on its node. */
  ghost predicate FlaggedAndLabelled(trace: seq<System>, acts: seq<Action>, n: nat, q: NodePod) {
    exists f :: n <= f < |acts| && f < |trace| && acts[f] == Flag(q) && trace[f].memory.hosts.Some?
      && (|| Did(acts, f, Label(q))
          || exists r :: f < r < |acts| && r < |trace| && acts[r] == ReadNodes
               && !trace[r].Flagged(Vhost(trace[f].memory.hosts.value, q.name)))
  }

  /** The second check was passed after the first `n` steps: in fresh numbers, no data is on the node only, none of its
      data is under-replicated, and it leads no digest. */
  ghost predicate FoundDrained(trace: seq<System>, acts: seq<Action>, n: nat, id: int) {
    exists i :: n <= i < |acts| && i < |trace| && acts[i] == RefreshCheck(id)
      && id in trace[i].nodes && !trace[i].nodes[id].dataOnlyHere && !trace[i].nodes[id].underReplicated
      && !trace[i].nodes[id].leadsDigest
  }

  /** In some state after the first `n` steps LogScale did not know the node or still needed it. */
  ghost predicate StillNeeded(trace: seq<System>, n: nat, id: int) {
    exists i :: n <= i < |trace| && (id in trace[i].nodes ==>
      trace[i].nodes[id].dataOnlyHere || trace[i].nodes[id].underReplicated || trace[i].nodes[id].leadsDigest)
  }

  /** A pod that was found safe passed the second check, got its delete call, and its node was attended to; any other
      was still needed, or a call failed. */
  ghost predicate Processed(trace: seq<System>, acts: seq<Action>, n: nat, q: NodePod, safe: bool, failed: bool) {
    && Atoi(q.vhost).Some?
    && if safe then
         && FoundDrained(trace, acts, n, Atoi(q.vhost).value) && Did(acts, n, DeletePod(q))
         && Attended(trace, acts, n, Atoi(q.vhost).value)
       else failed || StillNeeded(trace, n, Atoi(q.vhost).value)
  }

  lemma ProcessedSince(trace: seq<System>, acts: seq<Action>, m: nat, n: nat, q: NodePod, safe: bool, failed: bool)
    requires m <= n && Processed(trace, acts, n, q, safe, failed)
    ensures Processed(trace, acts, m, q, safe, failed)
  {
  }

  lemma AttendedSince(trace: seq<System>, acts: seq<Action>, m: nat, n: nat, id: int)
    requires m <= n && Attended(trace, acts, n, id)
    ensures Attended(trace, acts, m, id)
  {
  }

  lemma StillAttended(trace: seq<System>, acts: seq<Action>, trace': seq<System>, acts': seq<Action>, n: nat,
                      ids: seq<int>)
    requires trace <= trace' && acts <= acts' && forall id :: id in ids ==> Attended(trace, acts, n, id)
    ensures forall id :: id in ids ==> Attended(trace', acts', n, id)
  {
  }

  lemma StillFoundDrained(trace: seq<System>, acts: seq<Action>, trace': seq<System>, acts': seq<Action>, n: nat,
                          id: int)
    requires trace <= trace' && acts <= acts' && FoundDrained(trace, acts, n, id)
    ensures FoundDrained(trace', acts', n, id)
  {
    var i :| n <= i < |acts| && i < |trace| && acts[i] == RefreshCheck(id)
      && id in trace[i].nodes && !trace[i].nodes[id].dataOnlyHere && !trace[i].nodes[id].underReplicated
      && !trace[i].nodes[id].leadsDigest;
    assert acts'[i] == acts[i] && trace'[i] == trace[i];
  }

  lemma NeededStays(trace: seq<System>, trace': seq<System>, n: nat, id: int)
    requires trace <= trace' && StillNeeded(trace, n, id)
    ensures StillNeeded(trace', n, id)
  {
    var i :| n <= i < |trace| && (id in trace[i].nodes ==>
      trace[i].nodes[id].dataOnlyHere || trace[i].nodes[id].underReplicated || trace[i].nodes[id].leadsDigest);
    assert trace'[i] == trace[i];
  }

  /** What was done about a pod stays done, and whether calls failed only gets worse. */
  lemma StillProcessed(trace: seq<System>, acts: seq<Action>, trace': seq<System>, acts': seq<Action>, n: nat,
                       q: NodePod, safe: bool, failed: bool, failed': bool)
    requires trace <= trace' && acts <= acts' && (failed ==> failed') && Processed(trace, acts, n, q, safe, failed)
    ensures Processed(trace', acts', n, q, safe, failed')
  {
    var id := Atoi(q.vhost).value;
    if safe {
      StillFoundDrained(trace, acts, trace', acts', n, id);
      StillAttended(trace, acts, trace', acts', n, [id]);
    } else if !failed { NeededStays(trace, trace', n, id); }
  }

  ghost predicate AllProcessed(trace: seq<System>, acts: seq<Action>, n: nat, marked: seq<NodePod>, safe: seq<bool>,
                               failed: bool)
  {
    |safe| == |marked| && forall k :: 0 <= k < |marked| ==> Processed(trace, acts, n, marked[k], safe[k], failed)
  }

  lemma AllStillProcessed(trace: seq<System>, acts: seq<Action>, trace': seq<System>, acts': seq<Action>, m: nat,
                          n: nat, marked: seq<NodePod>, safe: seq<bool>, failed: bool, failed': bool)
    requires trace <= trace' && acts <= acts' && m <= n && (failed ==> failed')
    requires AllProcessed(trace, acts, n, marked, safe, failed)
    ensures AllProcessed(trace', acts', m, marked, safe, failed')
  {
    forall k | 0 <= k < |marked| ensures Processed(trace', acts', m, marked[k], safe[k], failed') {
      StillProcessed(trace, acts, trace', acts', n, marked[k], safe[k], failed, failed');
      ProcessedSince(trace', acts', m, n, marked[k], safe[k], failed');
    }
  }

  /** Whether the reconcile comes back to the marked pods: not when there are none, and otherwise unless the node of
      some safe pod is done with; and only when no pod was safe, or LogScale kept a node. */
  ghost predicate Requeues(acts: seq<Action>, n: nat, marked: seq<NodePod>, safe: seq<bool>, requeue: bool)
  {
    && (marked == [] ==> !requeue)
    && (marked != [] && !requeue ==> true in safe)
    && (requeue ==> true !in safe || exists id :: Did(acts, n, Refused(id)))
  }

  class Downscaler {
    const nodeCount: int
    var s: System
    ghost var trace: seq<System>
    ghost var acts: seq<Action>
    ghost var failures: nat

    /** The present state was reached by a run of the protocol. */
    ghost predicate Valid()
      reads this
    {
      Run(nodeCount, trace, acts) && Start(nodeCount, trace[0]) && s == trace[|acts|]
    }

    /** Nothing that was done is undone. */
    ghost predicate Extends(trace: seq<System>, acts: seq<Action>)
      reads this
    {
      trace <= this.trace && acts <= this.acts
    }

    /** Nothing fails but remote calls: an operation that gives up has seen one fail. */
    ghost predicate Excused(ok: bool, failures: nat)
      reads this
    {
      failures <= this.failures && (!ok ==> failures < this.failures)
    }

    constructor (nodeCount: int, s: System)
      requires Start(nodeCount, s)
      ensures Valid() && this.s == s && this.nodeCount == nodeCount
    {
      this.nodeCount, this.s := nodeCount, s;
      trace, acts, failures := [s], [], 0;
    }

    lemma ReachedIsInvariant()
      requires Valid()
      ensures Inv(nodeCount, s)
    {
      StartInv(nodeCount, trace[0]);
      InvOverRun(nodeCount, trace, acts, |acts|);
    }

    lemma MarkedHasNumber(pod: NodePod)
      requires Valid() && s.memory.marked.Some? && pod in s.memory.marked.value
      ensures Atoi(pod.vhost) == Some(pod.node)
    {
      ReachedIsInvariant();
      AtoiItoa(pod.node);
    }

    lemma NoIdTwice()
      requires Valid()
      ensures forall i, j :: 0 <= i < j < |s.evicted| ==> s.evicted[i] != s.evicted[j]
    {
      ReachedIsInvariant();
    }

    /** One step of the protocol. */
    method Take(ghost a: Action, t: System)
      requires Valid() && Step(nodeCount, s, a, t)
      modifies this
      ensures Valid() && s == t && Extends(old(trace), old(acts))
      ensures acts == old(acts) + [a] && trace == old(trace) + [t] && failures == old(failures)
    {
      ghost var before := trace;
      trace, acts := trace + [t], acts + [a];
      s := t;
      forall i | 0 <= i < |acts| ensures Step(nodeCount, trace[i], acts[i], trace[i + 1]) {
        if i < |acts| - 1 { assert trace[i] == before[i] && trace[i + 1] == before[i + 1]; }
      }
    }

    /** Time passes: pods and LogScale change, but neither the status list nor what the operator remembers. */
    method Interference()
      requires Valid()
      modifies this
      ensures Valid() && s.memory == old(s.memory) && s.evicted == old(s.evicted) && Extends(old(trace), old(acts))
      ensures failures == old(failures)
      ensures forall i :: |old(acts)| <= i < |acts| ==> IsOutside(acts[i])
    {
    }

    /** A protocol step that is a remote call: it happens or not, whatever the caller is told, and then time passes. */
    method Call(ghost a: Action, t: System) returns (ok: bool)
      requires Valid() && Step(nodeCount, s, a, t)
      modifies this
      ensures Valid() && Extends(old(trace), old(acts))
      ensures ok ==> s.memory == t.memory && s.evicted == t.evicted
      ensures ok ==> |acts| > |old(acts)| && acts[|old(acts)|] == a && failures == old(failures)
      ensures Excused(ok, old(failures))
      ensures s.memory == old(s.memory) || s.memory == t.memory
      ensures s.evicted == old(s.evicted) || s.evicted == t.evicted
    {
      ok := *;
      if ok {
        Take(a, t);
      } else {
        if * { Take(a, t); }
        failures := failures + 1;
      }
      Interference();
    }

    // ----- The calls

    method ListPodsNotMarked() returns (ok: bool, r: seq<NodePod>)
      requires Valid()
      modifies this
      ensures Excused(ok, old(failures))
      ensures Valid() && Extends(old(trace), old(acts))
      ensures s.evicted == old(s.evicted)
      ensures ok ==> s.memory == NO_MEMORY.(unmarked := Some(r))
    {
      r := Filter(IsUnmarked(), s.pods);
      ok := Call(ListUnmarked, s.(memory := NO_MEMORY.(unmarked := Some(r))));
    }

    method ListPodsMarked() returns (ok: bool, r: seq<NodePod>)
      requires Valid() && s.memory.unmarked.Some? && !s.memory.flagSent && s.memory.marked.None?
      modifies this
      ensures Excused(ok, old(failures))
      ensures Valid() && Extends(old(trace), old(acts))
      ensures ok ==> s.memory == old(s.memory).(marked := Some(r)) && s.evicted == old(s.evicted)
    {
      r := Filter(IsMarked(), s.pods);
      ok := Call(ListMarked, s.(memory := s.memory.(marked := Some(r))));
    }

    /** LogScale's node listing, matched with the listed pods. */
    method GetClusterAndMatch(podsInNodePool: seq<NodePod>) returns (ok: bool, hosts: map<string, int>)
      requires Valid() && s.memory.unmarked == Some(podsInNodePool)
      modifies this
      ensures Excused(ok, old(failures))
      ensures Valid() && Extends(old(trace), old(acts))
      ensures s.evicted == old(s.evicted)
      ensures ok ==> s.memory == old(s.memory).(hosts := Some(hosts))
    {
      ReachedIsInvariant();
      var clusterNodes := NodeListing(s.pods);
      forall p | p in s.pods ensures HostOf(clusterNodes, p.name) == if p.scheduled then Some(p.node) else None {
        ListingIsAccurate(s.pods, p);
      }
      hosts := MatchPodsToHosts(podsInNodePool, clusterNodes);
      ok := Call(ReadCluster(hosts), s.(memory := s.memory.(hosts := Some(hosts))));
    }

    method GetClusterNodesStatus() returns (ok: bool, nodesStatus: map<int, Node>)
      requires Valid()
      modifies this
      ensures Excused(ok, old(failures))
      ensures Valid() && Extends(old(trace), old(acts))
      ensures s.evicted == old(s.evicted)
      ensures ok ==> s.memory == old(s.memory).(read := Some(nodesStatus))
      ensures ok ==> |acts| > |old(acts)| && acts[|old(acts)|] == ReadNodes && nodesStatus == old(s.nodes)
    {
      nodesStatus := s.nodes;
      ok := Call(ReadNodes, s.(memory := s.memory.(read := Some(s.nodes))));
    }

    // ----- The reconcile

    /** One reconcile of downscaling. However it ends, the state is one that the protocol reaches. When no call fails,
        the ids on record were attended to, and: if more pods than wanted were unmarked and none was marked, one of
        them was flagged, from a fullest zone; and every marked pod was processed. `labels` holds the zone label of
        the worker node of each pod, as far as it can be read. */
    method ProcessDownscaling(labels: map<string, string>)
        returns (ok: bool, requeue: bool, ghost notMarked: seq<NodePod>, ghost chosen: Option<NodePod>,
                 ghost marked: seq<NodePod>, ghost safe: seq<bool>)
      requires Valid()
      modifies this
      ensures Valid() && Extends(old(trace), old(acts)) && s.memory == NO_MEMORY
      ensures ok ==> forall id :: id in old(s.evicted) ==> Attended(trace, acts, |old(acts)|, id)
      ensures ok && |notMarked| > nodeCount && marked == [] ==>
        && chosen.Some? && InFullestZone(notMarked, labels, chosen.value)
        && FlaggedAndLabelled(trace, acts, |old(acts)|, chosen.value)
      ensures ok ==> AllProcessed(trace, acts, |old(acts)|, marked, safe, failures > old(failures))
      ensures ok ==> Requeues(acts, |old(acts)|, marked, safe, requeue)
      ensures Excused(ok || !AllZoned(notMarked, labels), old(failures))
    {
      hide Run, Start, InFullestZone, AllProcessed, AllZoned;
      ok, requeue, notMarked, chosen, marked, safe := DownscalingPass(labels);
      ghost var before, done := trace, acts;
      ghost var failed := failures > old(failures);
      Take(EndPass, s.(memory := NO_MEMORY));
      if ok {
        StillAttended(before, done, trace, acts, |old(acts)|, old(s.evicted));
        AllStillProcessed(before, done, trace, acts, |old(acts)|, |old(acts)|, marked, safe, failed, failed);
      }
    }

    method DownscalingPass(labels: map<string, string>)
        returns (ok: bool, requeue: bool, ghost notMarked: seq<NodePod>, ghost chosen: Option<NodePod>,
                 ghost marked: seq<NodePod>, ghost safe: seq<bool>)
      requires Valid()
      modifies this
      ensures Valid() && Extends(old(trace), old(acts))
      ensures ok ==> forall id :: id in old(s.evicted) ==> Attended(trace, acts, |old(acts)|, id)
      ensures ok && |notMarked| > nodeCount && marked == [] ==>
        && chosen.Some? && InFullestZone(notMarked, labels, chosen.value)
        && FlaggedAndLabelled(trace, acts, |old(acts)|, chosen.value)
      ensures ok ==> AllProcessed(trace, acts, |old(acts)|, marked, safe, failures > old(failures))
      ensures ok ==> Requeues(acts, |old(acts)|, marked, safe, requeue)
      ensures Excused(ok || !AllZoned(notMarked, labels), old(failures))
    {
      hide Run, Start, InFullestZone, AllProcessed, AllZoned;
      requeue, notMarked, chosen, marked, safe := false, [], None, [], [];
      var podsNotMarkedForEviction;
      ok, podsNotMarkedForEviction := CleanUp();
      if !ok { return; }
      ghost var before, done := trace, acts;
      ghost var failuresBefore := failures;
      notMarked := podsNotMarkedForEviction;
      ok, requeue, chosen, marked, safe := Downscale(podsNotMarkedForEviction, labels);
      if !ok { return; }
      StillAttended(before, done, trace, acts, |old(acts)|, old(s.evicted));
      AllStillProcessed(trace, acts, trace, acts, |old(acts)|, |done|, marked, safe,
                        failures > failuresBefore, failures > old(failures));
    }

    /** Finishes what earlier passes left: unlabelled evictions, and ids on record. */
    method CleanUp() returns (ok: bool, podsNotMarkedForEviction: seq<NodePod>)
      requires Valid()
      modifies this
      ensures Excused(ok, old(failures))
      ensures Valid() && Extends(old(trace), old(acts))
      ensures ok ==> Looking(podsNotMarkedForEviction) && forall q :: q in podsNotMarkedForEviction ==>
        q.name in s.memory.handled
      ensures ok ==> forall id :: id in old(s.evicted) ==> Attended(trace, acts, |old(acts)|, id)
    {
      hide Run, Start;
      ok, podsNotMarkedForEviction := ListPodsNotMarked();
      if !ok { return; }
      ok := HandleUnmarkedEvictions(podsNotMarkedForEviction);
      if !ok { return; }
      ghost var n := |acts|;
      ghost var ids := s.evicted;
      ok := UnregisterLingering();
      if !ok { return; }
      forall id | id in ids
        ensures Attended(trace, acts, |old(acts)|, id)
      {
        AttendedSince(trace, acts, |old(acts)|, n, id);
      }
    }

    /** Chooses a pod, or goes on with the marked ones. */
    method Downscale(podsNotMarkedForEviction: seq<NodePod>, labels: map<string, string>)
        returns (ok: bool, requeue: bool, ghost chosen: Option<NodePod>,
                 ghost marked: seq<NodePod>, ghost safe: seq<bool>)
      requires Valid() && Looking(podsNotMarkedForEviction)
      requires forall q :: q in podsNotMarkedForEviction ==> q.name in s.memory.handled
      modifies this
      ensures Valid() && Extends(old(trace), old(acts))
      ensures ok && |podsNotMarkedForEviction| > nodeCount && marked == [] ==>
        && chosen.Some? && InFullestZone(podsNotMarkedForEviction, labels, chosen.value)
        && FlaggedAndLabelled(trace, acts, |old(acts)|, chosen.value)
      ensures ok ==> AllProcessed(trace, acts, |old(acts)|, marked, safe, failures > old(failures))
      ensures ok ==> Requeues(acts, |old(acts)|, marked, safe, requeue)
      ensures Excused(ok || !AllZoned(podsNotMarkedForEviction, labels), old(failures))
    {
      hide Run, Start, InFullestZone, AllZoned;
      requeue, chosen, marked, safe := false, None, [], [];
      var podsMarkedForEviction;
      ok, podsMarkedForEviction := ListPodsMarked();
      if !ok { return; }
      marked := podsMarkedForEviction;
      if |podsNotMarkedForEviction| > nodeCount && |podsMarkedForEviction| == 0 {
        assert podsMarkedForEviction == [];
        ok, chosen := MarkPodForEviction(podsNotMarkedForEviction, labels);
        if !ok { return; }
      }
      if |podsMarkedForEviction| > 0 {
        ghost var n, failuresBefore := |acts|, failures;
        ok, requeue, safe := ProcessMarked(podsMarkedForEviction);
        if !ok { return; }
        AllStillProcessed(trace, acts, trace, acts, |old(acts)|, n, marked, safe,
                          failures > failuresBefore, failures > old(failures));
      }
    }

    /** What the pass has learnt about pods, up to the marked listing. */
    ghost predicate Looking(podsNotMarked: seq<NodePod>)
      reads this
    {
      s.memory.unmarked == Some(podsNotMarked) && s.memory.marked.None? && !s.memory.flagSent
    }

    /** Finishes what a crash may have left half done: every listed pod whose node is flagged gets its label. */
    method HandleUnmarkedEvictions(podsInNodePool: seq<NodePod>) returns (ok: bool)
      requires Valid() && Looking(podsInNodePool) && s.memory.handled == {}
      modifies this
      ensures Excused(ok, old(failures))
      ensures Valid() && Extends(old(trace), old(acts))
      ensures s.evicted == old(s.evicted)
      ensures ok ==> Looking(podsInNodePool) && forall q :: q in podsInNodePool ==> q.name in s.memory.handled
    {
      var podNameToNodeIdMap, nodesStatus;
      ok, podNameToNodeIdMap := GetClusterAndMatch(podsInNodePool);
      if !ok { return; }
      ok, nodesStatus := GetClusterNodesStatus();
      if !ok { return; }
      for k := 0 to |podsInNodePool|
        invariant Valid() && Extends(old(trace), old(acts)) && Looking(podsInNodePool) && s.evicted == old(s.evicted)
        invariant s.memory.hosts == Some(podNameToNodeIdMap) && s.memory.read == Some(nodesStatus)
        invariant failures >= old(failures)
        invariant forall i :: 0 <= i < k ==> podsInNodePool[i].name in s.memory.handled
      {
        assert podsInNodePool[k] in podsInNodePool;
        ok := HandleUnmarkedPod(podNameToNodeIdMap, nodesStatus, podsInNodePool[k]);
        if !ok { return; }
      }
      ok := true;
    }

    /** One turn of that loop: the pod gets its label, or needs none. */
    method HandleUnmarkedPod(podNameToNodeIdMap: map<string, int>, nodesStatus: map<int, Node>, pod: NodePod)
        returns (ok: bool)
      requires Valid() && s.memory.unmarked.Some? && pod in s.memory.unmarked.value
      requires s.memory.marked.None? && !s.memory.flagSent
      requires s.memory.hosts == Some(podNameToNodeIdMap) && s.memory.read == Some(nodesStatus)
      modifies this
      ensures Excused(ok, old(failures))
      ensures Valid() && Extends(old(trace), old(acts)) && s.evicted == old(s.evicted)
      ensures ok ==> s.memory == old(s.memory).(handled := old(s.memory).handled + {pod.name})
    {
      if !pod.scheduled {
        Take(PassOver(pod.name), s.(memory := s.memory.(handled := s.memory.handled + {pod.name})));
        return true;
      }
      var vhost := Vhost(podNameToNodeIdMap, pod.name);
      var marked;
      ok, marked := UpdateEvictionStatus(nodesStatus, pod, vhost);
      if !ok { return; }
      if !marked {
        Take(PassOver(pod.name), s.(memory := s.memory.(handled := s.memory.handled + {pod.name})));
      }
    }

    /** Labels the pod when the node list shows the flag of its node. */
    method UpdateEvictionStatus(nodesStatus: map<int, Node>, pod: NodePod, vhost: int) returns (ok: bool, marked: bool)
      requires Valid() && s.memory.unmarked.Some? && pod in s.memory.unmarked.value && pod.scheduled
      requires s.memory.hosts.Some? && vhost == Vhost(s.memory.hosts.value, pod.name)
      requires s.memory.read == Some(nodesStatus) && (s.memory.marked.None? || s.memory.flagSent)
      modifies this
      ensures Excused(ok, old(failures))
      ensures Valid() && Extends(old(trace), old(acts)) && s.evicted == old(s.evicted)
      ensures ok && marked ==>
        s.memory == old(s.memory).(handled := old(s.memory).handled + {pod.name}) && Did(acts, |old(acts)|, Label(pod))
      ensures ok && !marked ==> s.memory == old(s.memory) && !ReadFlagged(s.memory, vhost)
    {
      var isBeingEvicted := false;
      for i := 0 to WAIT_FOR_POD_TIMEOUT_SECONDS
        invariant s == old(s) && trace == old(trace) && Valid()
        invariant isBeingEvicted ==> ReadFlagged(s.memory, vhost)
        invariant i > 0 && !isBeingEvicted ==> !ReadFlagged(s.memory, vhost)
      {
        if vhost in nodesStatus && nodesStatus[vhost].flagged { isBeingEvicted := true; }
        if isBeingEvicted { break; }
      }
      if !isBeingEvicted { return true, false; }
      marked := true;
      ok := Call(Label(pod), s.(pods := MarkPod(s.pods, pod.name, vhost),
                                   memory := s.memory.(handled := s.memory.handled + {pod.name})));
    }

    /** Ids left on the list by earlier passes. */
    method UnregisterLingering() returns (ok: bool)
      requires Valid() && s.memory.unmarked.Some? && s.memory.marked.None?
      modifies this
      ensures Excused(ok, old(failures))
      ensures Valid() && Extends(old(trace), old(acts))
      ensures ok ==> SameListings(old(s.memory), s.memory)
      ensures ok ==> forall id :: id in old(s.evicted) ==> Attended(trace, acts, |old(acts)|, id)
    {
      hide Run, Start, Attended, Did;
      NoIdTwice();
      var evictedNodeIds := s.evicted;
      ok := true;
      for k := 0 to |evictedNodeIds|
        invariant Valid() && Extends(old(trace), old(acts)) && SameListings(old(s.memory), s.memory)
        invariant ok && forall i :: k <= i < |evictedNodeIds| ==> evictedNodeIds[i] in s.evicted
        invariant failures >= old(failures)
        invariant forall id :: id in evictedNodeIds[..k] ==> Attended(trace, acts, |old(acts)|, id)
      {
        var unregistered;
        ghost var n := |acts|;
        ghost var before, done := trace, acts;
        ok, unregistered := UnregisterNode(evictedNodeIds[k]);
        if !ok { return; }
        AttendedSince(trace, acts, |old(acts)|, n, evictedNodeIds[k]);
        StillAttended(before, done, trace, acts, |old(acts)|, evictedNodeIds[..k]);
        assert evictedNodeIds[..k + 1] == evictedNodeIds[..k] + [evictedNodeIds[k]];
      }
      assert evictedNodeIds[..|evictedNodeIds|] == evictedNodeIds;
    }

    /** Unregisters the node unless it is alive, and takes its id off the list when it is gone. The answer says that
        there is nothing left to wait for; it is also given for a node that is alive and stays registered. */
    method UnregisterNode(vhost: int) returns (ok: bool, done: bool)
      requires Valid() && vhost in s.evicted
      modifies this
      ensures Excused(ok, old(failures))
      ensures Valid() && Extends(old(trace), old(acts))
      ensures ok ==> SameListings(old(s.memory), s.memory)
      ensures ok ==> forall id :: id in old(s.evicted) && id != vhost ==> id in s.evicted
      ensures ok ==> Attended(trace, acts, |old(acts)|, vhost)
      ensures ok && !done ==> Did(acts, |old(acts)|, Refused(vhost))
    {
      var nodesStatus;
      ok, nodesStatus := GetClusterNodesStatus();
      if !ok { return false, false; }
      if vhost !in nodesStatus {
        ok := Call(Forget(vhost), s.(evicted := RemoveInt(s.evicted, vhost)));
        return ok, ok;
      }
      var alive := IsEvictedNodeAlive(nodesStatus, vhost);
      if !alive {
        var dropped := *;
        if !dropped {
          ok := Call(Refused(vhost), s);
          return ok, false;
        }
        ok := Call(Unregister(vhost), s.(nodes := s.nodes - {vhost},
                                          memory := s.memory.(gone := s.memory.gone + {vhost})));
        if !ok { return false, false; }
        ok := Call(Forget(vhost), s.(evicted := RemoveInt(s.evicted, vhost)));
        return ok, ok;
      }
      return true, true;
    }

    method IsEvictedNodeAlive(nodesStatus: map<int, Node>, vhost: int) returns (alive: bool)
      ensures alive <==> !(vhost in nodesStatus && !nodesStatus[vhost].alive)
    {
      for i := 0 to WAIT_FOR_POD_TIMEOUT_SECONDS
        invariant i > 0 ==> !(vhost in nodesStatus && !nodesStatus[vhost].alive)
      {
        if vhost in nodesStatus && !nodesStatus[vhost].alive { return false; }
      }
      return true;
    }

    /** Flags the node of one pod of the zone with the most pods, and then labels the pod. */
    method MarkPodForEviction(podsInNodePool: seq<NodePod>, labels: map<string, string>)
        returns (ok: bool, ghost chosen: Option<NodePod>)
      requires Valid() && NoneChosen(s.memory) && s.memory.unmarked == Some(podsInNodePool)
      requires |podsInNodePool| > nodeCount
      modifies this
      ensures Valid() && Extends(old(trace), old(acts))
      ensures ok ==>
        && chosen.Some? && InFullestZone(podsInNodePool, labels, chosen.value)
        && FlaggedAndLabelled(trace, acts, |old(acts)|, chosen.value)
      ensures Excused(ok || !AllZoned(podsInNodePool, labels), old(failures))
    {
      chosen := None;
      var podNameToNodeIdMap;
      ok, podNameToNodeIdMap := GetClusterAndMatch(podsInNodePool);
      if !ok { return; }
      var k := PickPod(podsInNodePool, labels);
      if k.None? { return false, None; }
      var pod := podsInNodePool[k.value];
      chosen := Some(pod);
      ok := FlagAndLabel(podsInNodePool, pod, podNameToNodeIdMap);
    }

    /** The calls for the chosen pod. */
    method FlagAndLabel(podsInNodePool: seq<NodePod>, pod: NodePod, podNameToNodeIdMap: map<string, int>)
        returns (ok: bool)
      requires Valid() && NoneChosen(s.memory) && s.memory.unmarked == Some(podsInNodePool)
      requires |podsInNodePool| > nodeCount
      requires s.memory.hosts == Some(podNameToNodeIdMap) && pod in podsInNodePool && pod.scheduled
      modifies this
      ensures Excused(ok, old(failures))
      ensures Valid() && Extends(old(trace), old(acts))
      ensures ok ==> FlaggedAndLabelled(trace, acts, |old(acts)|, pod)
    {
      var vhost := Vhost(podNameToNodeIdMap, pod.name);
      // LogScale has no such node: the call fails
      if vhost !in s.nodes {
        failures := failures + 1;
        return false;
      }
      ok := Call(Flag(pod), s.(nodes := s.nodes[vhost := s.nodes[vhost].(flagged := true)],
                               memory := s.memory.(flagSent := true, read := None)));
      if !ok { return; }
      var nodesStatus;
      ok, nodesStatus := GetClusterNodesStatus();
      if !ok { return; }
      var marked;
      ok, marked := UpdateEvictionStatus(nodesStatus, pod, vhost);
    }

    /** Deletes the marked pods whose data is gone. */
    method ProcessMarked(podsMarkedForEviction: seq<NodePod>)
        returns (ok: bool, requeue: bool, ghost verdicts: seq<bool>)
      requires Valid() && s.memory.marked == Some(podsMarkedForEviction) && podsMarkedForEviction != []
      modifies this
      ensures Excused(ok, old(failures))
      ensures Valid() && Extends(old(trace), old(acts))
      ensures ok ==> AllProcessed(trace, acts, |old(acts)|, podsMarkedForEviction, verdicts, failures > old(failures))
      ensures ok ==> Requeues(acts, |old(acts)|, podsMarkedForEviction, verdicts, requeue)
    {
      hide Run, Start, Processed;
      ok, requeue, verdicts := true, false, [];
      var successfullyUnregistered := false;
      for k := 0 to |podsMarkedForEviction|
        invariant Valid() && Extends(old(trace), old(acts)) && s.memory.marked == Some(podsMarkedForEviction)
        invariant ok && failures >= old(failures)
        invariant AllProcessed(trace, acts, |old(acts)|, podsMarkedForEviction[..k], verdicts, failures > old(failures))
        invariant successfullyUnregistered ==> true in verdicts
        invariant !successfullyUnregistered ==> true !in verdicts || exists id :: Did(acts, |old(acts)|, Refused(id))
      {
        var unregistered;
        ghost var safe;
        ghost var n, before, done, failuresBefore := |acts|, trace, acts, failures;
        ok, unregistered, safe := ProcessMarkedPod(podsMarkedForEviction[k]);
        if !ok { return; }
        AllStillProcessed(before, done, trace, acts, |old(acts)|, |old(acts)|, podsMarkedForEviction[..k], verdicts,
                          failuresBefore > old(failures), failures > old(failures));
        StillProcessed(trace, acts, trace, acts, n, podsMarkedForEviction[k], safe,
                       failures > failuresBefore, failures > old(failures));
        ProcessedSince(trace, acts, |old(acts)|, n, podsMarkedForEviction[k], safe, failures > old(failures));
        verdicts := verdicts + [safe];
        if unregistered.Some? { successfullyUnregistered := unregistered.value; }
      }
      assert podsMarkedForEviction[..|podsMarkedForEviction|] == podsMarkedForEviction;
      requeue := !successfullyUnregistered;
    }

    /** One marked pod: the id goes on record first, then the pod is deleted, then the node is unregistered. The answer
        about the node is None when the pod was not safe to delete. */
    method ProcessMarkedPod(pod: NodePod) returns (ok: bool, unregistered: Option<bool>, ghost verdict: bool)
      requires Valid() && s.memory.marked.Some? && pod in s.memory.marked.value
      modifies this
      ensures Excused(ok, old(failures))
      ensures Valid() && Extends(old(trace), old(acts))
      ensures ok ==> s.memory.marked == old(s.memory).marked
      ensures ok ==> Processed(trace, acts, |old(acts)|, pod, verdict, failures > old(failures))
      ensures ok ==> (unregistered.Some? <==> verdict)
      ensures ok && unregistered == Some(false) ==> exists id :: Did(acts, |old(acts)|, Refused(id))
    {
      hide Run, Start;
      unregistered, verdict := None, false;
      MarkedHasNumber(pod);
      var vhost := Atoi(pod.vhost);
      if vhost.None? { return false, None, false; }
      var safe;
      ok, safe := CheckEvictionStatusForPod(pod, vhost.value);
      if !ok || !safe { return; }
      ghost var before, done := trace, acts;
      ok := RecordAndDelete(pod, vhost.value);
      if !ok { return; }
      ghost var n := |acts|;
      ok, unregistered := UnregisterDeleted(vhost.value);
      if !ok { return; }
      verdict := true;
      AttendedSince(trace, acts, |old(acts)|, n, vhost.value);
      StillFoundDrained(before, done, trace, acts, |old(acts)|, vhost.value);
    }

    method UnregisterDeleted(vhost: int) returns (ok: bool, unregistered: Option<bool>)
      requires Valid() && vhost in s.evicted
      modifies this
      ensures Excused(ok, old(failures))
      ensures Valid() && Extends(old(trace), old(acts))
      ensures ok ==> s.memory.marked == old(s.memory).marked && unregistered.Some?
      ensures ok ==> Attended(trace, acts, |old(acts)|, vhost)
      ensures ok && unregistered == Some(false) ==> exists id :: Did(acts, |old(acts)|, Refused(id))
    {
      var done;
      ok, done := UnregisterNode(vhost);
      return ok, Some(done);
    }

    /** The id goes on record before the pod is deleted. */
    method RecordAndDelete(pod: NodePod, vhost: int) returns (ok: bool)
      requires Valid() && s.memory.marked.Some? && pod in s.memory.marked.value && Atoi(pod.vhost) == Some(vhost)
      requires vhost in s.memory.safe
      modifies this
      ensures Excused(ok, old(failures))
      ensures Valid() && Extends(old(trace), old(acts))
      ensures ok ==> s.memory.marked == old(s.memory).marked && vhost in s.evicted
      ensures ok ==> Did(acts, |old(acts)|, DeletePod(pod))
    {
      if vhost !in s.evicted {
        ok := Call(Record(vhost), s.(evicted := s.evicted + [vhost]));
        if !ok { return; }
      }
      ok := Call(DeletePod(pod), s.(pods := DoomPod(s.pods, pod.name),
                                    deleted := s.deleted + NodesOf(s.pods, pod.name)));
    }

    /** The cheap check on the node list, and then the one on fresh numbers. */
    method CheckEvictionStatusForPod(pod: NodePod, vhost: int) returns (ok: bool, safe: bool)
      requires Valid() && s.memory.marked.Some? && pod in s.memory.marked.value && Atoi(pod.vhost) == Some(vhost)
      modifies this
      ensures Excused(ok, old(failures))
      ensures Valid() && Extends(old(trace), old(acts)) && s.evicted == old(s.evicted)
      ensures ok ==> s.memory.marked == old(s.memory).marked && (safe ==> vhost in s.memory.safe)
      ensures ok && safe ==> FoundDrained(trace, acts, |old(acts)|, vhost)
      ensures ok && !safe ==> failures > old(failures) || StillNeeded(trace, |old(acts)|, vhost)
    {
      for i := 0 to WAIT_FOR_POD_TIMEOUT_SECONDS
        invariant Valid() && Extends(old(trace), old(acts)) && s.evicted == old(s.evicted)
        invariant s.memory.marked == old(s.memory).marked
        invariant failures >= old(failures)
        invariant i > 0 ==> failures > old(failures) || StillNeeded(trace, |old(acts)|, vhost)
      {
        var nodesStatus;
        ok, nodesStatus := GetClusterNodesStatus();
        if !ok { return false, false; }
        if vhost in nodesStatus && nodesStatus[vhost].Drained() {
          Take(CheapCheck(vhost), s.(memory := s.memory.(cheap := s.memory.cheap + {vhost})));
          var refreshed := CheckUsingClusterRefresh(vhost);
          if refreshed { return true, true; }
        }
      }
      return true, false;
    }

    method CheckUsingClusterRefresh(vhost: int) returns (refreshed: bool)
      requires Valid() && vhost in s.memory.cheap
      modifies this
      ensures Valid() && Extends(old(trace), old(acts)) && s.evicted == old(s.evicted)
      ensures s.memory.marked == old(s.memory).marked
      ensures refreshed ==> vhost in s.memory.safe && FoundDrained(trace, acts, |old(acts)|, vhost)
      ensures !refreshed ==> failures > old(failures) || StillNeeded(trace, |old(acts)|, vhost)
      ensures failures >= old(failures)
    {
      if vhost !in s.nodes || !s.nodes[vhost].Drained() { return false; }
      refreshed := Call(RefreshCheck(vhost), s.(memory := s.memory.(safe := s.memory.safe + {vhost}),
                                                   checked := s.checked + {vhost}));
    }
  }

  function Zoned(pods: seq<NodePod>, labels: map<string, string>): seq<ZoneBalance.ZonedPod> {
    Map((p: NodePod) => ZoneBalance.ZonedPod(p.name, p.scheduled,
            if p.name in labels then Some(labels[p.name]) else None), pods)
  }

  /** There are pods, all on worker nodes with zone labels. */
  ghost predicate AllZoned(listed: seq<NodePod>, labels: map<string, string>) {
    listed != [] && forall p :: p in listed ==> p.scheduled && p.name in labels && labels[p.name] != ""
  }

  /** A listed pod, in a zone with the most of the listed pods if the nodes of all of them have labels. */
  ghost predicate InFullestZone(listed: seq<NodePod>, labels: map<string, string>, q: NodePod) {
    && q in listed
    && (AllZoned(listed, labels) ==>
          q.name in labels && ZoneBalance.Fullest(ZoneBalance.Counts(Zoned(listed, labels)), labels[q.name]))
  }

  method PickPod(pods: seq<NodePod>, labels: map<string, string>) returns (k: Option<nat>)
    ensures k.Some? ==> k.value < |pods| && pods[k.value].scheduled && InFullestZone(pods, labels, pods[k.value])
    ensures AllZoned(pods, labels) ==> k.Some?
  {
    var zoned := Zoned(pods, labels);
    k := ZoneBalance.PickPod(zoned);
    if AllZoned(pods, labels) {
      forall z | z in zoned ensures ZoneBalance.Labelled(z) {
        var i :| 0 <= i < |zoned| && zoned[i] == z;
        assert pods[i] in pods;
      }
      if k.Some? { assert pods[k.value] in pods; }
    }
  }

  predicate IsOutside(a: Action) {
    a.NodeChanges? || a.NodeLost? || a.Registers? || a.PodChanges? || a.PodGone? || a.PodCreated?
    || a.OtherPoolFlags? || a.OtherPoolRecords? || a.OtherPoolForgets?
  }

  /** The listings of pods that a pass works with. */
  predicate SameListings(m: Memory, n: Memory) {
    m.unmarked == n.unmarked && m.handled == n.handled && m.marked == n.marked && m.flagSent == n.flagSent
  }
}
