/** Terminating pods count as surplus when the operator decides whether to evict one more pod. */
module Surplus {
  import opened Kube
  import opened Seqs
  import opened Downscaling

  function IsLive(): NodePod -> bool { (p: NodePod) => !p.deleting }
  function IsTerminating(): NodePod -> bool { (p: NodePod) => p.deleting }

  function Live(pods: seq<NodePod>): nat { |Filter(IsLive(), pods)| }
  function Terminating(pods: seq<NodePod>): nat { |Filter(IsTerminating(), pods)| }

  lemma {:induction false} LiveOrTerminating(pods: seq<NodePod>)
    ensures Live(pods) + Terminating(pods) == |pods|
  {
    if pods != [] { LiveOrTerminating(pods[1..]); }
  }

  /** The live pods of the listing that are left when the pod is evicted. */
  function LeftBy(pods: seq<NodePod>, q: NodePod): int { Live(pods) - if q.deleting then 0 else 1 }

  /** When a node is flagged, as many live pods as wanted are left exactly when the surplus covers the terminating pods
      as well as the evicted one. That is certain when no listed pod is terminating, and only then when there is one pod
      too many and a live one is chosen. */
  lemma FlagLeavesEnoughExactly(nodeCount: int, s: System, q: NodePod, t: System)
    requires FlagStep(nodeCount, s, q, t)
    ensures var listed := s.memory.unmarked.value;
      && (LeftBy(listed, q) >= nodeCount <==> |listed| - nodeCount >= Terminating(listed) + if q.deleting then 0 else 1)
      && ((forall p :: p in listed ==> !p.deleting) ==> LeftBy(listed, q) >= nodeCount)
      && (|listed| == nodeCount + 1 && !q.deleting ==>
            (LeftBy(listed, q) >= nodeCount <==> forall p :: p in listed ==> !p.deleting))
  {
    var listed := s.memory.unmarked.value;
    LiveOrTerminating(listed);
    if forall p :: p in listed ==> !p.deleting {
      FilterNone(IsTerminating(), listed);
    } else {
      var p :| p in listed && p.deleting;
      assert p in Filter(IsTerminating(), listed);
    }
  }

  // ----- Evicting the last live pod

  const HEALTHY := Node(true, false, false, false, false)

  const LEAVING := NodePod("leaving", true, 1, false, "", true, false)
  const STAYING := NodePod("staying", true, 2, false, "", false, false)
  const PODS := [LEAVING, STAYING]
  const HOSTS := map[LEAVING.name := 1, STAYING.name := 2]
  const NODES := map[1 := HEALTHY, 2 := HEALTHY]

  /** Two pods, and the operator with the given memory. */
  function Witness(memory: Memory): System { System(PODS, NODES, [], memory, {}, {}, {1, 2}, 0) }

  function Listed(handled: set<string>, marked: Option<seq<NodePod>>): Memory {
    Memory(Some(PODS), handled, Some(HOSTS), Some(NODES), marked, false, {}, {}, {})
  }

  lemma WitnessLists(hosts: map<string, int>)
    requires hosts == HOSTS
    ensures ListUnmarkedStep(Witness(NO_MEMORY), Witness(NO_MEMORY.(unmarked := Some(PODS))))
    ensures ReadClusterStep(Witness(NO_MEMORY.(unmarked := Some(PODS))), hosts,
                            Witness(NO_MEMORY.(unmarked := Some(PODS), hosts := Some(hosts))))
  {
    FilterAll(IsUnmarked(), PODS);
    assert LEAVING.name != STAYING.name;
  }

  lemma WitnessPassesOver()
    ensures PassOverStep(Witness(Listed({}, None)), LEAVING.name, Witness(Listed({LEAVING.name}, None)))
    ensures PassOverStep(Witness(Listed({LEAVING.name}, None)), STAYING.name,
                         Witness(Listed({LEAVING.name, STAYING.name}, None)))
  {
    assert LEAVING in PODS && PODS[1] in PODS;
    assert {} + {LEAVING.name} == {LEAVING.name};
    assert {LEAVING.name} + {STAYING.name} == {LEAVING.name, STAYING.name};
  }

  lemma WitnessFlags(s: System, t: System)
    requires s == Witness(Listed({LEAVING.name, STAYING.name}, Some([])))
    requires t == s.(nodes := NODES[2 := HEALTHY.(flagged := true)],
                    memory := s.memory.(flagSent := true, read := None))
    ensures ListMarkedStep(Witness(Listed({LEAVING.name, STAYING.name}, None)), s)
    ensures FlagStep(1, s, STAYING, t)
  {
    FilterNone(IsMarked(), PODS);
    assert PODS[1] == STAYING;
  }

  lemma WitnessStarts()
    ensures Start(1, Witness(NO_MEMORY))
  {
    assert LEAVING.name != STAYING.name;
  }

  /** A run in which the only live pod is evicted from a pool that wants one, because another one is still
      terminating. */
  lemma LastLivePodIsEvicted() returns (ss: seq<System>, acts: seq<Action>)
    ensures Run(1, ss, acts) && Start(1, ss[0])
    ensures var last := ss[|acts|]; Live(last.pods) == 1 && forall p ::
      p in last.pods ==> (last.Chosen(p) <==> !p.deleting)
  {
    hide ListUnmarkedStep, ReadClusterStep, PassOverStep, ListMarkedStep, FlagStep, Start;
    var handled := {LEAVING.name, STAYING.name};
    var s := Witness(Listed(handled, Some([])));
    var t := s.(nodes := NODES[2 := HEALTHY.(flagged := true)], memory := s.memory.(flagSent := true, read := None));
    WitnessStarts();
    WitnessLists(HOSTS);
    WitnessPassesOver();
    WitnessFlags(s, t);
    ss := [Witness(NO_MEMORY), Witness(NO_MEMORY.(unmarked := Some(PODS))),
           Witness(NO_MEMORY.(unmarked := Some(PODS), hosts := Some(HOSTS))), Witness(Listed({}, None)),
           Witness(Listed({LEAVING.name}, None)), Witness(Listed(handled, None)), s, t];
    acts := [ListUnmarked, ReadCluster(HOSTS), ReadNodes, PassOver(LEAVING.name),
             PassOver(STAYING.name), ListMarked, Flag(STAYING)];
    assert t.pods == PODS;
  }
}
