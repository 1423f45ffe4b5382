/** Taking pods out of a node pool: a protocol over pod labels, the evicted-node list in the cluster status, and the
    eviction flags of LogScale. Every remote call is one step, and the pass may end, or the operator crash, after
    each. */
module Downscaling {
  import opened Kube
  import opened Decimal
  import opened Seqs

  /** A registered LogScale node. */
  datatype Node = Node(alive: bool, flagged: bool, leadsDigest: bool, underReplicated: bool, dataOnlyHere: bool)
  {
    /** Nothing on the node is needed any more. */
    predicate Drained() { !dataOnlyHere && !underReplicated && !leadsDigest }
  }

  /** A pod of the pool and the LogScale node that runs in it. `marked` is the eviction label, `vhost` the annotation,
      `byDownscaling` records that the protocol deleted the pod. */
  datatype NodePod = NodePod(
    name: string, scheduled: bool, node: int, marked: bool, vhost: string, deleting: bool, byDownscaling: bool)

  /** What the operator remembers of the current pass; a crash forgets it. */
  datatype Memory = Memory(
    unmarked: Option<seq<NodePod>>,
    handled: set<string>,
    hosts: Option<map<string, int>>,
    read: Option<map<int, Node>>,
    marked: Option<seq<NodePod>>,
    flagSent: bool,
    cheap: set<int>,
    safe: set<int>,
    gone: set<int>)

  const NO_MEMORY := Memory(None, {}, None, None, None, false, {}, {}, {})

  /** The pool, LogScale, the status list and the operator's memory. The last four fields are history: ids that passed
      both checks, ids whose pod the protocol deleted, ids that were ever registered, and pods lost to others. */
  datatype System = System(
    pods: seq<NodePod>,
    nodes: map<int, Node>,
    evicted: seq<int>,
    memory: Memory,
    checked: set<int>,
    deleted: set<int>,
    registered: set<int>,
    losses: nat)
  {
    predicate Flagged(id: int) { id in nodes && nodes[id].flagged }

    /** Chosen for eviction: labelled, or its node carries the flag. */
    predicate Chosen(p: NodePod) { p.marked || Flagged(p.node) }
  }

  datatype Action =
    | ListUnmarked
    | ReadCluster(hosts: map<string, int>)
    | ReadNodes
    | PassOver(name: string)
    | Label(pod: NodePod)
    | ListMarked
    | Flag(pod: NodePod)
    | CheapCheck(vhost: int)
    | RefreshCheck(vhost: int)
    | Record(vhost: int)
    | DeletePod(pod: NodePod)
    | Unregister(vhost: int)
    | Refused(vhost: int)
    | Forget(vhost: int)
    | EndPass
    | NodeChanges(id: int, node: Node)
    | NodeLost(id: int)
    | Registers(index: nat)
    | PodChanges(index: nat, scheduled: bool, deleting: bool)
    | PodGone(index: nat)
    | PodCreated(pod: NodePod)
    | OtherPoolFlags(id: int)
    | OtherPoolRecords(id: int)
    | OtherPoolForgets(id: int)

  function IsUnmarked(): NodePod -> bool { (p: NodePod) => !p.marked }
  function IsMarked(): NodePod -> bool { (p: NodePod) => p.marked }
  function IsKept(): NodePod -> bool { (p: NodePod) => !p.byDownscaling }

  /** The map from pod to node id, with Go's zero value for a pod that is not in it. */
  function Vhost(hosts: map<string, int>, name: string): int { if name in hosts then hosts[name] else 0 }

  function Marked(p: NodePod, name: string, vhost: int): NodePod {
    if p.name == name then p.(marked := true, vhost := Itoa(vhost)) else p
  }

  function MarkPod(pods: seq<NodePod>, name: string, vhost: int): (r: seq<NodePod>)
    ensures |r| == |pods| && forall i :: 0 <= i < |r| ==> r[i] == Marked(pods[i], name, vhost)
  {
    Map((p: NodePod) => Marked(p, name, vhost), pods)
  }

  function Doomed(p: NodePod, name: string): NodePod {
    if p.name == name then p.(deleting := true, byDownscaling := true) else p
  }

  function DoomPod(pods: seq<NodePod>, name: string): (r: seq<NodePod>)
    ensures |r| == |pods| && forall i :: 0 <= i < |r| ==> r[i] == Doomed(pods[i], name)
  {
    Map((p: NodePod) => Doomed(p, name), pods)
  }

  function NodesOf(pods: seq<NodePod>, name: string): set<int> { set p | p in pods && p.name == name :: p.node }

  function RemoveInt(s: seq<int>, value: int): seq<int> { Filter((v: int) => v != value, s) }

  /** Nothing stands in the way of choosing a pod: every unmarked pod was looked at and no pod was found marked. */
  predicate NoneChosen(m: Memory) {
    && m.unmarked.Some? && m.marked == Some([]) && !m.flagSent
    && forall q :: q in m.unmarked.value ==> q.name in m.handled
  }

  /** The last read of the node list shows the node with its flag up. */
  predicate ReadFlagged(m: Memory, vhost: int) {
    m.read.Some? && vhost in m.read.value && m.read.value[vhost].flagged
  }

  // ----- The steps of the operator

  /** One list call for the pods without the label. */
  predicate ListUnmarkedStep(s: System, t: System) {
    t == s.(memory := NO_MEMORY.(unmarked := Some(Filter(IsUnmarked(), s.pods))))
  }

  /** Matching the listed pods with available LogScale nodes: every pod that is still there and runs on a worker node
      has one, and is matched with its own. */
  predicate ReadClusterStep(s: System, hosts: map<string, int>, t: System) {
    && s.memory.unmarked.Some?
    && (forall p, q :: p in s.pods && q in s.memory.unmarked.value && q.name == p.name && q.scheduled ==>
          p.name in hosts)
    && (forall p :: p in s.pods && p.name in hosts ==> hosts[p.name] == p.node)
    && t == s.(memory := s.memory.(hosts := Some(hosts)))
  }

  predicate ReadNodesStep(s: System, t: System) { t == s.(memory := s.memory.(read := Some(s.nodes))) }

  /** An unmarked pod needs no label: it is not on a worker node, or the node list shows no flag for it. */
  predicate PassOverStep(s: System, name: string, t: System) {
    var m := s.memory;
    && m.unmarked.Some? && !m.flagSent
    && (exists q :: q in m.unmarked.value && q.name == name
          && (!q.scheduled || (m.hosts.Some? && m.read.Some? && !ReadFlagged(m, Vhost(m.hosts.value, name)))))
    && t == s.(memory := m.(handled := m.handled + {name}))
  }

  /** A pod whose node is seen to be flagged gets the label and the node id. */
  predicate LabelStep(s: System, q: NodePod, t: System) {
    var m := s.memory;
    && m.unmarked.Some? && q in m.unmarked.value && q.scheduled && m.hosts.Some? && (m.marked.None? || m.flagSent)
    && ReadFlagged(m, Vhost(m.hosts.value, q.name))
    && t == s.(pods := MarkPod(s.pods, q.name, Vhost(m.hosts.value, q.name)),
               memory := m.(handled := m.handled + {q.name}))
  }

  predicate ListMarkedStep(s: System, t: System) {
    && s.memory.unmarked.Some? && !s.memory.flagSent && s.memory.marked.None?
    && t == s.(memory := s.memory.(marked := Some(Filter(IsMarked(), s.pods))))
  }

  /** Flagging a node starts the eviction of its data; only when more pods than wanted are left and none is chosen. */
  predicate FlagStep(nodeCount: int, s: System, q: NodePod, t: System) {
    var m := s.memory;
    && NoneChosen(m) && |m.unmarked.value| > nodeCount && q in m.unmarked.value && q.scheduled && m.hosts.Some?
    && var vhost := Vhost(m.hosts.value, q.name);
       && vhost in s.nodes
       && t == s.(nodes := s.nodes[vhost := s.nodes[vhost].(flagged := true)],
                  memory := m.(flagSent := true, read := None))
  }

  predicate CheapCheckStep(s: System, vhost: int, t: System) {
    var m := s.memory;
    && m.read.Some? && vhost in m.read.value && m.read.value[vhost].Drained()
    && m.marked.Some? && (exists q :: q in m.marked.value && Atoi(q.vhost) == Some(vhost))
    && t == s.(memory := m.(cheap := m.cheap + {vhost}))
  }

  /** The second check asks LogScale for fresh numbers. */
  predicate RefreshCheckStep(s: System, vhost: int, t: System) {
    && vhost in s.memory.cheap && vhost in s.nodes && s.nodes[vhost].Drained()
    && t == s.(memory := s.memory.(safe := s.memory.safe + {vhost}), checked := s.checked + {vhost})
  }

  predicate RecordStep(s: System, vhost: int, t: System) {
    vhost in s.memory.safe && vhost !in s.evicted && t == s.(evicted := s.evicted + [vhost])
  }

  /** The delete call for a marked pod whose node id is on record. */
  predicate DeletePodStep(s: System, q: NodePod, t: System) {
    && s.memory.marked.Some? && q in s.memory.marked.value
    && Atoi(q.vhost).Some? && Atoi(q.vhost).value in s.memory.safe && Atoi(q.vhost).value in s.evicted
    && t == s.(pods := DoomPod(s.pods, q.name), deleted := s.deleted + NodesOf(s.pods, q.name))
  }

  /** LogScale drops a node that is on record and was not alive when the node list was last read. */
  predicate UnregisterStep(s: System, vhost: int, t: System) {
    && vhost in s.evicted && s.memory.read.Some? && vhost in s.memory.read.value && !s.memory.read.value[vhost].alive
    && t == s.(nodes := s.nodes - {vhost}, memory := s.memory.(gone := s.memory.gone + {vhost}))
  }

  /** The same request, with LogScale keeping the node. */
  predicate RefusedStep(s: System, vhost: int, t: System) {
    vhost in s.evicted && s.memory.read.Some? && vhost in s.memory.read.value
    && !s.memory.read.value[vhost].alive && t == s
  }

  /** An id is taken off the list when the node list did not show it, or LogScale has just dropped it. */
  predicate ForgetStep(s: System, vhost: int, t: System) {
    && (vhost in s.memory.gone || (s.memory.read.Some? && vhost !in s.memory.read.value))
    && t == s.(evicted := RemoveInt(s.evicted, vhost))
  }

  // ----- The steps of the surroundings

  /** Only the operator sets flags. */
  predicate NodeChangesStep(s: System, id: int, node: Node, t: System) {
    id in s.nodes && node.flagged == s.nodes[id].flagged && t == s.(nodes := s.nodes[id := node])
  }

  /** Nobody else unregisters the node of a pod that is not marked. */
  predicate NodeLostStep(s: System, id: int, t: System) {
    (forall p :: p in s.pods && p.node == id ==> p.marked) && t == s.(nodes := s.nodes - {id})
  }

  /** The node of a scheduled pod joins, under an id that was never used before. */
  predicate RegistersStep(s: System, index: nat, t: System) {
    && index < |s.pods| && s.pods[index].scheduled && s.pods[index].node !in s.registered
    && t.nodes.Keys == s.nodes.Keys + {s.pods[index].node}
    && (forall id :: id in s.nodes ==> t.nodes[id] == s.nodes[id])
    && !t.nodes[s.pods[index].node].flagged
    && t == s.(nodes := t.nodes, registered := s.registered + {s.pods[index].node})
  }

  predicate PodChangesStep(s: System, index: nat, scheduled: bool, deleting: bool, t: System) {
    && index < |s.pods| && (s.pods[index].scheduled ==> scheduled) && (s.pods[index].deleting ==> deleting)
    && t == s.(pods := s.pods[index := s.pods[index].(scheduled := scheduled, deleting := deleting)])
  }

  /** A pod leaves the listing; unless the protocol deleted it, that is a loss. */
  predicate PodGoneStep(s: System, index: nat, t: System) {
    && index < |s.pods|
    && t == s.(pods := s.pods[..index] + s.pods[index + 1..],
               losses := s.losses + if s.pods[index].byDownscaling then 0 else 1)
  }

  /** Pods are created between passes, with a name that is free and a node that never registered. */
  predicate PodCreatedStep(s: System, p: NodePod, t: System) {
    && s.memory == NO_MEMORY && !p.marked && !p.scheduled && !p.byDownscaling && p.node !in s.registered
    && (forall q :: q in s.pods ==> q.name != p.name && q.node != p.node)
    && t == s.(pods := s.pods + [p])
  }

  /** Other pools go through the same protocol between the passes of this one, and share the list. They flag nodes of
      their own pods, put ids of such nodes on record after both checks, and forget ids whose node is not
      registered. */
  predicate OtherPoolStep(s: System, a: Action, t: System) {
    && s.memory == NO_MEMORY
    && match a
       case OtherPoolFlags(id) =>
         && id in s.nodes && (forall p :: p in s.pods ==> p.node != id)
         && t == s.(nodes := s.nodes[id := s.nodes[id].(flagged := true)])
       case OtherPoolRecords(id) =>
         && id in s.nodes && id !in s.evicted && (forall p :: p in s.pods ==> p.node != id)
         && t == s.(evicted := s.evicted + [id], checked := s.checked + {id})
       case OtherPoolForgets(id) => id !in s.nodes && t == s.(evicted := RemoveInt(s.evicted, id))
       case _ => false
  }

  predicate OperatorStep(nodeCount: int, s: System, a: Action, t: System) {
    match a
    case ListUnmarked => ListUnmarkedStep(s, t)
    case ReadCluster(hosts) => ReadClusterStep(s, hosts, t)
    case ReadNodes => ReadNodesStep(s, t)
    case PassOver(name) => PassOverStep(s, name, t)
    case Label(q) => LabelStep(s, q, t)
    case ListMarked => ListMarkedStep(s, t)
    case Flag(q) => FlagStep(nodeCount, s, q, t)
    case CheapCheck(vhost) => CheapCheckStep(s, vhost, t)
    case RefreshCheck(vhost) => RefreshCheckStep(s, vhost, t)
    case Record(vhost) => RecordStep(s, vhost, t)
    case DeletePod(q) => DeletePodStep(s, q, t)
    case Unregister(vhost) => UnregisterStep(s, vhost, t)
    case Refused(vhost) => RefusedStep(s, vhost, t)
    case Forget(vhost) => ForgetStep(s, vhost, t)
    case EndPass => t == s.(memory := NO_MEMORY)
    case _ => false
  }

  predicate OutsideStep(s: System, a: Action, t: System) {
    match a
    case NodeChanges(id, node) => NodeChangesStep(s, id, node, t)
    case NodeLost(id) => NodeLostStep(s, id, t)
    case Registers(index) => RegistersStep(s, index, t)
    case PodChanges(index, scheduled, deleting) => PodChangesStep(s, index, scheduled, deleting, t)
    case PodGone(index) => PodGoneStep(s, index, t)
    case PodCreated(p) => PodCreatedStep(s, p, t)
    case _ => OtherPoolStep(s, a, t)
  }

  predicate Step(nodeCount: int, s: System, a: Action, t: System) {
    OperatorStep(nodeCount, s, a, t) || OutsideStep(s, a, t)
  }

  ghost predicate Run(nodeCount: int, ss: seq<System>, acts: seq<Action>) {
    |ss| == |acts| + 1 && forall i :: 0 <= i < |acts| ==> Step(nodeCount, ss[i], acts[i], ss[i + 1])
  }

  // ----- What every state satisfies

  /** Pods have names and nodes of their own; a label carries the pod's own node; a flag means the pod is on a worker
      node; the protocol deletes marked pods only. */
  ghost predicate PodsTidy(s: System) {
    && (forall i, j :: 0 <= i < j < |s.pods| ==> s.pods[i].name != s.pods[j].name && s.pods[i].node != s.pods[j].node)
    && (forall p :: p in s.pods ==>
          && (p.marked ==> p.vhost == Itoa(p.node) && p.scheduled)
          && (p.node in s.registered ==> p.scheduled)
          && (p.byDownscaling ==> p.marked))
    && s.nodes.Keys <= s.registered
  }

  /** The remembered listing of unmarked pods covers every unmarked pod there is. */
  ghost predicate KnowsUnmarked(s: System) {
    var m := s.memory;
    && (m.unmarked.Some? ==> forall p :: p in s.pods && !p.marked ==>
            exists q :: q in m.unmarked.value && q.name == p.name)
    && (m.unmarked.Some? ==> forall p, q :: p in s.pods && q in m.unmarked.value && q.name == p.name ==>
          && p.node == q.node && (q.scheduled ==> p.scheduled)
          && (m.hosts.Some? && q.scheduled ==> p.name in m.hosts.value))
    && (m.hosts.Some? ==> forall p :: p in s.pods && p.name in m.hosts.value ==> m.hosts.value[p.name] == p.node)
  }

  /** As long as no flag was sent in this pass, what was read about flags still holds for unmarked pods. */
  ghost predicate KnowsFlags(s: System) {
    var m := s.memory;
    && (m.read.Some? ==> m.read.value.Keys <= s.registered)
    && (m.read.Some? ==> forall p :: p in s.pods && !p.marked ==> (s.Flagged(p.node) <==> ReadFlagged(m, p.node)))
    && (m.unmarked.Some? && !m.flagSent ==> forall p, q ::
          p in s.pods && q in m.unmarked.value && q.name == p.name && !q.scheduled ==> !s.Flagged(p.node))
    && (!m.flagSent ==> forall p :: p in s.pods && p.name in m.handled ==> p.marked || !s.Flagged(p.node))
    && (m.marked.Some? && !m.flagSent ==> forall p ::
          p in s.pods && p.marked ==> exists q :: q in m.marked.value && q.name == p.name)
  }

  /** The remembered listing of marked pods names marked pods, with their nodes. */
  ghost predicate KnowsMarked(s: System) {
    var m := s.memory;
    m.marked.Some? ==> forall q :: q in m.marked.value ==>
      && q.marked && q.vhost == Itoa(q.node)
      && forall p :: p in s.pods && (p.name == q.name || p.node == q.node) ==>
          p.marked && p.name == q.name && p.node == q.node
  }

  ghost predicate Knows(s: System) { PodsTidy(s) && KnowsUnmarked(s) && KnowsFlags(s) && KnowsMarked(s) }

  /** One at a time. */
  ghost predicate OneChosen(s: System) {
    forall p, q :: p in s.pods && q in s.pods && s.Chosen(p) && s.Chosen(q) ==> p == q
  }

  /** Ids of deleted pods stay on record while their node is registered, ids on record passed both checks and belong to
      marked pods, and what the operator believes about absent nodes is true. */
  ghost predicate OnRecord(s: System) {
    var m := s.memory;
    && (forall id :: id in s.deleted ==> id in s.registered && (id in s.nodes ==> id in s.evicted))
    && (forall p :: p in s.pods && p.byDownscaling ==> p.node in s.deleted)
    && (forall id :: id in s.evicted ==> id in s.checked)
    && (forall i, j :: 0 <= i < j < |s.evicted| ==> s.evicted[i] != s.evicted[j])
    && (forall id :: id in m.safe ==> id in s.checked && id in m.cheap)
    && (forall id :: id in s.evicted || id in m.cheap ==>
          id in s.registered && forall p :: p in s.pods && p.node == id ==> p.marked)
    && (forall id :: id in m.gone ==> id in s.registered && id !in s.nodes)
    && (m.read.Some? ==> forall id :: (id in s.evicted || id in m.cheap) && id !in m.read.value ==> id !in s.nodes)
  }

  function KeptCount(s: System): nat { |Filter(IsKept(), s.pods)| }

  /** Pods that the protocol did not delete, together with those lost to others, are enough; and one more as long as
      one of them is chosen. */
  ghost predicate EnoughLeft(nodeCount: int, s: System) {
    var m := s.memory;
    && KeptCount(s) + s.losses >= nodeCount
    && ((exists p :: p in s.pods && s.Chosen(p) && !p.byDownscaling) ==> KeptCount(s) + s.losses > nodeCount)
    && (m.unmarked.Some? && !m.flagSent && (m.marked.None? || m.marked == Some([])) ==>
          KeptCount(s) + s.losses >= |m.unmarked.value|)
  }

  lemma {:induction false} MembersOf(pods: seq<NodePod>, k: nat)
    requires k < |pods|
    ensures forall p :: p in pods[..k] + pods[k + 1..] ==> p in pods
  {
  }

  // ----- Steps keep what is known

  lemma ListUnmarkedKnows(s: System, t: System)
    requires Knows(s) && ListUnmarkedStep(s, t)
    ensures Knows(t)
  {
    forall p, q | p in t.pods && q in t.memory.unmarked.value && q.name == p.name ensures p == q {
      SameName(s, p, q);
    }
  }

  lemma SameName(s: System, p: NodePod, q: NodePod)
    requires PodsTidy(s) && p in s.pods && q in s.pods
    ensures p.name == q.name || p.node == q.node ==> p == q
  {
    var i :| 0 <= i < |s.pods| && s.pods[i] == p;
    var j :| 0 <= j < |s.pods| && s.pods[j] == q;
  }

  lemma ReadsKnow(s: System, a: Action, t: System)
    requires Knows(s)
    requires (a.ReadCluster? && ReadClusterStep(s, a.hosts, t)) || (a.ReadNodes? && ReadNodesStep(s, t))
    ensures Knows(t)
  {
  }

  lemma PassOverKnows(s: System, name: string, t: System)
    requires Knows(s) && PassOverStep(s, name, t)
    ensures Knows(t)
  {
    var m := s.memory;
    var q :| q in m.unmarked.value && q.name == name
          && (!q.scheduled || (m.hosts.Some? && m.read.Some? && !ReadFlagged(m, Vhost(m.hosts.value, name))));
  }

  lemma MarkedMember(pods: seq<NodePod>, name: string, vhost: int, r: NodePod) returns (p: NodePod)
    requires r in MarkPod(pods, name, vhost)
    ensures p in pods && r == Marked(p, name, vhost)
  {
    var i :| 0 <= i < |pods| && MarkPod(pods, name, vhost)[i] == r;
    p := pods[i];
  }

  lemma LabelVhost(s: System, q: NodePod, t: System, p: NodePod)
    requires Knows(s) && LabelStep(s, q, t) && p in s.pods && p.name == q.name
    ensures Vhost(s.memory.hosts.value, q.name) == p.node && p.scheduled && (!p.marked ==> s.Flagged(p.node))
  {
  }

  lemma LabelTidy(s: System, q: NodePod, t: System)
    requires Knows(s) && LabelStep(s, q, t)
    ensures PodsTidy(t)
  {
    var vhost := Vhost(s.memory.hosts.value, q.name);
    forall r | r in t.pods
      ensures (r.marked ==> r.vhost == Itoa(r.node) && r.scheduled) && (r.node in t.registered ==> r.scheduled)
      ensures (r.byDownscaling ==> r.marked)
    {
      var p := MarkedMember(s.pods, q.name, vhost, r);
      if p.name == q.name { LabelVhost(s, q, t, p); }
    }
  }

  lemma LabelMemory(s: System, q: NodePod, t: System)
    requires Knows(s) && LabelStep(s, q, t)
    ensures KnowsUnmarked(t) && KnowsMarked(t)
  {
    var vhost := Vhost(s.memory.hosts.value, q.name);
    forall r | r in t.pods
      ensures exists p ::
        p in s.pods && p.name == r.name && p.node == r.node && p.scheduled == r.scheduled && (p.marked ==> r.marked)
    {
      var p := MarkedMember(s.pods, q.name, vhost, r);
    }
  }

  lemma LabelledPod(s: System, q: NodePod, t: System, r: NodePod)
    requires Knows(s) && LabelStep(s, q, t) && r in t.pods
    ensures r.marked || r in s.pods
    ensures exists p :: p in s.pods && p.name == r.name && p.node == r.node
    ensures r.name == q.name ==> r.marked
  {
    var p := MarkedMember(s.pods, q.name, Vhost(s.memory.hosts.value, q.name), r);
  }

  lemma LabelReads(s: System, q: NodePod, t: System)
    requires Knows(s) && LabelStep(s, q, t)
    ensures t.memory.read.Some? ==>
      forall p :: p in t.pods && !p.marked ==> (t.Flagged(p.node) <==> ReadFlagged(t.memory, p.node))
    ensures !t.memory.flagSent ==> forall p :: p in t.pods && p.name in t.memory.handled ==>
      p.marked || !t.Flagged(p.node)
  {
    forall r | r in t.pods ensures r.marked || (r in s.pods && r.name != q.name) { LabelledPod(s, q, t, r); }
  }

  lemma LabelUnscheduled(s: System, q: NodePod, t: System)
    requires Knows(s) && LabelStep(s, q, t) && !t.memory.flagSent
    ensures forall p, u :: p in t.pods && u in t.memory.unmarked.value && u.name == p.name && !u.scheduled ==>
      !t.Flagged(p.node)
  {
    forall r | r in t.pods
      ensures exists p :: p in s.pods && p.name == r.name && p.node == r.node
    {
      LabelledPod(s, q, t, r);
    }
  }

  lemma LabelFlags(s: System, q: NodePod, t: System)
    requires Knows(s) && LabelStep(s, q, t)
    ensures KnowsFlags(t)
  {
    LabelReads(s, q, t);
    if !t.memory.flagSent { LabelUnscheduled(s, q, t); }
  }

  lemma ListMarkedKnows(s: System, t: System)
    requires Knows(s) && ListMarkedStep(s, t)
    ensures Knows(t)
  {
    ListMarkedFlags(s, t);
    ListMarkedMarked(s, t);
  }

  lemma ListMarkedFlags(s: System, t: System)
    requires Knows(s) && ListMarkedStep(s, t)
    ensures KnowsFlags(t)
  {
    forall p | p in t.pods && p.marked ensures p in t.memory.marked.value {}
  }

  lemma ListMarkedMarked(s: System, t: System)
    requires PodsTidy(s) && ListMarkedStep(s, t)
    ensures KnowsMarked(t)
  {
    forall q | q in t.memory.marked.value
      ensures q.marked && q.vhost == Itoa(q.node)
      ensures forall p :: p in t.pods && (p.name == q.name || p.node == q.node) ==> p == q
    {
      assert q in s.pods;
      forall p | p in t.pods ensures p.name == q.name || p.node == q.node ==> p == q { SameName(s, p, q); }
    }
  }

  lemma FlagKnows(nodeCount: int, s: System, q: NodePod, t: System)
    requires Knows(s) && FlagStep(nodeCount, s, q, t)
    ensures Knows(t)
  {
    var vhost := Vhost(s.memory.hosts.value, q.name);
    assert t.nodes.Keys == s.nodes.Keys;
  }

  lemma LabelKnows(s: System, q: NodePod, t: System)
    requires Knows(s) && LabelStep(s, q, t)
    ensures Knows(t)
  {
    LabelTidy(s, q, t);
    LabelMemory(s, q, t);
    LabelFlags(s, q, t);
  }

  /** The steps that only check, record and forget leave everything that is known as it is. */
  lemma SameKnowledge(s: System, t: System)
    requires Knows(s) && t.pods == s.pods && t.nodes == s.nodes && t.registered == s.registered
    requires t.memory == s.memory.(cheap := t.memory.cheap, safe := t.memory.safe, gone := t.memory.gone)
    ensures Knows(t)
  {
  }

  lemma EndPassKnows(s: System, t: System)
    requires Knows(s) && t == s.(memory := NO_MEMORY)
    ensures Knows(t)
  {
  }

  lemma DoomedMember(pods: seq<NodePod>, name: string, r: NodePod) returns (p: NodePod)
    requires r in DoomPod(pods, name)
    ensures p in pods && r == Doomed(p, name)
  {
    var i :| 0 <= i < |pods| && DoomPod(pods, name)[i] == r;
    p := pods[i];
  }

  /** The pods are the same but for being deleted, and marked ones are deleted only. */
  ghost predicate MoreDeleted(s: System, t: System) {
    && t == s.(pods := t.pods, deleted := t.deleted)
    && |t.pods| == |s.pods|
    && (forall i :: 0 <= i < |s.pods| ==>
          t.pods[i] == s.pods[i].(deleting := t.pods[i].deleting, byDownscaling := t.pods[i].byDownscaling))
    && (forall r :: r in t.pods && r.byDownscaling ==> r.marked)
    && (forall r :: r in t.pods ==>
          exists p :: p in s.pods && r == p.(deleting := r.deleting, byDownscaling := r.byDownscaling))
  }

  lemma DeleteOnlyDeletes(s: System, q: NodePod, t: System)
    requires PodsTidy(s) && KnowsMarked(s) && DeletePodStep(s, q, t)
    ensures MoreDeleted(s, t)
  {
    forall r | r in t.pods
      ensures exists p :: p in s.pods && r == p.(deleting := r.deleting, byDownscaling := r.byDownscaling)
                            && (r.byDownscaling ==> r.marked)
    {
      var p := DoomedMember(s.pods, q.name, r);
    }
  }

  lemma DeleteKnows(s: System, q: NodePod, t: System)
    requires Knows(s) && DeletePodStep(s, q, t)
    ensures Knows(t)
  {
    hide PodsTidy, KnowsUnmarked, KnowsFlags, KnowsMarked;
    DeleteOnlyDeletes(s, q, t);
    DeleteKnowsPods(s, t);
    DeleteKnowsUnmarked(s, t);
    DeleteKnowsFlags(s, t);
    DeleteKnowsMarked(s, t);
  }

  lemma DeleteKnowsPods(s: System, t: System)
    requires PodsTidy(s) && MoreDeleted(s, t)
    ensures PodsTidy(t)
  {
    forall i, j | 0 <= i < j < |t.pods|
      ensures t.pods[i].name != t.pods[j].name && t.pods[i].node != t.pods[j].node
    {
      assert s.pods[i].name != s.pods[j].name && s.pods[i].node != s.pods[j].node;
    }
  }

  lemma DeleteKnowsUnmarked(s: System, t: System)
    requires KnowsUnmarked(s) && MoreDeleted(s, t)
    ensures KnowsUnmarked(t)
  {
    var m := t.memory;
    assert m == s.memory;
    forall r | r in t.pods
      ensures m.unmarked.Some? && !r.marked ==> exists q :: q in m.unmarked.value && q.name == r.name
      ensures m.unmarked.Some? ==> forall q :: q in m.unmarked.value && q.name == r.name ==>
        && r.node == q.node && (q.scheduled ==> r.scheduled)
        && (m.hosts.Some? && q.scheduled ==> r.name in m.hosts.value)
      ensures m.hosts.Some? && r.name in m.hosts.value ==> m.hosts.value[r.name] == r.node
    {
      var p :| p in s.pods && r == p.(deleting := r.deleting, byDownscaling := r.byDownscaling);
    }
    hide MoreDeleted;
  }

  lemma DeleteKnowsFlags(s: System, t: System)
    requires KnowsFlags(s) && MoreDeleted(s, t)
    ensures KnowsFlags(t)
  {
  }

  lemma DeleteKnowsMarked(s: System, t: System)
    requires KnowsMarked(s) && MoreDeleted(s, t)
    ensures KnowsMarked(t)
  {
  }

  lemma UnregisterKnows(s: System, vhost: int, t: System)
    requires Knows(s) && OnRecord(s) && UnregisterStep(s, vhost, t)
    ensures Knows(t)
  {
    assert forall p :: p in s.pods && p.node == vhost ==> p.marked;
  }

  lemma NodesKnow(s: System, a: Action, t: System)
    requires Knows(s)
    requires (a.NodeChanges? && NodeChangesStep(s, a.id, a.node, t)) || (a.NodeLost? && NodeLostStep(s, a.id, t))
    ensures Knows(t)
  {
  }

  lemma RegistersKnows(s: System, index: nat, t: System)
    requires Knows(s) && RegistersStep(s, index, t)
    ensures Knows(t)
  {
    assert forall id :: id in s.nodes ==> s.Flagged(id) == t.Flagged(id);
    forall p | p in s.pods && p.node == s.pods[index].node ensures p == s.pods[index] { SameName(s, p, s.pods[index]); }
  }

  lemma ChangedMember(s: System, index: nat, scheduled: bool, deleting: bool, t: System, r: NodePod)
    requires PodChangesStep(s, index, scheduled, deleting, t) && r in t.pods
    ensures s.pods[index] in s.pods
    ensures r in s.pods || r == s.pods[index].(scheduled := scheduled, deleting := deleting)
  {
  }

  lemma PodChangesTidy(s: System, index: nat, scheduled: bool, deleting: bool, t: System)
    requires PodsTidy(s) && KnowsUnmarked(s) && PodChangesStep(s, index, scheduled, deleting, t)
    ensures PodsTidy(t) && KnowsUnmarked(t)
  {
    forall r | r in t.pods
      ensures s.pods[index] in s.pods
      ensures r in s.pods || r == s.pods[index].(scheduled := scheduled, deleting := deleting)
    {
      ChangedMember(s, index, scheduled, deleting, t, r);
    }
  }

  lemma PodChangesFlags(s: System, index: nat, scheduled: bool, deleting: bool, t: System)
    requires KnowsFlags(s) && PodChangesStep(s, index, scheduled, deleting, t)
    ensures KnowsFlags(t)
  {
    forall r | r in t.pods
      ensures s.pods[index] in s.pods
      ensures r in s.pods || r == s.pods[index].(scheduled := scheduled, deleting := deleting)
    {
      ChangedMember(s, index, scheduled, deleting, t, r);
    }
  }

  lemma PodChangesMarked(s: System, index: nat, scheduled: bool, deleting: bool, t: System)
    requires KnowsMarked(s) && PodChangesStep(s, index, scheduled, deleting, t)
    ensures KnowsMarked(t)
  {
    forall r | r in t.pods
      ensures s.pods[index] in s.pods
      ensures r in s.pods || r == s.pods[index].(scheduled := scheduled, deleting := deleting)
    {
      ChangedMember(s, index, scheduled, deleting, t, r);
    }
  }

  lemma PodChangesKnows(s: System, index: nat, scheduled: bool, deleting: bool, t: System)
    requires Knows(s) && PodChangesStep(s, index, scheduled, deleting, t)
    ensures Knows(t)
  {
    hide PodsTidy, KnowsUnmarked, KnowsFlags, KnowsMarked;
    PodChangesTidy(s, index, scheduled, deleting, t);
    PodChangesFlags(s, index, scheduled, deleting, t);
    PodChangesMarked(s, index, scheduled, deleting, t);
  }

  lemma PodGoneKnows(s: System, index: nat, t: System)
    requires Knows(s) && PodGoneStep(s, index, t)
    ensures Knows(t)
  {
    MembersOf(s.pods, index);
  }

  lemma PodCreatedKnows(s: System, p: NodePod, t: System)
    requires Knows(s) && PodCreatedStep(s, p, t)
    ensures Knows(t)
  {
  }

  // ----- Steps keep one pod at a time

  /** At the moment a flag is sent no pod of the pool is chosen. */
  lemma NobodyChosen(s: System)
    requires Knows(s) && NoneChosen(s.memory)
    ensures forall p :: p in s.pods ==> !s.Chosen(p)
  {
  }

  lemma LabelOne(s: System, q: NodePod, t: System)
    requires Knows(s) && OneChosen(s) && LabelStep(s, q, t)
    ensures OneChosen(t)
  {
    var vhost := Vhost(s.memory.hosts.value, q.name);
    forall r, r' | r in t.pods && r' in t.pods && t.Chosen(r) && t.Chosen(r') ensures r == r' {
      var p := MarkedMember(s.pods, q.name, vhost, r);
      var p' := MarkedMember(s.pods, q.name, vhost, r');
      if p.name == q.name { LabelVhost(s, q, t, p); }
      if p'.name == q.name { LabelVhost(s, q, t, p'); }
      assert s.Chosen(p) && s.Chosen(p');
    }
  }

  lemma FlagOne(nodeCount: int, s: System, q: NodePod, t: System)
    requires Knows(s) && FlagStep(nodeCount, s, q, t)
    ensures OneChosen(t)
  {
    NobodyChosen(s);
    forall p, p' | p in t.pods && p' in t.pods && t.Chosen(p) && t.Chosen(p') ensures p == p' { SameName(s, p, p'); }
  }

  lemma DeleteOne(s: System, q: NodePod, t: System)
    requires Knows(s) && OneChosen(s) && DeletePodStep(s, q, t)
    ensures OneChosen(t)
  {
    forall r, r' | r in t.pods && r' in t.pods && t.Chosen(r) && t.Chosen(r') ensures r == r' {
      var p := DoomedMember(s.pods, q.name, r);
      var p' := DoomedMember(s.pods, q.name, r');
      assert s.Chosen(p) && s.Chosen(p');
    }
  }

  lemma NodesOne(s: System, a: Action, t: System)
    requires Knows(s) && OneChosen(s)
    requires (a.NodeChanges? && NodeChangesStep(s, a.id, a.node, t)) || (a.NodeLost? && NodeLostStep(s, a.id, t))
    ensures OneChosen(t)
  {
    assert forall p :: t.Chosen(p) ==> s.Chosen(p);
  }

  lemma RegistersOne(s: System, index: nat, t: System)
    requires Knows(s) && OneChosen(s) && RegistersStep(s, index, t)
    ensures OneChosen(t)
  {
    assert forall p :: t.Chosen(p) ==> s.Chosen(p);
  }

  lemma PodGoneOne(s: System, index: nat, t: System)
    requires OneChosen(s) && PodGoneStep(s, index, t)
    ensures OneChosen(t)
  {
    MembersOf(s.pods, index);
    assert forall p :: t.Chosen(p) ==> s.Chosen(p);
  }

  lemma PodChangesOne(s: System, index: nat, scheduled: bool, deleting: bool, t: System)
    requires Knows(s) && OneChosen(s) && PodChangesStep(s, index, scheduled, deleting, t)
    ensures OneChosen(t)
  {
    forall r, r' | r in t.pods && r' in t.pods && t.Chosen(r) && t.Chosen(r') ensures r == r' {
      SameIndex(s, index, scheduled, deleting, t, r, r');
    }
  }

  lemma PodCreatedOne(s: System, p: NodePod, t: System)
    requires Knows(s) && OneChosen(s) && PodCreatedStep(s, p, t)
    ensures OneChosen(t)
  {
    assert forall q :: t.Chosen(q) == s.Chosen(q);
    assert !s.Chosen(p);
  }

  lemma SameIndex(s: System, index: nat, scheduled: bool, deleting: bool, t: System, r: NodePod, r': NodePod)
    requires Knows(s) && OneChosen(s) && PodChangesStep(s, index, scheduled, deleting, t)
    requires r in t.pods && r' in t.pods && t.Chosen(r) && t.Chosen(r')
    ensures r == r'
  {
    var i :| 0 <= i < |t.pods| && t.pods[i] == r;
    var j :| 0 <= j < |t.pods| && t.pods[j] == r';
    assert s.pods[i] in s.pods && s.pods[j] in s.pods;
    assert s.Chosen(s.pods[i]) && s.Chosen(s.pods[j]);
  }

  // ----- Steps keep enough pods

  lemma DoomCount(pods: seq<NodePod>, k: nat)
    requires k < |pods| && forall i, j :: 0 <= i < j < |pods| ==> pods[i].name != pods[j].name
    ensures |Filter(IsKept(), DoomPod(pods, pods[k].name))|
         == |Filter(IsKept(), pods)| - if IsKept()(pods[k]) then 1 else 0
  {
    assert DoomPod(pods, pods[k].name) == pods[k := Doomed(pods[k], pods[k].name)];
    FilterUpdate(IsKept(), pods, k, Doomed(pods[k], pods[k].name));
  }

  lemma {:induction false} MarkCount(pods: seq<NodePod>, name: string, vhost: int)
    ensures |Filter(IsKept(), MarkPod(pods, name, vhost))| == |Filter(IsKept(), pods)|
  {
    if pods != [] {
      MarkCount(pods[1..], name, vhost);
      assert MarkPod(pods, name, vhost)[1..] == MarkPod(pods[1..], name, vhost);
    }
  }

  lemma ListUnmarkedEnough(nodeCount: int, s: System, t: System)
    requires Knows(s) && EnoughLeft(nodeCount, s) && ListUnmarkedStep(s, t)
    ensures EnoughLeft(nodeCount, t)
  {
    FilterMonotone(IsUnmarked(), IsKept(), s.pods);
    assert forall p :: s.Chosen(p) == t.Chosen(p);
  }

  lemma LabelEnough(nodeCount: int, s: System, q: NodePod, t: System)
    requires Knows(s) && EnoughLeft(nodeCount, s) && LabelStep(s, q, t)
    ensures EnoughLeft(nodeCount, t)
  {
    var vhost := Vhost(s.memory.hosts.value, q.name);
    MarkCount(s.pods, q.name, vhost);
    if r :| r in t.pods && t.Chosen(r) && !r.byDownscaling {
      var p := MarkedMember(s.pods, q.name, vhost, r);
      if p.name == q.name { LabelVhost(s, q, t, p); }
      assert s.Chosen(p) && !p.byDownscaling;
    }
  }

  lemma FlagEnough(nodeCount: int, s: System, q: NodePod, t: System)
    requires EnoughLeft(nodeCount, s) && FlagStep(nodeCount, s, q, t)
    ensures EnoughLeft(nodeCount, t)
  {
  }

  lemma DeleteEnough(nodeCount: int, s: System, q: NodePod, t: System)
    requires Knows(s) && OneChosen(s) && EnoughLeft(nodeCount, s) && DeletePodStep(s, q, t)
    ensures EnoughLeft(nodeCount, t)
  {
    if p :| p in s.pods && p.name == q.name {
      var k :| 0 <= k < |s.pods| && s.pods[k] == p;
      DoomCount(s.pods, k);
      DoomedWasTheOne(s, q, p, t);
    } else {
      assert t.pods == s.pods;
      assert forall r :: s.Chosen(r) == t.Chosen(r);
    }
  }

  /** The pod that the protocol deletes is the chosen one, so afterwards every chosen pod is one it deleted. */
  lemma DoomedWasTheOne(s: System, q: NodePod, p: NodePod, t: System)
    requires Knows(s) && OneChosen(s) && DeletePodStep(s, q, t) && p in s.pods && p.name == q.name
    ensures s.Chosen(p)
    ensures forall r :: r in t.pods && t.Chosen(r) ==> r.byDownscaling
  {
    forall r | r in t.pods && t.Chosen(r) ensures r.byDownscaling {
      var p' := DoomedMember(s.pods, q.name, r);
      assert s.Chosen(p');
    }
  }

  lemma NodesEnough(nodeCount: int, s: System, t: System)
    requires EnoughLeft(nodeCount, s) && t.pods == s.pods && t.losses == s.losses && t.memory == s.memory
    requires forall p :: p in s.pods && t.Chosen(p) ==> s.Chosen(p)
    ensures EnoughLeft(nodeCount, t)
  {
  }

  lemma PodGoneEnough(nodeCount: int, s: System, index: nat, t: System)
    requires EnoughLeft(nodeCount, s) && PodGoneStep(s, index, t)
    ensures EnoughLeft(nodeCount, t)
  {
    FilterRemove(IsKept(), s.pods, index);
    MembersOf(s.pods, index);
    assert forall p :: s.Chosen(p) == t.Chosen(p);
  }

  lemma PodChangesEnough(nodeCount: int, s: System, index: nat, scheduled: bool, deleting: bool, t: System)
    requires EnoughLeft(nodeCount, s) && PodChangesStep(s, index, scheduled, deleting, t)
    ensures EnoughLeft(nodeCount, t)
  {
    var x := s.pods[index];
    FilterUpdate(IsKept(), s.pods, index, x.(scheduled := scheduled, deleting := deleting));
    assert x in s.pods;
    if r :| r in t.pods && t.Chosen(r) && !r.byDownscaling {
      var i :| 0 <= i < |t.pods| && t.pods[i] == r;
      assert s.pods[i] in s.pods && s.Chosen(s.pods[i]);
    }
  }

  lemma PodCreatedEnough(nodeCount: int, s: System, p: NodePod, t: System)
    requires Knows(s) && EnoughLeft(nodeCount, s) && PodCreatedStep(s, p, t)
    ensures EnoughLeft(nodeCount, t)
  {
    FilterSnoc(IsKept(), s.pods, p);
    assert forall q :: s.Chosen(q) == t.Chosen(q);
    assert !s.Chosen(p);
  }

  /** Whether the remembered count of unmarked pods may still lead to a flag. */
  predicate MayFlag(m: Memory) { m.unmarked.Some? && !m.flagSent && (m.marked.None? || m.marked == Some([])) }

  /** Steps that touch neither pods nor nodes. */
  lemma QuietSteps(nodeCount: int, s: System, t: System)
    requires OneChosen(s) && EnoughLeft(nodeCount, s)
    requires t.pods == s.pods && t.nodes == s.nodes && t.losses == s.losses
    requires MayFlag(t.memory) ==> MayFlag(s.memory) && t.memory.unmarked == s.memory.unmarked
    ensures OneChosen(t) && EnoughLeft(nodeCount, t)
  {
    assert forall p :: s.Chosen(p) == t.Chosen(p);
  }

  // ----- Steps keep the record

  /** Steps that change neither nodes nor the record, and whose pods keep their nodes and marks. */
  lemma RecordUntouched(s: System, t: System)
    requires OnRecord(s) && t == s.(pods := t.pods, memory := t.memory, losses := t.losses)
    requires (t.memory.cheap == s.memory.cheap && t.memory.safe == s.memory.safe && t.memory.gone == s.memory.gone)
          || (t.memory.cheap == {} && t.memory.safe == {} && t.memory.gone == {})
    requires t.memory.read == s.memory.read || t.memory.read.None? || t.memory.read == Some(s.nodes)
    requires forall r :: r in t.pods && r.byDownscaling ==> r.node in s.deleted
    requires forall r :: r in t.pods ==> exists p :: p in s.pods && p.node == r.node && (p.marked ==> r.marked)
    ensures OnRecord(t)
  {
  }

  lemma MarkedByVhost(s: System, vhost: int, p: NodePod)
    requires KnowsMarked(s) && s.memory.marked.Some? && p in s.pods && p.node == vhost
    requires exists q :: q in s.memory.marked.value && Atoi(q.vhost) == Some(vhost)
    ensures p.marked
  {
    var q :| q in s.memory.marked.value && Atoi(q.vhost) == Some(vhost);
    AtoiItoa(q.node);
  }

  lemma CheapCheckRecord(s: System, vhost: int, t: System)
    requires Knows(s) && OnRecord(s) && CheapCheckStep(s, vhost, t)
    ensures OnRecord(t)
  {
    forall p | p in s.pods && p.node == vhost ensures p.marked { MarkedByVhost(s, vhost, p); }
  }

  lemma ChecksRecord(s: System, a: Action, t: System)
    requires OnRecord(s)
    requires (a.RefreshCheck? && RefreshCheckStep(s, a.vhost, t)) || (a.Record? && RecordStep(s, a.vhost, t))
    ensures OnRecord(t)
  {
  }

  /** A delete call makes the pod of that name terminate and touches no other pod, no node and no id on record. */
  lemma DeleteCallExactly(s: System, q: NodePod, t: System)
    requires DeletePodStep(s, q, t)
    ensures |t.pods| == |s.pods| && t.nodes == s.nodes && t.evicted == s.evicted
    ensures forall i :: 0 <= i < |s.pods| ==>
      t.pods[i] == if s.pods[i].name == q.name then s.pods[i].(deleting := true, byDownscaling := true) else s.pods[i]
  {
  }

  /** Before a delete call the id is on record. */
  lemma DeleteRecord(s: System, q: NodePod, t: System)
    requires Knows(s) && OnRecord(s) && DeletePodStep(s, q, t)
    ensures OnRecord(t)
  {
    AtoiItoa(q.node);
    forall p | p in s.pods && p.name == q.name ensures p.node == q.node {}
    assert forall id :: id in NodesOf(s.pods, q.name) ==> id in s.evicted;
    forall r | r in t.pods
      ensures r.byDownscaling ==> r.node in t.deleted
      ensures exists p :: p in s.pods && p.node == r.node && (p.marked ==> r.marked)
    {
      var p := DoomedMember(s.pods, q.name, r);
    }
  }

  lemma UnregisterRecord(s: System, vhost: int, t: System)
    requires OnRecord(s) && UnregisterStep(s, vhost, t)
    ensures OnRecord(t)
  {
  }

  /** Only ids of nodes that are no longer registered leave the list. */
  lemma ForgetRecord(s: System, vhost: int, t: System)
    requires OnRecord(s) && ForgetStep(s, vhost, t)
    ensures OnRecord(t)
    ensures vhost in s.evicted ==> vhost !in s.nodes
    ensures forall id :: id in t.evicted <==> id in s.evicted && id != vhost
  {
    FilterDistinct((v: int) => v != vhost, s.evicted);
  }

  lemma NodesRecord(s: System, a: Action, t: System)
    requires OnRecord(s)
    requires (a.NodeChanges? && NodeChangesStep(s, a.id, a.node, t)) || (a.NodeLost? && NodeLostStep(s, a.id, t))
    ensures OnRecord(t)
  {
  }

  lemma RegistersRecord(s: System, index: nat, t: System)
    requires OnRecord(s) && RegistersStep(s, index, t)
    ensures OnRecord(t)
  {
  }

  lemma PodsRecord(s: System, a: Action, t: System)
    requires OnRecord(s) && Knows(s)
    requires (a.PodGone? && PodGoneStep(s, a.index, t))
      || (a.PodChanges? && PodChangesStep(s, a.index, a.scheduled, a.deleting, t))
    ensures OnRecord(t)
  {
    if a.PodGone? {
      MembersOf(s.pods, a.index);
    } else {
      forall r | r in t.pods
        ensures (r.byDownscaling ==> r.node in s.deleted)
        ensures exists p :: p in s.pods && p.node == r.node && (p.marked ==> r.marked)
      {
        var i :| 0 <= i < |t.pods| && t.pods[i] == r;
        assert s.pods[i] in s.pods;
      }
    }
    RecordUntouched(s, t);
  }

  lemma LabelRecord(s: System, q: NodePod, t: System)
    requires OnRecord(s) && LabelStep(s, q, t)
    ensures OnRecord(t)
  {
    forall r | r in t.pods
      ensures (r.byDownscaling ==> r.node in s.deleted)
      ensures exists p :: p in s.pods && p.node == r.node && (p.marked ==> r.marked)
    {
      var p := MarkedMember(s.pods, q.name, Vhost(s.memory.hosts.value, q.name), r);
    }
    RecordUntouched(s, t);
  }

  lemma FlagRecord(nodeCount: int, s: System, q: NodePod, t: System)
    requires OnRecord(s) && FlagStep(nodeCount, s, q, t)
    ensures OnRecord(t)
  {
  }

  lemma PodCreatedRecord(s: System, p: NodePod, t: System)
    requires OnRecord(s) && PodCreatedStep(s, p, t)
    ensures OnRecord(t)
  {
  }

  // ----- Whole runs

  ghost predicate Inv(nodeCount: int, s: System) { Knows(s) && OneChosen(s) && EnoughLeft(nodeCount, s) && OnRecord(s) }

  lemma ListUnmarkedKeepsInv(nodeCount: int, s: System, t: System)
    requires Inv(nodeCount, s) && ListUnmarkedStep(s, t)
    ensures Inv(nodeCount, t)
  {
    ListUnmarkedKnows(s, t);
    ListUnmarkedEnough(nodeCount, s, t);
    RecordUntouched(s, t);
    assert forall p :: s.Chosen(p) == t.Chosen(p);
  }

  lemma ReadsKeepInv(nodeCount: int, s: System, a: Action, t: System)
    requires Inv(nodeCount, s)
    requires (a.ReadCluster? && ReadClusterStep(s, a.hosts, t)) || (a.ReadNodes? && ReadNodesStep(s, t))
    ensures Inv(nodeCount, t)
  {
    ReadsKnow(s, a, t);
    QuietSteps(nodeCount, s, t);
    RecordUntouched(s, t);
  }

  lemma PassOverKeepsInv(nodeCount: int, s: System, name: string, t: System)
    requires Inv(nodeCount, s) && PassOverStep(s, name, t)
    ensures Inv(nodeCount, t)
  {
    PassOverKnows(s, name, t);
    QuietSteps(nodeCount, s, t);
    RecordUntouched(s, t);
  }

  lemma ListMarkedKeepsInv(nodeCount: int, s: System, t: System)
    requires Inv(nodeCount, s) && ListMarkedStep(s, t)
    ensures Inv(nodeCount, t)
  {
    ListMarkedKnows(s, t);
    QuietSteps(nodeCount, s, t);
    RecordUntouched(s, t);
  }

  lemma EndPassKeepsInv(nodeCount: int, s: System, t: System)
    requires Inv(nodeCount, s) && t == s.(memory := NO_MEMORY)
    ensures Inv(nodeCount, t)
  {
    EndPassKnows(s, t);
    QuietSteps(nodeCount, s, t);
    RecordUntouched(s, t);
  }

  lemma MarkingKeepsInv(nodeCount: int, s: System, a: Action, t: System)
    requires Inv(nodeCount, s)
    requires (a.Label? && LabelStep(s, a.pod, t)) || (a.Flag? && FlagStep(nodeCount, s, a.pod, t))
    ensures Inv(nodeCount, t)
  {
    if a.Label? {
      LabelKnows(s, a.pod, t); LabelOne(s, a.pod, t); LabelEnough(nodeCount, s, a.pod, t); LabelRecord(s, a.pod, t);
    } else {
      FlagKnows(nodeCount, s, a.pod, t); FlagOne(nodeCount, s, a.pod, t);
      FlagEnough(nodeCount, s, a.pod, t); FlagRecord(nodeCount, s, a.pod, t);
    }
  }

  lemma ChecksKeepInv(nodeCount: int, s: System, a: Action, t: System)
    requires Inv(nodeCount, s)
    requires (a.CheapCheck? && CheapCheckStep(s, a.vhost, t)) || (a.RefreshCheck? && RefreshCheckStep(s, a.vhost, t))
          || (a.Record? && RecordStep(s, a.vhost, t)) || (a.Forget? && ForgetStep(s, a.vhost, t))
    ensures Inv(nodeCount, t)
  {
    SameKnowledge(s, t);
    QuietSteps(nodeCount, s, t);
    if a.CheapCheck? { CheapCheckRecord(s, a.vhost, t); }
    else if a.Forget? { ForgetRecord(s, a.vhost, t); }
    else { ChecksRecord(s, a, t); }
  }

  lemma DeleteKeepsInv(nodeCount: int, s: System, q: NodePod, t: System)
    requires Inv(nodeCount, s) && DeletePodStep(s, q, t)
    ensures Inv(nodeCount, t)
  {
    DeleteKnows(s, q, t);
    DeleteOne(s, q, t);
    DeleteEnough(nodeCount, s, q, t);
    DeleteRecord(s, q, t);
  }

  lemma OperatorKeepsInv(nodeCount: int, s: System, a: Action, t: System)
    requires Inv(nodeCount, s) && OperatorStep(nodeCount, s, a, t)
    ensures Inv(nodeCount, t)
  {
    hide Inv, ListUnmarkedStep, ReadClusterStep, ReadNodesStep, PassOverStep, LabelStep, ListMarkedStep, FlagStep;
    hide CheapCheckStep, RefreshCheckStep, RecordStep, DeletePodStep, UnregisterStep, ForgetStep;
    match a
    case ListUnmarked => ListUnmarkedKeepsInv(nodeCount, s, t);
    case ReadCluster(_) => ReadsKeepInv(nodeCount, s, a, t);
    case ReadNodes => ReadsKeepInv(nodeCount, s, a, t);
    case PassOver(name) => PassOverKeepsInv(nodeCount, s, name, t);
    case Label(_) => MarkingKeepsInv(nodeCount, s, a, t);
    case ListMarked => ListMarkedKeepsInv(nodeCount, s, t);
    case Flag(_) => MarkingKeepsInv(nodeCount, s, a, t);
    case CheapCheck(_) => ChecksKeepInv(nodeCount, s, a, t);
    case RefreshCheck(_) => ChecksKeepInv(nodeCount, s, a, t);
    case Record(_) => ChecksKeepInv(nodeCount, s, a, t);
    case DeletePod(q) => DeleteKeepsInv(nodeCount, s, q, t);
    case Unregister(vhost) => UnregisterKeepsInv(nodeCount, s, vhost, t);
    case Forget(_) => ChecksKeepInv(nodeCount, s, a, t);
    case EndPass => EndPassKeepsInv(nodeCount, s, t);
    case _ =>
  }

  lemma UnregisterKeepsInv(nodeCount: int, s: System, vhost: int, t: System)
    requires Inv(nodeCount, s) && UnregisterStep(s, vhost, t)
    ensures Inv(nodeCount, t)
  {
    UnregisterKnows(s, vhost, t);
    UnregisterRecord(s, vhost, t);
    assert forall p :: t.Chosen(p) ==> s.Chosen(p);
  }

  lemma NodesKeepInv(nodeCount: int, s: System, a: Action, t: System)
    requires Inv(nodeCount, s)
    requires (a.NodeChanges? && NodeChangesStep(s, a.id, a.node, t)) || (a.NodeLost? && NodeLostStep(s, a.id, t))
    ensures Inv(nodeCount, t)
  {
    NodesKnow(s, a, t);
    NodesOne(s, a, t);
    NodesRecord(s, a, t);
    assert forall p :: t.Chosen(p) ==> s.Chosen(p);
    NodesEnough(nodeCount, s, t);
  }

  lemma RegistersKeepsInv(nodeCount: int, s: System, index: nat, t: System)
    requires Inv(nodeCount, s) && RegistersStep(s, index, t)
    ensures Inv(nodeCount, t)
  {
    RegistersKnows(s, index, t);
    RegistersOne(s, index, t);
    RegistersRecord(s, index, t);
    assert forall p :: t.Chosen(p) ==> s.Chosen(p);
    NodesEnough(nodeCount, s, t);
  }

  lemma PodsKeepInv(nodeCount: int, s: System, a: Action, t: System)
    requires Inv(nodeCount, s)
    requires (a.PodGone? && PodGoneStep(s, a.index, t))
      || (a.PodChanges? && PodChangesStep(s, a.index, a.scheduled, a.deleting, t))
    ensures Inv(nodeCount, t)
  {
    PodsRecord(s, a, t);
    if a.PodGone? {
      PodGoneKnows(s, a.index, t); PodGoneOne(s, a.index, t); PodGoneEnough(nodeCount, s, a.index, t);
    } else {
      PodChangesKnows(s, a.index, a.scheduled, a.deleting, t);
      PodChangesOne(s, a.index, a.scheduled, a.deleting, t);
      PodChangesEnough(nodeCount, s, a.index, a.scheduled, a.deleting, t);
    }
  }

  lemma PodCreatedKeepsInv(nodeCount: int, s: System, p: NodePod, t: System)
    requires Inv(nodeCount, s) && PodCreatedStep(s, p, t)
    ensures Inv(nodeCount, t)
  {
    PodCreatedKnows(s, p, t);
    PodCreatedOne(s, p, t);
    PodCreatedEnough(nodeCount, s, p, t);
    PodCreatedRecord(s, p, t);
  }

  lemma OtherPoolKnows(s: System, a: Action, t: System)
    requires Knows(s) && OtherPoolStep(s, a, t)
    ensures Knows(t)
  {
    assert forall p :: p in s.pods ==> s.Flagged(p.node) == t.Flagged(p.node);
  }

  lemma OtherPoolRecord(s: System, a: Action, t: System)
    requires Knows(s) && OnRecord(s) && OtherPoolStep(s, a, t)
    ensures OnRecord(t)
  {
    if a.OtherPoolForgets? { FilterDistinct((v: int) => v != a.id, s.evicted); }
  }

  lemma OtherPoolKeepsInv(nodeCount: int, s: System, a: Action, t: System)
    requires Inv(nodeCount, s) && OtherPoolStep(s, a, t)
    ensures Inv(nodeCount, t)
  {
    OtherPoolKnows(s, a, t);
    OtherPoolRecord(s, a, t);
    assert forall p :: p in s.pods ==> s.Chosen(p) == t.Chosen(p);
    NodesEnough(nodeCount, s, t);
  }

  lemma OutsideKeepsInv(nodeCount: int, s: System, a: Action, t: System)
    requires Inv(nodeCount, s) && OutsideStep(s, a, t)
    ensures Inv(nodeCount, t)
  {
    hide Inv, NodeChangesStep, NodeLostStep, RegistersStep, PodChangesStep, PodGoneStep, PodCreatedStep, OtherPoolStep;
    match a
    case NodeChanges(_, _) => NodesKeepInv(nodeCount, s, a, t);
    case NodeLost(_) => NodesKeepInv(nodeCount, s, a, t);
    case Registers(index) => RegistersKeepsInv(nodeCount, s, index, t);
    case PodChanges(_, _, _) => PodsKeepInv(nodeCount, s, a, t);
    case PodGone(_) => PodsKeepInv(nodeCount, s, a, t);
    case PodCreated(p) => PodCreatedKeepsInv(nodeCount, s, p, t);
    case _ => OtherPoolKeepsInv(nodeCount, s, a, t);
  }

  lemma StepKeepsInv(nodeCount: int, s: System, a: Action, t: System)
    requires Inv(nodeCount, s) && Step(nodeCount, s, a, t)
    ensures Inv(nodeCount, t)
  {
    if OperatorStep(nodeCount, s, a, t) {
      OperatorKeepsInv(nodeCount, s, a, t);
    } else {
      OutsideKeepsInv(nodeCount, s, a, t);
    }
  }

  lemma {:induction false} InvOverRun(nodeCount: int, ss: seq<System>, acts: seq<Action>, n: nat)
    requires Run(nodeCount, ss, acts) && Inv(nodeCount, ss[0]) && n <= |acts|
    ensures Inv(nodeCount, ss[n])
  {
    if n > 0 {
      InvOverRun(nodeCount, ss, acts, n - 1);
      StepKeepsInv(nodeCount, ss[n - 1], acts[n - 1], ss[n]);
    }
  }

  /** A pool before any downscaling: enough pods, none chosen, nothing on record. */
  ghost predicate Start(nodeCount: int, s: System) {
    && PodsTidy(s) && s.memory == NO_MEMORY && s.evicted == [] && s.deleted == {} && s.checked == {}
    && (forall p :: p in s.pods ==> !s.Chosen(p) && !p.byDownscaling)
    && |s.pods| + s.losses >= nodeCount
  }

  lemma StartInv(nodeCount: int, s: System)
    requires Start(nodeCount, s)
    ensures Inv(nodeCount, s)
  {
    assert forall p :: p in s.pods ==> IsKept()(p);
    FilterAll(IsKept(), s.pods);
  }

  /** What holds at every point of every run, wherever passes end or the operator crashes: a node that is still
      registered after the protocol deleted its pod is on record; every id on record passed both checks; at most one
      listed pod is flagged or labelled; and downscaling alone never leaves fewer pods than wanted. */
  lemma RunsAreSafe(nodeCount: int, ss: seq<System>, acts: seq<Action>)
    requires Run(nodeCount, ss, acts) && Start(nodeCount, ss[0])
    ensures forall i, id :: 0 <= i < |ss| && id in ss[i].deleted && id in ss[i].nodes ==> id in ss[i].evicted
    ensures forall i, id :: 0 <= i < |ss| && id in ss[i].evicted ==> id in ss[i].checked
    ensures forall i, p, q ::
      0 <= i < |ss| && p in ss[i].pods && q in ss[i].pods && ss[i].Chosen(p) && ss[i].Chosen(q) ==> p == q
    ensures forall i :: 0 <= i < |ss| ==> |ss[i].pods| + ss[i].losses >= nodeCount
  {
    StartInv(nodeCount, ss[0]);
    forall i | 0 <= i < |ss| ensures Inv(nodeCount, ss[i]) { InvOverRun(nodeCount, ss, acts, i); }
  }

  /** The request to drop the node of this id is made with the id on record, after both checks, and with the node last
      seen not alive. */
  predicate SafeToDrop(s: System, id: int) {
    && id in s.evicted && id in s.checked
    && s.memory.read.Some? && id in s.memory.read.value && !s.memory.read.value[id].alive
  }

  lemma DropIsSafe(nodeCount: int, s: System, a: Action, t: System, id: int)
    requires OnRecord(s) && Step(nodeCount, s, a, t) && (a == Unregister(id) || a == Refused(id))
    ensures SafeToDrop(s, id)
  {
  }

  lemma OnlyForgettingShrinks(nodeCount: int, s: System, a: Action, t: System, id: int)
    requires Step(nodeCount, s, a, t) && id in s.evicted && id !in t.evicted
    ensures a.Forget? || a == OtherPoolForgets(id)
    ensures a.Forget? ==> ForgetStep(s, a.vhost, t)
    ensures a.OtherPoolForgets? ==> id !in s.nodes
  {
  }

  lemma RecordShrinks(nodeCount: int, s: System, a: Action, t: System, id: int)
    requires OnRecord(s) && Step(nodeCount, s, a, t) && id in s.evicted && id !in t.evicted
    ensures id !in s.nodes
  {
    hide OnRecord, Step;
    OnlyForgettingShrinks(nodeCount, s, a, t, id);
    if a.Forget? { ForgetRecord(s, a.vhost, t); }
  }

  /** LogScale is asked to drop a node only when its id is on record, it passed both checks and it was last seen not
      alive; and an id leaves the record only when its node is not registered any more. */
  lemma RecordedUntilUnregistered(nodeCount: int, ss: seq<System>, acts: seq<Action>, i: nat, id: int)
    requires Run(nodeCount, ss, acts) && Start(nodeCount, ss[0]) && i < |acts|
    ensures acts[i] == Unregister(id) || acts[i] == Refused(id) ==> SafeToDrop(ss[i], id)
    ensures id in ss[i].evicted && id !in ss[i + 1].evicted ==> id !in ss[i].nodes
  {
    StartInv(nodeCount, ss[0]);
    InvOverRun(nodeCount, ss, acts, i);
    if acts[i] == Unregister(id) || acts[i] == Refused(id) { DropIsSafe(nodeCount, ss[i], acts[i], ss[i + 1], id); }
    if id in ss[i].evicted && id !in ss[i + 1].evicted { RecordShrinks(nodeCount, ss[i], acts[i], ss[i + 1], id); }
  }

  // ----- What the two checks have seen

  /** No listing and no end of a pass between the two steps. */
  ghost predicate SamePass(acts: seq<Action>, i: nat, j: nat)
    requires i <= j <= |acts|
  {
    forall k :: i < k < j ==> !acts[k].ListUnmarked? && !acts[k].EndPass?
  }

  lemma {:induction false} SafeSince(nodeCount: int, ss: seq<System>, acts: seq<Action>, i: nat, id: int)
      returns (r: nat)
    requires Run(nodeCount, ss, acts) && ss[0].memory == NO_MEMORY && i <= |acts| && id in ss[i].memory.safe
    ensures r < i && acts[r] == RefreshCheck(id) && SamePass(acts, r, i)
  {
    var n := i - 1;
    if acts[n] == RefreshCheck(id) { return n; }
    SafeBefore(nodeCount, ss[n], acts[n], ss[i], id);
    r := SafeSince(nodeCount, ss, acts, n, id);
  }

  lemma SafeBefore(nodeCount: int, s: System, a: Action, t: System, id: int)
    requires Step(nodeCount, s, a, t) && id in t.memory.safe && a != RefreshCheck(id)
    ensures id in s.memory.safe && !a.ListUnmarked? && !a.EndPass?
  {
  }

  lemma {:induction false} CheapSince(nodeCount: int, ss: seq<System>, acts: seq<Action>, i: nat, id: int)
      returns (r: nat)
    requires Run(nodeCount, ss, acts) && ss[0].memory == NO_MEMORY && i <= |acts| && id in ss[i].memory.cheap
    ensures r < i && acts[r] == CheapCheck(id) && SamePass(acts, r, i)
  {
    var n := i - 1;
    if acts[n] == CheapCheck(id) { return n; }
    CheapBefore(nodeCount, ss[n], acts[n], ss[i], id);
    r := CheapSince(nodeCount, ss, acts, n, id);
  }

  lemma CheapBefore(nodeCount: int, s: System, a: Action, t: System, id: int)
    requires Step(nodeCount, s, a, t) && id in t.memory.cheap && a != CheapCheck(id)
    ensures id in s.memory.cheap && !a.ListUnmarked? && !a.EndPass?
  {
  }

  lemma {:induction false} ReadSince(nodeCount: int, ss: seq<System>, acts: seq<Action>, i: nat) returns (r: nat)
    requires Run(nodeCount, ss, acts) && ss[0].memory == NO_MEMORY && i <= |acts| && ss[i].memory.read.Some?
    ensures r < i && acts[r] == ReadNodes && ss[i].memory.read.value == ss[r].nodes && SamePass(acts, r, i)
  {
    var n := i - 1;
    if acts[n] == ReadNodes { return n; }
    ReadBefore(nodeCount, ss[n], acts[n], ss[i]);
    r := ReadSince(nodeCount, ss, acts, n);
  }

  lemma ReadBefore(nodeCount: int, s: System, a: Action, t: System)
    requires Step(nodeCount, s, a, t) && t.memory.read.Some? && a != ReadNodes
    ensures s.memory.read == t.memory.read && !a.ListUnmarked? && !a.EndPass?
  {
  }

  /** When the second check is passed, LogScale needs nothing of the node: no data is there only, none is
      under-replicated, and it leads no digest. */
  lemma RefreshMeansDrained(nodeCount: int, ss: seq<System>, acts: seq<Action>, i: nat, id: int)
    requires Run(nodeCount, ss, acts) && i < |acts| && acts[i] == RefreshCheck(id)
    ensures var nodes := ss[i].nodes;
      id in nodes && !nodes[id].dataOnlyHere && !nodes[id].underReplicated && !nodes[id].leadsDigest
  {
    assert Step(nodeCount, ss[i], acts[i], ss[i + 1]);
  }

  /** When the first check is passed, the node list that was read in the same pass showed the same. */
  lemma CheapMeansDrained(nodeCount: int, ss: seq<System>, acts: seq<Action>, i: nat, id: int) returns (r: nat)
    requires Run(nodeCount, ss, acts) && ss[0].memory == NO_MEMORY && i < |acts| && acts[i] == CheapCheck(id)
    ensures r < i && acts[r] == ReadNodes && SamePass(acts, r, i)
    ensures var nodes := ss[r].nodes;
      id in nodes && !nodes[id].dataOnlyHere && !nodes[id].underReplicated && !nodes[id].leadsDigest
  {
    assert Step(nodeCount, ss[i], acts[i], ss[i + 1]);
    r := ReadSince(nodeCount, ss, acts, i);
  }

  lemma SamePassJoins(acts: seq<Action>, i: nat, j: nat, k: nat)
    requires i < j <= k <= |acts| && SamePass(acts, i, j) && SamePass(acts, j, k)
    requires j < |acts| ==> !acts[j].ListUnmarked? && !acts[j].EndPass?
    ensures SamePass(acts, i, k)
  {
  }

  /** An id goes on record, and a pod is deleted, only after LogScale needed nothing of the node any more, twice in the
      same pass: in the node list, and then in fresh numbers. */
  lemma BothChecksBefore(nodeCount: int, ss: seq<System>, acts: seq<Action>, i: nat, id: int)
      returns (read: nat, refresh: nat)
    requires Run(nodeCount, ss, acts) && Start(nodeCount, ss[0]) && i < |acts|
    requires acts[i] == Record(id) || (acts[i].DeletePod? && Atoi(acts[i].pod.vhost) == Some(id))
    ensures read < refresh < i && acts[read] == ReadNodes && acts[refresh] == RefreshCheck(id)
    ensures SamePass(acts, read, i)
    ensures forall k :: k == read || k == refresh ==>
      var nodes := ss[k].nodes;
      id in nodes && !nodes[id].dataOnlyHere && !nodes[id].underReplicated && !nodes[id].leadsDigest
  {
    assert Step(nodeCount, ss[i], acts[i], ss[i + 1]);
    refresh := SafeSince(nodeCount, ss, acts, i, id);
    RefreshMeansDrained(nodeCount, ss, acts, refresh, id);
    assert Step(nodeCount, ss[refresh], acts[refresh], ss[refresh + 1]);
    var cheap := CheapSince(nodeCount, ss, acts, refresh, id);
    read := CheapMeansDrained(nodeCount, ss, acts, cheap, id);
    SamePassJoins(acts, read, cheap, refresh);
    SamePassJoins(acts, read, refresh, i);
  }

  /** The deleted pod is the one whose node was checked, and its id is on record. */
  lemma DeletedPodWasChecked(nodeCount: int, ss: seq<System>, acts: seq<Action>, i: nat, q: NodePod)
    requires Run(nodeCount, ss, acts) && Start(nodeCount, ss[0]) && i < |acts| && acts[i] == DeletePod(q)
    ensures Atoi(q.vhost) == Some(q.node) && q.node in ss[i].evicted
    ensures forall p :: p in ss[i].pods && p.name == q.name ==> p.node == q.node
  {
    StartInv(nodeCount, ss[0]);
    InvOverRun(nodeCount, ss, acts, i);
    assert Step(nodeCount, ss[i], acts[i], ss[i + 1]);
    AtoiItoa(q.node);
  }
}
