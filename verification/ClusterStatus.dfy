/** The status of a cluster and the options through which the operator changes it. */
module ClusterStatuses {
  import opened NodePools

  datatype PoolStatus = PoolStatus(
    name: string,
    state: State,
    zoneUnderMaintenance: string,
    desiredPodRevision: int,
    desiredPodHash: string,
    desiredBootstrapTokenHash: string)

  datatype Status = Status(
    state: State,
    message: string,
    version: string,
    nodeCount: int,
    observedGeneration: int,
    pools: seq<PoolStatus>)

  /** `poolName` is empty when only the cluster state is set; `requeuePeriod` is in milliseconds, 0 when unset. */
  datatype StatusOption =
    | MessageOption(message: string)
    | StateOption(state: State, poolName: string, entry: PoolStatus, requeuePeriod: nat)
    | StateOptionList(pools: seq<PoolStatus>)
    | VersionOption(version: string)
    | NodeCountOption(nodeCount: int)
    | ObservedGenerationOption(generation: int)

  function WithState(state: State): StatusOption {
    StateOption(state, "", PoolStatus("", state, "", 0, "", ""), 0)
  }

  function WithRequeuePeriod(period: nat): StatusOption {
    StateOption(NoState, "", PoolStatus("", NoState, "", 0, "", ""), period)
  }

  function WithNodePoolState(entry: PoolStatus): StatusOption {
    StateOption(entry.state, entry.name, entry, 0)
  }

  /** Overwrites the first entry of that name, or appends one. */
  function PutPool(pools: seq<PoolStatus>, entry: PoolStatus): seq<PoolStatus> {
    if pools == [] then [entry]
    else if pools[0].name == entry.name then [entry] + pools[1..]
    else [pools[0]] + PutPool(pools[1..], entry)
  }

  function ApplyOption(s: Status, o: StatusOption): Status {
    match o
    case MessageOption(message) => s.(message := message)
    case StateOption(state, poolName, entry, _) =>
      var s' := if state.NoState? then s else s.(state := state);
      if poolName == "" then s' else s'.(pools := PutPool(s'.pools, entry))
    case StateOptionList(pools) => s.(pools := pools)
    case VersionOption(version) => s.(version := version)
    case NodeCountOption(nodeCount) => s.(nodeCount := nodeCount)
    case ObservedGenerationOption(generation) => s.(observedGeneration := generation)
  }

  /** Every option changes its own field and no other. A state option without a state leaves the cluster state alone,
      and one without a pool the entries. */
  lemma OptionsExactly(s: Status, o: StatusOption)
    ensures var t := ApplyOption(s, o);
      && t.message == (if o.MessageOption? then o.message else s.message)
      && t.version == (if o.VersionOption? then o.version else s.version)
      && t.nodeCount == (if o.NodeCountOption? then o.nodeCount else s.nodeCount)
      && t.observedGeneration == (if o.ObservedGenerationOption? then o.generation else s.observedGeneration)
      && t.state == (if o.StateOption? && o.state != NoState then o.state else s.state)
      && t.pools == (if o.StateOptionList? then o.pools
                     else if o.StateOption? && o.poolName != "" then PutPool(s.pools, o.entry) else s.pools)
  {
  }

  function ApplyAll(s: Status, options: seq<StatusOption>): Status {
    if options == [] then s else ApplyOption(ApplyAll(s, options[..|options| - 1]), options[|options| - 1])
  }

  /** Milliseconds after which the option asks to be called again; 0 when it does not. */
  function RequeueAfter(o: StatusOption): nat {
    match o
    case StateOption(state, _, _, period) =>
      if state.Restarting? || state.Upgrading? || state.Pending? then 1000
      else if state.ConfigError? then 10000
      else if period == 0 then 15000
      else period
    case _ => 0
  }

  /** One second while pods are restarted, upgraded or waited for, ten after a configuration error, and otherwise the
      configured period or else fifteen. Other options ask for nothing. */
  lemma RequeuePeriods(o: StatusOption)
    ensures RequeueAfter(o) == 0 <==> !o.StateOption?
    ensures o.StateOption? && o.state in {Restarting, Upgrading, Pending} ==> RequeueAfter(o) == 1 * 1000
    ensures o.StateOption? && o.state == ConfigError ==> RequeueAfter(o) == 10 * 1000
    ensures o.StateOption? && o.state in {Running, NoState} ==>
      RequeueAfter(o) == if o.requeuePeriod == 0 then 15 * 1000 else o.requeuePeriod
  {
  }

  /** The first option that asks for a requeue decides. */
  function RequeueChoice(options: seq<StatusOption>): nat {
    if options == [] then 0
    else if RequeueAfter(options[0]) > 0 then RequeueAfter(options[0])
    else RequeueChoice(options[1..])
  }

  /** A state option before the requeue period hides it: the configured period is never used. */
  lemma StateHidesRequeuePeriod(state: State, period: nat, message: string)
    ensures RequeueChoice([WithState(state), WithRequeuePeriod(period), MessageOption(message)])
         == RequeueAfter(WithState(state))
    ensures RequeueChoice([WithState(Running), WithRequeuePeriod(period), MessageOption(message)]) == 15000
  {
    var options := [WithState(state), WithRequeuePeriod(period), MessageOption(message)];
    assert RequeueChoice(options) == RequeueAfter(options[0]);
  }

  // ----- Entries by name

  predicate HasEntry(pools: seq<PoolStatus>, name: string) {
    exists e :: e in pools && e.name == name
  }

  /** The first entry of that name, or the blank one a new node pool starts from. */
  function EntryOf(pools: seq<PoolStatus>, name: string): (e: PoolStatus)
    ensures e.name == name
    ensures HasEntry(pools, name) ==> e in pools
  {
    if pools == [] then PoolStatus(name, NoState, "", 0, "", "")
    else if pools[0].name == name then pools[0]
    else EntryOf(pools[1..], name)
  }

  ghost predicate DistinctEntries(pools: seq<PoolStatus>) {
    forall i, j :: 0 <= i < j < |pools| ==> pools[i].name != pools[j].name
  }

  /** Writing an entry changes that pool's entry and no other. */
  lemma {:induction false} PutPoolEntries(pools: seq<PoolStatus>, entry: PoolStatus, name: string)
    ensures EntryOf(PutPool(pools, entry), name) == if name == entry.name then entry else EntryOf(pools, name)
    ensures HasEntry(PutPool(pools, entry), name) <==> HasEntry(pools, name) || name == entry.name
  {
    if pools == [] {
      assert entry in PutPool(pools, entry);
    } else {
      PutPoolEntries(pools[1..], entry, name);
      var r := PutPool(pools, entry);
      assert forall e :: e in pools <==> e == pools[0] || e in pools[1..];
      assert forall e :: e in r <==> e == r[0] || e in r[1..];
      if pools[0].name == entry.name { assert r[1..] == pools[1..]; }
      else { assert r[1..] == PutPool(pools[1..], entry); }
    }
  }

  lemma {:induction false} PutPoolDistinct(pools: seq<PoolStatus>, entry: PoolStatus)
    requires DistinctEntries(pools)
    ensures DistinctEntries(PutPool(pools, entry))
  {
    if pools != [] {
      var rest := pools[1..];
      assert DistinctEntries(rest) by {
        forall i, j | 0 <= i < j < |rest|
          ensures rest[i].name != rest[j].name
        {
          assert pools[i + 1].name != pools[j + 1].name;
        }
      }
      PutPoolDistinct(rest, entry);
      assert !HasEntry(rest, pools[0].name) by {
        forall e | e in rest ensures e.name != pools[0].name {
          var k :| 0 <= k < |rest| && rest[k] == e;
          assert pools[k + 1].name != pools[0].name;
        }
      }
      if pools[0].name != entry.name {
        PutPoolEntries(rest, entry, pools[0].name);
        var r := PutPool(rest, entry);
        forall k | 0 <= k < |r| ensures r[k].name != pools[0].name { assert r[k] in r; }
      }
    }
  }

  // ----- The resource and its conflict-checked updates

  /** The stored cluster resource. Spec edits by users move the resource version; the status has one writer. */
  class ClusterResource {
    var status: Status
    var resourceVersion: nat
    ghost var failures: nat
    ghost var conflicts: nat

    constructor (status: Status)
      ensures this.status == status
    {
      this.status := status;
      resourceVersion := 0;
      failures, conflicts := 0, 0;
    }

    /** Time passes in which users may edit the spec. */
    method SpecEdits()
      modifies this`resourceVersion
      ensures resourceVersion >= old(resourceVersion)
    {
    }

    /** A write carries the version it was computed from. When it fails otherwise, it may still have had its effect. */
    method Write(status: Status, version: nat) returns (outcome: WriteOutcome)
      modifies this
      ensures outcome == Conflict ==> version != old(resourceVersion) && this.status == old(this.status)
      ensures failures == old(failures) + if outcome == Failed then 1 else 0
      ensures conflicts == old(conflicts) + if outcome == Conflict then 1 else 0
      ensures outcome == Written ==> version == old(resourceVersion) && this.status == status
      ensures outcome == Failed ==>
        this.status == old(this.status) || (version == old(resourceVersion) && this.status == status)
    {
      if version != resourceVersion {
        conflicts := conflicts + 1;
        return Conflict;
      }
      if * {
        failures := failures + 1;
        return Failed;
      }
      this.status := status;
      resourceVersion := resourceVersion + 1;
      if * {
        failures := failures + 1;
        return Failed;
      }
      return Written;
    }

    /** Read, apply the options, write; a conflict starts over from a fresh read. However often that happens, the
        options are applied once to the stored status, or not at all; a failed write may have done either. The update
        gives up only when a call fails or after five conflicts. */
    method UpdateStatus(options: seq<StatusOption>) returns (ok: bool, requeueAfter: nat)
      modifies this
      ensures ok ==> status == ApplyAll(old(status), options) && requeueAfter == RequeueChoice(options)
      ensures !ok ==> status == old(status) || status == ApplyAll(old(status), options)
      ensures failures >= old(failures) && conflicts >= old(conflicts)
      ensures !ok ==> failures > old(failures) || conflicts == old(conflicts) + 5
    {
      requeueAfter := 0;
      var steps := 5;
      var outcome := Conflict;
      while steps > 0 && outcome == Conflict
        invariant outcome == Conflict ==> status == old(status)
        invariant outcome == Written ==> status == ApplyAll(old(status), options)
        invariant status == old(status) || status == ApplyAll(old(status), options)
        invariant failures >= old(failures) && conflicts >= old(conflicts)
        invariant outcome == Failed ==> failures > old(failures)
        invariant 0 <= steps <= 5 && (outcome == Conflict ==> conflicts == old(conflicts) + 5 - steps)
      {
        if * {
          failures := failures + 1;
          return false, 0;
        }
        var hc, version := status, resourceVersion;
        SpecEdits();
        for k := 0 to |options|
          invariant hc == ApplyAll(status, options[..k])
        {
          assert options[..k + 1][..k] == options[..k];
          hc := ApplyOption(hc, options[k]);
        }
        assert options[..|options|] == options;
        outcome := Write(hc, version);
        steps := steps - 1;
      }
      if outcome != Written { return false, 0; }
      ok := true;
      for k := 0 to |options|
        invariant RequeueChoice(options) == RequeueChoice(options[k..])
        invariant requeueAfter == 0
      {
        assert options[k..][1..] == options[k + 1..];
        if RequeueAfter(options[k]) > 0 { return true, RequeueAfter(options[k]); }
      }
    }
  }

  datatype WriteOutcome = Written | Conflict | Failed
}
