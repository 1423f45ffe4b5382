/** The settings of a node pool, and the copy of its status entry that one reconcile works on. */
module NodePools {
  import opened Kube

  datatype UpdateStrategyType =
    | Unspecified
    | OnDelete
    | RollingUpdate
    | ReplaceAllOnUpdate
    | RollingUpdateBestEffort

  datatype IntOrPercent = Absolute(count: int) | Percent(percent: int) | Malformed

  datatype UpdateStrategySpec = UpdateStrategySpec(
    kind: UpdateStrategyType,
    minReadySeconds: int,
    enableZoneAwareness: Option<bool>,
    maxUnavailable: Option<IntOrPercent>)

  datatype UpdateStrategy = Strategy(
    kind: UpdateStrategyType,
    minReadySeconds: int,
    enableZoneAwareness: bool,
    maxUnavailable: IntOrPercent)

  datatype State = Running | Restarting | Upgrading | Pending | ConfigError | NoState

  datatype NodePool = NodePool(
    name: string,
    clusterName: string,
    namespace: string,
    nodeCount: int,
    strategy: Option<UpdateStrategySpec>,
    pvcsEnabled: bool,
    reclaimOnNodeDelete: bool,
    probeScheme: string,
    imagePullPolicy: string,
    tolerations: seq<string>,
    topologySpreadConstraints: seq<string>,
    state: State,
    zoneUnderMaintenance: string,
    desiredPodRevision: int,
    desiredPodHash: string,
    desiredBootstrapTokenHash: string)
  {
    function GetUpdateStrategy(): UpdateStrategy {
      match strategy
      case Some(s) =>
        Strategy(
          s.kind, s.minReadySeconds,
          if s.enableZoneAwareness.Some? then s.enableZoneAwareness.value else true,
          if s.maxUnavailable.Some? then s.maxUnavailable.value else Absolute(1))
      case None =>
        Strategy(ReplaceAllOnUpdate, 0, true, Absolute(1))
    }

    /** Without a strategy all pods are replaced at once, one at most may be missing, and zones count; a strategy that
        leaves these two fields open has the same values for them. */
    lemma StrategyDefaults()
      ensures strategy.None? ==>
        GetUpdateStrategy().kind == ReplaceAllOnUpdate && GetUpdateStrategy().minReadySeconds == 0
      ensures strategy.Some? ==>
        && GetUpdateStrategy().kind == strategy.value.kind
        && GetUpdateStrategy().minReadySeconds == strategy.value.minReadySeconds
      ensures GetUpdateStrategy().enableZoneAwareness <==>
        !(strategy.Some? && strategy.value.enableZoneAwareness == Some(false))
      ensures GetUpdateStrategy().maxUnavailable ==
        if strategy.Some? && strategy.value.maxUnavailable.Some? then strategy.value.maxUnavailable.value
        else Absolute(1)
    {
    }

    predicate OkToDeletePvc() { pvcsEnabled && reclaimOnNodeDelete }

    /** The data volume of a pod that uses the given claim; without claims the volume source is empty. */
    function DataVolumeTemplate(claimName: string): VolumeSource {
      if pvcsEnabled then PersistentVolumeClaim(claimName) else NoSource
    }
  }
}
