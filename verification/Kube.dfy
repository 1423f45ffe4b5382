/** The Kubernetes objects the operator reads and writes, cut down to the fields its decisions depend on. */
module Kube {

  datatype Option<+T> = None | Some(value: T)

  datatype Result<+T, +E> = Ok(value: T) | Err(error: E)

  /** What a container image reference says about the version it runs. */
  datatype HumioVersion = Latest | SemVer(major: nat, minor: nat, patch: nat)

  datatype Image = Image(reference: string, version: HumioVersion)

  const NO_IMAGE := Image("", Latest)

  datatype EnvVar = EnvVar(name: string, value: string, valueFrom: Option<string>)

  datatype Container = Container(
    name: string,
    image: Image,
    imagePullPolicy: string,
    terminationMessagePath: string,
    terminationMessagePolicy: string,
    env: seq<EnvVar>,
    other: string)

  datatype VolumeSource =
    | NoSource
    | PersistentVolumeClaim(claimName: string)
    | Secret(secretName: string, defaultMode: int)
    | OtherSource(text: string)

  datatype Volume = Volume(name: string, source: VolumeSource)

  datatype PodSpec = PodSpec(
    containers: seq<Container>,
    initContainers: seq<Container>,
    volumes: seq<Volume>,
    hostname: string,
    nodeName: string,
    restartPolicy: string,
    dnsPolicy: string,
    schedulerName: string,
    priority: Option<int>,
    enableServiceLinks: Option<bool>,
    preemptionPolicy: Option<string>,
    deprecatedServiceAccount: string,
    tolerations: seq<string>,
    topologySpreadConstraints: seq<string>,
    other: string)

  datatype Phase = PhasePending | PhaseRunning | PhaseSucceeded | PhaseFailed | PhaseUnknown

  datatype ConditionStatus = ConditionTrue | ConditionFalse | ConditionUnknown

  datatype ConditionType = PodReady | OtherCondition(text: string)

  /** `lastTransition` is in milliseconds; 0 is Go's zero time. */
  datatype Condition = Condition(
    kind: ConditionType,
    status: ConditionStatus,
    reason: string,
    lastTransition: nat)

  datatype ContainerStatus = ContainerStatus(waiting: Option<string>, terminated: Option<string>)

  /** The answer of the check whether a pending pod uses a claim that is bound to a lost worker node. */
  datatype ClaimCheck = ClaimOrphaned | ClaimFine | ClaimCheckFailed

  datatype PodStatus = PodStatus(
    phase: Phase,
    reason: string,
    conditions: seq<Condition>,
    containerStatuses: seq<ContainerStatus>,
    claimCheck: ClaimCheck)

  /** `deleting` stands for a set DeletionTimestamp. */
  datatype Pod = Pod(
    name: string,
    annotations: map<string, string>,
    deleting: bool,
    spec: PodSpec,
    status: PodStatus)

  const HUMIO_CONTAINER := "humio"
  const INIT_CONTAINER := "humio-init"
  const HUMIO_DATA_VOLUME := "humio-data"

  const POD_HASH := "humio.com/pod-hash"
  const POD_OPERATOR_MANAGED_FIELDS_HASH := "humio.com/pod-operator-managed-fields-hash"
  const POD_REVISION := "humio.com/pod-revision"
  const BOOTSTRAP_TOKEN_HASH := "humio.com/bootstrap-token-hash"
  const ENV_VAR_SOURCE_HASH := "humio.com/env-var-source-hash"
  const CERTIFICATE_HASH := "humio.com/certificate-hash"

  /** Go's read of a missing map key: the zero value. */
  function Lookup(m: map<string, string>, key: string): string {
    if key in m then m[key] else ""
  }
}
