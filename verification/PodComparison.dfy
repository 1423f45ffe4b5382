/** Comparing a running pod with the pod the operator would create now. */
module PodComparisons {
  import opened Kube
  import opened NodePools
  import opened Ordering
  import opened Seqs
  import opened PodSanitizer
  import opened PodHasher

  datatype Severity = NoMismatch | Warning | Critical
  datatype MismatchType = NoType | VersionType | AnnotationType
  datatype VersionMismatch = VersionMismatch(from: HumioVersion, to: HumioVersion)

  datatype Comparison = Comparison(
    annotationMismatches: seq<string>,
    envMismatches: set<string>,
    version: Option<VersionMismatch>,
    severity: Severity,
    mismatchType: MismatchType)

  const CRITICAL_ANNOTATIONS: seq<string> := [
    BOOTSTRAP_TOKEN_HASH, POD_HASH, POD_REVISION, BOOTSTRAP_TOKEN_HASH, ENV_VAR_SOURCE_HASH, CERTIFICATE_HASH]

  predicate HasHumioContainer(spec: PodSpec) { exists c :: c in spec.containers && c.name == HUMIO_CONTAINER }

  function FirstNamed(containers: seq<Container>, name: string): (c: Container)
    requires exists c :: c in containers && c.name == name
    ensures c in containers && c.name == name
  {
    if containers[0].name == name then containers[0] else FirstNamed(containers[1..], name)
  }

  function HumioContainer(p: Pod): (c: Container)
    requires HasHumioContainer(p.spec)
    ensures c in p.spec.containers && c.name == HUMIO_CONTAINER
  {
    FirstNamed(p.spec.containers, HUMIO_CONTAINER)
  }

  function EnvVarValue(env: seq<EnvVar>, name: string): string {
    if env == [] then "" else if env[0].name == name then env[0].value else EnvVarValue(env[1..], name)
  }

  function Differs(current: Pod, desired: Pod): string -> bool {
    (annotation: string) => Lookup(current.annotations, annotation) != Lookup(desired.annotations, annotation)
  }

  function Keys(env: seq<EnvVar>): set<string> { set e | e in env :: e.name }

  /** Names that are missing from one side or whose first values differ. */
  function EnvMismatches(current: seq<EnvVar>, desired: seq<EnvVar>): set<string> {
    set name | name in Keys(current) + Keys(desired) &&
      !(name in Keys(current) && name in Keys(desired) && EnvVarValue(current, name) == EnvVarValue(desired, name))
  }

  predicate CriticalAnnotationDiffers(current: Pod, desired: Pod) {
    exists a :: a in CRITICAL_ANNOTATIONS && Differs(current, desired)(a)
  }

  predicate ImageDiffers(current: Pod, desired: Pod)
    requires HasHumioContainer(current.spec) && HasHumioContainer(desired.spec)
  {
    HumioContainer(current).image != HumioContainer(desired).image
  }

  /** Restart-worthy: a critical annotation or the image differs. */
  predicate CriticallyMismatched(current: Pod, desired: Pod)
    requires HasHumioContainer(current.spec) && HasHumioContainer(desired.spec)
  {
    CriticalAnnotationDiffers(current, desired) || ImageDiffers(current, desired)
  }

  function SanitizedEnv(pool: NodePool, p: Pod): seq<EnvVar>
    requires HasHumioContainer(p.spec)
  {
    SanitizeContainer(pool, HumioContainer(p)).env
  }

  function Compare(pool: NodePool, current: Pod, desired: Pod): Comparison
    requires HasHumioContainer(current.spec) && HasHumioContainer(desired.spec)
  {
    var managedDiffers := Differs(current, desired)(POD_OPERATOR_MANAGED_FIELDS_HASH);
    Comparison(
      Filter(Differs(current, desired), CRITICAL_ANNOTATIONS) +
        Filter(Differs(current, desired), [POD_OPERATOR_MANAGED_FIELDS_HASH]),
      EnvMismatches(SanitizedEnv(pool, current), SanitizedEnv(pool, desired)),
      if ImageDiffers(current, desired)
        then Some(VersionMismatch(HumioContainer(current).image.version, HumioContainer(desired).image.version))
        else None,
      if CriticallyMismatched(current, desired) then Critical else if managedDiffers then Warning else NoMismatch,
      if ImageDiffers(current, desired) then VersionType
      else if CriticalAnnotationDiffers(current, desired) || managedDiffers then AnnotationType else NoType)
  }

  /** The comparison as the operator builds it, one finding at a time. */
  class PodComparison {
    const pool: NodePool
    const currentPod: Pod
    const desiredPod: Pod
    var annotationMismatches: seq<string>
    var envMismatches: set<string>
    var version: Option<VersionMismatch>
    var severity: Severity
    var mismatchType: MismatchType

    function Result(): Comparison
      reads this
    {
      Comparison(annotationMismatches, envMismatches, version, severity, mismatchType)
    }

    constructor (pool: NodePool, current: Pod, desired: Pod)
      requires HasHumioContainer(current.spec) && HasHumioContainer(desired.spec)
      ensures Result() == Compare(pool, current, desired)
    {
      this.pool, currentPod, desiredPod := pool, current, desired;
      annotationMismatches, envMismatches, version, severity, mismatchType := [], {}, None, NoMismatch, NoType;
      new;
      hide Filter, EnvMismatches, SanitizedEnv, CriticalAnnotationDiffers, ImageDiffers, HumioContainer;
      ProcessAnnotations();
      ProcessEnvironmentVariables();
      ProcessHumioContainerImages();
    }

    /** A later warning never replaces a critical finding. */
    method SetDoesNotMatch(mismatchType: MismatchType, severity: Severity)
      modifies this`severity, this`mismatchType
      ensures old(this.severity) == Critical && severity == Warning
        ==> this.severity == Critical && this.mismatchType == old(this.mismatchType)
      ensures !(old(this.severity) == Critical && severity == Warning)
        ==> this.severity == severity && this.mismatchType == mismatchType
    {
      if this.severity == Critical && severity == Warning { return; }
      this.mismatchType := mismatchType;
      this.severity := severity;
    }

    /** Any difference in one of these annotations is critical. */
    method ProcessCriticalAnnotations(annotations: seq<string>)
      requires annotationMismatches == [] && severity == NoMismatch && mismatchType == NoType
      modifies this`severity, this`mismatchType, this`annotationMismatches
      ensures annotationMismatches == Filter(Differs(currentPod, desiredPod), annotations)
      ensures severity ==
        if exists a :: a in annotations && Differs(currentPod, desiredPod)(a) then Critical else NoMismatch
      ensures mismatchType == if severity == NoMismatch then NoType else AnnotationType
    {
      ghost var d := Differs(currentPod, desiredPod);
      assert Filter(d, annotations[..0]) == [];
      hide Filter, Differs;
      for k := 0 to |annotations|
        invariant annotationMismatches == Filter(d, annotations[..k])
        invariant severity == if annotationMismatches != [] then Critical else NoMismatch
        invariant mismatchType == if severity == NoMismatch then NoType else AnnotationType
      {
        assert annotations[..k + 1] == annotations[..k] + [annotations[k]];
        FilterSnoc(d, annotations[..k], annotations[k]);
        ProcessCriticalAnnotation(annotations[k]);
      }
      assert annotations[..|annotations|] == annotations;
      FilterKeepsSome(d, annotations);
    }

    method ProcessCriticalAnnotation(annotation: string)
      modifies this`severity, this`mismatchType, this`annotationMismatches
      ensures Differs(currentPod, desiredPod)(annotation) ==>
        && annotationMismatches == old(annotationMismatches) + [annotation]
        && severity == Critical && mismatchType == AnnotationType
      ensures !Differs(currentPod, desiredPod)(annotation) ==>
        && annotationMismatches == old(annotationMismatches)
        && severity == old(severity) && mismatchType == old(mismatchType)
    {
      if Lookup(currentPod.annotations, annotation) != Lookup(desiredPod.annotations, annotation) {
        SetDoesNotMatch(AnnotationType, Critical);
        annotationMismatches := annotationMismatches + [annotation];
      }
    }

    method ProcessAnnotations()
      requires annotationMismatches == [] && severity == NoMismatch && mismatchType == NoType
      modifies this`severity, this`mismatchType, this`annotationMismatches
      ensures var d := Differs(currentPod, desiredPod);
        && annotationMismatches == Filter(d, CRITICAL_ANNOTATIONS) + Filter(d, [POD_OPERATOR_MANAGED_FIELDS_HASH])
        && severity == (if CriticalAnnotationDiffers(currentPod, desiredPod) then Critical
                        else if d(POD_OPERATOR_MANAGED_FIELDS_HASH) then Warning else NoMismatch)
        && mismatchType == if severity == NoMismatch then NoType else AnnotationType
    {
      FilterSnoc(Differs(currentPod, desiredPod), [], POD_OPERATOR_MANAGED_FIELDS_HASH);
      assert [] + [POD_OPERATOR_MANAGED_FIELDS_HASH] == [POD_OPERATOR_MANAGED_FIELDS_HASH];
      hide Filter;
      ProcessCriticalAnnotations(CRITICAL_ANNOTATIONS);
      if Lookup(currentPod.annotations, POD_OPERATOR_MANAGED_FIELDS_HASH)
          != Lookup(desiredPod.annotations, POD_OPERATOR_MANAGED_FIELDS_HASH) {
        SetDoesNotMatch(AnnotationType, Warning);
        annotationMismatches := annotationMismatches + [POD_OPERATOR_MANAGED_FIELDS_HASH];
      }
    }

    method ProcessEnvironmentVariables()
      requires HasHumioContainer(currentPod.spec) && HasHumioContainer(desiredPod.spec)
      modifies this`envMismatches
      ensures envMismatches == EnvMismatches(SanitizedEnv(pool, currentPod), SanitizedEnv(pool, desiredPod))
    {
      envMismatches := MismatchedNames(SanitizedEnv(pool, currentPod), SanitizedEnv(pool, desiredPod));
    }

    method ProcessHumioContainerImages()
      requires HasHumioContainer(currentPod.spec) && HasHumioContainer(desiredPod.spec)
      requires version == None
      modifies this`severity, this`mismatchType, this`version
      ensures ImageDiffers(currentPod, desiredPod) ==>
        && severity == Critical && mismatchType == VersionType
        && version == Some(VersionMismatch(HumioContainer(currentPod).image.version,
                                           HumioContainer(desiredPod).image.version))
      ensures !ImageDiffers(currentPod, desiredPod) ==>
        severity == old(severity) && mismatchType == old(mismatchType) && version == None
    {
      var current, desired := HumioContainer(currentPod).image, HumioContainer(desiredPod).image;
      if current != desired {
        SetDoesNotMatch(VersionType, Critical);
        version := Some(VersionMismatch(current.version, desired.version));
      }
    }
  }

  method MismatchedNames(current: seq<EnvVar>, desired: seq<EnvVar>) returns (r: set<string>)
    ensures r == EnvMismatches(current, desired)
  {
    var currentEnvVars := FirstValues(current);
    var desiredEnvVars := FirstValues(desired);
    ghost var all := EnvMismatches(current, desired);
    r := {};
    var names := desiredEnvVars.Keys;
    while names != {}
      invariant names <= desiredEnvVars.Keys
      invariant forall n :: n in r <==> n in desiredEnvVars.Keys && n !in names && n in all
      decreases |names|
    {
      var envName :| envName in names;
      names := names - {envName};
      if envName !in currentEnvVars || currentEnvVars[envName] != desiredEnvVars[envName] {
        r := r + {envName};
      }
    }
    names := currentEnvVars.Keys;
    while names != {}
      invariant names <= currentEnvVars.Keys
      invariant forall n :: n in r <==> n in all && (n in desiredEnvVars.Keys || n !in names)
      decreases |names|
    {
      var envName :| envName in names;
      names := names - {envName};
      if envName !in desiredEnvVars {
        r := r + {envName};
      }
    }
  }

  method FirstValues(env: seq<EnvVar>) returns (m: map<string, string>)
    ensures m.Keys == Keys(env)
    ensures forall n :: n in m ==> m[n] == EnvVarValue(env, n)
  {
    m := map[];
    for k := 0 to |env|
      invariant m.Keys == Keys(env[..k])
      invariant forall n :: n in m ==> m[n] == EnvVarValue(env, n)
    {
      assert env[..k + 1] == env[..k] + [env[k]];
      m := m[env[k].name := EnvVarValue(env, env[k].name)];
    }
    assert env[..|env|] == env;
  }

  // ----- What a comparison says

  /** A critical mismatch always leaves a trace: an annotation on the list, or a version difference. */
  lemma CriticalLeavesTrace(pool: NodePool, current: Pod, desired: Pod)
    requires HasHumioContainer(current.spec) && HasHumioContainer(desired.spec)
    ensures var c := Compare(pool, current, desired);
      && (c.severity == Critical <==> CriticallyMismatched(current, desired))
      && (c.severity == Critical ==> c.annotationMismatches != [] || c.mismatchType == VersionType)
      && (c.severity == NoMismatch <==>
            !ImageDiffers(current, desired)
            && forall a :: a in CRITICAL_ANNOTATIONS + [POD_OPERATOR_MANAGED_FIELDS_HASH] ==>
                 !Differs(current, desired)(a))
  {
    var d := Differs(current, desired);
    if CriticalAnnotationDiffers(current, desired) {
      var a :| a in CRITICAL_ANNOTATIONS && d(a);
      assert a in Filter(d, CRITICAL_ANNOTATIONS);
    }
  }

  /** What calls for a restart, one thing after the other. */
  predicate NeedsRestart(current: Pod, desired: Pod)
    requires HasHumioContainer(current.spec) && HasHumioContainer(desired.spec)
  {
    || HumioContainer(current).image != HumioContainer(desired).image
    || Lookup(current.annotations, BOOTSTRAP_TOKEN_HASH) != Lookup(desired.annotations, BOOTSTRAP_TOKEN_HASH)
    || Lookup(current.annotations, POD_HASH) != Lookup(desired.annotations, POD_HASH)
    || Lookup(current.annotations, POD_REVISION) != Lookup(desired.annotations, POD_REVISION)
    || Lookup(current.annotations, ENV_VAR_SOURCE_HASH) != Lookup(desired.annotations, ENV_VAR_SOURCE_HASH)
    || Lookup(current.annotations, CERTIFICATE_HASH) != Lookup(desired.annotations, CERTIFICATE_HASH)
  }

  lemma CriticalByName(current: Pod, desired: Pod)
    requires HasHumioContainer(current.spec) && HasHumioContainer(desired.spec)
    ensures CriticallyMismatched(current, desired) <==> NeedsRestart(current, desired)
  {
    var d, all := Differs(current, desired), CRITICAL_ANNOTATIONS;
    assert BOOTSTRAP_TOKEN_HASH in all && POD_HASH in all && POD_REVISION in all && ENV_VAR_SOURCE_HASH in all
      && CERTIFICATE_HASH in all;
    if d(BOOTSTRAP_TOKEN_HASH) || d(POD_HASH) || d(POD_REVISION) || d(ENV_VAR_SOURCE_HASH) || d(CERTIFICATE_HASH) {
      assert CriticalAnnotationDiffers(current, desired);
    }
  }

  /** The severity is critical exactly when the image or one of the five hashes and revisions differs, and a warning
      exactly when, of all these, only the hash of the managed fields does. */
  lemma SeverityExactly(pool: NodePool, current: Pod, desired: Pod)
    requires HasHumioContainer(current.spec) && HasHumioContainer(desired.spec)
    ensures var severity := Compare(pool, current, desired).severity;
      && (severity == Critical <==> NeedsRestart(current, desired))
      && (severity == Warning <==>
            && !NeedsRestart(current, desired)
            && Lookup(current.annotations, POD_OPERATOR_MANAGED_FIELDS_HASH)
               != Lookup(desired.annotations, POD_OPERATOR_MANAGED_FIELDS_HASH))
  {
    CriticalByName(current, desired);
  }

  /** A variable counts as equal exactly when neither pod has it, or both have it with the same value. */
  lemma EnvMismatchesExactly(current: seq<EnvVar>, desired: seq<EnvVar>, name: string)
    requires DistinctNames(current) && DistinctNames(desired)
    ensures name !in EnvMismatches(current, desired) <==>
      || (!HasKey(current, name) && !HasKey(desired, name))
      || exists e, f :: e in current && f in desired && e.name == name && f.name == name && e.value == f.value
  {
    if e :| e in current && e.name == name { OnlyValue(current, e); }
    if f :| f in desired && f.name == name { OnlyValue(desired, f); }
    forall e | e in current && e.name == name ensures e.value == EnvVarValue(current, name) { OnlyValue(current, e); }
    forall f | f in desired && f.name == name ensures f.value == EnvVarValue(desired, name) { OnlyValue(desired, f); }
  }

  lemma OnlyValue(env: seq<EnvVar>, e: EnvVar)
    requires DistinctNames(env) && e in env
    ensures e.name in Keys(env) && EnvVarValue(env, e.name) == e.value
  {
    forall f | f in env && f.name == e.name ensures f.value == e.value {
      var i :| 0 <= i < |env| && env[i] == e;
      var j :| 0 <= j < |env| && env[j] == f;
    }
    FirstValueUniform(env, e.name, e.value);
  }

  lemma {:induction false} FirstValueUniform(env: seq<EnvVar>, name: string, value: string)
    requires forall e :: e in env && e.name == name ==> e.value == value
    requires name in Keys(env)
    ensures EnvVarValue(env, name) == value
  {
    if env[0].name == name {
      assert env[0] in env;
    } else {
      assert forall e :: e in env <==> e == env[0] || e in env[1..];
      FirstValueUniform(env[1..], name, value);
    }
  }

  lemma SanitizedExternalUrl(pool: NodePool, p: Pod)
    requires HasHumioContainer(p.spec)
    ensures var env := SanitizedEnv(pool, p);
      && (EXTERNAL_URL in Keys(env) <==> HasKey(HumioContainer(p).env, EXTERNAL_URL))
      && (EXTERNAL_URL in Keys(env) ==> EnvVarValue(env, EXTERNAL_URL) == CanonicalExternalUrl(pool).value)
  {
    var c := HumioContainer(p);
    var g := SanitizeVars(pool, c.name);
    var env := SanitizedEnv(pool, p);
    SortMembers(ByNameDescending(), Map(g, c.env));
    forall e | e in env && e.name == EXTERNAL_URL
      ensures e == CanonicalExternalUrl(pool) && HasKey(c.env, EXTERNAL_URL)
    {
      MapMembers(g, c.env, e);
    }
    if x :| x in c.env && x.name == EXTERNAL_URL {
      MapMembers(g, c.env, g(x));
      assert g(x) in env;
    }
    if EXTERNAL_URL in Keys(env) { FirstValueUniform(env, EXTERNAL_URL, CanonicalExternalUrl(pool).value); }
  }

  /** EXTERNAL_URL counts as changed only when exactly one of the pods has it: the values are normalised before they
      are compared. */
  lemma ExternalUrlMismatch(pool: NodePool, current: Pod, desired: Pod)
    requires HasHumioContainer(current.spec) && HasHumioContainer(desired.spec)
    ensures EXTERNAL_URL in Compare(pool, current, desired).envMismatches
       <==> HasKey(HumioContainer(current).env, EXTERNAL_URL) != HasKey(HumioContainer(desired).env, EXTERNAL_URL)
  {
    SanitizedExternalUrl(pool, current);
    SanitizedExternalUrl(pool, desired);
  }
}
