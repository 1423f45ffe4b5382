/** The canonical form in which pod specs are compared and hashed. */
module PodSanitizer {
  import opened Kube
  import opened NodePools
  import opened Ordering
  import opened Seqs

  const EXTERNAL_URL := "EXTERNAL_URL"
  const TLS_CERT_VOLUME := "tls-cert"
  const INIT_SECRET_VOLUME := "init-service-account-secret"
  const KUBE_API_ACCESS := "kube-api-access-"
  const DEFAULT_MODE := 420

  function SanitizedHostname(pool: NodePool): string { pool.name + "-core-" }

  function CanonicalExternalUrl(pool: NodePool): EnvVar {
    EnvVar(EXTERNAL_URL,
           pool.probeScheme + "://" + pool.name + "-core-."
             + pool.clusterName + "-headless." + pool.namespace + ":8080",
           None)
  }

  function SanitizeVar(pool: NodePool, containerName: string, e: EnvVar): EnvVar {
    if containerName == HUMIO_CONTAINER && e.name == EXTERNAL_URL then CanonicalExternalUrl(pool) else e
  }

  /** A variable-by-variable rewriting that leaves names alone. */
  ghost predicate KeepsNames(g: EnvVar -> EnvVar) {
    forall e :: g(e).name == e.name
  }

  function SanitizeVars(pool: NodePool, containerName: string): (g: EnvVar -> EnvVar)
    ensures KeepsNames(g)
  {
    (e: EnvVar) => SanitizeVar(pool, containerName, e)
  }

  function KeepVars(): (g: EnvVar -> EnvVar)
    ensures KeepsNames(g)
  {
    (e: EnvVar) => e
  }

  /** The comparator of the sort: names in descending order. */
  function ByNameDescending(): (EnvVar, EnvVar) -> bool {
    (x: EnvVar, y: EnvVar) => StrLess(y.name, x.name)
  }

  function SortVars(env: seq<EnvVar>): seq<EnvVar> { Sort(ByNameDescending(), env) }

  function Settle(pool: NodePool, c: Container, env: seq<EnvVar>): Container {
    c.(env := env, imagePullPolicy := pool.imagePullPolicy,
       terminationMessagePath := "", terminationMessagePolicy := "")
  }

  function SanitizeContainer(pool: NodePool, c: Container): Container {
    Settle(pool, c, SortVars(Map(SanitizeVars(pool, c.name), c.env)))
  }

  function SanitizeInitContainer(pool: NodePool, c: Container): Container {
    Settle(pool, c, SortVars(c.env))
  }

  /** Two tests do not do what they are for. The data volume always becomes the claim template, because the test for
      an empty claim compares an address with a value, which never holds. And the test for an injected volume asks
      whether its name is a prefix of "kube-api-access-", not whether it starts with it. */
  function SanitizeVolume(pool: NodePool, v: Volume): Volume {
    if v.name == HUMIO_DATA_VOLUME then Volume(HUMIO_DATA_VOLUME, pool.DataVolumeTemplate(""))
    else if v.name == TLS_CERT_VOLUME then Volume(TLS_CERT_VOLUME, Secret(SanitizedHostname(pool), DEFAULT_MODE))
    else if v.name == INIT_SECRET_VOLUME then Volume(INIT_SECRET_VOLUME, Secret(pool.name + "-init-", DEFAULT_MODE))
    else if v.name <= KUBE_API_ACCESS then Volume(KUBE_API_ACCESS, NoSource)
    else v
  }

  function Containers(pool: NodePool): Container -> Container { (c: Container) => SanitizeContainer(pool, c) }
  function InitContainers(pool: NodePool): Container -> Container { (c: Container) => SanitizeInitContainer(pool, c) }
  function Volumes(pool: NodePool): Volume -> Volume { (v: Volume) => SanitizeVolume(pool, v) }

  function Sanitized(pool: NodePool, spec: PodSpec): PodSpec {
    spec.(
      containers := Map(Containers(pool), spec.containers),
      initContainers := Map(InitContainers(pool), spec.initContainers),
      volumes := Map(Volumes(pool), spec.volumes),
      hostname := SanitizedHostname(pool),
      nodeName := "",
      restartPolicy := "",
      dnsPolicy := "",
      schedulerName := "",
      priority := None,
      enableServiceLinks := None,
      preemptionPolicy := None,
      deprecatedServiceAccount := "",
      tolerations := pool.tolerations,
      topologySpreadConstraints := pool.topologySpreadConstraints)
  }

  /** The values that the canonical form puts in: the host name of the pool instead of that of the pod, and in the humio
      container the address under that name. Variables come in descending order of their names. */
  lemma CanonicalValues(pool: NodePool, spec: PodSpec, i: nat, e: EnvVar)
    requires i < |spec.containers| && e in spec.containers[i].env
    ensures var s := Sanitized(pool, spec);
      && s.hostname == pool.name + "-core-" && s.nodeName == ""
      && s.tolerations == pool.tolerations && s.topologySpreadConstraints == pool.topologySpreadConstraints
      && (spec.containers[i].name == "humio" && e.name == "EXTERNAL_URL" ==>
            EnvVar("EXTERNAL_URL", pool.probeScheme + "://" + pool.name + "-core-." + pool.clusterName + "-headless."
                   + pool.namespace + ":8080", None) in s.containers[i].env)
      && (!(spec.containers[i].name == "humio" && e.name == "EXTERNAL_URL") ==> e in s.containers[i].env)
      && forall j, k :: 0 <= j < k < |s.containers[i].env| ==>
           !StrLess(s.containers[i].env[j].name, s.containers[i].env[k].name)
  {
    var c := spec.containers[i];
    var g := SanitizeVars(pool, c.name);
    SortMembers(ByNameDescending(), Map(g, c.env));
    MapMembers(g, c.env, g(e));
    DescendingIsWeakOrder();
    SortSorts(ByNameDescending(), Map(g, c.env));
    var env := SortVars(Map(g, c.env));
    assert g(e) in env && Sanitized(pool, spec).containers[i].env == env;
    forall j, k | 0 <= j < k < |env| ensures !StrLess(env[j].name, env[k].name) {
      assert !ByNameDescending()(env[k], env[j]);
    }
  }

  // ----- Sorted environments

  lemma DescendingIsWeakOrder()
    ensures WeakOrder(ByNameDescending())
  {
    var less := ByNameDescending();
    forall x: EnvVar ensures !less(x, x) { StrLessIrreflexive(x.name); }
    forall x: EnvVar, y: EnvVar, z: EnvVar | less(x, y) && less(y, z) ensures less(x, z) {
      StrLessTransitive(z.name, y.name, x.name);
    }
    forall x: EnvVar, y: EnvVar, z: EnvVar | !less(x, y) && !less(y, z) ensures !less(x, z) {
      if less(x, z) && y.name != z.name {
        StrLessTotal(y.name, z.name);
        StrLessTransitive(y.name, z.name, x.name);
      }
    }
  }

  ghost predicate DistinctNames(env: seq<EnvVar>) {
    forall i, j :: 0 <= i < j < |env| ==> env[i].name != env[j].name
  }

  lemma DistinctNamesSeparate(env: seq<EnvVar>)
    requires DistinctNames(env)
    ensures Separated(ByNameDescending(), env)
  {
    forall i, j | 0 <= i < |env| && 0 <= j < |env| && env[i] != env[j]
      ensures ByNameDescending()(env[i], env[j]) || ByNameDescending()(env[j], env[i])
    {
      assert i < j || j < i;
      StrLessTotal(env[i].name, env[j].name);
    }
  }

  /** Both lists have the same variables once rewritten; the order in which they stand does not matter. */
  ghost predicate SameVars(g: EnvVar -> EnvVar, x: seq<EnvVar>, y: seq<EnvVar>) {
    forall e :: e in Map(g, x) <==> e in Map(g, y)
  }

  lemma SameMembersSameMultiset<T>(s: seq<T>, t: seq<T>)
    requires Distinct(s) && Distinct(t)
    requires forall x :: x in s <==> x in t
    ensures multiset(s) == multiset(t)
  {
    DistinctCounts(s);
    DistinctCounts(t);
    forall x ensures multiset(s)[x] == multiset(t)[x] {
      assert x in multiset(s) <==> x in s;
      assert x in multiset(t) <==> x in t;
    }
  }

  lemma RewriteKeepsDistinct(g: EnvVar -> EnvVar, x: seq<EnvVar>)
    requires KeepsNames(g) && DistinctNames(x)
    ensures DistinctNames(Map(g, x)) && Distinct(Map(g, x))
  {
    forall i, j | 0 <= i < j < |x| ensures Map(g, x)[i].name != Map(g, x)[j].name {
      assert x[i].name != x[j].name;
      assert g(x[i]).name == x[i].name && g(x[j]).name == x[j].name;
    }
  }

  /** Rewriting and sorting is a canonical form: it identifies exactly the lists with the same rewritten variables. */
  lemma CanonicalVars(g: EnvVar -> EnvVar, x: seq<EnvVar>, y: seq<EnvVar>)
    requires KeepsNames(g) && DistinctNames(x) && DistinctNames(y)
    ensures SortVars(Map(g, x)) == SortVars(Map(g, y)) <==> SameVars(g, x, y)
  {
    var mx, my := Map(g, x), Map(g, y);
    SortMembers(ByNameDescending(), mx);
    SortMembers(ByNameDescending(), my);
    if SortVars(mx) == SortVars(my) {
      forall e ensures e in mx <==> e in my { assert e in SortVars(mx) <==> e in mx; }
    }
    if SameVars(g, x, y) {
      RewriteKeepsDistinct(g, x);
      RewriteKeepsDistinct(g, y);
      SameMembersSameMultiset(mx, my);
      DistinctNamesSeparate(mx);
      DescendingIsWeakOrder();
      SortCanonical(ByNameDescending(), mx, my);
    }
  }

  // ----- Idempotence

  lemma SortVarsTwice(env: seq<EnvVar>)
    ensures SortVars(SortVars(env)) == SortVars(env)
  {
    DescendingIsWeakOrder();
    SortSorts(ByNameDescending(), env);
    SortOfSorted(ByNameDescending(), SortVars(env));
  }

  lemma RewriteTwice(pool: NodePool, containerName: string, env: seq<EnvVar>)
    ensures var g := SanitizeVars(pool, containerName);
            Map(g, SortVars(Map(g, env))) == SortVars(Map(g, env))
  {
    var g := SanitizeVars(pool, containerName);
    var s := SortVars(Map(g, env));
    SortMembers(ByNameDescending(), Map(g, env));
    forall i | 0 <= i < |s| ensures g(s[i]) == s[i] {
      assert s[i] in s;
      MapMembers(g, env, s[i]);
    }
  }

  lemma SanitizeContainerTwice(pool: NodePool, c: Container)
    ensures SanitizeContainer(pool, SanitizeContainer(pool, c)) == SanitizeContainer(pool, c)
    ensures SanitizeInitContainer(pool, SanitizeInitContainer(pool, c)) == SanitizeInitContainer(pool, c)
  {
    RewriteTwice(pool, c.name, c.env);
    SortVarsTwice(Map(SanitizeVars(pool, c.name), c.env));
    SortVarsTwice(c.env);
  }

  /** Sanitizing a sanitized spec changes nothing. */
  lemma SanitizeIdempotent(pool: NodePool, spec: PodSpec)
    ensures Sanitized(pool, Sanitized(pool, spec)) == Sanitized(pool, spec)
  {
    var once := Sanitized(pool, spec);
    var twice := Sanitized(pool, once);
    forall i | 0 <= i < |spec.containers| ensures twice.containers[i] == once.containers[i] {
      SanitizeContainerTwice(pool, spec.containers[i]);
    }
    forall i | 0 <= i < |spec.initContainers| ensures twice.initContainers[i] == once.initContainers[i] {
      SanitizeContainerTwice(pool, spec.initContainers[i]);
    }
    assert twice.volumes == once.volumes;
    assert twice.containers == once.containers && twice.initContainers == once.initContainers;
  }

  // ----- What the canonical form forgets

  /** Equal but for the fields that the API server defaults and for the environment. */
  predicate SameShape(a: Container, b: Container) {
    a.name == b.name && a.image == b.image && a.other == b.other
  }

  ghost predicate SameContainer(pool: NodePool, a: Container, b: Container) {
    SameShape(a, b) && SameVars(SanitizeVars(pool, a.name), a.env, b.env)
  }

  ghost predicate SameInitContainer(a: Container, b: Container) {
    SameShape(a, b) && SameVars(KeepVars(), a.env, b.env)
  }

  predicate SameVolume(a: Volume, b: Volume) {
    || (a.name == b.name && (a.name in {HUMIO_DATA_VOLUME, TLS_CERT_VOLUME, INIT_SECRET_VOLUME}
        || a.source == b.source))
    || (a.name <= KUBE_API_ACCESS && b.name <= KUBE_API_ACCESS)
  }

  /** The two specs describe the same workload: they may differ in node, hostname, claim and secret names, in the value
      of EXTERNAL_URL, in the order of variables, and in defaulted scalar fields. Volumes that the API server injects
      count, names and all. */
  ghost predicate SameWorkload(pool: NodePool, a: PodSpec, b: PodSpec) {
    && |a.containers| == |b.containers|
    && (forall i :: 0 <= i < |a.containers| ==> SameContainer(pool, a.containers[i], b.containers[i]))
    && |a.initContainers| == |b.initContainers|
    && (forall i :: 0 <= i < |a.initContainers| ==> SameInitContainer(a.initContainers[i], b.initContainers[i]))
    && |a.volumes| == |b.volumes|
    && (forall i :: 0 <= i < |a.volumes| ==> SameVolume(a.volumes[i], b.volumes[i]))
    && a.other == b.other
  }

  ghost predicate DistinctVars(spec: PodSpec) {
    && (forall c :: c in spec.containers ==> DistinctNames(c.env))
    && (forall c :: c in spec.initContainers ==> DistinctNames(c.env))
  }

  lemma KeepMapsToItself(env: seq<EnvVar>)
    ensures Map(KeepVars(), env) == env
  {
  }

  lemma CanonicalContainer(pool: NodePool, a: Container, b: Container)
    requires DistinctNames(a.env) && DistinctNames(b.env)
    ensures SanitizeContainer(pool, a) == SanitizeContainer(pool, b) <==> SameContainer(pool, a, b)
    ensures SanitizeInitContainer(pool, a) == SanitizeInitContainer(pool, b) <==> SameInitContainer(a, b)
  {
    CanonicalVars(SanitizeVars(pool, a.name), a.env, b.env);
    CanonicalVars(KeepVars(), a.env, b.env);
    KeepMapsToItself(a.env);
    KeepMapsToItself(b.env);
  }

  lemma CanonicalVolume(pool: NodePool, a: Volume, b: Volume)
    ensures SanitizeVolume(pool, a) == SanitizeVolume(pool, b) <==> SameVolume(a, b)
  {
    assert KUBE_API_ACCESS <= KUBE_API_ACCESS;
    assert !(HUMIO_DATA_VOLUME <= KUBE_API_ACCESS) by { assert HUMIO_DATA_VOLUME[0] != KUBE_API_ACCESS[0]; }
    assert !(TLS_CERT_VOLUME <= KUBE_API_ACCESS) by { assert TLS_CERT_VOLUME[0] != KUBE_API_ACCESS[0]; }
    assert !(INIT_SECRET_VOLUME <= KUBE_API_ACCESS) by { assert INIT_SECRET_VOLUME[0] != KUBE_API_ACCESS[0]; }
  }

  /** Two specs have the same canonical form exactly when they describe the same workload. */
  lemma SanitizeCanonical(pool: NodePool, a: PodSpec, b: PodSpec)
    requires DistinctVars(a) && DistinctVars(b)
    ensures Sanitized(pool, a) == Sanitized(pool, b) <==> SameWorkload(pool, a, b)
  {
    var sa, sb := Sanitized(pool, a), Sanitized(pool, b);
    forall i | 0 <= i < |a.containers| && i < |b.containers|
      ensures sa.containers[i] == sb.containers[i] <==> SameContainer(pool, a.containers[i], b.containers[i])
    {
      CanonicalContainer(pool, a.containers[i], b.containers[i]);
    }
    forall i | 0 <= i < |a.initContainers| && i < |b.initContainers|
      ensures sa.initContainers[i] == sb.initContainers[i] <==>
        SameInitContainer(a.initContainers[i], b.initContainers[i])
    {
      CanonicalContainer(pool, a.initContainers[i], b.initContainers[i]);
    }
    forall i | 0 <= i < |a.volumes| && i < |b.volumes|
      ensures sa.volumes[i] == sb.volumes[i] <==> SameVolume(a.volumes[i], b.volumes[i])
    {
      CanonicalVolume(pool, a.volumes[i], b.volumes[i]);
    }
    if SameWorkload(pool, a, b) {
      assert sa.containers == sb.containers && sa.initContainers == sb.initContainers && sa.volumes == sb.volumes;
    }
    if sa == sb {
      assert |sa.containers| == |sb.containers| && |sa.initContainers| == |sb.initContainers|
          && |sa.volumes| == |sb.volumes|;
    }
  }

  /** A volume that the API server injects is not made canonical: it is identified with itself only. */
  lemma InjectedVolumesStay(pool: NodePool, v: Volume, w: Volume)
    requires KUBE_API_ACCESS < v.name
    ensures SanitizeVolume(pool, v) == v
    ensures SanitizeVolume(pool, v) == SanitizeVolume(pool, w) <==> v == w
  {
    assert v.name[0] == 'k';
    CanonicalVolume(pool, v, w);
  }

  // ----- The in-place algorithm

  class PodObject {
    var spec: PodSpec

    constructor (spec: PodSpec)
      ensures this.spec == spec
    { this.spec := spec; }

    /** Rewrites the pod in place. */
    method SanitizePod(pool: NodePool)
      modifies this
      ensures spec == Sanitized(pool, old(spec))
    {
      ghost var was := spec;
      for idx := 0 to |spec.containers|
        invariant spec == was.(containers := spec.containers) && |spec.containers| == |was.containers|
        invariant forall k :: 0 <= k < idx ==>
          var c := was.containers[k]; spec.containers[k] == c.(env := Map(SanitizeVars(pool, c.name), c.env))
        invariant forall k :: idx <= k < |spec.containers| ==> spec.containers[k] == was.containers[k]
      {
        var container := spec.containers[idx];
        var sanitizedEnvVars := SanitizeEnv(pool, container);
        spec := spec.(containers := spec.containers[idx := container.(env := sanitizedEnvVars)]);
      }
      var sanitizedVolumes: seq<Volume> := [];
      for idx := 0 to |spec.volumes|
        invariant sanitizedVolumes == Map(Volumes(pool), spec.volumes[..idx])
      {
        sanitizedVolumes := sanitizedVolumes + [SanitizeVolume(pool, spec.volumes[idx])];
      }
      assert spec.volumes[..|spec.volumes|] == spec.volumes;
      spec := spec.(
        volumes := sanitizedVolumes,
        hostname := SanitizedHostname(pool),
        restartPolicy := "",
        dnsPolicy := "",
        schedulerName := "",
        priority := None,
        enableServiceLinks := None,
        preemptionPolicy := None,
        deprecatedServiceAccount := "",
        nodeName := "",
        tolerations := pool.tolerations,
        topologySpreadConstraints := pool.topologySpreadConstraints);
      var initContainers := SettleAll(pool, spec.initContainers);
      var containers := SettleAll(pool, spec.containers);
      spec := spec.(initContainers := initContainers, containers := containers);
      assert spec.containers == Map(Containers(pool), was.containers);
      assert spec.initContainers == Map(InitContainers(pool), was.initContainers);
    }
  }

  method SanitizeEnv(pool: NodePool, container: Container) returns (env: seq<EnvVar>)
    ensures env == Map(SanitizeVars(pool, container.name), container.env)
  {
    if container.name == HUMIO_CONTAINER {
      env := [];
      for k := 0 to |container.env|
        invariant env == Map(SanitizeVars(pool, container.name), container.env[..k])
      {
        var envVar := container.env[k];
        if envVar.name == EXTERNAL_URL {
          env := env + [CanonicalExternalUrl(pool)];
        } else {
          env := env + [envVar];
        }
      }
      assert container.env[..|container.env|] == container.env;
    } else {
      env := container.env;
      assert env == Map(SanitizeVars(pool, container.name), container.env);
    }
  }

  /** The last loops of the algorithm: reset defaulted fields, then sort the variables of each container. */
  method SettleAll(pool: NodePool, containers: seq<Container>) returns (r: seq<Container>)
    ensures |r| == |containers|
    ensures forall i :: 0 <= i < |r| ==> r[i] == SanitizeInitContainer(pool, containers[i])
  {
    r := containers;
    for i := 0 to |containers|
      invariant |r| == |containers|
      invariant forall k :: 0 <= k < i ==> r[k] == Settle(pool, containers[k], containers[k].env)
      invariant forall k :: i <= k < |r| ==> r[k] == containers[k]
    {
      r := r[i := r[i].(imagePullPolicy := pool.imagePullPolicy,
         terminationMessagePath := "", terminationMessagePolicy := "")];
    }
    for i := 0 to |containers|
      invariant |r| == |containers|
      invariant forall k :: 0 <= k < i ==> r[k] == SanitizeInitContainer(pool, containers[k])
      invariant forall k :: i <= k < |r| ==> r[k] == Settle(pool, containers[k], containers[k].env)
    {
      r := r[i := r[i].(env := SortVars(r[i].env))];
    }
  }
}
