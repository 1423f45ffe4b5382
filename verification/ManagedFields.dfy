/** Filling in default environment variables, and keeping track of which ones the operator filled in. */
module ManagedFields {
  import opened Kube
  import opened NodePools
  import opened Seqs
  import opened Decimal
  import opened PodSanitizer
  import opened PodHasher
  import opened PodComparisons

  /** The settings of a cluster that the default variables are made from. */
  datatype EnvSettings = EnvSettings(
    tlsEnabled: bool,
    clusterName: string,
    targetReplicationFactor: nat,
    digestPartitionsCount: nat,
    path: string,
    ingressEnabled: bool,
    hostname: string)

  function FieldVar(name: string, path: string): EnvVar { EnvVar(name, "", Some(path)) }
  function TextVar(name: string, value: string): EnvVar { EnvVar(name, value, None) }

  function PathSuffix(s: EnvSettings): string { if s.path != "/" then s.path else "" }

  function PublicUrl(s: EnvSettings): EnvVar {
    TextVar("PUBLIC_URL",
            if s.ingressEnabled then "https://" + s.hostname + PathSuffix(s)
            else (if s.tlsEnabled then "https" else "http") + "://$(THIS_POD_IP):$(HUMIO_PORT)" + PathSuffix(s))
  }

  /** Variables that are the same for all clusters. */
  function PodDefaults(): seq<EnvVar> {
    [ FieldVar("THIS_POD_IP", "status.podIP"),
      FieldVar("POD_NAME", "metadata.name"),
      FieldVar("POD_NAMESPACE", "metadata.namespace"),
      TextVar("HUMIO_PORT", "8080"),
      TextVar("ELASTIC_PORT", "9200") ]
  }

  /** Variables that depend on the settings of the cluster. */
  function ClusterDefaults(s: EnvSettings): seq<EnvVar> {
    [ TextVar("DEFAULT_DIGEST_REPLICATION_FACTOR", Itoa(s.targetReplicationFactor)),
      TextVar("DEFAULT_SEGMENT_REPLICATION_FACTOR", Itoa(s.targetReplicationFactor)),
      TextVar("INGEST_QUEUE_INITIAL_PARTITIONS", Itoa(s.digestPartitionsCount)),
      TextVar("HUMIO_LOG4J_CONFIGURATION", "log4j2-json-stdout.xml"),
      TextVar(EXTERNAL_URL, (if s.tlsEnabled then "https" else "http")
              + "://$(POD_NAME)." + s.clusterName + "-headless.$(POD_NAMESPACE):$(HUMIO_PORT)"),
      TextVar("HUMIO_JVM_LOG_OPTS", "-Xlog:gc+jni=debug:stdout -Xlog:gc*:stdout:time,tags"),
      TextVar("HUMIO_OPTS", "-Dakka.log-config-on-start=on -Dlog4j2.formatMsgNoLookups=true"),
      PublicUrl(s) ]
  }

  /** Every variable the operator offers a default for, in the order in which it offers them. */
  function EnvDefaults(s: EnvSettings): seq<EnvVar> {
    PodDefaults() + ClusterDefaults(s) + if s.path != "/" then [TextVar("PROXY_PREFIX_URL", s.path)] else []
  }

  // ----- Merging a container into the tracker

  function MergeEnv(src: seq<EnvVar>, dest: seq<EnvVar>): seq<EnvVar> {
    dest + Filter(Missing(dest), src)
  }

  function MergeContainers(src: Container, dest: Container): Container {
    dest.(image := if src.image.reference != "" then src.image else dest.image, env := MergeEnv(src.env, dest.env))
  }

  function MergeIntoContainers(containers: seq<Container>, new_: Container): seq<Container> {
    if containers == [] then [new_]
    else if containers[0].name == new_.name then [MergeContainers(new_, containers[0])] + containers[1..]
    else [containers[0]] + MergeIntoContainers(containers[1..], new_)
  }

  method NamesIn(env: seq<EnvVar>) returns (names: set<string>)
    ensures forall n :: n in names <==> HasKey(env, n)
  {
    names := {};
    for k := 0 to |env|
      invariant forall n :: n in names <==> HasKey(env[..k], n)
    {
      names := names + {env[k].name};
      assert env[..k + 1] == env[..k] + [env[k]];
    }
    assert env[..|env|] == env;
  }

  function Missing(env: seq<EnvVar>): EnvVar -> bool { (e: EnvVar) => !HasKey(env, e.name) }

  method MergeEnvironmentVariables(src: Container, dest: Container) returns (r: Container)
    ensures r == dest.(env := MergeEnv(src.env, dest.env))
  {
    if |src.env| == 0 { return dest; }
    var existingEnv := NamesIn(dest.env);
    var env := AppendMissing(src.env, dest.env, existingEnv);
    r := dest.(env := env);
  }

  method AppendMissing(src: seq<EnvVar>, dest: seq<EnvVar>, existingEnv: set<string>) returns (env: seq<EnvVar>)
    requires forall n :: n in existingEnv <==> HasKey(dest, n)
    ensures env == MergeEnv(src, dest)
  {
    var added: seq<EnvVar> := [];
    ghost var missing := Missing(dest);
    for k := 0 to |src|
      invariant added == Filter(missing, src[..k])
    {
      assert src[..k + 1] == src[..k] + [src[k]];
      FilterSnoc(missing, src[..k], src[k]);
      assert missing(src[k]) <==> src[k].name !in existingEnv;
      if src[k].name !in existingEnv { added := added + [src[k]]; }
    }
    assert src[..|src|] == src;
    env := dest + added;
  }

  method MergeContainerIntoPod(containers: seq<Container>, newContainer: Container) returns (updated: seq<Container>)
    ensures updated == MergeIntoContainers(containers, newContainer)
  {
    updated := containers;
    for i := 0 to |containers|
      invariant updated == containers
      invariant MergeIntoContainers(containers, newContainer)
                == containers[..i] + MergeIntoContainers(containers[i..], newContainer)
    {
      if updated[i].name == newContainer.name {
        var merged := updated[i];
        if newContainer.image.reference != "" { merged := merged.(image := newContainer.image); }
        merged := MergeEnvironmentVariables(newContainer, merged);
        updated := updated[i := merged];
        assert updated == containers[..i] + ([merged] + containers[i..][1..]);
        return;
      }
      assert containers[i..][1..] == containers[i + 1..];
      assert containers[..i + 1] == containers[..i] + [containers[i]];
    }
    updated := updated + [newContainer];
    assert containers[..|containers|] == containers && containers[|containers|..] == [];
  }

  lemma HasKeyMerged(src: seq<EnvVar>, dest: seq<EnvVar>, name: string)
    ensures HasKey(MergeEnv(src, dest), name) <==> HasKey(src, name) || HasKey(dest, name)
  {
    if e :| e in src && e.name == name {
      assert HasKey(dest, name) || e in MergeEnv(src, dest);
    }
    if e :| e in dest && e.name == name { assert e in MergeEnv(src, dest); }
  }

  lemma ManagesCons(c: Container, rest: seq<Container>, containerName: string, name: string)
    ensures ManagesVar([c] + rest, containerName, name)
      <==> (c.name == containerName && HasKey(c.env, name)) || ManagesVar(rest, containerName, name)
    ensures ManagesImage([c] + rest, containerName)
      <==> (c.name == containerName && c.image.reference != "") || ManagesImage(rest, containerName)
  {
    var all := [c] + rest;
    assert forall x :: x in all <==> x == c || x in rest;
  }

  /** Merging a container adds exactly its variables and its image to what the tracker manages. */
  lemma {:induction false} MergeManages(containers: seq<Container>, new_: Container, containerName: string,
                                        name: string)
    ensures ManagesVar(MergeIntoContainers(containers, new_), containerName, name)
      <==> ManagesVar(containers, containerName, name) || (new_.name == containerName && HasKey(new_.env, name))
    ensures ManagesImage(MergeIntoContainers(containers, new_), containerName)
      <==> ManagesImage(containers, containerName) || (new_.name == containerName && new_.image.reference != "")
  {
    if containers == [] {
      ManagesCons(new_, [], containerName, name);
      assert [new_] + [] == [new_];
    } else {
      var rest := containers[1..];
      assert containers == [containers[0]] + rest;
      ManagesCons(containers[0], rest, containerName, name);
      if containers[0].name == new_.name {
        ManagesCons(MergeContainers(new_, containers[0]), rest, containerName, name);
        HasKeyMerged(new_.env, containers[0].env, name);
      } else {
        MergeManages(rest, new_, containerName, name);
        ManagesCons(containers[0], MergeIntoContainers(rest, new_), containerName, name);
      }
    }
  }

  // ----- Completing an environment

  function HumioVar(e: EnvVar): Container {
    Container(HUMIO_CONTAINER, NO_IMAGE, "", "", "", [e], "")
  }

  function HumioImage(image: Image): Container {
    Container(HUMIO_CONTAINER, image, "", "", "", [], "")
  }

  function InitImage(image: Image): Container {
    Container(INIT_CONTAINER, image, "", "", "", [], "")
  }

  /** The environment with every missing default appended. */
  function Completed(env: seq<EnvVar>, defaults: seq<EnvVar>): seq<EnvVar>
    decreases |defaults|
  {
    if defaults == [] then env
    else Completed(if HasKey(env, defaults[0].name) then env else env + [defaults[0]], defaults[1..])
  }

  /** The tracker after completing that environment. */
  function Tracked(managed: seq<Container>, env: seq<EnvVar>, defaults: seq<EnvVar>): seq<Container>
    decreases |defaults|
  {
    if defaults == [] then managed
    else if HasKey(env, defaults[0].name) then Tracked(managed, env, defaults[1..])
    else Tracked(MergeIntoContainers(managed, HumioVar(defaults[0])), env + [defaults[0]], defaults[1..])
  }

  lemma HasKeySnoc(env: seq<EnvVar>, d: EnvVar, name: string)
    ensures HasKey(env + [d], name) <==> HasKey(env, name) || d.name == name
  {
    if e :| e in env && e.name == name { assert e in env + [d]; }
    assert d in env + [d];
  }

  lemma HasKeyTail(defaults: seq<EnvVar>, name: string)
    requires defaults != []
    ensures HasKey(defaults, name) <==> defaults[0].name == name || HasKey(defaults[1..], name)
  {
    assert forall e :: e in defaults <==> e == defaults[0] || e in defaults[1..];
  }

  /** A variable ends up tracked exactly when it was before, or it has a default and the user did not set it. */
  lemma {:induction false} TrackedExactly(managed: seq<Container>, env: seq<EnvVar>, defaults: seq<EnvVar>, c: string,
                                          name: string)
    ensures ManagesVar(Tracked(managed, env, defaults), c, name) <==>
      ManagesVar(managed, c, name) || (c == HUMIO_CONTAINER && HasKey(defaults, name) && !HasKey(env, name))
    ensures ManagesImage(Tracked(managed, env, defaults), c) <==> ManagesImage(managed, c)
    decreases |defaults|
  {
    if defaults != [] {
      var d := defaults[0];
      HasKeyTail(defaults, name);
      if HasKey(env, d.name) {
        TrackedExactly(managed, env, defaults[1..], c, name);
      } else {
        var merged := MergeIntoContainers(managed, HumioVar(d));
        TrackedExactly(merged, env + [d], defaults[1..], c, name);
        MergeManages(managed, HumioVar(d), c, name);
        HasKeySnoc(env, d, name);
        assert HasKey(HumioVar(d).env, name) <==> d.name == name;
      }
    }
  }

  /** The completed environment holds the user's variables, and each default the user did not set. */
  lemma {:induction false} CompletedExactly(env: seq<EnvVar>, defaults: seq<EnvVar>, e: EnvVar)
    requires DistinctNames(defaults)
    ensures e in Completed(env, defaults) <==> e in env || (e in defaults && !HasKey(env, e.name))
    decreases |defaults|
  {
    if defaults != [] {
      var d, rest := defaults[0], defaults[1..];
      assert e in defaults <==> e == d || e in rest;
      assert DistinctNames(rest) by {
        forall i, j | 0 <= i < j < |rest| ensures rest[i].name != rest[j].name {
          assert defaults[i + 1].name != defaults[j + 1].name;
        }
      }
      assert e in rest ==> e.name != d.name by {
        if e in rest { var k :| 0 <= k < |rest| && rest[k] == e; assert defaults[0].name != defaults[k + 1].name; }
      }
      if HasKey(env, d.name) {
        CompletedExactly(env, rest, e);
      } else {
        CompletedExactly(env + [d], rest, e);
        HasKeySnoc(env, d, e.name);
        assert e in env ==> HasKey(env, e.name);
      }
    }
  }

  lemma {:induction false} CompletedDistinct(env: seq<EnvVar>, defaults: seq<EnvVar>)
    requires DistinctNames(env)
    ensures DistinctNames(Completed(env, defaults))
    decreases |defaults|
  {
    if defaults != [] {
      var d := defaults[0];
      if HasKey(env, d.name) {
        CompletedDistinct(env, defaults[1..]);
      } else {
        forall i | 0 <= i < |env| ensures env[i].name != d.name { assert env[i] in env; }
        CompletedDistinct(env + [d], defaults[1..]);
      }
    }
  }

  /** A node pool that remembers which fields of its pods are defaults. */
  class TrackedNodePool {
    const environmentVariables: seq<EnvVar>
    var managed: seq<Container>
    var managedInit: seq<Container>

    constructor (environmentVariables: seq<EnvVar>)
      ensures this.environmentVariables == environmentVariables && managed == [] && managedInit == []
    {
      this.environmentVariables := environmentVariables;
      managed, managedInit := [], [];
    }

    method AppendEnvVarToEnvVarsIfNotAlreadyPresent(envVars: seq<EnvVar>, defaultEnvVar: EnvVar)
        returns (r: seq<EnvVar>)
      modifies this`managed
      ensures r == Completed(envVars, [defaultEnvVar])
      ensures managed == Tracked(old(managed), envVars, [defaultEnvVar])
    {
      for k := 0 to |envVars|
        invariant !HasKey(envVars[..k], defaultEnvVar.name)
      {
        if envVars[k].name == defaultEnvVar.name {
          assert HasKey(envVars, defaultEnvVar.name);
          return envVars;
        }
        assert envVars[..k + 1] == envVars[..k] + [envVars[k]];
      }
      assert envVars[..|envVars|] == envVars;
      managed := MergeContainerIntoPod(managed, HumioVar(defaultEnvVar));
      return envVars + [defaultEnvVar];
    }

    method GetEnvironmentVariables(settings: EnvSettings) returns (envVars: seq<EnvVar>)
      modifies this`managed
      ensures envVars == Completed(environmentVariables, EnvDefaults(settings))
      ensures managed == Tracked(old(managed), environmentVariables, EnvDefaults(settings))
    {
      envVars := environmentVariables;
      var defaults := EnvDefaults(settings);
      for k := 0 to |defaults|
        invariant Completed(environmentVariables, defaults) == Completed(envVars, defaults[k..])
        invariant Tracked(old(managed), environmentVariables, defaults) == Tracked(managed, envVars, defaults[k..])
      {
        assert defaults[k..][0] == defaults[k] && defaults[k..][1..] == defaults[k + 1..];
        envVars := AppendEnvVarToEnvVarsIfNotAlreadyPresent(envVars, defaults[k]);
      }
    }

    /** The default image is used, and tracked, when the user set none. */
    method GetImage(userImage: Option<Image>, imageFromEnvVar: Option<Image>, managedDefault: Image)
        returns (image: Image)
      requires managedDefault.reference != ""
      modifies this`managed
      ensures image == if userImage.Some? then userImage.value
                       else if imageFromEnvVar.Some? then imageFromEnvVar.value else managedDefault
      ensures managed == if userImage.Some? || imageFromEnvVar.Some? then old(managed)
                         else MergeIntoContainers(old(managed), HumioImage(managedDefault))
    {
      match userImage {
        case Some(set_) => return set_;
        case None =>
      }
      match imageFromEnvVar {
        case Some(set_) => return set_;
        case None =>
      }
      managed := MergeContainerIntoPod(managed, HumioImage(managedDefault));
      return managedDefault;
    }

    /** The same for the image of the init container. */
    method GetHelperImage(userImage: Option<Image>, imageFromEnvVar: Option<Image>, managedDefault: Image)
        returns (image: Image)
      requires managedDefault.reference != ""
      modifies this`managedInit
      ensures image == if userImage.Some? then userImage.value
                       else if imageFromEnvVar.Some? then imageFromEnvVar.value else managedDefault
      ensures managedInit == if userImage.Some? || imageFromEnvVar.Some? then old(managedInit)
                             else MergeIntoContainers(old(managedInit), InitImage(managedDefault))
    {
      match userImage {
        case Some(set_) => return set_;
        case None =>
      }
      match imageFromEnvVar {
        case Some(set_) => return set_;
        case None =>
      }
      managedInit := MergeContainerIntoPod(managedInit, InitImage(managedDefault));
      return managedDefault;
    }
  }

  // ----- Operator upgrades

  /** Two operator versions offer defaults for the same variables, possibly with other values. */
  ghost predicate SameOffer(d1: seq<EnvVar>, d2: seq<EnvVar>) {
    |d1| == |d2| && forall i :: 0 <= i < |d1| ==> d1[i].name == d2[i].name && d1[i].valueFrom == d2[i].valueFrom
  }

  /** What the operator fills in: default variables, the image of the humio container and, unless the user sets it or
      disables the init container, the helper image. */
  datatype Defaults = Defaults(vars: seq<EnvVar>, image: Image, helper: Option<Image>)
  {
    ghost predicate Valid() {
      DistinctNames(vars) && image.reference != "" && (helper.Some? ==> helper.value.reference != "")
    }
  }

  /** The defaults of two versions differ in values and images only. */
  ghost predicate SameDefaults(d1: Defaults, d2: Defaults) {
    SameOffer(d1.vars, d2.vars) && (d1.helper.Some? <==> d2.helper.Some?)
  }

  function WithHelper(helper: Option<Image>): Container -> Container {
    (c: Container) => if helper.Some? && c.name == INIT_CONTAINER then c.(image := helper.value) else c
  }

  /** One operator version's pod: the user's variables completed with its defaults, then the fixed `extra` variables. */
  function Build(base: PodSpec, env: seq<EnvVar>, extra: seq<EnvVar>, d: Defaults): PodSpec
    requires base.containers != []
  {
    var humio := base.containers[0].(image := d.image, env := Completed(env, d.vars) + extra);
    base.(containers := base.containers[0 := humio],
          initContainers := Map(WithHelper(d.helper), base.initContainers))
  }

  /** What that version tracks when the user leaves the image to it. */
  function TrackerFor(env: seq<EnvVar>, d: Defaults): Tracker {
    Tracker(Tracked(MergeIntoContainers([], HumioImage(d.image)), env, d.vars),
            if d.helper.Some? then MergeIntoContainers([], InitImage(d.helper.value)) else [])
  }

  lemma SameOfferKeys(d1: seq<EnvVar>, d2: seq<EnvVar>, name: string)
    requires SameOffer(d1, d2)
    ensures HasKey(d1, name) <==> HasKey(d2, name)
  {
    if e :| e in d1 && e.name == name { var i :| 0 <= i < |d1| && d1[i] == e; assert d2[i] in d2; }
    if e :| e in d2 && e.name == name { var i :| 0 <= i < |d2| && d2[i] == e; assert d1[i] in d1; }
  }

  lemma TrackerForManages(env: seq<EnvVar>, d: Defaults, c: string, name: string)
    requires d.Valid()
    ensures var t := TrackerFor(env, d);
            && (ManagesVar(t.containers, c, name) <==>
                  c == HUMIO_CONTAINER && HasKey(d.vars, name) && !HasKey(env, name))
            && (ManagesImage(t.containers, c) <==> c == HUMIO_CONTAINER)
            && !ManagesVar(t.initContainers, c, name)
            && (ManagesImage(t.initContainers, c) <==> c == INIT_CONTAINER && d.helper.Some?)
  {
    var start := MergeIntoContainers([], HumioImage(d.image));
    TrackedExactly(start, env, d.vars, c, name);
    MergeManages([], HumioImage(d.image), c, name);
    if d.helper.Some? { MergeManages([], InitImage(d.helper.value), c, name); }
  }

  /** Every variable of one version's environment hashes like a variable of the other's. */
  lemma VarsCovered(pool: NodePool, env: seq<EnvVar>, extra: seq<EnvVar>, d1: Defaults, d2: Defaults, e: EnvVar)
    requires SameDefaults(d1, d2) && d1.Valid() && d2.Valid()
    requires e in Completed(env, d1.vars) + extra
    ensures var g := HashedVars(pool, TrackerFor(env, d1).containers, HUMIO_CONTAINER);
            g(e) in Map(g, Completed(env, d2.vars) + extra)
  {
    var g := HashedVars(pool, TrackerFor(env, d1).containers, HUMIO_CONTAINER);
    var target := Completed(env, d2.vars) + extra;
    MapMembers(g, target, g(e));
    CompletedExactly(env, d1.vars, e);
    if e in extra || e in env {
      CompletedExactly(env, d2.vars, e);
      assert e in target;
    } else {
      var i :| 0 <= i < |d1.vars| && d1.vars[i] == e;
      var e' := d2.vars[i];
      CompletedExactly(env, d2.vars, e');
      TrackerForManages(env, d1, HUMIO_CONTAINER, e.name);
      assert e' in target && g(e') == g(e);
    }
  }

  lemma SameTracking(env: seq<EnvVar>, d1: Defaults, d2: Defaults)
    requires SameDefaults(d1, d2) && d1.Valid() && d2.Valid()
    ensures SameManaged(TrackerFor(env, d1).containers, TrackerFor(env, d2).containers)
    ensures SameManaged(TrackerFor(env, d1).initContainers, TrackerFor(env, d2).initContainers)
  {
    var t1, t2 := TrackerFor(env, d1), TrackerFor(env, d2);
    forall c, v
      ensures ManagesVar(t1.containers, c, v) == ManagesVar(t2.containers, c, v)
      ensures ManagesImage(t1.containers, c) == ManagesImage(t2.containers, c)
      ensures ManagesVar(t1.initContainers, c, v) == ManagesVar(t2.initContainers, c, v)
      ensures ManagesImage(t1.initContainers, c) == ManagesImage(t2.initContainers, c)
    {
      SameOfferKeys(d1.vars, d2.vars, v);
      TrackerForManages(env, d1, c, v);
      TrackerForManages(env, d2, c, v);
    }
    forall c
      ensures ManagesImage(t1.containers, c) == ManagesImage(t2.containers, c)
      ensures ManagesImage(t1.initContainers, c) == ManagesImage(t2.initContainers, c)
    {
      TrackerForManages(env, d1, c, "");
      TrackerForManages(env, d2, c, "");
    }
  }

  lemma HashedVarsCovered(pool: NodePool, env: seq<EnvVar>, extra: seq<EnvVar>, d1: Defaults, d2: Defaults)
    requires SameDefaults(d1, d2) && d1.Valid() && d2.Valid()
    ensures var g := HashedVars(pool, TrackerFor(env, d1).containers, HUMIO_CONTAINER);
            forall v :: v in Map(g, Completed(env, d1.vars) + extra) ==> v in Map(g, Completed(env, d2.vars) + extra)
  {
    var g := HashedVars(pool, TrackerFor(env, d1).containers, HUMIO_CONTAINER);
    var x := Completed(env, d1.vars) + extra;
    forall v | v in Map(g, x) ensures v in Map(g, Completed(env, d2.vars) + extra) {
      MapMembers(g, x, v);
      var e :| e in x && g(e) == v;
      VarsCovered(pool, env, extra, d1, d2, e);
    }
  }

  lemma SameHashedVars(pool: NodePool, env: seq<EnvVar>, extra: seq<EnvVar>, d1: Defaults, d2: Defaults)
    requires SameDefaults(d1, d2) && d1.Valid() && d2.Valid()
    ensures SameVars(HashedVars(pool, TrackerFor(env, d1).containers, HUMIO_CONTAINER),
                     Completed(env, d1.vars) + extra, Completed(env, d2.vars) + extra)
  {
    hide TrackerFor, Completed, HashedVars, SameManaged;
    var m, n := TrackerFor(env, d1).containers, TrackerFor(env, d2).containers;
    var x, y := Completed(env, d1.vars) + extra, Completed(env, d2.vars) + extra;
    SameTracking(env, d1, d2);
    HashedVarsByNames(pool, m, n, HUMIO_CONTAINER, x);
    HashedVarsByNames(pool, m, n, HUMIO_CONTAINER, y);
    HashedVarsCovered(pool, env, extra, d1, d2);
    HashedVarsCovered(pool, env, extra, d2, d1);
  }

  /** An operator upgrade that only changes default values and default images changes no pod hash. */
  lemma UpgradeKeepsHash(pool: NodePool, base: PodSpec, env: seq<EnvVar>, extra: seq<EnvVar>, d1: Defaults,
                         d2: Defaults)
    requires base.containers != [] && base.containers[0].name == HUMIO_CONTAINER
    requires SameDefaults(d1, d2) && d1.Valid() && d2.Valid()
    requires DistinctVars(Build(base, env, extra, d1)) && DistinctVars(Build(base, env, extra, d2))
    ensures HashMinusManagedFields(pool, Build(base, env, extra, d1), TrackerFor(env, d1))
         == HashMinusManagedFields(pool, Build(base, env, extra, d2), TrackerFor(env, d2))
  {
    var a, b := Build(base, env, extra, d1), Build(base, env, extra, d2);
    var t1, t2 := TrackerFor(env, d1), TrackerFor(env, d2);
    SameTracking(env, d1, d2);
    BlankedByNames(t1, t2, Sanitized(pool, b));
    SameBuilds(pool, base, env, extra, d1, d2);
    HashDecides(pool, t1, a, b);
  }

  /** The pod of one operator version; `text` is how a digest is written into an annotation. */
  function Annotated(spec: PodSpec, annotations: map<string, string>, text: Digest -> string,
                     hash: Digest, managedHash: string): Pod {
    Pod("", annotations[POD_HASH := text(hash)][POD_OPERATOR_MANAGED_FIELDS_HASH := managedHash], false, spec,
        PodStatus(PhaseRunning, "", [], [], ClaimFine))
  }

  /** After such an upgrade no critical annotation of a running pod differs from the desired pod, so the pod restarts
      exactly when the default image changed, although that is a managed field. Another helper image restarts
      nothing. */
  lemma UpgradeRestartsForImageOnly(pool: NodePool, base: PodSpec, env: seq<EnvVar>, extra: seq<EnvVar>, d1: Defaults,
                                    d2: Defaults,
                                    annotations: map<string, string>, text: Digest -> string, m1: string, m2: string)
    requires base.containers != [] && base.containers[0].name == HUMIO_CONTAINER
    requires SameDefaults(d1, d2) && d1.Valid() && d2.Valid()
    requires DistinctVars(Build(base, env, extra, d1)) && DistinctVars(Build(base, env, extra, d2))
    ensures var a, b := Build(base, env, extra, d1), Build(base, env, extra, d2);
            var current := Annotated(a, annotations, text, HashMinusManagedFields(pool, a, TrackerFor(env, d1)), m1);
            var desired := Annotated(b, annotations, text, HashMinusManagedFields(pool, b, TrackerFor(env, d2)), m2);
            && HasHumioContainer(current.spec) && HasHumioContainer(desired.spec)
            && !CriticalAnnotationDiffers(current, desired)
            && (CriticallyMismatched(current, desired) <==> d1.image != d2.image)
  {
    UpgradeKeepsHash(pool, base, env, extra, d1, d2);
    var a, b := Build(base, env, extra, d1), Build(base, env, extra, d2);
    var hash := HashMinusManagedFields(pool, a, TrackerFor(env, d1));
    BuildsHumioContainer(base, env, extra, d1);
    BuildsHumioContainer(base, env, extra, d2);
    OnlyManagedHashDiffers(a, b, annotations, text, hash, m1, m2);
  }

  lemma BuildsHumioContainer(base: PodSpec, env: seq<EnvVar>, extra: seq<EnvVar>, d: Defaults)
    requires base.containers != [] && base.containers[0].name == HUMIO_CONTAINER
    ensures var spec := Build(base, env, extra, d);
            HasHumioContainer(spec) && FirstNamed(spec.containers, HUMIO_CONTAINER).image == d.image
  {
    var spec := Build(base, env, extra, d);
    assert spec.containers[0] in spec.containers && spec.containers[0].name == HUMIO_CONTAINER;
  }

  lemma OnlyManagedHashDiffers(a: PodSpec, b: PodSpec, annotations: map<string, string>,
                               text: Digest -> string, hash: Digest,
                               m1: string, m2: string)
    ensures !CriticalAnnotationDiffers(Annotated(a, annotations, text, hash, m1),
                                       Annotated(b, annotations, text, hash, m2))
  {
    assert forall c :: c in CRITICAL_ANNOTATIONS ==> c != POD_OPERATOR_MANAGED_FIELDS_HASH;
  }

  lemma SameBuilds(pool: NodePool, base: PodSpec, env: seq<EnvVar>, extra: seq<EnvVar>, d1: Defaults, d2: Defaults)
    requires base.containers != [] && base.containers[0].name == HUMIO_CONTAINER
    requires SameDefaults(d1, d2) && d1.Valid() && d2.Valid()
    ensures SameForHash(pool, TrackerFor(env, d1), Build(base, env, extra, d1), Build(base, env, extra, d2))
  {
    SameHashedVars(pool, env, extra, d1, d2);
    TrackerForManages(env, d1, HUMIO_CONTAINER, "");
    TrackerForManages(env, d1, INIT_CONTAINER, "");
    var c := base.containers[0];
    SameButImages(pool, TrackerFor(env, d1), base,
                  c.(image := d1.image, env := Completed(env, d1.vars) + extra),
                  c.(image := d2.image, env := Completed(env, d2.vars) + extra), d1.helper, d2.helper);
  }

  lemma SameButImages(pool: NodePool, t: Tracker, base: PodSpec, c1: Container, c2: Container,
                      helper1: Option<Image>, helper2: Option<Image>)
    requires base.containers != [] && SameButManaged(t.containers, HashedVars(pool, t.containers, c1.name), c1, c2)
    requires helper1.Some? <==> helper2.Some?
    requires helper1.Some? ==> ManagesImage(t.initContainers, INIT_CONTAINER)
    ensures SameForHash(pool, t,
      base.(containers := base.containers[0 := c1], initContainers := Map(WithHelper(helper1), base.initContainers)),
      base.(containers := base.containers[0 := c2], initContainers := Map(WithHelper(helper2), base.initContainers)))
  {
  }

  const POD_NAMES: seq<string> := ["THIS_POD_IP", "POD_NAME", "POD_NAMESPACE", "HUMIO_PORT", "ELASTIC_PORT"]

  const CLUSTER_NAMES: seq<string> := [
    "DEFAULT_DIGEST_REPLICATION_FACTOR", "DEFAULT_SEGMENT_REPLICATION_FACTOR", "INGEST_QUEUE_INITIAL_PARTITIONS",
    "HUMIO_LOG4J_CONFIGURATION", EXTERNAL_URL,
    "HUMIO_JVM_LOG_OPTS", "HUMIO_OPTS", "PUBLIC_URL"]

  function DefaultNames(rootPath: bool): seq<string> {
    POD_NAMES + CLUSTER_NAMES + if rootPath then [] else ["PROXY_PREFIX_URL"]
  }

  lemma DefaultNamesDistinct(rootPath: bool)
    ensures forall i, j :: 0 <= i < j < |DefaultNames(rootPath)| ==>
      DefaultNames(rootPath)[i] != DefaultNames(rootPath)[j]
  {
    var d := DefaultNames(rootPath);
    assert |d[0]| == 11 && |d[1]| == 8 && |d[2]| == 13 && |d[3]| == 10 && |d[4]| == 12;
    assert |d[5]| == 33 && |d[6]| == 34 && |d[7]| == 31 && |d[8]| == 25 && |d[9]| == 12;
    assert |d[10]| == 18 && |d[11]| == 10 && |d[12]| == 10 && (|d| > 13 ==> |d[13]| == 16);
    assert d[4][1] == 'L' && d[9][1] == 'X';
    assert d[3][6] == 'P' && d[11][6] == 'O' && d[12][6] == '_';
  }

  lemma PodByName()
    ensures |PodDefaults()| == |POD_NAMES| && forall i :: 0 <= i < |POD_NAMES| ==> PodDefaults()[i].name == POD_NAMES[i]
  {
  }

  lemma ClusterByName(s: EnvSettings)
    ensures |ClusterDefaults(s)| == |CLUSTER_NAMES|
    ensures forall i :: 0 <= i < |CLUSTER_NAMES| ==> ClusterDefaults(s)[i].name == CLUSTER_NAMES[i]
  {
  }

  lemma ClusterBySource(s: EnvSettings)
    ensures forall i :: 0 <= i < |ClusterDefaults(s)| ==> ClusterDefaults(s)[i].valueFrom == None
  {
  }

  /** Names and sources of the defaults depend on nothing but whether the path is the root. */
  lemma DefaultsByName(s: EnvSettings)
    ensures var names := DefaultNames(s.path == "/");
      |EnvDefaults(s)| == |names| && forall i :: 0 <= i < |names| ==> EnvDefaults(s)[i].name == names[i]
  {
    PodByName();
    ClusterByName(s);
  }

  lemma DefaultsBySource(s: EnvSettings)
    ensures forall i :: 0 <= i < |EnvDefaults(s)| ==>
      EnvDefaults(s)[i].valueFrom == if i < |PodDefaults()| then PodDefaults()[i].valueFrom else None
  {
    ClusterBySource(s);
  }

  /** The defaults of one operator version never name a variable twice. */
  lemma EnvDefaultsDistinct(s: EnvSettings)
    ensures DistinctNames(EnvDefaults(s))
  {
    DefaultsByName(s);
    DefaultNamesDistinct(s.path == "/");
  }

  /** Different settings offer the same variables, up to the path variable. */
  lemma EnvDefaultsSameOffer(s1: EnvSettings, s2: EnvSettings)
    ensures SameOffer(EnvDefaults(s1), EnvDefaults(s2)) <==> (s1.path == "/" <==> s2.path == "/")
  {
    DefaultsByName(s1); DefaultsByName(s2);
    DefaultsBySource(s1); DefaultsBySource(s2);
  }

  lemma DefaultAt(env: seq<EnvVar>, s: EnvSettings, i: nat, e: EnvVar)
    requires e in Completed(env, EnvDefaults(s)) && !HasKey(env, e.name)
    requires i < |EnvDefaults(s)| && e.name == EnvDefaults(s)[i].name
    ensures e == EnvDefaults(s)[i]
  {
    EnvDefaultsDistinct(s);
    CompletedExactly(env, EnvDefaults(s), e);
    assert e !in env;
    var k :| 0 <= k < |EnvDefaults(s)| && EnvDefaults(s)[k] == e;
    assert k == i;
  }

  /** The address at which other nodes reach a pod, unless the user set it: its name in the headless service, with the
      scheme that TLS asks for. */
  lemma ExternalAddress(env: seq<EnvVar>, s: EnvSettings, e: EnvVar)
    requires e in Completed(env, EnvDefaults(s)) && !HasKey(env, e.name) && e.name == "EXTERNAL_URL"
    ensures s.tlsEnabled ==>
      e.value == "https" + "://$(POD_NAME)." + s.clusterName + "-headless.$(POD_NAMESPACE):$(HUMIO_PORT)"
    ensures !s.tlsEnabled ==>
      e.value == "http" + "://$(POD_NAME)." + s.clusterName + "-headless.$(POD_NAMESPACE):$(HUMIO_PORT)"
  {
    assert EnvDefaults(s)[9] == ClusterDefaults(s)[4];
    DefaultAt(env, s, 9, e);
  }

  /** The address at which users reach the cluster, unless they set it: the ingress if there is one, always with https,
      and otherwise the pod, with the scheme that TLS asks for. A path other than the root is appended. */
  lemma PublicAddress(env: seq<EnvVar>, s: EnvSettings, e: EnvVar)
    requires e in Completed(env, EnvDefaults(s)) && !HasKey(env, e.name) && e.name == "PUBLIC_URL"
    ensures e == TextVar("PUBLIC_URL", e.value)
    ensures s.ingressEnabled ==> e.value == "https://" + s.hostname + if s.path == "/" then "" else s.path
    ensures !s.ingressEnabled && s.tlsEnabled ==>
      e.value == "https" + "://$(THIS_POD_IP):$(HUMIO_PORT)" + if s.path == "/" then "" else s.path
    ensures !s.ingressEnabled && !s.tlsEnabled ==>
      e.value == "http" + "://$(THIS_POD_IP):$(HUMIO_PORT)" + if s.path == "/" then "" else s.path
  {
    assert EnvDefaults(s)[12] == ClusterDefaults(s)[7] == PublicUrl(s);
    DefaultAt(env, s, 12, e) by { hide PublicUrl; }
  }

  // ----- Merging the common variables of a cluster into those of a pool

  function MergedEnvVars(from: seq<EnvVar>, into: seq<EnvVar>): seq<EnvVar> {
    if into == [] then from else Completed(into, from)
  }

  method MergeEnvVars(from: seq<EnvVar>, into: seq<EnvVar>) returns (r: seq<EnvVar>)
    ensures r == MergedEnvVars(from, into)
  {
    if |into| == 0 { return from; }
    r := into;
    for k := 0 to |from|
      invariant r != []
      invariant Completed(into, from) == Completed(r, from[k..])
    {
      var add := false;
      for j := 0 to |r|
        invariant !HasKey(r[..j], from[k].name) && (j > 0 ==> add)
      {
        if from[k].name == r[j].name {
          add := false;
          assert HasKey(r, from[k].name);
          break;
        }
        add := true;
        assert r[..j + 1] == r[..j] + [r[j]];
      }
      assert r[..|r|] == r;
      assert from[k..][0] == from[k] && from[k..][1..] == from[k + 1..];
      if add { r := r + [from[k]]; }
    }
  }

  /** The pool's own variable wins, and nothing is lost. */
  lemma MergedEnvVarsExactly(from: seq<EnvVar>, into: seq<EnvVar>, e: EnvVar)
    requires DistinctNames(from)
    ensures e in MergedEnvVars(from, into) <==> e in into || (e in from && !HasKey(into, e.name))
  {
    if into != [] { CompletedExactly(into, from, e); }
  }
}
