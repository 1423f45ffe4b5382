/** Pod hashes that leave out the fields which the operator manages. */
module PodHasher {
  import opened Kube
  import opened NodePools
  import opened Ordering
  import opened Seqs
  import opened PodSanitizer

  /** SHA-256 over the JSON text of a spec, taken as injective. */
  datatype Digest = Sha256(spec: PodSpec)

  /** The pod on which the operator records the defaults it filled in. */
  datatype Tracker = Tracker(containers: seq<Container>, initContainers: seq<Container>)

  predicate HasKey(env: seq<EnvVar>, name: string) {
    exists e :: e in env && e.name == name
  }

  predicate ManagesVar(managed: seq<Container>, containerName: string, varName: string) {
    exists c :: c in managed && c.name == containerName && HasKey(c.env, varName)
  }

  predicate ManagesImage(managed: seq<Container>, containerName: string) {
    exists c :: c in managed && c.name == containerName && c.image.reference != ""
  }

  function BlankVar(managed: seq<Container>, containerName: string, e: EnvVar): EnvVar {
    if ManagesVar(managed, containerName, e.name) then e.(value := "") else e
  }

  function BlankVars(managed: seq<Container>, containerName: string): (g: EnvVar -> EnvVar)
    ensures KeepsNames(g)
  {
    (e: EnvVar) => BlankVar(managed, containerName, e)
  }

  function BlankContainer(managed: seq<Container>, c: Container): Container {
    c.(image := if ManagesImage(managed, c.name) then NO_IMAGE else c.image,
       env := Map(BlankVars(managed, c.name), c.env))
  }

  function BlankContainers(managed: seq<Container>): Container -> Container {
    (c: Container) => BlankContainer(managed, c)
  }

  function Blanked(tracker: Tracker, spec: PodSpec): PodSpec {
    spec.(containers := Map(BlankContainers(tracker.containers), spec.containers),
          initContainers := Map(BlankContainers(tracker.initContainers), spec.initContainers))
  }

  function HashMinusManagedFields(pool: NodePool, spec: PodSpec, tracker: Tracker): Digest {
    Sha256(Blanked(tracker, Sanitized(pool, spec)))
  }

  // ----- Sorting commutes with rewritings that keep names

  lemma {:induction false} InsertCommutes(g: EnvVar -> EnvVar, x: EnvVar, s: seq<EnvVar>)
    requires KeepsNames(g)
    ensures Map(g, Insert(ByNameDescending(), x, s)) == Insert(ByNameDescending(), g(x), Map(g, s))
  {
    var less := ByNameDescending();
    if s == [] {
      assert Map(g, [x]) == [g(x)];
    } else {
      assert less(s[0], x) == less(g(s[0]), g(x));
      assert Map(g, s)[1..] == Map(g, s[1..]);
      if less(s[0], x) {
        InsertCommutes(g, x, s[1..]);
        assert Map(g, [s[0]] + Insert(less, x, s[1..])) == [g(s[0])] + Map(g, Insert(less, x, s[1..]));
      } else {
        assert Map(g, [x] + s) == [g(x)] + Map(g, s);
      }
    }
  }

  lemma {:induction false} SortCommutes(g: EnvVar -> EnvVar, s: seq<EnvVar>)
    requires KeepsNames(g)
    ensures Map(g, SortVars(s)) == SortVars(Map(g, s))
  {
    if s != [] {
      SortCommutes(g, s[1..]);
      InsertCommutes(g, s[0], SortVars(s[1..]));
      assert Map(g, s)[1..] == Map(g, s[1..]);
    }
  }

  // ----- What the hash depends on

  /** What is left of a variable of a main container in the hashed text. */
  function HashedVars(pool: NodePool, managed: seq<Container>, containerName: string): (g: EnvVar -> EnvVar)
    ensures KeepsNames(g)
  {
    (e: EnvVar) => BlankVar(managed, containerName, SanitizeVar(pool, containerName, e))
  }

  ghost predicate SameButManaged(managed: seq<Container>, g: EnvVar -> EnvVar, a: Container, b: Container) {
    && a.name == b.name && a.other == b.other
    && (a.image == b.image || ManagesImage(managed, a.name))
    && SameVars(g, a.env, b.env)
  }

  /** The specs agree on everything but noise, the values of managed variables and managed images. */
  ghost predicate SameForHash(pool: NodePool, t: Tracker, a: PodSpec, b: PodSpec) {
    && |a.containers| == |b.containers|
    && (forall i :: 0 <= i < |a.containers| ==>
          SameButManaged(t.containers, HashedVars(pool, t.containers, a.containers[i].name),
                         a.containers[i], b.containers[i]))
    && |a.initContainers| == |b.initContainers|
    && (forall i :: 0 <= i < |a.initContainers| ==>
          SameButManaged(t.initContainers, BlankVars(t.initContainers, a.initContainers[i].name),
                         a.initContainers[i], b.initContainers[i]))
    && |a.volumes| == |b.volumes|
    && (forall i :: 0 <= i < |a.volumes| ==> SameVolume(a.volumes[i], b.volumes[i]))
    && a.other == b.other
  }

  lemma HashedContainerEnv(pool: NodePool, managed: seq<Container>, c: Container)
    ensures BlankContainer(managed, SanitizeContainer(pool, c)).env
         == SortVars(Map(HashedVars(pool, managed, c.name), c.env))
    ensures BlankContainer(managed, SanitizeInitContainer(pool, c)).env
         == SortVars(Map(BlankVars(managed, c.name), c.env))
  {
    var g := BlankVars(managed, c.name);
    SortCommutes(g, Map(SanitizeVars(pool, c.name), c.env));
    SortCommutes(g, c.env);
    assert Map(g, Map(SanitizeVars(pool, c.name), c.env)) == Map(HashedVars(pool, managed, c.name), c.env);
  }

  lemma SameBlanked(managed: seq<Container>, a: Container, b: Container)
    requires a.imagePullPolicy == b.imagePullPolicy
    requires a.terminationMessagePath == b.terminationMessagePath
    requires a.terminationMessagePolicy == b.terminationMessagePolicy
    ensures BlankContainer(managed, a) == BlankContainer(managed, b) <==>
      && a.name == b.name && a.other == b.other
      && (a.image == b.image || ManagesImage(managed, a.name))
      && BlankContainer(managed, a).env == BlankContainer(managed, b).env
  {
    var x, y := BlankContainer(managed, a), BlankContainer(managed, b);
    assert x.name == a.name && y.name == b.name && x.other == a.other && y.other == b.other;
  }

  lemma HashedEnvDecides(pool: NodePool, managed: seq<Container>, a: Container, b: Container)
    requires DistinctNames(a.env) && DistinctNames(b.env) && a.name == b.name
    ensures BlankContainer(managed, SanitizeContainer(pool, a)).env
         == BlankContainer(managed, SanitizeContainer(pool, b)).env
       <==> SameVars(HashedVars(pool, managed, a.name), a.env, b.env)
  {
    HashedContainerEnv(pool, managed, a);
    HashedContainerEnv(pool, managed, b);
    CanonicalVars(HashedVars(pool, managed, a.name), a.env, b.env);
  }

  lemma HashedInitEnvDecides(pool: NodePool, managed: seq<Container>, a: Container, b: Container)
    requires DistinctNames(a.env) && DistinctNames(b.env) && a.name == b.name
    ensures BlankContainer(managed, SanitizeInitContainer(pool, a)).env
         == BlankContainer(managed, SanitizeInitContainer(pool, b)).env
       <==> SameVars(BlankVars(managed, a.name), a.env, b.env)
  {
    HashedContainerEnv(pool, managed, a);
    HashedContainerEnv(pool, managed, b);
    CanonicalVars(BlankVars(managed, a.name), a.env, b.env);
  }

  lemma HashedContainer(pool: NodePool, managed: seq<Container>, a: Container, b: Container)
    requires DistinctNames(a.env) && DistinctNames(b.env)
    ensures BlankContainer(managed, SanitizeContainer(pool, a)) == BlankContainer(managed, SanitizeContainer(pool, b))
       <==> SameButManaged(managed, HashedVars(pool, managed, a.name), a, b)
  {
    SameBlanked(managed, SanitizeContainer(pool, a), SanitizeContainer(pool, b));
    if a.name == b.name { HashedEnvDecides(pool, managed, a, b); }
  }

  lemma HashedInitContainer(pool: NodePool, managed: seq<Container>, a: Container, b: Container)
    requires DistinctNames(a.env) && DistinctNames(b.env)
    ensures BlankContainer(managed, SanitizeInitContainer(pool, a))
         == BlankContainer(managed, SanitizeInitContainer(pool, b))
       <==> SameButManaged(managed, BlankVars(managed, a.name), a, b)
  {
    SameBlanked(managed, SanitizeInitContainer(pool, a), SanitizeInitContainer(pool, b));
    if a.name == b.name { HashedInitEnvDecides(pool, managed, a, b); }
  }

  /** The hash says exactly whether two specs agree on what the operator does not manage. */
  lemma HashDecides(pool: NodePool, t: Tracker, a: PodSpec, b: PodSpec)
    requires DistinctVars(a) && DistinctVars(b)
    ensures HashMinusManagedFields(pool, a, t) == HashMinusManagedFields(pool, b, t) <==> SameForHash(pool, t, a, b)
  {
    var ha, hb := Blanked(t, Sanitized(pool, a)), Blanked(t, Sanitized(pool, b));
    forall i | 0 <= i < |a.containers| && i < |b.containers|
      ensures ha.containers[i] == hb.containers[i] <==>
        SameButManaged(t.containers, HashedVars(pool, t.containers, a.containers[i].name),
                       a.containers[i], b.containers[i])
    {
      HashedContainer(pool, t.containers, a.containers[i], b.containers[i]);
    }
    forall i | 0 <= i < |a.initContainers| && i < |b.initContainers|
      ensures ha.initContainers[i] == hb.initContainers[i] <==>
        SameButManaged(t.initContainers, BlankVars(t.initContainers, a.initContainers[i].name),
                       a.initContainers[i], b.initContainers[i])
    {
      HashedInitContainer(pool, t.initContainers, a.initContainers[i], b.initContainers[i]);
    }
    forall i | 0 <= i < |a.volumes| && i < |b.volumes|
      ensures ha.volumes[i] == hb.volumes[i] <==> SameVolume(a.volumes[i], b.volumes[i])
    {
      CanonicalVolume(pool, a.volumes[i], b.volumes[i]);
    }
    if SameForHash(pool, t, a, b) {
      assert ha.containers == hb.containers && ha.initContainers == hb.initContainers && ha.volumes == hb.volumes;
    }
    if ha == hb {
      assert |ha.containers| == |hb.containers| && |ha.initContainers| == |hb.initContainers|
          && |ha.volumes| == |hb.volumes|;
    }
  }

  /** A spec whose main container number `i` has another environment. */
  function WithEnv(spec: PodSpec, i: nat, env: seq<EnvVar>): PodSpec
    requires i < |spec.containers|
  {
    spec.(containers := spec.containers[i := spec.containers[i].(env := env)])
  }

  /** Losing or changing one variable that is not managed changes the hash; the humio container's EXTERNAL_URL, which is
      normalised, is the one exception. */
  lemma UnmanagedChangeChangesHash(pool: NodePool, t: Tracker, a: PodSpec, i: nat, env: seq<EnvVar>, x: EnvVar)
    requires i < |a.containers| && DistinctVars(a) && DistinctNames(env)
    requires x in a.containers[i].env && x !in env
    requires a.containers[i].name == HUMIO_CONTAINER ==> x.name != EXTERNAL_URL
    requires !ManagesVar(t.containers, a.containers[i].name, x.name)
    ensures HashMinusManagedFields(pool, a, t) != HashMinusManagedFields(pool, WithEnv(a, i, env), t)
  {
    var b := WithEnv(a, i, env);
    assert DistinctVars(b) by {
      forall c | c in b.containers ensures DistinctNames(c.env) {
        assert c == b.containers[i] || c in a.containers;
      }
    }
    HashDecides(pool, t, a, b);
    var g := HashedVars(pool, t.containers, a.containers[i].name);
    assert g(x) == x;
    forall e' | e' in env ensures g(e') != g(x) {
      assert g(e').name == e'.name;
      assert e'.name == x.name ==> g(e') == e';
    }
    MapMembers(g, a.containers[i].env, g(x));
    MapMembers(g, env, g(x));
    assert !SameButManaged(t.containers, g, a.containers[i], b.containers[i]);
  }

  function WithImage(spec: PodSpec, i: nat, image: Image): PodSpec
    requires i < |spec.containers|
  {
    spec.(containers := spec.containers[i := spec.containers[i].(image := image)])
  }

  /** Changing one main container matters exactly when that container matters. */
  lemma OneContainerDecides(pool: NodePool, t: Tracker, a: PodSpec, i: nat, c: Container)
    requires i < |a.containers|
    ensures SameForHash(pool, t, a, a.(containers := a.containers[i := c]))
       <==> SameButManaged(t.containers, HashedVars(pool, t.containers, a.containers[i].name), a.containers[i], c)
  {
    var b := a.(containers := a.containers[i := c]);
    assert b.containers[i] == c;
  }

  lemma ImageKeepsDistinctVars(a: PodSpec, i: nat, image: Image)
    requires i < |a.containers| && DistinctVars(a)
    ensures DistinctVars(WithImage(a, i, image))
  {
    var b := WithImage(a, i, image);
    forall c | c in b.containers ensures DistinctNames(c.env) {
      var k :| 0 <= k < |b.containers| && b.containers[k] == c;
      assert a.containers[k] in a.containers;
    }
  }

  /** Another image changes the hash exactly when the operator does not manage the image of the container. */
  lemma ImageChangeChangesHash(pool: NodePool, t: Tracker, a: PodSpec, i: nat, image: Image)
    requires i < |a.containers| && DistinctVars(a) && a.containers[i].image != image
    ensures HashMinusManagedFields(pool, a, t) != HashMinusManagedFields(pool, WithImage(a, i, image), t)
       <==> !ManagesImage(t.containers, a.containers[i].name)
  {
    ImageKeepsDistinctVars(a, i, image);
    OneContainerDecides(pool, t, a, i, a.containers[i].(image := image));
    HashDecides(pool, t, a, WithImage(a, i, image));
  }

  /** A user's own EXTERNAL_URL is normalised away: changing its value never changes the hash. */
  lemma ExternalUrlIsNotHashed(pool: NodePool, t: Tracker, a: PodSpec, i: nat, k: nat, value: string)
    requires i < |a.containers| && k < |a.containers[i].env|
    requires a.containers[i].name == HUMIO_CONTAINER && a.containers[i].env[k].name == EXTERNAL_URL
    ensures var env := a.containers[i].env;
            HashMinusManagedFields(pool, WithEnv(a, i, env[k := env[k].(value := value)]), t)
                 == HashMinusManagedFields(pool, a, t)
  {
    var env := a.containers[i].env;
    var b := WithEnv(a, i, env[k := env[k].(value := value)]);
    var g := SanitizeVars(pool, HUMIO_CONTAINER);
    assert Map(g, b.containers[i].env) == Map(g, env);
    assert Sanitized(pool, b).containers == Sanitized(pool, a).containers;
    assert Sanitized(pool, b) == Sanitized(pool, a);
  }

  /** What tells pods made from the same settings apart is not hashed: the hostname, the claim, the secrets. */
  lemma IdentityIsNotHashed(pool: NodePool, t: Tracker, a: PodSpec, hostname: string, volumes: seq<Volume>)
    requires |volumes| == |a.volumes| && forall i :: 0 <= i < |volumes| ==> SameVolume(a.volumes[i], volumes[i])
    ensures HashMinusManagedFields(pool, a.(hostname := hostname, volumes := volumes), t)
         == HashMinusManagedFields(pool, a, t)
  {
    var b := a.(hostname := hostname, volumes := volumes);
    forall i | 0 <= i < |volumes| ensures SanitizeVolume(pool, a.volumes[i]) == SanitizeVolume(pool, volumes[i]) {
      CanonicalVolume(pool, a.volumes[i], volumes[i]);
    }
    assert Sanitized(pool, b).volumes == Sanitized(pool, a).volumes;
    assert Sanitized(pool, b) == Sanitized(pool, a);
  }

  /** Only which names are tracked matters, not the values on the tracker. */
  lemma BlankedByNames(t: Tracker, u: Tracker, spec: PodSpec)
    requires SameManaged(t.containers, u.containers) && SameManaged(t.initContainers, u.initContainers)
    ensures Blanked(t, spec) == Blanked(u, spec)
  {
    BlankListByNames(t.containers, u.containers, spec.containers);
    BlankListByNames(t.initContainers, u.initContainers, spec.initContainers);
  }

  /** The two lists manage the same variables and images. */
  ghost predicate SameManaged(m: seq<Container>, n: seq<Container>) {
    && (forall c, v :: ManagesVar(m, c, v) == ManagesVar(n, c, v))
    && (forall c :: ManagesImage(m, c) == ManagesImage(n, c))
  }

  lemma HashedVarsByNames(pool: NodePool, m: seq<Container>, n: seq<Container>, containerName: string, env: seq<EnvVar>)
    requires SameManaged(m, n)
    ensures Map(HashedVars(pool, m, containerName), env) == Map(HashedVars(pool, n, containerName), env)
  {
  }

  lemma BlankListByNames(m: seq<Container>, n: seq<Container>, containers: seq<Container>)
    requires SameManaged(m, n)
    ensures Map(BlankContainers(m), containers) == Map(BlankContainers(n), containers)
  {
    forall i | 0 <= i < |containers| ensures BlankContainer(m, containers[i]) == BlankContainer(n, containers[i]) {
      var c := containers[i];
      assert Map(BlankVars(m, c.name), c.env) == Map(BlankVars(n, c.name), c.env);
    }
  }

  // ----- The algorithm: blanking by index on a copy

  method BlankEnv(env: seq<EnvVar>, managedEnv: seq<EnvVar>) returns (r: seq<EnvVar>)
    ensures |r| == |env|
    ensures forall k :: 0 <= k < |env| ==>
      r[k] == if HasKey(managedEnv, env[k].name) then env[k].(value := "") else env[k]
  {
    r := env;
    for m := 0 to |managedEnv|
      invariant |r| == |env|
      invariant forall k :: 0 <= k < |env| ==>
        r[k] == if HasKey(managedEnv[..m], env[k].name) then env[k].(value := "") else env[k]
    {
      assert managedEnv[..m + 1] == managedEnv[..m] + [managedEnv[m]];
      ghost var before := r;
      for envVarIdx := 0 to |r|
        invariant |r| == |env|
        invariant forall k :: envVarIdx <= k < |r| ==> r[k] == before[k]
        invariant forall k :: 0 <= k < envVarIdx ==>
          r[k] == if HasKey(managedEnv[..m + 1], env[k].name) then env[k].(value := "") else env[k]
      {
        if managedEnv[m].name == r[envVarIdx].name {
          r := r[envVarIdx := r[envVarIdx].(value := "")];
        }
        assert HasKey(managedEnv[..m + 1], env[envVarIdx].name)
          <==> HasKey(managedEnv[..m], env[envVarIdx].name) || managedEnv[m].name == env[envVarIdx].name;
      }
    }
    assert managedEnv[..|managedEnv|] == managedEnv;
  }

  lemma ManagesSnoc(managed: seq<Container>, mc: Container, c: string, v: string)
    ensures ManagesVar(managed + [mc], c, v) <==> ManagesVar(managed, c, v) || (mc.name == c && HasKey(mc.env, v))
    ensures ManagesImage(managed + [mc], c) <==> ManagesImage(managed, c) || (mc.name == c && mc.image.reference != "")
  {
    var all := managed + [mc];
    assert forall x :: x in all <==> x in managed || x == mc;
  }

  /** One managed container blanks its fields in one container of the copy. */
  method BlankOne(c: Container, mc: Container, ghost managed: seq<Container>, ghost was: Container)
      returns (r: Container)
    requires c == BlankContainer(managed, was)
    ensures r == BlankContainer(managed + [mc], was)
  {
    r := c;
    forall v ensures ManagesVar(managed + [mc], was.name, v)
      <==> ManagesVar(managed, was.name, v) || (mc.name == was.name && HasKey(mc.env, v))
    {
      ManagesSnoc(managed, mc, was.name, v);
    }
    ManagesSnoc(managed, mc, was.name, "");
    if r.name == mc.name {
      if mc.image.reference != "" { r := r.(image := NO_IMAGE); }
      var env := BlankEnv(r.env, mc.env);
      r := r.(env := env);
    }
    assert r.env == Map(BlankVars(managed + [mc], was.name), was.env);
  }

  method BlankManagedFields(containers: seq<Container>, managed: seq<Container>) returns (r: seq<Container>)
    ensures r == Map(BlankContainers(managed), containers)
  {
    r := containers;
    forall k | 0 <= k < |containers| ensures containers[k] == BlankContainer([], containers[k]) {
      assert Map(BlankVars([], containers[k].name), containers[k].env) == containers[k].env;
    }
    for m := 0 to |managed|
      invariant |r| == |containers|
      invariant forall k :: 0 <= k < |r| ==> r[k] == BlankContainer(managed[..m], containers[k])
    {
      assert managed[..m + 1] == managed[..m] + [managed[m]];
      for idx := 0 to |r|
        invariant |r| == |containers|
        invariant forall k :: 0 <= k < idx ==> r[k] == BlankContainer(managed[..m + 1], containers[k])
        invariant forall k :: idx <= k < |r| ==> r[k] == BlankContainer(managed[..m], containers[k])
      {
        var c := BlankOne(r[idx], managed[m], managed[..m], containers[idx]);
        r := r[idx := c];
      }
    }
    assert managed[..|managed|] == managed;
  }

  /** `sanitized` is a pod that went through the sanitizer already. */
  method PodHashMinusManagedFields(sanitized: PodSpec, tracker: Tracker) returns (digest: Digest)
    ensures digest == Sha256(Blanked(tracker, sanitized))
  {
    var containers := BlankManagedFields(sanitized.containers, tracker.containers);
    var initContainers := BlankManagedFields(sanitized.initContainers, tracker.initContainers);
    digest := Sha256(sanitized.(containers := containers, initContainers := initContainers));
  }
}
