/** Creating missing pods: handing out volume claims and certificate names. */
module PodCreation {
  import opened Kube
  import opened NodePools
  import opened Ordering
  import opened Decimal
  import opened Seqs
  import opened PodSanitizer
  import opened PodHasher
  import opened PodComparisons
  import opened PodsStatuses
  import opened PodLifecycles
  import opened Maintenance
  import opened NodeCertificates

  // ----- Claims

  datatype Claim = Claim(name: string, bound: bool)

  /** The claim names a pod holds through its data volume. */
  function ClaimNames(p: Pod): set<string> {
    set v | v in p.spec.volumes && v.name == HUMIO_DATA_VOLUME && v.source.PersistentVolumeClaim? :: v.source.claimName
  }

  function AllClaimNames(pods: seq<Pod>): set<string> { set p, n | p in pods && n in ClaimNames(p) :: n }

  /** Bound claims first, then by name. */
  predicate ClaimBefore(x: Claim, y: Claim) {
    if x.bound && !y.bound then true
    else if !x.bound && y.bound then false
    else StrLess(x.name, y.name)
  }

  function ClaimLess(): (Claim, Claim) -> bool { (x: Claim, y: Claim) => ClaimBefore(x, y) }

  lemma ClaimOrder()
    ensures WeakOrder(ClaimLess())
  {
    forall x: Claim ensures !ClaimBefore(x, x) { StrLessIrreflexive(x.name); }
    forall x: Claim, y: Claim, z: Claim | ClaimBefore(x, y) && ClaimBefore(y, z) ensures ClaimBefore(x, z) {
      if x.bound == y.bound && y.bound == z.bound { StrLessTransitive(x.name, y.name, z.name); }
    }
    forall x: Claim, y: Claim, z: Claim | !ClaimBefore(x, y) && !ClaimBefore(y, z) ensures !ClaimBefore(x, z) {
      if x.bound == y.bound && y.bound == z.bound { NotLessTransitive(x.name, y.name, z.name); }
    }
  }

  function NextClaim(claims: seq<Claim>, used: set<string>): Option<string> {
    if claims == [] then None
    else if claims[0].name !in used then Some(claims[0].name)
    else NextClaim(claims[1..], used)
  }

  ghost predicate DistinctClaims(claims: seq<Claim>) {
    forall i, j :: 0 <= i < j < |claims| ==> claims[i].name != claims[j].name
  }

  lemma {:induction false} NextClaimFirst(claims: seq<Claim>, used: set<string>)
    ensures NextClaim(claims, used).None? <==> forall c :: c in claims ==> c.name in used
    ensures NextClaim(claims, used).Some? ==>
      exists i :: 0 <= i < |claims| && NextClaim(claims, used) == Some(claims[i].name) && claims[i].name !in used
               && forall k :: 0 <= k < i ==> claims[k].name in used
  {
    if claims != [] {
      NextClaimFirst(claims[1..], used);
      assert claims == [claims[0]] + claims[1..];
      if claims[0].name in used && NextClaim(claims[1..], used).Some? {
        var i :| 0 <= i < |claims[1..]| && NextClaim(claims[1..], used) == Some(claims[1..][i].name)
                  && claims[1..][i].name !in used
                 && forall k :: 0 <= k < i ==> claims[1..][k].name in used;
        assert claims[i + 1] == claims[1..][i];
        forall k | 0 <= k < i + 1 ensures claims[k].name in used {
          if k > 0 { assert claims[k] == claims[1..][k - 1]; }
        }
      }
    }
  }

  ghost predicate FirstUnused(claims: seq<Claim>, used: set<string>, i: nat) {
    i < |claims| && claims[i].name !in used && forall k :: 0 <= k < i ==> claims[k].name in used
  }

  lemma FirstUnusedIsLeast(sorted: seq<Claim>, used: set<string>, i: nat, other: Claim)
    requires Sorted(ClaimLess(), sorted) && DistinctClaims(sorted) && FirstUnused(sorted, used, i)
    requires other in sorted && other.name !in used && other != sorted[i]
    ensures ClaimBefore(sorted[i], other)
  {
    var j :| 0 <= j < |sorted| && sorted[j] == other;
    assert i < j && !ClaimLess()(other, sorted[i]);
    StrLessTotal(sorted[i].name, other.name);
  }

  lemma SortedClaims(listed: seq<Claim>)
    requires DistinctClaims(listed)
    ensures var sorted := Sort(ClaimLess(), listed);
      Sorted(ClaimLess(), sorted) && DistinctClaims(sorted) && forall c :: c in sorted <==> c in listed
  {
    ClaimOrder();
    SortSorts(ClaimLess(), listed);
    SortMembers(ClaimLess(), listed);
    SortPermutes(ClaimLess(), listed);
    DistinctPermutation(listed, Sort(ClaimLess(), listed));
    var sorted := Sort(ClaimLess(), listed);
    forall i, j | 0 <= i < j < |sorted| ensures sorted[i].name != sorted[j].name {
      DistinctNames(listed, sorted[i], sorted[j]);
    }
  }

  /** The allocated claim is listed, unused, and before every other unused claim in the order; allocation fails exactly
      when every listed claim is in use. */
  lemma LeastUnusedClaim(listed: seq<Claim>, used: set<string>)
    requires DistinctClaims(listed)
    ensures var r := NextClaim(Sort(ClaimLess(), listed), used);
      && (r.None? <==> forall c :: c in listed ==> c.name in used)
      && (r.Some? ==> exists c :: c in listed && c.name == r.value && c.name !in used
                               && forall other :: other in listed && other.name !in used && other != c ==>
                                    ClaimBefore(c, other))
  {
    var sorted := Sort(ClaimLess(), listed);
    SortedClaims(listed);
    NextClaimFirst(sorted, used);
    if NextClaim(sorted, used).Some? {
      var i :| 0 <= i < |sorted| && NextClaim(sorted, used) == Some(sorted[i].name) && sorted[i].name !in used
               && forall k :: 0 <= k < i ==> sorted[k].name in used;
      assert sorted[i] in sorted;
      forall other | other in listed && other.name !in used && other != sorted[i]
        ensures ClaimBefore(sorted[i], other)
      {
        FirstUnusedIsLeast(sorted, used, i, other);
      }
    }
  }

  lemma DistinctNames(listed: seq<Claim>, c: Claim, d: Claim)
    requires DistinctClaims(listed) && c in listed && d in listed && c != d
    ensures c.name != d.name
  {
    var i :| 0 <= i < |listed| && listed[i] == c;
    var j :| 0 <= j < |listed| && listed[j] == d;
  }

  /** The set of claim names in use that one creation pass shares between its pods. */
  class ClaimNamesInUse {
    var names: set<string>

    constructor ()
      ensures names == {}
    {
      names := {};
    }

    method Add(name: string)
      modifies this
      ensures names == old(names) + {name}
    {
      names := names + {name};
    }
  }

  method RecordClaims(podList: seq<Pod>, pvcClaimNamesInUse: ClaimNamesInUse)
    modifies pvcClaimNamesInUse
    ensures pvcClaimNamesInUse.names == old(pvcClaimNamesInUse.names) + AllClaimNames(podList)
  {
    for i := 0 to |podList|
      invariant pvcClaimNamesInUse.names == old(pvcClaimNamesInUse.names) + AllClaimNames(podList[..i])
    {
      var pod := podList[i];
      assert podList[..i + 1] == podList[..i] + [pod];
      RecordPodClaims(pod, pvcClaimNamesInUse);
      assert AllClaimNames(podList[..i + 1]) == AllClaimNames(podList[..i]) + ClaimNames(pod);
    }
    assert podList[..|podList|] == podList;
  }

  method RecordPodClaims(pod: Pod, pvcClaimNamesInUse: ClaimNamesInUse)
    modifies pvcClaimNamesInUse
    ensures pvcClaimNamesInUse.names == old(pvcClaimNamesInUse.names) + ClaimNames(pod)
  {
    var volumes := pod.spec.volumes;
    ghost var before := pvcClaimNamesInUse.names;
    for j := 0 to |volumes|
      invariant forall n :: n in pvcClaimNamesInUse.names ==> n in before || n in ClaimNames(pod)
      invariant before <= pvcClaimNamesInUse.names
      invariant forall v :: v in volumes[..j] && v.name == HUMIO_DATA_VOLUME && v.source.PersistentVolumeClaim?
                  ==> v.source.claimName in pvcClaimNamesInUse.names
    {
      assert volumes[..j + 1] == volumes[..j] + [volumes[j]];
      if volumes[j].name == HUMIO_DATA_VOLUME {
        if !volumes[j].source.PersistentVolumeClaim? { continue; }
        pvcClaimNamesInUse.Add(volumes[j].source.claimName);
      }
    }
    assert volumes[..|volumes|] == volumes;
  }

  method SortClaims(pvcList: array<Claim>)
    modifies pvcList
    ensures pvcList[..] == Sort(ClaimLess(), old(pvcList[..]))
  {
    var sorted := Sort(ClaimLess(), pvcList[..]);
    SortPermutes(ClaimLess(), pvcList[..]);
    forall i | 0 <= i < pvcList.Length { pvcList[i] := sorted[i]; }
  }

  /** The claim to hand out: unused, bound if any unused claim is bound, and first by name among those bound like it. */
  ghost predicate BestUnused(listed: seq<Claim>, used: set<string>, name: string) {
    exists c :: c in listed && c.name == name && c.name !in used
      && (c.bound <==> exists other :: other in listed && other.name !in used && other.bound)
      && forall other :: other in listed && other.name !in used && other != c && other.bound == c.bound ==>
           StrLess(c.name, other.name)
  }

  lemma LeastIsBest(listed: seq<Claim>, used: set<string>)
    requires DistinctClaims(listed) && NextClaim(Sort(ClaimLess(), listed), used).Some?
    ensures BestUnused(listed, used, NextClaim(Sort(ClaimLess(), listed), used).value)
  {
    LeastUnusedClaim(listed, used);
    var r := NextClaim(Sort(ClaimLess(), listed), used).value;
    var c :| c in listed && c.name == r && c.name !in used
      && forall other :: other in listed && other.name !in used && other != c ==> ClaimBefore(c, other);
    assert !c.bound ==> forall other :: other in listed && other.name !in used ==> !other.bound;
  }

  /** Marks the claims of the listed pods as used, sorts the claims in place, and returns the first unused one. */
  method FindNextAvailablePvc(pvcList: array<Claim>, podList: seq<Pod>, pvcClaimNamesInUse: ClaimNamesInUse)
      returns (r: Option<string>)
    modifies pvcList, pvcClaimNamesInUse
    ensures pvcClaimNamesInUse.names == old(pvcClaimNamesInUse.names) + AllClaimNames(podList)
    ensures pvcList[..] == Sort(ClaimLess(), old(pvcList[..]))
    ensures r == NextClaim(pvcList[..], pvcClaimNamesInUse.names)
    ensures DistinctClaims(old(pvcList[..])) ==>
      && (r.None? <==> forall c :: c in old(pvcList[..]) ==> c.name in pvcClaimNamesInUse.names)
      && (r.Some? ==> BestUnused(old(pvcList[..]), pvcClaimNamesInUse.names, r.value))
  {
    RecordClaims(podList, pvcClaimNamesInUse);
    ghost var listed := pvcList[..];
    SortClaims(pvcList);
    if DistinctClaims(listed) {
      LeastUnusedClaim(listed, pvcClaimNamesInUse.names);
      if NextClaim(pvcList[..], pvcClaimNamesInUse.names).Some? { LeastIsBest(listed, pvcClaimNamesInUse.names); }
    }
    ghost var all := pvcList[..];
    for k := 0 to pvcList.Length
      invariant pvcList[..] == all
      invariant NextClaim(all, pvcClaimNamesInUse.names) == NextClaim(all[k..], pvcClaimNamesInUse.names)
    {
      assert all[k..][0] == pvcList[k] && all[k..][1..] == all[k + 1..];
      if pvcList[k].name !in pvcClaimNamesInUse.names { return Some(pvcList[k].name); }
    }
    return None;
  }

  /** The claim of a pod in the listing: the first listed claim that its data volume names. */
  method FindPvcForPod(pvcList: seq<Claim>, pod: Pod) returns (r: Option<Claim>)
    ensures r.Some? ==> r.value in pvcList && r.value.name in ClaimNames(pod)
    ensures r.None? ==> forall c :: c in pvcList ==> c.name !in ClaimNames(pod)
  {
    for i := 0 to |pvcList|
      invariant forall k :: 0 <= k < i ==> pvcList[k].name !in ClaimNames(pod)
    {
      var volumes := pod.spec.volumes;
      for j := 0 to |volumes|
        invariant forall k ::
          0 <= k < j && volumes[k].name == HUMIO_DATA_VOLUME && volumes[k].source.PersistentVolumeClaim? ==>
          volumes[k].source.claimName != pvcList[i].name
      {
        if volumes[j].name == HUMIO_DATA_VOLUME {
          if !volumes[j].source.PersistentVolumeClaim? { continue; }
          if volumes[j].source.claimName == pvcList[i].name {
            assert volumes[j] in volumes;
            return Some(pvcList[i]);
          }
        }
      }
    }
    return None;
  }

  // ----- Certificates

  /** Free to be used: it holds a JKS keystore and no pod, existing or just created, has its name. */
  predicate FreeCertificate(c: Certificate, created: set<string>, existing: set<string>) {
    c.name !in created && c.keystore.JksKeystore? && c.name !in existing
  }

  datatype NameAndHash = NameAndHash(podName: string, certificateHash: string)

  datatype Found<T> = Found(value: T) | NoneFree | CallFailed

  function PodNames(pods: seq<Pod>): set<string> { set p | p in pods :: p.name }

  /** The first free certificate; the calls that look for a pod of its name may fail. */
  method FindHumioNodeNameAndCertHash(certificates: seq<Certificate>, newlyCreatedPods: seq<Pod>, existing: set<string>)
      returns (r: Found<NameAndHash>)
    ensures r.Found? ==> exists k ::
      && 0 <= k < |certificates|
      && r.value == NameAndHash(certificates[k].name, certificates[k].hash)
      && FreeCertificate(certificates[k], PodNames(newlyCreatedPods), existing)
      && forall i :: 0 <= i < k ==> !FreeCertificate(certificates[i], PodNames(newlyCreatedPods), existing)
    ensures r.NoneFree? ==> forall c :: c in certificates ==> !FreeCertificate(c, PodNames(newlyCreatedPods), existing)
  {
    for k := 0 to |certificates|
      invariant forall i :: 0 <= i < k ==> !FreeCertificate(certificates[i], PodNames(newlyCreatedPods), existing)
    {
      var certificate := certificates[k];
      var certificateUsedByNewlyCreatedPods := false;
      for j := 0 to |newlyCreatedPods|
        invariant certificateUsedByNewlyCreatedPods <==>
          exists i :: 0 <= i < j && newlyCreatedPods[i].name == certificate.name
      {
        if certificate.name == newlyCreatedPods[j].name { certificateUsedByNewlyCreatedPods := true; }
      }
      if certificateUsedByNewlyCreatedPods {
        var i :| 0 <= i < |newlyCreatedPods| && newlyCreatedPods[i].name == certificate.name;
        assert newlyCreatedPods[i] in newlyCreatedPods;
        continue;
      }
      if certificate.keystore.NoKeystore? { continue; }
      if certificate.keystore.OtherKeystore? { continue; }
      if * { return CallFailed; }
      if certificate.name !in existing {
        return Found(NameAndHash(certificate.name, certificate.hash));
      }
    }
    return NoneFree;
  }

  // ----- One creation pass

  /** A volume of a pod to come: most are the same in every pod, the others carry what is its own. */
  datatype VolumePlan = Fixed(volume: Volume) | DataVolume | InitSecretVolume | TlsVolume

  lemma ObsoleteByCertificate(desired: Pod, p: Pod, differs: bool)
    requires Comparable(p, desired) && !ImageDiffers(p, desired)
    requires forall a :: Differs(p, desired)(a) <==> a == CERTIFICATE_HASH && differs
    ensures Obsolete(desired, p) <==> differs
  {
    assert CRITICAL_ANNOTATIONS[5] == CERTIFICATE_HASH;
    assert Differs(p, desired)(CERTIFICATE_HASH) <==> differs;
  }

  /** What pods are made from: the pool, its data volume source when it has no claims of its own, whether pods take
      certificate names and which hash the certificates should have, the secret of the init container, the fields that
      the operator manages, how a digest is written into an annotation, the volumes, and all the rest of the pod. */
  datatype Blueprint = Blueprint(
    pool: NodePool,
    dataVolumeSource: VolumeSource,
    tls: bool,
    certificateHash: string,
    initSecret: string,
    tracker: Tracker,
    hashText: Digest -> string,
    volumes: seq<VolumePlan>,
    template: Pod)
  {
    ghost predicate Valid() {
      && HasHumioContainer(template.spec)
      && !template.deleting && template.spec.nodeName == "" && template.status.conditions == []
      && (forall d :: hashText(d) != "")
      && DataVolume in volumes && forall v :: Fixed(v) in volumes ==> v.name != HUMIO_DATA_VOLUME
    }

    function Fill(name: string, source: VolumeSource, initSecret: string): VolumePlan -> Volume {
      (v: VolumePlan) =>
        match v
        case Fixed(volume) => volume
        case DataVolume => Volume(HUMIO_DATA_VOLUME, source)
        case InitSecretVolume => Volume(INIT_SECRET_VOLUME, Secret(initSecret, DEFAULT_MODE))
        case TlsVolume => Volume(TLS_CERT_VOLUME, Secret(name, DEFAULT_MODE))
    }

    function Spec(name: string, source: VolumeSource, initSecret: string): PodSpec {
      template.spec.(hostname := name, volumes := Map(Fill(name, source, initSecret), volumes))
    }

    function Hash(spec: PodSpec): string { hashText(HashMinusManagedFields(pool, spec, tracker)) }

    /** A pod of the given name, with the hash of what it is made of. */
    function ConstructPod(name: string, source: VolumeSource, initSecret: string): Pod {
      var spec := Spec(name, source, initSecret);
      var annotations := template.annotations[POD_HASH := Hash(spec)][POD_REVISION := Itoa(pool.desiredPodRevision)];
      template.(
        name := name,
        spec := spec,
        annotations := if tls then annotations[CERTIFICATE_HASH := certificateHash] else annotations)
    }

    /** The nameless pod that running pods are compared with. */
    function DesiredPod(): Pod {
      ConstructPod("", if pool.pvcsEnabled then pool.DataVolumeTemplate("") else NoSource, "")
    }

    /** The pod as it is created: with TLS it has the hash of the certificate it takes. */
    function MakePod(id: NameAndHash, source: VolumeSource): Pod {
      var p := ConstructPod(id.podName, source, initSecret);
      if tls then p.(annotations := p.annotations[CERTIFICATE_HASH := id.certificateHash]) else p
    }

    /** Made from this blueprint, under some certificate and with some data volume. */
    ghost predicate Makes(p: Pod) {
      exists certificateHash, source :: p == MakePod(NameAndHash(p.name, certificateHash), source)
    }

    /** Pods of all names, claims and secrets hash alike. */
    lemma PodsHashAlike(name: string, source: VolumeSource, secret: string, name': string, source': VolumeSource,
                        secret': string)
      ensures Hash(Spec(name, source, secret)) == Hash(Spec(name', source', secret'))
    {
      var a, b := Spec(name, source, secret), Spec(name', source', secret');
      IdentityIsNotHashed(pool, tracker, a, name', b.volumes);
      assert a.(hostname := name', volumes := b.volumes) == b;
    }

    lemma MadePod(id: NameAndHash, source: VolumeSource)
      requires Valid()
      ensures FreshPod(pool, MakePod(id, source)) && MakePod(id, source).name == id.podName
      ensures ClaimNames(MakePod(id, source)) == if source.PersistentVolumeClaim? then {source.claimName} else {}
      ensures Makes(MakePod(id, source))
    {
      var p := MakePod(id, source);
      assert p.spec.containers == template.spec.containers;
      MadeClaims(id, source);
      assert CERTIFICATE_HASH != POD_HASH && CERTIFICATE_HASH != POD_REVISION && POD_HASH != POD_REVISION;
      assert id == NameAndHash(p.name, id.certificateHash);
    }

    lemma MadeClaims(id: NameAndHash, source: VolumeSource)
      requires Valid()
      ensures ClaimNames(MakePod(id, source)) == if source.PersistentVolumeClaim? then {source.claimName} else {}
    {
      var filled := Map(Fill(id.podName, source, initSecret), volumes);
      assert MakePod(id, source).spec.volumes == filled;
      MapMembers(Fill(id.podName, source, initSecret), volumes, Volume(HUMIO_DATA_VOLUME, source));
      forall v | v in filled && v.name == HUMIO_DATA_VOLUME ensures v.source == source {
        MapMembers(Fill(id.podName, source, initSecret), volumes, v);
      }
    }

    lemma MadeSameContainers(id: NameAndHash, source: VolumeSource)
      requires HasHumioContainer(template.spec)
      ensures Comparable(MakePod(id, source), DesiredPod()) && !ImageDiffers(MakePod(id, source), DesiredPod())
    {
      var p, desired := MakePod(id, source), DesiredPod();
      assert p.spec.containers == desired.spec.containers;
      assert HumioContainer(p) == HumioContainer(desired);
    }

    lemma MadeAnnotations(id: NameAndHash, source: VolumeSource, annotation: string)
      ensures Differs(MakePod(id, source), DesiredPod())(annotation) <==>
        tls && annotation == CERTIFICATE_HASH && id.certificateHash != certificateHash
    {
      PodsHashAlike(id.podName, source, initSecret, "",
                    if pool.pvcsEnabled then pool.DataVolumeTemplate("") else NoSource, "");
    }

    /** A new pod needs a restart right away exactly when the certificate it took has another hash than the desired one:
        in all else it is like the desired pod, name, claim and secrets notwithstanding. */
    lemma MadeObsoleteExactly(id: NameAndHash, source: VolumeSource)
      requires HasHumioContainer(template.spec)
      ensures Obsolete(DesiredPod(), MakePod(id, source)) <==> tls && id.certificateHash != certificateHash
    {
      var p, desired := MakePod(id, source), DesiredPod();
      MadeSameContainers(id, source);
      forall a
        ensures Differs(p, desired)(a) <==> tls && a == CERTIFICATE_HASH && id.certificateHash != certificateHash
      {
        MadeAnnotations(id, source, a);
      }
      ObsoleteByCertificate(desired, p, tls && id.certificateHash != certificateHash);
    }

    /** A pod made under a certificate that is up to date is not obsolete. */
    lemma MadeUpToDate(p: Pod)
      requires HasHumioContainer(template.spec) && Makes(p)
      requires tls ==> Lookup(p.annotations, CERTIFICATE_HASH) == certificateHash
      ensures !Obsolete(DesiredPod(), p)
    {
      var hash, source :| p == MakePod(NameAndHash(p.name, hash), source);
      MadeObsoleteExactly(NameAndHash(p.name, hash), source);
    }
  }

  /** The same blueprint for a pool in another state, or with another zone pinned. */
  function ForStatus(b: Blueprint, state: State, zone: string): Blueprint {
    b.(pool := b.pool.(state := state, zoneUnderMaintenance := zone))
  }

  lemma SanitizedForStatus(b: Blueprint, state: State, zone: string, spec: PodSpec)
    ensures Sanitized(ForStatus(b, state, zone).pool, spec) == Sanitized(b.pool, spec)
  {
    var pool := ForStatus(b, state, zone).pool;
    var r, s := Sanitized(pool, spec), Sanitized(b.pool, spec);
    forall c: Container ensures Map(SanitizeVars(pool, c.name), c.env) == Map(SanitizeVars(b.pool, c.name), c.env) {}
    assert r.containers == s.containers && r.initContainers == s.initContainers && r.volumes == s.volumes;
  }

  /** The desired pod does not depend on how far maintenance has got. */
  lemma DesiredPodForStatus(b: Blueprint, state: State, zone: string)
    ensures ForStatus(b, state, zone).DesiredPod() == b.DesiredPod()
  {
    var source := if b.pool.pvcsEnabled then b.pool.DataVolumeTemplate("") else NoSource;
    assert Map(ForStatus(b, state, zone).Fill("", source, ""), b.volumes) == Map(b.Fill("", source, ""), b.volumes);
    SanitizedForStatus(b, state, zone, b.Spec("", source, ""));
  }

  /** No two pods of the list hold the same claim. */
  ghost predicate ClaimsApart(pods: seq<Pod>) {
    forall i, j :: 0 <= i < j < |pods| ==> ClaimNames(pods[i]) !! ClaimNames(pods[j])
  }

  /** The new pods hold claims of their own: one each, shared with no pod of the list. */
  ghost predicate OwnClaims(pods: seq<Pod>, from: nat)
    requires from <= |pods|
  {
    forall i, j :: 0 <= i < j < |pods| && from <= j ==> ClaimNames(pods[i]) !! ClaimNames(pods[j])
  }

  /** The pod carries the name and the hash of a certificate with a JKS keystore. */
  predicate Named(p: Pod, certificates: seq<Certificate>) {
    exists c :: c in certificates && c.keystore.JksKeystore? && p.name == c.name
              && Lookup(p.annotations, CERTIFICATE_HASH) == c.hash
  }

  /** A new pod is fresh, made from the blueprint and, with TLS, under one of the certificates. */
  ghost predicate MadeWell(b: Blueprint, certificates: seq<Certificate>, p: Pod) {
    FreshPod(b.pool, p) && b.Makes(p) && (b.tls ==> Named(p, certificates))
  }

  lemma NothingOwned(pods: seq<Pod>)
    ensures OwnClaims(pods, |pods|)
  {
  }

  /** A pod of a blueprint with TLS is named after the certificate it takes. */
  lemma MadeIsNamed(b: Blueprint, id: NameAndHash, source: VolumeSource, certificates: seq<Certificate>)
    requires b.tls && exists c :: c in certificates && c.keystore.JksKeystore? && id == NameAndHash(c.name, c.hash)
    ensures Named(b.MakePod(id, source), certificates)
  {
  }

  lemma MadeIsMadeWell(b: Blueprint, id: NameAndHash, source: VolumeSource, certificates: seq<Certificate>)
    requires b.Valid()
    requires b.tls ==> exists c :: c in certificates && c.keystore.JksKeystore? && id == NameAndHash(c.name, c.hash)
    ensures MadeWell(b, certificates, b.MakePod(id, source))
  {
    b.MadePod(id, source);
    if b.tls { MadeIsNamed(b, id, source, certificates); }
  }

  lemma ClaimsOfAll(pods: seq<Pod>, more: seq<Pod>)
    ensures AllClaimNames(pods + more) == AllClaimNames(pods) + AllClaimNames(more)
  {
    assert forall p :: p in pods + more <==> p in pods || p in more;
  }

  lemma ClaimsOfOne(p: Pod)
    ensures AllClaimNames([p]) == ClaimNames(p)
  {
    assert p in [p];
  }

  lemma NamesOfAll(pods: seq<Pod>, more: seq<Pod>)
    ensures PodNames(pods + more) == PodNames(pods) + PodNames(more)
  {
    assert forall p :: p in pods + more <==> p in pods || p in more;
  }

  lemma ClaimsMember(pods: seq<Pod>, i: nat)
    requires i < |pods|
    ensures ClaimNames(pods[i]) <= AllClaimNames(pods)
  {
    assert pods[i] in pods;
  }

  /** A claim that is used neither by the listed pods nor in this pass keeps the new pod apart from all of them. */
  lemma NewClaimIsOwn(foundPods: seq<Pod>, created: seq<Pod>, p: Pod, used: set<string>)
    requires OwnClaims(foundPods + created, |foundPods|)
    requires forall k :: 0 <= k < |created| ==> ClaimNames(created[k]) <= used
    requires ClaimNames(p) !! used + AllClaimNames(foundPods)
    ensures OwnClaims(foundPods + (created + [p]), |foundPods|)
  {
    var all, more := foundPods + created, foundPods + (created + [p]);
    forall i, j | 0 <= i < j < |more| && |foundPods| <= j ensures ClaimNames(more[i]) !! ClaimNames(more[j]) {
      if j < |all| {
        assert more[i] == all[i] && more[j] == all[j];
      } else if i < |foundPods| {
        ClaimsMember(foundPods, i);
      }
    }
  }

  /** The API server as a creation pass sees it: pods of the pool, the names of all other pods, claims, certificates. */
  class ApiServer {
    var pods: seq<Pod>
    const otherNames: set<string>
    var claims: seq<Claim>
    var certificates: seq<Certificate>
    ghost var failures: nat

    constructor (pods: seq<Pod>, otherNames: set<string>, claims: seq<Claim>, certificates: seq<Certificate>)
      ensures this.pods == pods && this.otherNames == otherNames && this.claims == claims
      ensures this.certificates == certificates
    {
      this.pods, this.otherNames, this.claims, this.certificates := pods, otherNames, claims, certificates;
      failures := 0;
    }

    ghost predicate Valid()
      reads this
    {
      UniqueNames(pods) && DistinctClaims(claims) && PodNames(pods) !! otherNames
    }

    /** Nothing more can be created for the pool: two kinds of data volume are asked for, all claims are in use, all
        certificates are, or a random name is taken. */
    ghost predicate Stuck(b: Blueprint, random: seq<string>)
      reads this
    {
      || (b.pool.pvcsEnabled && b.dataVolumeSource != NoSource)
      || (b.pool.pvcsEnabled && forall c :: c in claims ==> c.name in AllClaimNames(pods))
      || (b.tls && forall c :: c in certificates && c.keystore.JksKeystore? ==> c.name in PodNames(pods) + otherNames)
      || (!b.tls && exists s :: s in random && s in PodNames(pods) + otherNames)
    }

    method ListClaims() returns (ok: bool, r: array<Claim>)
      modifies this`failures
      ensures fresh(r) && (ok ==> r[..] == claims)
      ensures failures >= old(failures) && (!ok ==> failures > old(failures))
    {
      ok := *;
      if !ok { failures := failures + 1; }
      r := new Claim[|claims|](i requires 0 <= i < |claims| reads this => claims[i]);
    }

    /** Names are unique: creating a pod under a taken name fails. */
    method Create(p: Pod) returns (ok: bool)
      requires Valid()
      modifies this`pods, this`failures
      ensures Valid()
      ensures pods == if ok then old(pods) + [p] else old(pods)
      ensures ok ==> p.name !in PodNames(old(pods)) && p.name !in otherNames
      ensures failures >= old(failures)
      ensures !ok ==> failures > old(failures) || p.name in PodNames(pods) + otherNames
    {
      if p.name in PodNames(pods) || p.name in otherNames { return false; }
      if * {
        failures := failures + 1;
        return false;
      }
      forall i | 0 <= i < |pods| ensures pods[i].name != p.name { assert pods[i] in pods; }
      assert PodNames(pods + [p]) == PodNames(pods) + {p.name};
      pods := pods + [p];
      return true;
    }

    /** The data volume of the next pod; a claim that is handed out counts as used from then on. */
    method NextVolumeSource(b: Blueprint, foundPodList: seq<Pod>, pvcClaimNamesInUse: ClaimNamesInUse)
        returns (r: Option<VolumeSource>)
      requires Valid()
      modifies this`failures, pvcClaimNamesInUse
      ensures Valid()
      ensures old(pvcClaimNamesInUse.names) <= pvcClaimNamesInUse.names
      ensures b.pool.pvcsEnabled && r.Some? ==>
        && r.value.PersistentVolumeClaim?
        && r.value.claimName !in old(pvcClaimNamesInUse.names) + AllClaimNames(foundPodList)
        && BestUnused(claims, old(pvcClaimNamesInUse.names) + AllClaimNames(foundPodList), r.value.claimName)
        && pvcClaimNamesInUse.names == old(pvcClaimNamesInUse.names) + AllClaimNames(foundPodList) + {r.value.claimName}
      ensures !b.pool.pvcsEnabled && r.Some? ==> r.value == b.dataVolumeSource
      ensures b.pool.pvcsEnabled && b.dataVolumeSource != NoSource ==> r.None?
      ensures r.Some? ==>
        pvcClaimNamesInUse.names <= old(pvcClaimNamesInUse.names) + AllClaimNames(foundPodList)
          + if r.value.PersistentVolumeClaim? then {r.value.claimName} else {}
      ensures failures >= old(failures)
      ensures r.None? ==>
        || failures > old(failures)
        || (b.pool.pvcsEnabled && b.dataVolumeSource != NoSource)
        || (b.pool.pvcsEnabled
            && forall c :: c in claims ==> c.name in old(pvcClaimNamesInUse.names) + AllClaimNames(foundPodList))
    {
      var ok, pvcList := ListClaims();
      if !ok { return None; }
      if b.pool.pvcsEnabled && b.dataVolumeSource != NoSource { return None; }
      if b.pool.pvcsEnabled {
        var pvcName := FindNextAvailablePvc(pvcList, foundPodList, pvcClaimNamesInUse);
        if pvcName.None? { return None; }
        r := Some(b.pool.DataVolumeTemplate(pvcName.value));
      } else {
        r := Some(b.dataVolumeSource);
      }
      if r.value.PersistentVolumeClaim? { pvcClaimNamesInUse.Add(r.value.claimName); }
    }

    /** A random name, or that of a free certificate. */
    method NextName(b: Blueprint, newlyCreatedPods: seq<Pod>, random: string) returns (r: Option<NameAndHash>)
      requires Valid()
      modifies this`failures
      ensures Valid()
      ensures !b.tls ==> r == Some(NameAndHash(random, ""))
      ensures b.tls && r.Some? ==> exists c ::
        && c in certificates && r.value == NameAndHash(c.name, c.hash)
        && c.keystore.JksKeystore? && c.name !in PodNames(newlyCreatedPods) + PodNames(pods) + otherNames
      ensures failures >= old(failures)
      ensures r.None? ==> failures > old(failures) || forall c :: c in certificates && c.keystore.JksKeystore? ==>
        c.name in PodNames(newlyCreatedPods) + PodNames(pods) + otherNames
    {
      if !b.tls { return Some(NameAndHash(random, "")); }
      var found := FindHumioNodeNameAndCertHash(certificates, newlyCreatedPods, PodNames(pods) + otherNames);
      if found.CallFailed? { failures := failures + 1; }
      if !found.Found? { return None; }
      return Some(found.value);
    }

    /** One turn of the creation loop: attachments, name, create call. */
    method CreateNext(b: Blueprint, foundPods: seq<Pod>, expectedPodsList: seq<Pod>,
                      pvcClaimNamesInUse: ClaimNamesInUse, random: string)
        returns (r: Option<Pod>)
      requires Valid() && b.Valid() && pods == foundPods + expectedPodsList
      requires pvcClaimNamesInUse.names <= AllClaimNames(pods)
      modifies this`pods, this`failures, pvcClaimNamesInUse
      ensures Valid() && old(pvcClaimNamesInUse.names) <= pvcClaimNamesInUse.names
      ensures failures >= old(failures)
      ensures r.None? ==> failures > old(failures) || Stuck(b, [random])
      ensures r.Some? ==> pvcClaimNamesInUse.names <= AllClaimNames(pods)
      ensures r.None? ==> pods == old(pods)
      ensures r.Some? ==> pods == old(pods) + [r.value] && MadeWell(b, certificates, r.value)
      ensures r.Some? && b.pool.pvcsEnabled ==>
        && ClaimNames(r.value) <= pvcClaimNamesInUse.names
        && ClaimNames(r.value) !! old(pvcClaimNamesInUse.names) + AllClaimNames(foundPods)
    {
      hide MadeWell, ClaimNames, AllClaimNames;
      ClaimsOfAll(foundPods, expectedPodsList);
      var source := NextVolumeSource(b, foundPods, pvcClaimNamesInUse);
      if source.None? { return None; }
      var id := NextName(b, expectedPodsList, random);
      if id.None? { return None; }
      var pod := b.MakePod(id.value, source.value);
      b.MadeClaims(id.value, source.value);
      MadeIsMadeWell(b, id.value, source.value, certificates);
      ClaimsOfAll(pods, [pod]);
      ClaimsOfOne(pod);
      NamesOfAll(foundPods, expectedPodsList);
      var created := Create(pod);
      if !created { return None; }
      return Some(pod);
    }

    /** Creates pods until there are as many as wanted, and stops at the first failure. However far it gets: old pods
        stay, new pods are fresh, have names of their own, claims of their own, and with TLS certificates of their
        own. */
    method EnsurePodsExist(b: Blueprint, random: seq<string>) returns (ok: bool)
      requires Valid() && b.Valid() && |random| >= b.pool.nodeCount
      modifies this`pods, this`failures
      ensures Valid() && old(pods) <= pods && |pods| <= Max(|old(pods)|, b.pool.nodeCount)
      ensures ok ==> |pods| == Max(|old(pods)|, b.pool.nodeCount)
      ensures forall k :: |old(pods)| <= k < |pods| ==> MadeWell(b, certificates, pods[k])
      ensures b.pool.pvcsEnabled ==> OwnClaims(pods, |old(pods)|)
      ensures failures >= old(failures)
      ensures !ok ==> failures > old(failures) || Stuck(b, random)
    {
      hide MadeWell, OwnClaims, ClaimNames, AllClaimNames;
      var foundPods := pods;
      NothingOwned(pods);
      if |foundPods| >= b.pool.nodeCount { return true; }
      var expectedPodsList: seq<Pod> := [];
      var pvcClaimNamesInUse := new ClaimNamesInUse();
      var i := 1;
      while i + |foundPods| <= b.pool.nodeCount
        invariant i == |expectedPodsList| + 1 && i + |foundPods| <= b.pool.nodeCount + 1
        invariant Valid() && fresh(pvcClaimNamesInUse)
        invariant pods == foundPods + expectedPodsList
        invariant failures >= old(failures) && pvcClaimNamesInUse.names <= AllClaimNames(pods)
        invariant forall k :: 0 <= k < |expectedPodsList| ==> MadeWell(b, certificates, expectedPodsList[k])
        invariant b.pool.pvcsEnabled ==> forall k :: 0 <= k < |expectedPodsList| ==>
          ClaimNames(expectedPodsList[k]) <= pvcClaimNamesInUse.names
        invariant b.pool.pvcsEnabled ==> OwnClaims(pods, |foundPods|)
      {
        ghost var usedBefore := pvcClaimNamesInUse.names;
        var pod := CreateNext(b, foundPods, expectedPodsList, pvcClaimNamesInUse, random[i - 1]);
        if pod.None? { return false; }
        if b.pool.pvcsEnabled { NewClaimIsOwn(foundPods, expectedPodsList, pod.value, usedBefore); }
        assert foundPods + expectedPodsList + [pod.value] == foundPods + (expectedPodsList + [pod.value]);
        expectedPodsList := expectedPodsList + [pod.value];
        i := i + 1;
      }
      return true;
    }

    /** The part of a reconcile that creates: first the certificates, then the pods. No pod it creates is obsolete,
        unless it takes a certificate whose name the operator did not give. */
    method CreateForPool(b: Blueprint, store: CertificateStore, random: seq<string>, suffixes: seq<string>)
        returns (ok: bool)
      requires Valid() && b.Valid() && store.Valid()
      requires |random| >= b.pool.nodeCount && |suffixes| >= b.pool.nodeCount && forall s :: s in suffixes ==> '-' !in s
      modifies this, store
      ensures Valid() && store.Valid() && old(pods) <= pods
      ensures |pods| <= Max(|old(pods)|, b.pool.nodeCount) && (ok ==> |pods| == Max(|old(pods)|, b.pool.nodeCount))
      ensures forall k :: |old(pods)| <= k < |pods| ==> MadeWell(b, certificates, pods[k])
      ensures b.tls && |old(pods)| < |pods| ==> AllCurrent(b.pool, b.certificateHash, certificates)
      ensures forall k :: |old(pods)| <= k < |pods| && (b.tls ==> IsNodeName(b.pool, pods[k].name)) ==>
                !Obsolete(b.DesiredPod(), pods[k])
      ensures !ok ==>
        || failures + store.failures > old(failures + store.failures)
        || (b.tls && (store.Blocked(b.pool, b.certificateHash) || store.NameTaken(b.pool, suffixes)))
        || Stuck(b, random)
    {
      if b.tls {
        ok := store.EnsureHumioNodeCertificates(b.pool, b.certificateHash, suffixes);
        if !ok { return; }
      }
      certificates := store.certificates;
      ok := EnsurePodsExist(b, random);
      forall k | |old(pods)| <= k < |pods| && (b.tls ==> IsNodeName(b.pool, pods[k].name))
        ensures !Obsolete(b.DesiredPod(), pods[k])
      {
        b.MadeUpToDate(pods[k]);
      }
    }
  }

  // ----- Over whole runs

  /** What a creation pass leaves behind is a creation step of the maintenance runs. */
  lemma CreationIsAStep(configured: set<string>, w: World, b: Blueprint, pods': seq<Pod>)
    requires w.worker.Idle? && b.pool.name in configured
    requires Allows(configured, w.entries, b.pool.name) && Snapshot(b.pool, w.entries)
    requires var pods := w.PodsOf(b.pool.name);
      && pods <= pods' && UniqueNames(pods') && |pods'| <= Max(|pods|, b.pool.nodeCount)
      && forall k :: |pods| <= k < |pods'| ==> FreshPod(b.pool, pods'[k])
    ensures var pods := w.PodsOf(b.pool.name);
      Next(configured, w, CreatePods(b.pool, pods'[|pods|..]), w.(pods := w.pods[b.pool.name := pods']))
  {
    var pods := w.PodsOf(b.pool.name);
    assert pods + pods'[|pods|..] == pods';
    forall p | p in pods'[|pods|..] ensures FreshPod(b.pool, p) {
      var k :| 0 <= k < |pods'| - |pods| && pods'[|pods|..][k] == p;
      assert pods'[|pods| + k] == p;
    }
  }

  /** One step in the life of a pool's pods: a creation pass, or pods changing, without their volumes, or going away. */
  ghost predicate PoolStep(pods: seq<Pod>, pods': seq<Pod>) {
    || (pods <= pods' && OwnClaims(pods', |pods|))
    || (|pods| == |pods'| && forall i :: 0 <= i < |pods| ==> pods'[i].spec.volumes == pods[i].spec.volumes)
    || exists k :: 0 <= k < |pods| && pods' == pods[..k] + pods[k + 1..]
  }

  /** In no run from claims held by one pod each do two pods of the pool ever hold the same claim. */
  lemma {:induction false} ClaimsStayApart(run: seq<seq<Pod>>, n: nat)
    requires n < |run| && ClaimsApart(run[0])
    requires forall i :: 0 <= i < |run| - 1 ==> PoolStep(run[i], run[i + 1])
    ensures ClaimsApart(run[n])
  {
    if n > 0 {
      ClaimsStayApart(run, n - 1);
      var pods, pods' := run[n - 1], run[n];
      assert PoolStep(run[n - 1], run[n - 1 + 1]);
      if pods <= pods' && OwnClaims(pods', |pods|) {
        CreationKeepsApart(pods, pods');
      } else if |pods| == |pods'| && forall i :: 0 <= i < |pods| ==> pods'[i].spec.volumes == pods[i].spec.volumes {
        ChangesKeepApart(pods, pods');
      } else {
        RemovalKeepsApart(pods, pods');
      }
    }
  }

  lemma CreationKeepsApart(pods: seq<Pod>, pods': seq<Pod>)
    requires ClaimsApart(pods) && pods <= pods' && OwnClaims(pods', |pods|)
    ensures ClaimsApart(pods')
  {
    forall i, j | 0 <= i < j < |pods'| ensures ClaimNames(pods'[i]) !! ClaimNames(pods'[j]) {
      if j < |pods| { assert pods'[i] == pods[i] && pods'[j] == pods[j]; }
    }
  }

  lemma ChangesKeepApart(pods: seq<Pod>, pods': seq<Pod>)
    requires ClaimsApart(pods) && |pods| == |pods'|
    requires forall i :: 0 <= i < |pods| ==> pods'[i].spec.volumes == pods[i].spec.volumes
    ensures ClaimsApart(pods')
  {
    forall i | 0 <= i < |pods| ensures ClaimNames(pods'[i]) == ClaimNames(pods[i]) {}
  }

  lemma RemovalKeepsApart(pods: seq<Pod>, pods': seq<Pod>)
    requires ClaimsApart(pods) && exists k :: 0 <= k < |pods| && pods' == pods[..k] + pods[k + 1..]
    ensures ClaimsApart(pods')
  {
    var k :| 0 <= k < |pods| && pods' == pods[..k] + pods[k + 1..];
    forall i, j | 0 <= i < j < |pods'| ensures ClaimNames(pods'[i]) !! ClaimNames(pods'[j]) {
      var a, c := if i < k then i else i + 1, if j < k then j else j + 1;
      assert pods'[i] == pods[a] && pods'[j] == pods[c];
    }
  }
}
