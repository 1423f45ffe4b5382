/** The certificates of a node pool: kept at the desired hash, and as many as the pool has nodes. */
module NodeCertificates {
  import opened Kube
  import opened NodePools
  import opened Seqs

  datatype Keystore = NoKeystore | OtherKeystore | JksKeystore

  datatype Certificate = Certificate(name: string, keystore: Keystore, hash: string)

  // ----- Names

  /** The last part of a name that is split at its dashes. */
  function AfterLastDash(s: string): string {
    if s == "" || s[|s| - 1] == '-' then "" else AfterLastDash(s[..|s| - 1]) + [s[|s| - 1]]
  }

  function NamePrefix(pool: NodePool): string { pool.name + "-core" }

  function NodeName(pool: NodePool, suffix: string): string { NamePrefix(pool) + "-" + suffix }

  /** Making the name again from its last part gives the name. */
  predicate IsNodeName(pool: NodePool, name: string) { NodeName(pool, AfterLastDash(name)) == name }

  lemma {:induction false} SuffixFound(before: string, suffix: string)
    requires '-' !in suffix
    ensures AfterLastDash(before + "-" + suffix) == suffix
  {
    var s := before + "-" + suffix;
    if suffix == "" {
      assert s[|s| - 1] == '-';
    } else {
      var init := suffix[..|suffix| - 1];
      assert s[|s| - 1] == suffix[|suffix| - 1] && suffix[|suffix| - 1] in suffix;
      assert s[..|s| - 1] == before + "-" + init;
      SuffixFound(before, init);
      assert suffix == init + [suffix[|suffix| - 1]];
    }
  }

  /** The names that the operator gives are node names: the pool's name, the word core, and the suffix. */
  lemma OwnNamesAreNodeNames(pool: NodePool, suffix: string)
    requires '-' !in suffix
    ensures IsNodeName(pool, NodeName(pool, suffix)) && NodeName(pool, suffix) == pool.name + "-core-" + suffix
  {
    assert NamePrefix(pool) + "-" == pool.name + "-core-";
    SuffixFound(NamePrefix(pool), suffix);
  }

  lemma NodeNamesArePrefixed(pool: NodePool, name: string)
    requires IsNodeName(pool, name)
    ensures NamePrefix(pool) <= name
  {
    assert name == NamePrefix(pool) + ("-" + AfterLastDash(name));
  }

  // ----- Renewing

  function Renewed(pool: NodePool, hash: string, c: Certificate): (r: Certificate)
    ensures r.name == c.name
  {
    if NamePrefix(pool) <= c.name && c.hash != hash && IsNodeName(pool, c.name)
      then Certificate(c.name, JksKeystore, hash) else c
  }

  lemma ForeignIsKept(pool: NodePool, hash: string, c: Certificate)
    requires !(NamePrefix(pool) <= c.name)
    ensures Renewed(pool, hash, c) == c
  {
  }

  function Renewal(pool: NodePool, hash: string): Certificate -> Certificate {
    (c: Certificate) => Renewed(pool, hash, c)
  }

  function PrefixTest(pool: NodePool): Certificate -> bool { (c: Certificate) => NamePrefix(pool) <= c.name }

  /** Every certificate under a node name has the desired hash. */
  ghost predicate AllCurrent(pool: NodePool, hash: string, certificates: seq<Certificate>) {
    forall c :: c in certificates && IsNodeName(pool, c.name) ==> c.hash == hash
  }

  lemma RenewalMakesCurrent(pool: NodePool, hash: string, certificates: seq<Certificate>)
    ensures AllCurrent(pool, hash, Map(Renewal(pool, hash), certificates))
  {
    forall c | c in Map(Renewal(pool, hash), certificates) && IsNodeName(pool, c.name) ensures c.hash == hash {
      NodeNamesArePrefixed(pool, c.name);
      MapMembers(Renewal(pool, hash), certificates, c);
    }
  }

  /** An old certificate, or one the operator has just made. */
  predicate OldOrOwn(pool: NodePool, hash: string, old_: seq<Certificate>, c: Certificate) {
    c in old_ || (IsNodeName(pool, c.name) && c == Certificate(c.name, JksKeystore, hash))
  }

  /** The two lists hold certificates of the same names, each old or just made. */
  ghost predicate Maintained(pool: NodePool, hash: string, before: seq<Certificate>, after: seq<Certificate>) {
    && |after| == |before|
    && forall i :: 0 <= i < |after| ==> after[i] == before[i] || after[i] == Renewed(pool, hash, before[i])
  }

  lemma {:induction false} SameNamesSameCount(pool: NodePool, s: seq<Certificate>, r: seq<Certificate>)
    requires |r| == |s| && forall i :: 0 <= i < |s| ==> r[i].name == s[i].name
    ensures |Filter(PrefixTest(pool), r)| == |Filter(PrefixTest(pool), s)|
  {
    if s != [] {
      forall i | 0 <= i < |s[1..]| ensures r[1..][i].name == s[1..][i].name { assert r[i + 1].name == s[i + 1].name; }
      SameNamesSameCount(pool, s[1..], r[1..]);
    }
  }

  lemma MaintainedIsOldOrOwn(pool: NodePool, hash: string, before: seq<Certificate>, after: seq<Certificate>)
    requires Maintained(pool, hash, before, after)
    ensures forall c :: c in after ==> OldOrOwn(pool, hash, before, c)
  {
    forall c | c in after ensures OldOrOwn(pool, hash, before, c) {
      var i :| 0 <= i < |after| && after[i] == c;
      assert before[i] in before;
    }
  }

  const WAIT_FOR_NODE_CERTIFICATE_TIMEOUT_SECONDS := 30

  datatype UpdateOutcome = Updated | NotFound | Failed

  class CertificateStore {
    var certificates: seq<Certificate>
    ghost var failures: nat

    constructor (certificates: seq<Certificate>)
      ensures this.certificates == certificates
    {
      this.certificates := certificates;
      failures := 0;
    }

    ghost predicate Valid()
      reads this
    {
      forall i, j :: 0 <= i < j < |certificates| ==> certificates[i].name != certificates[j].name
    }

    /** An outdated certificate has the pool's prefix but not a node name, and the name made from its last part is
        taken: rewriting it is a conflict. */
    ghost predicate Blocked(pool: NodePool, hash: string)
      reads this
    {
      exists c, d :: c in certificates && d in certificates && NamePrefix(pool) <= c.name && c.hash != hash
        && !IsNodeName(pool, c.name) && d.name == NodeName(pool, AfterLastDash(c.name))
    }

    ghost predicate NameTaken(pool: NodePool, suffixes: seq<string>)
      reads this
    {
      exists s, c :: s in suffixes && c in certificates && c.name == NodeName(pool, s)
    }

    /** Writes a certificate with the version of another one, which is a conflict unless the names agree. */
    method Update(k: nat, desired: Certificate) returns (outcome: UpdateOutcome)
      requires Valid() && k < |certificates|
      modifies this
      ensures Valid()
      ensures outcome.Updated? ==>
        desired.name == old(certificates)[k].name && certificates == old(certificates)[k := desired]
      ensures !outcome.Updated? ==> certificates == old(certificates)
      ensures outcome.NotFound? ==> desired.name != certificates[k].name
      ensures failures >= old(failures)
      ensures outcome.Failed? ==>
        || failures > old(failures)
        || (desired.name != certificates[k].name && exists c :: c in certificates && c.name == desired.name)
    {
      if * {
        failures := failures + 1;
        return Failed;
      }
      if desired.name == certificates[k].name {
        certificates := certificates[k := desired];
        return Updated;
      }
      if c :| c in certificates && c.name == desired.name { return Failed; }
      return NotFound;
    }

    method UpdateOne(pool: NodePool, hash: string, k: nat) returns (ok: bool)
      requires Valid() && k < |certificates| && NamePrefix(pool) <= certificates[k].name
      modifies this
      ensures Valid()
      ensures certificates == if ok then old(certificates)[k := Renewed(pool, hash, old(certificates)[k])]
        else old(certificates)
      ensures failures >= old(failures) && (!ok ==> failures > old(failures) || Blocked(pool, hash))
    {
      if * {
        failures := failures + 1;
        return false;
      }
      var cert := certificates[k];
      if cert.hash == hash { return true; }
      var outcome := Update(k, Certificate(NodeName(pool, AfterLastDash(cert.name)), JksKeystore, hash));
      return !outcome.Failed?;
    }

    /** Rewrites every listed certificate of the pool that has another hash; counts those with the pool's prefix. */
    method UpdateNodeCertificates(pool: NodePool, hash: string) returns (r: Option<nat>)
      requires Valid()
      modifies this
      ensures Valid() && Maintained(pool, hash, old(certificates), certificates)
      ensures r.Some? ==> certificates == Map(Renewal(pool, hash), old(certificates))
      ensures r.Some? ==> r.value == |Filter(PrefixTest(pool), certificates)|
      ensures failures >= old(failures) && (r.None? ==> failures > old(failures) || Blocked(pool, hash))
    {
      hide Renewed, IsNodeName, Filter;
      var listed := certificates;
      var existingNodeCertCount := 0;
      for k := 0 to |listed|
        invariant Valid() && |certificates| == |listed|
        invariant existingNodeCertCount == |Filter(PrefixTest(pool), listed[..k])|
        invariant forall i :: 0 <= i < k ==> certificates[i] == Renewed(pool, hash, listed[i])
        invariant forall i :: k <= i < |listed| ==> certificates[i] == listed[i]
        invariant failures >= old(failures)
      {
        var cert := listed[k];
        assert listed[..k + 1] == listed[..k] + [cert];
        FilterSnoc(PrefixTest(pool), listed[..k], cert);
        if !(NamePrefix(pool) <= cert.name) {
          ForeignIsKept(pool, hash, cert);
          continue;
        }
        existingNodeCertCount := existingNodeCertCount + 1;
        var ok := UpdateOne(pool, hash, k);
        if !ok { return None; }
      }
      assert listed[..|listed|] == listed;
      SameNamesSameCount(pool, listed, certificates);
      return Some(existingNodeCertCount);
    }

    /** Brings the certificates up to date and creates missing ones, until there is one for each node. */
    method EnsureHumioNodeCertificates(pool: NodePool, hash: string, suffixes: seq<string>) returns (ok: bool)
      requires Valid() && |suffixes| >= pool.nodeCount && forall s :: s in suffixes ==> '-' !in s
      modifies this
      ensures Valid()
      ensures forall c :: c in certificates ==> OldOrOwn(pool, hash, old(certificates), c)
      ensures ok ==> AllCurrent(pool, hash, certificates) && |Filter(PrefixTest(pool), certificates)| >= pool.nodeCount
      ensures failures >= old(failures)
      ensures !ok ==> failures > old(failures) || Blocked(pool, hash) || NameTaken(pool, suffixes)
    {
      var existingNodeCertCount := UpdateNodeCertificates(pool, hash);
      if existingNodeCertCount.None? { return false; }
      RenewalMakesCurrent(pool, hash, old(certificates));
      var i := existingNodeCertCount.value;
      while i < pool.nodeCount
        invariant Valid() && AllCurrent(pool, hash, certificates)
        invariant forall c :: c in certificates ==> OldOrOwn(pool, hash, old(certificates), c)
        invariant existingNodeCertCount.value <= i <= |Filter(PrefixTest(pool), certificates)|
        invariant failures >= old(failures)
      {
        ok := CreateNext(pool, hash, suffixes[i], existingNodeCertCount.value + 1);
        if !ok { return; }
        i := i + 1;
      }
      return true;
    }

    /** One turn of the creation loop: create a certificate, and wait until it is listed. */
    method CreateNext(pool: NodePool, hash: string, suffix: string, expectedCertCount: nat) returns (ok: bool)
      requires Valid() && '-' !in suffix && AllCurrent(pool, hash, certificates)
      requires expectedCertCount <= |Filter(PrefixTest(pool), certificates)| + 1
      modifies this
      ensures Valid()
      ensures forall c :: c in certificates ==> OldOrOwn(pool, hash, old(certificates), c)
      ensures ok ==> AllCurrent(pool, hash, certificates)
      ensures ok ==> |Filter(PrefixTest(pool), certificates)| == |Filter(PrefixTest(pool), old(certificates))| + 1
      ensures failures >= old(failures)
      ensures !ok ==> failures > old(failures) || Blocked(pool, hash) || NameTaken(pool, [suffix])
    {
      hide Renewed, IsNodeName, Filter, AfterLastDash;
      var certificate := Certificate(NodeName(pool, suffix), JksKeystore, hash);
      OwnNamesAreNodeNames(pool, suffix);
      NodeNamesArePrefixed(pool, certificate.name);
      if c :| c in certificates && c.name == certificate.name { return false; }
      if * {
        failures := failures + 1;
        return false;
      }
      forall k | 0 <= k < |certificates|
        ensures certificates[k].name != certificate.name
      {
        assert certificates[k] in certificates;
      }
      FilterSnoc(PrefixTest(pool), certificates, certificate);
      ghost var created := certificates + [certificate];
      certificates := certificates + [certificate];
      ok := WaitForNewNodeCertificate(pool, hash, expectedCertCount);
      SameNamesSameCount(pool, created, certificates);
      MaintainedIsOldOrOwn(pool, hash, created, certificates);
    }

    /** Updates the certificates until the expected number is listed. */
    method WaitForNewNodeCertificate(pool: NodePool, hash: string, expectedCertCount: nat) returns (ok: bool)
      requires Valid() && expectedCertCount <= |Filter(PrefixTest(pool), certificates)|
      modifies this
      ensures Valid() && Maintained(pool, hash, old(certificates), certificates)
      ensures ok ==> AllCurrent(pool, hash, certificates)
      ensures failures >= old(failures) && (!ok ==> failures > old(failures) || Blocked(pool, hash))
    {
      for i := 0 to WAIT_FOR_NODE_CERTIFICATE_TIMEOUT_SECONDS
        invariant Valid() && certificates == old(certificates) && i == 0 && failures >= old(failures)
      {
        ghost var listed := certificates;
        var count := UpdateNodeCertificates(pool, hash);
        SameNamesSameCount(pool, listed, certificates);
        if count.None? { return false; }
        if count.value >= expectedCertCount {
          RenewalMakesCurrent(pool, hash, listed);
          return true;
        }
      }
      return false;
    }
  }
}
