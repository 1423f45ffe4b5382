/** From which zone the next pod is evicted, and how that keeps the zones balanced. */
module ZoneBalance {
  import opened Kube
  import opened Seqs

  /** A pod, whether it is on a worker node, and the zone label of that node (None when it cannot be read). */
  datatype ZonedPod = ZonedPod(name: string, scheduled: bool, zone: Option<string>)

  /** What the operator reads as the zone of a pod; None is an error. */
  function ZoneOfPod(p: ZonedPod): Option<string> { if p.scheduled then p.zone else None }

  predicate Labelled(p: ZonedPod) { ZoneOfPod(p).Some? && ZoneOfPod(p).value != "" }

  function ZoneName(p: ZonedPod): string { if ZoneOfPod(p).Some? then ZoneOfPod(p).value else "" }

  function ZonesOf(pods: seq<ZonedPod>): seq<string> { Map((p: ZonedPod) => ZoneName(p), pods) }

  /** How many pods each zone has. */
  function Counts(pods: seq<ZonedPod>): multiset<string> { multiset(ZonesOf(pods)) }

  lemma CountsNext(pods: seq<ZonedPod>, k: nat)
    requires k < |pods|
    ensures Counts(pods[..k + 1]) == Counts(pods[..k]) + multiset{ZoneName(pods[k])}
  {
    assert ZonesOf(pods[..k + 1]) == ZonesOf(pods[..k]) + [ZoneName(pods[k])];
  }

  /** A key with the highest value; which one, among equals, is up to the map's iteration order. */
  method GetKeyWithHighestValue(inputMap: map<string, int>) returns (r: Option<string>)
    ensures r.None? <==> |inputMap| == 0
    ensures r.Some? ==> r.value in inputMap && forall k :: k in inputMap ==> inputMap[k] <= inputMap[r.value]
  {
    if |inputMap| == 0 { return None; }
    assert |inputMap.Keys| == |inputMap| && inputMap.Keys != {};
    var maxKey: string := "";
    var maxValue := 0;
    var firstIteration := true;
    var keys := inputMap.Keys;
    while keys != {}
      invariant keys <= inputMap.Keys
      invariant firstIteration ==> keys == inputMap.Keys
      invariant !firstIteration ==> maxKey in inputMap && inputMap[maxKey] == maxValue
      invariant !firstIteration ==> forall k :: k in inputMap && k !in keys ==> inputMap[k] <= maxValue
      decreases |keys|
    {
      var k :| k in keys;
      keys := keys - {k};
      if firstIteration || inputMap[k] > maxValue {
        maxKey := k;
        maxValue := inputMap[k];
        firstIteration := false;
      }
    }
    return Some(maxKey);
  }

  /** No zone has more pods than this one. */
  ghost predicate Fullest(counts: multiset<string>, zone: string) {
    counts[zone] > 0 && forall z :: counts[z] <= counts[zone]
  }

  ghost predicate Tallies(zoneCount: map<string, int>, counts: multiset<string>) {
    forall z :: (z in zoneCount <==> counts[z] > 0) && (z in zoneCount ==> zoneCount[z] == counts[z])
  }

  datatype ZoneTally = Tallied(zoneCount: map<string, int>) | NoLabel | NoNode

  /** Counting stops at the first pod whose zone cannot be read or is empty. */
  method CountZones(pods: seq<ZonedPod>) returns (r: ZoneTally)
    ensures r.Tallied? ==> Tallies(r.zoneCount, Counts(pods))
    ensures !r.Tallied? ==> !(forall p :: p in pods ==> Labelled(p))
  {
    var zoneCount: map<string, int> := map[];
    ghost var counts: multiset<string> := multiset{};
    assert Counts(pods[..0]) == multiset{};
    for k := 0 to |pods|
      invariant Tallies(zoneCount, counts) && counts == Counts(pods[..k])
    {
      CountsNext(pods, k);
      var nodeLabel := ZoneOfPod(pods[k]);
      if nodeLabel.None? || nodeLabel.value == "" {
        assert pods[k] in pods && !Labelled(pods[k]);
        return if nodeLabel.None? then NoNode else NoLabel;
      }
      zoneCount := CountZone(zoneCount, counts, nodeLabel.value);
      counts := counts + multiset{nodeLabel.value};
    }
    assert pods[..|pods|] == pods;
    return Tallied(zoneCount);
  }

  method CountZone(zoneCount: map<string, int>, ghost counts: multiset<string>, zone: string)
      returns (r: map<string, int>)
    requires Tallies(zoneCount, counts)
    ensures Tallies(r, counts + multiset{zone})
  {
    r := zoneCount;
    if zone !in r { r := r[zone := 0]; }
    r := r[zone := r[zone] + 1];
  }

  /** The zone to evict from. The listing stops at the first pod without a zone: with an error when the label cannot be
      read, and otherwise with the empty zone. */
  method GetZoneForPodRemoval(pods: seq<ZonedPod>) returns (r: Option<string>)
    ensures (forall p :: p in pods ==> Labelled(p)) && pods != [] ==> r.Some? && Fullest(Counts(pods), r.value)
    ensures r.Some? && r.value != "" ==> Fullest(Counts(pods), r.value)
    ensures pods == [] ==> r.None?
  {
    var tally := CountZones(pods);
    if tally.NoNode? { return None; }
    if tally.NoLabel? { return Some(""); }
    r := GetKeyWithHighestValue(tally.zoneCount);
    if pods != [] { SomeZoneCounted(pods); }
  }

  lemma SomeZoneCounted(pods: seq<ZonedPod>)
    requires pods != []
    ensures Counts(pods)[ZoneName(pods[0])] > 0
  {
    assert ZonesOf(pods)[0] == ZoneName(pods[0]);
  }

  /** The pod to evict: the first one in the zone chosen for removal. */
  method PickPod(pods: seq<ZonedPod>) returns (r: Option<nat>)
    ensures (forall p :: p in pods ==> Labelled(p)) && pods != [] ==> r.Some?
    ensures r.Some? ==> r.value < |pods| && pods[r.value].scheduled
    ensures (forall p :: p in pods ==> Labelled(p)) && r.Some? ==> Fullest(Counts(pods), ZoneName(pods[r.value]))
  {
    var podRemovalZone := GetZoneForPodRemoval(pods);
    if podRemovalZone.None? { return None; }
    if pods != [] && forall p :: p in pods ==> Labelled(p) {
      assert podRemovalZone.value in ZonesOf(pods);
      var i :| 0 <= i < |pods| && ZonesOf(pods)[i] == podRemovalZone.value;
      assert Labelled(pods[i]) && ZoneOfPod(pods[i]) == podRemovalZone;
    }
    for k := 0 to |pods|
      invariant forall i :: 0 <= i < k && pods[i].scheduled ==> ZoneOfPod(pods[i]) != podRemovalZone
    {
      if ZoneOfPod(pods[k]) != podRemovalZone { continue; }
      if !pods[k].scheduled { continue; }
      return Some(k);
    }
    return None;
  }

  // ----- Balance

  /** The difference between any two of the zones is at most `most`. */
  ghost predicate SpreadAtMost(counts: multiset<string>, zones: set<string>, most: int) {
    forall a, b :: a in zones && b in zones ==> counts[a] - counts[b] <= most
  }

  /** Marking a pod takes it out of the next count. */
  lemma EvictionCounts(pods: seq<ZonedPod>, k: nat)
    requires k < |pods|
    ensures Counts(pods[..k] + pods[k + 1..]) == Counts(pods) - multiset{ZoneName(pods[k])}
  {
    var zones := ZonesOf(pods);
    assert zones == zones[..k] + [zones[k]] + zones[k + 1..];
    assert ZonesOf(pods[..k] + pods[k + 1..]) == zones[..k] + zones[k + 1..];
  }

  lemma EvictionKeepsSpread(counts: multiset<string>, zones: set<string>, zone: string, most: int)
    requires SpreadAtMost(counts, zones, most) && Fullest(counts, zone)
    ensures SpreadAtMost(counts - multiset{zone}, zones, if most >= 1 then most else 1)
  {
  }

  /** One eviction: a pod of a fullest zone leaves the unmarked pods. */
  ghost predicate Evicts(pods: seq<ZonedPod>, pods': seq<ZonedPod>) {
    exists k :: 0 <= k < |pods| && Fullest(Counts(pods), ZoneName(pods[k])) && pods' == pods[..k] + pods[k + 1..]
  }

  /** Over any number of evictions the zones stay as balanced as they were, or within one pod of each other. */
  lemma {:induction false} BalanceOverEvictions(run: seq<seq<ZonedPod>>, zones: set<string>, most: int, n: nat)
    requires n < |run| && forall i :: 0 <= i < |run| - 1 ==> Evicts(run[i], run[i + 1])
    requires SpreadAtMost(Counts(run[0]), zones, most)
    ensures SpreadAtMost(Counts(run[n]), zones, if most >= 1 then most else 1)
  {
    if n > 0 {
      BalanceOverEvictions(run, zones, most, n - 1);
      assert Evicts(run[n - 1], run[n - 1 + 1]);
      var pods := run[n - 1];
      var k :| 0 <= k < |pods| && Fullest(Counts(pods), ZoneName(pods[k])) && run[n] == pods[..k] + pods[k + 1..];
      EvictionCounts(pods, k);
      EvictionKeepsSpread(Counts(pods), zones, ZoneName(pods[k]), if most >= 1 then most else 1);
    }
  }
}
