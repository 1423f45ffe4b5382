/** Maintenance comes to an end: while the settings stay as they are, every pass that does something brings it
    nearer. */
module Progress {
  import opened Kube
  import opened NodePools
  import opened Decimal
  import opened Seqs
  import opened PodComparisons
  import opened PodsStatuses
  import opened PodLifecycles
  import opened ClusterStatuses
  import opened Maintenance
  import opened Availability
  import opened Exclusion
  import opened Zones
  import opened PodCreation

  // ----- Settings that stay as they are

  /** The settings of a pool whose restart or upgrade has begun: its revision and hashes are saved. */
  datatype Settings = Settings(pool: NodePool, state: State, desired: Pod, zones: map<string, string>)
  {
    predicate Valid() {
      && (state.Restarting? || state.Upgrading?)
      && ConstructedFor(pool, desired)
      && Lookup(desired.annotations, POD_HASH) == pool.desiredPodHash
      && BOOTSTRAP_TOKEN_HASH in desired.annotations
      && desired.annotations[BOOTSTRAP_TOKEN_HASH] == pool.desiredBootstrapTokenHash
      && "" !in zones
    }

    /** The stored entry, but for the zone. */
    predicate InForce(w: World) {
      && w.state == state && HasEntry(w.entries, pool.name)
      && EntryOf(w.entries, pool.name) == PoolStatus(pool.name, state, ZoneIn(w), pool.desiredPodRevision,
                                                     pool.desiredPodHash, pool.desiredBootstrapTokenHash)
    }

    function ZoneIn(w: World): string { EntryOf(w.entries, pool.name).zoneUnderMaintenance }

    function PodsIn(w: World): seq<Pod> { w.PodsOf(pool.name) }
  }

  lemma PrintedNumber(n: int)
    ensures Itoa(n) != ""
  {
  }

  lemma StaleIsObsolete(c: Settings, p: Pod)
    requires c.Valid() && StaleTest(c.pool)(p)
    ensures Obsolete(c.desired, p)
  {
    PrintedNumber(c.pool.desiredPodRevision);
    assert CRITICAL_ANNOTATIONS[1] == POD_HASH && CRITICAL_ANNOTATIONS[2] == POD_REVISION;
    assert Differs(p, c.desired)(POD_HASH) || Differs(p, c.desired)(POD_REVISION);
  }

  // ----- What is left to do

  function ObsoleteTest(c: Settings): Pod -> bool { (p: Pod) => Obsolete(c.desired, p) }

  /** Obsolete pods that nobody is deleting or about to delete. */
  function LeftTest(c: Settings, doomed: seq<string>): Pod -> bool {
    (p: Pod) => Obsolete(c.desired, p) && !p.deleting && p.name !in doomed
  }

  /** Obsolete pods that are still to be placed on a worker node. */
  function UnplacedTest(c: Settings): Pod -> bool { (p: Pod) => Obsolete(c.desired, p) && p.spec.nodeName == "" }

  predicate StaleSomewhere(c: Settings, pods: seq<Pod>) {
    exists p :: p in pods && StaleTest(c.pool)(p) && ZoneOf(c.zones, p) != ""
  }

  /** Writes still needed before the pinned zone is right. */
  function ZoneRank(c: Settings, zone: string, pods: seq<Pod>): nat {
    if zone != "" then (if StaleInZone(c.pool, c.zones, pods, zone) then 0 else 2)
    else if StaleSomewhere(c, pods) then 1 else 0
  }

  function PodRank(c: Settings, pods: seq<Pod>, doomed: seq<string>): nat {
    3 * |Filter(ObsoleteTest(c), pods)| + |Filter(LeftTest(c, doomed), pods)| + |Filter(UnplacedTest(c), pods)|
  }

  /** An upper bound on how many more passes do something. */
  function Rank(c: Settings, w: World): nat {
    PodRank(c, c.PodsIn(w), DoomedIn(w, c.pool.name)) + ZoneRank(c, c.ZoneIn(w), c.PodsIn(w))
  }

  /** Pins a zone, clears one, or sets out to delete at least one pod as a batch. */
  predicate DoesWork(d: Decision) { d.PinZone? || d.ClearZone? || (d.DeleteBatch? && d.pods != []) }

  /** A pass over the pool that does something, and whose write, if it makes one, succeeds. */
  predicate Works(w: World, a: Action, name: string) {
    a.Maintain? && a.pool.name == name && a.written && PassOf(w, a).Decide().Some?
    && DoesWork(PassOf(w, a).Decide().value)
  }

  predicate Finishes(w: World, a: Action, name: string) {
    a.Maintain? && a.pool.name == name && a.written && PassOf(w, a).Decide() == Some(FinishMaintenance)
  }

  /** Made from the settings: by a blueprint of the pool that has the same desired pod, and with TLS under a certificate
      that is up to date. */
  ghost predicate MadeBySettings(c: Settings, pool: NodePool, p: Pod) {
    exists b: Blueprint ::
      && b.pool == pool && b.DesiredPod() == c.desired && b.Makes(p)
      && (b.tls ==> Lookup(p.annotations, CERTIFICATE_HASH) == b.certificateHash)
  }

  lemma MadeIsUpToDate(c: Settings, pool: NodePool, p: Pod)
    requires c.Valid() && MadeBySettings(c, pool, p)
    ensures !Obsolete(c.desired, p)
  {
    var b: Blueprint :|
      && b.pool == pool && b.DesiredPod() == c.desired && b.Makes(p)
      && (b.tls ==> Lookup(p.annotations, CERTIFICATE_HASH) == b.certificateHash);
    assert c.desired.spec.containers == b.template.spec.containers;
    b.MadeUpToDate(p);
  }

  /** A step that keeps to the settings: a pass is made with them; new pods are made from them; and a pod keeps what
      it was made of, and its worker node once it has one. Writes and delete calls may fail. */
  ghost predicate KeepsTo(c: Settings, w: World, a: Action) {
    && IsGated(a)
    && (a.Maintain? && a.pool.name == c.pool.name ==>
          && a.desired == c.desired && a.zones == c.zones
          && a.pool == c.pool.(state := a.pool.state, zoneUnderMaintenance := a.pool.zoneUnderMaintenance))
    && (a.CreatePods? && a.pool.name == c.pool.name ==> forall p :: p in a.created ==> MadeBySettings(c, a.pool, p))
    && (a.Kubelet? && a.poolName == c.pool.name && a.index < |c.PodsIn(w)| ==> SamePod(c.PodsIn(w)[a.index], a.after))
  }

  predicate SamePod(p: Pod, q: Pod) {
    && q.annotations == p.annotations && q.spec.containers == p.spec.containers
    && (p.spec.nodeName != "" ==> q.spec.nodeName == p.spec.nodeName)
  }

  // ----- Changes of single pods

  lemma {:induction false} FilterPointwise(f: Pod -> bool, s: seq<Pod>, g: Pod -> bool, r: seq<Pod>)
    requires |r| == |s| && forall i :: 0 <= i < |s| ==> (g(r[i]) ==> f(s[i]))
    ensures |Filter(g, r)| <= |Filter(f, s)|
  {
    if s != [] {
      forall i | 0 <= i < |s[1..]| ensures g(r[1..][i]) ==> f(s[1..][i]) { assert g(r[i + 1]) ==> f(s[i + 1]); }
      FilterPointwise(f, s[1..], g, r[1..]);
    }
  }

  lemma SamePodObsolete(desired: Pod, p: Pod, q: Pod)
    requires q.annotations == p.annotations && q.spec.containers == p.spec.containers
    ensures Obsolete(desired, q) <==> Obsolete(desired, p)
  {
  }

  /** Pods change in place, without becoming more to do. */
  lemma PodsChangeInPlace(c: Settings, s: seq<Pod>, doomed: seq<string>, r: seq<Pod>, doomed': seq<string>)
    requires |r| == |s| && forall i :: 0 <= i < |s| ==> SamePod(s[i], r[i])
    requires forall i :: 0 <= i < |s| && !r[i].deleting && r[i].name !in doomed' ==>
      !s[i].deleting && s[i].name !in doomed
    ensures |Filter(ObsoleteTest(c), r)| <= |Filter(ObsoleteTest(c), s)|
    ensures |Filter(LeftTest(c, doomed'), r)| <= |Filter(LeftTest(c, doomed), s)|
    ensures |Filter(UnplacedTest(c), r)| <= |Filter(UnplacedTest(c), s)|
  {
    forall i | 0 <= i < |s|
      ensures Obsolete(c.desired, r[i]) <==> Obsolete(c.desired, s[i])
    {
      SamePodObsolete(c.desired, s[i], r[i]);
    }
    FilterPointwise(ObsoleteTest(c), s, ObsoleteTest(c), r);
    FilterPointwise(LeftTest(c, doomed), s, LeftTest(c, doomed'), r);
    FilterPointwise(UnplacedTest(c), s, UnplacedTest(c), r);
  }

  /** The rank of the zone depends on the zones that hold stale pods. */
  ghost predicate SameStale(c: Settings, s: seq<Pod>, r: seq<Pod>) {
    forall z :: StaleInZone(c.pool, c.zones, r, z) <==> StaleInZone(c.pool, c.zones, s, z)
  }

  /** Every stale pod of the one list has one in its zone in the other. */
  ghost predicate StaleCovered(c: Settings, s: seq<Pod>, r: seq<Pod>) {
    forall p :: p in s && StaleTest(c.pool)(p) ==> StaleInZone(c.pool, c.zones, r, ZoneOf(c.zones, p))
  }

  lemma StaleByMembers(c: Settings, s: seq<Pod>, r: seq<Pod>)
    requires StaleCovered(c, s, r) && StaleCovered(c, r, s)
    ensures SameStale(c, s, r)
  {
  }

  lemma StaleMember(c: Settings, s: seq<Pod>, p: Pod, zone: string)
    requires p in s && StaleTest(c.pool)(p) && ZoneOf(c.zones, p) == zone
    ensures StaleInZone(c.pool, c.zones, s, zone)
  {
  }

  lemma SomewhereBySame(c: Settings, s: seq<Pod>, r: seq<Pod>)
    requires SameStale(c, s, r) && StaleSomewhere(c, s)
    ensures StaleSomewhere(c, r)
  {
    var p :| p in s && StaleTest(c.pool)(p) && ZoneOf(c.zones, p) != "";
    assert StaleInZone(c.pool, c.zones, s, ZoneOf(c.zones, p));
  }

  lemma ZoneRankBySame(c: Settings, zone: string, s: seq<Pod>, r: seq<Pod>)
    requires SameStale(c, s, r)
    ensures ZoneRank(c, zone, r) == ZoneRank(c, zone, s)
  {
    if StaleSomewhere(c, s) { SomewhereBySame(c, s, r); }
    if StaleSomewhere(c, r) { SomewhereBySame(c, r, s); }
  }

  lemma DeleteKeepsStale(c: Settings, s: seq<Pod>, name: string)
    ensures SameStale(c, s, MarkDeleted(s, name))
  {
    var r := MarkDeleted(s, name);
    forall p | p in s && StaleTest(c.pool)(p) ensures StaleInZone(c.pool, c.zones, r, ZoneOf(c.zones, p)) {
      var i :| 0 <= i < |s| && s[i] == p;
      SameStaleness(c, p, r[i]);
      StaleMember(c, r, r[i], ZoneOf(c.zones, p));
    }
    forall p | p in r && StaleTest(c.pool)(p) ensures StaleInZone(c.pool, c.zones, s, ZoneOf(c.zones, p)) {
      var i :| 0 <= i < |r| && r[i] == p;
      SameStaleness(c, s[i], p);
      StaleMember(c, s, s[i], ZoneOf(c.zones, p));
    }
    StaleByMembers(c, s, r);
  }

  lemma SameStaleness(c: Settings, p: Pod, q: Pod)
    requires q.annotations == p.annotations
    ensures StaleTest(c.pool)(q) <==> StaleTest(c.pool)(p)
  {
  }

  lemma DeleteRank(c: Settings, zone: string, s: seq<Pod>, victims: seq<string>)
    requires victims != []
    ensures PodRank(c, MarkDeleted(s, victims[0]), victims[1..]) <= PodRank(c, s, victims)
    ensures ZoneRank(c, zone, MarkDeleted(s, victims[0])) == ZoneRank(c, zone, s)
  {
    assert victims == [victims[0]] + victims[1..];
    PodsChangeInPlace(c, s, victims, MarkDeleted(s, victims[0]), victims[1..]);
    DeleteKeepsStale(c, s, victims[0]);
    ZoneRankBySame(c, zone, s, MarkDeleted(s, victims[0]));
  }

  lemma MemberAfterUpdate(s: seq<Pod>, k: nat, x: Pod, p: Pod)
    requires k < |s| && p in s[k := x]
    ensures p == x || p in s
  {
  }

  lemma OtherMember(s: seq<Pod>, k: nat, x: Pod, p: Pod)
    requires k < |s| && p in s
    ensures p == s[k] || p in s[k := x]
  {
    var i :| 0 <= i < |s| && s[i] == p;
    if i != k { assert s[k := x][i] == p; }
  }

  lemma KubeletKeepsZone(c: Settings, s: seq<Pod>, k: nat, x: Pod, zone: string)
    requires c.Valid() && k < |s| && SamePod(s[k], x) && zone != "" && StaleInZone(c.pool, c.zones, s, zone)
    ensures StaleInZone(c.pool, c.zones, s[k := x], zone)
  {
    var p :| p in s && ZoneOf(c.zones, p) == zone && StaleTest(c.pool)(p);
    OtherMember(s, k, x, p);
    SameStaleness(c, s[k], x);
    assert s[k := x][k] == x;
  }

  lemma KubeletCovers(c: Settings, s: seq<Pod>, k: nat, x: Pod)
    requires k < |s| && SamePod(s[k], x) && (s[k].spec.nodeName == x.spec.nodeName || !StaleTest(c.pool)(x))
    ensures StaleCovered(c, s, s[k := x])
  {
    SameStaleness(c, s[k], x);
    assert s[k := x][k] == x;
    forall p | p in s && StaleTest(c.pool)(p) ensures StaleInZone(c.pool, c.zones, s[k := x], ZoneOf(c.zones, p)) {
      OtherMember(s, k, x, p);
      StaleMember(c, s[k := x], if p in s[k := x] then p else x, ZoneOf(c.zones, p));
    }
  }

  lemma KubeletSameStale(c: Settings, s: seq<Pod>, k: nat, x: Pod)
    requires k < |s| && SamePod(s[k], x) && (s[k].spec.nodeName == x.spec.nodeName || !StaleTest(c.pool)(x))
    ensures SameStale(c, s, s[k := x])
  {
    KubeletCovers(c, s, k, x);
    SameStaleness(c, s[k], x);
    forall p | p in s[k := x] && StaleTest(c.pool)(p) ensures StaleInZone(c.pool, c.zones, s, ZoneOf(c.zones, p)) {
      MemberAfterUpdate(s, k, x, p);
      StaleMember(c, s, if p in s then p else s[k], ZoneOf(c.zones, p));
    }
    StaleByMembers(c, s, s[k := x]);
  }

  /** When one stale pod is placed, at most the pin of its zone is added to what is left to do. */
  lemma KubeletZoneRank(c: Settings, zone: string, s: seq<Pod>, k: nat, x: Pod)
    requires c.Valid() && k < |s| && SamePod(s[k], x)
    ensures ZoneRank(c, zone, s[k := x]) <= ZoneRank(c, zone, s) + 1
  {
    if zone != "" && StaleInZone(c.pool, c.zones, s, zone) { KubeletKeepsZone(c, s, k, x, zone); }
  }

  /** One pod changes. If it is placed on a worker node only now, that uses up one count of unplaced pods. */
  lemma KubeletRank(c: Settings, zone: string, s: seq<Pod>, doomed: seq<string>, k: nat, x: Pod)
    requires c.Valid() && k < |s| && SamePod(s[k], x) && x.name == s[k].name && (s[k].deleting ==> x.deleting)
    ensures PodRank(c, s[k := x], doomed) + ZoneRank(c, zone, s[k := x]) <= PodRank(c, s, doomed) + ZoneRank(c, zone, s)
  {
    var r := s[k := x];
    PodsChangeInPlace(c, s, doomed, r, doomed);
    if s[k].spec.nodeName == x.spec.nodeName || !StaleTest(c.pool)(x) {
      KubeletSameStale(c, s, k, x);
      ZoneRankBySame(c, zone, s, r);
    } else {
      KubeletZoneRank(c, zone, s, k, x);
      SamePodObsolete(c.desired, s[k], x);
      StaleIsObsolete(c, x);
      FilterUpdate(UnplacedTest(c), s, k, x);
    }
  }

  lemma PodGoneRank(c: Settings, zone: string, s: seq<Pod>, doomed: seq<string>, k: nat)
    requires c.Valid() && k < |s|
    ensures var r := s[..k] + s[k + 1..];
      PodRank(c, r, doomed) + ZoneRank(c, zone, r) <= PodRank(c, s, doomed) + ZoneRank(c, zone, s)
  {
    var r := s[..k] + s[k + 1..];
    FilterRemove(ObsoleteTest(c), s, k);
    FilterRemove(LeftTest(c, doomed), s, k);
    FilterRemove(UnplacedTest(c), s, k);
    if !Obsolete(c.desired, s[k]) {
      if StaleTest(c.pool)(s[k]) { StaleIsObsolete(c, s[k]); }
      GoneKeepsStale(c, s, k);
      ZoneRankBySame(c, zone, s, r);
    }
  }

  lemma GoneKeepsStale(c: Settings, s: seq<Pod>, k: nat)
    requires k < |s| && !StaleTest(c.pool)(s[k])
    ensures SameStale(c, s, s[..k] + s[k + 1..])
  {
    var r := s[..k] + s[k + 1..];
    forall p | p in s && StaleTest(c.pool)(p) ensures p in r {
      var i :| 0 <= i < |s| && s[i] == p;
      if i < k { assert r[i] == p; } else { assert r[i - 1] == p; }
    }
    assert forall p :: p in r ==> p in s;
    StaleByMembers(c, s, r);
  }

  lemma CreateRank(c: Settings, zone: string, s: seq<Pod>, doomed: seq<string>, created: seq<Pod>)
    requires c.Valid() && forall p :: p in created ==> !Obsolete(c.desired, p)
    ensures PodRank(c, s + created, doomed) == PodRank(c, s, doomed)
    ensures ZoneRank(c, zone, s + created) == ZoneRank(c, zone, s)
  {
    FilterConcat(ObsoleteTest(c), s, created); FilterNone(ObsoleteTest(c), created);
    FilterConcat(LeftTest(c, doomed), s, created); FilterNone(LeftTest(c, doomed), created);
    FilterConcat(UnplacedTest(c), s, created); FilterNone(UnplacedTest(c), created);
    forall p | p in created ensures !StaleTest(c.pool)(p) {
      if StaleTest(c.pool)(p) { StaleIsObsolete(c, p); }
    }
    StaleByMembers(c, s, s + created);
    ZoneRankBySame(c, zone, s, s + created);
  }

  // ----- Passes

  /** Under settings in force a pass neither enters maintenance nor saves a revision. */
  lemma NothingToSave(p: Pass, s: PodsStatus, l: Lifecycle)
    requires p.Replacing() && !p.NewRevision() && p.DecideFrom(s, l).Some?
    ensures !p.DecideFrom(s, l).value.EnterMaintenance? && !p.DecideFrom(s, l).value.SaveRevision?
  {
  }

  lemma PassKeepsRevision(c: Settings, p: Pass)
    requires c.Valid() && p.clusterState == c.state && p.desired == c.desired
    requires p.pool.desiredPodHash == c.pool.desiredPodHash
    requires p.pool.desiredBootstrapTokenHash == c.pool.desiredBootstrapTokenHash
    requires p.Decide().Some?
    ensures !p.Decide().value.EnterMaintenance? && !p.Decide().value.SaveRevision?
  {
    DecideUnfolds(p);
    var s := StatusOf(p.pool, p.pods, p.now).value;
    NothingToSave(p, s, p.LifecycleFrom(s));
  }

  lemma {:induction false} ErrorsAreListed(pods: seq<Pod>, minReadySeconds: int, now: nat)
    ensures forall e :: e in PodsTally(pods, minReadySeconds, now).errors ==> e in pods
  {
    if pods != [] {
      var init, last := pods[..|pods| - 1], pods[|pods| - 1];
      ErrorsAreListed(init, minReadySeconds, now);
      ConditionsReady(last, last.status.conditions, RemainingWait(last.status.conditions, minReadySeconds, now));
      assert last in pods && forall p :: p in init ==> p in pods;
    }
  }

  lemma BatchFrom(p: Pass, s: PodsStatus, d: Decision)
    requires p.DecideFrom(s, p.LifecycleFrom(s)) == Some(d) && d.DeleteBatch?
    requires forall e :: e in s.podsWithErrors ==> e in p.pods
    ensures forall q :: q in d.pods ==> q in p.pods && !q.deleting && Obsolete(p.desired, q)
  {
    ReplacedPods(p.CompareContext(s), p.Considered(s));
    DeletionReasons(p, s, p.LifecycleFrom(s));
    forall q | q in d.pods ensures q in p.pods && !q.deleting && Obsolete(p.desired, q) {
      assert ReplaceTest(p.CompareContext(s))(q);
      OutdatedIsObsolete(p.CompareContext(s), q);
    }
  }

  /** Pods of a batch are listed, live and obsolete. */
  lemma BatchIsObsolete(p: Pass, d: Decision)
    requires p.Decide() == Some(d) && d.DeleteBatch?
    ensures forall q :: q in d.pods ==> q in p.pods && !q.deleting && Obsolete(p.desired, q)
  {
    DecideUnfolds(p);
    var s := StatusOf(p.pool, p.pods, p.now).value;
    ErrorsAreListed(p.pods, p.pool.GetUpdateStrategy().minReadySeconds, p.now);
    BatchFrom(p, s, d);
  }

  lemma {:induction false} FilterStrict(f: Pod -> bool, g: Pod -> bool, s: seq<Pod>, x: Pod)
    requires forall p :: p in s && f(p) ==> g(p)
    requires x in s && g(x) && !f(x)
    ensures |Filter(f, s)| < |Filter(g, s)|
  {
    assert s[0] in s && forall p :: p in s[1..] ==> p in s;
    if x in s[1..] { FilterStrict(f, g, s[1..], x); } else { FilterMonotone(f, g, s[1..]); }
  }

  /** Setting out to delete adds nothing to what is left to do, and for a batch takes something away. */
  lemma DoomRank(c: Settings, pods: seq<Pod>, victims: seq<string>)
    ensures PodRank(c, pods, victims) <= PodRank(c, pods, [])
  {
    FilterMonotone(LeftTest(c, victims), LeftTest(c, []), pods);
  }

  lemma BatchRank(c: Settings, pods: seq<Pod>, batch: seq<Pod>)
    requires batch != [] && forall q :: q in batch ==> q in pods && !q.deleting && Obsolete(c.desired, q)
    ensures PodRank(c, pods, Map(Name(), batch)) < PodRank(c, pods, [])
  {
    var victims := Map(Name(), batch);
    assert batch[0] in batch && victims[0] == batch[0].name;
    FilterStrict(LeftTest(c, victims), LeftTest(c, []), pods, batch[0]);
  }

  lemma PinRank(c: Settings, pods: seq<Pod>, zone: string)
    requires zone != "" && StaleInZone(c.pool, c.zones, pods, zone)
    ensures ZoneRank(c, zone, pods) < ZoneRank(c, "", pods)
  {
    var p :| p in pods && ZoneOf(c.zones, p) == zone && StaleTest(c.pool)(p);
    assert StaleSomewhere(c, pods);
  }

  lemma ClearRank(c: Settings, pods: seq<Pod>, zone: string)
    requires zone != "" && !StaleInZone(c.pool, c.zones, pods, zone)
    ensures ZoneRank(c, "", pods) < ZoneRank(c, zone, pods)
  {
  }

  /** What a decision made under the settings is known to rest on. */
  ghost predicate WellFounded(c: Settings, w: World, d: Decision) {
    && !d.EnterMaintenance? && !d.SaveRevision? && !d.FinishMaintenance?
    && (d.PinZone? ==> c.ZoneIn(w) == "" && d.zone != "" && StaleInZone(c.pool, c.zones, c.PodsIn(w), d.zone))
    && (d.ClearZone? ==> c.ZoneIn(w) != "" && !StaleInZone(c.pool, c.zones, c.PodsIn(w), c.ZoneIn(w)))
    && (d.DeleteBatch? ==> forall q :: q in d.pods ==> q in c.PodsIn(w) && !q.deleting && Obsolete(c.desired, q))
  }

  /** The settings of the pool with the two fields that come from the stored entry. */
  function PoolIn(c: Settings, w: World): NodePool { c.pool.(state := c.state, zoneUnderMaintenance := c.ZoneIn(w)) }

  /** A pass that writes nothing changes the worker only. */
  lemma UnwrittenRank(c: Settings, w: World, w': World, d: Decision)
    requires w.worker.Idle? && WellFounded(c, w, d) && !d.PinZone? && !d.ClearZone?
    requires w' == w.(worker := if VictimsOf(d) == [] then Idle else Deleting(c.pool.name, VictimsOf(d)))
    ensures Rank(c, w') <= Rank(c, w) && (DoesWork(d) ==> Rank(c, w') < Rank(c, w))
  {
    assert DoomedIn(w', c.pool.name) == VictimsOf(d);
    DoomRank(c, c.PodsIn(w), VictimsOf(d));
    if DoesWork(d) { BatchRank(c, c.PodsIn(w), d.pods); }
  }

  lemma WrittenRank(c: Settings, w: World, w': World, zone: string)
    requires c.Valid() && c.InForce(w)
    requires w' == w.Write(PoolStatus(c.pool.name, c.state, zone, c.pool.desiredPodRevision, c.pool.desiredPodHash,
                                      c.pool.desiredBootstrapTokenHash))
    ensures c.InForce(w') && c.ZoneIn(w') == zone && c.PodsIn(w') == c.PodsIn(w) && w'.worker == w.worker
  {
    PutPoolEntries(w.entries, PoolStatus(c.pool.name, c.state, zone, c.pool.desiredPodRevision, c.pool.desiredPodHash,
                                         c.pool.desiredBootstrapTokenHash), c.pool.name);
  }

  lemma DecisionRank(c: Settings, w: World, w': World, pass: Pass, d: Decision, written: bool)
    requires c.Valid() && c.InForce(w) && w.worker.Idle? && WellFounded(c, w, d) && pass.pool == PoolIn(c, w)
    requires w' == if pass.WriteFor(d).Some? then (if written then w.Write(pass.WriteFor(d).value) else w)
                   else w.(worker := if VictimsOf(d) == [] then Idle else Deleting(c.pool.name, VictimsOf(d)))
    ensures c.InForce(w') && Rank(c, w') <= Rank(c, w) && (DoesWork(d) && written ==> Rank(c, w') < Rank(c, w))
  {
    match d
    case PinZone(zone) => if written {
      WrittenRank(c, w, w', zone);
      PinRank(c, c.PodsIn(w), zone);
    }
    case ClearZone => if written {
      WrittenRank(c, w, w', "");
      ClearRank(c, c.PodsIn(w), c.ZoneIn(w));
    }
    case _ => UnwrittenRank(c, w, w', d);
  }

  lemma SameStaleTest(c: Settings, w: World, listing: seq<Pod>, zone: string)
    requires forall p :: p in listing <==> p in c.PodsIn(w)
    ensures StaleInZone(PoolIn(c, w), c.zones, listing, zone) <==> StaleInZone(c.pool, c.zones, c.PodsIn(w), zone)
  {
    assert forall p :: StaleTest(PoolIn(c, w))(p) <==> StaleTest(c.pool)(p);
  }

  /** A pass made with settings in force. */
  ghost predicate MadeBy(c: Settings, w: World, pass: Pass) {
    && pass.pool == PoolIn(c, w) && pass.clusterState == c.state && pass.desired == c.desired && pass.zones == c.zones
    && pass.pods == SortByName(c.PodsIn(w))
  }

  lemma PassIsWellFounded(c: Settings, w: World, pass: Pass, d: Decision)
    requires c.Valid() && MadeBy(c, w, pass) && pass.Decide() == Some(d) && !d.FinishMaintenance?
    ensures WellFounded(c, w, d)
  {
    PassKeepsRevision(c, pass);
    SortedListing(c.PodsIn(w));
    ZoneDecisionsFollowStalePods(pass);
    if d.PinZone? { SameStaleTest(c, w, pass.pods, d.zone); }
    if d.ClearZone? { SameStaleTest(c, w, pass.pods, c.ZoneIn(w)); }
    if d.DeleteBatch? { BatchIsObsolete(pass, d); }
  }

  lemma PassIsMade(c: Settings, w: World, a: Action)
    requires a.Maintain? && a.pool.name == c.pool.name && c.InForce(w) && KeepsTo(c, w, a)
    requires Snapshot(a.pool, w.entries)
    ensures MadeBy(c, w, PassOf(w, a))
  {
  }

  lemma MaintainRank(configured: set<string>, c: Settings, w: World, a: Action, w': World)
    requires a.Maintain? && a.pool.name == c.pool.name && MaintainStep(configured, w, a, w')
    requires c.Valid() && c.InForce(w) && KeepsTo(c, w, a) && !Finishes(w, a, c.pool.name)
    ensures c.InForce(w') && Rank(c, w') <= Rank(c, w) && (Works(w, a, c.pool.name) ==> Rank(c, w') < Rank(c, w))
  {
    var pass := PassOf(w, a);
    PassIsMade(c, w, a);
    if pass.Decide().Some? && !pass.Decide().value.FinishMaintenance? {
      PassIsWellFounded(c, w, pass, pass.Decide().value);
      DecisionRank(c, w, w', pass, pass.Decide().value, a.written);
    }
  }

  // ----- Steps and runs

  /** While the pool is being restarted or upgraded, the maintenance check keeps all others out. */
  lemma OthersStayOut(configured: set<string>, c: Settings, w: World, name: string)
    requires Ordered(configured, w) && c.Valid() && c.InForce(w) && Allows(configured, w.entries, name)
    ensures name == c.pool.name
  {
    AllowedIsInMaintenance(configured, w, name);
    assert InMaintenance(w.entries, c.pool.name);
  }

  lemma DeleteStepRank(c: Settings, w: World, w': World)
    requires DeleteNextStep(w, w') && c.InForce(w)
    ensures c.InForce(w') && Rank(c, w') <= Rank(c, w)
  {
    if w.worker.pool == c.pool.name { DeleteRank(c, c.ZoneIn(w), c.PodsIn(w), w.worker.victims); }
  }

  lemma KubeletStepRank(c: Settings, w: World, a: Action, w': World)
    requires a.Kubelet? && KubeletStep(w, a, w') && c.Valid() && c.InForce(w) && KeepsTo(c, w, a)
    ensures c.InForce(w') && Rank(c, w') <= Rank(c, w)
  {
    if a.poolName == c.pool.name {
      KubeletRank(c, c.ZoneIn(w), c.PodsIn(w), DoomedIn(w, c.pool.name), a.index, a.after);
    }
  }

  lemma PodGoneStepRank(c: Settings, w: World, a: Action, w': World)
    requires a.PodGone? && PodGoneStep(w, a, w') && c.Valid() && c.InForce(w)
    ensures c.InForce(w') && Rank(c, w') <= Rank(c, w)
  {
    if a.poolName == c.pool.name { PodGoneRank(c, c.ZoneIn(w), c.PodsIn(w), DoomedIn(w, c.pool.name), a.index); }
  }

  lemma CreatedAreUpToDate(c: Settings, w: World, a: Action)
    requires a.CreatePods? && a.pool.name == c.pool.name && c.Valid() && KeepsTo(c, w, a)
    ensures forall p :: p in a.created ==> !Obsolete(c.desired, p)
  {
    forall p | p in a.created ensures !Obsolete(c.desired, p) { MadeIsUpToDate(c, a.pool, p); }
  }

  lemma CreateStepRank(configured: set<string>, c: Settings, w: World, a: Action, w': World)
    requires a.CreatePods? && CreateStep(configured, w, a, w') && c.Valid() && c.InForce(w) && KeepsTo(c, w, a)
    ensures c.InForce(w') && Rank(c, w') <= Rank(c, w)
  {
    if a.pool.name == c.pool.name {
      CreatedAreUpToDate(c, w, a);
      CreateRank(c, c.ZoneIn(w), c.PodsIn(w), DoomedIn(w, c.pool.name), a.created);
    }
  }

  /** Sparing one doomed name adds at most one pod to those that are left. */
  lemma {:induction false} SpareOne(c: Settings, pods: seq<Pod>, doomed: seq<string>)
    requires UniqueNames(pods) && doomed != []
    ensures |Filter(LeftTest(c, doomed[1..]), pods)| <= |Filter(LeftTest(c, doomed), pods)| + 1
  {
    if pods != [] {
      var rest := pods[1..];
      forall i, j | 0 <= i < j < |rest|
        ensures rest[i].name != rest[j].name
      {
        assert pods[i + 1].name != pods[j + 1].name;
      }
      assert doomed == [doomed[0]] + doomed[1..];
      if pods[0].name == doomed[0] {
        forall p | p in rest ensures p.name != doomed[0] {
          var k :| 0 <= k < |rest| && rest[k] == p;
          assert pods[k + 1] == p;
        }
        FilterMonotone(LeftTest(c, doomed[1..]), LeftTest(c, doomed), rest);
      } else {
        SpareOne(c, rest, doomed);
      }
    }
  }

  /** Giving a batch up half way leaves at most as many more pods as it names. */
  lemma {:induction false} EndRank(c: Settings, pods: seq<Pod>, doomed: seq<string>)
    requires UniqueNames(pods)
    ensures PodRank(c, pods, []) <= PodRank(c, pods, doomed) + |doomed|
  {
    if doomed != [] {
      EndRank(c, pods, doomed[1..]);
      SpareOne(c, pods, doomed);
    }
  }

  lemma EndStepRank(c: Settings, w: World, w': World)
    requires w' == w.(worker := Idle) && c.InForce(w) && UniqueNames(c.PodsIn(w))
    ensures c.InForce(w') && Rank(c, w') <= Rank(c, w) + |DoomedIn(w, c.pool.name)|
  {
    EndRank(c, c.PodsIn(w), DoomedIn(w, c.pool.name));
  }

  /** How many delete calls the step gives up. */
  function GivesUp(w: World, a: Action, name: string): nat { if a.EndPass? then |DoomedIn(w, name)| else 0 }

  /** No step adds to what is left to do, except that delete calls are given up, and a pass that does something takes
      from it. */
  lemma StepRank(configured: set<string>, c: Settings, w: World, a: Action, w': World)
    requires Next(configured, w, a, w') && Ordered(configured, w) && UniqueNames(c.PodsIn(w))
    requires c.Valid() && c.InForce(w) && KeepsTo(c, w, a) && !Finishes(w, a, c.pool.name)
    ensures c.InForce(w') && Rank(c, w') <= Rank(c, w) + GivesUp(w, a, c.pool.name)
    ensures Works(w, a, c.pool.name) ==> Rank(c, w') < Rank(c, w)
  {
    match a
    case Maintain(_, _, _, _, _) => {
      OthersStayOut(configured, c, w, a.pool.name);
      MaintainRank(configured, c, w, a, w');
    }
    case DeleteNext => DeleteStepRank(c, w, w');
    case Kubelet(_, _, _) => KubeletStepRank(c, w, a, w');
    case PodGone(_, _) => PodGoneStepRank(c, w, a, w');
    case CreatePods(_, _) => CreateStepRank(configured, c, w, a, w');
    case EndPass => EndStepRank(c, w, w');
    case _ =>
  }

  lemma StepKeepsNames(configured: set<string>, w: World, a: Action, w': World, name: string)
    requires Next(configured, w, a, w') && UniqueNames(w.PodsOf(name))
    ensures UniqueNames(w'.PodsOf(name))
  {
  }

  /** How many of the steps satisfy a test. */
  function Count(ws: seq<World>, acts: seq<Action>, test: (World, Action) -> bool): nat
    requires |ws| == |acts| + 1
  {
    if acts == [] then 0
    else
      var n := |acts| - 1;
      Count(ws[..n + 1], acts[..n], test) + if test(ws[n], acts[n]) then 1 else 0
  }

  /** How many delete calls were given up. */
  function GivenUp(ws: seq<World>, acts: seq<Action>, name: string): nat
    requires |ws| == |acts| + 1
  {
    if acts == [] then 0
    else
      var n := |acts| - 1;
      GivenUp(ws[..n + 1], acts[..n], name) + GivesUp(ws[n], acts[n], name)
  }

  function WorkTest(name: string): (World, Action) -> bool { (w: World, a: Action) => Works(w, a, name) }

  ghost predicate Undisturbed(configured: set<string>, c: Settings, ws: seq<World>, acts: seq<Action>) {
    && Run(configured, ws, acts) && Ordered(configured, ws[0]) && UniqueNames(c.PodsIn(ws[0]))
    && c.Valid() && c.InForce(ws[0])
    && forall i :: 0 <= i < |acts| ==> KeepsTo(c, ws[i], acts[i])
  }

  lemma PrefixUndisturbed(configured: set<string>, c: Settings, ws: seq<World>, acts: seq<Action>)
    requires Undisturbed(configured, c, ws, acts) && acts != []
    ensures Undisturbed(configured, c, ws[..|acts|], acts[..|acts| - 1])
  {
    var vs, bs := ws[..|acts|], acts[..|acts| - 1];
    forall i | 0 <= i < |bs| ensures Next(configured, vs[i], bs[i], vs[i + 1]) && KeepsTo(c, vs[i], bs[i]) {
      assert vs[i] == ws[i] && bs[i] == acts[i] && vs[i + 1] == ws[i + 1];
    }
  }

  /** In a run that keeps to the settings and has not finished yet, the passes that did something number at most what
      was left to do at its start and the delete calls that were given up, less what is still left. */
  lemma {:induction false} BoundedWork(configured: set<string>, c: Settings, ws: seq<World>, acts: seq<Action>)
    requires Undisturbed(configured, c, ws, acts)
    requires forall i :: 0 <= i < |acts| ==> !Finishes(ws[i], acts[i], c.pool.name)
    ensures Ordered(configured, ws[|acts|]) && c.InForce(ws[|acts|]) && UniqueNames(c.PodsIn(ws[|acts|]))
    ensures Count(ws, acts, WorkTest(c.pool.name)) + Rank(c, ws[|acts|])
        <= Rank(c, ws[0]) + GivenUp(ws, acts, c.pool.name)
    decreases |acts|
  {
    if acts != [] {
      var n := |acts| - 1;
      PrefixUndisturbed(configured, c, ws, acts);
      BoundedWork(configured, c, ws[..n + 1], acts[..n]);
      assert ws[..n + 1][n] == ws[n] && ws[..n + 1][0] == ws[0];
      GatedStepOrdered(configured, ws[n], acts[n], ws[n + 1]);
      StepKeepsNames(configured, ws[n], acts[n], ws[n + 1], c.pool.name);
      StepRank(configured, c, ws[n], acts[n], ws[n + 1]);
    }
  }
}
