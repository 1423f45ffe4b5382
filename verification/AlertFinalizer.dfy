/** The life of an alert: a Kubernetes resource with a finalizer, and its counterpart in LogScale. */
module AlertFinalizer {
  import opened Kube
  import opened Ordering

  /** Where an alert lives in LogScale. */
  datatype Key = Key(cluster: string, view: string, name: string)

  /** `labels` is None when the resource has none, which is not the same as an empty list. */
  datatype AlertSpec = AlertSpec(
    key: Key,
    description: string,
    queryString: string,
    start: string,
    throttleTimeMillis: int,
    throttleField: Option<string>,
    silenced: bool,
    actions: seq<string>,
    labels: Option<seq<string>>)

  datatype RemoteAlert = RemoteAlert(
    description: Option<string>,
    queryString: string,
    start: string,
    throttleTimeMillis: int,
    throttleField: Option<string>,
    enabled: bool,
    actions: seq<string>,
    labels: seq<string>,
    organizationOwned: bool)

  function SortList(s: seq<string>): seq<string> { Sort(StringLess(), s) }

  function SortedLists(spec: AlertSpec): AlertSpec {
    spec.(actions := SortList(spec.actions),
          labels := if spec.labels.Some? then Some(SortList(spec.labels.value)) else None)
  }

  function EmptySliceIfNil(s: Option<seq<string>>): seq<string> { if s.Some? then s.value else [] }

  /** What the operator sends to LogScale. */
  function Sent(spec: AlertSpec): RemoteAlert {
    RemoteAlert(Some(spec.description), spec.queryString, spec.start, spec.throttleTimeMillis, spec.throttleField,
                !spec.silenced, spec.actions, EmptySliceIfNil(spec.labels), true)
  }

  // ----- The comparison

  predicate AsExpected(spec: AlertSpec, remote: RemoteAlert) {
    && remote.description == Some(spec.description)
    && Some(SortList(remote.labels)) == SortedLists(spec).labels
    && remote.throttleField == spec.throttleField
    && remote.throttleTimeMillis == spec.throttleTimeMillis
    && SortList(remote.actions) == SortList(spec.actions)
    && remote.queryString == spec.queryString
    && remote.start == spec.start
    && remote.enabled == !spec.silenced
    && remote.organizationOwned
  }

  /** The remote alert says what the resource asks for; the order of labels and actions is of no account. */
  ghost predicate Agrees(spec: AlertSpec, remote: RemoteAlert) {
    && remote.description == Some(spec.description)
    && remote.queryString == spec.queryString && remote.start == spec.start
    && remote.throttleTimeMillis == spec.throttleTimeMillis && remote.throttleField == spec.throttleField
    && (remote.enabled <==> !spec.silenced) && remote.organizationOwned
    && multiset(remote.actions) == multiset(spec.actions)
    && multiset(remote.labels) == multiset(EmptySliceIfNil(spec.labels))
  }

  /** Writing the finalizer leaves a resource with labels exactly when there is at least one. */
  lemma LabelsAfterFinalizer(r: Resource)
    ensures WithFinalizer(r).spec.labels.Some? <==> EmptySliceIfNil(r.spec.labels) != []
    ensures WithFinalizer(r).spec.key == r.spec.key && Sent(WithFinalizer(r).spec) == Sent(r.spec)
  {
  }

  /** The comparison accepts exactly the alerts that agree, except that a resource without labels is never accepted: its
      missing list differs from the empty one that LogScale returns, so it is updated in every reconcile. */
  lemma AsExpectedExactly(spec: AlertSpec, remote: RemoteAlert)
    ensures AsExpected(spec, remote) <==> Agrees(spec, remote) && spec.labels.Some?
  {
    SortedEqually(remote.actions, spec.actions);
    SortedEqually(remote.labels, EmptySliceIfNil(spec.labels));
  }

  lemma SentAgrees(spec: AlertSpec)
    ensures Agrees(spec, Sent(spec)) && Agrees(spec, Sent(SortedLists(spec)))
  {
    SortPermutes(StringLess(), spec.actions);
    SortPermutes(StringLess(), EmptySliceIfNil(spec.labels));
  }

  /** The resource as the reconcile holds it in memory; the comparison sorts its lists in place. */
  class HumioAlert {
    var spec: AlertSpec

    constructor (spec: AlertSpec)
      ensures this.spec == spec
    {
      this.spec := spec;
    }

    method AlertAlreadyAsExpected(remote: RemoteAlert) returns (r: bool)
      modifies this
      ensures r == AsExpected(old(spec), remote)
      ensures spec == SortedLists(old(spec))
    {
      r := true;
      if remote.description != Some(spec.description) { r := false; }
      var labelsFromGraphQL := SortList(remote.labels);
      spec := spec.(labels := if spec.labels.Some? then Some(SortList(spec.labels.value)) else None);
      if Some(labelsFromGraphQL) != spec.labels { r := false; }
      if remote.throttleField != spec.throttleField { r := false; }
      if remote.throttleTimeMillis != spec.throttleTimeMillis { r := false; }
      var actionsFromGraphQL := SortList(remote.actions);
      spec := spec.(actions := SortList(spec.actions));
      if actionsFromGraphQL != spec.actions { r := false; }
      if remote.queryString != spec.queryString { r := false; }
      if remote.start != spec.start { r := false; }
      if remote.enabled != !spec.silenced { r := false; }
      if !remote.organizationOwned { r := false; }
    }
  }

  // ----- The protocol

  /** The spec as it is stored when the operator writes the whole resource: an empty list of labels is left out. */
  function Stored(spec: AlertSpec): AlertSpec {
    if spec.labels == Some([]) then spec.(labels := None) else spec
  }

  datatype Resource = Resource(spec: AlertSpec, deleting: bool, finalizer: bool)

  /** How far a reconcile has come: it has fetched the resource, or also looked for the alert. */
  datatype Stage = Fetched | Absent | Present(current: Option<RemoteAlert>)

  datatype Worker = Idle | Working(seen: Resource, version: nat, stage: Stage)

  /** `version` is the resource version that conflict-checked writes are compared with. */
  datatype World = World(resource: Option<Resource>, version: nat, remote: map<Key, RemoteAlert>, worker: Worker)

  datatype Action =
    | Fetch
    | AddFinalizer
    | Look
    | LookFails
    | AddAlert
    | UpdateAlert
    | DeleteAlert
    | RemoveFinalizer
    | EndPass
    | UserCreates(spec: AlertSpec)
    | UserEdits(spec: AlertSpec)
    | UserDeletes
    | StatusChanges
    | AlertLost(key: Key)

  /** The write that adds the finalizer. */
  function WithFinalizer(r: Resource): Resource { r.(spec := Stored(r.spec), finalizer := true) }

  predicate FetchStep(w: World, w': World) {
    w.worker.Idle? && w.resource.Some? && w' == w.(worker := Working(w.resource.value, w.version, Fetched))
  }

  predicate AddFinalizerStep(w: World, w': World) {
    && w.worker.Working? && w.worker.stage.Fetched? && !w.worker.seen.deleting && !w.worker.seen.finalizer
    && w.resource.Some? && w.worker.version == w.version
    && w' == w.(resource := Some(WithFinalizer(w.resource.value)), version := w.version + 1, worker := Idle)
  }

  /** Looking for the alert under the key of the fetched resource. */
  predicate LookStep(w: World, w': World) {
    && w.worker.Working? && w.worker.stage.Fetched? && w.worker.seen.finalizer
    && var key := w.worker.seen.spec.key;
       w' == w.(worker := w.worker.(stage := if key in w.remote then Present(Some(w.remote[key])) else Absent))
  }

  /** During deletion, any error other than "not found" leads on to the delete call. */
  predicate LookFailsStep(w: World, w': World) {
    && w.worker.Working? && w.worker.stage.Fetched? && w.worker.seen.finalizer && w.worker.seen.deleting
    && w' == w.(worker := w.worker.(stage := Present(None)))
  }

  predicate AddAlertStep(w: World, w': World) {
    && w.worker.Working? && w.worker.stage.Absent? && !w.worker.seen.deleting
    && w' == w.(remote := w.remote[w.worker.seen.spec.key := Sent(w.worker.seen.spec)], worker := Idle)
  }

  predicate UpdateAlertStep(w: World, w': World) {
    && w.worker.Working? && w.worker.stage.Present? && w.worker.stage.current.Some? && !w.worker.seen.deleting
    && !AsExpected(w.worker.seen.spec, w.worker.stage.current.value) && w.worker.seen.spec.key in w.remote
    && w' == w.(remote := w.remote[w.worker.seen.spec.key := Sent(SortedLists(w.worker.seen.spec))], worker := Idle)
  }

  predicate DeleteAlertStep(w: World, w': World) {
    && w.worker.Working? && w.worker.stage.Present? && w.worker.seen.deleting
    && w' == w.(remote := w.remote - {w.worker.seen.spec.key}, worker := Idle)
  }

  /** A resource that is being deleted goes away with its finalizer. */
  predicate RemoveFinalizerStep(w: World, w': World) {
    && w.worker.Working? && w.worker.stage.Absent? && w.worker.seen.deleting
    && w.resource.Some? && w.worker.version == w.version
    && w' == w.(resource := None, version := w.version + 1, worker := Idle)
  }

  predicate UserCreatesStep(w: World, spec: AlertSpec, w': World) {
    w.resource.None? && w' == w.(resource := Some(Resource(spec, false, false)), version := w.version + 1)
  }

  /** The name cannot be changed; the view and the cluster can. */
  predicate UserEditsStep(w: World, spec: AlertSpec, w': World) {
    && w.resource.Some? && spec.key.name == w.resource.value.spec.key.name
    && w' == w.(resource := Some(w.resource.value.(spec := spec)), version := w.version + 1)
  }

  predicate UserDeletesStep(w: World, w': World) {
    && w.resource.Some?
    && w' == w.(resource := if w.resource.value.finalizer then Some(w.resource.value.(deleting := true)) else None,
                version := w.version + 1)
  }

  predicate Step(w: World, a: Action, w': World) {
    match a
    case Fetch => FetchStep(w, w')
    case AddFinalizer => AddFinalizerStep(w, w')
    case Look => LookStep(w, w')
    case LookFails => LookFailsStep(w, w')
    case AddAlert => AddAlertStep(w, w')
    case UpdateAlert => UpdateAlertStep(w, w')
    case DeleteAlert => DeleteAlertStep(w, w')
    case RemoveFinalizer => RemoveFinalizerStep(w, w')
    case EndPass => w' == w.(worker := Idle)
    case UserCreates(spec) => UserCreatesStep(w, spec, w')
    case UserEdits(spec) => UserEditsStep(w, spec, w')
    case UserDeletes => UserDeletesStep(w, w')
    case StatusChanges => w' == w.(version := w.version + 1)
    case AlertLost(key) => w' == w.(remote := w.remote - {key})
  }

  ghost predicate Run(ws: seq<World>, acts: seq<Action>) {
    |ws| == |acts| + 1 && forall i :: 0 <= i < |acts| ==> Step(ws[i], acts[i], ws[i + 1])
  }

  // ----- No orphans

  /** Every alert that the operator created belongs to the resource, which still holds the finalizer. */
  ghost predicate NoOrphan(w: World) {
    forall key :: key in w.remote ==> w.resource.Some? && w.resource.value.finalizer && w.resource.value.spec.key == key
  }

  /** The reconcile under way may still create an alert under the key it has seen. */
  predicate MayAdd(w: World) {
    && w.worker.Working? && !w.worker.seen.deleting && w.worker.seen.finalizer
    && (w.worker.stage.Fetched? || w.worker.stage.Absent?)
  }

  ghost predicate WorkerKnows(w: World) {
    w.worker.Working? ==>
      && w.worker.version <= w.version
      && (w.worker.version == w.version ==> w.resource == Some(w.worker.seen))
      && (!w.worker.stage.Fetched? ==> w.worker.seen.finalizer)
      && (w.worker.seen.finalizer ==> w.resource.Some? && w.resource.value.finalizer)
      && (w.worker.stage.Absent? ==> w.worker.seen.spec.key !in w.remote)
      && (MayAdd(w) ==> w.resource.value.spec.key == w.worker.seen.spec.key)
  }

  ghost predicate Inv(w: World) { NoOrphan(w) && WorkerKnows(w) }

  /** An edit is harmless when it keeps the key, or when there is no alert under the old key and none on its way. */
  predicate HarmlessEdit(w: World, spec: AlertSpec) {
    w.resource.Some? ==>
      spec.key == w.resource.value.spec.key || (w.resource.value.spec.key !in w.remote && !MayAdd(w))
  }

  /** Exactly the harmless edits keep the invariant. */
  lemma EditsKeepInvExactly(w: World, spec: AlertSpec, w': World)
    requires Inv(w) && UserEditsStep(w, spec, w')
    ensures Inv(w') <==> HarmlessEdit(w, spec)
  {
  }

  /** An edit leaves an orphan behind at once exactly when it moves the key away from an alert that exists. */
  lemma EditOrphansExactly(w: World, spec: AlertSpec, w': World)
    requires Inv(w) && UserEditsStep(w, spec, w')
    ensures !NoOrphan(w') <==> spec.key != w.resource.value.spec.key && w.resource.value.spec.key in w.remote
  {
  }

  /** Every edit that is not harmless leads to an orphan: at once, or because the reconcile under way goes on to create
      the alert under the key it has seen. */
  lemma HarmfulEditOrphans(w: World, spec: AlertSpec, w': World) returns (ws: seq<World>, acts: seq<Action>)
    requires Inv(w) && UserEditsStep(w, spec, w') && !HarmlessEdit(w, spec)
    ensures Run(ws, acts) && ws[0] == w' && !NoOrphan(ws[|acts|])
    ensures forall a :: a in acts ==> a.Look? || a.AddAlert?
  {
    var key := w.resource.value.spec.key;
    if key in w.remote { return [w'], []; }
    var absent := w'.(worker := w'.worker.(stage := Absent));
    var added := absent.(remote := absent.remote[key := Sent(absent.worker.seen.spec)], worker := Idle);
    assert key in added.remote;
    assert Step(absent, AddAlert, added);
    if w.worker.stage.Absent? {
      assert absent == w';
      return [absent, added], [AddAlert];
    }
    assert Step(w', Look, absent);
    return [w', absent, added], [Look, AddAlert];
  }

  lemma StepKeepsInv(w: World, a: Action, w': World)
    requires Inv(w) && Step(w, a, w')
    requires a.UserEdits? ==> HarmlessEdit(w, a.spec)
    ensures Inv(w')
  {
  }

  /** Over any run from a state without alerts, with failures after any call: an alert exists only as long as its
      resource exists with the finalizer, provided that edits do not move the key away from an alert. */
  lemma {:induction false} NoOrphanOverRuns(ws: seq<World>, acts: seq<Action>, n: nat)
    requires Run(ws, acts) && n <= |acts|
    requires ws[0].remote == map[] && ws[0].worker.Idle?
    requires forall i :: 0 <= i < |acts| && acts[i].UserEdits? ==> HarmlessEdit(ws[i], acts[i].spec)
    ensures Inv(ws[n])
  {
    if n > 0 {
      NoOrphanOverRuns(ws, acts, n - 1);
      StepKeepsInv(ws[n - 1], acts[n - 1], ws[n]);
    }
  }

  const WITNESS_SPEC := AlertSpec(Key("cluster", "view", "alert"), "", "query", "24h", 0, None, false, [], None)

  /** Moving an alert to another view leaves the old alert behind: its resource goes on without it. */
  lemma ViewEditLeavesOrphan() returns (ws: seq<World>, acts: seq<Action>)
    ensures Run(ws, acts) && ws[0] == World(None, 0, map[], Idle)
    ensures !NoOrphan(ws[|acts|]) && ws[|acts|].resource.Some? && ws[|acts|].worker.Idle?
  {
    var spec := WITNESS_SPEC;
    var moved := spec.(key := Key("cluster", "other", "alert"));
    var r0, r1 := Resource(spec, false, false), WithFinalizer(Resource(spec, false, false));
    acts := [UserCreates(spec), Fetch, AddFinalizer, Fetch, Look, AddAlert, UserEdits(moved)];
    ws := [
      World(None, 0, map[], Idle),
      World(Some(r0), 1, map[], Idle),
      World(Some(r0), 1, map[], Working(r0, 1, Fetched)),
      World(Some(r1), 2, map[], Idle),
      World(Some(r1), 2, map[], Working(r1, 2, Fetched)),
      World(Some(r1), 2, map[], Working(r1, 2, Absent)),
      World(Some(r1), 2, map[spec.key := Sent(spec)], Idle),
      World(Some(r1.(spec := moved)), 3, map[spec.key := Sent(spec)], Idle)];
    assert spec.key in ws[7].remote;
  }

  // ----- Convergence

  /** One reconcile in which no call fails and nobody interferes. */
  function Pass(w: World): World {
    if w.resource.None? then w
    else
      var r := w.resource.value;
      var key := r.spec.key;
      if r.deleting then
        if !r.finalizer then w
        else if key in w.remote then w.(remote := w.remote - {key})
        else w.(resource := None, version := w.version + 1)
      else if !r.finalizer then w.(resource := Some(WithFinalizer(r)), version := w.version + 1)
      else if key !in w.remote then w.(remote := w.remote[key := Sent(r.spec)])
      else if AsExpected(r.spec, w.remote[key]) then w
      else w.(remote := w.remote[key := Sent(SortedLists(r.spec))])
  }

  /** Such a reconcile is a run of the protocol. */
  lemma PassIsARun(w: World) returns (ws: seq<World>, acts: seq<Action>)
    requires w.worker.Idle?
    ensures Run(ws, acts) && ws[0] == w && ws[|acts|] == Pass(w)
  {
    if w.resource.None? { return [w], []; }
    var r, w' := w.resource.value, Pass(w);
    var fetched := w.(worker := Working(r, w.version, Fetched));
    if !r.finalizer {
      if r.deleting { return [w], []; }
      return [w, fetched, w'], [Fetch, AddFinalizer];
    }
    var looked := fetched.(worker := fetched.worker.(
      stage := if r.spec.key in w.remote then Present(Some(w.remote[r.spec.key])) else Absent));
    var last := Duty(r, LookUp(w, r.spec.key));
    assert Step(looked, last, w');
    return [w, fetched, looked, w'], [Fetch, Look, last];
  }

  /** Both sides are gone, or the resource is there with its finalizer and the alert agrees with it. */
  ghost predicate Settled(w: World) {
    match w.resource
    case None => w.remote == map[]
    case Some(r) => !r.deleting && r.finalizer && r.spec.key in w.remote && Agrees(r.spec, w.remote[r.spec.key])
  }

  /** How many reconciles are still needed. */
  ghost function Measure(w: World): nat {
    if Settled(w) then 0
    else
      match w.resource
      case None => 0
      case Some(r) =>
        if r.deleting then (if r.spec.key in w.remote then 2 else 1)
        else if !r.finalizer then 2
        else 1
  }

  /** What a user can bring about, and what the operator keeps: only a resource with the finalizer outlives its
      deletion. */
  ghost predicate Reachable(w: World) {
    Inv(w) && w.worker.Idle? && (w.resource.Some? && w.resource.value.deleting ==> w.resource.value.finalizer)
  }

  /** A reconcile without failures brings an unsettled state nearer to its goal, and a settled one stays settled. */
  lemma PassProgress(w: World)
    requires Reachable(w)
    ensures Reachable(Pass(w))
    ensures Settled(w) ==> Settled(Pass(w))
    ensures !Settled(w) ==> Measure(Pass(w)) < Measure(w)
  {
    if w.resource.Some? {
      var spec := w.resource.value.spec;
      SentAgrees(spec);
      if spec.key in w.remote { AsExpectedExactly(spec, w.remote[spec.key]); }
    } else {
      assert forall key :: key !in w.remote;
    }
  }

  function Passes(w: World, n: nat): World
    decreases n
  {
    if n == 0 then w else Passes(Pass(w), n - 1)
  }

  /** Two reconciles without failures settle any state. */
  lemma {:induction false} Converges(w: World, n: nat)
    requires Reachable(w) && n >= Measure(w)
    ensures Settled(Passes(w, n)) && Reachable(Passes(w, n))
    decreases n
  {
    if n == 0 {
      assert Settled(w) by { if w.resource.None? { assert forall key :: key !in w.remote; } }
    } else {
      PassProgress(w);
      Converges(Pass(w), n - 1);
    }
  }

  function LookUp(w: World, key: Key): Option<RemoteAlert> { if key in w.remote then Some(w.remote[key]) else None }

  /** What a reconcile has to do, after what it found. */
  function Duty(seen: Resource, current: Option<RemoteAlert>): Action {
    if seen.deleting then
      if !seen.finalizer then EndPass else if current.None? then RemoveFinalizer else DeleteAlert
    else if !seen.finalizer then AddFinalizer
    else if current.None? then AddAlert
    else if AsExpected(seen.spec, current.value) then EndPass
    else UpdateAlert
  }

  // ----- The reconcile, call by call

  class HumioAlertReconciler {
    var w: World
    ghost var trace: seq<World>
    ghost var acts: seq<Action>
    ghost var failures: nat

    ghost predicate Valid()
      reads this
    {
      Run(trace, acts) && w == trace[|acts|]
    }

    constructor (w: World)
      ensures Valid() && this.w == w && trace == [w]
    {
      this.w := w;
      trace, acts, failures := [w], [], 0;
    }

    method Take(ghost a: Action, t: World)
      requires Valid() && Step(w, a, t)
      modifies this
      ensures Valid() && w == t && trace == old(trace) + [t] && acts == old(acts) + [a]
      ensures failures == old(failures)
      ensures acts[|old(acts)|] == a && old(acts) <= acts && old(trace) <= trace
    {
      ghost var before := trace;
      trace, acts := trace + [t], acts + [a];
      w := t;
      forall i | 0 <= i < |acts| ensures Step(trace[i], acts[i], trace[i + 1]) {
        if i < |acts| - 1 { assert trace[i] == before[i] && trace[i + 1] == before[i + 1]; }
      }
    }

    /** Users and others act; the reconcile keeps what it has in memory. */
    method Interference()
      requires Valid()
      modifies this
      ensures Valid() && w.worker == old(w.worker) && old(trace) <= trace && old(acts) <= acts
      ensures failures == old(failures)
    {
    }

    /** The outcome of a call: it may fail at any time. */
    method CallFails() returns (fails: bool)
      modifies this`failures
      ensures failures == old(failures) + if fails then 1 else 0
    {
      fails := *;
      if fails { failures := failures + 1; }
    }

    /** After the first `n` steps the resource was written by somebody else, or the alert of that key went away. */
    ghost predicate Meddled(n: nat, key: Key)
      reads this
    {
      exists i, j :: n <= i < j < |trace| &&
        (|| trace[i].version != trace[j].version
         || (trace[i].resource.Some? && trace[j].resource.None?)
         || (key in trace[i].remote && key !in trace[j].remote))
    }

    /** The reconcile may give up: a call failed, or somebody else got in between. */
    ghost predicate Excused(n: nat, key: Key, before: nat)
      reads this
    {
      failures > before || Meddled(n, key)
    }

    /** The step was taken after the first `n` steps. */
    ghost predicate Did(n: nat, a: Action)
      reads this
    {
      exists i :: n <= i < |acts| && acts[i] == a
    }

    /** The resource was fetched like this, and the alert was looked up like that, after the first `n` steps. */
    ghost predicate Saw(n: nat, seen: Resource, current: Option<RemoteAlert>)
      requires |trace| == |acts| + 1
      reads this
    {
      && (exists i :: n <= i < |acts| && acts[i] == Fetch && trace[i].resource == Some(seen))
      && (seen.finalizer ==>
            exists i :: n <= i < |acts| && acts[i] == Look && current == LookUp(trace[i], seen.spec.key))
    }

    /** One reconcile. Every call may fail, with or without its effect, and things may happen between calls. When no
        call fails, and the resource is there, the reconcile does what its findings ask for. */
    method Reconcile() returns (ok: bool, ghost seen: Option<Resource>, ghost current: Option<RemoteAlert>)
      requires Valid() && w.worker.Idle?
      modifies this
      ensures Valid() && old(trace) <= trace && old(acts) <= acts && w.worker.Idle?
      ensures failures >= old(failures)
      ensures !ok ==> seen.Some? && Excused(|old(acts)|, seen.value.spec.key, old(failures))
      ensures ok && seen.Some? ==> Saw(|old(acts)|, seen.value, current) && Did(|old(acts)|, Duty(seen.value, current))
      ensures seen.None? ==> exists v :: v in trace[|old(acts)|..] && v.resource.None?
    {
      Interference();
      if w.resource.None? {
        ghost var absent := w;
        assert trace[|acts|] == absent && absent in trace[|old(acts)|..];
        Take(EndPass, w.(worker := Idle));
        assert trace[|acts| - 1] == absent;
        return true, None, None;
      }
      var fetched := w.resource.value;
      seen := Some(fetched);
      ok, current := ReconcileHumioAlert(fetched);
      ghost var before, known := acts, trace;
      Take(EndPass, w.(worker := Idle));
      assert forall i :: 0 <= i < |before| ==> before[i] == acts[i] && known[i] == trace[i];
      assert acts[|before|] == EndPass;
    }

    method ReconcileHumioAlert(fetched: Resource) returns (ok: bool, ghost current: Option<RemoteAlert>)
      requires Valid() && w.worker.Idle? && w.resource == Some(fetched)
      modifies this
      ensures Valid() && old(trace) <= trace && old(acts) <= acts
      ensures failures >= old(failures)
      ensures !ok ==> Excused(|old(acts)|, fetched.spec.key, old(failures))
      ensures ok ==> Saw(|old(acts)|, fetched, current)
      ensures ok && Duty(fetched, current) != EndPass ==> Did(|old(acts)|, Duty(fetched, current))
    {
      current := None;
      var version := w.version;
      Take(Fetch, w.(worker := Working(fetched, version, Fetched)));
      Interference();
      if fetched.deleting {
        if fetched.finalizer { ok, current := Finalize(fetched, version, |old(acts)|); } else { ok := true; }
        return;
      }
      if !fetched.finalizer {
        if w.resource.None? || w.version != version {
          assert trace[|old(acts)|] == old(w) && trace[|acts|] == w;
          return false, None;
        }
        var fails := CallFails();
        if fails { return false, None; }
        Take(AddFinalizer, w.(resource := Some(WithFinalizer(w.resource.value)),
                           version := w.version + 1, worker := Idle));
        return true, None;
      }
      ok, current := CreateOrUpdate(fetched, version);
    }

    /** The branch of a live resource with the finalizer. */
    method CreateOrUpdate(fetched: Resource, version: nat) returns (ok: bool, ghost current: Option<RemoteAlert>)
      requires Valid() && w.worker == Working(fetched, version, Fetched) && !fetched.deleting && fetched.finalizer
      modifies this
      ensures Valid() && old(trace) <= trace && old(acts) <= acts
      ensures failures >= old(failures)
      ensures !ok ==> Excused(|old(acts)|, fetched.spec.key, old(failures))
      ensures ok ==> |acts| > |old(acts)| && acts[|old(acts)|] == Look && current == LookUp(old(w), fetched.spec.key)
      ensures ok && Duty(fetched, current) != EndPass ==> Did(|old(acts)|, Duty(fetched, current))
    {
      current := None;
      var ha := new HumioAlert(fetched.spec);
      var getFails := CallFails();
      if getFails { return false, None; }
      var key := fetched.spec.key;
      var found := LookUp(w, key);
      current := found;
      Take(Look, w.(worker := Working(fetched, version, if found.Some? then Present(found) else Absent)));
      ghost var looked := w;
      Interference();
      if found.None? {
        var fails := CallFails();
        if fails { return false, current; }
        Take(AddAlert, w.(remote := w.remote[key := Sent(ha.spec)], worker := Idle));
        return true, current;
      }
      var asExpected := ha.AlertAlreadyAsExpected(found.value);
      if !asExpected {
        if key !in w.remote {
          assert trace[|old(acts)| + 1] == looked && trace[|acts|] == w;
          return false, current;
        }
        var fails := CallFails();
        if fails { return false, current; }
        Take(UpdateAlert, w.(remote := w.remote[key := Sent(ha.spec)], worker := Idle));
      }
      return true, current;
    }

    /** The deletion branch: the alert first, and the finalizer in a later reconcile that does not find the alert. */
    method Finalize(fetched: Resource, version: nat, ghost from: nat)
        returns (ok: bool, ghost current: Option<RemoteAlert>)
      requires Valid() && w.worker == Working(fetched, version, Fetched) && fetched.deleting && fetched.finalizer
      requires from < |acts| && trace[from].version == version && trace[from].resource.Some?
      modifies this
      ensures Valid() && old(trace) <= trace && old(acts) <= acts
      ensures failures >= old(failures)
      ensures !ok ==> Excused(from, fetched.spec.key, old(failures))
      ensures ok ==> |acts| > |old(acts)| && acts[|old(acts)|] == Look && current == LookUp(old(w), fetched.spec.key)
      ensures ok ==> Did(|old(acts)|, Duty(fetched, current))
    {
      var key := fetched.spec.key;
      var found := LookUp(w, key);
      current := found;
      var getFails := CallFails();
      if getFails {
        Take(LookFails, w.(worker := Working(fetched, version, Present(None))));
      } else if found.Some? {
        Take(Look, w.(worker := Working(fetched, version, Present(found))));
      } else {
        Take(Look, w.(worker := Working(fetched, version, Absent)));
        Interference();
        if w.resource.None? || w.version != version {
          assert trace[from] == old(trace)[from] && trace[|acts|] == w;
          return false, current;
        }
        var writeFails := CallFails();
        if writeFails { return false, current; }
        Take(RemoveFinalizer, w.(resource := None, version := w.version + 1, worker := Idle));
        return true, current;
      }
      Interference();
      var deleteFails := CallFails();
      if deleteFails { return false, current; }
      Take(DeleteAlert, w.(remote := w.remote - {key}, worker := Idle));
      return !getFails, current;
    }
  }
}
