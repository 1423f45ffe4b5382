/** Pods that the operator made itself: each has EXTERNAL_URL, so none ever asks for a simultaneous restart. */
module OwnPods {
  import opened Kube
  import opened PodSanitizer
  import opened PodHasher
  import opened ManagedFields
  import opened PodComparisons
  import opened PodsStatuses
  import opened PodLifecycles
  import opened Maintenance
  import opened Availability
  import opened PodCreation

  /** The environment the operator gives to the humio container: the user's variables completed with the defaults, and
      then those of the features that are switched on. */
  ghost predicate OwnEnv(env: seq<EnvVar>) {
    exists user, s, extra :: env == Completed(user, EnvDefaults(s)) + extra
  }

  ghost predicate IsOwn(p: Pod) { HasHumioContainer(p.spec) && OwnEnv(HumioContainer(p).env) }

  lemma {:induction false} CompletedKeys(env: seq<EnvVar>, defaults: seq<EnvVar>, name: string)
    ensures HasKey(Completed(env, defaults), name) <==> HasKey(env, name) || HasKey(defaults, name)
    decreases |defaults|
  {
    if defaults != [] {
      var d := defaults[0];
      HasKeyTail(defaults, name);
      HasKeySnoc(env, d, name);
      CompletedKeys(if HasKey(env, d.name) then env else env + [d], defaults[1..], name);
    }
  }

  lemma UrlIsOffered(s: EnvSettings)
    ensures HasKey(EnvDefaults(s), EXTERNAL_URL)
  {
    assert ClusterDefaults(s)[4].name == EXTERNAL_URL;
    assert ClusterDefaults(s)[4] in EnvDefaults(s);
  }

  /** Every environment the operator makes has EXTERNAL_URL. */
  lemma OwnEnvHasUrl(env: seq<EnvVar>)
    requires OwnEnv(env)
    ensures HasKey(env, EXTERNAL_URL)
  {
    var user, s, extra :| env == Completed(user, EnvDefaults(s)) + extra;
    UrlIsOffered(s);
    CompletedKeys(user, EnvDefaults(s), EXTERNAL_URL);
    var e :| e in Completed(user, EnvDefaults(s)) && e.name == EXTERNAL_URL;
    assert e in env;
  }

  /** Against a desired pod of the operator, exactly the pods without EXTERNAL_URL ask for a simultaneous restart, and
      none of the operator's own does. */
  lemma OnlyForeignPodsAsk(ctx: Context, p: Pod)
    requires IsOwn(ctx.desired) && HasHumioContainer(p.spec)
    ensures UrlAppearsOrGoes(ctx, p) <==> !HasKey(HumioContainer(p).env, EXTERNAL_URL)
    ensures IsOwn(p) ==> !UrlAppearsOrGoes(ctx, p)
  {
    OwnEnvHasUrl(HumioContainer(ctx.desired).env);
    if IsOwn(p) { OwnEnvHasUrl(HumioContainer(p).env); }
  }

  ghost predicate AllOwn(ctx: Context, pods: seq<Pod>) { IsOwn(ctx.desired) && forall p :: p in pods ==> IsOwn(p) }

  /** Among the operator's own pods nobody asks for a simultaneous restart, whatever is changed, and whether a restart
      rolls is up to the strategy and the versions alone. */
  lemma OwnPodsRollExactly(ctx: Context, pods: seq<Pod>)
    requires AllOwn(ctx, pods)
    ensures !AsksForSimultaneousRestart(ctx, pods)
    ensures LifecycleOf(ctx, pods).ShouldRollingRestart() <==>
      KnownVersions(ctx, LastVersionChange(ctx, pods)) && StrategyRolls(ctx, LastVersionChange(ctx, pods))
  {
    RollsExactly(ctx, pods);
    forall p | p in pods ensures !UrlAppearsOrGoes(ctx, p) { OnlyForeignPodsAsk(ctx, p); }
  }

  /** With the rolling strategy and the operator's own pods: a pass is guarded unless the cluster is Pending (or was
      never written), or replaces pods of an unknown version. */
  lemma OwnPodsAreGuarded(p: Pass, s: PodsStatus)
    requires p.pool.GetUpdateStrategy().kind.RollingUpdate? && AllOwn(p.CompareContext(s), p.Considered(s))
    ensures Guarded(p, s) <==>
      && !p.clusterState.Pending? && !p.clusterState.NoState?
      && (p.Replacing() && p.LifecycleFrom(s).FoundDifference() ==>
            KnownVersions(p.CompareContext(s), LastVersionChange(p.CompareContext(s), p.Considered(s))))
  {
    var ctx := p.CompareContext(s);
    RollingStrategyIsGuarded(p, s);
    var changed := LastConfigurationChange(ctx, p.Considered(s));
    if changed.Some? { OnlyForeignPodsAsk(ctx, changed.value); }
  }

  /** Every pod of a blueprint whose template has such an environment is one of the operator's own, and so is the
      desired pod. */
  lemma BlueprintPodsAreOwn(b: Blueprint, p: Pod)
    requires IsOwn(b.template)
    ensures IsOwn(b.DesiredPod()) && (b.Makes(p) ==> IsOwn(p))
  {
    SameContainersOwn(b.template, b.DesiredPod());
    if b.Makes(p) {
      MadeContainers(b, p);
      SameContainersOwn(b.template, p);
    }
  }

  lemma MadeContainers(b: Blueprint, p: Pod)
    requires b.Makes(p)
    ensures p.spec.containers == b.template.spec.containers
  {
    var hash, source :| p == b.MakePod(NameAndHash(p.name, hash), source);
  }

  lemma SameContainersOwn(p: Pod, q: Pod)
    requires q.spec.containers == p.spec.containers && IsOwn(p)
    ensures IsOwn(q)
  {
  }
}
