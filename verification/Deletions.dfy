/** Every delete call of a run goes back to the pass that decided it. */
module Deletions {
  import opened Maintenance

  /** The names a pass sets out to delete. */
  function SetOut(w: World, a: Action): seq<string>
    requires a.Maintain?
  {
    if PassOf(w, a).Decide().Some? then VictimsOf(PassOf(w, a).Decide().value) else []
  }

  /** The deletions under way in state `k` were decided by step `i`, and the status has not been written since. */
  ghost predicate DecidedAt(ws: seq<World>, acts: seq<Action>, i: nat, k: nat)
    requires |ws| == |acts| + 1 && k <= |acts|
  {
    && i < k && acts[i].Maintain?
    && ws[k].worker.Deleting? && ws[k].worker.pool == acts[i].pool.name
    && ws[k].entries == ws[i].entries && ws[k].state == ws[i].state
    && forall n :: n in ws[k].worker.victims ==> n in SetOut(ws[i], acts[i])
  }

  lemma PassStartsDeleting(configured: set<string>, w: World, a: Action, w': World)
    requires a.Maintain? && MaintainStep(configured, w, a, w') && w'.worker.Deleting?
    ensures w'.worker == Deleting(a.pool.name, SetOut(w, a)) && w'.entries == w.entries && w'.state == w.state
  {
  }

  /** Nobody writes the status, or starts another pass, while pods are being deleted. */
  lemma DeletingStep(configured: set<string>, w: World, a: Action, w': World)
    requires Next(configured, w, a, w') && !a.Maintain? && w'.worker.Deleting?
    ensures w.worker.Deleting? && w'.worker.pool == w.worker.pool && w'.entries == w.entries && w'.state == w.state
    ensures forall n :: n in w'.worker.victims ==> n in w.worker.victims
  {
  }

  lemma {:induction false} DeletionsAreDecided(configured: set<string>, ws: seq<World>, acts: seq<Action>, k: nat)
      returns (i: nat)
    requires Run(configured, ws, acts) && ws[0].worker.Idle? && k <= |acts| && ws[k].worker.Deleting?
    ensures DecidedAt(ws, acts, i, k)
  {
    if acts[k - 1].Maintain? {
      PassStartsDeleting(configured, ws[k - 1], acts[k - 1], ws[k]);
      i := k - 1;
    } else {
      DeletingStep(configured, ws[k - 1], acts[k - 1], ws[k]);
      i := DeletionsAreDecided(configured, ws, acts, k - 1);
    }
  }
}
