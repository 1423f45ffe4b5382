/** Pod revisions only move forward, and a revision stands for one pod hash and one bootstrap token hash. */
module Revisions {
  import opened ClusterStatuses
  import opened Maintenance

  function RevisionAt(w: World, name: string): int { EntryOf(w.entries, name).desiredPodRevision }

  predicate SameHashes(v: World, w: World, name: string) {
    && EntryOf(v.entries, name).desiredPodHash == EntryOf(w.entries, name).desiredPodHash
    && EntryOf(v.entries, name).desiredBootstrapTokenHash == EntryOf(w.entries, name).desiredBootstrapTokenHash
  }

  /** The only steps that start a new revision: a pass that saves new hashes, and changed service account
      annotations. */
  predicate StartsRevision(w: World, a: Action, name: string) {
    || (a.ServiceAccountBump? && a.restart && a.pool.name == name)
    || (a.Maintain? && a.pool.name == name && PassOf(w, a).Decide().Some? && PassOf(w, a).Decide().value.SaveRevision?)
  }

  lemma MaintainRevision(configured: set<string>, w: World, a: Action, w': World, name: string)
    requires a.Maintain? && MaintainStep(configured, w, a, w')
    ensures RevisionAt(w', name) == RevisionAt(w, name) || RevisionAt(w', name) == RevisionAt(w, name) + 1
    ensures RevisionAt(w', name) == RevisionAt(w, name) ==> SameHashes(w, w', name)
    ensures RevisionAt(w', name) != RevisionAt(w, name) ==> StartsRevision(w, a, name)
  {
    MaintainWrites(configured, w, a, w');
    if w'.entries != w.entries {
      PutPoolEntries(w.entries, WrittenBy(w, a), name);
      WrittenEntry(PassOf(w, a), PassOf(w, a).Decide().value);
    }
  }

  /** Any step, gated or not: the revision stays, and with it both hashes, or it grows by one. */
  lemma StepRevision(configured: set<string>, w: World, a: Action, w': World, name: string)
    requires Next(configured, w, a, w')
    ensures RevisionAt(w', name) == RevisionAt(w, name) || RevisionAt(w', name) == RevisionAt(w, name) + 1
    ensures RevisionAt(w', name) == RevisionAt(w, name) ==> SameHashes(w, w', name)
    ensures RevisionAt(w', name) != RevisionAt(w, name) ==> StartsRevision(w, a, name)
  {
    match a
    case Maintain(_, _, _, _, _) => MaintainRevision(configured, w, a, w', name);
    case ServiceAccountBump(pool, _) => PutPoolEntries(w.entries, UngatedEntry(w, a), name);
    case PendingWrite(pool) => PutPoolEntries(w.entries, UngatedEntry(w, a), name);
    case PoolConfigErrorWrite(pool) => PutPoolEntries(w.entries, UngatedEntry(w, a), name);
    case _ =>
  }

  /** Between any two states of a run of any steps: the revision never falls, grows by at most one a step, and the same
      revision means the same hashes. */
  lemma {:induction false} RevisionsOverRuns(configured: set<string>, ws: seq<World>, acts: seq<Action>, name: string,
                                             i: nat, j: nat)
    requires Run(configured, ws, acts) && i <= j <= |acts|
    ensures RevisionAt(ws[i], name) <= RevisionAt(ws[j], name) <= RevisionAt(ws[i], name) + (j - i)
    ensures RevisionAt(ws[i], name) == RevisionAt(ws[j], name) ==> SameHashes(ws[i], ws[j], name)
  {
    if i < j {
      RevisionsOverRuns(configured, ws, acts, name, i, j - 1);
      StepRevision(configured, ws[j - 1], acts[j - 1], ws[j], name);
    }
  }
}
