/** What one fault-free cycle guarantees for one path, with the exact conditions. */
module PresetFacts {
  import opened PresetPaths
  import opened PresetRules
  import opened PresetSync

  predicate KeysAgree(v: View) {
    v.local.Present? <==> v.net.Present?
  }

  predicate MtimesAgree(tolerance: int, v: View) {
    v.local.Present? && v.net.Present? ==> Abs(v.local.file.mtime - v.net.file.mtime) <= tolerance
  }

  /** The local copy is newer than the network's and would be pushed, but a tombstone that the
      network copy does not outlive stops it. */
  predicate BlockedPush(r: Rule, v: View) {
    && v.local.Present? && v.net.Present? && v.tomb.Once?
    && v.local.file.mtime <= v.tomb.time + r.tolerance
    && v.local.file.mtime > v.net.file.mtime
    && (v.seen.Once? ==> v.local.file.mtime > v.seen.time + r.tolerance)
  }

  /** After a cycle both sides hold the path or neither does, except exactly when a push is
      blocked while the network has an older copy. */
  lemma KeysAgreeIff(r: Rule, v: View)
    requires r.tolerance > 0 && Shared(r.reach)
    ensures KeysAgree(Clean(r, v)) <==> !BlockedPush(r, v)
    ensures TombSound(r.tolerance, v) ==> !BlockedPush(r, v)
  {
  }

  /** A copy that its tombstone would stop from returning, and that the pull phases leave alone. */
  predicate HeldBack(r: Rule, v: View) {
    && r.reach.localScan && v.local.Present? && v.net.Missing? && v.tomb.Once?
    && v.local.file.mtime <= v.tomb.time + r.tolerance
    && (v.seen.Once? ==> Abs(v.local.file.mtime - v.seen.time) >= r.tolerance)
  }

  lemma UnreadTombstone(r: Rule, v: View)
    requires r.tolerance > 0 && Nested(r.reach) && TombSound(r.tolerance, v)
    ensures var v' := Clean(r, v.(tomb := Never));
            TombSound(r.tolerance, v') && (TombSound(r.tolerance, v'.(tomb := v.tomb)) <==> !HeldBack(r, v))
  {
    CleanKeepsTombSound(r, v.(tomb := Never));
  }

  /** A cycle that cannot read the tombstone file goes on without tombstones. It replaces the file only
      if it records a deletion itself; then every older tombstone is gone. */
  function Unread(tolerance: int, reach: Path -> Reach, env: Env, disk: Replica): Replica {
    var after := CleanReplica(tolerance, reach, env, disk.(tombstones := map[]));
    if after.tombstones == map[] then after.(tombstones := disk.tombstones) else after
  }

  /** Such a cycle keeps the tombstone rule exactly if it replaces the file, or no tombstone was holding
      back its copy. */
  lemma UnreadTombstones(tolerance: int, reach: Path -> Reach, env: Env, disk: Replica)
    requires tolerance > 0 && (forall p :: Nested(reach(p))) && AllTombSound(tolerance, disk)
    ensures AllTombSound(tolerance, Unread(tolerance, reach, env, disk)) <==>
              || CleanReplica(tolerance, reach, env, disk.(tombstones := map[])).tombstones != map[]
              || forall p :: !HeldBack(RuleAt(tolerance, reach, env, p), disk.At(p))
  {
    var after, final := CleanReplica(tolerance, reach, env, disk.(tombstones := map[])),
      Unread(tolerance, reach, env, disk);
    forall p
      ensures TombSound(tolerance, after.At(p))
      ensures after.tombstones == map[] ==>
                (TombSound(tolerance, final.At(p)) <==> !HeldBack(RuleAt(tolerance, reach, env, p), disk.At(p)))
    {
      CleanReplicaAt(tolerance, reach, env, disk.(tombstones := map[]), p);
      assert Nested(reach(p)) && TombSound(tolerance, disk.At(p));
      UnreadTombstone(RuleAt(tolerance, reach, env, p), disk.At(p));
    }
  }

  /** This machine remembers a version later than the one on the network. */
  predicate StaleNetwork(tolerance: int, v: View) {
    && v.local.Present? && v.net.Present? && v.seen.Once?
    && v.net.file.mtime + tolerance < v.local.file.mtime <= v.seen.time + tolerance
  }

  /** After a cycle the two copies are within the tolerance, except exactly when this machine
      has seen a version later than the network's and its copy is no later than that. */
  lemma MtimesAgreeIff(r: Rule, v: View)
    requires r.tolerance > 0 && Shared(r.reach) && TombSound(r.tolerance, v)
    ensures MtimesAgree(r.tolerance, Clean(r, v)) <==> !StaleNetwork(r.tolerance, v)
  {
  }

  /** A `.json` file is listed by the network scan and skipped by the local one. */
  predicate NetworkOnly(reach: Reach) {
    reach == Reach(true, true, false)
  }

  /** For `.json` files agreement depends on what was there before. */
  predicate JsonLeftAlone(r: Rule, v: View) {
    match v.net
    case Missing => v.local.Missing? || (v.seen.Once? && Abs(v.local.file.mtime - v.seen.time) < r.tolerance)
    case Present(file) =>
      || (v.local.Present? && v.seen.Never? && file.mtime <= v.local.file.mtime + r.tolerance)
      || (v.local.Missing? && v.seen.Once? && file.mtime <= v.seen.time + r.tolerance)
  }

  lemma JsonKeysAgreeIff(r: Rule, v: View)
    requires r.tolerance > 0 && NetworkOnly(r.reach)
    ensures KeysAgree(Clean(r, v)) <==> JsonLeftAlone(r, v)
  {
  }

  /** A `.json` preset that appears on the network is pulled by the first machine that syncs and
      deleted from the network, with a tombstone, by the same cycle. */
  lemma JsonIsTakenOffTheNetwork(r: Rule, file: File)
    requires NetworkOnly(r.reach)
    ensures Clean(r, View(Missing, Present(file), Never, Never))
         == View(Present(File(r.down(file.content), file.mtime)), Missing, Never, Once(r.now))
  {
  }

  /** A second cycle finds nothing to do, whatever the time and the watermark rewriting then. */
  lemma Idempotent(r: Rule, v: View, again: Rule)
    requires r.tolerance > 0 && Shared(r.reach) && TombSound(r.tolerance, v)
    requires again.tolerance == r.tolerance && again.reach == r.reach
    ensures var w := Cycle(again, NO_FAULTS, Clean(r, v));
            Clean(again, Clean(r, v)) == Clean(r, v) && !w.pulled && !w.pushed && !w.deleted
  {
    var v1 := Clean(r, v);
    CleanKeepsTombSound(r, v);
    KeysAgreeIff(r, v);
    assert v1.seen.Once? ==> v1.local.Present? && v1.net.Present?;
    if v1.local.Present? {
      assert v1.net.file.mtime <= v1.local.file.mtime + r.tolerance;
      assert v1.local.file.mtime <= v1.net.file.mtime
          || (v1.seen.Once? && v1.local.file.mtime <= v1.seen.time + r.tolerance);
      var begun := Begin(v1);
      assert PullPhases(again, NO_FAULTS, v1) == begun;
      assert PushDelete(again, NO_FAULTS, begun) == begun;
    }
  }

  /** A path outside the selected categories, or one both scans skip and no state mentions, is
      not touched, and neither are its records. */
  lemma Untouched(r: Rule, v: View)
    requires !r.reach.netScan && !r.reach.localScan && (r.reach.tracked ==> v.seen.Never?)
    ensures Clean(r, v) == v
    ensures var w := Cycle(r, NO_FAULTS, v);
            !w.pulled && !w.pushed && !w.deleted
  {
  }

  /** What this machine remembers is at or below the version of the path: the network's mtime
      or, for a deleted path, the tombstone's. */
  predicate SeenBounded(v: View) {
    v.seen.Once? ==>
      match v.net
      case Present(file) => v.seen.time <= file.mtime
      case Missing => v.tomb.Once? && v.seen.time <= v.tomb.time
  }

  /** Last writer wins: of two copies further apart than the tolerance the newer one ends up on
      both sides, as rewritten on its way. */
  lemma LastWriterWins(r: Rule, v: View)
    requires r.tolerance > 0 && Shared(r.reach) && TombSound(r.tolerance, v) && SeenBounded(v)
    requires v.local.Present? && v.net.Present?
    ensures v.net.file.mtime > v.local.file.mtime + r.tolerance ==>
              && Clean(r, v).local == Present(File(r.down(v.net.file.content), v.net.file.mtime))
              && Clean(r, v).net == v.net
    ensures v.local.file.mtime > v.net.file.mtime + r.tolerance ==>
              var newer := File(r.up(v.local.file.content), v.local.file.mtime);
              Clean(r, v).local == Clean(r, v).net == Present(newer)
    ensures Abs(v.local.file.mtime - v.net.file.mtime) <= r.tolerance ==>
              (Clean(r, v).local == v.local && Clean(r, v).net == v.net) || Cycle(r, NO_FAULTS, v).pushed
  {
  }

  /** A path deleted here: the deletion goes to the network exactly when the network copy is no
      more than the tolerance newer than what this machine saw; otherwise the copy comes back. */
  lemma LocalDeletion(r: Rule, v: View)
    requires r.tolerance > 0 && Shared(r.reach)
    requires v.local.Missing? && v.net.Present? && v.seen.Once?
    ensures if v.net.file.mtime > v.seen.time + r.tolerance
            then Clean(r, v).local == Present(File(r.down(v.net.file.content), v.net.file.mtime))
              && Clean(r, v).net == v.net
            else Clean(r, v) == View(Missing, Missing, Never, Once(r.now))
  {
  }

  /** A path deleted elsewhere: the local copy returns to the network exactly when it is more than
      the tolerance newer than the tombstone; otherwise it is removed. */
  lemma NetworkDeletion(r: Rule, v: View)
    requires r.tolerance > 0 && Shared(r.reach) && SeenBounded(v)
    requires v.local.Present? && v.net.Missing? && v.tomb.Once?
    ensures if v.local.file.mtime > v.tomb.time + r.tolerance
            then Clean(r, v).net == Clean(r, v).local == Present(File(r.up(v.local.file.content), v.local.file.mtime))
            else Clean(r, v).net == Clean(r, v).local == Missing && Clean(r, v).tomb == v.tomb
  {
  }

  /** The state names files that both sides hold, and no shared path is counted twice. */
  lemma Bookkeeping(r: Rule, v: View)
    requires r.tolerance > 0 && Shared(r.reach) && TombSound(r.tolerance, v)
    ensures var w, v' := Cycle(r, NO_FAULTS, v), Clean(r, v);
            && (v'.seen.Once? ==> v'.local.Present? && v'.net.Present?)
            && !(w.pulled && w.pushed) && !(w.deleted && (w.pulled || w.pushed))
  {
  }
}
