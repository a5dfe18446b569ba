/**
 The outcome of a successful cycle for one path, case by case, without its phases: what each side holds
 and what is remembered, for every combination of copies and records. The laws of two cycles follow.
 */
module PresetLaws {
  import opened PresetPaths
  import opened PresetRules
  import opened PresetFacts

  function PulledFrom(r: Rule, net: File): File {
    File(r.down(net.content), net.mtime)
  }

  function PushedFrom(r: Rule, local: File): File {
    File(r.up(local.content), local.mtime)
  }

  /** Both sides hold a file that was just copied. */
  function Together(local: File, net: File, tomb: Stamp): View {
    View(Present(local), Present(net), Once(local.mtime), tomb)
  }

  /** A time later than another by more than the tolerance; anything is later than never. */
  predicate Later(r: Rule, time: int, than: Stamp) {
    than.Once? ==> time > than.time + r.tolerance
  }

  predicate AtLastSight(r: Rule, time: int, seen: Stamp) {
    seen.Once? && Abs(time - seen.time) < r.tolerance
  }

  /** A path that both scans see. */
  function Settled(r: Rule, v: View): View {
    match (v.local, v.net)
    case (Missing, Missing) => View(Missing, Missing, Never, v.tomb)
    case (Present(l), Missing) =>
      if !AtLastSight(r, l.mtime, v.seen) && Later(r, l.mtime, v.tomb)
      then Together(PushedFrom(r, l), PushedFrom(r, l), Never)
      else View(Missing, Missing, Never, v.tomb)
    case (Missing, Present(n)) =>
      if Later(r, n.mtime, v.seen) then Together(PulledFrom(r, n), n, v.tomb)
      else View(Missing, Missing, Never, Once(r.now))
    case (Present(l), Present(n)) =>
      if n.mtime > l.mtime + r.tolerance then Together(PulledFrom(r, n), n, v.tomb)
      else if l.mtime <= n.mtime || !Later(r, l.mtime, v.seen) then v
      else if Later(r, l.mtime, v.tomb) then Together(PushedFrom(r, l), PushedFrom(r, l), Never)
      else v.(local := Missing)
  }

  /** The four phases of a cycle settle every path that both scans see by this table. */
  lemma CleanIsSettled(r: Rule, v: View)
    requires r.tolerance > 0 && Shared(r.reach)
    ensures Clean(r, v) == Settled(r, v)
  {
  }

  /** A `.json` path: what the network still has after the pull is deleted from it, unless this machine
      holds a copy of its own that it never synced. */
  function JsonSettled(r: Rule, v: View): View {
    match (v.local, v.net)
    case (Missing, Missing) => View(Missing, Missing, Never, v.tomb)
    case (Present(l), Missing) =>
      View(if AtLastSight(r, l.mtime, v.seen) then Missing else v.local, Missing, Never, v.tomb)
    case (Missing, Present(n)) =>
      View(if Later(r, n.mtime, v.seen) then Present(PulledFrom(r, n)) else Missing, Missing, Never, Once(r.now))
    case (Present(l), Present(n)) =>
      if n.mtime > l.mtime + r.tolerance then View(Present(PulledFrom(r, n)), Missing, Never, Once(r.now))
      else if v.seen.Never? then v
      else View(v.local, Missing, Never, Once(r.now))
  }

  lemma JsonIsSettled(r: Rule, v: View)
    requires r.tolerance > 0 && NetworkOnly(r.reach)
    ensures Clean(r, v) == JsonSettled(r, v)
  {
  }

  /** A path in a selected category that no scan lists is forgotten, with the copy that was last seen. */
  lemma UnlistedIsForgotten(r: Rule, v: View)
    requires r.tolerance > 0 && r.reach == Reach(true, false, false)
    ensures var gone := v.local.Present? && AtLastSight(r, v.local.file.mtime, v.seen);
            Clean(r, v) == View(if gone then Missing else v.local, v.net, Never, v.tomb)
  {
  }

  // ---- what is remembered ----

  /** A path that a cycle pulled or pushed is remembered with the time both copies now have. */
  lemma CopiesAreRemembered(r: Rule, v: View)
    requires r.tolerance > 0 && Shared(r.reach)
    ensures var w, v' := Cycle(r, NO_FAULTS, v), Clean(r, v);
            w.pulled || w.pushed ==>
              && v'.local.Present? && v'.net.Present? && v'.local.file.mtime == v'.net.file.mtime
              && v'.seen == Once(v'.local.file.mtime)
    ensures var w, v' := Cycle(r, NO_FAULTS, v), Clean(r, v);
            !w.pulled && !w.pushed && !w.deleted ==>
              v' == v.(seen := v'.seen) && (v'.seen == v.seen || v'.local == v'.net == Missing)
  {
  }

  /** A preset that came with one cycle and is erased here is taken off the network by the next, with
      a tombstone, whenever that is and whatever was remembered before. */
  lemma ErasedAfterCopyIsDeleted(r: Rule, v: View, again: Rule)
    requires r.tolerance > 0 && Shared(r.reach) && again.tolerance == r.tolerance && again.reach == r.reach
    requires Cycle(r, NO_FAULTS, v).pulled || Cycle(r, NO_FAULTS, v).pushed
    ensures Clean(again, Clean(r, v).(local := Missing)) == View(Missing, Missing, Never, Once(again.now))
  {
    CopiesAreRemembered(r, v);
    LocalDeletion(again, Clean(r, v).(local := Missing));
  }

  /** An edit here after a copy, by more than the tolerance, is pushed by the next cycle. */
  lemma EditedAfterCopyIsPushed(r: Rule, v: View, again: Rule, file: File)
    requires r.tolerance > 0 && Shared(r.reach) && again.tolerance == r.tolerance && again.reach == r.reach
    requires TombSound(r.tolerance, v) && (Cycle(r, NO_FAULTS, v).pulled || Cycle(r, NO_FAULTS, v).pushed)
    requires file.mtime > Clean(r, v).local.file.mtime + r.tolerance
    ensures Clean(again, Clean(r, v).(local := Present(file)))
         == Together(PushedFrom(again, file), PushedFrom(again, file), Never)
  {
    CopiesAreRemembered(r, v);
    CleanKeepsTombSound(r, v);
    CleanIsSettled(again, Clean(r, v).(local := Present(file)));
  }

  /** A copy that somebody takes off the network after it came here goes here too. */
  lemma RemovedAfterCopyIsRemoved(r: Rule, v: View, again: Rule)
    requires r.tolerance > 0 && Shared(r.reach) && again.tolerance == r.tolerance && again.reach == r.reach
    requires Cycle(r, NO_FAULTS, v).pulled || Cycle(r, NO_FAULTS, v).pushed
    ensures var gone := Clean(r, v).(net := Missing);
            Clean(again, gone) == View(Missing, Missing, Never, gone.tomb)
  {
    CopiesAreRemembered(r, v);
  }

  // ---- first copies ----

  lemma FirstPull(r: Rule, net: File, tomb: Stamp)
    requires r.tolerance > 0 && Shared(r.reach)
    ensures Clean(r, View(Missing, Present(net), Never, tomb)) == Together(PulledFrom(r, net), net, tomb)
  {
    CleanIsSettled(r, View(Missing, Present(net), Never, tomb));
  }

  lemma FirstPush(r: Rule, local: File)
    requires r.tolerance > 0 && Shared(r.reach)
    ensures Clean(r, View(Present(local), Missing, Never, Never))
         == Together(PushedFrom(r, local), PushedFrom(r, local), Never)
  {
    CleanIsSettled(r, View(Present(local), Missing, Never, Never));
  }

  // ---- failures ----

  /** A failed operation leaves its file as it was, and the cycle knows. */
  lemma FailuresLeaveFiles(r: Rule, f: Faults, w: Work)
    ensures f.statLocal || f.removeLocal ==> PullDelete(r, f, w).local == w.local
    ensures f.statLocalAgain || f.copyDown ==> PullNew(r, f, w).local == w.local
    ensures f.statNet || f.removeNet ==> PushDelete(r, f, w).net == w.net && PushDelete(r, f, w).tomb == w.tomb
    ensures f.statNetAgain ==> PushNew(r, f, w).net == w.net && PushNew(r, f, w).local == w.local
    ensures f.copyUp ==> PushNew(r, f, w).net == w.net
    ensures f.removeZombie && PushNew(r, f, w).local.Missing? ==> w.local.Missing?
    ensures f.writeBack && w.local.Present? && PushNew(r, f, w).local.Present? ==> PushNew(r, f, w).local == w.local
  {
  }

  /** Each copy is as before, or as it is without failures. */
  predicate HeldBack(before: Work, after: Work, unfailed: Work) {
    && (after.local == before.local || after.local == unfailed.local)
    && (after.net == before.net || after.net == unfailed.net)
  }

  /** Where an operation fails a phase still leaves each copy as it was or as it would without failures. */
  lemma FailuresHoldBackPulls(r: Rule, f: Faults, w: Work)
    ensures HeldBack(w, PullDelete(r, f, w), PullDelete(r, NO_FAULTS, w))
    ensures HeldBack(w, PullNew(r, f, w), PullNew(r, NO_FAULTS, w))
    ensures PullDelete(r, f, w).net == PullNew(r, f, w).net == w.net
    ensures PullDelete(r, f, w).tomb == PullNew(r, f, w).tomb == w.tomb
  {
  }

  lemma FailuresHoldBackPushes(r: Rule, f: Faults, w: Work)
    ensures HeldBack(w, PushDelete(r, f, w), PushDelete(r, NO_FAULTS, w)) && PushDelete(r, f, w).local == w.local
    ensures HeldBack(w, PushNew(r, f, w), PushNew(r, NO_FAULTS, w))
  {
  }
}
