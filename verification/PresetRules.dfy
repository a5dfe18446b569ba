/**
 One preset synchronisation cycle as it acts on a single path.

 A cycle has four phases: network deletions are pulled, network changes are pulled, local
 deletions are pushed, local changes are pushed. No phase looks at another path, so the fate
 of a path is a function of its local and network copies, the time this machine last saw it,
 its tombstone, and which file operations fail. `PresetSyncManager.Sync` is proved to compute
 exactly this function for every path at once.
 */
module PresetRules {
  import opened PresetPaths

  type Content = string

  datatype File = File(content: Content, mtime: int)

  /** A file that may be missing, and a time that may never have been recorded. */
  datatype Copy = Missing | Present(file: File)
  datatype Stamp = Never | Once(time: int)

  /** All four records about one path, as one machine finds them. */
  datatype View = View(local: Copy, net: Copy, seen: Stamp, tomb: Stamp)

  /** What does not change during a cycle: the tolerance, the time a deletion is recorded with,
      who sees the path, and how watermark templates are rewritten on the way down and up. */
  datatype Rule = Rule(tolerance: int, now: int, reach: Reach, down: Content -> Content, up: Content -> Content)

  /** Which file operations on this path fail. A failed operation has no effect on files. */
  datatype Faults = Faults(
    statLocal: bool, removeLocal: bool,
    statLocalAgain: bool, copyDown: bool, statCopied: bool,
    statNet: bool, removeNet: bool,
    statNetAgain: bool, removeZombie: bool, copyUp: bool, writeBack: bool, statSource: bool)

  const NO_FAULTS := Faults(false, false, false, false, false, false, false, false, false, false, false, false)

  /** One path in the middle of a cycle. `seen` is the state file as read; `next` and `tomb`
      are the state and tombstones that will be written if the cycle succeeds. */
  datatype Work = Work(
    local: Copy, net: Copy, seen: Stamp, next: Stamp, tomb: Stamp,
    failed: bool, pulled: bool, pushed: bool, deleted: bool)

  function Begin(v: View): Work {
    Work(v.local, v.net, v.seen, v.seen, v.tomb, false, false, false, false)
  }

  function Abs(x: int): int {
    if x < 0 then -x else x
  }

  /** A tracked path that the network no longer lists: forget it, and delete the local copy
      unless it was edited since it was last seen. */
  predicate PullDeletes(r: Rule, w: Work) {
    w.seen.Once? && r.reach.tracked && !(w.net.Present? && r.reach.netScan)
  }

  function PullDelete(r: Rule, f: Faults, w: Work): Work {
    if !PullDeletes(r, w) then w
    else if f.statLocal then w.(next := Never, failed := true)
    else if w.local.Present? && Abs(w.local.file.mtime - w.seen.time) < r.tolerance then
      if f.removeLocal then w.(next := Never, failed := true)
      else w.(local := Missing, next := Never, deleted := true)
    else w.(next := Never)
  }

  predicate NeedsPull(r: Rule, w: Work)
    requires w.net.Present?
  {
    match w.local
    case Present(file) => w.net.file.mtime > file.mtime + r.tolerance
    case Missing => w.seen.Once? ==> w.net.file.mtime > w.seen.time + r.tolerance
  }

  function PullNew(r: Rule, f: Faults, w: Work): Work {
    if !(w.net.Present? && r.reach.netScan) then w
    else if f.statLocalAgain then w.(failed := true)
    else if !NeedsPull(r, w) then w
    else if f.copyDown then w.(failed := true)
    else
      var copied := w.(local := Present(File(r.down(w.net.file.content), w.net.file.mtime)));
      if f.statCopied then copied.(failed := true)
      else copied.(next := Once(w.net.file.mtime), pulled := true)
  }

  /** A tracked path that the local scan does not list: forget it, and delete the network copy
      leaving a tombstone. */
  predicate PushDeletes(r: Rule, w: Work) {
    w.next.Once? && r.reach.tracked && !(w.local.Present? && r.reach.localScan)
  }

  function PushDelete(r: Rule, f: Faults, w: Work): Work {
    if !PushDeletes(r, w) then w
    else if f.statNet then w.(next := Never, failed := true)
    else if w.net.Missing? then w.(next := Never)
    else if f.removeNet then w.(next := Never, failed := true)
    else w.(net := Missing, next := Never, tomb := Once(r.now), deleted := true)
  }

  predicate NeedsPush(r: Rule, w: Work)
    requires w.local.Present?
  {
    match w.net
    case Present(file) =>
      && (w.next.Once? ==> w.local.file.mtime > w.next.time + r.tolerance)
      && w.local.file.mtime > file.mtime
    case Missing => true
  }

  predicate Zombie(r: Rule, w: Work)
    requires w.local.Present?
  {
    w.tomb.Once? && w.local.file.mtime <= w.tomb.time + r.tolerance
  }

  function PushNew(r: Rule, f: Faults, w: Work): Work {
    if !(w.local.Present? && r.reach.localScan) then w
    else if f.statNetAgain then w.(failed := true)
    else if !NeedsPush(r, w) then w
    else if Zombie(r, w) then
      if f.removeZombie then w.(failed := true)
      else w.(local := Missing, deleted := true)
    else Pushing(r, f, w.local.file, w.(tomb := Never))
  }

  function Pushing(r: Rule, f: Faults, localFile: File, w: Work): Work {
    if f.copyUp then w.(failed := true)
    else
      var file := File(r.up(localFile.content), localFile.mtime);
      var copied := w.(net := Present(file));
      if f.writeBack then copied.(failed := true)
      else if f.statSource then copied.(local := Present(file), failed := true)
      else copied.(local := Present(file), next := Once(file.mtime), pushed := true)
  }

  function PullPhases(r: Rule, f: Faults, v: View): Work {
    PullNew(r, f, PullDelete(r, f, Begin(v)))
  }

  function Cycle(r: Rule, f: Faults, v: View): Work {
    PushNew(r, f, PushDelete(r, f, PullPhases(r, f, v)))
  }

  /** The path after a cycle without faults. */
  function Clean(r: Rule, v: View): View {
    var w := Cycle(r, NO_FAULTS, v);
    View(w.local, w.net, w.next, w.tomb)
  }

  /** The path when a cycle gives up: files are as far along as the cycle got, the state and
      tombstone files are as they were. */
  function CutShort(v: View, w: Work): View {
    View(w.local, w.net, v.seen, v.tomb)
  }

  /** How far a cycle that gives up has got. The deletion loops are never cut: a cycle in its second
      pull loop has finished the first for all paths, and likewise for the push loops. */
  datatype Cut = BeforePull | DuringPull | DuringPush

  /** How a cycle that gives up may leave a path. */
  predicate Aborts(cut: Cut, r: Rule, f: Faults, v: View, v': View) {
    match cut
    case BeforePull => v' == v
    case DuringPull => v' == CutShort(v, PullDelete(r, f, Begin(v))) || v' == CutShort(v, PullPhases(r, f, v))
    case DuringPush => v' == CutShort(v, PushDelete(r, f, PullPhases(r, f, v))) || v' == CutShort(v, Cycle(r, f, v))
  }

  // ---- what one cycle guarantees for one path ----

  /** A path that is both tombstoned and on the network was pushed after its deletion. */
  predicate TombSound(tolerance: int, v: View) {
    v.net.Present? && v.tomb.Once? ==> v.net.file.mtime > v.tomb.time + tolerance
  }

  /** Both scans see the path, so the guarantees below apply to it. */
  predicate Shared(reach: Reach) {
    reach == Reach(true, true, true)
  }

  /** A fault is never swallowed: a cycle that reports none behaved as the fault-free cycle. */
  lemma NoFailureMeansClean(r: Rule, f: Faults, v: View)
    requires !Cycle(r, f, v).failed
    ensures Cycle(r, f, v) == Cycle(r, NO_FAULTS, v)
  {
    var w1 := PullDelete(r, f, Begin(v));
    var w2 := PullNew(r, f, w1);
    var w3 := PushDelete(r, f, w2);
    PushNewClean(r, f, w3);
    PushDeleteClean(r, f, w2);
    PullNewClean(r, f, w1);
    PullDeleteClean(r, f, Begin(v));
  }

  lemma PullDeleteClean(r: Rule, f: Faults, w: Work)
    ensures !PullDelete(r, f, w).failed ==> !w.failed && PullDelete(r, f, w) == PullDelete(r, NO_FAULTS, w)
  {
  }

  lemma PullNewClean(r: Rule, f: Faults, w: Work)
    ensures !PullNew(r, f, w).failed ==> !w.failed && PullNew(r, f, w) == PullNew(r, NO_FAULTS, w)
  {
  }

  lemma PushDeleteClean(r: Rule, f: Faults, w: Work)
    ensures !PushDelete(r, f, w).failed ==> !w.failed && PushDelete(r, f, w) == PushDelete(r, NO_FAULTS, w)
  {
  }

  lemma PushNewClean(r: Rule, f: Faults, w: Work)
    ensures !PushNew(r, f, w).failed ==> !w.failed && PushNew(r, f, w) == PushNew(r, NO_FAULTS, w)
  {
  }

  lemma CleanNeverFails(r: Rule, v: View)
    ensures !Cycle(r, NO_FAULTS, v).failed
  {
  }

  /** No path is deleted twice in one cycle, so counting deletions counts paths. */
  lemma DeletedOnce(r: Rule, f: Faults, v: View)
    ensures var w := PullPhases(r, f, v);
            w.deleted ==> w.next.Never?
    ensures var w := PushDelete(r, f, PullPhases(r, f, v));
            w.deleted ==> !(w.local.Present? && r.reach.localScan)
  {
    assert PullDelete(r, f, Begin(v)).deleted ==> PullPhases(r, f, v) == PullDelete(r, f, Begin(v));
  }

  lemma NotYetPushed(r: Rule, f: Faults, v: View)
    ensures !PullPhases(r, f, v).pushed && !PushDelete(r, f, PullPhases(r, f, v)).pushed
  {
  }

  lemma CleanKeepsTombSound(r: Rule, v: View)
    requires r.tolerance > 0 && TombSound(r.tolerance, v)
    ensures TombSound(r.tolerance, Clean(r, v))
  {
  }

  /** What a cycle counts shows in the files: a path is pulled, pushed or deleted exactly when its
      copies say so, also a `.json` path, which one cycle may pull and delete. */
  lemma CountersShow(r: Rule, v: View)
    requires r.tolerance > 0 && Nested(r.reach) && TombSound(r.tolerance, v)
    ensures var w, v' := Cycle(r, NO_FAULTS, v), Clean(r, v);
            && (w.pulled <==> v'.local.Present? && (v.local.Missing? || v'.local.file.mtime > v.local.file.mtime))
            && (w.pushed <==> v'.net.Present? && (v.net.Missing? || v'.net.file.mtime > v.net.file.mtime))
            && (w.deleted <==> (v.local.Present? && v'.local.Missing?) || (v.net.Present? && v'.net.Missing?))
  {
  }

  /** Cut anywhere, with any operations failing, a cycle leaves the tombstone rule intact,
      although the tombstones it meant to write are lost. */
  lemma AbortKeepsTombSound(cut: Cut, r: Rule, f: Faults, v: View, v': View)
    requires r.tolerance > 0 && TombSound(r.tolerance, v)
    requires Aborts(cut, r, f, v, v')
    ensures TombSound(r.tolerance, v') && v'.seen == v.seen && v'.tomb == v.tomb
  {
    var w2 := PullPhases(r, f, v);
    assert w2.net == v.net && w2.tomb == v.tomb;
    PushKeepsTombSound(r, f, w2);
  }

  lemma PushKeepsTombSound(r: Rule, f: Faults, w: Work)
    requires w.net.Present? && w.tomb.Once? ==> w.net.file.mtime > w.tomb.time + r.tolerance
    ensures var w' := PushDelete(r, f, w);
            w'.net.Present? && w.tomb.Once? ==> w'.net.file.mtime > w.tomb.time + r.tolerance
    ensures var w' := PushNew(r, f, PushDelete(r, f, w));
            w'.net.Present? && w.tomb.Once? ==> w'.net.file.mtime > w.tomb.time + r.tolerance
  {
  }

  /** A cycle writes the network copy of a shared path in two ways only. */
  lemma NetworkChanges(r: Rule, v: View)
    requires r.tolerance > 0 && Shared(r.reach)
    ensures var v' := Clean(r, v);
            || (v'.net == v.net && v'.tomb == v.tomb)
            || (v'.net.Missing? && v.net.Present? && v'.tomb == Once(r.now) && v'.local == Missing)
            || (v'.net.Present? && v.local.Present? && v'.tomb.Never? && v'.seen == Once(v'.net.file.mtime)
                && v'.net.file.mtime == v.local.file.mtime
                && (v.net.Present? ==> v'.net.file.mtime > v.net.file.mtime)
                && (v.tomb.Once? ==> v'.net.file.mtime > v.tomb.time + r.tolerance))
  {
  }
}
