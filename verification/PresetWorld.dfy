/**
 Any number of machines around one network folder. Users create, edit and delete local presets
 between cycles, select other categories, and lose state files; machines run cycles, one at a time,
 that succeed, give up part-way, or fail to save their tombstones. What every run keeps is proved here.
 */
module PresetWorld {
  import opened PresetPaths
  import opened PresetRules
  import opened PresetFacts
  import opened PresetSync

  datatype Machine = Machine(reach: Path -> Reach, local: map<Path, File>, state: map<Path, int>)

  datatype World = World(machines: seq<Machine>, net: map<Path, File>, tombstones: map<Path, int>, clock: int)
  {
    /** Everything machine `i` can see. */
    function Disk(i: nat): Replica
      requires i < |machines|
    {
      Replica(machines[i].local, net, machines[i].state, tombstones)
    }

    function At(i: nat, p: Path): View
      requires i < |machines|
    {
      Disk(i).At(p)
    }

    /** The world after machine `i` changed its files and the shared ones. */
    function With(i: nat, disk: Replica, clock': int): World
      requires i < |machines|
    {
      World(machines[i := machines[i].(local := disk.local, state := disk.state)], disk.net, disk.tombstones, clock')
    }
  }

  /** One tolerance for all machines, and how far ahead of the clock a file time may lie. */
  datatype Limits = Limits(tolerance: int, skew: int)

  predicate Sensible(c: Limits) {
    c.tolerance > 0 && 0 <= c.skew <= c.tolerance
  }

  datatype Step =
    | Edit(machine: nat, path: Path, file: File)
    | Erase(machine: nat, path: Path)
    | EraseOnNetwork(path: Path)
    | Wait
    | Select(machine: nat, reach: Path -> Reach)
    | LoseState(machine: nat)
    | Sync(machine: nat, env: Env)
    | SyncLosingTombstones(machine: nat, env: Env)
    | Abort(machine: nat, env: Env, faults: Path -> Faults, cut: Cut)

  /** Steps that lose nothing: no failed cycle, and nobody deletes behind the program's back. */
  predicate Orderly(s: Step) {
    s.Edit? || s.Erase? || s.Wait? || s.Select? || s.LoseState? || s.Sync?
  }

  function RuleIn(c: Limits, w: World, i: nat, env: Env, p: Path): Rule
    requires i < |w.machines|
  {
    RuleAt(c.tolerance, w.machines[i].reach, env, p)
  }

  /** Deletions made during a step are stamped with times between its start and its end. */
  ghost predicate TimesFit(env: Env, clock: int, clock': int) {
    forall p :: clock <= env.clock(p) <= clock'
  }

  function AfterSync(c: Limits, w: World, i: nat, env: Env): Replica
    requires i < |w.machines|
  {
    CleanReplica(c.tolerance, w.machines[i].reach, env, w.Disk(i))
  }

  ghost predicate Next(c: Limits, w: World, s: Step, w': World) {
    && w.clock <= w'.clock
    && match s
       case Edit(i, p, file) =>
         && i < |w.machines| && file.mtime <= w'.clock + c.skew
         && w' == w.With(i, w.Disk(i).(local := w.machines[i].local[p := file]), w'.clock)
       case Erase(i, p) =>
         && i < |w.machines|
         && w' == w.With(i, w.Disk(i).(local := w.machines[i].local - {p}), w'.clock)
       case EraseOnNetwork(p) => w' == w.(net := w.net - {p}, clock := w'.clock)
       case Wait => w' == w.(clock := w'.clock)
       case Select(i, reach) =>
         i < |w.machines| && w' == w.(machines := w.machines[i := w.machines[i].(reach := reach)], clock := w'.clock)
       case LoseState(i) => i < |w.machines| && w' == w.With(i, w.Disk(i).(state := map[]), w'.clock)
       case Sync(i, env) =>
         && i < |w.machines| && TimesFit(env, w.clock, w'.clock)
         && w' == w.With(i, AfterSync(c, w, i, env), w'.clock)
       case SyncLosingTombstones(i, env) =>
         && i < |w.machines| && TimesFit(env, w.clock, w'.clock)
         && w' == w.With(i, AfterSync(c, w, i, env).(tombstones := w.tombstones), w'.clock)
       case Abort(i, env, faults, cut) =>
         && i < |w.machines| && TimesFit(env, w.clock, w'.clock)
         && i < |w'.machines| && w' == w.With(i, w'.Disk(i), w'.clock)
         && forall p :: Aborts(cut, RuleIn(c, w, i, env, p), faults(p), w.At(i, p), w'.At(i, p))
  }

  ghost predicate IsCycleOf(s: Step, i: nat, env: Env) {
    s == Step.Sync(i, env) || s == SyncLosingTombstones(i, env) || (s.Abort? && s.machine == i && s.env == env)
  }

  lemma OutcomeIsStep(c: Limits, w: World, i: nat, env: Env, trouble: Trouble, after: Replica, ok: bool, clock': int)
    requires i < |w.machines| && w.clock <= clock' && TimesFit(env, w.clock, clock')
    requires Outcome(c.tolerance, w.machines[i].reach, env, trouble, w.Disk(i), after, ok)
    ensures exists s :: IsCycleOf(s, i, env) && Next(c, w, s, w.With(i, after, clock'))
  {
    var w' := w.With(i, after, clock');
    assert w'.Disk(i) == after;
    if ok {
      var s := if trouble.saveTombstonesFails then SyncLosingTombstones(i, env) else Step.Sync(i, env);
      assert IsCycleOf(s, i, env) && Next(c, w, s, w');
    } else {
      var cut :| CutAt(cut, c.tolerance, w.machines[i].reach, env, trouble.faults, w.Disk(i), after);
      assert IsCycleOf(Abort(i, env, trouble.faults, cut), i, env)
        && Next(c, w, Abort(i, env, trouble.faults, cut), w');
    }
  }

  lemma StepIsOutcome(c: Limits, w: World, i: nat, env: Env, s: Step, after: Replica, clock': int)
    requires i < |w.machines| && IsCycleOf(s, i, env) && Next(c, w, s, w.With(i, after, clock'))
    ensures var faults := if s.Abort? then s.faults else p => NO_FAULTS;
            var trouble := Trouble(faults, {}, {}, false, false, false, s.SyncLosingTombstones?);
            Outcome(c.tolerance, w.machines[i].reach, env, trouble, w.Disk(i), after, !s.Abort?)
  {
    assert w.With(i, after, clock').Disk(i) == after;
    match s
    case Sync(_, _) =>
      SameDisk(w, i, after, AfterSync(c, w, i, env), clock');
    case SyncLosingTombstones(_, _) =>
      SameDisk(w, i, after, AfterSync(c, w, i, env).(tombstones := w.tombstones), clock');
    case Abort(_, _, faults, cut) =>
      forall p
        ensures after.At(p).seen == w.At(i, p).seen && after.At(p).tomb == w.At(i, p).tomb
      {
        assert Aborts(cut, RuleIn(c, w, i, env, p), faults(p), w.At(i, p), after.At(p));
      }
      SameRecords(after, w.Disk(i));
      assert CutAt(cut, c.tolerance, w.machines[i].reach, env, faults, w.Disk(i), after);
  }

  /** The steps of a run are the cycles of the synchroniser: everything that `PresetSyncManager.Sync` may
      leave on machine `i` and the network is a step of one of the three kinds, and each such step is an
      outcome that its contract allows. */
  lemma OutcomesAreSteps(c: Limits, w: World, i: nat, env: Env, after: Replica, clock': int)
    requires i < |w.machines| && w.clock <= clock' && TimesFit(env, w.clock, clock')
    ensures (exists trouble, ok :: Outcome(c.tolerance, w.machines[i].reach, env, trouble, w.Disk(i), after, ok)) <==>
            (exists s :: IsCycleOf(s, i, env) && Next(c, w, s, w.With(i, after, clock')))
  {
    if trouble, ok :| Outcome(c.tolerance, w.machines[i].reach, env, trouble, w.Disk(i), after, ok) {
      OutcomeIsStep(c, w, i, env, trouble, after, ok, clock');
    }
    if s :| IsCycleOf(s, i, env) && Next(c, w, s, w.With(i, after, clock')) {
      StepIsOutcome(c, w, i, env, s, after, clock');
    }
  }

  lemma SameDisk(w: World, i: nat, a: Replica, b: Replica, clock': int)
    requires i < |w.machines| && w.With(i, a, clock') == w.With(i, b, clock')
    ensures a == b
  {
    assert w.With(i, a, clock').Disk(i) == a && w.With(i, b, clock').Disk(i) == b;
  }

  lemma SameRecords(a: Replica, b: Replica)
    requires forall p :: a.At(p).seen == b.At(p).seen && a.At(p).tomb == b.At(p).tomb
    ensures a.state == b.state && a.tombstones == b.tombstones
  {
    SameReplica(a, Replica(a.local, a.net, b.state, b.tombstones));
  }

  /** Machines start with files of their own, nothing shared and nothing remembered. */
  ghost predicate Initial(c: Limits, w: World) {
    && w.net == map[] && w.tombstones == map[]
    && (forall i :: 0 <= i < |w.machines| ==> w.machines[i].state == map[])
    && forall i, p :: 0 <= i < |w.machines| && p in w.machines[i].local ==>
       w.machines[i].local[p].mtime <= w.clock + c.skew
  }

  ghost predicate IsRun(c: Limits, ws: seq<World>, steps: seq<Step>) {
    && Sensible(c)
    && |ws| == |steps| + 1
    && Initial(c, ws[0])
    && forall k :: 0 <= k < |steps| ==> Next(c, ws[k], steps[k], ws[k + 1])
  }

  // ---- what every run keeps, whatever fails ----

  /** No copy lies ahead of the clock by more than the skew, and a path that is both tombstoned
      and on the network was pushed after its deletion. */
  predicate NetSound(c: Limits, clock: int, v: View) {
    TombSound(c.tolerance, v) && (v.net.Present? ==> v.net.file.mtime <= clock + c.skew)
  }

  predicate LocalSound(c: Limits, clock: int, v: View) {
    v.local.Present? ==> v.local.file.mtime <= clock + c.skew
  }

  predicate Below(bound: int, w: Work) {
    (w.local.Present? ==> w.local.file.mtime <= bound) && (w.net.Present? ==> w.net.file.mtime <= bound)
  }

  /** Cycles copy files with their times, so no phase makes a time that was not there. */
  lemma PullsKeepBound(bound: int, r: Rule, f: Faults, w: Work)
    requires Below(bound, w)
    ensures Below(bound, PullDelete(r, f, w)) && Below(bound, PullNew(r, f, w))
  {
  }

  lemma PushDeleteKeepsBound(bound: int, r: Rule, f: Faults, w: Work)
    requires Below(bound, w)
    ensures Below(bound, PushDelete(r, f, w))
  {
  }

  lemma PushNewKeepsBound(bound: int, r: Rule, f: Faults, w: Work)
    requires Below(bound, w)
    ensures Below(bound, PushNew(r, f, w))
  {
  }

  lemma CycleKeepsBound(bound: int, r: Rule, f: Faults, v: View)
    requires Below(bound, Begin(v))
    ensures Below(bound, PullDelete(r, f, Begin(v))) && Below(bound, PullPhases(r, f, v))
    ensures Below(bound, PushDelete(r, f, PullPhases(r, f, v))) && Below(bound, Cycle(r, f, v))
  {
    PullsKeepBound(bound, r, f, Begin(v));
    PullsKeepBound(bound, r, f, PullDelete(r, f, Begin(v)));
    PushDeleteKeepsBound(bound, r, f, PullPhases(r, f, v));
    PushNewKeepsBound(bound, r, f, PushDelete(r, f, PullPhases(r, f, v)));
  }

  lemma CleanSound(c: Limits, r: Rule, clock: int, v: View)
    requires Sensible(c) && r.tolerance == c.tolerance && NetSound(c, clock, v) && LocalSound(c, clock, v)
    ensures var v' := Clean(r, v);
            NetSound(c, clock, v') && LocalSound(c, clock, v') && NetSound(c, clock, v'.(tomb := v.tomb))
  {
    CleanKeepsTombSound(r, v);
    CycleKeepsBound(clock + c.skew, r, NO_FAULTS, v);
    AbortKeepsTombSound(DuringPush, r, NO_FAULTS, v, CutShort(v, Cycle(r, NO_FAULTS, v)));
  }

  lemma AbortSound(c: Limits, cut: Cut, r: Rule, f: Faults, clock: int, v: View, v': View)
    requires Sensible(c) && r.tolerance == c.tolerance && NetSound(c, clock, v) && LocalSound(c, clock, v)
    requires Aborts(cut, r, f, v, v')
    ensures NetSound(c, clock, v') && LocalSound(c, clock, v')
  {
    AbortKeepsTombSound(cut, r, f, v, v');
    CycleKeepsBound(clock + c.skew, r, f, v);
  }

  /** Soundness of one path for all machines. */
  ghost predicate SoundAt(c: Limits, w: World, p: Path) {
    && NetSound(c, w.clock, View(Missing, CopyAt(w.net, p), Never, StampAt(w.tombstones, p)))
    && forall i :: 0 <= i < |w.machines| ==> LocalSound(c, w.clock, w.At(i, p))
  }

  lemma OthersUnmoved(w: World, i: nat, disk: Replica, clock': int, j: nat, p: Path)
    requires i < |w.machines| && j < |w.machines|
    ensures var w' := w.With(i, disk, clock');
            w'.At(j, p) == if i == j then disk.At(p)
                           else w.At(j, p).(net := CopyAt(disk.net, p), tomb := StampAt(disk.tombstones, p))
  {
  }

  /** Machine by machine, what a successful cycle does to a path. */
  lemma SyncAt(c: Limits, w: World, i: nat, env: Env, clock': int, j: nat, p: Path)
    requires i < |w.machines| && j < |w.machines|
    ensures var v' := Clean(RuleIn(c, w, i, env, p), w.At(i, p));
            w.With(i, AfterSync(c, w, i, env), clock').At(j, p)
            == if j == i then v' else w.At(j, p).(net := v'.net, tomb := v'.tomb)
  {
    CleanReplicaAt(c.tolerance, w.machines[i].reach, env, w.Disk(i), p);
    OthersUnmoved(w, i, AfterSync(c, w, i, env), clock', j, p);
  }

  /** A cycle, finished or not, that leaves machine `i` and the network sound leaves the path sound. */
  lemma WithSound(c: Limits, w: World, i: nat, disk: Replica, clock': int, p: Path)
    requires i < |w.machines| && w.clock <= clock' && SoundAt(c, w, p)
    requires NetSound(c, clock', disk.At(p)) && LocalSound(c, clock', disk.At(p))
    ensures SoundAt(c, w.With(i, disk, clock'), p)
  {
    forall j | 0 <= j < |w.machines|
      ensures LocalSound(c, clock', w.With(i, disk, clock').At(j, p))
    {
      OthersUnmoved(w, i, disk, clock', j, p);
    }
  }

  lemma StepSound(c: Limits, w: World, s: Step, w': World, p: Path)
    requires Sensible(c) && SoundAt(c, w, p) && Next(c, w, s, w')
    ensures SoundAt(c, w', p)
  {
    match s
    case Edit(i, q, file) =>
      assert LocalSound(c, w.clock, w.At(i, p));
      WithSound(c, w, i, w.Disk(i).(local := w.machines[i].local[q := file]), w'.clock, p);
    case Erase(i, q) =>
      assert LocalSound(c, w.clock, w.At(i, p));
      WithSound(c, w, i, w.Disk(i).(local := w.machines[i].local - {q}), w'.clock, p);
    case EraseOnNetwork(q) =>
      assert forall j :: 0 <= j < |w.machines| ==> w'.At(j, p).local == w.At(j, p).local;
    case Wait =>
      assert forall j :: 0 <= j < |w.machines| ==> w'.At(j, p).local == w.At(j, p).local;
    case Select(i, reach) =>
      assert forall j :: 0 <= j < |w.machines| ==> w'.At(j, p).local == w.At(j, p).local;
    case LoseState(i) =>
      assert LocalSound(c, w.clock, w.At(i, p));
      WithSound(c, w, i, w.Disk(i).(state := map[]), w'.clock, p);
    case Sync(i, env) =>
      CleanReplicaAt(c.tolerance, w.machines[i].reach, env, w.Disk(i), p);
      CleanSound(c, RuleIn(c, w, i, env, p), w.clock, w.At(i, p));
      WithSound(c, w, i, AfterSync(c, w, i, env), w'.clock, p);
    case SyncLosingTombstones(i, env) =>
      CleanReplicaAt(c.tolerance, w.machines[i].reach, env, w.Disk(i), p);
      CleanSound(c, RuleIn(c, w, i, env, p), w.clock, w.At(i, p));
      WithSound(c, w, i, AfterSync(c, w, i, env).(tombstones := w.tombstones), w'.clock, p);
    case Abort(i, env, faults, cut) =>
      AbortSound(c, cut, RuleIn(c, w, i, env, p), faults(p), w.clock, w.At(i, p), w'.At(i, p));
      WithSound(c, w, i, w'.Disk(i), w'.clock, p);
  }

  /** Every world of every run is sound, whatever the users do and whichever cycles fail. */
  lemma {:induction false} SoundOverRuns(c: Limits, ws: seq<World>, steps: seq<Step>, k: nat, p: Path)
    requires IsRun(c, ws, steps) && k <= |steps|
    ensures SoundAt(c, ws[k], p)
  {
    if k == 0 {
      forall i | 0 <= i < |ws[0].machines|
        ensures LocalSound(c, ws[0].clock, ws[0].At(i, p))
      {
        assert p in ws[0].machines[i].local ==> ws[0].machines[i].local[p].mtime <= ws[0].clock + c.skew;
      }
    } else {
      SoundOverRuns(c, ws, steps, k - 1, p);
      StepSound(c, ws[k - 1], steps[k - 1], ws[k], p);
    }
  }

  /** A successful cycle of a run starts from a sound view and ends as the per-path rule says. */
  lemma SyncFollowsRule(c: Limits, ws: seq<World>, steps: seq<Step>, k: nat, p: Path)
    requires IsRun(c, ws, steps) && k < |steps| && steps[k].Sync?
    ensures var i := steps[k].machine;
            && i < |ws[k].machines| == |ws[k + 1].machines| && TombSound(c.tolerance, ws[k].At(i, p))
            && ws[k + 1].At(i, p) == Clean(RuleIn(c, ws[k], i, steps[k].env, p), ws[k].At(i, p))
  {
    var i, env := steps[k].machine, steps[k].env;
    assert Next(c, ws[k], steps[k], ws[k + 1]);
    SoundOverRuns(c, ws, steps, k, p);
    SyncAt(c, ws[k], i, env, ws[k + 1].clock, i, p);
  }

  /** In every run a cycle that succeeds leaves its machine and the network with the same files
      in the paths both scans see. */
  lemma SyncMakesKeysAgree(c: Limits, ws: seq<World>, steps: seq<Step>, k: nat, p: Path)
    requires IsRun(c, ws, steps) && k < |steps| && steps[k].Sync?
    requires steps[k].machine < |ws[k].machines| && Shared(ws[k].machines[steps[k].machine].reach(p))
    ensures |ws[k + 1].machines| == |ws[k].machines| && KeysAgree(ws[k + 1].At(steps[k].machine, p))
  {
    var i := steps[k].machine;
    SyncFollowsRule(c, ws, steps, k, p);
    KeysAgreeIff(RuleIn(c, ws[k], i, steps[k].env, p), ws[k].At(i, p));
  }

  // ---- what orderly runs keep ----

  /** The version of a path: the network's file time or, for a deleted path, the tombstone's. */
  function Version(net: Copy, tomb: Stamp): Stamp {
    if net.Present? then Once(net.file.mtime) else tomb
  }

  function VersionAt(w: World, p: Path): Stamp {
    Version(CopyAt(w.net, p), StampAt(w.tombstones, p))
  }

  predicate NotLater(a: Stamp, b: Stamp) {
    a.Once? ==> b.Once? && a.time <= b.time
  }

  ghost predicate AllSeenBounded(w: World, p: Path) {
    forall i :: 0 <= i < |w.machines| ==> SeenBounded(w.At(i, p))
  }

  lemma CleanBounded(r: Rule, v: View)
    requires r.tolerance > 0 && TombSound(r.tolerance, v) && SeenBounded(v)
    requires v.net.Present? ==> v.net.file.mtime <= r.now
    ensures SeenBounded(Clean(r, v))
  {
  }

  lemma CleanVersion(r: Rule, v: View)
    requires r.tolerance > 0 && TombSound(r.tolerance, v)
    requires v.net.Present? ==> v.net.file.mtime <= r.now
    ensures var v' := Clean(r, v);
            NotLater(Version(v.net, v.tomb), Version(v'.net, v'.tomb))
  {
  }

  lemma SyncVersion(c: Limits, w: World, i: nat, env: Env, w': World, p: Path)
    requires Sensible(c) && c.skew == 0 && SoundAt(c, w, p) && AllSeenBounded(w, p)
    requires Next(c, w, Step.Sync(i, env), w')
    ensures AllSeenBounded(w', p) && NotLater(VersionAt(w, p), VersionAt(w', p))
  {
    assert SeenBounded(w.At(i, p)) && LocalSound(c, w.clock, w.At(i, p));
    CleanReplicaAt(c.tolerance, w.machines[i].reach, env, w.Disk(i), p);
    CleanBounded(RuleIn(c, w, i, env, p), w.At(i, p));
    CleanVersion(RuleIn(c, w, i, env, p), w.At(i, p));
    forall j | 0 <= j < |w.machines|
      ensures SeenBounded(w'.At(j, p))
    {
      OthersUnmoved(w, i, AfterSync(c, w, i, env), w'.clock, j, p);
      assert SeenBounded(w.At(j, p));
    }
  }

  lemma StepVersion(c: Limits, w: World, s: Step, w': World, p: Path)
    requires Sensible(c) && c.skew == 0 && SoundAt(c, w, p) && AllSeenBounded(w, p)
    requires Next(c, w, s, w') && Orderly(s)
    ensures AllSeenBounded(w', p) && NotLater(VersionAt(w, p), VersionAt(w', p))
  {
    match s
    case Edit(i, q, file) =>
      assert forall j :: 0 <= j < |w.machines| ==>
        SeenBounded(w.At(j, p)) && w'.At(j, p).(local := Missing) == w.At(j, p).(local := Missing);
    case Erase(i, q) =>
      assert forall j :: 0 <= j < |w.machines| ==>
        SeenBounded(w.At(j, p)) && w'.At(j, p).(local := Missing) == w.At(j, p).(local := Missing);
    case Wait =>
      assert forall j :: 0 <= j < |w.machines| ==> SeenBounded(w.At(j, p)) && w'.At(j, p) == w.At(j, p);
    case Select(i, reach) =>
      assert forall j :: 0 <= j < |w.machines| ==> SeenBounded(w.At(j, p)) && w'.At(j, p) == w.At(j, p);
    case LoseState(i) =>
      forall j | 0 <= j < |w.machines|
        ensures SeenBounded(w'.At(j, p))
      {
        OthersUnmoved(w, i, w.Disk(i).(state := map[]), w'.clock, j, p);
        assert SeenBounded(w.At(j, p));
      }
    case Sync(i, env) =>
      SyncVersion(c, w, i, env, w', p);
    case _ =>
  }

  ghost predicate AllOrderly(steps: seq<Step>, a: nat, b: nat) {
    forall k :: a <= k < b && k < |steps| ==> Orderly(steps[k])
  }

  lemma InitiallyBounded(c: Limits, w: World, p: Path)
    requires Initial(c, w)
    ensures AllSeenBounded(w, p)
  {
    forall i | 0 <= i < |w.machines|
      ensures SeenBounded(w.At(i, p))
    {
      assert w.machines[i].state == map[];
    }
  }

  lemma {:induction false} BoundedOverRuns(c: Limits, ws: seq<World>, steps: seq<Step>, b: nat, p: Path)
    requires IsRun(c, ws, steps) && c.skew == 0 && b <= |steps| && AllOrderly(steps, 0, b)
    ensures AllSeenBounded(ws[b], p)
  {
    if b == 0 {
      InitiallyBounded(c, ws[0], p);
    } else {
      SoundOverRuns(c, ws, steps, b - 1, p);
      BoundedOverRuns(c, ws, steps, b - 1, p);
      assert Next(c, ws[b - 1], steps[b - 1], ws[b]) && Orderly(steps[b - 1]);
      StepVersion(c, ws[b - 1], steps[b - 1], ws[b], p);
    }
  }

  /** In a run without failures the version of a path never falls, and no machine remembers more
      than the version. */
  lemma {:induction false} VersionOverRuns(c: Limits, ws: seq<World>, steps: seq<Step>, a: nat, b: nat, p: Path)
    requires IsRun(c, ws, steps) && c.skew == 0 && a <= b <= |steps| && AllOrderly(steps, 0, b)
    ensures AllSeenBounded(ws[b], p)
    ensures NotLater(VersionAt(ws[a], p), VersionAt(ws[b], p))
  {
    BoundedOverRuns(c, ws, steps, b, p);
    if a < b {
      VersionOverRuns(c, ws, steps, a, b - 1, p);
      SoundOverRuns(c, ws, steps, b - 1, p);
      assert Next(c, ws[b - 1], steps[b - 1], ws[b]) && Orderly(steps[b - 1]);
      StepVersion(c, ws[b - 1], steps[b - 1], ws[b], p);
    }
  }

  /** In a run without failures no machine remembers a version later than the network's. */
  lemma NeverStale(c: Limits, ws: seq<World>, steps: seq<Step>, k: nat, i: nat, p: Path)
    requires IsRun(c, ws, steps) && c.skew == 0 && k <= |steps| && AllOrderly(steps, 0, k) && i < |ws[k].machines|
    ensures SeenBounded(ws[k].At(i, p)) && !StaleNetwork(c.tolerance, ws[k].At(i, p))
  {
    VersionOverRuns(c, ws, steps, k, k, p);
    assert SeenBounded(ws[k].At(i, p));
  }

  /** In every run a successful cycle brings the two copies within the tolerance, exactly unless its
      machine remembers a version later than the network's; without failures none ever does. */
  lemma SyncMakesMtimesAgree(c: Limits, ws: seq<World>, steps: seq<Step>, k: nat, p: Path)
    requires IsRun(c, ws, steps) && k < |steps| && steps[k].Sync?
    requires steps[k].machine < |ws[k].machines| && Shared(ws[k].machines[steps[k].machine].reach(p))
    ensures |ws[k + 1].machines| == |ws[k].machines|
    ensures var i := steps[k].machine;
            MtimesAgree(c.tolerance, ws[k + 1].At(i, p)) <==> !StaleNetwork(c.tolerance, ws[k].At(i, p))
    ensures c.skew == 0 && AllOrderly(steps, 0, k) ==> !StaleNetwork(c.tolerance, ws[k].At(steps[k].machine, p))
  {
    var i := steps[k].machine;
    SyncFollowsRule(c, ws, steps, k, p);
    MtimesAgreeIff(RuleIn(c, ws[k], i, steps[k].env, p), ws[k].At(i, p));
    if c.skew == 0 && AllOrderly(steps, 0, k) {
      NeverStale(c, ws, steps, k, i, p);
    }
  }

  /** One cycle's answer to every kind of conflict at one path. */
  predicate Resolves(r: Rule, v: View, v': View) {
    && (v.local.Present? && v.net.Present? && v.net.file.mtime > v.local.file.mtime + r.tolerance ==>
          v'.net == v.net && v'.local == Present(File(r.down(v.net.file.content), v.net.file.mtime)))
    && (v.local.Present? && v.net.Present? && v.local.file.mtime > v.net.file.mtime + r.tolerance ==>
          v'.net == v'.local == Present(File(r.up(v.local.file.content), v.local.file.mtime)))
    && (v.local.Missing? && v.net.Present? && v.seen.Once? ==>
          (v'.net == v.net && v'.local.Present? <==> v.net.file.mtime > v.seen.time + r.tolerance))
    && (v.local.Present? && v.net.Missing? && v.tomb.Once? ==>
          (v'.net.Present? && v'.local.Present? <==> v.local.file.mtime > v.tomb.time + r.tolerance))
  }

  lemma CleanResolves(r: Rule, v: View)
    requires r.tolerance > 0 && Shared(r.reach) && TombSound(r.tolerance, v) && SeenBounded(v)
    ensures Resolves(r, v, Clean(r, v))
  {
    if v.local.Present? && v.net.Present? {
      LastWriterWins(r, v);
    } else if v.local.Missing? && v.net.Present? && v.seen.Once? {
      LocalDeletion(r, v);
    } else if v.local.Present? && v.tomb.Once? {
      NetworkDeletion(r, v);
    }
  }

  /** In a run without failures a cycle resolves a conflict in favour of the newer copy, and an
      edit made after a deletion survives it, in either direction. */
  lemma SyncResolvesConflicts(c: Limits, ws: seq<World>, steps: seq<Step>, k: nat, p: Path)
    requires IsRun(c, ws, steps) && c.skew == 0 && k < |steps| && steps[k].Sync? && AllOrderly(steps, 0, k)
    requires steps[k].machine < |ws[k].machines| && Shared(ws[k].machines[steps[k].machine].reach(p))
    ensures |ws[k + 1].machines| == |ws[k].machines|
    ensures var i := steps[k].machine;
            Resolves(RuleIn(c, ws[k], i, steps[k].env, p), ws[k].At(i, p), ws[k + 1].At(i, p))
  {
    var i := steps[k].machine;
    SyncFollowsRule(c, ws, steps, k, p);
    NeverStale(c, ws, steps, k, i, p);
    CleanResolves(RuleIn(c, ws[k], i, steps[k].env, p), ws[k].At(i, p));
  }

  /** A deletion at time `t` holds: anything on the network is newer, and while nothing is there
      a tombstone at least as late guards the path. */
  predicate DeletionHolds(tolerance: int, t: int, net: Copy, tomb: Stamp) {
    if net.Present? then net.file.mtime > t + tolerance else tomb.Once? && tomb.time >= t
  }

  ghost predicate HoldsIn(c: Limits, w: World, p: Path, t: int) {
    DeletionHolds(c.tolerance, t, CopyAt(w.net, p), StampAt(w.tombstones, p))
  }

  /** The path leaves the network and no tombstone from `t` or later is there to say so. */
  predicate Forgets(w: World, w': World, p: Path, t: int) {
    p in w.net && p !in w'.net && !(p in w'.tombstones && w'.tombstones[p] >= t)
  }

  /** A cycle that removes nothing lets only files younger than the deletion onto the network, whether
      it saves its tombstones or not. */
  lemma CleanHoldsDeletion(c: Limits, r: Rule, t: int, v: View)
    requires Sensible(c) && r.tolerance == c.tolerance && TombSound(c.tolerance, v)
    requires DeletionHolds(c.tolerance, t, v.net, v.tomb)
    ensures var v' := Clean(r, v);
            if v'.net.Present? then v'.net.file.mtime > t + c.tolerance
            else v.net.Present? || v'.tomb == v.tomb
  {
  }

  lemma AbortHoldsDeletion(c: Limits, cut: Cut, r: Rule, f: Faults, t: int, v: View, v': View)
    requires Sensible(c) && r.tolerance == c.tolerance && TombSound(c.tolerance, v) && Aborts(cut, r, f, v, v')
    requires DeletionHolds(c.tolerance, t, v.net, v.tomb)
    ensures v'.net.Present? ==> v'.net.file.mtime > t + c.tolerance
  {
    var w2 := PullPhases(r, f, v);
    assert w2.net == v.net && w2.tomb == v.tomb;
    PushHoldsDeletion(c, r, f, t, w2);
  }

  lemma PushHoldsDeletion(c: Limits, r: Rule, f: Faults, t: int, w: Work)
    requires Sensible(c) && r.tolerance == c.tolerance
    requires DeletionHolds(c.tolerance, t, w.net, w.tomb)
    ensures var w' := PushDelete(r, f, w);
            w'.net.Present? ==> w'.net.file.mtime > t + c.tolerance
    ensures var w' := PushNew(r, f, PushDelete(r, f, w));
            w'.net.Present? ==> w'.net.file.mtime > t + c.tolerance
  {
  }

  lemma LosingHoldsDeletion(c: Limits, w: World, i: nat, env: Env, w': World, p: Path, t: int)
    requires Sensible(c) && SoundAt(c, w, p) && Next(c, w, SyncLosingTombstones(i, env), w') && HoldsIn(c, w, p, t)
    ensures HoldsIn(c, w', p, t) <==> !Forgets(w, w', p, t)
  {
    CleanReplicaAt(c.tolerance, w.machines[i].reach, env, w.Disk(i), p);
    CleanHoldsDeletion(c, RuleIn(c, w, i, env, p), t, w.At(i, p));
  }

  lemma StepHoldsDeletion(c: Limits, w: World, s: Step, w': World, p: Path, t: int)
    requires Sensible(c) && SoundAt(c, w, p) && Next(c, w, s, w') && HoldsIn(c, w, p, t)
    ensures HoldsIn(c, w', p, t) <==> !Forgets(w, w', p, t)
  {
    match s
    case Sync(i, env) =>
      SyncAt(c, w, i, env, w'.clock, i, p);
      CleanHoldsDeletion(c, RuleIn(c, w, i, env, p), t, w.At(i, p));
    case SyncLosingTombstones(i, env) =>
      LosingHoldsDeletion(c, w, i, env, w', p, t);
    case Abort(i, env, faults, cut) =>
      AbortHoldsDeletion(c, cut, RuleIn(c, w, i, env, p), faults(p), t, w.At(i, p), w'.At(i, p));
    case _ =>
  }

  lemma CleanRemembers(c: Limits, r: Rule, clock: int, t: int, v: View)
    requires Sensible(c) && NetSound(c, clock, v) && clock <= r.now && DeletionHolds(c.tolerance, t, v.net, v.tomb)
    ensures v.net.Present? && Clean(r, v).net.Missing? ==> Clean(r, v).tomb.Once? && Clean(r, v).tomb.time >= t
  {
  }

  /** Only three kinds of steps forget a deletion: a cycle that removes the file and then gives up or
      cannot save its tombstones, and somebody removing the file by hand. */
  lemma OrderlyStepsRemember(c: Limits, w: World, s: Step, w': World, p: Path, t: int)
    requires Sensible(c) && SoundAt(c, w, p) && Next(c, w, s, w') && HoldsIn(c, w, p, t)
    ensures Forgets(w, w', p, t) ==> s.Abort? || s.SyncLosingTombstones? || s == EraseOnNetwork(p)
  {
    if s.Sync? {
      SyncAt(c, w, s.machine, s.env, w'.clock, s.machine, p);
      CleanRemembers(c, RuleIn(c, w, s.machine, s.env, p), w.clock, t, w.At(s.machine, p));
    }
  }

  lemma {:induction false} HoldsWhileRemembered(c: Limits, ws: seq<World>, steps: seq<Step>, a: nat, b: nat, p: Path,
                                                t: int)
    requires IsRun(c, ws, steps) && a <= b <= |steps| && HoldsIn(c, ws[a], p, t)
    requires forall k :: a <= k < b ==> !Forgets(ws[k], ws[k + 1], p, t)
    ensures HoldsIn(c, ws[b], p, t)
  {
    if a < b {
      HoldsWhileRemembered(c, ws, steps, a, b - 1, p, t);
      SoundOverRuns(c, ws, steps, b - 1, p);
      assert Next(c, ws[b - 1], steps[b - 1], ws[b]) && !Forgets(ws[b - 1], ws[b], p, t);
      StepHoldsDeletion(c, ws[b - 1], steps[b - 1], ws[b], p, t);
    }
  }

  /** No resurrection, in every run, failures included: once a deletion is tombstoned at `t`, nothing as
      old as that is ever on the network again and the path stays guarded, exactly as long as no step
      takes the path off the network without a tombstone. Whichever machine pushes, whether or not it
      tracked the path, and what happened before the deletion do not matter. */
  lemma NoResurrection(c: Limits, ws: seq<World>, steps: seq<Step>, a: nat, b: nat, p: Path, t: int)
    requires IsRun(c, ws, steps) && a <= b <= |steps|
    requires p !in ws[a].net && p in ws[a].tombstones && ws[a].tombstones[p] == t
    ensures (forall k :: a <= k <= b ==> HoldsIn(c, ws[k], p, t)) <==>
            (forall k :: a <= k < b ==> !Forgets(ws[k], ws[k + 1], p, t))
  {
    if forall k :: a <= k < b ==> !Forgets(ws[k], ws[k + 1], p, t) {
      forall k | a <= k <= b
        ensures HoldsIn(c, ws[k], p, t)
      {
        HoldsWhileRemembered(c, ws, steps, a, k, p, t);
      }
    }
    if forall k :: a <= k <= b ==> HoldsIn(c, ws[k], p, t) {
      forall k | a <= k < b
        ensures !Forgets(ws[k], ws[k + 1], p, t)
      {
        assert HoldsIn(c, ws[k], p, t) && HoldsIn(c, ws[k + 1], p, t);
      }
    }
  }

  /** So it holds through every stretch of a run in which no cycle fails and nobody removes the file
      from the network by hand. */
  lemma {:induction false} NoResurrectionWhileOrderly(c: Limits, ws: seq<World>, steps: seq<Step>, a: nat, b: nat,
                                                      p: Path, t: int)
    requires IsRun(c, ws, steps) && a <= b <= |steps| && AllOrderly(steps, a, b)
    requires p !in ws[a].net && p in ws[a].tombstones && ws[a].tombstones[p] == t
    ensures HoldsIn(c, ws[b], p, t)
  {
    if a < b {
      NoResurrectionWhileOrderly(c, ws, steps, a, b - 1, p, t);
      SoundOverRuns(c, ws, steps, b - 1, p);
      assert Next(c, ws[b - 1], steps[b - 1], ws[b]) && Orderly(steps[b - 1]);
      OrderlyStepsRemember(c, ws[b - 1], steps[b - 1], ws[b], p, t);
      StepHoldsDeletion(c, ws[b - 1], steps[b - 1], ws[b], p, t);
    }
  }
}
