/**
 The preset synchroniser of one machine: two file trees, a state file, a tombstone file, and a
 cycle of four loops over maps in arbitrary order. The cycle is proved equal, path by path, to
 the decision function of `PresetRules`.
 */
module PresetSync {
  import opened Text
  import opened PresetPaths
  import opened PresetRules

  /** Ticks are nanoseconds. */
  const DEFAULT_TOLERANCE := 2_000_000_000

  /** What a cycle finds around it: the clock, read once for each deletion, and the watermark
      rewriting, which depends on the logo files present at the time. */
  datatype Env = Env(clock: Path -> int, down: Path -> Content -> Content, up: Path -> Content -> Content)

  /** What goes wrong during a cycle. A loop that checks for cancellation gives up at the first
      path in its `cancel` set, so for each iteration order these sets cover every cut. */
  datatype Trouble = Trouble(
    faults: Path -> Faults, cancelPull: set<Path>, cancelPush: set<Path>,
    scanNetworkFails: bool, scanLocalFails: bool, saveStateFails: bool, saveTombstonesFails: bool)

  ghost predicate NoTrouble(t: Trouble) {
    && (forall p :: t.faults(p) == NO_FAULTS)
    && t.cancelPull == t.cancelPush == {}
    && !t.scanNetworkFails && !t.scanLocalFails && !t.saveStateFails && !t.saveTombstonesFails
  }

  function RuleAt(tolerance: int, reach: Path -> Reach, env: Env, p: Path): Rule {
    Rule(tolerance, env.clock(p), reach(p), env.down(p), env.up(p))
  }

  function CopyAt(tree: map<Path, File>, p: Path): Copy {
    if p in tree then Present(tree[p]) else Missing
  }

  function StampAt(stamps: map<Path, int>, p: Path): Stamp {
    if p in stamps then Once(stamps[p]) else Never
  }

  /** Everything on disk that a cycle reads and writes. */
  datatype Replica = Replica(
    local: map<Path, File>, net: map<Path, File>, state: map<Path, int>, tombstones: map<Path, int>)
  {
    function At(p: Path): View {
      View(CopyAt(local, p), CopyAt(net, p), StampAt(state, p), StampAt(tombstones, p))
    }

    function Paths(): set<Path> {
      local.Keys + net.Keys + state.Keys + tombstones.Keys
    }
  }

  /** Trees and records that agree at every path are equal. */
  lemma SameReplica(a: Replica, b: Replica)
    requires forall p :: a.At(p) == b.At(p)
    ensures a == b
  {
    forall p
      ensures p in a.local <==> p in b.local
      ensures p in a.net <==> p in b.net
      ensures p in a.state <==> p in b.state
      ensures p in a.tombstones <==> p in b.tombstones
      ensures p in a.local ==> a.local[p] == b.local[p]
      ensures p in a.net ==> a.net[p] == b.net[p]
      ensures p in a.state ==> a.state[p] == b.state[p]
      ensures p in a.tombstones ==> a.tombstones[p] == b.tombstones[p]
    {
      assert a.At(p) == b.At(p);
    }
    assert a.local == b.local && a.net == b.net && a.state == b.state && a.tombstones == b.tombstones;
  }

  /** One fault-free cycle on everything at once: each path goes its own way. */
  function CleanReplica(tolerance: int, reach: Path -> Reach, env: Env, disk: Replica): Replica {
    var after := map p | p in disk.Paths() :: Clean(RuleAt(tolerance, reach, env, p), disk.At(p));
    Replica(
      map p | p in after && after[p].local.Present? :: after[p].local.file,
      map p | p in after && after[p].net.Present? :: after[p].net.file,
      map p | p in after && after[p].seen.Once? :: after[p].seen.time,
      map p | p in after && after[p].tomb.Once? :: after[p].tomb.time)
  }

  lemma NowhereStays(r: Rule)
    ensures Clean(r, View(Missing, Missing, Never, Never)) == View(Missing, Missing, Never, Never)
  {
  }

  lemma CleanReplicaAt(tolerance: int, reach: Path -> Reach, env: Env, disk: Replica, p: Path)
    ensures CleanReplica(tolerance, reach, env, disk).At(p) == Clean(RuleAt(tolerance, reach, env, p), disk.At(p))
  {
    var rule, v := RuleAt(tolerance, reach, env, p), disk.At(p);
    if p !in disk.Paths() {
      assert v == View(Missing, Missing, Never, Never);
      NowhereStays(rule);
    }
    assert Clean(rule, v) == View(Clean(rule, v).local, Clean(rule, v).net, Clean(rule, v).seen, Clean(rule, v).tomb);
  }

  datatype Summary = Summary(pulled: nat, pushed: nat, deleted: nat, tracked: nat)

  /** A cycle under way: the two trees, the state file as read, what will be written to the state
      and tombstone files, where something failed, and the counters with the paths they count. */
  datatype Flight = Flight(
    local: map<Path, File>, net: map<Path, File>, state: map<Path, int>,
    newState: map<Path, int>, newTombstones: map<Path, int>, failedAt: set<Path>,
    pulled: nat, pulledAt: set<Path>, pushed: nat, pushedAt: set<Path>, deleted: nat, deletedAt: set<Path>)
  {
    function At(p: Path): Work {
      Work(CopyAt(local, p), CopyAt(net, p), StampAt(state, p), StampAt(newState, p), StampAt(newTombstones, p),
           p in failedAt, p in pulledAt, p in pushedAt, p in deletedAt)
    }

    predicate Counted() {
      pulled == |pulledAt| && pushed == |pushedAt| && deleted == |deletedAt|
    }

    /** `this` and `after` differ at `p` only, and `after` is right about its counters. */
    ghost predicate Becomes(p: Path, w: Work, after: Flight) {
      after.Counted() && after.At(p) == w && forall q :: q != p ==> after.At(q) == At(q)
    }
  }

  method NoteError(s: Flight, p: Path) returns (out: Flight)
    requires s.Counted()
    ensures s.Becomes(p, s.At(p).(failed := true), out)
  {
    out := s.(failedAt := s.failedAt + {p});
  }

  method RemoveLocal(s: Flight, p: Path) returns (out: Flight)
    requires s.Counted() && p !in s.deletedAt
    ensures s.Becomes(p, s.At(p).(local := Missing, deleted := true), out)
  {
    out := s.(local := s.local - {p}, deleted := s.deleted + 1, deletedAt := s.deletedAt + {p});
  }

  method RemoveNetwork(s: Flight, p: Path, now: int) returns (out: Flight)
    requires s.Counted() && p !in s.deletedAt
    ensures s.Becomes(p, s.At(p).(net := Missing, tomb := Once(now), deleted := true), out)
  {
    out := s.(net := s.net - {p}, newTombstones := s.newTombstones[p := now],
              deleted := s.deleted + 1, deletedAt := s.deletedAt + {p});
  }

  method Forget(s: Flight, p: Path) returns (out: Flight)
    requires s.Counted()
    ensures s.Becomes(p, s.At(p).(next := Never), out)
  {
    out := s.(newState := s.newState - {p});
  }

  method WriteLocal(s: Flight, p: Path, file: File) returns (out: Flight)
    requires s.Counted()
    ensures s.Becomes(p, s.At(p).(local := Present(file)), out)
  {
    out := s.(local := s.local[p := file]);
  }

  method WriteNetwork(s: Flight, p: Path, file: File) returns (out: Flight)
    requires s.Counted()
    ensures s.Becomes(p, s.At(p).(net := Present(file)), out)
  {
    out := s.(net := s.net[p := file]);
  }

  method DropTombstone(s: Flight, p: Path) returns (out: Flight)
    requires s.Counted()
    ensures s.Becomes(p, s.At(p).(tomb := Never), out)
  {
    out := s.(newTombstones := s.newTombstones - {p});
  }

  method CountPulled(s: Flight, p: Path, mtime: int) returns (out: Flight)
    requires s.Counted() && p !in s.pulledAt
    ensures s.Becomes(p, s.At(p).(next := Once(mtime), pulled := true), out)
  {
    out := s.(newState := s.newState[p := mtime], pulled := s.pulled + 1, pulledAt := s.pulledAt + {p});
  }

  method CountPushed(s: Flight, p: Path, mtime: int) returns (out: Flight)
    requires s.Counted() && p !in s.pushedAt
    ensures s.Becomes(p, s.At(p).(next := Once(mtime), pushed := true), out)
  {
    out := s.(newState := s.newState[p := mtime], pushed := s.pushed + 1, pushedAt := s.pushedAt + {p});
  }

  // ---- one path in each phase ----
  //
  // The deletion loops collect the state entries to drop and drop them when they end; no loop
  // reads an entry it has collected, so here each entry is dropped at once.

  /** PULL A at one path of the state file. */
  method PullDeleteOne(r: Rule, f: Faults, p: Path, s: Flight) returns (out: Flight)
    requires p in s.state && s.Counted() && p !in s.deletedAt
    ensures s.Becomes(p, PullDelete(r, f, s.At(p)), out)
  {
    if r.reach.tracked && !(p in s.net && r.reach.netScan) {
      var near := p in s.local && Abs(s.local[p].mtime - s.state[p]) < r.tolerance;
      if f.statLocal || (near && f.removeLocal) {
        out := NoteError(s, p);
      } else if near {
        out := RemoveLocal(s, p);
      } else {
        out := s;
      }
      out := Forget(out, p);
    } else {
      out := s;
    }
  }

  /** PULL B at one listed path. */
  method PullOne(r: Rule, f: Faults, p: Path, s: Flight) returns (out: Flight)
    requires p in s.net && r.reach.netScan && s.Counted() && p !in s.pulledAt
    ensures s.Becomes(p, PullNew(r, f, s.At(p)), out)
  {
    var mtime := s.net[p].mtime;
    var needsPull := true;
    if p in s.local {
      needsPull := mtime > s.local[p].mtime + r.tolerance;
    } else if p in s.state {
      needsPull := mtime > s.state[p] + r.tolerance;
    }
    if f.statLocalAgain || (needsPull && f.copyDown) {
      out := NoteError(s, p);
    } else if !needsPull {
      out := s;
    } else {
      out := WriteLocal(s, p, File(r.down(s.net[p].content), mtime));
      if f.statCopied {
        out := NoteError(out, p);
      } else {
        out := CountPulled(out, p, mtime);
      }
    }
  }

  /** PUSH A at one path of the new state. */
  method PushDeleteOne(r: Rule, f: Faults, p: Path, s: Flight) returns (out: Flight)
    requires p in s.newState && s.Counted() && p !in s.deletedAt
    ensures s.Becomes(p, PushDelete(r, f, s.At(p)), out)
  {
    if r.reach.tracked && !(p in s.local && r.reach.localScan) {
      if f.statNet || (p in s.net && f.removeNet) {
        out := NoteError(s, p);
      } else if p in s.net {
        out := RemoveNetwork(s, p, r.now);
      } else {
        out := s;
      }
      out := Forget(out, p);
    } else {
      out := s;
    }
  }

  /** PUSH B at one listed path. */
  method PushOne(r: Rule, f: Faults, p: Path, s: Flight) returns (out: Flight)
    requires p in s.local && r.reach.localScan && s.Counted()
    requires p !in s.pushedAt && p !in s.deletedAt
    ensures s.Becomes(p, PushNew(r, f, s.At(p)), out)
  {
    var file := s.local[p];
    var needsPush := true;
    if p in s.net {
      needsPush := (p !in s.newState || file.mtime > s.newState[p] + r.tolerance) && file.mtime > s.net[p].mtime;
    }
    if f.statNetAgain {
      out := NoteError(s, p);
    } else if !needsPush {
      out := s;
    } else if p in s.newTombstones && file.mtime <= s.newTombstones[p] + r.tolerance {
      if f.removeZombie {
        out := NoteError(s, p);
      } else {
        out := RemoveLocal(s, p);
      }
    } else {
      out := DropTombstone(s, p);
      out := PushCopy(r, f, p, file, out);
    }
  }

  /** Copies a file up and, for a rewritten watermark, back down. */
  method PushCopy(r: Rule, f: Faults, p: Path, file: File, s: Flight) returns (out: Flight)
    requires s.Counted() && p !in s.pushedAt
    ensures s.Becomes(p, Pushing(r, f, file, s.At(p)), out)
  {
    if f.copyUp {
      out := NoteError(s, p);
    } else {
      var rewritten := File(r.up(file.content), file.mtime);
      out := WriteNetwork(s, p, rewritten);
      if f.writeBack {
        out := NoteError(out, p);
      } else {
        out := WriteLocal(out, p, rewritten);
        if f.statSource {
          out := NoteError(out, p);
        } else {
          out := CountPushed(out, p, file.mtime);
        }
      }
    }
  }

  // ---- the four loops ----

  /** What one phase does to each path. */
  type Phase = (Path, Work) -> Work

  function PullDeletePhase(rule: Path -> Rule, faults: Path -> Faults): Phase {
    (p, w) => PullDelete(rule(p), faults(p), w)
  }

  function PullPhase(rule: Path -> Rule, faults: Path -> Faults): Phase {
    (p, w) => PullNew(rule(p), faults(p), w)
  }

  function PushDeletePhase(rule: Path -> Rule, faults: Path -> Faults): Phase {
    (p, w) => PushDelete(rule(p), faults(p), w)
  }

  function PushPhase(rule: Path -> Rule, faults: Path -> Faults): Phase {
    (p, w) => PushNew(rule(p), faults(p), w)
  }

  /** The loop has dealt with exactly the paths in `done`. */
  ghost predicate Midway(phase: Phase, s: Flight, done: set<Path>, out: Flight) {
    out.Counted() && forall p :: out.At(p) == if p in done then phase(p, s.At(p)) else s.At(p)
  }

  lemma MidwayStep(phase: Phase, s: Flight, done: set<Path>, out: Flight, p: Path, out': Flight)
    requires Midway(phase, s, done, out) && p !in done
    requires out.Becomes(p, phase(p, out.At(p)), out')
    ensures Midway(phase, s, done + {p}, out')
  {
    assert out.At(p) == s.At(p);
    forall q
      ensures out'.At(q) == if q in done + {p} then phase(q, s.At(q)) else s.At(q)
    {
      assert q != p ==> out'.At(q) == out.At(q);
    }
  }

  lemma MidwayStart(phase: Phase, s: Flight)
    requires s.Counted()
    ensures Midway(phase, s, {}, s)
  {
  }

  lemma PullDeletionsDone(rule: Path -> Rule, faults: Path -> Faults, s: Flight, out: Flight)
    requires Midway(PullDeletePhase(rule, faults), s, s.state.Keys, out)
    ensures forall p :: out.At(p) == PullDelete(rule(p), faults(p), s.At(p))
  {
    forall p
      ensures out.At(p) == PullDelete(rule(p), faults(p), s.At(p))
    {
      assert p !in s.state.Keys ==> PullDelete(rule(p), faults(p), s.At(p)) == s.At(p);
    }
  }

  lemma PushDeletionsDone(rule: Path -> Rule, faults: Path -> Faults, s: Flight, out: Flight)
    requires Midway(PushDeletePhase(rule, faults), s, s.newState.Keys, out)
    ensures forall p :: out.At(p) == PushDelete(rule(p), faults(p), s.At(p))
  {
    forall p
      ensures out.At(p) == PushDelete(rule(p), faults(p), s.At(p))
    {
      assert p !in s.newState.Keys ==> PushDelete(rule(p), faults(p), s.At(p)) == s.At(p);
    }
  }

  /** One turn of the loop of PULL A. */
  method PullDeleteNext(rule: Path -> Rule, faults: Path -> Faults, ghost s: Flight, ghost done: set<Path>, p: Path,
                        now: Flight)
    returns (out: Flight)
    requires Midway(PullDeletePhase(rule, faults), s, done, now) && p in s.state && p !in done
    requires s.At(p).deleted ==> false
    ensures Midway(PullDeletePhase(rule, faults), s, done + {p}, out)
  {
    assert now.At(p) == s.At(p);
    out := PullDeleteOne(rule(p), faults(p), p, now);
    MidwayStep(PullDeletePhase(rule, faults), s, done, now, p, out);
  }

  /** PULL A. */
  method PullDeletions(rule: Path -> Rule, faults: Path -> Faults, s: Flight) returns (out: Flight)
    requires s.Counted()
    requires forall p :: !s.At(p).deleted
    ensures out.Counted()
    ensures forall p :: out.At(p) == PullDelete(rule(p), faults(p), s.At(p))
  {
    out := s;
    ghost var phase := PullDeletePhase(rule, faults);
    var keys := s.state.Keys;
    var todo := keys;
    ghost var done := {};
    MidwayStart(phase, s);
    while todo != {}
      invariant todo <= keys && done == keys - todo
      invariant Midway(phase, s, done, out)
    {
      var p :| p in todo;
      out := PullDeleteNext(rule, faults, s, done, p, out);
      todo, done := todo - {p}, done + {p};
    }
    assert done == keys;
    PullDeletionsDone(rule, faults, s, out);
  }

  /** PULL B, over the paths the network scan listed. Gives up where cancellation is noticed. */
  method PullAdditions(rule: Path -> Rule, faults: Path -> Faults, cancel: set<Path>, s: Flight)
    returns (out: Flight, cancelled: bool)
    requires s.Counted() && forall p :: !s.At(p).pulled
    ensures out.Counted() && (cancel == {} ==> !cancelled)
    ensures forall p :: out.At(p) == PullNew(rule(p), faults(p), s.At(p)) || (cancelled && out.At(p) == s.At(p))
  {
    out, cancelled := s, false;
    ghost var phase := PullPhase(rule, faults);
    var networkFiles := set p | p in s.net && rule(p).reach.netScan;
    var todo := networkFiles;
    while todo != {} && !cancelled
      invariant todo <= networkFiles && Midway(phase, s, networkFiles - todo, out)
      invariant cancelled ==> cancel != {}
      decreases todo, !cancelled
    {
      var p :| p in todo;
      if p in cancel {
        cancelled := true;
      } else {
        assert out.At(p) == s.At(p);
        assert p in out.net && p !in out.pulledAt;
        var before := out;
        out := PullOne(rule(p), faults(p), p, out);
        MidwayStep(phase, s, networkFiles - todo, before, p, out);
        assert networkFiles - todo + {p} == networkFiles - (todo - {p});
        todo := todo - {p};
      }
    }
    forall p
      ensures out.At(p) == PullNew(rule(p), faults(p), s.At(p)) || (cancelled && out.At(p) == s.At(p))
    {
      assert out.At(p) == if p in networkFiles - todo then phase(p, s.At(p)) else s.At(p);
    }
  }

  /** One turn of the loop of PUSH A. */
  method PushDeleteNext(rule: Path -> Rule, faults: Path -> Faults, ghost s: Flight, ghost done: set<Path>, p: Path,
                        now: Flight)
    returns (out: Flight)
    requires Midway(PushDeletePhase(rule, faults), s, done, now) && p in s.newState && p !in done
    requires s.At(p).deleted ==> s.At(p).next.Never?
    ensures Midway(PushDeletePhase(rule, faults), s, done + {p}, out)
  {
    assert now.At(p) == s.At(p);
    out := PushDeleteOne(rule(p), faults(p), p, now);
    MidwayStep(PushDeletePhase(rule, faults), s, done, now, p, out);
  }

  /** PUSH A, over the new state. */
  method PushDeletions(rule: Path -> Rule, faults: Path -> Faults, s: Flight) returns (out: Flight)
    requires s.Counted()
    requires forall p :: s.At(p).deleted ==> s.At(p).next.Never?
    ensures out.Counted()
    ensures forall p :: out.At(p) == PushDelete(rule(p), faults(p), s.At(p))
  {
    out := s;
    ghost var phase := PushDeletePhase(rule, faults);
    var keys := s.newState.Keys;
    var todo := keys;
    ghost var done := {};
    MidwayStart(phase, s);
    while todo != {}
      invariant todo <= keys && done == keys - todo
      invariant Midway(phase, s, done, out)
    {
      var p :| p in todo;
      out := PushDeleteNext(rule, faults, s, done, p, out);
      todo, done := todo - {p}, done + {p};
    }
    assert done == keys;
    PushDeletionsDone(rule, faults, s, out);
  }

  /** PUSH B, over the paths the local scan listed. Gives up where cancellation is noticed. */
  method PushAdditions(rule: Path -> Rule, faults: Path -> Faults, cancel: set<Path>, s: Flight)
    returns (out: Flight, cancelled: bool)
    requires s.Counted() && forall p :: !s.At(p).pushed
    requires forall p :: s.At(p).deleted ==> !(s.At(p).local.Present? && rule(p).reach.localScan)
    ensures out.Counted() && (cancel == {} ==> !cancelled)
    ensures forall p :: out.At(p) == PushNew(rule(p), faults(p), s.At(p)) || (cancelled && out.At(p) == s.At(p))
  {
    out, cancelled := s, false;
    ghost var phase := PushPhase(rule, faults);
    var localFiles := set p | p in s.local && rule(p).reach.localScan;
    var todo := localFiles;
    while todo != {} && !cancelled
      invariant todo <= localFiles && Midway(phase, s, localFiles - todo, out)
      invariant cancelled ==> cancel != {}
      decreases todo, !cancelled
    {
      var p :| p in todo;
      if p in cancel {
        cancelled := true;
      } else {
        assert out.At(p) == s.At(p);
        assert p in out.local && p !in out.pushedAt && p !in out.deletedAt;
        var before := out;
        out := PushOne(rule(p), faults(p), p, out);
        MidwayStep(phase, s, localFiles - todo, before, p, out);
        assert localFiles - todo + {p} == localFiles - (todo - {p});
        todo := todo - {p};
      }
    }
    forall p
      ensures out.At(p) == PushNew(rule(p), faults(p), s.At(p)) || (cancelled && out.At(p) == s.At(p))
    {
      assert out.At(p) == if p in localFiles - todo then phase(p, s.At(p)) else s.At(p);
    }
  }

  lemma StartsAtBegin(disk: Replica, s: Flight)
    requires s == Flight(disk.local, disk.net, disk.state, disk.state, disk.tombstones, {}, 0, {}, 0, {}, 0, {})
    ensures forall p :: s.At(p) == Begin(disk.At(p))
  {
  }

  /** Both pull loops, starting from what is on disk. */
  method PullPass(rule: Path -> Rule, faults: Path -> Faults, cancel: set<Path>, disk: Replica)
    returns (s: Flight, cancelled: bool)
    ensures s.Counted() && (cancel == {} ==> !cancelled)
    ensures forall p :: s.At(p) == PullPhases(rule(p), faults(p), disk.At(p))
                     || (cancelled && s.At(p) == PullDelete(rule(p), faults(p), Begin(disk.At(p))))
  {
    var s0 := Flight(disk.local, disk.net, disk.state, disk.state, disk.tombstones, {}, 0, {}, 0, {}, 0, {});
    StartsAtBegin(disk, s0);
    var s1 := PullDeletions(rule, faults, s0);
    forall p
      ensures s1.At(p) == PullDelete(rule(p), faults(p), Begin(disk.At(p))) && !s1.At(p).pulled
    {
      assert s0.At(p) == Begin(disk.At(p));
    }
    s, cancelled := PullAdditions(rule, faults, cancel, s1);
    forall p
      ensures s.At(p) == PullPhases(rule(p), faults(p), disk.At(p)) || (cancelled && s.At(p) == s1.At(p))
    {
      assert s.At(p) == PullNew(rule(p), faults(p), s1.At(p)) || (cancelled && s.At(p) == s1.At(p));
    }
  }

  /** Both push loops, after an uninterrupted pull. */
  method PushPass(rule: Path -> Rule, faults: Path -> Faults, cancel: set<Path>, ghost disk: Replica, s0: Flight)
    returns (s: Flight, cancelled: bool)
    requires s0.Counted()
    requires forall p :: s0.At(p) == PullPhases(rule(p), faults(p), disk.At(p))
    ensures s.Counted() && (cancel == {} ==> !cancelled)
    ensures forall p :: s.At(p) == Cycle(rule(p), faults(p), disk.At(p))
                     || (cancelled &&
                         s.At(p) == PushDelete(rule(p), faults(p), PullPhases(rule(p), faults(p), disk.At(p))))
  {
    forall p
      ensures s0.At(p).deleted ==> s0.At(p).next.Never?
    {
      DeletedOnce(rule(p), faults(p), disk.At(p));
    }
    var s1 := PushDeletions(rule, faults, s0);
    forall p
      ensures s1.At(p) == PushDelete(rule(p), faults(p), PullPhases(rule(p), faults(p), disk.At(p)))
      ensures !s1.At(p).pushed && (s1.At(p).deleted ==> !(s1.At(p).local.Present? && rule(p).reach.localScan))
    {
      DeletedOnce(rule(p), faults(p), disk.At(p));
      NotYetPushed(rule(p), faults(p), disk.At(p));
    }
    s, cancelled := PushAdditions(rule, faults, cancel, s1);
    forall p
      ensures s.At(p) == Cycle(rule(p), faults(p), disk.At(p)) || (cancelled && s.At(p) == s1.At(p))
    {
      assert s.At(p) == PushNew(rule(p), faults(p), s1.At(p)) || (cancelled && s.At(p) == s1.At(p));
    }
  }

  // ---- a finished cycle ----

  /** The paths a fault-free cycle pulls, pushes and deletes. */
  ghost function Pulled(rule: Path -> Rule, disk: Replica): set<Path> {
    set p | p in disk.Paths() && Cycle(rule(p), NO_FAULTS, disk.At(p)).pulled
  }

  ghost function Pushed(rule: Path -> Rule, disk: Replica): set<Path> {
    set p | p in disk.Paths() && Cycle(rule(p), NO_FAULTS, disk.At(p)).pushed
  }

  ghost function Deleted(rule: Path -> Rule, disk: Replica): set<Path> {
    set p | p in disk.Paths() && Cycle(rule(p), NO_FAULTS, disk.At(p)).deleted
  }

  lemma FinishedCycle(tolerance: int, reach: Path -> Reach, env: Env, faults: Path -> Faults, disk: Replica, s: Flight)
    requires s.failedAt == {}
    requires forall p :: s.At(p) == Cycle(RuleAt(tolerance, reach, env, p), faults(p), disk.At(p))
    ensures Replica(s.local, s.net, s.newState, s.newTombstones) == CleanReplica(tolerance, reach, env, disk)
    ensures var rule := p => RuleAt(tolerance, reach, env, p);
            s.pulledAt == Pulled(rule, disk) && s.pushedAt == Pushed(rule, disk) && s.deletedAt == Deleted(rule, disk)
  {
    var rule := p => RuleAt(tolerance, reach, env, p);
    var after := Replica(s.local, s.net, s.newState, s.newTombstones);
    var clean := CleanReplica(tolerance, reach, env, disk);
    forall p
      ensures s.At(p) == Cycle(rule(p), NO_FAULTS, disk.At(p))
      ensures after.At(p) == clean.At(p)
    {
      assert !s.At(p).failed;
      NoFailureMeansClean(rule(p), faults(p), disk.At(p));
      CleanReplicaAt(tolerance, reach, env, disk, p);
    }
    SameReplica(after, clean);
    Tallies(rule, disk, s);
  }

  lemma Tallies(rule: Path -> Rule, disk: Replica, s: Flight)
    requires forall p :: s.At(p) == Cycle(rule(p), NO_FAULTS, disk.At(p))
    ensures s.pulledAt == Pulled(rule, disk) && s.pushedAt == Pushed(rule, disk) && s.deletedAt == Deleted(rule, disk)
  {
    forall p
      ensures p in s.pulledAt <==> p in Pulled(rule, disk)
      ensures p in s.pushedAt <==> p in Pushed(rule, disk)
      ensures p in s.deletedAt <==> p in Deleted(rule, disk)
    {
      assert s.At(p) == Cycle(rule(p), NO_FAULTS, disk.At(p));
      if p !in disk.Paths() {
        NothingFromNothing(rule(p), disk, p);
      }
    }
  }

  lemma NothingFromNothing(r: Rule, disk: Replica, p: Path)
    requires p !in disk.Paths()
    ensures var w := Cycle(r, NO_FAULTS, disk.At(p));
            !w.pulled && !w.pushed && !w.deleted
  {
  }

  lemma NothingFails(rule: Path -> Rule, faults: Path -> Faults, disk: Replica, s: Flight)
    requires forall p :: faults(p) == NO_FAULTS
    requires forall p :: s.At(p) == Cycle(rule(p), faults(p), disk.At(p))
    ensures s.failedAt == {}
  {
    forall p
      ensures p !in s.failedAt
    {
      CleanNeverFails(rule(p), disk.At(p));
      assert !s.At(p).failed;
    }
  }

  // ---- what the counters mean ----

  /** The paths a cycle changes on each side, read off the trees alone. */
  function Risen(before: map<Path, File>, after: map<Path, File>): set<Path> {
    set p | p in after && (p !in before || after[p].mtime > before[p].mtime)
  }

  function Gone(before: map<Path, File>, after: map<Path, File>): set<Path> {
    set p | p in before && p !in after
  }

  lemma ChangesAt(r: Rule, disk: Replica, after: Replica, p: Path)
    requires r.tolerance > 0 && Nested(r.reach) && TombSound(r.tolerance, disk.At(p))
        && after.At(p) == Clean(r, disk.At(p))
    ensures var w := Cycle(r, NO_FAULTS, disk.At(p));
            && (w.pulled <==> p in Risen(disk.local, after.local))
            && (w.pushed <==> p in Risen(disk.net, after.net))
            && (w.deleted <==> p in Gone(disk.local, after.local) + Gone(disk.net, after.net))
  {
    CountersShow(r, disk.At(p));
  }

  /** The tombstone rule at every path; every run of any number of machines keeps it. */
  ghost predicate AllTombSound(tolerance: int, disk: Replica) {
    forall p :: TombSound(tolerance, disk.At(p))
  }

  lemma SummaryAt(rule: Path -> Rule, disk: Replica, after: Replica, p: Path)
    requires rule(p).tolerance > 0 && Nested(rule(p).reach) && TombSound(rule(p).tolerance, disk.At(p))
    requires after.At(p) == Clean(rule(p), disk.At(p))
    ensures p in Pulled(rule, disk) <==> p in Risen(disk.local, after.local)
    ensures p in Pushed(rule, disk) <==> p in Risen(disk.net, after.net)
    ensures p in Deleted(rule, disk) <==> p in Gone(disk.local, after.local) + Gone(disk.net, after.net)
  {
    ChangesAt(rule(p), disk, after, p);
    if p !in disk.Paths() {
      NothingFromNothing(rule(p), disk, p);
    }
  }

  /** What a cycle reports as pulled, pushed and deleted is exactly what appeared or got newer here,
      appeared or got newer on the network, and vanished on either side. */
  lemma SummaryCountsChanges(rule: Path -> Rule, disk: Replica, after: Replica)
    requires forall p :: rule(p).tolerance > 0 && Nested(rule(p).reach) && TombSound(rule(p).tolerance, disk.At(p))
    requires forall p :: after.At(p) == Clean(rule(p), disk.At(p))
    ensures Pulled(rule, disk) == Risen(disk.local, after.local)
    ensures Pushed(rule, disk) == Risen(disk.net, after.net)
    ensures Deleted(rule, disk) == Gone(disk.local, after.local) + Gone(disk.net, after.net)
  {
    forall p
      ensures p in Pulled(rule, disk) <==> p in Risen(disk.local, after.local)
      ensures p in Pushed(rule, disk) <==> p in Risen(disk.net, after.net)
      ensures p in Deleted(rule, disk) <==> p in Gone(disk.local, after.local) + Gone(disk.net, after.net)
    {
      assert rule(p).tolerance > 0 && after.At(p) == Clean(rule(p), disk.At(p));
      SummaryAt(rule, disk, after, p);
    }
  }

  lemma CleanSummary(tolerance: int, reach: Path -> Reach, env: Env, disk: Replica)
    requires tolerance > 0 && (forall p :: Nested(reach(p))) && AllTombSound(tolerance, disk)
    ensures var rule := p => RuleAt(tolerance, reach, env, p);
            var after := CleanReplica(tolerance, reach, env, disk);
            && Pulled(rule, disk) == Risen(disk.local, after.local)
            && Pushed(rule, disk) == Risen(disk.net, after.net)
            && Deleted(rule, disk) == Gone(disk.local, after.local) + Gone(disk.net, after.net)
  {
    var rule := p => RuleAt(tolerance, reach, env, p);
    var after := CleanReplica(tolerance, reach, env, disk);
    forall p
      ensures rule(p).tolerance > 0 && Nested(rule(p).reach) && TombSound(rule(p).tolerance, disk.At(p))
      ensures after.At(p) == Clean(rule(p), disk.At(p))
    {
      assert Nested(reach(p)) && TombSound(tolerance, disk.At(p));
      CleanReplicaAt(tolerance, reach, env, disk, p);
    }
    SummaryCountsChanges(rule, disk, after);
  }

  // ---- the manager ----

  /** Everything a cycle may leave behind. Success means the fault-free cycle, with the old tombstones
      if the new ones could not be saved; anything else leaves both record files alone and every path
      as far along as the cut allows. */
  ghost predicate Outcome(tolerance: int, reach: Path -> Reach, env: Env, trouble: Trouble,
                          before: Replica, after: Replica, ok: bool) {
    if ok then
      var clean := CleanReplica(tolerance, reach, env, before);
      after == if trouble.saveTombstonesFails then clean.(tombstones := before.tombstones) else clean
    else
      && after.state == before.state && after.tombstones == before.tombstones
      && exists cut :: CutAt(cut, tolerance, reach, env, trouble.faults, before, after)
  }

  ghost predicate CutAt(cut: Cut, tolerance: int, reach: Path -> Reach, env: Env, faults: Path -> Faults,
                        before: Replica, after: Replica) {
    forall p :: Aborts(cut, RuleAt(tolerance, reach, env, p), faults(p), before.At(p), after.At(p))
  }

  lemma StoppedEarly(cut: Cut, tolerance: int, reach: Path -> Reach, env: Env, trouble: Trouble, disk: Replica,
                     s: Flight)
    requires cut == DuringPull || cut == DuringPush
    requires forall p :: var r, f, v := RuleAt(tolerance, reach, env, p), trouble.faults(p), disk.At(p);
                         if cut == DuringPull
                         then s.At(p) == PullDelete(r, f, Begin(v)) || s.At(p) == PullPhases(r, f, v)
                         else s.At(p) == PushDelete(r, f, PullPhases(r, f, v)) || s.At(p) == Cycle(r, f, v)
    ensures Outcome(tolerance, reach, env, trouble, disk, Replica(s.local, s.net, disk.state, disk.tombstones), false)
  {
    var after := Replica(s.local, s.net, disk.state, disk.tombstones);
    forall p
      ensures Aborts(cut, RuleAt(tolerance, reach, env, p), trouble.faults(p), disk.At(p), after.At(p))
    {
      assert after.At(p) == CutShort(disk.At(p), s.At(p));
    }
    assert CutAt(cut, tolerance, reach, env, trouble.faults, disk, after);
  }

  class PresetSyncManager {
    const tolerance: int
    const reach: Path -> Reach

    var local: map<Path, File>
    var net: map<Path, File>
    var state: map<Path, int>
    var tombstones: map<Path, int>

    constructor (tolerance: int, categories: set<string>, disk: Replica)
      ensures Valid()
      ensures this.tolerance == if tolerance <= 0 then DEFAULT_TOLERANCE else tolerance
      ensures (forall p :: reach(p) == ReachOf(categories, p)) && OnDisk() == disk
    {
      this.tolerance := if tolerance <= 0 then DEFAULT_TOLERANCE else tolerance;
      reach := p => ReachOf(categories, p);
      local, net, state, tombstones := disk.local, disk.net, disk.state, disk.tombstones;
    }

    ghost predicate Valid() {
      tolerance > 0 && forall p :: Nested(reach(p))
    }

    function OnDisk(): Replica
      reads this
    {
      Replica(local, net, state, tombstones)
    }

    /** One cycle. The counters of a successful one are the numbers of paths it pulled, pushed and
        deleted: those that got newer here, got newer on the network, and vanished. */
    method Sync(env: Env, trouble: Trouble) returns (summary: Summary, ok: bool)
      requires Valid()
      modifies this
      ensures Outcome(tolerance, reach, env, trouble, old(OnDisk()), OnDisk(), ok)
      ensures ok ==> var rule := p => RuleAt(tolerance, reach, env, p);
                     && summary.pulled == |Pulled(rule, old(OnDisk()))|
                     && summary.pushed == |Pushed(rule, old(OnDisk()))|
                     && summary.deleted == |Deleted(rule, old(OnDisk()))|
                     && summary.tracked == |state|
      ensures ok && AllTombSound(tolerance, old(OnDisk())) ==>
                && summary.pulled == |Risen(old(local), local)|
                && summary.pushed == |Risen(old(net), net)|
                && summary.deleted == |Gone(old(local), local) + Gone(old(net), net)|
      ensures NoTrouble(trouble) ==> ok
    {
      var rule := p => RuleAt(tolerance, reach, env, p);
      ghost var disk := OnDisk();
      summary, ok := Summary(0, 0, 0, 0), false;
      if trouble.scanNetworkFails {
        assert CutAt(BeforePull, tolerance, reach, env, trouble.faults, disk, disk);
        return;
      }
      var s, cancelled := PullPass(rule, trouble.faults, trouble.cancelPull, OnDisk());
      local, net := s.local, s.net;
      summary := Summary(s.pulled, s.pushed, s.deleted, 0);
      if cancelled || trouble.scanLocalFails {
        StoppedEarly(DuringPull, tolerance, reach, env, trouble, disk, s);
        return;
      }
      s, cancelled := PushPass(rule, trouble.faults, trouble.cancelPush, disk, s);
      local, net := s.local, s.net;
      summary := Summary(s.pulled, s.pushed, s.deleted, 0);
      if cancelled || s.failedAt != {} || trouble.saveStateFails {
        if NoTrouble(trouble) {
          NothingFails(rule, trouble.faults, disk, s);
        }
        StoppedEarly(DuringPush, tolerance, reach, env, trouble, disk, s);
        return;
      }
      FinishedCycle(tolerance, reach, env, trouble.faults, disk, s);
      if AllTombSound(tolerance, disk) {
        CleanSummary(tolerance, reach, env, disk);
      }
      state := s.newState;
      if !trouble.saveTombstonesFails {
        tombstones := s.newTombstones;
      }
      summary := summary.(tracked := |s.newState|);
      ok := true;
    }
  }
}
