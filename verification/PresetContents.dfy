/**
 Convergence of contents. Cycles compare file times, never contents, so equal contents need two things:
 files that are copied verbatim, as all but watermark templates are, and versions that lie further
 apart in time than the tolerance.
 */
module PresetContents {
  import opened PresetPaths
  import opened PresetRules
  import opened PresetFacts
  import opened PresetSync
  import opened PresetWorld
  import opened PresetConvergence

  /** Copying this path rewrites nothing. */
  ghost predicate Verbatim(env: Env, p: Path) {
    forall x :: env.down(p)(x) == x && env.up(p)(x) == x
  }

  predicate From(files: set<File>, c: Copy) {
    c.Present? ==> c.file in files
  }

  /** Every copy of the path is one of these files. */
  ghost predicate AllFrom(w: World, p: Path, files: set<File>) {
    From(files, CopyAt(w.net, p)) && forall i :: 0 <= i < |w.machines| ==> From(files, w.At(i, p).local)
  }

  /** Two different versions are further apart than the tolerance. */
  predicate Apart(tolerance: int, files: set<File>) {
    forall f, g :: f in files && g in files && Abs(f.mtime - g.mtime) <= tolerance ==> f == g
  }

  /** Edits of the path make one of these files, and cycles copy it verbatim. */
  ghost predicate Makes(s: Step, p: Path, files: set<File>) {
    && (s.Edit? && s.path == p ==> s.file in files)
    && (s.Sync? || s.SyncLosingTombstones? || s.Abort? ==> Verbatim(s.env, p))
  }

  predicate Holds(files: set<File>, w: Work) {
    From(files, w.local) && From(files, w.net)
  }

  lemma PullsCopy(files: set<File>, r: Rule, f: Faults, w: Work)
    requires Holds(files, w) && forall x :: r.down(x) == x
    ensures Holds(files, PullDelete(r, f, w)) && Holds(files, PullNew(r, f, w))
  {
    assert w.net.Present? ==> File(r.down(w.net.file.content), w.net.file.mtime) == w.net.file;
  }

  lemma PushesCopy(files: set<File>, r: Rule, f: Faults, w: Work)
    requires Holds(files, w) && forall x :: r.up(x) == x
    ensures Holds(files, PushDelete(r, f, w)) && Holds(files, PushNew(r, f, w))
  {
    assert w.local.Present? ==> File(r.up(w.local.file.content), w.local.file.mtime) == w.local.file;
  }

  lemma CycleCopies(files: set<File>, r: Rule, f: Faults, v: View)
    requires Holds(files, Begin(v)) && forall x :: r.down(x) == x && r.up(x) == x
    ensures Holds(files, PullDelete(r, f, Begin(v))) && Holds(files, PullPhases(r, f, v))
    ensures Holds(files, PushDelete(r, f, PullPhases(r, f, v))) && Holds(files, Cycle(r, f, v))
  {
    PullsCopy(files, r, f, Begin(v));
    PullsCopy(files, r, f, PullDelete(r, f, Begin(v)));
    PushesCopy(files, r, f, PullPhases(r, f, v));
    PushesCopy(files, r, f, PushDelete(r, f, PullPhases(r, f, v)));
  }

  lemma AbortCopies(files: set<File>, cut: Cut, r: Rule, f: Faults, v: View, v': View)
    requires Holds(files, Begin(v)) && (forall x :: r.down(x) == x && r.up(x) == x) && Aborts(cut, r, f, v, v')
    ensures Holds(files, Begin(v'))
  {
    CycleCopies(files, r, f, v);
  }

  lemma WithFrom(w: World, i: nat, disk: Replica, clock': int, p: Path, files: set<File>)
    requires i < |w.machines| && AllFrom(w, p, files) && Holds(files, Begin(disk.At(p)))
    ensures AllFrom(w.With(i, disk, clock'), p, files)
  {
    forall j | 0 <= j < |w.machines|
      ensures From(files, w.With(i, disk, clock').At(j, p).local)
    {
      OthersUnmoved(w, i, disk, clock', j, p);
      assert From(files, w.At(j, p).local);
    }
  }

  lemma StepCopies(c: Limits, w: World, s: Step, w': World, p: Path, files: set<File>)
    requires Next(c, w, s, w') && AllFrom(w, p, files) && Makes(s, p, files)
    ensures AllFrom(w', p, files)
  {
    match s
    case Edit(i, q, file) =>
      assert From(files, w.At(i, p).local);
      WithFrom(w, i, w.Disk(i).(local := w.machines[i].local[q := file]), w'.clock, p, files);
    case Erase(i, q) =>
      assert From(files, w.At(i, p).local);
      WithFrom(w, i, w.Disk(i).(local := w.machines[i].local - {q}), w'.clock, p, files);
    case EraseOnNetwork(q) =>
      assert forall j :: 0 <= j < |w.machines| ==> w'.At(j, p).local == w.At(j, p).local;
    case Wait =>
      assert forall j :: 0 <= j < |w.machines| ==> w'.At(j, p).local == w.At(j, p).local;
    case Select(i, reach) =>
      assert forall j :: 0 <= j < |w.machines| ==> w'.At(j, p).local == w.At(j, p).local;
    case LoseState(i) =>
      assert From(files, w.At(i, p).local);
      WithFrom(w, i, w.Disk(i).(state := map[]), w'.clock, p, files);
    case Sync(i, env) =>
      assert From(files, w.At(i, p).local);
      CleanReplicaAt(c.tolerance, w.machines[i].reach, env, w.Disk(i), p);
      CycleCopies(files, RuleIn(c, w, i, env, p), NO_FAULTS, w.At(i, p));
      WithFrom(w, i, AfterSync(c, w, i, env), w'.clock, p, files);
    case SyncLosingTombstones(i, env) =>
      assert From(files, w.At(i, p).local);
      CleanReplicaAt(c.tolerance, w.machines[i].reach, env, w.Disk(i), p);
      CycleCopies(files, RuleIn(c, w, i, env, p), NO_FAULTS, w.At(i, p));
      WithFrom(w, i, AfterSync(c, w, i, env).(tombstones := w.tombstones), w'.clock, p, files);
    case Abort(i, env, faults, cut) =>
      assert From(files, w.At(i, p).local);
      AbortCopies(files, cut, RuleIn(c, w, i, env, p), faults(p), w.At(i, p), w'.At(i, p));
      WithFrom(w, i, w'.Disk(i), w'.clock, p, files);
  }

  ghost predicate AllMake(steps: seq<Step>, n: nat, p: Path, files: set<File>) {
    forall k :: 0 <= k < n && k < |steps| ==> Makes(steps[k], p, files)
  }

  /** Whatever fails, every copy of a verbatim path is a file somebody made. */
  lemma {:induction false} CopiesAreOriginals(c: Limits, ws: seq<World>, steps: seq<Step>, k: nat, p: Path,
                                              files: set<File>)
    requires IsRun(c, ws, steps) && k <= |steps| && AllFrom(ws[0], p, files) && AllMake(steps, k, p, files)
    ensures AllFrom(ws[k], p, files)
  {
    if k > 0 {
      CopiesAreOriginals(c, ws, steps, k - 1, p, files);
      assert Next(c, ws[k - 1], steps[k - 1], ws[k]) && Makes(steps[k - 1], p, files);
      StepCopies(c, ws[k - 1], steps[k - 1], ws[k], p, files);
    }
  }

  ghost predicate AllVerbatim(turns: seq<Turn>, p: Path) {
    forall k :: 0 <= k < |turns| ==> Verbatim(turns[k].env, p)
  }

  lemma {:induction false} RoundCopies(c: Limits, w: World, turns: seq<Turn>, p: Path, files: set<File>)
    requires Fits(w.clock, |w.machines|, turns) && AllVerbatim(turns, p) && AllFrom(w, p, files)
    ensures AllFrom(Round(c, w, turns), p, files)
    decreases |turns|
  {
    if turns != [] {
      var turn := turns[0];
      assert Verbatim(turn.env, p);
      StepCopies(c, w, Step.Sync(turn.machine, turn.env), Take(c, w, turn), p, files);
      assert forall k :: 0 <= k < |turns[1..]| ==> turns[1..][k] == turns[k + 1];
      RoundCopies(c, Take(c, w, turn), turns[1..], p, files);
    }
  }

  /** After any run without failures, and two cycles of every machine, both copies of a verbatim path are
      the same file, contents and all, if its versions lie further apart than the tolerance. */
  lemma ContentsConverge(c: Limits, ws: seq<World>, steps: seq<Step>, k: nat, first: seq<Turn>, second: seq<Turn>,
                         p: Path, files: set<File>, i: nat)
    requires IsRun(c, ws, steps) && k <= |steps| && c.skew == 0 && AllOrderly(steps, 0, k)
    requires Common(ws[k], p) && i < |ws[k].machines| && Shared(ws[k].machines[i].reach(p))
    requires Fits(ws[k].clock, |ws[k].machines|, first) && Covers(ws[k], Takers(first)) && AllVerbatim(first, p)
    requires var w1 := Round(c, ws[k], first); Fits(w1.clock, |w1.machines|, second) && Covers(w1, Takers(second))
    requires AllVerbatim(second, p)
    requires AllFrom(ws[0], p, files) && AllMake(steps, k, p, files) && Apart(c.tolerance, files)
    ensures var w2 := Round(c, Round(c, ws[k], first), second);
            w2.At(i, p).local == w2.At(i, p).net
  {
    var w1 := Round(c, ws[k], first);
    var w2 := Round(c, w1, second);
    ConvergenceAfterRun(c, ws, steps, k, first, second, [], p, i);
    CopiesAreOriginals(c, ws, steps, k, p, files);
    RoundCopies(c, ws[k], first, p, files);
    RoundCopies(c, w1, second, p, files);
    RoundKeepsReach(c, ws[k], first, i);
    RoundKeepsReach(c, w1, second, i);
    assert From(files, w2.At(i, p).local);
  }

  lemma {:induction false} RoundKeepsReach(c: Limits, w: World, turns: seq<Turn>, i: nat)
    requires Fits(w.clock, |w.machines|, turns) && i < |w.machines|
    ensures Round(c, w, turns).machines[i].reach == w.machines[i].reach
    decreases |turns|
  {
    if turns != [] {
      RoundKeepsReach(c, Take(c, w, turns[0]), turns[1..], i);
    }
  }
}
