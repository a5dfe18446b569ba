/**
 Runs of three machines that show what a single failed cycle can do. A deletion is tombstoned; the
 file is made anew, deleted again, and the second deletion is lost because its cycle gives up. A copy
 as old as the first deletion then returns to the network, and a machine that remembers the newer
 version keeps its own copy beside it.
 */
module PresetMishaps {
  import opened Text
  import opened PresetPaths
  import opened PresetRules
  import opened PresetFacts
  import opened PresetSync
  import opened PresetWorld

  function EnvAt(time: int): Env {
    Env(p => time, p => c => c, p => c => c)
  }

  /** One path that all three machines sync, the three files that are made at it, and the time of its
      first deletion: `stray` is as old as that deletion, `late` was made after it. */
  datatype Tale = Tale(c: Limits, reach: Path -> Reach, p: Path, early: File, late: File, stray: File, t: int)
  {
    predicate Fits() {
      && c.tolerance > 0 && c.skew == 0 && Shared(reach(p))
      && early.mtime <= t && stray.mtime <= t && t + c.tolerance < late.mtime
    }

    function Rule(time: int): Rule {
      RuleAt(c.tolerance, reach, EnvAt(time), p)
    }
  }

  /** A tale with everything spelled out. */
  function Example(): Tale {
    Tale(Limits(10, 0), p => ReachOf({"presets"}, p), Path("presets" + "/" + "a" + "." + "xmp"),
         File("first", 20), File("new", 100), File("old", 1), 30)
  }

  lemma ExampleFits()
    ensures Example().Fits()
  {
    LowerOfLower("presets");
    LowerOfLower("xmp");
    PresetOfCategory("presets", "a", "xmp");
  }

  lemma LowerOfLower(s: string)
    requires forall c :: c in s ==> !('A' <= c <= 'Z')
    ensures Lower(s) == s
  {
    forall k | 0 <= k < |s|
      ensures Lower(s)[k] == s[k]
    {
      assert s[k] in s;
    }
  }

  // ---- the kinds of steps ----

  /** A name for `Next`, to speak of runs without looking into their steps. */
  type Link = (World, Step, World) -> bool

  ghost predicate Names(next: Link, c: Limits) {
    forall w, s, w' {:trigger Next(c, w, s, w')} :: Next(c, w, s, w') ==> next(w, s, w')
  }

  const NOTHING := View(Missing, Missing, Never, Never)

  lemma NothingStays(r: Rule)
    ensures Clean(r, NOTHING) == NOTHING
    ensures CutShort(NOTHING, PushDelete(r, NO_FAULTS, PullPhases(r, NO_FAULTS, NOTHING))) == NOTHING
  {
  }

  /** Three machines, and nothing anywhere but the one path. */
  ghost predicate Three(a: Tale, w: World, clock: int) {
    && |w.machines| == 3 && w.clock == clock && (forall i :: 0 <= i < 3 ==> w.machines[i].reach == a.reach)
    && forall i, q :: 0 <= i < 3 && q != a.p ==> w.At(i, q) == NOTHING
  }

  lemma OthersAtRest(a: Tale, w: World, i: nat, disk: Replica)
    requires Three(a, w, w.clock) && i < 3
    requires forall q :: q != a.p ==> disk.At(q) == w.At(i, q)
    ensures forall q :: q != a.p ==> disk.At(q) == NOTHING
  {
  }

  lemma StillThree(a: Tale, w: World, i: nat, disk: Replica, time: int)
    requires Three(a, w, w.clock) && i < 3 && forall q :: q != a.p ==> disk.At(q) == NOTHING
    ensures Three(a, w.With(i, disk, time), time)
  {
    forall j, q | 0 <= j < 3 && q != a.p
      ensures w.With(i, disk, time).At(j, q) == NOTHING
    {
      OthersUnmoved(w, i, disk, time, j, q);
      assert w.At(j, q) == NOTHING && disk.At(q) == NOTHING;
    }
  }

  /** Machine `i` now sees `v`; the others see the same network as it, and what they had. */
  ghost predicate Now(a: Tale, w: World, i: nat, v: View, w': World) {
    && |w.machines| == |w'.machines| == 3 && i < 3 && w'.At(i, a.p) == v
    && forall j :: 0 <= j < 3 && j != i ==> w'.At(j, a.p) == w.At(j, a.p).(net := v.net, tomb := v.tomb)
  }

  lemma Synced(a: Tale, next: Link, w: World, i: nat, time: int) returns (w': World)
    requires Names(next, a.c)
    requires Three(a, w, w.clock) && i < 3 && w.clock <= time
    ensures next(w, Step.Sync(i, EnvAt(time)), w') && Three(a, w', time)
    ensures Now(a, w, i, Clean(a.Rule(time), w.At(i, a.p)), w')
  {
    w' := w.With(i, AfterSync(a.c, w, i, EnvAt(time)), time);
    forall j | 0 <= j < 3
      ensures w'.At(j, a.p) == var v' := Clean(a.Rule(time), w.At(i, a.p));
                               if j == i then v' else w.At(j, a.p).(net := v'.net, tomb := v'.tomb)
    {
      SyncAt(a.c, w, i, EnvAt(time), time, j, a.p);
    }
    forall j, q | 0 <= j < 3 && q != a.p
      ensures w'.At(j, q) == NOTHING
    {
      SyncAt(a.c, w, i, EnvAt(time), time, j, q);
      NothingStays(RuleIn(a.c, w, i, EnvAt(time), q));
    }
    assert Next(a.c, w, Step.Sync(i, EnvAt(time)), w');
  }

  lemma Edited(a: Tale, next: Link, w: World, i: nat, file: File) returns (w': World)
    requires Names(next, a.c)
    requires Three(a, w, w.clock) && i < 3 && w.clock <= file.mtime && a.c.skew == 0
    ensures next(w, Edit(i, a.p, file), w') && Three(a, w', file.mtime)
    ensures Now(a, w, i, w.At(i, a.p).(local := Present(file)), w')
  {
    var disk := w.Disk(i).(local := w.machines[i].local[a.p := file]);
    w' := w.With(i, disk, file.mtime);
    OthersAtRest(a, w, i, disk);
    StillThree(a, w, i, disk, file.mtime);
    assert Next(a.c, w, Edit(i, a.p, file), w');
  }

  lemma Erased(a: Tale, next: Link, w: World, i: nat) returns (w': World)
    requires Names(next, a.c)
    requires Three(a, w, w.clock) && i < 3
    ensures next(w, Erase(i, a.p), w') && Three(a, w', w.clock)
    ensures Now(a, w, i, w.At(i, a.p).(local := Missing), w')
  {
    var disk := w.Disk(i).(local := w.machines[i].local - {a.p});
    w' := w.With(i, disk, w.clock);
    OthersAtRest(a, w, i, disk);
    StillThree(a, w, i, disk, w.clock);
    assert Next(a.c, w, Erase(i, a.p), w');
  }

  /** A cycle of machine `i` removes the path from the network and gives up. */
  lemma GivenUp(a: Tale, next: Link, w: World, i: nat, file: File) returns (w': World)
    requires Names(next, a.c)
    requires a.c.tolerance > 0 && Three(a, w, w.clock) && i < 3 && Shared(a.reach(a.p))
    requires w.At(i, a.p).local == Missing && w.At(i, a.p).net == Present(file) && w.At(i, a.p).seen == Once(file.mtime)
    ensures next(w, Abort(i, EnvAt(w.clock), q => NO_FAULTS, DuringPush), w') && Three(a, w', w.clock)
    ensures Now(a, w, i, w.At(i, a.p).(net := Missing), w')
  {
    var disk := w.Disk(i).(net := w.net - {a.p});
    w' := w.With(i, disk, w.clock);
    OthersAtRest(a, w, i, disk);
    StillThree(a, w, i, disk, w.clock);
    var env := EnvAt(w.clock);
    forall q
      ensures Aborts(DuringPush, RuleIn(a.c, w, i, env, q), NO_FAULTS, w.At(i, q), w'.At(i, q))
    {
      if q == a.p {
        var r, v := RuleIn(a.c, w, i, env, a.p), w.At(i, a.p);
        assert PullPhases(r, NO_FAULTS, v) == Begin(v);
        assert w'.At(i, a.p) == CutShort(v, PushDelete(r, NO_FAULTS, PullPhases(r, NO_FAULTS, v)));
      } else {
        assert w'.At(i, q) == w.At(i, q) == NOTHING;
        NothingStays(RuleIn(a.c, w, i, env, q));
      }
    }
    assert Next(a.c, w, Abort(i, EnvAt(w.clock), q => NO_FAULTS, DuringPush), w');
  }

  function Both(file: File): View {
    View(Present(file), Present(file), Once(file.mtime), Never)
  }

  lemma CleanPulls(a: Tale, time: int, file: File)
    requires a.c.tolerance > 0 && Shared(a.reach(a.p))
    ensures Clean(a.Rule(time), View(Missing, Present(file), Never, Never)) == Both(file)
  {
  }

  lemma CleanKeepsBoth(a: Tale, time: int, mine: File, net: File)
    requires a.c.tolerance > 0 && Shared(a.reach(a.p)) && net.mtime <= mine.mtime
    ensures var v := View(Present(mine), Present(net), Once(mine.mtime), Never);
            Clean(a.Rule(time), v) == v
  {
  }

  /** Machine `i` puts its untracked file on the network, which has none and no younger tombstone. */
  lemma Pushes(a: Tale, next: Link, w: World, i: nat, file: File) returns (w': World)
    requires Names(next, a.c)
    requires a.c.tolerance > 0 && Three(a, w, w.clock) && i < 3 && Shared(a.reach(a.p))
    requires var v := w.At(i, a.p);
             v.local == Present(file) && v.net == Missing && v.seen == Never
             && (v.tomb.Once? ==> file.mtime > v.tomb.time + a.c.tolerance)
    ensures next(w, Step.Sync(i, EnvAt(w.clock)), w') && Three(a, w', w.clock) && Now(a, w, i, Both(file), w')
  {
    w' := Synced(a, next, w, i, w.clock);
  }

  /** Machine `i` pulls a file it does not know. */
  lemma Pulls(a: Tale, next: Link, w: World, i: nat, file: File) returns (w': World)
    requires Names(next, a.c)
    requires a.c.tolerance > 0 && Three(a, w, w.clock) && i < 3 && Shared(a.reach(a.p))
    requires w.At(i, a.p) == View(Missing, Present(file), Never, Never)
    ensures next(w, Step.Sync(i, EnvAt(w.clock)), w') && Three(a, w', w.clock) && Now(a, w, i, Both(file), w')
  {
    CleanPulls(a, w.clock, file);
    w' := Synced(a, next, w, i, w.clock);
  }

  /** Machine `i` removes from the network what was erased here. */
  lemma Deletes(a: Tale, next: Link, w: World, i: nat, file: File) returns (w': World)
    requires Names(next, a.c)
    requires a.c.tolerance > 0 && Three(a, w, w.clock) && i < 3 && Shared(a.reach(a.p))
    requires w.At(i, a.p) == View(Missing, Present(file), Once(file.mtime), Never)
    ensures next(w, Step.Sync(i, EnvAt(w.clock)), w') && Three(a, w', w.clock)
    ensures Now(a, w, i, View(Missing, Missing, Never, Once(w.clock)), w')
  {
    LocalDeletion(a.Rule(w.clock), w.At(i, a.p));
    w' := Synced(a, next, w, i, w.clock);
  }

  /** Machine `i` leaves a newer file of its own that it saw on the network before. */
  lemma KeepsBoth(a: Tale, next: Link, w: World, i: nat, mine: File, net: File) returns (w': World)
    requires Names(next, a.c)
    requires a.c.tolerance > 0 && Three(a, w, w.clock) && i < 3 && Shared(a.reach(a.p)) && net.mtime <= mine.mtime
    requires w.At(i, a.p) == View(Present(mine), Present(net), Once(mine.mtime), Never)
    ensures next(w, Step.Sync(i, EnvAt(w.clock)), w') && Three(a, w', w.clock)
    ensures Now(a, w, i, w.At(i, a.p), w')
  {
    CleanKeepsBoth(a, w.clock, mine, net);
    w' := Synced(a, next, w, i, w.clock);
  }

  // ---- the run ----

  lemma Start(a: Tale) returns (w: World)
    requires a.Fits()
    ensures Initial(a.c, w) && Three(a, w, a.t)
    ensures w.At(0, a.p) == View(Present(a.early), Missing, Never, Never)
    ensures w.At(1, a.p) == View(Missing, Missing, Never, Never)
    ensures w.At(2, a.p) == View(Present(a.stray), Missing, Never, Never)
  {
    w := World([Machine(a.reach, map[a.p := a.early], map[]), Machine(a.reach, map[], map[]),
                Machine(a.reach, map[a.p := a.stray], map[])], map[], map[], a.t);
  }

  /** The first machine pushes a file and deletes it; the third has a copy it never synced. */
  lemma Tombstoned(a: Tale, next: Link, w0: World) returns (w1: World, w2: World, w3: World)
    requires Names(next, a.c)
    requires a.Fits() && Three(a, w0, a.t)
    requires w0.At(0, a.p) == View(Present(a.early), Missing, Never, Never)
    requires w0.At(1, a.p) == View(Missing, Missing, Never, Never)
    requires w0.At(2, a.p) == View(Present(a.stray), Missing, Never, Never)
    ensures next(w0, Step.Sync(0, EnvAt(a.t)), w1) && next(w1, Erase(0, a.p), w2)
    ensures next(w2, Step.Sync(0, EnvAt(a.t)), w3) && Three(a, w3, a.t)
    ensures w3.At(0, a.p) == w3.At(1, a.p) == View(Missing, Missing, Never, Once(a.t))
    ensures w3.At(2, a.p) == View(Present(a.stray), Missing, Never, Once(a.t))
  {
    w1 := Pushes(a, next, w0, 0, a.early);
    w2 := Erased(a, next, w1, 0);
    w3 := Deletes(a, next, w2, 0, a.early);
  }

  /** The first machine makes and pushes the file anew and the second pulls and erases it. */
  lemma MadeAnew(a: Tale, next: Link, w3: World) returns (w4: World, w5: World, w6: World, w7: World)
    requires Names(next, a.c)
    requires a.Fits() && Three(a, w3, a.t)
    requires w3.At(0, a.p) == w3.At(1, a.p) == View(Missing, Missing, Never, Once(a.t))
    requires w3.At(2, a.p) == View(Present(a.stray), Missing, Never, Once(a.t))
    ensures next(w3, Edit(0, a.p, a.late), w4) && next(w4, Step.Sync(0, EnvAt(a.late.mtime)), w5)
    ensures next(w5, Step.Sync(1, EnvAt(a.late.mtime)), w6) && next(w6, Erase(1, a.p), w7) && Three(a, w7, a.late.mtime)
    ensures w7.At(0, a.p) == Both(a.late) && w7.At(1, a.p) == Both(a.late).(local := Missing)
    ensures w7.At(2, a.p) == View(Present(a.stray), Present(a.late), Never, Never)
  {
    w4 := Edited(a, next, w3, 0, a.late);
    w5 := Pushes(a, next, w4, 0, a.late);
    w6 := Pulls(a, next, w5, 1, a.late);
    w7 := Erased(a, next, w6, 1);
  }

  /** The second machine's cycle removes the file from the network and gives up. The third then puts
      its old copy there, and the first keeps the newer one. */
  lemma Returned(a: Tale, next: Link, w7: World) returns (w8: World, w9: World, w10: World)
    requires Names(next, a.c)
    requires a.Fits() && Three(a, w7, a.late.mtime)
    requires w7.At(0, a.p) == Both(a.late) && w7.At(1, a.p) == Both(a.late).(local := Missing)
    requires w7.At(2, a.p) == View(Present(a.stray), Present(a.late), Never, Never)
    ensures next(w7, Abort(1, EnvAt(a.late.mtime), q => NO_FAULTS, DuringPush), w8)
        && next(w8, Step.Sync(2, EnvAt(a.late.mtime)), w9)
    ensures next(w9, Step.Sync(0, EnvAt(a.late.mtime)), w10) && Three(a, w8, a.late.mtime) && Three(a, w9, a.late.mtime)
    ensures |w10.machines| == 3 && w8.At(0, a.p) == View(Present(a.late), Missing, Once(a.late.mtime), Never)
    ensures w9.At(0, a.p) == w10.At(0, a.p) == View(Present(a.late), Present(a.stray), Once(a.late.mtime), Never)
  {
    w8 := GivenUp(a, next, w7, 1, a.late);
    w9 := Pushes(a, next, w8, 2, a.stray);
    w10 := KeepsBoth(a, next, w9, 0, a.late, a.stray);
  }

  /** Consecutive worlds of a run, with the steps between them. */
  ghost predicate Linked(next: Link, ws: seq<World>, steps: seq<Step>) {
    |ws| == |steps| + 1 && forall k :: 0 <= k < |steps| ==> next(ws[k], steps[k], ws[k + 1])
  }

  lemma Chained(next: Link, w0: World, w1: World, w2: World, w3: World, w4: World, w5: World, w6: World, w7: World,
                w8: World, w9: World, w10: World, s0: Step, s1: Step, s2: Step, s3: Step, s4: Step, s5: Step,
                s6: Step, s7: Step, s8: Step,
                s9: Step) returns (ws: seq<World>, steps: seq<Step>)
    requires next(w0, s0, w1) && next(w1, s1, w2) && next(w2, s2, w3) && next(w3, s3, w4) && next(w4, s4, w5)
    requires next(w5, s5, w6) && next(w6, s6, w7) && next(w7, s7, w8) && next(w8, s8, w9) && next(w9, s9, w10)
    ensures ws == [w0, w1, w2, w3, w4, w5, w6, w7, w8, w9, w10] && steps == [s0, s1, s2, s3, s4, s5, s6, s7, s8, s9]
    ensures Linked(next, ws, steps)
  {
    ws, steps := [w0, w1, w2, w3, w4, w5, w6, w7, w8, w9, w10], [s0, s1, s2, s3, s4, s5, s6, s7, s8, s9];
  }

  /** What the worlds of the run say of the path. */
  ghost predicate Tells(a: Tale, ws: seq<World>) {
    && |ws| == 11 && Initial(a.c, ws[0]) && Three(a, ws[3], a.t) && Three(a, ws[7], a.late.mtime)
       && Three(a, ws[8], a.late.mtime)
    && Three(a, ws[9], a.late.mtime) && |ws[10].machines| == 3
    && ws[3].At(0, a.p) == View(Missing, Missing, Never, Once(a.t))
    && ws[7].At(0, a.p) == Both(a.late)
    && ws[8].At(0, a.p) == View(Present(a.late), Missing, Once(a.late.mtime), Never)
    && ws[9].At(0, a.p) == ws[10].At(0, a.p) == View(Present(a.late), Present(a.stray), Once(a.late.mtime), Never)
  }

  function Steps(a: Tale): seq<Step> {
    var n := a.late.mtime;
    [Step.Sync(0, EnvAt(a.t)), Erase(0, a.p), Step.Sync(0, EnvAt(a.t)), Edit(0, a.p, a.late), Step.Sync(0, EnvAt(n)),
     Step.Sync(1, EnvAt(n)), Erase(1, a.p), Abort(1, EnvAt(n), q => NO_FAULTS, DuringPush), Step.Sync(2, EnvAt(n)),
     Step.Sync(0, EnvAt(n))]
  }

  lemma Told(a: Tale, next: Link) returns (ws: seq<World>, steps: seq<Step>)
    requires Names(next, a.c)
    requires a.Fits()
    ensures Linked(next, ws, steps) && steps == Steps(a) && Tells(a, ws)
  {
    var w0 := Start(a);
    var w1, w2, w3 := Tombstoned(a, next, w0);
    var w4, w5, w6, w7 := MadeAnew(a, next, w3);
    var w8, w9, w10 := Returned(a, next, w7);
    var n := a.late.mtime;
    ws, steps := Chained(next, w0, w1, w2, w3, w4, w5, w6, w7, w8, w9, w10,
      Step.Sync(0, EnvAt(a.t)), Erase(0, a.p), Step.Sync(0, EnvAt(a.t)), Edit(0, a.p, a.late), Step.Sync(0, EnvAt(n)),
      Step.Sync(1, EnvAt(n)), Erase(1, a.p), Abort(1, EnvAt(n), q => NO_FAULTS, DuringPush), Step.Sync(2, EnvAt(n)),
      Step.Sync(0, EnvAt(n)));
  }

  /** From a deletion tombstoned at `t` one failed cycle leads back to a copy as old as it, although
      every other step is orderly. */
  lemma OldCopyReturns(a: Tale) returns (ws: seq<World>, steps: seq<Step>)
    requires a.Fits()
    ensures IsRun(a.c, ws, steps) && |steps| == 10
    ensures a.p !in ws[3].net && a.p in ws[3].tombstones && ws[3].tombstones[a.p] == a.t
    ensures forall k :: 0 <= k < 10 && k != 7 ==> Orderly(steps[k])
    ensures steps[7].Abort? && Forgets(ws[7], ws[8], a.p, a.t)
    ensures a.p in ws[9].net && ws[9].net[a.p] == a.stray && !HoldsIn(a.c, ws[9], a.p, a.t)
    ensures steps[9].Sync? && steps[9].machine == 0 && |ws[9].machines| == |ws[10].machines| == 3
    ensures StaleNetwork(a.c.tolerance, ws[9].At(0, a.p)) && !MtimesAgree(a.c.tolerance, ws[10].At(0, a.p))
  {
    var next: Link := (w, s, w') => Next(a.c, w, s, w');
    ws, steps := Told(a, next);
  }
}
