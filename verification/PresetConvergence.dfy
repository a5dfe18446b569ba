/**
 When users stop editing, every machine that syncs twice agrees with the network, and then
 nothing moves any more. No order of the cycles is assumed, nor what happened before: earlier
 cycles may have failed, and records may be out of step with the files.
 */
module PresetConvergence {
  import opened PresetPaths
  import opened PresetRules
  import opened PresetFacts
  import opened PresetSync
  import opened PresetWorld

  /** One successful cycle in a period without edits. */
  datatype Turn = Turn(machine: nat, env: Env, clock: int)

  ghost predicate Fits(clock: int, machines: nat, turns: seq<Turn>)
    decreases |turns|
  {
    turns == [] ||
    (&& turns[0].machine < machines && clock <= turns[0].clock
     && TimesFit(turns[0].env, clock, turns[0].clock) && Fits(turns[0].clock, machines, turns[1..]))
  }

  function Take(c: Limits, w: World, turn: Turn): World
    requires turn.machine < |w.machines|
  {
    w.With(turn.machine, AfterSync(c, w, turn.machine, turn.env), turn.clock)
  }

  ghost function Round(c: Limits, w: World, turns: seq<Turn>): World
    requires Fits(w.clock, |w.machines|, turns)
    ensures |Round(c, w, turns).machines| == |w.machines|
    decreases |turns|
  {
    if turns == [] then w else Round(c, Take(c, w, turns[0]), turns[1..])
  }

  /** The machines that have a turn. */
  function Takers(turns: seq<Turn>): set<nat> {
    if turns == [] then {} else {turns[0].machine} + Takers(turns[1..])
  }

  ghost predicate Covers(w: World, who: set<nat>) {
    forall i :: 0 <= i < |w.machines| ==> i in who
  }

  /** Every machine either syncs the path, with both scans, or has not selected its category. */
  ghost predicate Common(w: World, p: Path) {
    forall i :: 0 <= i < |w.machines| ==>
      Shared(w.machines[i].reach(p)) || w.machines[i].reach(p) == Reach(false, false, false)
  }

  /** Whatever categories each machine has selected, the theorems below speak about exactly the paths
      that scans list and that are not `.json`, and those in no selected category. */
  lemma CommonIff(w: World, categories: nat -> set<string>, p: Path)
    requires forall i :: 0 <= i < |w.machines| ==> w.machines[i].reach(p) == ReachOf(categories(i), p)
    ensures Common(w, p) <==>
              || (Scannable(p) && Extension(p) != ".json")
              || forall i :: 0 <= i < |w.machines| ==> !TrackedCategory(categories(i), p)
  {
    if Common(w, p) && !(Scannable(p) && Extension(p) != ".json") {
      forall i | 0 <= i < |w.machines|
        ensures !TrackedCategory(categories(i), p)
      {
        assert w.machines[i].reach(p) == ReachOf(categories(i), p);
      }
    }
  }

  /** Deleted, and no machine has a copy young enough to bring it back. */
  ghost predicate Dead(c: Limits, w: World, p: Path) {
    && p !in w.net && p in w.tombstones
    && forall i :: 0 <= i < |w.machines| ==> NotYounger(c, w.At(i, p).local, w.tombstones[p])
  }

  predicate NotYounger(c: Limits, local: Copy, t: int) {
    local.Present? ==> local.file.mtime <= t + c.tolerance
  }

  /** This machine will not write the network, now or after the network gets newer. */
  predicate Quiet(c: Limits, v: View) {
    || (v.local.Missing? && v.seen.Never?)
    || (&& v.local.Present? && v.net.Present?
        && (v.local.file.mtime <= v.net.file.mtime
            || (v.seen.Once? && v.local.file.mtime <= v.seen.time + c.tolerance)))
  }

  /** A cycle of this machine finds nothing to do. */
  predicate AtRest(c: Limits, v: View) {
    KeysAgree(v) && Quiet(c, v) && (v.net.Present? ==> v.net.file.mtime <= v.local.file.mtime + c.tolerance)
  }

  ghost predicate Calm(c: Limits, w: World, p: Path, who: set<nat>) {
    || Dead(c, w, p)
    || forall i :: 0 <= i < |w.machines| && i in who && Shared(w.machines[i].reach(p)) ==> Quiet(c, w.At(i, p))
  }

  // ---- one path, one machine ----

  lemma CleanIsAtRest(c: Limits, r: Rule, v: View)
    requires Sensible(c) && r.tolerance == c.tolerance && Shared(r.reach) && TombSound(c.tolerance, v)
    ensures AtRest(c, Clean(r, v))
  {
    KeysAgreeIff(r, v);
  }

  lemma AtRestStays(c: Limits, r: Rule, v: View)
    requires Sensible(c) && r.tolerance == c.tolerance && Shared(r.reach) && AtRest(c, v)
    ensures Clean(r, v) == v
  {
    assert PullPhases(r, NO_FAULTS, v) == Begin(v);
    assert PushDelete(r, NO_FAULTS, Begin(v)) == Begin(v);
  }

  lemma QuietKeepsNet(c: Limits, r: Rule, v: View)
    requires Sensible(c) && r.tolerance == c.tolerance && Shared(r.reach) && Quiet(c, v)
    ensures Clean(r, v).net == v.net && Clean(r, v).tomb == v.tomb
  {
    assert PullPhases(r, NO_FAULTS, v).net == v.net;
  }

  lemma DeadKeepsNet(c: Limits, r: Rule, v: View)
    requires Sensible(c) && r.tolerance == c.tolerance && Shared(r.reach)
    requires v.net.Missing? && v.tomb.Once? && NotYounger(c, v.local, v.tomb.time)
    ensures Clean(r, v) == View(Missing, Missing, Never, v.tomb)
  {
    assert PullPhases(r, NO_FAULTS, v).net == Missing;
  }

  /** How a cycle of a shared path moves the network while nobody edits. */
  predicate Moves(v: View, v': View, now: int) {
    || (v'.net == v.net && v'.tomb == v.tomb)
    || (v'.net.Missing? && v'.tomb == Once(now))
    || (v'.net.Present? && (v.net.Present? ==> v'.net.file.mtime > v.net.file.mtime))
  }

  lemma CleanMoves(c: Limits, r: Rule, v: View)
    requires Sensible(c) && r.tolerance == c.tolerance && Shared(r.reach)
    ensures Moves(v, Clean(r, v), r.now)
    ensures Clean(r, v).net.Missing? && v.net.Present? ==> Clean(r, v).local.Missing?
  {
    NetworkChanges(r, v);
  }

  // ---- one path, one turn ----

  /** Machine by machine, what a turn does to a path. */
  lemma TakeAt(c: Limits, w: World, turn: Turn, j: nat, p: Path)
    requires turn.machine < |w.machines| && j < |w.machines|
    ensures var v' := Clean(RuleIn(c, w, turn.machine, turn.env, p), w.At(turn.machine, p));
            Take(c, w, turn).At(j, p) == if j == turn.machine then v' else w.At(j, p).(net := v'.net, tomb := v'.tomb)
  {
    SyncAt(c, w, turn.machine, turn.env, turn.clock, j, p);
  }

  ghost predicate Ready(c: Limits, w: World, turn: Turn, p: Path) {
    && Sensible(c) && SoundAt(c, w, p) && Common(w, p)
    && turn.machine < |w.machines| && w.clock <= turn.clock && TimesFit(turn.env, w.clock, turn.clock)
  }

  lemma TakeKeepsOrder(c: Limits, w: World, turn: Turn, p: Path)
    requires Ready(c, w, turn, p)
    ensures SoundAt(c, Take(c, w, turn), p) && Common(Take(c, w, turn), p)
  {
    StepSound(c, w, Step.Sync(turn.machine, turn.env), Take(c, w, turn), p);
  }

  /** A turn of a machine that has not selected the path leaves it alone everywhere. */
  lemma StrangerTakes(c: Limits, w: World, turn: Turn, j: nat, p: Path)
    requires turn.machine < |w.machines| && j < |w.machines|
    requires w.machines[turn.machine].reach(p) == Reach(false, false, false)
    ensures Take(c, w, turn).At(j, p) == w.At(j, p)
  {
    Untouched(RuleIn(c, w, turn.machine, turn.env, p), w.At(turn.machine, p));
    TakeAt(c, w, turn, j, p);
  }

  /** A turn makes its machine quiet for the path, and disturbs no other: the network only gets
      newer, unless the path dies. */
  lemma TakeCalm(c: Limits, w: World, turn: Turn, p: Path, who: set<nat>)
    requires Ready(c, w, turn, p) && Calm(c, w, p, who)
    ensures Calm(c, Take(c, w, turn), p, who + {turn.machine})
  {
    var i, w' := turn.machine, Take(c, w, turn);
    var r, v := RuleIn(c, w, i, turn.env, p), w.At(i, p);
    if !Shared(r.reach) {
      forall j | 0 <= j < |w.machines|
        ensures w'.At(j, p) == w.At(j, p)
      {
        StrangerTakes(c, w, turn, j, p);
      }
      assert w'.At(i, p) == v;
    } else {
      TakeAt(c, w, turn, i, p);
      if Dead(c, w, p) {
        assert NotYounger(c, v.local, w.tombstones[p]);
        DeadKeepsNet(c, r, v);
        DeadAfter(c, w, turn, p);
      } else {
        CleanMoves(c, r, v);
        if Clean(r, v).net.Missing? && Clean(r, v).tomb == Once(r.now) {
          DeadAfter(c, w, turn, p);
        } else {
          QuietAfter(c, w, turn, p, who);
        }
      }
    }
  }

  /** A path deleted during the turn, or dead before it, is dead afterwards. */
  lemma DeadAfter(c: Limits, w: World, turn: Turn, p: Path)
    requires Ready(c, w, turn, p) && Shared(w.machines[turn.machine].reach(p))
    requires Take(c, w, turn).At(turn.machine, p).net.Missing?
    requires Take(c, w, turn).At(turn.machine, p).tomb.Once?
    requires Dead(c, w, p) ==> Take(c, w, turn).At(turn.machine, p).tomb.time >= w.tombstones[p]
    requires !Dead(c, w, p) ==> Take(c, w, turn).At(turn.machine, p).tomb.time >= w.clock
    ensures Dead(c, Take(c, w, turn), p)
  {
    var i, w' := turn.machine, Take(c, w, turn);
    TakeAt(c, w, turn, i, p);
    CleanIsAtRest(c, RuleIn(c, w, i, turn.env, p), w.At(i, p));
    forall j | 0 <= j < |w'.machines|
      ensures NotYounger(c, w'.At(j, p).local, w'.tombstones[p])
    {
      TakeAt(c, w, turn, j, p);
      assert LocalSound(c, w.clock, w.At(j, p));
      assert Dead(c, w, p) ==> NotYounger(c, w.At(j, p).local, w.tombstones[p]);
    }
  }

  lemma QuietAfter(c: Limits, w: World, turn: Turn, p: Path, who: set<nat>)
    requires Ready(c, w, turn, p) && Shared(w.machines[turn.machine].reach(p))
    requires Calm(c, w, p, who) && !Dead(c, w, p)
    requires var v, v' := w.At(turn.machine, p), Take(c, w, turn).At(turn.machine, p);
             (v'.net == v.net && v'.tomb == v.tomb)
             || (v'.net.Present? && (v.net.Present? ==> v'.net.file.mtime > v.net.file.mtime))
    ensures Calm(c, Take(c, w, turn), p, who + {turn.machine})
  {
    var i, w' := turn.machine, Take(c, w, turn);
    forall j | 0 <= j < |w'.machines| && j in who + {i} && Shared(w'.machines[j].reach(p))
      ensures Quiet(c, w'.At(j, p))
    {
      TakeAt(c, w, turn, j, p);
      TakeAt(c, w, turn, i, p);
      if j == i {
        CleanIsAtRest(c, RuleIn(c, w, i, turn.env, p), w.At(i, p));
      } else {
        assert Quiet(c, w.At(j, p));
      }
    }
  }

  /** Once every machine is quiet a turn moves no shared record and no other machine's files, and
      leaves its own machine at rest. */
  lemma TakeSettled(c: Limits, w: World, turn: Turn, p: Path, who: set<nat>, j: nat)
    requires Ready(c, w, turn, p) && Covers(w, who) && Calm(c, w, p, who) && j < |w.machines|
    ensures var v, v' := w.At(j, p), Take(c, w, turn).At(j, p);
            && v'.net == v.net && v'.tomb == v.tomb
            && (j != turn.machine ==> v' == v)
            && (j == turn.machine && Shared(w.machines[j].reach(p)) ==> AtRest(c, v'))
            && (j == turn.machine && AtRest(c, v) ==> v' == v)
  {
    var i := turn.machine;
    var r, v := RuleIn(c, w, i, turn.env, p), w.At(i, p);
    if !Shared(r.reach) {
      StrangerTakes(c, w, turn, j, p);
    } else {
      TakeAt(c, w, turn, j, p);
      CleanIsAtRest(c, r, v);
      if Dead(c, w, p) {
        assert NotYounger(c, v.local, w.tombstones[p]);
        DeadKeepsNet(c, r, v);
      } else {
        assert Quiet(c, v);
        QuietKeepsNet(c, r, v);
      }
      if AtRest(c, v) {
        AtRestStays(c, r, v);
      }
    }
  }

  // ---- one path, whole rounds ----

  /** What holds in every reachable world; `bounded` adds what only orderly runs keep. */
  ghost predicate Steady(c: Limits, w: World, p: Path, bounded: bool) {
    Sensible(c) && SoundAt(c, w, p) && Common(w, p) && (bounded ==> c.skew == 0 && AllSeenBounded(w, p))
  }

  lemma TakeSteady(c: Limits, w: World, turn: Turn, p: Path, bounded: bool)
    requires Steady(c, w, p, bounded) && Ready(c, w, turn, p)
    ensures Steady(c, Take(c, w, turn), p, bounded)
  {
    TakeKeepsOrder(c, w, turn, p);
    if bounded {
      StepVersion(c, w, Step.Sync(turn.machine, turn.env), Take(c, w, turn), p);
    }
  }

  lemma {:induction false} RoundSteady(c: Limits, w: World, turns: seq<Turn>, p: Path, bounded: bool)
    requires Steady(c, w, p, bounded) && Fits(w.clock, |w.machines|, turns)
    ensures Steady(c, Round(c, w, turns), p, bounded)
    decreases |turns|
  {
    if turns != [] {
      TakeSteady(c, w, turns[0], p, bounded);
      RoundSteady(c, Take(c, w, turns[0]), turns[1..], p, bounded);
    }
  }

  lemma {:induction false} RoundCalm(c: Limits, w: World, turns: seq<Turn>, p: Path, who: set<nat>)
    requires Steady(c, w, p, false) && Fits(w.clock, |w.machines|, turns) && Calm(c, w, p, who)
    ensures Calm(c, Round(c, w, turns), p, who + Takers(turns))
    decreases |turns|
  {
    if turns == [] {
      assert who + Takers(turns) == who;
    } else {
      var w1, grown := Take(c, w, turns[0]), who + {turns[0].machine};
      assert grown + Takers(turns[1..]) == who + Takers(turns);
      assert Steady(c, w1, p, false) by {
        TakeSteady(c, w, turns[0], p, false);
      }
      assert Calm(c, w1, p, grown) by {
        TakeCalm(c, w, turns[0], p, who);
      }
      RoundCalm(c, w1, turns[1..], p, grown);
    }
  }

  /** At rest, and within the tolerance if the machine never remembered more than the version. */
  predicate Rested(c: Limits, bounded: bool, v: View) {
    AtRest(c, v) && (bounded ==> MtimesAgree(c.tolerance, v))
  }

  ghost predicate AllRested(c: Limits, w: World, p: Path, bounded: bool, rested: set<nat>) {
    forall i :: 0 <= i < |w.machines| && i in rested && Shared(w.machines[i].reach(p)) ==>
      Rested(c, bounded, w.At(i, p))
  }

  lemma TakeRests(c: Limits, w: World, turn: Turn, p: Path, who: set<nat>, bounded: bool, rested: set<nat>)
    requires Steady(c, w, p, bounded) && Ready(c, w, turn, p)
    requires Covers(w, who) && Calm(c, w, p, who) && AllRested(c, w, p, bounded, rested)
    ensures AllRested(c, Take(c, w, turn), p, bounded, rested + {turn.machine})
  {
    var i, w' := turn.machine, Take(c, w, turn);
    forall j | 0 <= j < |w'.machines| && j in rested + {i} && Shared(w'.machines[j].reach(p))
      ensures Rested(c, bounded, w'.At(j, p))
    {
      TakeSettled(c, w, turn, p, who, j);
      if j == i {
        TakeAt(c, w, turn, i, p);
        assert bounded ==> SeenBounded(w.At(i, p));
        MtimesAgreeIff(RuleIn(c, w, i, turn.env, p), w.At(i, p));
      }
    }
  }

  /** A round after every machine is quiet: the shared records stay, and those who take a turn rest. */
  lemma {:induction false} RoundSettled(c: Limits, w: World, turns: seq<Turn>, p: Path, who: set<nat>, bounded: bool,
                                        rested: set<nat>)
    requires Steady(c, w, p, bounded) && Fits(w.clock, |w.machines|, turns)
    requires Covers(w, who) && Calm(c, w, p, who) && AllRested(c, w, p, bounded, rested)
    ensures var w' := Round(c, w, turns);
            && CopyAt(w'.net, p) == CopyAt(w.net, p) && StampAt(w'.tombstones, p) == StampAt(w.tombstones, p)
            && Calm(c, w', p, who) && AllRested(c, w', p, bounded, rested + Takers(turns))
    decreases |turns|
  {
    if turns == [] {
      assert rested + {} == rested;
    } else {
      var turn, w1 := turns[0], Take(c, w, turns[0]);
      var i := turn.machine;
      TakeSteady(c, w, turn, p, bounded);
      TakeCalm(c, w, turn, p, who);
      assert who + {i} == who;
      TakeRests(c, w, turn, p, who, bounded, rested);
      TakeSettled(c, w, turn, p, who, i);
      RoundSettled(c, w1, turns[1..], p, who, bounded, rested + {i});
      assert rested + {i} + Takers(turns[1..]) == rested + Takers(turns);
    }
  }

  /** A turn when every machine is at rest changes nothing. */
  lemma TakeOfRested(c: Limits, w: World, turn: Turn, p: Path, who: set<nat>, j: nat)
    requires Ready(c, w, turn, p) && j < |w.machines|
    requires Covers(w, who) && Calm(c, w, p, who) && AllRested(c, w, p, false, who)
    ensures Take(c, w, turn).At(j, p) == w.At(j, p)
  {
    TakeSettled(c, w, turn, p, who, j);
    if j == turn.machine {
      if Shared(w.machines[j].reach(p)) {
        assert Rested(c, false, w.At(j, p));
      } else {
        StrangerTakes(c, w, turn, j, p);
      }
    }
  }

  lemma {:induction false} RoundOfRested(c: Limits, w: World, turns: seq<Turn>, p: Path, who: set<nat>, j: nat)
    requires Steady(c, w, p, false) && Fits(w.clock, |w.machines|, turns) && j < |w.machines|
    requires Covers(w, who) && Calm(c, w, p, who) && AllRested(c, w, p, false, who)
    ensures Round(c, w, turns).At(j, p) == w.At(j, p)
    decreases |turns|
  {
    if turns != [] {
      var turn, w1 := turns[0], Take(c, w, turns[0]);
      forall k | 0 <= k < |w.machines|
        ensures w1.At(k, p) == w.At(k, p)
      {
        TakeOfRested(c, w, turn, p, who, k);
      }
      TakeSteady(c, w, turn, p, false);
      TakeCalm(c, w, turn, p, who);
      assert who + {turn.machine} == who;
      RoundOfRested(c, w1, turns[1..], p, who, j);
    }
  }

  // ---- the theorems ----

  /** After every machine has synced once, no further cycle writes the network or the tombstones. */
  lemma NetworkSettles(c: Limits, w: World, first: seq<Turn>, more: seq<Turn>, p: Path)
    requires Steady(c, w, p, false) && Fits(w.clock, |w.machines|, first) && Covers(w, Takers(first))
    requires var w1 := Round(c, w, first); Fits(w1.clock, |w1.machines|, more)
    ensures var w1 := Round(c, w, first);
            var w2 := Round(c, w1, more);
            CopyAt(w2.net, p) == CopyAt(w1.net, p) && StampAt(w2.tombstones, p) == StampAt(w1.tombstones, p)
  {
    RoundSteady(c, w, first, p, false);
    RoundCalm(c, w, first, p, {});
    assert {} + Takers(first) == Takers(first);
    RoundSettled(c, Round(c, w, first), more, p, Takers(first), false, {});
  }

  lemma TwoRounds(c: Limits, w: World, first: seq<Turn>, second: seq<Turn>, p: Path, bounded: bool)
    requires Steady(c, w, p, bounded)
    requires Fits(w.clock, |w.machines|, first) && Covers(w, Takers(first))
    requires var w1 := Round(c, w, first); Fits(w1.clock, |w1.machines|, second) && Covers(w1, Takers(second))
    ensures var w2 := Round(c, Round(c, w, first), second);
            && Steady(c, w2, p, bounded) && Covers(w2, Takers(first)) && Covers(w2, Takers(second))
            && Calm(c, w2, p, Takers(first)) && AllRested(c, w2, p, bounded, Takers(second))
  {
    var w1 := Round(c, w, first);
    RoundSteady(c, w, first, p, bounded);
    RoundCalm(c, w, first, p, {});
    assert {} + Takers(first) == Takers(first);
    RoundSteady(c, w1, second, p, bounded);
    RoundSettled(c, w1, second, p, Takers(first), bounded, {});
    assert {} + Takers(second) == Takers(second);
  }

  /** After every machine has synced twice, each one that syncs the path agrees with the network
      about it, and no further cycle of any machine changes a file or a record of it. */
  lemma Convergence(c: Limits, w: World, first: seq<Turn>, second: seq<Turn>, more: seq<Turn>, p: Path, bounded: bool,
                    i: nat)
    requires Steady(c, w, p, bounded) && i < |w.machines|
    requires Fits(w.clock, |w.machines|, first) && Covers(w, Takers(first))
    requires var w1 := Round(c, w, first); Fits(w1.clock, |w1.machines|, second) && Covers(w1, Takers(second))
    requires var w2 := Round(c, Round(c, w, first), second); Fits(w2.clock, |w2.machines|, more)
    ensures var w2 := Round(c, Round(c, w, first), second);
            && (Shared(w2.machines[i].reach(p)) ==> KeysAgree(w2.At(i, p)))
            && (Shared(w2.machines[i].reach(p)) && bounded ==> MtimesAgree(c.tolerance, w2.At(i, p)))
            && Round(c, w2, more).At(i, p) == w2.At(i, p)
  {
    TwoRounds(c, w, first, second, p, bounded);
    var w2 := Round(c, Round(c, w, first), second);
    RoundOfRested(c, w2, more, p, Takers(first), i);
    assert Shared(w2.machines[i].reach(p)) ==> Rested(c, bounded, w2.At(i, p));
  }

  /** The same from any world of any run: edits, deletions and failed cycles may come first, then
      everyone syncs twice in any order. If the run was orderly the file times agree too. */
  lemma ConvergenceAfterRun(c: Limits, ws: seq<World>, steps: seq<Step>, k: nat,
                            first: seq<Turn>, second: seq<Turn>, more: seq<Turn>, p: Path, i: nat)
    requires IsRun(c, ws, steps) && k <= |steps| && Common(ws[k], p) && i < |ws[k].machines|
    requires Fits(ws[k].clock, |ws[k].machines|, first) && Covers(ws[k], Takers(first))
    requires var w1 := Round(c, ws[k], first); Fits(w1.clock, |w1.machines|, second) && Covers(w1, Takers(second))
    requires var w2 := Round(c, Round(c, ws[k], first), second); Fits(w2.clock, |w2.machines|, more)
    ensures var w2 := Round(c, Round(c, ws[k], first), second);
            && (Shared(w2.machines[i].reach(p)) ==> KeysAgree(w2.At(i, p)))
            && (Shared(w2.machines[i].reach(p)) && c.skew == 0 && AllOrderly(steps, 0, k) ==>
                  MtimesAgree(c.tolerance, w2.At(i, p)))
            && Round(c, w2, more).At(i, p) == w2.At(i, p)
  {
    SoundOverRuns(c, ws, steps, k, p);
    var bounded := c.skew == 0 && AllOrderly(steps, 0, k);
    if bounded {
      VersionOverRuns(c, ws, steps, k, k, p);
    }
    Convergence(c, ws[k], first, second, more, p, bounded, i);
  }
}
