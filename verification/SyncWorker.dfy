/**
 The single worker that runs sync jobs: a bounded queue, a pause flag, and a gate channel that
 a paused worker waits on. Callers and the worker interleave between any two atomic steps.
 */
module SyncWorker {
  import opened Text

  datatype Job = Job(name: string, runnable: bool)

  /** Where the worker goroutine stands. Between `Held` and `Running` other goroutines may act. */
  datatype Phase =
    | Idle
    | Held(job: Job)                // taken from the queue, pause flag not read yet
    | Waiting(job: Job, gate: nat)  // read "paused" and the gate of that moment
    | Cleared(job: Job)             // read "not paused", not started yet
    | Running(job: Job)
    | Stopped(left: seq<Job>)       // context cancelled; a job may be left unstarted

  /** Channels are numbered in the order they are made; `closed` are those already closed.
      `accepted` and `started` record every job in order. */
  datatype State = State(
    capacity: nat, paused: bool, shownPaused: bool, gate: nat, closed: set<nat>,
    queue: seq<Job>, phase: Phase, syncing: bool, accepted: seq<Job>, started: seq<Job>)

  datatype Action = Pause | Resume | Enqueue(job: Job) | Take | Check | Wake | Start | Finish | Cancel

  function New(queueSize: int): State {
    var capacity := if queueSize <= 0 then 16 else queueSize;
    State(capacity, false, false, 0, {0}, [], Idle, false, [], [])
  }

  predicate Accepts(s: State, job: Job) {
    job.runnable && job.name != "" && |s.queue| < s.capacity
  }

  /** Which steps can happen. A receive on a gate happens only once the gate is closed. */
  predicate Enabled(s: State, a: Action) {
    match a
    case Pause | Resume | Enqueue(_) => true
    case Take => s.phase.Idle? && s.queue != []
    case Check => s.phase.Held?
    case Wake => s.phase.Waiting? && s.phase.gate in s.closed
    case Start => s.phase.Cleared?
    case Finish => s.phase.Running?
    case Cancel => s.phase.Idle? || s.phase.Waiting?
  }

  function Apply(s: State, a: Action): State
    requires Enabled(s, a)
  {
    match a
    case Pause =>
      if s.paused then s else s.(paused := true, shownPaused := true, gate := s.gate + 1)
    case Resume =>
      if !s.paused then s else s.(paused := false, shownPaused := false, closed := s.closed + {s.gate})
    case Enqueue(job) =>
      if Accepts(s, job) then s.(queue := s.queue + [job], accepted := s.accepted + [job]) else s
    case Take => s.(queue := s.queue[1..], phase := Held(s.queue[0]))
    case Check => s.(phase := if s.paused then Waiting(s.phase.job, s.gate) else Cleared(s.phase.job))
    case Wake => s.(phase := Held(s.phase.job))
    case Start => s.(phase := Running(s.phase.job), syncing := true, started := s.started + [s.phase.job])
    case Finish => s.(phase := Idle, syncing := false)
    case Cancel => s.(phase := Stopped(if s.phase.Waiting? then [s.phase.job] else []))
  }

  ghost predicate IsRun(states: seq<State>, actions: seq<Action>) {
    && |states| == |actions| + 1
    && (exists size :: states[0] == New(size))
    && forall k :: 0 <= k < |actions| ==>
         Enabled(states[k], actions[k]) && states[k + 1] == Apply(states[k], actions[k])
  }

  /** The job taken but not started. */
  function InHand(phase: Phase): seq<Job> {
    match phase
    case Held(job) => [job]
    case Waiting(job, _) => [job]
    case Cleared(job) => [job]
    case Stopped(left) => left
    case _ => []
  }

  predicate Sound(s: State) {
    // The gate is open exactly while paused, so no channel is ever closed twice.
    && (s.gate !in s.closed <==> s.paused)
    && (forall g :: g in s.closed ==> g <= s.gate)
    && s.shownPaused == s.paused
    // A waiting worker waits on the current gate or on one that is already closed.
    && (s.phase.Waiting? ==> s.phase.gate in s.closed || (s.paused && s.phase.gate == s.gate))
    // Jobs are started in the order accepted, each once, none lost.
    && s.accepted == s.started + InHand(s.phase) + s.queue
    && (s.phase.Running? ==> s.started != [] && s.started[|s.started| - 1] == s.phase.job)
    && (s.syncing <==> s.phase.Running?)
    && |s.queue| <= s.capacity
  }

  lemma ApplySound(s: State, a: Action)
    requires Sound(s) && Enabled(s, a)
    ensures Sound(Apply(s, a))
  {
    if a.Take? {
      assert s.queue == [s.queue[0]] + s.queue[1..];
    }
  }

  lemma {:induction false} SoundOverRuns(states: seq<State>, actions: seq<Action>, k: nat)
    requires IsRun(states, actions) && k <= |actions|
    ensures Sound(states[k])
  {
    if k > 0 {
      SoundOverRuns(states, actions, k - 1);
      ApplySound(states[k - 1], actions[k - 1]);
    }
  }

  /** No lost wakeup: in every run, whenever the worker is not paused and not stopped and has a job,
      one of its own steps can happen. */
  lemma NeverStuck(states: seq<State>, actions: seq<Action>, k: nat)
    requires IsRun(states, actions) && k <= |actions|
    requires var s := states[k];
             !s.paused && !s.phase.Stopped? && (s.queue != [] || !s.phase.Idle?)
    ensures var s := states[k];
            Enabled(s, Take) || Enabled(s, Check) || Enabled(s, Wake) || Enabled(s, Start) || Enabled(s, Finish)
  {
    SoundOverRuns(states, actions, k);
  }

  /** The jobs started so far are always the first accepted ones, in order. */
  lemma StartedInOrder(states: seq<State>, actions: seq<Action>, k: nat)
    requires IsRun(states, actions) && k <= |actions|
    ensures states[k].started <= states[k].accepted
  {
    SoundOverRuns(states, actions, k);
    var s := states[k];
    assert s.accepted == s.started + (InHand(s.phase) + s.queue);
  }

  /** A job that may still start although the worker is paused: it was past the check already. */
  function Slipped(s: State): nat {
    if s.phase.Cleared? then 1 else 0
  }

  /** While paused, at most one job starts, and only the one that had passed the check before. */
  lemma {:induction false} AtMostOneSlips(states: seq<State>, actions: seq<Action>, a: nat, b: nat)
    requires IsRun(states, actions) && a <= b <= |actions| && states[a].paused
    requires forall k :: a <= k < b ==> actions[k] != Resume
    ensures states[b].paused
    ensures |states[b].started| + Slipped(states[b]) <= |states[a].started| + Slipped(states[a])
  {
    if a < b {
      AtMostOneSlips(states, actions, a, b - 1);
    }
  }

  /** Pausing pauses: from the pause on, until somebody resumes, the worker is paused, and no job starts but
      one that had passed the check by then. */
  lemma PauseHolds(states: seq<State>, actions: seq<Action>, a: nat, b: nat)
    requires IsRun(states, actions) && a < b <= |actions| && actions[a] == Action.Pause
    requires forall k :: a <= k < b ==> actions[k] != Resume
    ensures states[b].paused && states[b].shownPaused
    ensures |states[b].started| <= |states[a].started| + Slipped(states[a])
  {
    assert states[a + 1] == Apply(states[a], actions[a]);
    AtMostOneSlips(states, actions, a + 1, b);
    SoundOverRuns(states, actions, b);
  }

  /** Resuming resumes, whatever came before, and lets go of whoever waits. */
  lemma ResumeHolds(states: seq<State>, actions: seq<Action>, a: nat)
    requires IsRun(states, actions) && a < |actions| && actions[a] == Action.Resume
    ensures !states[a + 1].paused && !states[a + 1].shownPaused
    ensures states[a + 1].phase.Waiting? ==> Enabled(states[a + 1], Wake)
  {
    SoundOverRuns(states, actions, a);
    SoundOverRuns(states, actions, a + 1);
    assert states[a + 1] == Apply(states[a], actions[a]);
  }

  /** Only these two steps change the pause. */
  lemma PauseIsOurs(s: State, a: Action)
    requires Enabled(s, a) && a != Action.Pause && a != Action.Resume
    ensures Apply(s, a).paused == s.paused && Apply(s, a).shownPaused == s.shownPaused
  {
  }

  /** Jobs are accepted by enqueueing alone: a job that can run and has a name exactly when the queue has room,
      and then it is the last in the queue. */
  lemma AcceptedIff(s: State, a: Action)
    requires Sound(s) && Enabled(s, a)
    ensures Apply(s, a).accepted ==
              if a.Enqueue? && a.job.runnable && a.job.name != "" && |s.queue| < s.capacity then s.accepted + [a.job]
              else s.accepted
    ensures Apply(s, a).accepted != s.accepted ==> Apply(s, a).queue == s.queue + [a.job]
  {
  }

  /** An idle worker that is not paused starts the first job of the queue in three steps of its own, and one
      that waited when it was resumed starts the job it held. */
  lemma StartsNext(s: State)
    requires Sound(s) && !s.paused
    ensures s.phase.Idle? && s.queue != [] ==>
              && Enabled(s, Take) && Enabled(Apply(s, Take), Check) && Enabled(Apply(Apply(s, Take), Check), Start)
              && var s' := Apply(Apply(Apply(s, Take), Check), Start);
                 s'.started == s.started + [s.queue[0]] && s'.phase == Running(s.queue[0]) && s'.syncing
    ensures s.phase.Waiting? ==>
              && Enabled(s, Wake) && Enabled(Apply(s, Wake), Check) && Enabled(Apply(Apply(s, Wake), Check), Start)
              && var s' := Apply(Apply(Apply(s, Wake), Check), Start);
                 s'.started == s.started + [s.phase.job] && s'.phase == Running(s.phase.job) && s'.syncing
  {
  }

  /** A worker that has stopped starts nothing any more, and keeps the job it waited with unstarted. */
  lemma {:induction false} StoppedForGood(states: seq<State>, actions: seq<Action>, a: nat, b: nat)
    requires IsRun(states, actions) && a <= b <= |actions| && states[a].phase.Stopped?
    ensures states[b].phase == states[a].phase && states[b].started == states[a].started
  {
    if a < b {
      StoppedForGood(states, actions, a, b - 1);
      assert states[b] == Apply(states[b - 1], actions[b - 1]) && Enabled(states[b - 1], actions[b - 1]);
    }
  }

  /** The worker as the program has it. Each method is one atomic step. */
  class SyncWorker {
    const capacity: nat
    var paused: bool
    var shownPaused: bool
    var resumeCh: nat
    var closed: set<nat>
    var queue: seq<Job>
    var phase: Phase
    var syncing: bool
    ghost var accepted: seq<Job>
    ghost var started: seq<Job>

    ghost function Now(): State
      reads this
    {
      State(capacity, paused, shownPaused, resumeCh, closed, queue, phase, syncing, accepted, started)
    }

    constructor (queueSize: int)
      ensures Now() == New(queueSize)
    {
      capacity := if queueSize <= 0 then 16 else queueSize;
      paused, shownPaused, resumeCh, closed := false, false, 0, {0};
      queue, phase, syncing, accepted, started := [], Idle, false, [], [];
    }

    method Pause()
      modifies this
      ensures Now() == Apply(old(Now()), Action.Pause)
    {
      if !paused {
        paused := true;
        resumeCh := resumeCh + 1;
        shownPaused := true;
      }
    }

    method Resume()
      requires Sound(Now())
      modifies this
      ensures Now() == Apply(old(Now()), Action.Resume)
    {
      if paused {
        paused := false;
        assert resumeCh !in closed;
        closed := closed + {resumeCh};
        shownPaused := false;
      }
    }

    method Enqueue(job: Job) returns (ok: bool)
      modifies this
      ensures Now() == Apply(old(Now()), Action.Enqueue(job))
      ensures ok == Accepts(old(Now()), job)
    {
      ok := false;
      if job.runnable && job.name != "" {
        if |queue| < capacity {
          queue := queue + [job];
          accepted := accepted + [job];
          ok := true;
        }
      }
    }

    /** The worker receives the next job. */
    method Take()
      requires Enabled(Now(), Action.Take)
      modifies this
      ensures Now() == Apply(old(Now()), Action.Take)
    {
      phase := Held(queue[0]);
      queue := queue[1..];
    }

    /** One pass of the wait loop up to its select. */
    method Check()
      requires Enabled(Now(), Action.Check)
      modifies this
      ensures Now() == Apply(old(Now()), Action.Check)
    {
      phase := if paused then Waiting(phase.job, resumeCh) else Cleared(phase.job);
    }

    /** The select of the wait loop sees its gate closed. */
    method Wake()
      requires Enabled(Now(), Action.Wake)
      modifies this
      ensures Now() == Apply(old(Now()), Action.Wake)
    {
      phase := Held(phase.job);
    }

    method Start()
      requires Enabled(Now(), Action.Start)
      modifies this
      ensures Now() == Apply(old(Now()), Action.Start)
    {
      started := started + [phase.job];
      syncing := true;
      phase := Running(phase.job);
    }

    method Finish()
      requires Enabled(Now(), Action.Finish)
      modifies this
      ensures Now() == Apply(old(Now()), Action.Finish)
    {
      syncing := false;
      phase := Idle;
    }
  }
}
