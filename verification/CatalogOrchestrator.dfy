/**
 Startup and pending catalog syncs: a manifest found while Lightroom runs is remembered and
 enqueued once Lightroom has stopped. Calls hold one mutex, so they act one after the other.
 */
module CatalogOrchestrator {
  import opened Text
  import opened Manifest

  datatype Reason = Startup | Pending

  /** What happened to manifests, in order. */
  datatype Event =
    | Pended(manifest: Manifest)
    | Enqueued(manifest: Manifest, reason: Reason, lightroomRunning: bool)

  /** What a call finds: whether Lightroom runs, whether the queue takes the job, and for startup
      checks whether automatic sync is on, the manifest as read, and the verdict's inputs. */
  datatype Call =
    | StartupCheck(autoSync: bool, read: Option<Option<Manifest>>, lastSynced: string, found: Option<int>,
                   running: bool, room: bool)
    | RunPending(running: bool, room: bool)

  datatype State = State(configured: bool, pending: Option<Manifest>, log: seq<Event>)

  function Enqueue(s: State, manifest: Manifest, reason: Reason, running: bool, room: bool): (State, bool) {
    if s.configured && room
    then (s.(pending := None, log := s.log + [Enqueued(manifest, reason, running)]), true)
    else (s, false)
  }

  function QueueOrPend(s: State, manifest: Manifest, running: bool, room: bool): (State, bool) {
    if running then (s.(pending := Some(manifest), log := s.log + [Pended(manifest)]), true)
    else Enqueue(s, manifest, Startup, running, room)
  }

  /** One call on machine `me`: the new state, and whether the call reports no error. */
  function Step(me: string, s: State, call: Call): (State, bool) {
    match call
    case StartupCheck(autoSync, read, lastSynced, found, running, room) =>
      if !autoSync then (s, true)
      else if read.None? then (s, false)
      else if ShouldSync(read.value, me, lastSynced, found) != Accept then (s, true)
      else QueueOrPend(s, read.value.value, running, room)
    case RunPending(running, room) =>
      if s.pending.None? || running then (s, true)
      else Enqueue(s, s.pending.value, Reason.Pending, running, room)
  }

  ghost predicate IsRun(me: string, states: seq<State>, calls: seq<Call>) {
    && |states| == |calls| + 1
    && states[0].pending == None && states[0].log == []
    && forall k :: 0 <= k < |calls| ==> states[k + 1] == Step(me, states[k], calls[k]).0
  }

  /** A manifest is pending exactly when the last thing that happened is that it was pended. */
  predicate PendingIsLast(s: State) {
    s.pending == if s.log != [] && s.log[|s.log| - 1].Pended? then Some(s.log[|s.log| - 1].manifest) else None
  }

  /** Every delayed job follows at once the pending of its own manifest: no other event lies
      between, so a pended manifest is enqueued at most once and never after being replaced. */
  predicate DelayedJobsMatch(log: seq<Event>) {
    forall k :: 0 <= k < |log| && log[k].Enqueued? && log[k].reason == Reason.Pending ==>
      k > 0 && log[k - 1] == Pended(log[k].manifest)
  }

  predicate OnlyWhileStopped(log: seq<Event>) {
    forall k :: 0 <= k < |log| && log[k].Enqueued? ==> !log[k].lightroomRunning
  }

  predicate Sound(s: State) {
    PendingIsLast(s) && DelayedJobsMatch(s.log) && OnlyWhileStopped(s.log)
  }

  lemma StepSound(me: string, s: State, call: Call)
    requires Sound(s)
    ensures Sound(Step(me, s, call).0)
  {
    var s' := Step(me, s, call).0;
    if s'.log != s.log {
      var e := s'.log[|s.log|];
      assert s'.log == s.log + [e];
      LogGrows(s.log, e);
    }
  }

  lemma LogGrows(log: seq<Event>, e: Event)
    requires DelayedJobsMatch(log) && OnlyWhileStopped(log) && (e.Enqueued? ==> !e.lightroomRunning)
    requires e.Enqueued? && e.reason == Reason.Pending ==> log != [] && log[|log| - 1] == Pended(e.manifest)
    ensures DelayedJobsMatch(log + [e]) && OnlyWhileStopped(log + [e])
  {
  }

  /** In every run, whatever the order of calls, full queues and Lightroom starts and stops: pending
      manifests are neither lost nor doubled, and jobs are enqueued only on finding Lightroom stopped. */
  lemma {:induction false} SoundOverRuns(me: string, states: seq<State>, calls: seq<Call>, k: nat)
    requires IsRun(me, states, calls) && k <= |calls|
    ensures Sound(states[k])
  {
    if k > 0 {
      SoundOverRuns(me, states, calls, k - 1);
      StepSound(me, states[k - 1], calls[k - 1]);
    }
  }

  /** The manifest a startup check reads, if it reads one. */
  function Read(call: Call): Option<Manifest> {
    if call.StartupCheck? && call.read.Some? then call.read.value else None
  }

  /** A pending manifest goes away in one step only by being enqueued itself, or by the manifest that
      a startup check has just read being enqueued or pended instead. */
  lemma PendingLeaves(me: string, s: State, call: Call)
    requires s.pending.Some?
    ensures var s' := Step(me, s, call).0;
            || s' == s
            || (call.RunPending? && s'.pending.None?
               && s'.log == s.log + [Enqueued(s.pending.value, Reason.Pending, false)])
            || (Read(call).Some? && s'.pending.None? && s'.log == s.log + [Enqueued(Read(call).value, Startup, false)])
            || (Read(call).Some? && s'.pending == Read(call) && s'.log == s.log + [Pended(Read(call).value)])
  {
  }

  /** The log from event `from` on holds a job for `m`, or for a manifest read by one of these calls. */
  ghost predicate Served(log: seq<Event>, from: nat, m: Manifest, calls: seq<Call>, a: nat, b: nat) {
    exists j :: from <= j < |log| && log[j].Enqueued? && FromCalls(log[j].manifest, m, calls, a, b)
  }

  /** `x` is `m` itself or was read by one of the calls `a` to `b`. */
  ghost predicate FromCalls(x: Manifest, m: Manifest, calls: seq<Call>, a: nat, b: nat) {
    x == m || exists k :: a <= k < b && k < |calls| && Read(calls[k]) == Some(x)
  }

  /** What is pended or enqueued since call `a` is the manifest pending then, or was read since. */
  lemma {:induction false} PendingOrServed(me: string, states: seq<State>, calls: seq<Call>, a: nat, b: nat,
                                           m: Manifest)
    requires IsRun(me, states, calls) && a <= b <= |calls| && states[a].pending == Some(m)
    ensures |states[a].log| <= |states[b].log|
    ensures states[b].pending.Some? ==> FromCalls(states[b].pending.value, m, calls, a, b)
    ensures states[b].pending.None? ==> Served(states[b].log, |states[a].log|, m, calls, a, b)
  {
    if a < b {
      PendingOrServed(me, states, calls, a, b - 1, m);
      ServedStep(me, states[b - 1], calls, b - 1, |states[a].log|, m, a);
      assert states[b] == Step(me, states[b - 1], calls[b - 1]).0;
    }
  }

  lemma ServedStep(me: string, s: State, calls: seq<Call>, b: nat, from: nat, m: Manifest, a: nat)
    requires a <= b < |calls| && from <= |s.log|
    requires s.pending.Some? ==> FromCalls(s.pending.value, m, calls, a, b)
    requires s.pending.None? ==> Served(s.log, from, m, calls, a, b)
    ensures var s' := Step(me, s, calls[b]).0;
            && |s.log| <= |s'.log|
            && (s'.pending.Some? ==> FromCalls(s'.pending.value, m, calls, a, b + 1))
            && (s'.pending.None? ==> Served(s'.log, from, m, calls, a, b + 1))
  {
    var s' := Step(me, s, calls[b]).0;
    assert Read(calls[b]).Some? ==> FromCalls(Read(calls[b]).value, m, calls, a, b + 1);
    if s.pending.None? {
      var j :| from <= j < |s.log| && s.log[j].Enqueued? && FromCalls(s.log[j].manifest, m, calls, a, b);
      assert s'.log[j] == s.log[j] && FromCalls(s.log[j].manifest, m, calls, a, b + 1);
    } else if s'.pending.None? {
      PendingLeaves(me, s, calls[b]);
      assert s'.log[|s.log|].Enqueued? && FromCalls(s'.log[|s.log|].manifest, m, calls, a, b + 1);
    }
  }

  /** No pending sync is lost: in every run, once a later call finds Lightroom stopped and room in the
      queue, a job has been enqueued for the pending manifest or for one read from the network since,
      and nothing is pending any more. */
  lemma PendingRuns(me: string, states: seq<State>, calls: seq<Call>, a: nat, b: nat, m: Manifest)
    requires IsRun(me, states, calls) && a <= b < |calls| && states[a].pending == Some(m)
    requires states[b].configured && calls[b] == RunPending(false, true)
    ensures states[b + 1].pending.None? && |states[a].log| <= |states[b + 1].log|
    ensures Served(states[b + 1].log, |states[a].log|, m, calls, a, b + 1)
  {
    PendingOrServed(me, states, calls, a, b + 1, m);
    assert states[b + 1] == Step(me, states[b], calls[b]).0;
  }

  // ---- from the check on ----

  /** A startup check that reads a manifest and finds that it should be restored. */
  predicate Accepts(me: string, call: Call) {
    && call.StartupCheck? && call.autoSync && Read(call).Some?
    && ShouldSync(Read(call), me, call.lastSynced, call.found) == Accept
  }

  /** An accepted manifest is not forgotten: while Lightroom runs it is pended; otherwise it is enqueued, at
      once and as the last thing that happened, if there are folders and room, and else an error is reported
      and everything stays as it was. */
  lemma AcceptedIsKept(me: string, s: State, call: Call)
    requires Accepts(me, call)
    ensures var (s', ok) := Step(me, s, call);
            var m := Read(call).value;
            if call.running then ok && s' == s.(pending := Some(m), log := s.log + [Pended(m)])
            else if s.configured && call.room then
              ok && s' == s.(pending := None, log := s.log + [Enqueued(m, Startup, false)])
            else !ok && s' == s
  {
  }

  /** Any other startup check changes nothing, and reports an error exactly when automatic sync is on and
      the manifest cannot be read. */
  lemma OthersChangeNothing(me: string, s: State, call: Call)
    requires call.StartupCheck? && !Accepts(me, call)
    ensures Step(me, s, call) == (s, !(call.autoSync && call.read.None?))
  {
  }

  /** Running what is pending does nothing while Lightroom runs or when there is nothing, and otherwise
      enqueues it or reports an error. */
  lemma RunPendingOutcome(me: string, s: State, running: bool, room: bool)
    ensures var (s', ok) := Step(me, s, RunPending(running, room));
            if s.pending.None? || running then ok && s' == s
            else if s.configured && room then
              ok && s' == s.(pending := None, log := s.log + [Enqueued(s.pending.value, Reason.Pending, false)])
            else !ok && s' == s
  {
  }

  /** No accepted manifest is lost over a run: one found while Lightroom runs leads to a job, for it or for one
      read since, by the first later call that finds Lightroom stopped and room in the queue. */
  lemma AcceptedRuns(me: string, states: seq<State>, calls: seq<Call>, a: nat, b: nat)
    requires IsRun(me, states, calls) && a < b < |calls| && Accepts(me, calls[a]) && calls[a].running
    requires states[b].configured && calls[b] == RunPending(false, true)
    ensures states[a + 1].pending == Read(calls[a])
    ensures states[b + 1].pending.None? && |states[a + 1].log| <= |states[b + 1].log|
    ensures Served(states[b + 1].log, |states[a + 1].log|, Read(calls[a]).value, calls, a + 1, b + 1)
  {
    assert states[a + 1] == Step(me, states[a], calls[a]).0;
    AcceptedIsKept(me, states[a], calls[a]);
    PendingRuns(me, states, calls, a + 1, b, Read(calls[a]).value);
  }

  class CatalogSyncOrchestrator {
    const machine: string
    const catalogDir: string
    const backupDir: string
    var pendingManifest: Option<Manifest>
    ghost var log: seq<Event>

    constructor (machine: string, catalogDir: string, backupDir: string)
      ensures Now() == State(catalogDir != "" && backupDir != "", None, []) && this.machine == machine
    {
      this.machine, this.catalogDir, this.backupDir := machine, catalogDir, backupDir;
      pendingManifest, log := None, [];
    }

    ghost function Now(): State
      reads this
    {
      State(catalogDir != "" && backupDir != "", pendingManifest, log)
    }

    method CheckStartupManifest(autoSync: bool, read: Option<Option<Manifest>>, lastSynced: string, found: Option<int>,
                                running: bool, room: bool)
      returns (ok: bool)
      modifies this
      ensures (Now(), ok) == Step(machine, old(Now()), StartupCheck(autoSync, read, lastSynced, found, running, room))
    {
      if !autoSync {
        return true;
      }
      if read.None? {
        return false;
      }
      if ShouldSync(read.value, machine, lastSynced, found) != Accept {
        return true;
      }
      ok := QueueOrPendManifest(read.value.value, running, room);
    }

    method QueueOrPendManifest(manifest: Manifest, running: bool, room: bool) returns (ok: bool)
      modifies this
      ensures (Now(), ok) == QueueOrPend(old(Now()), manifest, running, room)
    {
      if running {
        pendingManifest := Some(manifest);
        log := log + [Pended(manifest)];
        return true;
      }
      ok := EnqueueManifest(manifest, Startup, running, room);
      if ok {
        pendingManifest := None;
      }
    }

    method RunPendingIfAny(running: bool, room: bool) returns (ok: bool)
      modifies this
      ensures (Now(), ok) == Step(machine, old(Now()), RunPending(running, room))
    {
      if pendingManifest.None? || running {
        return true;
      }
      ok := EnqueueManifest(pendingManifest.value, Reason.Pending, running, room);
      if ok {
        pendingManifest := None;
      }
    }

    method EnqueueManifest(manifest: Manifest, reason: Reason, running: bool, room: bool) returns (ok: bool)
      modifies this`log
      ensures ok == (Now().configured && room)
      ensures log == if ok then old(log) + [Enqueued(manifest, reason, running)] else old(log)
    {
      ok := backupDir != "" && catalogDir != "" && room;
      if ok {
        log := log + [Enqueued(manifest, reason, running)];
      }
    }
  }
}
