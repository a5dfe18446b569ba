/** The rules by which a machine decides whether to restore the backup a manifest announces. */
module Manifest {
  import opened Text
  import opened Timestamps

  datatype Manifest = Manifest(machine: string, timestamp: string, zipFile: string, zipSize: int)

  datatype Verdict = Accept | Skip(reason: SkipReason)

  datatype SkipReason = NoManifest | SelfBackup | AlreadySynced | ZipMissing | ZipSizeBad

  /** `found` is the size of the announced zip, if it is there. */
  function ShouldSync(manifest: Option<Manifest>, machine: string, lastSynced: string, found: Option<int>): Verdict {
    match manifest
    case None => Skip(NoManifest)
    case Some(m) =>
      if Lower(m.machine) == Lower(machine) then Skip(SelfBackup)
      else if lastSynced != "" && !Less(lastSynced, m.timestamp) then Skip(AlreadySynced)
      else if found.None? then Skip(ZipMissing)
      else if m.zipSize > 0 && found.value != m.zipSize then Skip(ZipSizeBad)
      else Accept
  }

  /** Another machine's manifest, with its zip in place. */
  predicate Offers(m: Manifest, machine: string, found: Option<int>) {
    Lower(m.machine) != Lower(machine) && found.Some? && (m.zipSize > 0 ==> found.value == m.zipSize)
  }

  /** A manifest is accepted exactly when it offers a backup that this machine has not caught up with. */
  lemma AcceptIff(manifest: Option<Manifest>, machine: string, lastSynced: string, found: Option<int>)
    ensures ShouldSync(manifest, machine, lastSynced, found) == Accept <==>
              && manifest.Some? && Offers(manifest.value, machine, found)
              && (lastSynced == "" || Less(lastSynced, manifest.value.timestamp))
  {
  }

  /** Why a manifest is skipped, first reason first: the machine's own backup, whatever else holds of it; one
      already caught up with; a zip that is missing; one of another size. */
  lemma SkipReasons(m: Manifest, machine: string, lastSynced: string, found: Option<int>)
    ensures var verdict := ShouldSync(Some(m), machine, lastSynced, found);
            var own, stale := Lower(m.machine) == Lower(machine), lastSynced != "" && !Less(lastSynced, m.timestamp);
            && (verdict == Skip(SelfBackup) <==> own)
            && (verdict == Skip(AlreadySynced) <==> !own && stale)
            && (verdict == Skip(ZipMissing) <==> !own && !stale && found.None?)
            && (verdict == Skip(ZipSizeBad) <==>
                  !own && !stale && found.Some? && m.zipSize > 0 && found.value != m.zipSize)
    ensures ShouldSync(None, machine, lastSynced, found) == Skip(NoManifest)
  {
  }

  /** In every history a machine's own backup, announced under its name in any case, is never accepted. */
  lemma OwnIsNeverAccepted(machine: string, events: seq<Event>, k: nat)
    requires k < |events| && events[k].Checked? && Lower(events[k].manifest.machine) == Lower(machine)
    ensures ShouldSync(Some(events[k].manifest), machine, LastSynced(events[..k]), events[k].found) != Accept
  {
    SkipReasons(events[k].manifest, machine, LastSynced(events[..k]), events[k].found);
  }

  /** Jobs for network restores are told by their names; those of the preset synchroniser are none. */
  lemma RestoreJobs(reason: string)
    ensures IsNetworkSyncJob("network_sync_" + "startup") && IsNetworkSyncJob("network_sync_" + "pending")
    ensures !IsNetworkSyncJob("preset_sync_" + reason)
  {
  }

  /** An offered backup is restored exactly when it was announced after the last restore. */
  lemma AcceptsIffNewer(m: Manifest, machine: string, found: Option<int>, announced: Instant, last: Instant)
    requires Offers(m, machine, found) && Valid(announced) && Valid(last) && m.timestamp == Format(announced)
    ensures ShouldSync(Some(m), machine, Format(last), found) == Accept <==> Micros(last) < Micros(announced)
  {
    StringOrderIsTimeOrder(last, announced);
    assert |Format(last)| >= 1;
  }

  /** A time of the calendar. */
  type Moment = t: Instant | Valid(t) witness Instant(2000, 1, 1, 0, 0, 0, 0)

  /** What one machine goes through: checks of a manifest that another machine announced, and jobs that
      succeed. They may overlap. */
  datatype Event =
    | Checked(manifest: Manifest, announced: Moment, found: Option<int>)
    | Finished(job: string, at: Moment)

  predicate IsNetworkSyncJob(name: string) {
    "network_sync_" <= Lower(TrimSpace(name))
  }

  predicate Restores(e: Event) {
    e.Finished? && IsNetworkSyncJob(e.job)
  }

  /** What the finished jobs leave behind: the time of the last network restore. */
  function LastSynced(events: seq<Event>): string {
    if events == [] then ""
    else
      var last := events[|events| - 1];
      if Restores(last) then Format(last.at) else LastSynced(events[..|events| - 1])
  }

  /** Announcements are stamped by the agent; on one clock, restores finish in the order of the list. */
  predicate Plausible(clock: Moment -> int, events: seq<Event>) {
    && (forall k :: 0 <= k < |events| && events[k].Checked? ==>
       events[k].manifest.timestamp == Format(events[k].announced))
    && InOrder(clock, events)
  }

  predicate InOrder(clock: Moment -> int, events: seq<Event>) {
    forall j, k :: 0 <= j < k < |events| && Restores(events[j]) && Restores(events[k]) ==>
      clock(events[j].at) <= clock(events[k].at)
  }

  lemma {:induction false} LastRestore(events: seq<Event>) returns (j: int)
    ensures -1 <= j < |events|
    ensures j >= 0 ==> Restores(events[j]) && LastSynced(events) == Format(events[j].at)
    ensures j < 0 ==> LastSynced(events) == ""
    ensures forall k :: j < k < |events| ==> !Restores(events[k])
  {
    if events == [] {
      j := -1;
    } else if Restores(events[|events| - 1]) {
      j := |events| - 1;
    } else {
      j := LastRestore(events[..|events| - 1]);
    }
  }

  /** The last restore decides whether all of them came before a moment. */
  lemma LastDecides(clock: Moment -> int, events: seq<Event>, k: nat, moment: Moment) returns (j: int)
    requires InOrder(clock, events) && k <= |events|
    ensures -1 <= j < k && (j >= 0 ==> Restores(events[j]))
    ensures LastSynced(events[..k]) == if j < 0 then "" else Format(events[j].at)
    ensures (forall i :: 0 <= i < k && Restores(events[i]) ==> clock(events[i].at) < clock(moment)) <==>
            (j >= 0 ==> clock(events[j].at) < clock(moment))
  {
    j := LastRestore(events[..k]);
    forall i | j < i < k
      ensures !Restores(events[i])
    {
      assert events[..k][i] == events[i];
    }
    if j >= 0 {
      assert events[..k][j] == events[j];
    }
    LastIsLatest(clock, events, k, j, moment);
  }

  lemma LastIsLatest(clock: Moment -> int, events: seq<Event>, k: nat, j: int, moment: Moment)
    requires InOrder(clock, events) && -1 <= j < k <= |events|
    requires (forall i :: j < i < k ==> !Restores(events[i])) && (j >= 0 ==> Restores(events[j]))
    ensures (forall i :: 0 <= i < k && Restores(events[i]) ==> clock(events[i].at) < clock(moment)) <==>
            (j >= 0 ==> clock(events[j].at) < clock(moment))
  {
    forall i | 0 <= i < k && Restores(events[i])
      ensures i == j || (i < j && clock(events[i].at) <= clock(events[j].at))
    {
    }
  }

  /** In every history a check accepts an offered backup exactly when it was announced after every
      restore finished so far. */
  lemma AcceptedIffAnnouncedLast(machine: string, events: seq<Event>, k: nat)
    requires var clock := (t: Moment) => Micros(t); Plausible(clock, events)
    requires k < |events| && events[k].Checked? && Offers(events[k].manifest, machine, events[k].found)
    ensures ShouldSync(Some(events[k].manifest), machine, LastSynced(events[..k]), events[k].found) == Accept <==>
            forall j :: 0 <= j < k && Restores(events[j]) ==> Micros(events[j].at) < Micros(events[k].announced)
  {
    var clock := (t: Moment) => Micros(t);
    var j := LastDecides(clock, events, k, events[k].announced);
    if j >= 0 {
      AcceptsIffNewer(events[k].manifest, machine, events[k].found, events[k].announced, events[j].at);
    }
  }

  /** So no backup is restored again once a restore has finished after its announcement, whatever
      else is announced, checked and restored in between. */
  lemma NotTwice(machine: string, events: seq<Event>, j: nat, k: nat)
    requires var clock := (t: Moment) => Micros(t); Plausible(clock, events)
    requires j < k < |events| && Restores(events[j]) && events[k].Checked?
    requires Micros(events[k].announced) <= Micros(events[j].at)
    ensures ShouldSync(Some(events[k].manifest), machine, LastSynced(events[..k]), events[k].found) != Accept
  {
    if Offers(events[k].manifest, machine, events[k].found) {
      AcceptedIffAnnouncedLast(machine, events, k);
    }
  }

  /** The same rule skips for good a backup that was announced while an earlier one was being restored. */
  lemma AnnouncedDuringRestore(machine: string, a: Manifest, b: Manifest, found: Option<int>,
                               first: Moment, second: Moment, job: string, done: Moment)
    requires a.timestamp == Format(first) && b.timestamp == Format(second) && IsNetworkSyncJob(job)
    requires Offers(a, machine, found) && Micros(first) < Micros(second) <= Micros(done)
    ensures var events := [Checked(a, first, found), Finished(job, done), Checked(b, second, found)];
            && ShouldSync(Some(a), machine, LastSynced(events[..0]), found) == Accept
            && ShouldSync(Some(b), machine, LastSynced(events[..2]), found) != Accept
  {
    var events := [Checked(a, first, found), Finished(job, done), Checked(b, second, found)];
    assert events[..2][1] == Finished(job, done);
    if Offers(b, machine, found) {
      AcceptsIffNewer(b, machine, found, second, done);
    }
  }

  /** A backup the Python agent announced is restored exactly when it is newer, or was announced
      in the very microsecond of the last restore and that time ends in a zero: string order
      then repeats a restore, but never skips a newer backup nor takes an older one. */
  lemma AcceptsPythonIff(m: Manifest, machine: string, found: Option<int>, announced: Instant, last: Instant)
    requires Offers(m, machine, found) && Valid(announced) && Valid(last) && m.timestamp == PythonFormat(announced)
    ensures ShouldSync(Some(m), machine, Format(last), found) == Accept <==>
              || Micros(last) < Micros(announced)
              || (Micros(last) == Micros(announced) && Micro(last) != 0 && Micro(last) % 10 == 0)
  {
    StringOrderAgainstPython(last, announced);
    assert |Format(last)| >= 1;
  }

  /** Noon, a tenth of a second past. */
  const TENTH: Moment := Instant(2024, 5, 1, 12, 0, 0, 100_000_000)

  /** One such case: announced at a tenth of a second, restored in the same microsecond, accepted again. */
  lemma PythonRepeats(m: Manifest, machine: string, found: Option<int>)
    requires Offers(m, machine, found) && m.timestamp == PythonFormat(TENTH)
    ensures ShouldSync(Some(m), machine, Format(TENTH), found) == Accept
  {
    RepeatsInMicrosecond(m, machine, found, TENTH);
  }

  lemma RepeatsInMicrosecond(m: Manifest, machine: string, found: Option<int>, t: Moment)
    requires Offers(m, machine, found) && m.timestamp == PythonFormat(t) && Micro(t) != 0 && Micro(t) % 10 == 0
    ensures ShouldSync(Some(m), machine, Format(t), found) == Accept
  {
    AcceptsPythonIff(m, machine, found, t, t);
  }
}
