/**
 The circuit breaker around the network share and the monitor that probes through it. A run is a
 sequence of checks; the breaker's state, the probes it lets through and the lost/recovered events
 are related to the history of probe outcomes.
 */
module NetworkHealth {

  datatype BreakerState = Closed | Open | HalfOpen

  datatype Config = Config(threshold: int, openTimeout: int)

  datatype Breaker = Breaker(state: BreakerState, failures: int, openedAt: int)

  datatype Event = Lost | Recovered

  /** One probe that was let through, and how it went. */
  datatype Probe = Probe(time: int, failed: bool)

  /** Non-positive settings fall back to 3 failures and 10 seconds, in nanoseconds. */
  function Defaulted(cfg: Config): (r: Config)
    ensures r.threshold > 0 && r.openTimeout > 0
  {
    Config(if cfg.threshold <= 0 then 3 else cfg.threshold,
           if cfg.openTimeout <= 0 then 10_000_000_000 else cfg.openTimeout)
  }

  function Allow(cfg: Config, b: Breaker, now: int): (Breaker, bool) {
    if b.state != Open then (b, true)
    else if now - b.openedAt < cfg.openTimeout then (b, false)
    else (b.(state := HalfOpen), true)
  }

  function OpenAt(now: int): Breaker {
    Breaker(Open, 0, now)
  }

  function RecordFailure(cfg: Config, b: Breaker, now: int): Breaker {
    match b.state
    case HalfOpen => OpenAt(now)
    case Closed =>
      if b.failures + 1 >= cfg.threshold then OpenAt(now) else b.(failures := b.failures + 1)
    case Open => b
  }

  function RecordSuccess(b: Breaker): Breaker {
    b.(state := Closed, failures := 0)
  }

  /** The monitor's hook on a change of state. */
  function Hook(from: BreakerState, to: BreakerState): seq<Event> {
    if from == to then []
    else if to == Open then [Lost]
    else if from == HalfOpen && to == Closed then [Recovered]
    else []
  }

  datatype Monitor = Monitor(breaker: Breaker, events: seq<Event>, probes: seq<Probe>)

  function CheckOnce(cfg: Config, m: Monitor, now: int, probeFails: bool): Monitor {
    var (b, allowed) := Allow(cfg, m.breaker, now);
    if !allowed then m
    else
      var b' := if probeFails then RecordFailure(cfg, b, now) else RecordSuccess(b);
      Monitor(b', m.events + Hook(m.breaker.state, b.state) + Hook(b.state, b'.state),
        m.probes + [Probe(now, probeFails)])
  }

  const FRESH := Monitor(Breaker(Closed, 0, 0), [], [])

  /** The monitor after a sequence of checks, each with its time and what its probe would say. */
  function After(cfg: Config, checks: seq<Probe>): Monitor {
    if checks == [] then FRESH
    else
      var last := checks[|checks| - 1];
      CheckOnce(cfg, After(cfg, checks[..|checks| - 1]), last.time, last.failed)
  }

  // ---- the history ----

  /** How many of the latest probes failed in a row. */
  function FailedInARow(probes: seq<Probe>): nat {
    if probes == [] || !probes[|probes| - 1].failed then 0 else 1 + FailedInARow(probes[..|probes| - 1])
  }

  /** The events are a prefix of (lost+ recovered)*: each recovery follows at once on a loss. */
  predicate Alternates(events: seq<Event>) {
    forall k :: 0 <= k < |events| && events[k] == Recovered ==> k > 0 && events[k - 1] == Lost
  }

  /** A probe that made the row of failures as long as the threshold, or longer, silences the next
      one until the timeout is over. */
  predicate Spaced(cfg: Config, probes: seq<Probe>) {
    |probes| <= 1 ||
    var before := probes[..|probes| - 1];
    && Spaced(cfg, before)
    && (FailedInARow(before) >= cfg.threshold ==>
          probes[|probes| - 1].time >= before[|before| - 1].time + cfg.openTimeout)
  }

  ghost predicate Sound(cfg: Config, m: Monitor) {
    var row := FailedInARow(m.probes);
    && (m.breaker.state == Closed ==> m.breaker.failures == row < cfg.threshold)
    && (m.breaker.state != Closed ==> m.breaker.failures == 0 && row >= cfg.threshold)
    && (m.breaker.state == Open ==> m.probes != [] && m.breaker.openedAt == m.probes[|m.probes| - 1].time)
    && m.breaker.state != HalfOpen
    && (m.breaker.state == Closed <==> m.events == [] || m.events[|m.events| - 1] == Recovered)
    && Alternates(m.events)
    && Spaced(cfg, m.probes)
  }

  lemma RowGrows(probes: seq<Probe>, p: Probe)
    ensures FailedInARow(probes + [p]) == if p.failed then 1 + FailedInARow(probes) else 0
  {
    assert (probes + [p])[..|probes|] == probes;
  }

  lemma SpacedGrows(cfg: Config, probes: seq<Probe>, p: Probe)
    requires Spaced(cfg, probes)
    requires probes != [] && FailedInARow(probes) >= cfg.threshold ==>
        p.time >= probes[|probes| - 1].time + cfg.openTimeout
    ensures Spaced(cfg, probes + [p])
  {
    assert (probes + [p])[..|probes|] == probes;
  }

  lemma AlternatesGrows(events: seq<Event>, more: seq<Event>)
    requires Alternates(events) && |more| <= 1
    requires more == [Recovered] ==> events != [] && events[|events| - 1] == Lost
    ensures Alternates(events + more)
  {
  }

  lemma FailureSound(cfg: Config, m: Monitor, now: int)
    requires cfg.threshold > 0 && Sound(cfg, m) && Allow(cfg, m.breaker, now).1
    ensures Sound(cfg, CheckOnce(cfg, m, now, true))
  {
    var b := Allow(cfg, m.breaker, now).0;
    var b' := RecordFailure(cfg, b, now);
    RowGrows(m.probes, Probe(now, true));
    SpacedGrows(cfg, m.probes, Probe(now, true));
    assert Hook(m.breaker.state, b.state) == [] && m.events + [] == m.events;
    AlternatesGrows(m.events, Hook(b.state, b'.state));
  }

  lemma SuccessSound(cfg: Config, m: Monitor, now: int)
    requires cfg.threshold > 0 && Sound(cfg, m) && Allow(cfg, m.breaker, now).1
    ensures Sound(cfg, CheckOnce(cfg, m, now, false))
  {
    var b := Allow(cfg, m.breaker, now).0;
    RowGrows(m.probes, Probe(now, false));
    SpacedGrows(cfg, m.probes, Probe(now, false));
    assert Hook(m.breaker.state, b.state) == [] && m.events + [] == m.events;
    AlternatesGrows(m.events, Hook(b.state, RecordSuccess(b).state));
  }

  lemma CheckSound(cfg: Config, m: Monitor, now: int, probeFails: bool)
    requires cfg.threshold > 0 && Sound(cfg, m)
    ensures Sound(cfg, CheckOnce(cfg, m, now, probeFails))
  {
    if Allow(cfg, m.breaker, now).1 {
      if probeFails {
        FailureSound(cfg, m, now);
      } else {
        SuccessSound(cfg, m, now);
      }
    }
  }

  /** Over every sequence of checks: the breaker is closed exactly while fewer than the threshold of
      the latest probes failed in a row, counts them exactly, reports a loss for every opening and
      a recovery for every return, and lets no probe through before the timeout. */
  lemma {:induction false} SoundOverChecks(cfg: Config, checks: seq<Probe>)
    requires cfg.threshold > 0
    ensures Sound(cfg, After(cfg, checks))
  {
    if checks != [] {
      var before, last := checks[..|checks| - 1], checks[|checks| - 1];
      SoundOverChecks(cfg, before);
      CheckSound(cfg, After(cfg, before), last.time, last.failed);
    }
  }

  /** The breaker leaves Closed on the probe that completes a row of `threshold` failures, and on no
      other. */
  lemma OpensOnThreshold(cfg: Config, checks: seq<Probe>, now: int, probeFails: bool)
    requires cfg.threshold > 0 && After(cfg, checks).breaker.state == Closed
    ensures var m, m' := After(cfg, checks), CheckOnce(cfg, After(cfg, checks), now, probeFails);
            m'.breaker.state == Open <==> FailedInARow(m.probes + [Probe(now, probeFails)]) == cfg.threshold
  {
    SoundOverChecks(cfg, checks);
    var m := After(cfg, checks);
    var probes := m.probes + [Probe(now, probeFails)];
    assert probes[..|probes| - 1] == m.probes;
  }

  // ---- which checks probe, and what is reported ----

  /** The latest row of failures has opened the breaker, and its timeout runs. */
  predicate Silenced(cfg: Config, probes: seq<Probe>, now: int) {
    probes != [] && FailedInARow(probes) >= cfg.threshold && now - probes[|probes| - 1].time < cfg.openTimeout
  }

  lemma AllowedIff(cfg: Config, m: Monitor, now: int)
    requires cfg.threshold > 0 && Sound(cfg, m)
    ensures Allow(cfg, m.breaker, now).1 <==> !Silenced(cfg, m.probes, now)
  {
  }

  /** After every sequence of checks the next one probes exactly unless the timeout runs: at its end a probe
      is let through again. A check that does not probe changes nothing. */
  lemma ProbesIff(cfg: Config, checks: seq<Probe>, now: int, probeFails: bool)
    requires cfg.threshold > 0
    ensures var m := After(cfg, checks);
            var m' := CheckOnce(cfg, m, now, probeFails);
            && (Silenced(cfg, m.probes, now) ==> m' == m)
            && (!Silenced(cfg, m.probes, now) ==> m'.probes == m.probes + [Probe(now, probeFails)])
  {
    SoundOverChecks(cfg, checks);
    AllowedIff(cfg, After(cfg, checks), now);
  }

  /** What the history of probes ought to report: a loss for every failure that leaves the row at the threshold
      or beyond, a recovery for a success that ends such a row. */
  function Reported(cfg: Config, probes: seq<Probe>): seq<Event> {
    if probes == [] then []
    else
      var before, last := probes[..|probes| - 1], probes[|probes| - 1];
      Reported(cfg, before) +
      (if last.failed then (if FailedInARow(before) + 1 >= cfg.threshold then [Lost] else [])
       else if FailedInARow(before) >= cfg.threshold then [Recovered] else [])
  }

  lemma ReportedGrows(cfg: Config, probes: seq<Probe>, p: Probe)
    ensures Reported(cfg, probes + [p]) == Reported(cfg, probes) +
              (if p.failed then (if FailedInARow(probes) + 1 >= cfg.threshold then [Lost] else [])
               else if FailedInARow(probes) >= cfg.threshold then [Recovered] else [])
  {
    assert (probes + [p])[..|probes|] == probes;
  }

  /** One check reports what it should: nothing while a silenced breaker waits or turns half-open. */
  lemma CheckReports(cfg: Config, m: Monitor, now: int, probeFails: bool)
    requires cfg.threshold > 0 && Sound(cfg, m) && m.events == Reported(cfg, m.probes)
    ensures var m' := CheckOnce(cfg, m, now, probeFails);
            m'.events == Reported(cfg, m'.probes)
  {
    ReportedGrows(cfg, m.probes, Probe(now, probeFails));
    assert m.events + [] == m.events;
  }

  lemma {:induction false} EventsAreReported(cfg: Config, checks: seq<Probe>)
    requires cfg.threshold > 0
    ensures After(cfg, checks).events == Reported(cfg, After(cfg, checks).probes)
  {
    if checks != [] {
      var before, last := checks[..|checks| - 1], checks[|checks| - 1];
      EventsAreReported(cfg, before);
      SoundOverChecks(cfg, before);
      CheckReports(cfg, After(cfg, before), last.time, last.failed);
    }
  }

  class CircuitBreaker {
    const cfg: Config
    var state: BreakerState
    var failures: int
    var openedAt: int
    var events: seq<Event>

    constructor (cfg: Config)
      ensures this.cfg.threshold == if cfg.threshold <= 0 then 3 else cfg.threshold
      ensures this.cfg.openTimeout == if cfg.openTimeout <= 0 then 10_000_000_000 else cfg.openTimeout
      ensures this.cfg == Defaulted(cfg) && Now() == Breaker(Closed, 0, 0) && events == []
    {
      this.cfg := Defaulted(cfg);
      state, failures, openedAt, events := Closed, 0, 0, [];
    }

    function Now(): Breaker
      reads this
    {
      Breaker(state, failures, openedAt)
    }

    method TransitionTo(to: BreakerState)
      modifies this`state, this`events
      ensures state == to && events == old(events) + Hook(old(state), to)
    {
      var from := state;
      state := to;
      if from != to {
        if to == Open {
          events := events + [Lost];
        } else if from == HalfOpen && to == Closed {
          events := events + [Recovered];
        }
      }
    }

    method AllowNow(now: int) returns (allowed: bool)
      modifies this
      ensures (Now(), allowed) == Allow(cfg, old(Now()), now)
      ensures events == old(events) + Hook(old(state), state)
    {
      if state != Open {
        return true;
      }
      if now - openedAt < cfg.openTimeout {
        return false;
      }
      TransitionTo(HalfOpen);
      return true;
    }

    method Success()
      modifies this
      ensures Now() == RecordSuccess(old(Now()))
      ensures events == old(events) + Hook(old(state), state)
    {
      failures := 0;
      TransitionTo(Closed);
    }

    method Failure(now: int)
      modifies this
      ensures Now() == RecordFailure(cfg, old(Now()), now)
      ensures events == old(events) + Hook(old(state), state)
    {
      if state == HalfOpen {
        OpenNow(now);
      } else if state == Closed {
        failures := failures + 1;
        if failures >= cfg.threshold {
          OpenNow(now);
        }
      }
    }

    method OpenNow(now: int)
      modifies this
      ensures Now() == OpenAt(now) && events == old(events) + Hook(old(state), Open)
    {
      openedAt := now;
      failures := 0;
      TransitionTo(Open);
    }
  }

  class ShareHealthMonitor {
    const breaker: CircuitBreaker
    var probes: seq<Probe>

    constructor (cfg: Config)
      ensures breaker.cfg == Defaulted(cfg) && Now() == FRESH && fresh(breaker)
    {
      breaker := new CircuitBreaker(cfg);
      probes := [];
    }

    function Now(): Monitor
      reads this, breaker
    {
      Monitor(breaker.Now(), breaker.events, probes)
    }

    method Check(now: int, probeFails: bool)
      modifies this, breaker
      ensures Now() == CheckOnce(breaker.cfg, old(Now()), now, probeFails)
    {
      var allowed := breaker.AllowNow(now);
      if !allowed {
        return;
      }
      probes := probes + [Probe(now, probeFails)];
      if probeFails {
        breaker.Failure(now);
      } else {
        breaker.Success();
      }
    }
  }
}
