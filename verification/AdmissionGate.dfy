/** The admission gate: whether new sessions are let in and where they are routed, decided from polls of
    the middle-end pool's readiness. Instants are milliseconds. */
module AdmissionGate {
  import opened Wrappers

  const STARTUP_FALLBACK_AFTER: nat := 80_000
  const RUNTIME_FALLBACK_AFTER: nat := 6_000

  datatype Route = Middle | Direct

  datatype Reason = StartupDirectFallback | FastNotReadyFallback | StrictGraceFallback

  datatype Config = Config(me2dcFallback: bool, me2dcFast: bool)

  datatype Verdict = Verdict(open: bool, route: Route, reason: Option<Reason>)

  datatype Event = Reconfigured(cfg: Config) | Polled(ready: bool, now: nat)

  /** The loop's variables and what it has published. */
  datatype Gate = Gate(
    open: bool, route: Route,
    readyObserved: bool, notReadySince: Option<nat>,
    fallback: bool, fast: bool,
    sentOpen: bool, setRoute: Route)

  function InitialVerdict(cfg: Config, ready: bool): Verdict {
    if ready then Verdict(true, Middle, None)
    else if cfg.me2dcFallback then Verdict(true, Direct, Some(StartupDirectFallback))
    else Verdict(false, Middle, None)
  }

  /** The loop's first head. */
  function Started(cfg: Config, ready: bool, now: nat): Gate {
    var v := InitialVerdict(cfg, ready);
    Gate(v.open, v.route, ready, if ready then None else Some(now),
         cfg.me2dcFallback, cfg.me2dcFallback && cfg.me2dcFast, v.open, v.route)
  }

  function SaturatingSince(now: nat, then_: nat): nat {
    if then_ <= now then now - then_ else 0
  }

  /** When the pool was first found not ready, as the strict branch sees it. */
  function OutageSince(g: Gate, now: nat): nat {
    if g.notReadySince.Some? then g.notReadySince.value else now
  }

  predicate StrictBranch(g: Gate, ready: bool) {
    !ready && !(g.fallback && !g.readyObserved) && !g.fast
  }

  function VerdictOf(g: Gate, ready: bool, now: nat): Verdict {
    if ready then Verdict(true, Middle, None)
    else if g.fallback && !g.readyObserved then Verdict(true, Direct, Some(StartupDirectFallback))
    else if g.fast then Verdict(true, Direct, Some(FastNotReadyFallback))
    else
      var after := if g.readyObserved then RUNTIME_FALLBACK_AFTER else STARTUP_FALLBACK_AFTER;
      if g.fallback && SaturatingSince(now, OutageSince(g, now)) > after
      then Verdict(true, Direct, Some(StrictGraceFallback))
      else Verdict(false, Middle, None)
  }

  function AfterPoll(g: Gate, ready: bool, now: nat): Gate {
    var v := VerdictOf(g, ready, now);
    g.(open := v.open, route := v.route,
       readyObserved := g.readyObserved || ready,
       notReadySince := if ready then None
                        else if StrictBranch(g, ready) then Some(OutageSince(g, now))
                        else g.notReadySince,
       sentOpen := if v.open != g.open then v.open else g.sentOpen,
       setRoute := if v.route != g.route then v.route else g.setRoute)
  }

  function After(g: Gate, e: Event): Gate {
    match e
    case Reconfigured(cfg) => g.(fallback := cfg.me2dcFallback, fast := cfg.me2dcFallback && cfg.me2dcFast)
    case Polled(ready, now) => AfterPoll(g, ready, now)
  }

  /** The loop head after a list of events. */
  function RunFrom(g: Gate, events: seq<Event>): Gate {
    if events == [] then g
    else After(RunFrom(g, events[..|events| - 1]), events[|events| - 1])
  }

  // ----- the gate task -----

  class GateTask {
    var gateOpen: bool
    var routeMode: Route
    var readyObserved: bool
    var notReadySince: Option<nat>
    var fallbackEnabled: bool
    var fastFallbackEnabled: bool
    // the watch channel and the route controller
    var sentOpen: bool
    var setMode: Route

    function View(): Gate
      reads this
    {
      Gate(gateOpen, routeMode, readyObserved, notReadySince, fallbackEnabled, fastFallbackEnabled, sentOpen, setMode)
    }

    /** The initial decision, published before the loop starts. */
    constructor (cfg: Config, ready: bool, now: nat)
      ensures View() == Started(cfg, ready, now)
    {
      var v := InitialVerdict(cfg, ready);
      sentOpen, setMode := v.open, v.route;
      gateOpen, routeMode := v.open, v.route;
      readyObserved := ready;
      notReadySince := if ready then None else Some(now);
      fallbackEnabled := cfg.me2dcFallback;
      fastFallbackEnabled := cfg.me2dcFallback && cfg.me2dcFast;
    }

    method OnPoll(ready: bool, now: nat) returns (next: Verdict)
      modifies this
      ensures View() == AfterPoll(old(View()), ready, now)
      ensures next == VerdictOf(old(View()), ready, now)
    {
      if ready {
        readyObserved := true;
        notReadySince := None;
        next := Verdict(true, Middle, None);
      } else if fallbackEnabled && !readyObserved {
        next := Verdict(true, Direct, Some(StartupDirectFallback));
      } else if fastFallbackEnabled {
        next := Verdict(true, Direct, Some(FastNotReadyFallback));
      } else {
        if notReadySince.None? {
          notReadySince := Some(now);
        }
        var notReadyFor := SaturatingSince(now, notReadySince.value);
        var fallbackAfter := if readyObserved then RUNTIME_FALLBACK_AFTER else STARTUP_FALLBACK_AFTER;
        next := if fallbackEnabled && notReadyFor > fallbackAfter
                then Verdict(true, Direct, Some(StrictGraceFallback)) else Verdict(false, Middle, None);
      }
      if next.route != routeMode {
        routeMode := next.route;
        setMode := routeMode;
      }
      if next.open != gateOpen {
        gateOpen := next.open;
        sentOpen := gateOpen;
      }
    }

    /** The loop over the events it receives. */
    method Run(events: seq<Event>)
      modifies this
      ensures View() == RunFrom(old(View()), events)
    {
      for i := 0 to |events|
        invariant View() == RunFrom(old(View()), events[..i])
      {
        match events[i] {
          case Reconfigured(cfg) =>
            fallbackEnabled := cfg.me2dcFallback;
            fastFallbackEnabled := cfg.me2dcFallback && cfg.me2dcFast;
          case Polled(ready, now) =>
            var _ := OnPoll(ready, now);
        }
        assert events[..i + 1][..i] == events[..i];
      }
      assert events[..|events|] == events;
    }
  }

  /** `configure_admission_gate` up to the loop: without the middle proxy sessions go direct; without a
      pool and without fallback the gate is shut, still in direct mode, and no loop runs. */
  method Configure(useMiddleProxy: bool, poolPresent: bool, cfg: Config, ready: bool, now: nat)
      returns (open: bool, route: Route, task: GateTask?)
    ensures task != null <==> useMiddleProxy && (poolPresent || cfg.me2dcFallback)
    ensures task == null ==> route == Direct && open == !useMiddleProxy
    ensures task != null ==>
      fresh(task) && task.View() == Started(cfg, ready, now) && open == task.gateOpen && route == task.routeMode
  {
    if useMiddleProxy {
      if poolPresent || cfg.me2dcFallback {
        task := new GateTask(cfg, ready, now);
        open, route := task.gateOpen, task.routeMode;
      } else {
        open, route, task := false, Direct, null;
      }
    } else {
      open, route, task := true, Direct, null;
    }
  }

  // ----- runs -----

  /** What the latest poll, the initial one included, found. */
  function LastReady(initial: bool, events: seq<Event>): bool {
    if events == [] then initial
    else if events[|events| - 1].Polled? then events[|events| - 1].ready
    else LastReady(initial, events[..|events| - 1])
  }

  /** Whether any poll so far found the pool ready. */
  predicate EverReady(initial: bool, events: seq<Event>) {
    initial || exists i :: 0 <= i < |events| && events[i].Polled? && events[i].ready
  }

  /** At every loop head what is published is what the loop believes; sessions are let in through the
      middle route exactly when the latest poll was ready, direct routing means open with the latest
      poll not ready, and a shut gate keeps the middle route. */
  lemma {:induction false} GateFollowsReadiness(cfg: Config, initial: bool, now: nat, events: seq<Event>)
    ensures
      var g := RunFrom(Started(cfg, initial, now), events);
      && g.sentOpen == g.open && g.setRoute == g.route
      && (g.open && g.route == Middle <==> LastReady(initial, events))
      && (g.route == Direct ==> g.open && !LastReady(initial, events))
      && (!g.open ==> g.route == Middle)
  {
    if events != [] {
      GateFollowsReadiness(cfg, initial, now, events[..|events| - 1]);
    }
  }

  lemma {:induction false} ReadyObservedIsEverReady(cfg: Config, initial: bool, now: nat, events: seq<Event>)
    ensures RunFrom(Started(cfg, initial, now), events).readyObserved <==> EverReady(initial, events)
  {
    if events != [] {
      var before, e := events[..|events| - 1], events[|events| - 1];
      ReadyObservedIsEverReady(cfg, initial, now, before);
      if EverReady(initial, before) && !initial {
        var i :| 0 <= i < |before| && before[i].Polled? && before[i].ready;
        assert events[i].Polled? && events[i].ready;
      }
      if EverReady(initial, events) && !initial && !(e.Polled? && e.ready) {
        var i :| 0 <= i < |events| && events[i].Polled? && events[i].ready;
        assert before[i].Polled? && before[i].ready;
      }
    }
  }

  /** Polls from position `i` on were all not ready, the first at instant `since`, and one before was ready. */
  ghost predicate OutageFrom(initial: bool, events: seq<Event>, i: nat, since: nat) {
    && i < |events| && events[i] == Polled(false, since)
    && (forall j :: i <= j < |events| && events[j].Polled? ==> !events[j].ready)
    && EverReady(initial, events[..i])
  }

  lemma OutageExtends(initial: bool, events: seq<Event>, i: nat, since: nat, e: Event)
    requires OutageFrom(initial, events, i, since) && (e.Polled? ==> !e.ready)
    ensures OutageFrom(initial, events + [e], i, since)
  {
    assert (events + [e])[..i] == events[..i];
  }

  /** Once readiness was seen, the remembered start of an outage is the instant of a real poll that
      opened an unbroken stretch of not-ready polls. */
  lemma {:induction false} OutageIsReal(cfg: Config, initial: bool, now: nat, events: seq<Event>)
    ensures
      var g := RunFrom(Started(cfg, initial, now), events);
      g.readyObserved && g.notReadySince.Some? ==>
        exists i :: OutageFrom(initial, events, i, g.notReadySince.value)
  {
    if events != [] {
      var before, e := events[..|events| - 1], events[|events| - 1];
      OutageIsReal(cfg, initial, now, before);
      ReadyObservedIsEverReady(cfg, initial, now, before);
      var g, g' := RunFrom(Started(cfg, initial, now), before), RunFrom(Started(cfg, initial, now), events);
      assert events == before + [e];
      if g'.readyObserved && g'.notReadySince.Some? {
        if g.notReadySince.Some? {
          var i :| OutageFrom(initial, before, i, g.notReadySince.value);
          OutageExtends(initial, before, i, g.notReadySince.value, e);
        } else {
          assert events[..|before|] == before;
          assert OutageFrom(initial, events, |before|, g'.notReadySince.value);
        }
      }
    }
  }

  /** A strict-grace fallback is only decided after some poll was ready, and after an unbroken stretch of
      not-ready polls longer than six seconds. The eighty-second startup grace never decides. */
  lemma StrictGraceNeedsAnOutage(cfg: Config, initial: bool, start: nat, events: seq<Event>, ready: bool, now: nat)
    requires VerdictOf(RunFrom(Started(cfg, initial, start), events), ready, now).reason == Some(StrictGraceFallback)
    ensures EverReady(initial, events)
    ensures exists i: nat, since: nat ::
      OutageFrom(initial, events + [Polled(ready, now)], i, since) && since + RUNTIME_FALLBACK_AFTER < now
  {
    var g := RunFrom(Started(cfg, initial, start), events);
    ReadyObservedIsEverReady(cfg, initial, start, events);
    OutageIsReal(cfg, initial, start, events);
    var i :| OutageFrom(initial, events, i, g.notReadySince.value);
    OutageExtends(initial, events, i, g.notReadySince.value, Polled(ready, now));
  }

  // ----- when strict grace does decide -----

  /** The configuration in force after some events. */
  function LastConfig(cfg: Config, events: seq<Event>): Config {
    if events == [] then cfg
    else if events[|events| - 1].Reconfigured? then events[|events| - 1].cfg
    else LastConfig(cfg, events[..|events| - 1])
  }

  /** Neither startup nor fast fallback would answer a not-ready poll. */
  ghost predicate StrictThen(cfg: Config, initial: bool, events: seq<Event>) {
    var now := LastConfig(cfg, events);
    !(now.me2dcFallback && !EverReady(initial, events)) && !(now.me2dcFallback && now.me2dcFast)
  }

  /** The instant of the first poll of the trailing not-ready stretch that neither startup nor fast fallback
      answered. */
  ghost function StrictStart(cfg: Config, initial: bool, events: seq<Event>): Option<nat> {
    if events == [] then None
    else
      var before, e := events[..|events| - 1], events[|events| - 1];
      if e.Reconfigured? then StrictStart(cfg, initial, before)
      else if e.ready then None
      else if StrictStart(cfg, initial, before).Some? then StrictStart(cfg, initial, before)
      else if StrictThen(cfg, initial, before) then Some(e.now)
      else None
  }

  lemma {:induction false} ConfigIsRemembered(cfg: Config, initial: bool, start: nat, events: seq<Event>)
    ensures
      var g, now := RunFrom(Started(cfg, initial, start), events), LastConfig(cfg, events);
      g.fallback == now.me2dcFallback && g.fast == (now.me2dcFallback && now.me2dcFast)
  {
    if events != [] {
      ConfigIsRemembered(cfg, initial, start, events[..|events| - 1]);
    }
  }

  lemma {:induction false} StrictStartIsRemembered(cfg: Config, initial: bool, start: nat, events: seq<Event>)
    ensures
      var g := RunFrom(Started(cfg, initial, start), events);
      g.readyObserved ==> g.notReadySince == StrictStart(cfg, initial, events)
  {
    if events != [] {
      var before := events[..|events| - 1];
      StrictStartIsRemembered(cfg, initial, start, before);
      ReadyObservedIsEverReady(cfg, initial, start, before);
      ConfigIsRemembered(cfg, initial, start, before);
    }
  }

  /** The loop's first decision, as published: open when the pool is ready or fallback is on, direct exactly in the
      second case. */
  lemma InitialDecision(cfg: Config, ready: bool, now: nat)
    ensures
      var v, g := InitialVerdict(cfg, ready), Started(cfg, ready, now);
      && v == (if ready then Verdict(true, Middle, None)
               else if cfg.me2dcFallback then Verdict(true, Direct, Some(StartupDirectFallback))
               else Verdict(false, Middle, None))
      && g.sentOpen == (ready || cfg.me2dcFallback) && (g.setRoute == Direct <==> !ready && cfg.me2dcFallback)
  {
  }

  /** In every run, from the events alone, what a poll decides and publishes. A poll that is not ready opens the gate on
      the direct route if and only if fallback is on and either no poll was ever ready, or fast fallback is on, or the
      outage's first poll that fast fallback did not answer is more than six seconds old; the reason is the first of
      these that applies. Any other poll keeps the middle route, open if and only if it is ready. */
  lemma PollDecidedByRun(cfg: Config, initial: bool, start: nat, events: seq<Event>, ready: bool, now: nat)
    ensures
      var inForce, since := LastConfig(cfg, events), StrictStart(cfg, initial, events);
      var direct := !ready && inForce.me2dcFallback
        && (!EverReady(initial, events) || inForce.me2dcFast || (since.Some? && since.value + 6_000 < now));
      var g := RunFrom(Started(cfg, initial, start), events);
      var g' := RunFrom(Started(cfg, initial, start), events + [Polled(ready, now)]);
      && g'.open == g'.sentOpen == (ready || direct)
      && g'.route == g'.setRoute == (if direct then Direct else Middle)
      && VerdictOf(g, ready, now).reason ==
         (if !direct then None
          else if !EverReady(initial, events) then Some(StartupDirectFallback)
          else if inForce.me2dcFast then Some(FastNotReadyFallback)
          else Some(StrictGraceFallback))
  {
    StrictStartIsRemembered(cfg, initial, start, events);
    ReadyObservedIsEverReady(cfg, initial, start, events);
    ConfigIsRemembered(cfg, initial, start, events);
    GateFollowsReadiness(cfg, initial, start, events);
    assert (events + [Polled(ready, now)])[..|events|] == events;
  }

  /** In every run, whatever is reconfigured when, a not-ready poll decides strict grace if and only if fallback is
      on and fast fallback off, readiness was seen before, and the first poll of the outage that fast fallback did
      not answer is more than six seconds ago. */
  lemma StrictGraceIff(cfg: Config, initial: bool, start: nat, events: seq<Event>, now: nat)
    ensures
      var g, inForce := RunFrom(Started(cfg, initial, start), events), LastConfig(cfg, events);
      VerdictOf(g, false, now).reason == Some(StrictGraceFallback) <==>
        && inForce.me2dcFallback && !inForce.me2dcFast
        && EverReady(initial, events)
        && StrictStart(cfg, initial, events).Some?
        && StrictStart(cfg, initial, events).value + RUNTIME_FALLBACK_AFTER < now
  {
    StrictStartIsRemembered(cfg, initial, start, events);
    ReadyObservedIsEverReady(cfg, initial, start, events);
    ConfigIsRemembered(cfg, initial, start, events);
  }
}
