/** The conntrack pressure controller: hysteresis over sampled load, a refilled delete budget, and the
    worker loop that drives both. Samples, delete outcomes and probe results are inputs. */
module Conntrack {
  import opened Wrappers

  const PRESSURE_RELEASE_TICKS: nat := 3

  type U32 = n: nat | n < 0x1_0000_0000

  datatype Config = Config(
    inlineControl: bool, deleteBudgetPerSec: nat, highPct: nat, lowPct: nat, maxConnections: U32)

  datatype Support = Support(backend: bool, capNetAdmin: bool, conntrackBinary: bool)

  predicate EffectivelyEnabled(cfg: Config, support: Support) {
    cfg.inlineControl && support.capNetAdmin && support.backend && support.conntrackBinary
  }

  datatype Reason = NormalEof | Timeout | Pressure | Reset | Other

  datatype Outcome = Deleted | NotFound | Error

  /** What a tick reads: live connections, descriptor use, and two ever-growing totals. */
  datatype Reading = Reading(connections: nat, fdPct: Option<nat>, acceptTimeouts: nat, queueFull: nat)

  datatype Event =
    | ConfigChanged(cfg: Config, support: Support)
    | Closed(reason: Reason, outcome: Outcome)
    | Tick(reading: Reading)

  datatype Sample = Sample(connPct: Option<nat>, fdPct: Option<nat>, acceptDelta: nat, queueDelta: nat)

  /** The worker's variables with the flags and counters it publishes. */
  datatype Worker = Worker(
    cfg: Config, enabled: bool, tokens: nat,
    active: bool, lowStreak: nat, prevAccept: nat, prevQueue: nat,
    sharedFlag: bool, statsFlag: bool,
    attempts: nat, deleted: nat, notFound: nat, errors: nat)

  function SatMul(a: nat, b: nat): nat {
    if a * b <= U64_MAX then a * b else U64_MAX
  }

  /** Connections as a percentage of the configured maximum, capped at 100. */
  function ConnPct(cfg: Config, connections: nat): Option<nat> {
    if cfg.maxConnections == 0 then None
    else
      var pct := SatMul(connections, 100) / cfg.maxConnections;
      Some(if pct < 100 then pct else 100)
  }

  function SampleOf(w: Worker, r: Reading): Sample {
    Sample(ConnPct(w.cfg, r.connections), r.fdPct,
           SatSub(r.acceptTimeouts, w.prevAccept), SatSub(r.queueFull, w.prevQueue))
  }

  predicate HighHit(cfg: Config, s: Sample) {
    || (s.connPct.Some? && s.connPct.value >= cfg.highPct)
    || (s.fdPct.Some? && s.fdPct.value >= cfg.highPct)
    || s.acceptDelta > 0
    || s.queueDelta > 0
  }

  predicate LowClear(cfg: Config, s: Sample) {
    && (s.connPct.Some? ==> s.connPct.value <= cfg.lowPct)
    && (s.fdPct.Some? ==> s.fdPct.value <= cfg.lowPct)
    && s.acceptDelta == 0
    && s.queueDelta == 0
  }

  predicate Deletable(reason: Reason) {
    reason == Timeout || reason == Pressure || reason == Reset
  }

  // ----- one event -----

  function Flags(w: Worker, on: bool): Worker {
    w.(sharedFlag := on, statsFlag := on)
  }

  function AfterConfig(w: Worker, cfg: Config, support: Support): Worker {
    var on := EffectivelyEnabled(cfg, support);
    Flags(w.(cfg := cfg, enabled := on, tokens := cfg.deleteBudgetPerSec), on && w.active)
  }

  /** Whether a closed connection is looked up for deletion. */
  predicate Attempts(w: Worker, reason: Reason) {
    w.enabled && w.active && Deletable(reason) && w.tokens > 0
  }

  function AfterClosed(w: Worker, reason: Reason, outcome: Outcome): Worker {
    if !Attempts(w, reason) then w
    else
      var w' := w.(attempts := w.attempts + 1, tokens := w.tokens - 1);
      match outcome
      case Deleted => w'.(deleted := w.deleted + 1)
      case NotFound => w'.(notFound := w.notFound + 1)
      case Error => w'.(errors := w.errors + 1)
  }

  function UpdatedPressure(w: Worker, s: Sample): Worker {
    if !w.enabled then
      if w.active then Flags(w.(active := false, lowStreak := 0), false) else w
    else if !w.active && HighHit(w.cfg, s) then Flags(w.(active := true, lowStreak := 0), true)
    else if w.active && LowClear(w.cfg, s) then
      if w.lowStreak + 1 >= PRESSURE_RELEASE_TICKS then Flags(w.(active := false, lowStreak := 0), false)
      else w.(lowStreak := w.lowStreak + 1)
    else w.(lowStreak := 0)
  }

  function AfterTick(w: Worker, r: Reading): Worker {
    UpdatedPressure(
      w.(tokens := w.cfg.deleteBudgetPerSec, prevAccept := r.acceptTimeouts, prevQueue := r.queueFull),
      SampleOf(w, r))
  }

  function After(w: Worker, e: Event): Worker {
    match e
    case ConfigChanged(cfg, support) => AfterConfig(w, cfg, support)
    case Closed(reason, outcome) => AfterClosed(w, reason, outcome)
    case Tick(r) => AfterTick(w, r)
  }

  function Started(cfg: Config, support: Support, accept: nat, queueFull: nat): Worker {
    Worker(cfg, EffectivelyEnabled(cfg, support), cfg.deleteBudgetPerSec,
           false, 0, accept, queueFull, false, false, 0, 0, 0, 0)
  }

  /** The worker at the loop head after a list of events. */
  function RunFrom(w: Worker, events: seq<Event>): Worker {
    if events == [] then w
    else After(RunFrom(w, events[..|events| - 1]), events[|events| - 1])
  }

  // ----- the worker object -----

  class ConntrackWorker {
    var cfg: Config
    var effectiveEnabled: bool
    var deleteBudgetTokens: nat
    // PressureState
    var active: bool
    var lowStreak: nat
    var prevAcceptTotal: nat
    var prevQueueTotal: nat
    // published flags and counters
    var sharedPressureFlag: bool
    var statsPressureFlag: bool
    var deleteAttempts: nat
    var deleteSuccesses: nat
    var deleteNotFound: nat
    var deleteErrors: nat

    function View(): Worker
      reads this
    {
      Worker(cfg, effectiveEnabled, deleteBudgetTokens, active, lowStreak, prevAcceptTotal, prevQueueTotal,
             sharedPressureFlag, statsPressureFlag, deleteAttempts, deleteSuccesses, deleteNotFound, deleteErrors)
    }

    constructor (cfg: Config, support: Support, accept: nat, queueFull: nat)
      ensures View() == Started(cfg, support, accept, queueFull)
    {
      this.cfg := cfg;
      effectiveEnabled := EffectivelyEnabled(cfg, support);
      deleteBudgetTokens := cfg.deleteBudgetPerSec;
      active, lowStreak, prevAcceptTotal, prevQueueTotal := false, 0, accept, queueFull;
      sharedPressureFlag, statsPressureFlag := false, false;
      deleteAttempts, deleteSuccesses, deleteNotFound, deleteErrors := 0, 0, 0, 0;
    }

    method SetPressureActive(on: bool)
      modifies this
      ensures View() == Flags(old(View()), on)
    {
      sharedPressureFlag := on;
      statsPressureFlag := on;
    }

    /** `collect_pressure_sample`: read the totals and remember them for the next difference. */
    method CollectPressureSample(r: Reading) returns (sample: Sample)
      modifies this
      ensures sample == SampleOf(old(View()), r)
      ensures View() == old(View()).(prevAccept := r.acceptTimeouts, prevQueue := r.queueFull)
    {
      var acceptDelta := SatSub(r.acceptTimeouts, prevAcceptTotal);
      prevAcceptTotal := r.acceptTimeouts;
      var queueDelta := SatSub(r.queueFull, prevQueueTotal);
      prevQueueTotal := r.queueFull;
      sample := Sample(ConnPct(cfg, r.connections), r.fdPct, acceptDelta, queueDelta);
    }

    /** `update_pressure_state`. */
    method UpdatePressureState(sample: Sample)
      modifies this
      ensures View() == UpdatedPressure(old(View()), sample)
    {
      if !effectiveEnabled {
        if active {
          active, lowStreak := false, 0;
          SetPressureActive(false);
        }
        return;
      }
      if !active && HighHit(cfg, sample) {
        active, lowStreak := true, 0;
        SetPressureActive(true);
        return;
      }
      if active && LowClear(cfg, sample) {
        lowStreak := lowStreak + 1;
        if lowStreak >= PRESSURE_RELEASE_TICKS {
          active, lowStreak := false, 0;
          SetPressureActive(false);
        }
        return;
      }
      lowStreak := 0;
    }

    /** `apply_runtime_state` with the probe result of a new configuration. */
    method OnConfigChanged(newCfg: Config, support: Support)
      modifies this
      ensures View() == AfterConfig(old(View()), newCfg, support)
    {
      cfg := newCfg;
      effectiveEnabled := EffectivelyEnabled(cfg, support);
      deleteBudgetTokens := cfg.deleteBudgetPerSec;
      SetPressureActive(effectiveEnabled && active);
    }

    method OnClosed(reason: Reason, outcome: Outcome)
      modifies this
      ensures View() == AfterClosed(old(View()), reason, outcome)
    {
      if !effectiveEnabled || !active || !Deletable(reason) || deleteBudgetTokens == 0 {
        return;
      }
      deleteAttempts := deleteAttempts + 1;
      deleteBudgetTokens := SatSub(deleteBudgetTokens, 1);
      match outcome {
        case Deleted => deleteSuccesses := deleteSuccesses + 1;
        case NotFound => deleteNotFound := deleteNotFound + 1;
        case Error => deleteErrors := deleteErrors + 1;
      }
    }

    method OnTick(r: Reading)
      modifies this
      ensures View() == AfterTick(old(View()), r)
    {
      deleteBudgetTokens := cfg.deleteBudgetPerSec;
      var sample := CollectPressureSample(r);
      UpdatePressureState(sample);
    }

    /** The worker loop over the events it receives, then its shutdown. */
    method Run(events: seq<Event>)
      modifies this
      ensures View() == Flags(RunFrom(old(View()), events), false)
    {
      for i := 0 to |events|
        invariant View() == RunFrom(old(View()), events[..i])
      {
        match events[i] {
          case ConfigChanged(newCfg, support) => OnConfigChanged(newCfg, support);
          case Closed(reason, outcome) => OnClosed(reason, outcome);
          case Tick(r) => OnTick(r);
        }
        assert events[..i + 1][..i] == events[..i];
      }
      assert events[..|events|] == events;
      SetPressureActive(false);
    }
  }

  // ----- what a reading means -----

  /** Connections are at least the high share of the maximum, or descriptor use is, or a total has grown. */
  predicate Overloaded(w: Worker, r: Reading) {
    || (w.cfg.maxConnections > 0 && w.cfg.highPct <= 100 && r.connections * 100 >= w.cfg.highPct * w.cfg.maxConnections)
    || (r.fdPct.Some? && r.fdPct.value >= w.cfg.highPct)
    || r.acceptTimeouts > w.prevAccept
    || r.queueFull > w.prevQueue
  }

  /** Connections are below the share one percent above the low one, descriptor use is at most the low one, and no
      total has grown. */
  predicate Calm(w: Worker, r: Reading) {
    && (w.cfg.maxConnections > 0 ==>
          w.cfg.lowPct >= 100 || r.connections * 100 < (w.cfg.lowPct + 1) * w.cfg.maxConnections)
    && (r.fdPct.Some? ==> r.fdPct.value <= w.cfg.lowPct)
    && r.acceptTimeouts <= w.prevAccept
    && r.queueFull <= w.prevQueue
  }

  /** The sampled percentages and differences decide both watermarks as the reading itself does. */
  lemma WatermarksFromReading(w: Worker, r: Reading)
    ensures HighHit(w.cfg, SampleOf(w, r)) <==> Overloaded(w, r)
    ensures LowClear(w.cfg, SampleOf(w, r)) <==> Calm(w, r)
  {
    if w.cfg.maxConnections > 0 {
      if w.cfg.highPct <= 100 {
        WatermarksAreExact(w.cfg, r.connections, w.cfg.highPct);
      }
      if w.cfg.lowPct <= 100 {
        WatermarksAreExact(w.cfg, r.connections, w.cfg.lowPct);
      }
    }
  }

  // ----- what a run remembers -----

  /** The configuration and probe result in force. */
  function LastSetup(cfg: Config, support: Support, events: seq<Event>): (Config, Support) {
    if events == [] then (cfg, support)
    else
      var e := events[|events| - 1];
      if e.ConfigChanged? then (e.cfg, e.support) else LastSetup(cfg, support, events[..|events| - 1])
  }

  /** The totals the latest tick read. */
  function LastTotals(a: nat, q: nat, events: seq<Event>): (nat, nat) {
    if events == [] then (a, q)
    else
      var e := events[|events| - 1];
      if e.Tick? then (e.reading.acceptTimeouts, e.reading.queueFull) else LastTotals(a, q, events[..|events| - 1])
  }

  /** The worker is enabled exactly when the configuration in force asks for it and the probe found backend, capability
      and binary; it compares totals with those of the latest tick. */
  lemma {:induction false} SetupIsRemembered(cfg: Config, support: Support, a: nat, q: nat, events: seq<Event>)
    ensures
      var w := RunFrom(Started(cfg, support, a, q), events);
      var (c, s) := LastSetup(cfg, support, events);
      && w.cfg == c && (w.enabled <==> c.inlineControl && s.backend && s.capNetAdmin && s.conntrackBinary)
      && (w.prevAccept, w.prevQueue) == LastTotals(a, q, events)
  {
    if events != [] {
      SetupIsRemembered(cfg, support, a, q, events[..|events| - 1]);
    }
  }

  // ----- hysteresis over runs -----

  /** At every loop head both published flags say: effectively enabled and under pressure. */
  lemma {:induction false} FlagsTellPressure(cfg: Config, support: Support, a: nat, q: nat, events: seq<Event>)
    ensures
      var w := RunFrom(Started(cfg, support, a, q), events);
      w.sharedFlag == w.statsFlag == (w.enabled && w.active)
  {
    if events != [] {
      FlagsTellPressure(cfg, support, a, q, events[..|events| - 1]);
    }
  }

  /** How many of the last ticks in a row were low-clear. */
  function TrailingLow(ticks: seq<bool>): nat {
    if ticks == [] || !ticks[|ticks| - 1] then 0 else 1 + TrailingLow(ticks[..|ticks| - 1])
  }

  /** For each tick since pressure was last activated, whether it was low-clear. */
  function SinceActivation(w: Worker, events: seq<Event>): seq<bool> {
    if events == [] then []
    else
      var before, e := events[..|events| - 1], events[|events| - 1];
      var at := RunFrom(w, before);
      if !e.Tick? then SinceActivation(w, before)
      else if at.active && After(at, e).active then
        SinceActivation(w, before) + [Calm(at, e.reading)]
      else []
  }

  lemma TrailingLowAppend(ticks: seq<bool>, low: bool)
    ensures TrailingLow(ticks + [low]) == if low then 1 + TrailingLow(ticks) else 0
  {
    assert (ticks + [low])[..|ticks|] == ticks;
  }

  /** The streak counter is the trailing run of low-clear ticks since activation, always below three,
      and zero while there is no pressure. */
  lemma {:induction false} LowStreakIsTrailingRun(
      cfg: Config, support: Support, a: nat, q: nat, events: seq<Event>)
    ensures
      var start := Started(cfg, support, a, q);
      var w := RunFrom(start, events);
      && w.lowStreak < PRESSURE_RELEASE_TICKS
      && w.lowStreak == TrailingLow(SinceActivation(start, events))
      && (!w.active ==> w.lowStreak == 0)
  {
    var start := Started(cfg, support, a, q);
    if events != [] {
      var before, e := events[..|events| - 1], events[|events| - 1];
      LowStreakIsTrailingRun(cfg, support, a, q, before);
      var at := RunFrom(start, before);
      if e.Tick? {
        WatermarksFromReading(at, e.reading);
        TrailingLowAppend(SinceActivation(start, before), Calm(at, e.reading));
      }
    }
  }

  /** While enabled, pressure ends at a tick if and only if that tick is the third low-clear one in a
      row since activation. */
  lemma ReleasedOnThirdLowTick(cfg: Config, support: Support, a: nat, q: nat, events: seq<Event>, r: Reading)
    requires
      var w := RunFrom(Started(cfg, support, a, q), events);
      w.enabled && w.active
    ensures
      var start := Started(cfg, support, a, q);
      var w := RunFrom(start, events);
      !After(w, Tick(r)).active <==>
        TrailingLow(SinceActivation(start, events) + [Calm(w, r)]) == 3
  {
    var start := Started(cfg, support, a, q);
    var w := RunFrom(start, events);
    LowStreakIsTrailingRun(cfg, support, a, q, events);
    WatermarksFromReading(w, r);
    TrailingLowAppend(SinceActivation(start, events), Calm(w, r));
  }

  /** An enabled tick over the watermark while there is no pressure. */
  predicate Activates(w: Worker, e: Event) {
    e.Tick? && !w.active && w.enabled && Overloaded(w, e.reading)
  }

  /** A tick under pressure that finds the worker disabled, or the third low-clear one in a row. */
  predicate Releases(w: Worker, e: Event) {
    && e.Tick? && w.active
    && (!w.enabled || (Calm(w, e.reading) && w.lowStreak + 1 >= 3))
  }

  /** Nothing but such a tick begins pressure or ends it. */
  lemma PressureMovesAtTicks(w: Worker, e: Event)
    ensures After(w, e).active <==> Activates(w, e) || (w.active && !Releases(w, e))
  {
    if e.Tick? {
      WatermarksFromReading(w, e.reading);
    }
  }

  /** Event `i` activates pressure and no later one releases it. */
  ghost predicate ActiveSince(w: Worker, events: seq<Event>, i: nat) {
    && i < |events| && Activates(RunFrom(w, events[..i]), events[i])
    && forall j :: i < j < |events| ==> !Releases(RunFrom(w, events[..j]), events[j])
  }

  lemma ActiveSincePush(w: Worker, before: seq<Event>, e: Event, i: nat)
    ensures ActiveSince(w, before + [e], i) <==>
      if i < |before| then ActiveSince(w, before, i) && !Releases(RunFrom(w, before), e)
      else i == |before| && Activates(RunFrom(w, before), e)
    ensures ActiveSince(w, before, i) ==> i < |before|
  {
    hide After, Activates, Releases;
    var events, n := before + [e], |before|;
    assert events[..n] == before && events[n] == e;
    assert forall j :: 0 <= j < n ==> before[..j] == events[..j] && before[j] == events[j];
  }

  /** A run that starts without pressure ends under it if and only if some event activated it and none released it
      since. */
  lemma {:induction false} PressureIff(w: Worker, events: seq<Event>)
    requires !w.active
    ensures RunFrom(w, events).active <==> exists i: nat :: ActiveSince(w, events, i)
  {
    if events != [] {
      hide After, Activates, Releases, ActiveSince;
      var before, e := events[..|events| - 1], events[|events| - 1];
      assert events == before + [e];
      PressureIff(w, before);
      PressureMovesAtTicks(RunFrom(w, before), e);
      forall i: nat {
        ActiveSincePush(w, before, e, i);
      }
      assert ActiveSince(w, events, |before|) <==> Activates(RunFrom(w, before), e);
    }
  }

  // ----- the delete budget over runs -----

  /** An attempt is made exactly on a deletable close while enabled, under pressure and in budget; it
      costs one token and books one outcome. */
  lemma AttemptsOnlyUnderPressure(w: Worker, e: Event)
    ensures
      var w' := After(w, e);
      var n := if e.Closed? && w.enabled && w.active && Deletable(e.reason) && w.tokens > 0 then 1 else 0;
      && w'.attempts == w.attempts + n
      && w'.deleted + w'.notFound + w'.errors == w.deleted + w.notFound + w.errors + n
      && (e.Closed? ==> w'.tokens == w.tokens - n)
  {
  }

  /** What a run has granted: the first budget and one per refill. */
  function Granted(w: Worker, events: seq<Event>): nat {
    if events == [] then w.tokens
    else
      var before, e := events[..|events| - 1], events[|events| - 1];
      Granted(w, before) +
      match e
      case ConfigChanged(cfg, _) => cfg.deleteBudgetPerSec
      case Closed(_, _) => 0
      case Tick(_) => RunFrom(w, before).cfg.deleteBudgetPerSec
  }

  /** The budget the last refill granted. */
  function LastGrant(w: Worker, events: seq<Event>): nat {
    if events == [] then w.tokens
    else
      var before, e := events[..|events| - 1], events[|events| - 1];
      match e
      case ConfigChanged(cfg, _) => cfg.deleteBudgetPerSec
      case Closed(_, _) => LastGrant(w, before)
      case Tick(_) => RunFrom(w, before).cfg.deleteBudgetPerSec
  }

  /** Attempts made since the last refill. */
  function AttemptsSinceRefill(w: Worker, events: seq<Event>): nat {
    if events == [] || !events[|events| - 1].Closed? then 0
    else
      var before := events[..|events| - 1];
      AttemptsSinceRefill(w, before) + if Attempts(RunFrom(w, before), events[|events| - 1].reason) then 1 else 0
  }

  /** A connection closed by timeout, pressure or reset while the worker is enabled, under pressure and in budget. */
  predicate Deletes(w: Worker, e: Event) {
    e.Closed? && e.reason in {Timeout, Pressure, Reset} && w.enabled && w.active && w.tokens > 0
  }

  /** The events of a run at which that happens. */
  ghost function AttemptsAt(w: Worker, events: seq<Event>): set<nat> {
    set i: nat | i < |events| && Deletes(RunFrom(w, events[..i]), events[i])
  }

  predicate DeletesWith(w: Worker, e: Event, o: Outcome) {
    Deletes(w, e) && e.outcome == o
  }

  /** Of these, the ones with a given outcome. */
  ghost function AttemptsWith(w: Worker, events: seq<Event>, o: Outcome): set<nat> {
    set i: nat | i < |events| && DeletesWith(RunFrom(w, events[..i]), events[i], o)
  }

  lemma AttemptsPush(w: Worker, before: seq<Event>, e: Event)
    ensures |AttemptsAt(w, before + [e])| == |AttemptsAt(w, before)| + if Deletes(RunFrom(w, before), e) then 1 else 0
  {
    hide RunFrom, Deletes;
    var events, n := before + [e], |before|;
    var here: set<nat> := if Deletes(RunFrom(w, before), e) then {n} else {};
    forall i: nat
      ensures i in AttemptsAt(w, events) <==> i in AttemptsAt(w, before) + here
    {
      if i < n {
        assert events[..i] == before[..i];
      } else if i == n {
        assert events[..n] == before;
      }
    }
    assert AttemptsAt(w, events) == AttemptsAt(w, before) + here;
  }

  lemma OutcomesPush(w: Worker, before: seq<Event>, e: Event, o: Outcome)
    ensures |AttemptsWith(w, before + [e], o)| ==
      |AttemptsWith(w, before, o)| + if DeletesWith(RunFrom(w, before), e, o) then 1 else 0
  {
    hide RunFrom, DeletesWith;
    var events, n := before + [e], |before|;
    var here: set<nat> := if DeletesWith(RunFrom(w, before), e, o) then {n} else {};
    forall i: nat
      ensures i in AttemptsWith(w, events, o) <==> i in AttemptsWith(w, before, o) + here
    {
      if i < n {
        assert events[..i] == before[..i];
      } else if i == n {
        assert events[..n] == before;
      }
    }
    assert AttemptsWith(w, events, o) == AttemptsWith(w, before, o) + here;
  }

  /** Over a run, attempts are exactly those closes: none is made otherwise and none of them is skipped. */
  lemma {:induction false} AttemptsAreThoseCloses(w: Worker, events: seq<Event>)
    ensures RunFrom(w, events).attempts == w.attempts + |AttemptsAt(w, events)|
  {
    if events == [] {
      assert AttemptsAt(w, events) == {};
    } else {
      var before, e := events[..|events| - 1], events[|events| - 1];
      assert events == before + [e];
      AttemptsAreThoseCloses(w, before);
      AttemptsOnlyUnderPressure(RunFrom(w, before), e);
      AttemptsPush(w, before, e);
    }
  }

  /** Which counter an event moves. */
  lemma OutcomeCounted(w: Worker, e: Event)
    ensures
      var w' := After(w, e);
      && w'.deleted == w.deleted + (if DeletesWith(w, e, Deleted) then 1 else 0)
      && w'.notFound == w.notFound + (if DeletesWith(w, e, NotFound) then 1 else 0)
      && w'.errors == w.errors + (if DeletesWith(w, e, Error) then 1 else 0)
  {
  }

  /** Over a run each of the three counters counts exactly the attempts with its own outcome. */
  lemma {:induction false} CountersByOutcome(w: Worker, events: seq<Event>)
    ensures
      var now := RunFrom(w, events);
      && now.deleted == w.deleted + |AttemptsWith(w, events, Deleted)|
      && now.notFound == w.notFound + |AttemptsWith(w, events, NotFound)|
      && now.errors == w.errors + |AttemptsWith(w, events, Error)|
  {
    hide After, DeletesWith;
    if events == [] {
      assert forall o :: AttemptsWith(w, events, o) == {};
    } else {
      var before, e := events[..|events| - 1], events[|events| - 1];
      assert events == before + [e];
      CountersByOutcome(w, before);
      OutcomeCounted(RunFrom(w, before), e);
      OutcomesPush(w, before, e, Deleted);
      OutcomesPush(w, before, e, NotFound);
      OutcomesPush(w, before, e, Error);
    }
  }

  /** What one event does to the tokens. */
  lemma TokensAfter(w: Worker, e: Event)
    ensures After(w, e).tokens ==
      match e
      case ConfigChanged(cfg, _) => cfg.deleteBudgetPerSec
      case Closed(reason, _) => if Attempts(w, reason) then w.tokens - 1 else w.tokens
      case Tick(_) => w.cfg.deleteBudgetPerSec
  {
  }

  /** Between two refills the attempts and the tokens left make up the granted budget. */
  lemma {:induction false} BudgetBetweenRefills(w: Worker, events: seq<Event>)
    ensures AttemptsSinceRefill(w, events) + RunFrom(w, events).tokens == LastGrant(w, events)
    ensures AttemptsSinceRefill(w, events) <= LastGrant(w, events)
  {
    hide After, Attempts;
    if events != [] {
      var before, e := events[..|events| - 1], events[|events| - 1];
      BudgetBetweenRefills(w, before);
      TokensAfter(RunFrom(w, before), e);
    }
  }

  /** Over a run the attempts never exceed what was granted. */
  lemma {:induction false} AttemptsWithinGrants(w: Worker, events: seq<Event>)
    ensures RunFrom(w, events).attempts - w.attempts + RunFrom(w, events).tokens <= Granted(w, events)
  {
    if events != [] {
      AttemptsWithinGrants(w, events[..|events| - 1]);
      AttemptsOnlyUnderPressure(RunFrom(w, events[..|events| - 1]), events[|events| - 1]);
    }
  }

  /** Between events every attempt has exactly one outcome. */
  lemma {:induction false} EveryAttemptHasAnOutcome(w: Worker, events: seq<Event>)
    ensures
      var now := RunFrom(w, events);
      now.attempts - w.attempts == (now.deleted + now.notFound + now.errors) - (w.deleted + w.notFound + w.errors)
  {
    if events != [] {
      EveryAttemptHasAnOutcome(w, events[..|events| - 1]);
      AttemptsOnlyUnderPressure(RunFrom(w, events[..|events| - 1]), events[|events| - 1]);
    }
  }

  // ----- differences over runs -----

  /** The accept-timeout differences the ticks of a run have seen. */
  function AcceptDeltas(w: Worker, events: seq<Event>): nat {
    if events == [] then 0
    else
      var before, e := events[..|events| - 1], events[|events| - 1];
      AcceptDeltas(w, before) + if e.Tick? then SampleOf(RunFrom(w, before), e.reading).acceptDelta else 0
  }

  /** The totals read by the ticks never go down. */
  predicate TotalsGrow(w: Worker, events: seq<Event>) {
    events == [] ||
    var before, e := events[..|events| - 1], events[|events| - 1];
    TotalsGrow(w, before) && (e.Tick? ==> RunFrom(w, before).prevAccept <= e.reading.acceptTimeouts)
  }

  /** Whatever else happens between ticks, every timeout is counted by exactly one tick. */
  lemma {:induction false} EveryTimeoutCountedOnce(w: Worker, events: seq<Event>)
    requires TotalsGrow(w, events)
    ensures w.prevAccept + AcceptDeltas(w, events) == RunFrom(w, events).prevAccept
  {
    if events != [] {
      EveryTimeoutCountedOnce(w, events[..|events| - 1]);
    }
  }

  // ----- the watermarks -----

  lemma MulMono(a: nat, b: nat, m: nat)
    requires a <= b
    ensures a * m <= b * m
  {
  }

  lemma QuotientAtLeast(a: nat, m: nat, q: nat)
    requires m > 0
    ensures a / m >= q <==> a >= q * m
  {
    var d := a / m;
    assert a == d * m + a % m;
    if d >= q {
      MulMono(q, d, m);
    } else {
      MulMono(d + 1, q, m);
    }
  }

  /** The rounded, capped and saturating percentage decides the watermarks as the exact ratio would: the high one
      is hit when connections are at least that share of the maximum, and the low one is cleared when they are
      below the share one percent up. Maxima are 32-bit. */
  lemma WatermarksAreExact(cfg: Config, connections: nat, pct: nat)
    requires cfg.maxConnections > 0 && pct <= 100
    ensures ConnPct(cfg, connections).value >= pct <==> connections * 100 >= pct * cfg.maxConnections
    ensures ConnPct(cfg, connections).value <= pct <==> pct == 100 || connections * 100 < (pct + 1) * cfg.maxConnections
  {
    PctAtLeast(cfg, connections, pct);
    if pct < 100 {
      PctAtLeast(cfg, connections, pct + 1);
    }
  }

  lemma PctAtLeast(cfg: Config, connections: nat, pct: nat)
    requires cfg.maxConnections > 0 && pct <= 100
    ensures ConnPct(cfg, connections).value >= pct <==> connections * 100 >= pct * cfg.maxConnections
  {
    var scaled := SatMul(connections, 100);
    QuotientAtLeast(scaled, cfg.maxConnections, pct);
    MulMono(pct, 100, cfg.maxConnections);
  }
}
