/** The tracking state machine (packages/location-core/src/state-machine.ts). */
module Tracking {
  import opened Basics
  import opened Limits
  import opened Battery

  // ---- vocabulary --------------------------------------------------------

  datatype TrackingState =
    | Disabled | PermissionRequired | Stationary | Passive | Walking | Transit
    | Live | LowBattery | CriticalBattery | Offline | Stale

  datatype Connectivity = Online | Disconnected
  datatype SharingConsent = NeverEnabled | Sharing | Paused | SharingOff
  datatype Motion = MotionUnknown | MotionStationary | MotionWalking | MotionRunning | MotionCycling | MotionAutomotive
  datatype Authorization = NotDetermined | Denied | Restricted | WhenInUse | Always

  datatype Permission = Permission(
    authorization: Authorization,
    locationServicesEnabled: bool,
    preciseLocationEnabled: bool,
    notificationsEnabled: bool,
    backgroundRefreshEnabled: bool,
    foregroundServicePermissionGranted: Option<bool>,
    batteryOptimizationIgnored: Option<bool>
  )

  datatype LiveSessionRejection =
    | RejectedSharingDisabled | RejectedPermissionRequired | RejectedCriticalBattery | AlreadyActive | InvalidDuration

  datatype LiveSessionEndReason =
    | Expired | Stopped | EndedCriticalBattery | EndedSharingDisabled | EndedPermissionRequired

  datatype LiveSession = LiveSession(
    sessionId: string,
    startedAtMs: real,
    expiresAtMs: real,
    grantedDurationSeconds: int,
    requestedDurationSeconds: Num,
    ambientStateAtStart: TrackingState
  )

  const LIVE_SESSION_LOW_BATTERY_MAX_SECONDS := 300
  const MAX_STALE_SECONDS_RANGE := Range(300.0, 86400.0)
  const DEFAULT_MAX_STALE_SECONDS := 3600.0
  const UNKNOWN_PERMISSION := Permission(NotDetermined, false, false, false, false, None, None)

  datatype Context = Context(
    state: TrackingState,
    sharing: SharingConsent,
    permission: Permission,
    motion: Motion,
    batteryLevel: Option<Num>,
    batteryTier: BatteryTier,
    isCharging: Option<bool>,
    isLowPowerMode: bool,
    connectivity: Connectivity,
    liveSession: Option<LiveSession>,
    lastFixAtMs: Option<real>,
    enabledAtMs: Option<real>,
    isStale: bool,
    maxStaleSeconds: real,
    nowMs: real,
    lastLiveRejection: Option<LiveSessionRejection>,
    lastLiveEndReason: Option<LiveSessionEndReason>
  )

  datatype Change =
    | PermissionChanged(permission: Permission)
    | SharingResumed
    | SharingPaused
    | SharingDisabled
    | MotionChanged(motion: Motion)
    | BatteryChanged(level: Option<Num>, isCharging: Option<bool>, isLowPowerMode: bool)
    | ConnectivityChanged(online: bool)
    | LiveSessionStarted(sessionId: string, requestedDurationSeconds: Num)
    | LiveSessionStopped
    | LocationRecorded
    | ConfigChanged(maxStaleSeconds: Num)
    | Tick

  datatype Event = Event(change: Change, atMs: Num)

  datatype ContextInit = ContextInit(
    nowMs: real,
    sharing: Option<SharingConsent>,
    permission: Option<Permission>,
    motion: Option<Motion>,
    batteryLevel: Option<Num>,
    batteryTier: Option<BatteryTier>,
    isCharging: Option<bool>,
    isLowPowerMode: Option<bool>,
    connectivity: Option<Connectivity>,
    liveSession: Option<LiveSession>,
    lastFixAtMs: Option<real>,
    enabledAtMs: Option<real>,
    maxStaleSeconds: Option<Num>
  )

  // ---- the reducer -------------------------------------------------------

  function OrElse<T>(x: Option<T>, fallback: T): T {
    if x.Some? then x.value else fallback
  }

  predicate IsPermissionSufficient(p: Permission) {
    p.locationServicesEnabled && (p.authorization == Always || p.authorization == WhenInUse)
  }

  function AmbientStateFor(motion: Motion): TrackingState {
    match motion
    case MotionStationary => Stationary
    case MotionWalking => Walking
    case MotionRunning => Walking
    case MotionCycling => Transit
    case MotionAutomotive => Transit
    case MotionUnknown => Passive
  }

  function Tier(ctx: Context): BatteryTier {
    EffectiveBatteryTier(ctx.batteryTier, ctx.isLowPowerMode)
  }

  function GrantedLiveSessionSeconds(requested: real, tier: BatteryTier): int {
    var ceiling := if tier == Low then LIVE_SESSION_LOW_BATTERY_MAX_SECONDS else MAX_LIVE_SESSION_SECONDS;
    var wanted := if requested.Floor >= 1 then requested.Floor else 1;
    if wanted <= ceiling then wanted else ceiling
  }

  function Rejection(ctx: Context, requested: Num): Option<LiveSessionRejection> {
    if ctx.sharing != Sharing then Some(RejectedSharingDisabled)
    else if !IsPermissionSufficient(ctx.permission) then Some(RejectedPermissionRequired)
    else if Tier(ctx) == Critical then Some(RejectedCriticalBattery)
    else if ctx.liveSession.Some? then Some(AlreadyActive)
    else if requested.NonFinite? || requested.value <= 0.0 then Some(InvalidDuration)
    else None
  }

  function ExpireLiveSession(ctx: Context, nowMs: real): Context {
    if ctx.liveSession.None? || nowMs < ctx.liveSession.value.expiresAtMs then ctx
    else ctx.(liveSession := None, lastLiveEndReason := Some(Expired))
  }

  function StartLiveSession(ctx: Context, sessionId: string, requested: Num, nowMs: real): Context {
    var rejection := Rejection(ctx, requested);
    if rejection.Some? then ctx.(lastLiveRejection := rejection)
    else
      var granted := GrantedLiveSessionSeconds(requested.value, Tier(ctx));
      ctx.(
        lastLiveRejection := None,
        lastLiveEndReason := None,
        liveSession := Some(LiveSession(
          sessionId, nowMs, nowMs + granted as real * 1000.0, granted, requested, AmbientStateFor(ctx.motion))))
  }

  function ApplyChange(ctx: Context, change: Change, nowMs: real): Context {
    match change
    case PermissionChanged(permission) => ctx.(permission := permission)
    case SharingResumed => ctx.(sharing := Sharing)
    case SharingPaused => ctx.(sharing := Paused)
    case SharingDisabled => ctx.(sharing := SharingOff)
    case MotionChanged(motion) => ctx.(motion := motion)
    case BatteryChanged(level, isCharging, isLowPowerMode) =>
      ctx.(
        batteryLevel := level,
        batteryTier := NextBatteryTier(ctx.batteryTier, level),
        isCharging := isCharging,
        isLowPowerMode := isLowPowerMode)
    case ConnectivityChanged(online) => ctx.(connectivity := if online then Online else Disconnected)
    case LiveSessionStarted(sessionId, requested) => StartLiveSession(ctx, sessionId, requested, nowMs)
    case LiveSessionStopped =>
      if ctx.liveSession.None? then ctx else ctx.(liveSession := None, lastLiveEndReason := Some(Stopped))
    case LocationRecorded => ctx.(lastFixAtMs := Some(nowMs))
    case ConfigChanged(maxStaleSeconds) =>
      ctx.(maxStaleSeconds := ClampInto(maxStaleSeconds, MAX_STALE_SECONDS_RANGE))
    case Tick => ctx
  }

  /** Why a running session may not continue, if so. */
  function SessionEnd(ctx: Context): Option<LiveSessionEndReason> {
    if ctx.liveSession.None? then None
    else if ctx.sharing != Sharing then Some(EndedSharingDisabled)
    else if !IsPermissionSufficient(ctx.permission) then Some(EndedPermissionRequired)
    else if Tier(ctx) == Critical then Some(EndedCriticalBattery)
    else None
  }

  /** Both consents: the user's and the operating system's. */
  predicate Active(ctx: Context) {
    ctx.sharing == Sharing && IsPermissionSufficient(ctx.permission)
  }

  function EndSession(ctx: Context): Context {
    var end := SessionEnd(ctx);
    if end.Some? then ctx.(liveSession := None, lastLiveEndReason := end) else ctx
  }

  /** The precedence ladder. */
  function Ladder(ctx: Context, isStale: bool): TrackingState {
    if ctx.sharing != Sharing then Disabled
    else if !IsPermissionSufficient(ctx.permission) then PermissionRequired
    else if Tier(ctx) == Critical then CriticalBattery
    else if ctx.liveSession.Some? then Live
    else if Tier(ctx) == Low then LowBattery
    else if ctx.connectivity == Disconnected then Offline
    else if isStale then Stale
    else AmbientStateFor(ctx.motion)
  }

  function EnabledAt(ctx: Context, nowMs: real): Option<real> {
    if !Active(ctx) then None else Some(OrElse(ctx.enabledAtMs, nowMs))
  }

  /** Staleness is measured from the last fix, or before the first one from when tracking was enabled. */
  predicate Staleness(ctx: Context, nowMs: real) {
    && Active(ctx)
    && nowMs - OrElse(ctx.lastFixAtMs, OrElse(ctx.enabledAtMs, nowMs)) > ctx.maxStaleSeconds * 1000.0
  }

  function Derive(ctx: Context, nowMs: real): Context {
    var kept := EndSession(ctx);
    var isStale := Staleness(ctx, nowMs);
    kept.(enabledAtMs := EnabledAt(ctx, nowMs), isStale := isStale, nowMs := nowMs, state := Ladder(kept, isStale))
  }

  /** The monotone clock: a late or unreadable timestamp does not move it. */
  function Clock(nowMs: real, atMs: Num): real {
    if atMs.Finite? then Max(nowMs, atMs.value) else nowMs
  }

  function Reduce(ctx: Context, event: Event): Context {
    var nowMs := Clock(ctx.nowMs, event.atMs);
    var ticked := ExpireLiveSession(ctx.(nowMs := nowMs), nowMs);
    Derive(ApplyChange(ticked, event.change, nowMs), nowMs)
  }

  function ReduceAll(ctx: Context, events: seq<Event>): Context
    decreases |events|
  {
    if events == [] then ctx else ReduceAll(Reduce(ctx, events[0]), events[1..])
  }

  method ReduceTrackingAll(ctx: Context, events: seq<Event>) returns (current: Context)
    ensures current == ReduceAll(ctx, events)
  {
    current := ctx;
    for i := 0 to |events|
      invariant ReduceAll(current, events[i..]) == ReduceAll(ctx, events)
    {
      assert events[i..][1..] == events[i + 1..];
      current := Reduce(current, events[i]);
    }
  }

  function CreateTrackingContext(init: ContextInit): Context {
    var seeded := Context(
      Disabled,
      OrElse(init.sharing, NeverEnabled),
      OrElse(init.permission, UNKNOWN_PERMISSION),
      OrElse(init.motion, MotionUnknown),
      init.batteryLevel,
      OrElse(init.batteryTier, NextBatteryTier(Normal, init.batteryLevel)),
      init.isCharging,
      OrElse(init.isLowPowerMode, false),
      OrElse(init.connectivity, Online),
      init.liveSession,
      init.lastFixAtMs,
      init.enabledAtMs,
      false,
      ClampInto(OrElse(init.maxStaleSeconds, Finite(DEFAULT_MAX_STALE_SECONDS)), MAX_STALE_SECONDS_RANGE),
      init.nowMs,
      None,
      None);
    Derive(ExpireLiveSession(seeded, init.nowMs), init.nowMs)
  }
}

/** Properties of every run of the reducer. */
module TrackingRuns {
  import opened Basics
  import opened Limits
  import opened Battery
  import opened Tracking

  // ---- derived contexts --------------------------------------------------

  /** A context that re-deriving at its own clock does not change. */
  predicate Derived(ctx: Context) {
    Derive(ExpireLiveSession(ctx, ctx.nowMs), ctx.nowMs) == ctx
  }

  lemma CreateIsDerived(init: ContextInit)
    ensures Derived(CreateTrackingContext(init))
    ensures CreateTrackingContext(init).liveSession.Some? ==>
      CreateTrackingContext(init).liveSession == init.liveSession
  {
  }

  predicate Unexpired(ctx: Context, nowMs: real) {
    ctx.liveSession.Some? ==> nowMs < ctx.liveSession.value.expiresAtMs
  }

  lemma ChangeLeavesUnexpired(ctx: Context, change: Change, nowMs: real)
    requires Unexpired(ctx, nowMs)
    ensures Unexpired(ApplyChange(ctx, change, nowMs), nowMs)
  {
  }

  lemma DeriveIsDerived(ctx: Context, nowMs: real)
    requires Unexpired(ctx, nowMs)
    ensures Derived(Derive(ctx, nowMs))
  {
  }

  lemma DerivedFacts(ctx: Context)
    requires Derived(ctx)
    ensures Active(ctx) <==> ctx.enabledAtMs.Some?
    ensures SessionEnd(ctx).None? && Unexpired(ctx, ctx.nowMs)
    ensures !Active(ctx) ==> ctx.liveSession.None?
    ensures ctx.state == Ladder(ctx, ctx.isStale)
  {
    var expired := ExpireLiveSession(ctx, ctx.nowMs);
    assert expired.sharing == ctx.sharing && expired.permission == ctx.permission;
  }

  /** A single reduction yields a derived context from any context, derived or not. */
  lemma ReduceIsDerived(ctx: Context, event: Event)
    ensures Derived(Reduce(ctx, event))
  {
    var nowMs := Clock(ctx.nowMs, event.atMs);
    var ticked := ExpireLiveSession(ctx.(nowMs := nowMs), nowMs);
    ChangeLeavesUnexpired(ticked, event.change, nowMs);
    DeriveIsDerived(ApplyChange(ticked, event.change, nowMs), nowMs);
  }

  lemma {:induction false} ReduceAllIsDerived(ctx: Context, events: seq<Event>)
    requires Derived(ctx)
    ensures Derived(ReduceAll(ctx, events))
    ensures ReduceAll(ctx, events).nowMs >= ctx.nowMs
    decreases |events|
  {
    if events != [] {
      ReduceIsDerived(ctx, events[0]);
      ReduceAllIsDerived(Reduce(ctx, events[0]), events[1..]);
    }
  }

  // ---- ticks are unobservable --------------------------------------------

  /** The reported parts, which every reduction recomputes, masked out. */
  function Facts(ctx: Context): Context {
    ctx.(state := Disabled, isStale := false)
  }

  lemma DeriveReadsFacts(ctx: Context, nowMs: real)
    ensures Derive(Facts(ctx), nowMs) == Derive(ctx, nowMs)
  {
  }

  lemma ChangeReadsFacts(ctx: Context, change: Change, nowMs: real)
    ensures ApplyChange(Facts(ctx), change, nowMs) == Facts(ApplyChange(ctx, change, nowMs))
  {
  }

  /** A tick only moves the clock and expires the session, as the next event would. */
  lemma TickKeepsFacts(ctx: Context, tick: Event, nowMs: real)
    requires Derived(ctx) && tick.change == Tick && Clock(ctx.nowMs, tick.atMs) <= nowMs
    ensures Facts(ExpireLiveSession(Reduce(ctx, tick).(nowMs := nowMs), nowMs))
         == Facts(ExpireLiveSession(ctx.(nowMs := nowMs), nowMs))
  {
    DerivedFacts(ctx);
    var at := Clock(ctx.nowMs, tick.atMs);
    var ticked := ExpireLiveSession(ctx.(nowMs := at), at);
    assert SessionEnd(ticked).None? && EnabledAt(ticked, at) == ctx.enabledAtMs;
    assert Facts(Reduce(ctx, tick)) == Facts(ticked);
  }

  /** A tick no later than the next event's clock is absorbed by that event. */
  lemma TickAbsorbed(ctx: Context, tick: Event, next: Event)
    requires Derived(ctx) && tick.change == Tick
    requires Clock(ctx.nowMs, tick.atMs) <= Clock(ctx.nowMs, next.atMs)
    ensures Reduce(Reduce(ctx, tick), next) == Reduce(ctx, next)
  {
    var nowMs := Clock(ctx.nowMs, next.atMs);
    ReduceClock(ctx, tick);
    assert Clock(Reduce(ctx, tick).nowMs, next.atMs) == nowMs;
    var plain := ExpireLiveSession(ctx.(nowMs := nowMs), nowMs);
    var ticked := ExpireLiveSession(Reduce(ctx, tick).(nowMs := nowMs), nowMs);
    TickKeepsFacts(ctx, tick, nowMs);
    ChangeReadsFacts(plain, next.change, nowMs);
    ChangeReadsFacts(ticked, next.change, nowMs);
    DeriveReadsFacts(ApplyChange(plain, next.change, nowMs), nowMs);
    DeriveReadsFacts(ApplyChange(ticked, next.change, nowMs), nowMs);
  }

  /** `full` is `events` with ticks inserted before events, none later than the clock at the next one. */
  ghost predicate TicksInserted(events: seq<Event>, full: seq<Event>, nowMs: real) {
    if full == [] then events == []
    else
      && events != []
      && (|| (full[0] == events[0] && TicksInserted(events[1..], full[1..], Clock(nowMs, full[0].atMs)))
          || (&& full[0].change == Tick
              && Clock(nowMs, full[0].atMs) <= Clock(nowMs, events[0].atMs)
              && TicksInserted(events, full[1..], Clock(nowMs, full[0].atMs))))
  }

  /** Inserting ticks anywhere in an event log leaves the final context unchanged. */
  lemma {:induction false} TicksUnobservable(ctx: Context, events: seq<Event>, full: seq<Event>)
    requires Derived(ctx) && TicksInserted(events, full, ctx.nowMs)
    ensures ReduceAll(ctx, full) == ReduceAll(ctx, events)
    decreases |full|
  {
    if full != [] {
      ReduceIsDerived(ctx, full[0]);
      ReduceClock(ctx, full[0]);
      var nowMs := Clock(ctx.nowMs, full[0].atMs);
      if full[0] == events[0] && TicksInserted(events[1..], full[1..], nowMs) {
        TicksUnobservable(Reduce(ctx, full[0]), events[1..], full[1..]);
      } else {
        TicksUnobservable(Reduce(ctx, full[0]), events, full[1..]);
        TickAbsorbed(ctx, full[0], events[0]);
      }
    }
  }

  lemma ReduceClock(ctx: Context, event: Event)
    ensures Reduce(ctx, event).nowMs == Clock(ctx.nowMs, event.atMs)
  {
  }

  /** The log with each time replaced by what the clock shows when the event is reduced. */
  function Retimed(nowMs: real, events: seq<Event>): (retimed: seq<Event>)
    ensures |retimed| == |events| && forall i :: 0 <= i < |events| ==> retimed[i].change == events[i].change
    decreases |events|
  {
    if events == [] then []
    else
      var atMs := Clock(nowMs, events[0].atMs);
      [events[0].(atMs := Finite(atMs))] + Retimed(atMs, events[1..])
  }

  /** Every time is readable, none is before `fromMs`, and they do not decrease. */
  ghost predicate InOrder(fromMs: real, events: seq<Event>) {
    && (forall i :: 0 <= i < |events| ==> events[i].atMs.Finite? && fromMs <= events[i].atMs.value)
    && (forall i, j :: 0 <= i < j < |events| ==> events[i].atMs.value <= events[j].atMs.value)
  }

  lemma InOrderGrows(fromMs: real, first: Event, rest: seq<Event>)
    requires first.atMs.Finite? && fromMs <= first.atMs.value && InOrder(first.atMs.value, rest)
    ensures InOrder(fromMs, [first] + rest)
  {
  }

  lemma EventActsAtClock(ctx: Context, event: Event)
    ensures Reduce(ctx, event) == Reduce(ctx, event.(atMs := Finite(Clock(ctx.nowMs, event.atMs))))
  {
  }

  /**
   * Late events act as if they happened at the current clock: any log, with times in any order or
   * unreadable, has the effect of the same events at nondecreasing times.
   */
  lemma {:induction false} LateEventsActNow(ctx: Context, events: seq<Event>)
    ensures InOrder(ctx.nowMs, Retimed(ctx.nowMs, events))
    ensures ReduceAll(ctx, Retimed(ctx.nowMs, events)) == ReduceAll(ctx, events)
    decreases |events|
  {
    hide Reduce, InOrder;
    if events == [] {
      EmptyInOrder(ctx.nowMs);
    } else {
      var atMs := Clock(ctx.nowMs, events[0].atMs);
      var first, rest := events[0].(atMs := Finite(atMs)), Retimed(atMs, events[1..]);
      ReduceClock(ctx, events[0]);
      EventActsAtClock(ctx, events[0]);
      LateEventsActNow(Reduce(ctx, events[0]), events[1..]);
      InOrderGrows(ctx.nowMs, first, rest);
      assert Retimed(ctx.nowMs, events)[1..] == rest;
    }
  }

  lemma EmptyInOrder(fromMs: real)
    ensures InOrder(fromMs, [])
  {
  }

  /** A tick at the current clock changes nothing exactly in derived contexts. */
  lemma TickIsIdentityExactlyWhenDerived(ctx: Context)
    ensures Derived(ctx) <==> Reduce(ctx, Event(Tick, Finite(ctx.nowMs))) == ctx
  {
    assert ctx.(nowMs := ctx.nowMs) == ctx;
  }

  /** From a derived context, ticks that do not move the clock change nothing, however many there are. */
  lemma {:induction false} IdleTicks(ctx: Context, ticks: seq<Event>)
    requires Derived(ctx)
    requires forall e :: e in ticks ==> e.change == Tick && Clock(ctx.nowMs, e.atMs) == ctx.nowMs
    ensures ReduceAll(ctx, ticks) == ctx
    decreases |ticks|
  {
    hide Reduce, Derived, Clock;
    if ticks != [] {
      assert ticks[0] in ticks;
      EventActsAtClock(ctx, ticks[0]);
      TickIsIdentityExactlyWhenDerived(ctx);
      assert ticks[0].(atMs := Finite(ctx.nowMs)) == Event(Tick, Finite(ctx.nowMs));
      forall e | e in ticks[1..] ensures e in ticks {}
      IdleTicks(ctx, ticks[1..]);
    }
  }

  // ---- live sessions -----------------------------------------------------

  predicate Bounded(session: LiveSession) {
    && 1 <= session.grantedDurationSeconds <= MAX_LIVE_SESSION_SECONDS
    && session.expiresAtMs == session.startedAtMs + session.grantedDurationSeconds as real * 1000.0
  }

  /** What holds of the reported state and the live session in every reachable context. */
  predicate LiveSafe(ctx: Context) {
    && (ctx.state == Live <==> ctx.liveSession.Some?)
    && (ctx.liveSession.Some? ==>
          && ctx.nowMs < ctx.liveSession.value.expiresAtMs
          && ctx.sharing == Sharing
          && IsPermissionSufficient(ctx.permission)
          && Tier(ctx) != Critical)
  }

  lemma DerivedIsLiveSafe(ctx: Context)
    requires Derived(ctx)
    ensures LiveSafe(ctx)
  {
    DerivedFacts(ctx);
  }

  /** A session is kept as it was, dropped, or freshly started now for at most ten minutes. */
  lemma SessionStep(ctx: Context, event: Event)
    ensures var after := Reduce(ctx, event);
            after.liveSession.Some? ==>
              || after.liveSession == ctx.liveSession
              || (&& after.liveSession.value.startedAtMs == after.nowMs
                && Bounded(after.liveSession.value)
                  && event.change.LiveSessionStarted?
                  && (Tier(after) == Low ==>
                        after.liveSession.value.grantedDurationSeconds <= LIVE_SESSION_LOW_BATTERY_MAX_SECONDS))
    {
  }

  /**
   * Every run: LIVE exactly with a session, which is unexpired, consented, permitted and powered,
   * and which is the rehydrated one as it was or at most 600 s long.
   */
  lemma LiveSessionsSafe(init: ContextInit, events: seq<Event>)
    ensures var ctx := ReduceAll(CreateTrackingContext(init), events);
            && LiveSafe(ctx)
            && (ctx.liveSession.Some? ==> ctx.liveSession == init.liveSession || Bounded(ctx.liveSession.value))
  {
    hide CreateTrackingContext, ReduceAll, LiveSafe, Bounded, Derived;
    var start := CreateTrackingContext(init);
    CreateIsDerived(init);
    ReduceAllIsDerived(start, events);
    DerivedIsLiveSafe(ReduceAll(start, events));
    BoundedSessions(start, events);
  }

  lemma {:induction false} BoundedSessions(ctx: Context, events: seq<Event>)
    ensures var later := ReduceAll(ctx, events).liveSession;
            later.Some? ==> later == ctx.liveSession || Bounded(later.value)
    decreases |events|
  {
    if events != [] {
      SessionStep(ctx, events[0]);
      BoundedSessions(Reduce(ctx, events[0]), events[1..]);
    }
  }

  /** The session lasts at most 600 s. */
  predicate Short(session: LiveSession) {
    session.expiresAtMs - session.startedAtMs <= MAX_LIVE_SESSION_SECONDS as real * 1000.0
  }

  predicate SessionShort(ctx: Context) {
    ctx.liveSession.Some? ==> Short(ctx.liveSession.value)
  }

  /** Creation drops the rehydrated session: it has expired, a consent is missing, or the battery is critical. */
  predicate DroppedAtCreation(init: ContextInit, session: LiveSession) {
    || init.nowMs >= session.expiresAtMs
    || OrElse(init.sharing, NeverEnabled) != Sharing
    || !IsPermissionSufficient(OrElse(init.permission, UNKNOWN_PERMISSION))
    || EffectiveBatteryTier(
         OrElse(init.batteryTier, NextBatteryTier(Normal, init.batteryLevel)),
         OrElse(init.isLowPowerMode, false)) == Critical
  }

  lemma CreationKeeps(init: ContextInit)
    ensures CreateTrackingContext(init).liveSession
            == if init.liveSession.Some? && DroppedAtCreation(init, init.liveSession.value) then None
               else init.liveSession
  {
  }

  /**
   * Creation accepts any session.  On every run sessions last at most 600 s if and only if the
   * rehydrated one, if there is one, does, or is dropped at creation.
   */
  lemma SessionsShortExactly(init: ContextInit)
    ensures (forall events :: SessionShort(ReduceAll(CreateTrackingContext(init), events)))
            <==> || init.liveSession.None?
                 || Short(init.liveSession.value)
                 || DroppedAtCreation(init, init.liveSession.value)
  {
    hide CreateTrackingContext, Short, DroppedAtCreation;
    var start := CreateTrackingContext(init);
    CreationKeeps(init);
    if SessionShort(start) {
      forall events ensures SessionShort(ReduceAll(start, events)) { KeptShort(start, events); }
    } else {
      assert !SessionShort(ReduceAll(start, []));
    }
  }

  /** Such a start: a rehydrated session of one hour is kept, and the context is LIVE. */
  lemma HourLongSessionKept(permission: Permission)
    requires IsPermissionSufficient(permission)
    ensures var session := LiveSession("rehydrated", 0.0, 3600000.0, 3600, Finite(3600.0), Passive);
            var init := ContextInit(
              0.0, Some(Sharing), Some(permission), None, None, Some(Normal), None, None, None,
              Some(session), None, None, None);
            var ctx := CreateTrackingContext(init);
            ctx.state == Live && ctx.liveSession == Some(session) && !SessionShort(ctx)
  {
  }

  lemma KeptShort(ctx: Context, events: seq<Event>)
    requires SessionShort(ctx)
    ensures SessionShort(ReduceAll(ctx, events))
  {
    hide Reduce, ReduceAll;
    BoundedSessions(ctx, events);
  }

  /**
   * A session seen later in a run is the very same record, or started no earlier than any
   * moment at which the earlier one was still running: sessions are frozen and do not overlap.
   */
  lemma {:induction false} SessionsFrozenAndDisjoint(ctx: Context, events: seq<Event>)
    ensures var later := ReduceAll(ctx, events);
            && later.nowMs >= ctx.nowMs
            && (later.liveSession.Some? ==>
                  later.liveSession == ctx.liveSession || later.liveSession.value.startedAtMs >= ctx.nowMs)
    decreases |events|
  {
    if events != [] {
      ReduceClock(ctx, events[0]);
      SessionStep(ctx, events[0]);
      SessionsFrozenAndDisjoint(Reduce(ctx, events[0]), events[1..]);
    }
  }

  // ---- consent -----------------------------------------------------------

  predicate Absorbed(state: TrackingState) {
    state == Disabled || state == PermissionRequired
  }

  predicate IsConsentEvent(event: Event) {
    event.change.SharingResumed? || event.change.PermissionChanged?
  }

  lemma AbsorbedStep(ctx: Context, event: Event)
    requires Derived(ctx) && Absorbed(ctx.state) && !IsConsentEvent(event)
    ensures Absorbed(Reduce(ctx, event).state)
  {
  }

  /** Without a consent event no run leaves {DISABLED, PERMISSION_REQUIRED}. */
  lemma {:induction false} NoEscapeWithoutConsent(ctx: Context, events: seq<Event>)
    requires Derived(ctx) && Absorbed(ctx.state)
    requires forall e :: e in events ==> !IsConsentEvent(e)
    ensures Absorbed(ReduceAll(ctx, events).state)
    ensures ReduceAll(ctx, events).liveSession.None?
    decreases |events|
  {
    if events != [] {
      ReduceIsDerived(ctx, events[0]);
      assert events[0] in events;
      AbsorbedStep(ctx, events[0]);
      NoEscapeWithoutConsent(Reduce(ctx, events[0]), events[1..]);
    }
  }

  /** A consent event escapes exactly when both consents are then in place. */
  lemma EscapeExactly(ctx: Context, event: Event)
    ensures var after := Reduce(ctx, event);
            !Absorbed(after.state) <==> after.sharing == Sharing && IsPermissionSufficient(after.permission)
  {
  }

  /** The event, in that context, is a consent event that puts both consents in place and so ends the absorption. */
  predicate Releases(ctx: Context, event: Event) {
    && IsConsentEvent(event) && Absorbed(ctx.state)
    && Reduce(ctx, event).sharing == Sharing && IsPermissionSufficient(Reduce(ctx, event).permission)
  }

  /**
   * A run that leaves the two states does so through one event of its log: a consent event after which both
   * consents hold.
   */
  lemma {:induction false} EscapeThroughConsent(ctx: Context, events: seq<Event>)
    requires Derived(ctx) && Absorbed(ctx.state) && !Absorbed(ReduceAll(ctx, events).state)
    ensures exists k :: 0 <= k < |events| && Releases(ReduceAll(ctx, events[..k]), events[k])
    decreases |events|
  {
    hide Reduce, Derived, Absorbed, IsConsentEvent, IsPermissionSufficient;
    var next := Reduce(ctx, events[0]);
    if Absorbed(next.state) {
      ReduceIsDerived(ctx, events[0]);
      EscapeThroughConsent(next, events[1..]);
      var k :| 0 <= k < |events[1..]| && Releases(ReduceAll(next, events[1..][..k]), events[1..][k]);
      assert events[..k + 1][0] == events[0] && events[..k + 1][1..] == events[1..][..k]
        && events[1..][k] == events[k + 1];
      assert Releases(ReduceAll(ctx, events[..k + 1]), events[k + 1]);
    } else {
      if !IsConsentEvent(events[0]) { AbsorbedStep(ctx, events[0]); }
      EscapeExactly(ctx, events[0]);
      assert ReduceAll(ctx, events[..0]) == ctx;
    }
  }

  // ---- staleness ---------------------------------------------------------

  /** The context after the first `k` events. */
  function At(ctx: Context, events: seq<Event>, k: nat): Context
    requires k <= |events|
  {
    ReduceAll(ctx, events[..k])
  }

  lemma {:induction false} AtNext(ctx: Context, events: seq<Event>, k: nat)
    requires k < |events|
    ensures At(ctx, events, k + 1) == Reduce(At(ctx, events, k), events[k])
    decreases |events|
  {
    hide Reduce;
    if k == 0 {
      assert events[..1][0] == events[0] && events[..1][1..] == [] && events[..0] == [];
      assert ReduceAll(ctx, events[..1]) == ReduceAll(Reduce(ctx, events[0]), []);
    } else {
      AtNext(Reduce(ctx, events[0]), events[1..], k - 1);
      assert events[..k][1..] == events[1..][..k - 1] && events[..k + 1][1..] == events[1..][..k];
    }
  }

  /** The last of the first `n` contexts and the `n`th in which a consent was missing, if there is one. */
  ghost function LastLapse(ctx: Context, events: seq<Event>, n: nat): (k: Option<nat>)
    requires n <= |events|
    ensures k.Some? ==> k.value <= n && !Active(At(ctx, events, k.value))
    ensures forall j: nat :: (if k.Some? then k.value < j else true) && j <= n ==> Active(At(ctx, events, j))
  {
    if !Active(At(ctx, events, n)) then Some(n) else if n == 0 then None else LastLapse(ctx, events, n - 1)
  }

  /** The last location recorded among the first `n` events, if there is one. */
  function LastFix(events: seq<Event>, n: nat): (k: Option<nat>)
    requires n <= |events|
    ensures k.Some? ==> k.value < n && events[k.value].change == LocationRecorded
    ensures forall j: nat :: (if k.Some? then k.value < j else true) && j < n ==> events[j].change != LocationRecorded
  {
    if n == 0 then None else if events[n - 1].change == LocationRecorded then Some(n - 1) else LastFix(events, n - 1)
  }

  lemma StepMarks(ctx: Context, event: Event)
    ensures var after := Reduce(ctx, event);
            && after.enabledAtMs == (if !Active(after) then None else Some(OrElse(ctx.enabledAtMs, after.nowMs)))
            && after.lastFixAtMs == (if event.change == LocationRecorded then Some(after.nowMs) else ctx.lastFixAtMs)
  {
    hide ApplyChange, Derive, Active;
    var nowMs := Clock(ctx.nowMs, event.atMs);
    var ticked := ExpireLiveSession(ctx.(nowMs := nowMs), nowMs);
    ChangeMarks(ticked, event.change, nowMs);
    DeriveMarks(ApplyChange(ticked, event.change, nowMs), nowMs);
  }

  lemma ChangeMarks(ctx: Context, change: Change, nowMs: real)
    ensures var after := ApplyChange(ctx, change, nowMs);
            && after.enabledAtMs == ctx.enabledAtMs
            && after.lastFixAtMs == if change == LocationRecorded then Some(nowMs) else ctx.lastFixAtMs
  {
  }

  lemma DeriveMarks(ctx: Context, nowMs: real)
    ensures var after := Derive(ctx, nowMs);
            && after.nowMs == nowMs && after.lastFixAtMs == ctx.lastFixAtMs
            && after.enabledAtMs == if Active(after) then Some(OrElse(ctx.enabledAtMs, nowMs)) else None
  {
  }

  lemma LapsedUnmarked(ctx: Context)
    requires Derived(ctx) && !Active(ctx)
    ensures ctx.enabledAtMs.None?
  {
  }

  /** Since when tracking counts as enabled: the event that ended the last lapse of consent, or the start. */
  lemma {:induction false} EnabledSinceLastLapse(ctx: Context, events: seq<Event>, n: nat)
    requires Derived(ctx) && n <= |events| && Active(At(ctx, events, n))
    ensures Derived(At(ctx, events, n))
    ensures var lapse := LastLapse(ctx, events, n);
            && (lapse.Some? ==> lapse.value < n)
            && At(ctx, events, n).enabledAtMs
               == if lapse.Some? then Some(At(ctx, events, lapse.value + 1).nowMs) else ctx.enabledAtMs
    decreases n
  {
    hide Reduce, Derived, Active, At;
    ReduceAllIsDerived(ctx, events[..n]);
    AtEdges(ctx, events, n);
    if n > 0 {
      var before := At(ctx, events, n - 1);
      AtNext(ctx, events, n - 1);
      StepMarks(before, events[n - 1]);
      ReduceAllIsDerived(ctx, events[..n - 1]);
      AtEdges(ctx, events, n - 1);
      if Active(before) {
        EnabledSinceLastLapse(ctx, events, n - 1);
        ActiveMarked(before);
      } else {
        LapsedUnmarked(before);
      }
    }
  }

  lemma AtEdges(ctx: Context, events: seq<Event>, n: nat)
    requires n <= |events|
    ensures At(ctx, events, n) == ReduceAll(ctx, events[..n]) && At(ctx, events, 0) == ctx
  {
    assert events[..0] == [];
  }

  lemma ActiveMarked(ctx: Context)
    requires Derived(ctx) && Active(ctx)
    ensures ctx.enabledAtMs.Some?
  {
  }

  lemma {:induction false} FixedAtLastFix(ctx: Context, events: seq<Event>, n: nat)
    requires n <= |events|
    ensures At(ctx, events, n).lastFixAtMs
            == var fix := LastFix(events, n);
               if fix.Some? then Some(At(ctx, events, fix.value + 1).nowMs) else ctx.lastFixAtMs
    decreases n
  {
    hide Reduce, At;
    AtEdges(ctx, events, n);
    if n > 0 {
      AtNext(ctx, events, n - 1);
      StepMarks(At(ctx, events, n - 1), events[n - 1]);
      FixedAtLastFix(ctx, events, n - 1);
    }
  }

  /** When the last location of the log was recorded, or what the start knew. */
  function FixTime(ctx: Context, events: seq<Event>): Option<real> {
    var fix := LastFix(events, |events|);
    if fix.Some? then Some(At(ctx, events, fix.value + 1).nowMs) else ctx.lastFixAtMs
  }

  /** When both consents last came into place, or what the start knew. */
  ghost function ConsentTime(ctx: Context, events: seq<Event>): Option<real> {
    var lapse := LastLapse(ctx, events, |events|);
    if lapse.Some? && lapse.value < |events| then Some(At(ctx, events, lapse.value + 1).nowMs) else ctx.enabledAtMs
  }

  /**
   * On every run staleness is determined by the log: while both consents hold, the time is
   * counted from the last location recorded, or before the first one from the event at which the
   * consents last came into place; without them nothing is stale.
   */
  lemma StalenessFollowsLog(ctx: Context, events: seq<Event>)
    requires Derived(ctx)
    ensures var last := ReduceAll(ctx, events);
            if !Active(last) then !last.isStale && last.enabledAtMs.None?
            else
              && last.enabledAtMs == ConsentTime(ctx, events) && last.enabledAtMs.Some?
              && last.lastFixAtMs == FixTime(ctx, events)
              && (last.isStale <==>
                    last.nowMs - OrElse(FixTime(ctx, events), ConsentTime(ctx, events).value)
                    > last.maxStaleSeconds * 1000.0)
  {
    hide Reduce, Active, At;
    var last := ReduceAll(ctx, events);
    assert events[..|events|] == events;
    AtEdges(ctx, events, |events|);
    ReduceAllIsDerived(ctx, events);
    StaleWhenDerived(last);
    if Active(last) {
      EnabledSinceLastLapse(ctx, events, |events|);
      FixedAtLastFix(ctx, events, |events|);
    }
  }

  lemma StaleWhenDerived(ctx: Context)
    requires Derived(ctx)
    ensures if !Active(ctx) then !ctx.isStale && ctx.enabledAtMs.None?
            else
              && ctx.enabledAtMs.Some?
              && (ctx.isStale <==>
                    ctx.nowMs - OrElse(ctx.lastFixAtMs, ctx.enabledAtMs.value) > ctx.maxStaleSeconds * 1000.0)
  {
  }

  // ---- the battery band inside the reducer -------------------------------

  function BatteryLog(events: seq<Event>): seq<Option<Num>> {
    if events == [] then []
    else if events[0].change.BatteryChanged? then [events[0].change.level] + BatteryLog(events[1..])
    else BatteryLog(events[1..])
  }

  lemma BandStep(ctx: Context, event: Event)
    ensures Reduce(ctx, event).batteryTier ==
            if event.change.BatteryChanged? then NextBatteryTier(ctx.batteryTier, event.change.level)
              else ctx.batteryTier
  {
    var nowMs := Clock(ctx.nowMs, event.atMs);
    var ticked := ExpireLiveSession(ctx.(nowMs := nowMs), nowMs);
    assert ticked.batteryTier == ctx.batteryTier;
    assert EndSession(ApplyChange(ticked, event.change, nowMs)).batteryTier
      == ApplyChange(ticked, event.change, nowMs).batteryTier;
  }

  /** Only battery events move the band, so the hysteresis results apply to every run of the machine. */
  lemma {:induction false} BandFollowsBatteryLog(ctx: Context, events: seq<Event>)
    ensures ReduceAll(ctx, events).batteryTier == FoldTier(ctx.batteryTier, BatteryLog(events))
    decreases |events|
  {
    if events != [] {
      var next := Reduce(ctx, events[0]);
      BandStep(ctx, events[0]);
      BandFollowsBatteryLog(next, events[1..]);
      if events[0].change.BatteryChanged? {
        assert BatteryLog(events)[1..] == BatteryLog(events[1..]);
      }
    }
  }
}
