/** The reported state and the live sessions as the event log alone determines them. */
module TrackingStates {
  import opened Basics
  import opened Battery
  import opened Tracking
  import opened TrackingRuns

  // ---- what the log says last --------------------------------------------

  function SharingIn(change: Change): Option<SharingConsent> {
    match change
    case SharingResumed => Some(Sharing)
    case SharingPaused => Some(Paused)
    case SharingDisabled => Some(SharingOff)
    case _ => None
  }

  function PermissionIn(change: Change): Option<Permission> {
    if change.PermissionChanged? then Some(change.permission) else None
  }

  function MotionIn(change: Change): Option<Motion> {
    if change.MotionChanged? then Some(change.motion) else None
  }

  function OnlineIn(change: Change): Option<bool> {
    if change.ConnectivityChanged? then Some(change.online) else None
  }

  function LowPowerIn(change: Change): Option<bool> {
    if change.BatteryChanged? then Some(change.isLowPowerMode) else None
  }

  function LimitIn(change: Change): Option<Num> {
    if change.ConfigChanged? then Some(change.maxStaleSeconds) else None
  }

  /** What the last event that says anything says, or else what held at the start. */
  function Latest<T>(says: Change -> Option<T>, events: seq<Event>, start: T): T {
    if events == [] then start
    else OrElse(says(events[|events| - 1].change), Latest(says, events[..|events| - 1], start))
  }

  lemma {:induction false} LastReduced(ctx: Context, events: seq<Event>)
    requires events != []
    ensures ReduceAll(ctx, events) == Reduce(ReduceAll(ctx, events[..|events| - 1]), events[|events| - 1])
  {
    hide Reduce;
    AtNext(ctx, events, |events| - 1);
    assert events[..|events|] == events;
  }

  /** A part of the context that each event either replaces or leaves is what the log says last. */
  lemma {:induction false} FollowsLatest<T>(view: Context -> T, says: Change -> Option<T>, ctx: Context,
    events: seq<Event>)
    requires forall c: Context, e: Event :: view(Reduce(c, e)) == OrElse(says(e.change), view(c))
    ensures view(ReduceAll(ctx, events)) == Latest(says, events, view(ctx))
    decreases |events|
  {
    hide Reduce;
    if events != [] {
      LastReduced(ctx, events);
      FollowsLatest(view, says, ctx, events[..|events| - 1]);
    }
  }

  lemma StepSays(ctx: Context, event: Event)
    ensures var after := Reduce(ctx, event);
            && after.sharing == OrElse(SharingIn(event.change), ctx.sharing)
            && after.permission == OrElse(PermissionIn(event.change), ctx.permission)
            && after.motion == OrElse(MotionIn(event.change), ctx.motion)
            && (after.connectivity == Online) == OrElse(OnlineIn(event.change), ctx.connectivity == Online)
            && after.isLowPowerMode == OrElse(LowPowerIn(event.change), ctx.isLowPowerMode)
  {
    hide ApplyChange, Reduce;
    ReduceAsChange(ctx, event);
    ChangeSays(ctx, event.change, Clock(ctx.nowMs, event.atMs));
  }

  /** What the state depends on, but for the session, is left alone by expiry and by deriving. */
  predicate SameInputs(a: Context, b: Context) {
    && a.sharing == b.sharing && a.permission == b.permission && a.motion == b.motion
    && a.connectivity == b.connectivity && a.isLowPowerMode == b.isLowPowerMode
    && a.maxStaleSeconds == b.maxStaleSeconds
  }

  lemma ReduceAsChange(ctx: Context, event: Event)
    ensures SameInputs(Reduce(ctx, event), ApplyChange(ctx, event.change, Clock(ctx.nowMs, event.atMs)))
  {
    hide ApplyChange, Staleness, EnabledAt, Ladder;
    var nowMs := Clock(ctx.nowMs, event.atMs);
    ChangeReadsInputs(ctx, ExpireLiveSession(ctx.(nowMs := nowMs), nowMs), event.change, nowMs);
  }

  lemma ChangeReadsInputs(a: Context, b: Context, change: Change, nowMs: real)
    requires SameInputs(a, b)
    ensures SameInputs(ApplyChange(a, change, nowMs), ApplyChange(b, change, nowMs))
  {
    hide NextBatteryTier, ClampInto, Rejection;
  }

  lemma ChangeSays(ctx: Context, change: Change, nowMs: real)
    ensures var after := ApplyChange(ctx, change, nowMs);
            && after.sharing == OrElse(SharingIn(change), ctx.sharing)
            && after.permission == OrElse(PermissionIn(change), ctx.permission)
            && after.motion == OrElse(MotionIn(change), ctx.motion)
            && (after.connectivity == Online) == OrElse(OnlineIn(change), ctx.connectivity == Online)
            && after.isLowPowerMode == OrElse(LowPowerIn(change), ctx.isLowPowerMode)
  {
    hide NextBatteryTier, ClampInto, Rejection;
  }

  lemma StepLimits(ctx: Context, event: Event)
    ensures Reduce(ctx, event).maxStaleSeconds
            == if LimitIn(event.change).Some? then ClampInto(LimitIn(event.change).value, MAX_STALE_SECONDS_RANGE)
               else ctx.maxStaleSeconds
  {
    hide Reduce, NextBatteryTier, ClampInto, Rejection;
    ReduceAsChange(ctx, event);
  }

  lemma {:induction false} LimitFollowsLog(ctx: Context, events: seq<Event>, start: Num)
    requires ctx.maxStaleSeconds == ClampInto(start, MAX_STALE_SECONDS_RANGE)
    ensures ReduceAll(ctx, events).maxStaleSeconds
            == ClampInto(Latest(LimitIn, events, start), MAX_STALE_SECONDS_RANGE)
    decreases |events|
  {
    hide Reduce, ClampInto;
    if events != [] {
      LastReduced(ctx, events);
      StepLimits(ReduceAll(ctx, events[..|events| - 1]), events[|events| - 1]);
      LimitFollowsLog(ctx, events[..|events| - 1], start);
    }
  }

  /** The clock shows the latest time it was told, or when it started: no event moves it back. */
  lemma {:induction false} ClockIsLatest(ctx: Context, events: seq<Event>)
    ensures var nowMs := ReduceAll(ctx, events).nowMs;
            && nowMs >= ctx.nowMs && (forall e :: e in events && e.atMs.Finite? ==> nowMs >= e.atMs.value)
            && (nowMs == ctx.nowMs || exists e :: e in events && e.atMs == Finite(nowMs))
    decreases |events|
  {
    hide Reduce;
    if events != [] {
      ReduceClock(ctx, events[0]);
      ClockIsLatest(Reduce(ctx, events[0]), events[1..]);
      assert forall e :: e in events <==> e == events[0] || e in events[1..];
    }
  }

  // ---- the reported state ------------------------------------------------

  /** All that the reported state depends on. */
  datatype Inputs = Inputs(
    sharing: SharingConsent,
    permission: Permission,
    critical: bool,
    inSession: bool,
    low: bool,
    online: bool,
    stale: bool,
    motion: Motion
  )

  predicate Permitted(p: Permission) {
    p.locationServicesEnabled && (p.authorization == Always || p.authorization == WhenInUse)
  }

  predicate NamedFor(state: TrackingState, motion: Motion) {
    && (state == Passive <==> motion == MotionUnknown)
    && (state == Stationary <==> motion == MotionStationary)
    && (state == Walking <==> motion == MotionWalking || motion == MotionRunning)
    && (state == Transit <==> motion == MotionCycling || motion == MotionAutomotive)
  }

  /** What each state means, from the first cause to the last. */
  predicate Reports(state: TrackingState, i: Inputs) {
    var consented := i.sharing == Sharing && Permitted(i.permission);
    && (state == Disabled <==> i.sharing != Sharing)
    && (state == PermissionRequired <==> i.sharing == Sharing && !Permitted(i.permission))
    && (state == CriticalBattery <==> consented && i.critical)
    && (state == Live <==> i.inSession)
    && (i.inSession ==> consented && !i.critical)
    && (state == LowBattery <==> consented && !i.critical && !i.inSession && i.low)
    && (consented && !i.critical && !i.inSession && !i.low ==>
          && (state == Offline <==> !i.online)
          && (state == Stale <==> i.online && i.stale)
          && (i.online && !i.stale ==> NamedFor(state, i.motion)))
  }

  /** The battery levels of the log, after the first reading if the start names no tier. */
  function LevelsFrom(init: ContextInit, events: seq<Event>): seq<Option<Num>> {
    (if init.batteryTier.Some? then [] else [init.batteryLevel]) + BatteryLog(events)
  }

  /** The limit last asked for, or the default, as near as legal; what is no number counts as the shortest. */
  ghost predicate IsLimit(limit: real, asked: Num) {
    if asked.Finite? then Nearest(limit, asked.value, Range(300.0, 86400.0)) else limit == 300.0
  }

  /** Longer since the last fix, or before the first one since consent, than the limit. */
  ghost predicate TooOld(init: ContextInit, events: seq<Event>) {
    var start := CreateTrackingContext(init);
    var last := ReduceAll(start, events);
    last.enabledAtMs.Some?
    && last.nowMs - OrElse(FixTime(start, events), last.enabledAtMs.value) > last.maxStaleSeconds * 1000.0
  }

  ghost function InputsOf(init: ContextInit, events: seq<Event>): Inputs {
    var tier, levels := OrElse(init.batteryTier, Normal), LevelsFrom(init, events);
    Inputs(
      Latest(SharingIn, events, OrElse(init.sharing, NeverEnabled)),
      Latest(PermissionIn, events, OrElse(init.permission, UNKNOWN_PERMISSION)),
      Latched(tier == Critical, levels, 0.1, 0.15),
      ReduceAll(CreateTrackingContext(init), events).liveSession.Some?,
      Latched(tier != Normal, levels, 0.2, 0.25) || Latest(LowPowerIn, events, OrElse(init.isLowPowerMode, false)),
      Latest(OnlineIn, events, OrElse(init.connectivity, Online) == Online),
      TooOld(init, events),
      Latest(MotionIn, events, OrElse(init.motion, MotionUnknown)))
  }

  lemma InputsFollowLog(init: ContextInit, events: seq<Event>)
    ensures var last, i := ReduceAll(CreateTrackingContext(init), events), InputsOf(init, events);
            && last.sharing == i.sharing && last.permission == i.permission && last.motion == i.motion
            && (last.connectivity == Online <==> i.online)
            && (last.batteryTier == Critical <==> i.critical)
            && (last.batteryTier != Normal || last.isLowPowerMode <==> i.low)
  {
    hide Reduce, CreateTrackingContext, TooOld, Latched, Latest;
    var start := CreateTrackingContext(init);
    forall c: Context, e: Event
      ensures Reduce(c, e).sharing == OrElse(SharingIn(e.change), c.sharing)
      ensures Reduce(c, e).permission == OrElse(PermissionIn(e.change), c.permission)
      ensures Reduce(c, e).motion == OrElse(MotionIn(e.change), c.motion)
      ensures (Reduce(c, e).connectivity == Online) == OrElse(OnlineIn(e.change), c.connectivity == Online)
      ensures Reduce(c, e).isLowPowerMode == OrElse(LowPowerIn(e.change), c.isLowPowerMode)
    {
      StepSays(c, e);
    }
    FollowsLatest((c: Context) => c.sharing, SharingIn, start, events);
    FollowsLatest((c: Context) => c.permission, PermissionIn, start, events);
    FollowsLatest((c: Context) => c.motion, MotionIn, start, events);
    FollowsLatest((c: Context) => c.connectivity == Online, OnlineIn, start, events);
    FollowsLatest((c: Context) => c.isLowPowerMode, LowPowerIn, start, events);
    StartSays(init);
    BandFromStart(init, events);
  }

  lemma StartSays(init: ContextInit)
    ensures var start := CreateTrackingContext(init);
            && start.sharing == OrElse(init.sharing, NeverEnabled)
            && start.permission == OrElse(init.permission, UNKNOWN_PERMISSION)
            && start.motion == OrElse(init.motion, MotionUnknown)
            && start.connectivity == OrElse(init.connectivity, Online)
            && start.isLowPowerMode == OrElse(init.isLowPowerMode, false)
            && start.batteryTier == OrElse(init.batteryTier, NextBatteryTier(Normal, init.batteryLevel))
            && start.nowMs == init.nowMs && start.lastFixAtMs == init.lastFixAtMs
            && (start.enabledAtMs.Some? ==> start.enabledAtMs == Some(OrElse(init.enabledAtMs, init.nowMs)))
            && start.maxStaleSeconds
               == ClampInto(OrElse(init.maxStaleSeconds, Finite(DEFAULT_MAX_STALE_SECONDS)), MAX_STALE_SECONDS_RANGE)
  {
    hide NextBatteryTier, ClampInto;
  }

  lemma BandFromStart(init: ContextInit, events: seq<Event>)
    ensures var band := ReduceAll(CreateTrackingContext(init), events).batteryTier;
            var tier, levels := OrElse(init.batteryTier, Normal), LevelsFrom(init, events);
            && (band == Critical <==> Latched(tier == Critical, levels, 0.1, 0.15))
            && (band != Normal <==> Latched(tier != Normal, levels, 0.2, 0.25))
  {
    hide Reduce, ReduceAll, CreateTrackingContext, NextBatteryTier, Latched;
    var tier, levels := OrElse(init.batteryTier, Normal), LevelsFrom(init, events);
    StartSays(init);
    BandFollowsBatteryLog(CreateTrackingContext(init), events);
    TierIsTwoLatches(tier, levels);
    if init.batteryTier.None? {
      assert levels[1..] == BatteryLog(events);
    } else {
      assert levels == BatteryLog(events);
    }
  }

  lemma ReportsWhenDerived(ctx: Context, i: Inputs)
    requires Derived(ctx)
    requires ctx.sharing == i.sharing && ctx.permission == i.permission && ctx.motion == i.motion
    requires (ctx.connectivity == Online <==> i.online) && (ctx.liveSession.Some? <==> i.inSession)
    requires (ctx.batteryTier == Critical <==> i.critical)
    requires (ctx.batteryTier != Normal || ctx.isLowPowerMode <==> i.low)
    requires Active(ctx) ==> (ctx.isStale <==> i.stale)
    ensures Reports(ctx.state, i)
  {
    hide Derived;
    DerivedFacts(ctx);
  }

  /**
   * On every run the reported state is determined by the log: by the last consent, permission,
   * power mode, connectivity and motion it names, the battery latches, whether a live session runs,
   * and whether the last fix is too old.
   */
  lemma StateFollowsLog(init: ContextInit, events: seq<Event>)
    ensures var last := ReduceAll(CreateTrackingContext(init), events);
            && Reports(last.state, InputsOf(init, events))
            && IsLimit(last.maxStaleSeconds,
                 Latest(LimitIn, events, OrElse(init.maxStaleSeconds, Finite(DEFAULT_MAX_STALE_SECONDS))))
            && CreateTrackingContext(init).lastFixAtMs == init.lastFixAtMs
            && (CreateTrackingContext(init).enabledAtMs.Some? ==>
                  CreateTrackingContext(init).enabledAtMs == Some(OrElse(init.enabledAtMs, init.nowMs)))
  {
    hide Reduce, ReduceAll, CreateTrackingContext, Derived, Reports, ClampInto;
    var start := CreateTrackingContext(init);
    CreateIsDerived(init);
    ReduceAllIsDerived(start, events);
    InputsFollowLog(init, events);
    StalenessFollowsLog(start, events);
    ReportsWhenDerived(ReduceAll(start, events), InputsOf(init, events));
    StartSays(init);
    var asked := OrElse(init.maxStaleSeconds, Finite(DEFAULT_MAX_STALE_SECONDS));
    LimitFollowsLog(start, events, asked);
    ClampedIsLimit(Latest(LimitIn, events, asked));
  }

  lemma ClampedIsLimit(asked: Num)
    ensures IsLimit(ClampInto(asked, MAX_STALE_SECONDS_RANGE), asked)
  {
    if asked.Finite? { ClampIsNearest(asked.value, MAX_STALE_SECONDS_RANGE); }
  }

  // ---- live sessions -----------------------------------------------------

  /** The whole seconds asked for, at least one and at most the ceiling. */
  predicate Granted(seconds: int, requested: real, ceiling: int) {
    if requested < 1.0 then seconds == 1
    else if requested < ceiling as real then seconds as real <= requested < (seconds + 1) as real
    else seconds == ceiling
  }

  /** The session that the request starts, if it is granted. */
  predicate Starts(after: Context, sessionId: string, requested: Num) {
    && after.liveSession.Some? && requested.Finite?
    && var s := after.liveSession.value;
       && s.sessionId == sessionId && s.startedAtMs == after.nowMs && s.requestedDurationSeconds == requested
       && s.expiresAtMs == s.startedAtMs + s.grantedDurationSeconds as real * 1000.0
       && NamedFor(s.ambientStateAtStart, after.motion)
       && Granted(s.grantedDurationSeconds, requested.value,
            if after.batteryTier == Low || after.isLowPowerMode then 300 else 600)
  }

  /** The first reason against a request, in the order in which they are given. */
  function ReasonAgainst(ctx: Context, running: bool, requested: Num): Option<LiveSessionRejection> {
    if ctx.sharing != Sharing then Some(RejectedSharingDisabled)
    else if !Permitted(ctx.permission) then Some(RejectedPermissionRequired)
    else if ctx.batteryTier == Critical then Some(RejectedCriticalBattery)
    else if running then Some(AlreadyActive)
    else if requested == NonFinite || requested.value <= 0.0 then Some(InvalidDuration)
    else None
  }

  /** A request is answered with the first reason against it, or else starts a session up to the ceiling. */
  lemma RequestsExactly(ctx: Context, event: Event)
    requires Derived(ctx) && event.change.LiveSessionStarted?
    ensures var after, requested := Reduce(ctx, event), event.change.requestedDurationSeconds;
            var running := ctx.liveSession.Some? && after.nowMs < ctx.liveSession.value.expiresAtMs;
            && after.lastLiveRejection == ReasonAgainst(ctx, running, requested)
            && if after.lastLiveRejection.None? then
                 Starts(after, event.change.sessionId, requested) && after.lastLiveEndReason.None?
               else after.liveSession == if running then ctx.liveSession else None
  {
    hide Derived, Ladder, Staleness, EnabledAt;
    DerivedFacts(ctx);
  }

  /** Why an event that is no request ends the running session, if it does. */
  function ReasonToEnd(after: Context, change: Change): Option<LiveSessionEndReason> {
    if change == LiveSessionStopped then Some(Stopped)
    else if after.sharing != Sharing then Some(EndedSharingDisabled)
    else if !Permitted(after.permission) then Some(EndedPermissionRequired)
    else if after.batteryTier == Critical then Some(EndedCriticalBattery)
    else None
  }

  /**
   * Any other event leaves a running session as it is, unless it has expired, is stopped, or a
   * consent or the battery has failed, and the first of these is given as the reason.
   */
  lemma SessionEndsExactly(ctx: Context, event: Event)
    requires Derived(ctx) && !event.change.LiveSessionStarted?
    ensures var after := Reduce(ctx, event);
            var expired := ctx.liveSession.Some? && after.nowMs >= ctx.liveSession.value.expiresAtMs;
            var reason := if expired then Some(Expired) else ReasonToEnd(after, event.change);
            && after.lastLiveRejection == ctx.lastLiveRejection
            && if ctx.liveSession.Some? && reason.Some? then
                 after.liveSession.None? && after.lastLiveEndReason == reason
               else after.liveSession == ctx.liveSession && after.lastLiveEndReason == ctx.lastLiveEndReason
  {
    hide Derived, ApplyChange, Ladder, Staleness, EnabledAt;
    DerivedFacts(ctx);
    var nowMs := Clock(ctx.nowMs, event.atMs);
    ChangeKeepsSession(ExpireLiveSession(ctx.(nowMs := nowMs), nowMs), event.change, nowMs);
  }

  lemma ChangeKeepsSession(ctx: Context, change: Change, nowMs: real)
    requires !change.LiveSessionStarted?
    ensures var after := ApplyChange(ctx, change, nowMs);
            && after.lastLiveRejection == ctx.lastLiveRejection
            && if change == LiveSessionStopped && ctx.liveSession.Some? then
                 after.liveSession.None? && after.lastLiveEndReason == Some(Stopped)
               else after.liveSession == ctx.liveSession && after.lastLiveEndReason == ctx.lastLiveEndReason
  {
  }
}
