/** The state of one stillness-detector component (src/App.js, the state
    hooks at lines 13-16 and the closure variable of line 19) as a value, the
    operations that change it as functions from the old state to the new one,
    and the sequences of events the browser may deliver. */
module Session {
  import opened Alerts
  import opened Ticker

  /** A device-motion sample, abstracted: whether the event carries
      `accelerationIncludingGravity` at all, and whether its gravity-compensated
      magnitude is strictly above the stillness threshold of 0.1. */
  datatype Sample = Sample(hasAcceleration: bool, exceedsThreshold: bool)

  /** How the platform answers a start request: there is no `DeviceMotionEvent`
      global at all (reading `DeviceMotionEvent.requestPermission` throws), there
      is no `requestPermission` function, the request resolves with a response
      string, or the request promise rejects. */
  datatype Permission = NoMotionApi | NoRequestApi | Responded(response: string) | RequestRejected

  /** The component's state. `listening` says whether `handleMotion` is
      registered for `devicemotion` events and `ticking` whether the
      one-second interval is running. */
  datatype Monitor = Monitor(
    stillnessDuration: int,
    currentAlert: AlertStage,
    isStarted: bool,
    permissionGranted: bool,
    lastMovementTime: int,
    listening: bool,
    ticking: bool)

  /** The displayed alert belongs to the displayed duration. */
  predicate AlertCurrent(m: Monitor) {
    m.currentAlert == ResolveAlert(m.stillnessDuration)
  }

  /** The session flags (started, granted, subscribed) are equal in both states. */
  predicate SameSession(a: Monitor, b: Monitor) {
    a.isStarted == b.isStarted && a.permissionGranted == b.permissionGranted &&
    a.listening == b.listening && a.ticking == b.ticking
  }

  /** The sample counts as movement: acceleration is present and above threshold. */
  predicate IsMovement(sample: Sample) {
    sample.hasAcceleration && sample.exceedsThreshold
  }

  /** `setStillnessDuration(d)` followed by the effect that re-resolves the
      alert whenever the duration changes. */
  function Publish(m: Monitor, duration: int): (r: Monitor)
    ensures r.stillnessDuration == duration && AlertCurrent(r)
    ensures SameSession(m, r) && r.lastMovementTime == m.lastMovementTime
  {
    m.(stillnessDuration := duration, currentAlert := ResolveAlert(duration))
  }

  /** The state on mount: duration 0, the first stage shown, stopped, no
      permission, and the last movement taken to be the mount instant. */
  function Mount(now: int): (m: Monitor)
    ensures AlertCurrent(m) && m.stillnessDuration == 0 && m.currentAlert == ALERT_STAGES[0]
    ensures !m.isStarted && !m.permissionGranted && !m.listening && !m.ticking
    ensures m.lastMovementTime == now
  {
    Monitor(0, ALERT_STAGES[0], false, false, now, false, false)
  }

  /** `handleMotion`: a sample without acceleration data or without movement
      above threshold changes nothing; movement restarts the stillness clock
      and nothing else. */
  function HandleMotion(m: Monitor, sample: Sample, now: int): (r: Monitor)
    ensures !IsMovement(sample) ==> r == m
    ensures IsMovement(sample) ==>
      r.lastMovementTime == now && r.stillnessDuration == 0 &&
      r.currentAlert == ALERT_STAGES[0] && SameSession(m, r)
    ensures AlertCurrent(m) ==> AlertCurrent(r)
  {
    if !sample.hasAcceleration then m
    else if sample.exceedsThreshold then Publish(m.(lastMovementTime := now), 0)
    else m
  }

  /** The interval callback: publish the whole seconds since the last movement. */
  function Tick(m: Monitor, now: int): (r: Monitor)
    ensures r.stillnessDuration * 1000 <= now - m.lastMovementTime < r.stillnessDuration * 1000 + 1000
    ensures AlertCurrent(r) && SameSession(m, r) && r.lastMovementTime == m.lastMovementTime
  {
    Publish(m, ElapsedSeconds(now, m.lastMovementTime))
  }

  /** `stopDetection`: unsubscribe, clear the interval, clear the running flag
      and zero the duration; permission and the last movement are kept. */
  function StopDetection(m: Monitor): (r: Monitor)
    ensures !r.isStarted && !r.listening && !r.ticking
    ensures r.stillnessDuration == 0 && r.currentAlert == ALERT_STAGES[0] && AlertCurrent(r)
    ensures r.permissionGranted == m.permissionGranted && r.lastMovementTime == m.lastMovementTime
  {
    Publish(m.(listening := false, ticking := false, isStarted := false), 0)
  }

  /** `toggleDetection`: flip the running flag and nothing else. */
  function ToggleDetection(m: Monitor): (r: Monitor)
    ensures r.isStarted == !m.isStarted
    ensures r.(isStarted := m.isStarted) == m
  {
    if m.isStarted then m.(isStarted := false) else m.(isStarted := true)
  }

  /** Whether the start request ends with the listener attached: no request
      API on the platform, or the request answered exactly "granted". */
  function Granted(permission: Permission): (granted: bool)
    ensures permission.NoRequestApi? ==> granted
    ensures permission.Responded? ==> (granted <==> permission.response == "granted")
    ensures permission.NoMotionApi? || permission.RequestRejected? ==> !granted
  {
    permission.NoRequestApi? || (permission.Responded? && permission.response == "granted")
  }

  /** `startDetection`, with the permission promise settled at once. Without a
      `DeviceMotionEvent` global the first line throws and nothing changes.
      Otherwise, on a grant the listener is attached and both flags are set,
      and the interval is started whatever the answer. */
  function StartDetection(m: Monitor, permission: Permission): (r: Monitor)
    ensures permission.NoMotionApi? ==> r == m
    ensures !permission.NoMotionApi? ==> r.ticking
    ensures Granted(permission) ==> r.listening && r.isStarted && r.permissionGranted
    ensures !Granted(permission) && !permission.NoMotionApi? ==> r == m.(ticking := true)
    ensures r.stillnessDuration == m.stillnessDuration && r.currentAlert == m.currentAlert
    ensures r.lastMovementTime == m.lastMovementTime
  {
    if permission.NoMotionApi? then m
    else
      var subscribed :=
        if Granted(permission) then m.(listening := true, isStarted := true, permissionGranted := true)
        else m;
      subscribed.(ticking := true)
  }

  /** One run of the effect at lines 18-75 (without the cleanup of the previous
      run): a fresh last-movement instant, then `startDetection` only when the
      component is both started and granted. */
  function RunEffect(m: Monitor, now: int, permission: Permission): (r: Monitor)
    ensures r.lastMovementTime == now
    ensures !(m.isStarted && m.permissionGranted) ==> r == m.(lastMovementTime := now)
    ensures m.isStarted && m.permissionGranted ==> r == StartDetection(m.(lastMovementTime := now), permission)
    ensures r.stillnessDuration == m.stillnessDuration && r.currentAlert == m.currentAlert
  {
    var renewed := m.(lastMovementTime := now);
    if m.isStarted && m.permissionGranted then StartDetection(renewed, permission) else renewed
  }

  /** What the browser and the user can do to a mounted component. */
  datatype Event =
    | DeviceMotion(sample: Sample, now: int)
    | IntervalFired(now: int)
    | Toggle
    | Stop
    | EffectRun(now: int, permission: Permission)

  /** One event: motion samples reach `handleMotion` only while it is
      registered and the interval fires only while it runs. */
  function Step(m: Monitor, e: Event): (r: Monitor)
    ensures e.DeviceMotion? && !m.listening ==> r == m
    ensures e.IntervalFired? && !m.ticking ==> r == m
    ensures AlertCurrent(m) ==> AlertCurrent(r)
  {
    match e
    case DeviceMotion(sample, now) => if m.listening then HandleMotion(m, sample, now) else m
    case IntervalFired(now) => if m.ticking then Tick(m, now) else m
    case Toggle => ToggleDetection(m)
    case Stop => StopDetection(m)
    case EffectRun(now, permission) => RunEffect(m, now, permission)
  }

  /** Deliver events in order. With neither the listener nor the interval
      attached, motion samples and interval firings alone change nothing. */
  function Run(m: Monitor, events: seq<Event>): (r: Monitor)
    ensures events == [] ==> r == m
    ensures (!m.listening && !m.ticking &&
             forall i :: 0 <= i < |events| ==> events[i].DeviceMotion? || events[i].IntervalFired?) ==> r == m
    decreases |events|
  {
    if events == [] then m else Run(Step(m, events[0]), events[1..])
  }

  /** Delivering two sequences one after the other is delivering their concatenation. */
  lemma {:induction false} RunAppend(m: Monitor, first: seq<Event>, second: seq<Event>)
    ensures Run(m, first + second) == Run(Run(m, first), second)
    decreases |first|
  {
    if first == [] {
      assert first + second == second;
    } else {
      assert (first + second)[0] == first[0];
      assert (first + second)[1..] == first[1..] + second;
      RunAppend(Step(m, first[0]), first[1..], second);
    }
  }

  /** Stopping twice leaves the same state as stopping once. */
  lemma StopIdempotent(m: Monitor)
    ensures StopDetection(StopDetection(m)) == StopDetection(m)
  {
  }

  /** Toggling twice restores the state. */
  lemma ToggleTwiceRestores(m: Monitor)
    ensures ToggleDetection(ToggleDetection(m)) == m
  {
  }

  /** After a stop, device-motion samples have no effect. */
  lemma MotionIgnoredAfterStop(m: Monitor, sample: Sample, now: int)
    ensures Step(StopDetection(m), DeviceMotion(sample, now)) == StopDetection(m)
  {
  }

  /** While the interval runs and no movement occurs, each tick one period
      after the previous one publishes a duration exactly one second longer. */
  lemma TicksCountSeconds(m: Monitor, now: int)
    requires m.ticking
    ensures Step(Step(m, IntervalFired(now)), IntervalFired(now + 1000)).stillnessDuration ==
      Step(m, IntervalFired(now)).stillnessDuration + 1
  {
  }

  /** A start request that is answered with anything but "granted", or whose
      promise rejects, leaves the component stopped and ungranted, yet the
      interval has been started. */
  lemma DeniedStartStillTicks(m: Monitor, permission: Permission)
    requires !m.isStarted && !m.permissionGranted && !m.listening && !Granted(permission)
    ensures var r := StartDetection(m, permission);
      !r.isStarted && !r.permissionGranted && !r.listening && r.ticking == (m.ticking || !permission.NoMotionApi?)
  {
  }

  /** Every event keeps the displayed alert in line with the duration. */
  lemma StepKeepsAlertCurrent(m: Monitor, e: Event)
    requires AlertCurrent(m)
    ensures AlertCurrent(Step(m, e))
  {
  }

  lemma {:induction false} RunKeepsAlertCurrent(m: Monitor, events: seq<Event>)
    requires AlertCurrent(m)
    ensures AlertCurrent(Run(m, events))
    decreases |events|
  {
    if events != [] {
      StepKeepsAlertCurrent(m, events[0]);
      RunKeepsAlertCurrent(Step(m, events[0]), events[1..]);
    }
  }

  /** The detector has never got going: no permission, no listener, no
      interval, and the first stage shown for a zero duration. */
  predicate Dormant(m: Monitor) {
    !m.permissionGranted && !m.listening && !m.ticking &&
    m.stillnessDuration == 0 && m.currentAlert == ALERT_STAGES[0]
  }

  /** No single event wakes a dormant component: `startDetection` is guarded by
      `permissionGranted`, which only `startDetection` sets. */
  lemma StepKeepsDormant(m: Monitor, e: Event)
    requires Dormant(m)
    ensures Dormant(Step(m, e))
    ensures Step(m, e).isStarted == (if e.Toggle? then !m.isStarted else if e.Stop? then false else m.isStarted)
  {
  }

  /** From mount, no sequence of motion samples, interval firings, toggles,
      stops and effect runs ever grants permission, attaches the listener or
      starts the interval: the duration stays 0 and the first stage stays shown. */
  lemma {:induction false} MountedStaysDormant(now: int, events: seq<Event>)
    ensures Dormant(Run(Mount(now), events))
  {
    RunKeepsDormant(Mount(now), events);
  }

  lemma {:induction false} RunKeepsDormant(m: Monitor, events: seq<Event>)
    requires Dormant(m)
    ensures Dormant(Run(m, events))
    decreases |events|
  {
    if events != [] {
      StepKeepsDormant(m, events[0]);
      RunKeepsDormant(Step(m, events[0]), events[1..]);
    }
  }
}
