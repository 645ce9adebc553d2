/** The stillness-detector component as an object whose fields are updated in
    place, the way src/App.js updates its state hooks and closure variables.
    Each method is proved against the matching function of module Session. */
module Detector {
  import opened Alerts
  import opened Ticker
  import opened Session

  class StillnessDetector {
    var stillnessDuration: int
    var currentAlert: AlertStage
    var isStarted: bool
    var permissionGranted: bool
    var lastMovementTime: int
    var listening: bool
    var ticking: bool

    /** The fields as a Session.Monitor value. */
    function State(): Monitor
      reads this
    {
      Monitor(stillnessDuration, currentAlert, isStarted, permissionGranted,
              lastMovementTime, listening, ticking)
    }

    ghost predicate Valid()
      reads this
    {
      AlertCurrent(State())
    }

    /** Mount: the four state hooks take their initial values and the effect's
        first run records the mount instant as the last movement. */
    constructor (now: int)
      ensures Valid() && State() == Mount(now)
    {
      stillnessDuration := 0;
      currentAlert := ALERT_STAGES[0];
      isStarted := false;
      permissionGranted := false;
      lastMovementTime := now;
      listening := false;
      ticking := false;
    }

    /** `setStillnessDuration` together with the effect that re-resolves the
        alert on every duration change. */
    method SetStillnessDuration(duration: int)
      modifies this
      ensures Valid() && State() == Publish(old(State()), duration)
    {
      stillnessDuration := duration;
      currentAlert := ResolveAlert(duration);
    }

    method HandleMotion(sample: Sample, now: int)
      requires Valid()
      modifies this
      ensures Valid() && State() == Session.HandleMotion(old(State()), sample, now)
    {
      if !sample.hasAcceleration {
        return;
      }
      if sample.exceedsThreshold {
        lastMovementTime := now;
        SetStillnessDuration(0);
      }
    }

    /** The body of the one-second interval. */
    method Tick(now: int)
      modifies this
      ensures Valid() && State() == Session.Tick(old(State()), now)
    {
      var currentStillnessDuration := ElapsedSeconds(now, lastMovementTime);
      SetStillnessDuration(currentStillnessDuration);
    }

    method StartDetection(permission: Permission)
      requires Valid()
      modifies this
      ensures Valid() && State() == Session.StartDetection(old(State()), permission)
    {
      match permission {
        case NoMotionApi =>
          return;
        case NoRequestApi =>
          listening := true;
          isStarted := true;
          permissionGranted := true;
        case Responded(response) =>
          if response == "granted" {
            listening := true;
            isStarted := true;
            permissionGranted := true;
          }
        case RequestRejected =>
      }
      ticking := true;
    }

    method StopDetection()
      modifies this
      ensures Valid() && State() == Session.StopDetection(old(State()))
    {
      listening := false;
      ticking := false;
      isStarted := false;
      SetStillnessDuration(0);
    }

    /** The effect body: a fresh last-movement instant, then start only when
        the component is both started and granted. */
    method RunEffect(now: int, permission: Permission)
      requires Valid()
      modifies this
      ensures Valid() && State() == Session.RunEffect(old(State()), now, permission)
    {
      lastMovementTime := now;
      if isStarted && permissionGranted {
        StartDetection(permission);
      }
    }

    method ToggleDetection()
      requires Valid()
      modifies this
      ensures Valid() && State() == Session.ToggleDetection(old(State()))
    {
      if isStarted {
        isStarted := false;
      } else {
        isStarted := true;
      }
    }

    /** Deliver one event: a motion sample reaches the handler only while it is
        registered, and the interval fires only while it runs. */
    method Deliver(e: Event)
      requires Valid()
      modifies this
      ensures Valid() && State() == Step(old(State()), e)
    {
      match e {
        case DeviceMotion(sample, now) =>
          if listening {
            HandleMotion(sample, now);
          }
        case IntervalFired(now) =>
          if ticking {
            Tick(now);
          }
        case Toggle => ToggleDetection();
        case Stop => StopDetection();
        case EffectRun(now, permission) => RunEffect(now, permission);
      }
    }

    /** Deliver a whole sequence of events in order. */
    method DeliverAll(events: seq<Event>)
      requires Valid()
      modifies this
      ensures Valid() && State() == Run(old(State()), events)
    {
      var i := 0;
      while i < |events|
        invariant 0 <= i <= |events|
        invariant Valid()
        invariant Run(old(State()), events) == Run(State(), events[i..])
      {
        assert events[i..][1..] == events[i + 1..];
        Deliver(events[i]);
        i := i + 1;
      }
    }
  }

  /** A freshly mounted component stays dormant whatever is delivered to it:
      duration 0, the first stage shown, and neither listener nor interval. */
  method MountAndDeliver(now: int, events: seq<Event>) returns (duration: int, alert: AlertStage, started: bool)
    ensures duration == 0 && alert == ALERT_STAGES[0]
    ensures started == Run(Mount(now), events).isStarted
  {
    var detector := new StillnessDetector(now);
    detector.DeliverAll(events);
    MountedStaysDormant(now, events);
    duration, alert, started := detector.stillnessDuration, detector.currentAlert, detector.isStarted;
  }
}
