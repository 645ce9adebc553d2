/** The alert table of the stillness detector and the resolver that picks the
    stage to show for a stillness duration (src/App.js, ALERT_STAGES and the
    `findLast` effect). */
module Alerts {

  datatype Option<T> = None | Some(value: T)

  /** One escalation level: the stillness threshold in whole seconds, the
      message shown and the colour it is shown in. */
  datatype AlertStage = AlertStage(time: nat, message: string, color: string)

  const ALERT_STAGES: seq<AlertStage> := [
    AlertStage(2, "Movement detected", "green"),
    AlertStage(10, "Stillness for 10 seconds", "yellow"),
    AlertStage(30, "Stillness for 30 seconds", "orange"),
    AlertStage(60, "Stillness for 1 minute", "red"),
    AlertStage(120, "Stillness for 2 minutes", "darkred")
  ]

  /** Thresholds strictly increase along the table. */
  predicate Ascending(stages: seq<AlertStage>) {
    forall i, j :: 0 <= i < j < |stages| ==> stages[i].time < stages[j].time
  }

  /** The callback handed to `findLast`: the stage's threshold has been reached. */
  predicate Reached(stage: AlertStage, duration: int) {
    duration >= stage.time
  }

  /** `stages.findLast(stage => duration >= stage.time)`, returning the index
      of the stage found: the last stage whose threshold has been reached, or
      None when no threshold has been reached. Scans from the end. */
  function FindLast(stages: seq<AlertStage>, duration: int): (r: Option<nat>)
    ensures r.Some? ==> r.value < |stages| && Reached(stages[r.value], duration)
    ensures r.Some? ==> forall j :: r.value < j < |stages| ==> !Reached(stages[j], duration)
    ensures r.None? ==> forall j :: 0 <= j < |stages| ==> !Reached(stages[j], duration)
  {
    if |stages| == 0 then None
    else if Reached(stages[|stages| - 1], duration) then Some(|stages| - 1)
    else FindLast(stages[..|stages| - 1], duration)
  }

  /** `findLast(...) || ALERT_STAGES[0]`: the stage shown for a duration. */
  function ResolveAlert(duration: int): (stage: AlertStage)
    ensures stage in ALERT_STAGES
    ensures Reached(stage, duration) || stage == ALERT_STAGES[0]
  {
    match FindLast(ALERT_STAGES, duration)
    case Some(i) => ALERT_STAGES[i]
    case None => ALERT_STAGES[0]
  }

  lemma AlertStagesAscending()
    ensures |ALERT_STAGES| == 5 && Ascending(ALERT_STAGES)
    ensures ALERT_STAGES[0].time == 2 && ALERT_STAGES[4].time == 120
  {
  }

  /** On an ascending table the stage `findLast` picks carries the largest
      threshold that has been reached. */
  lemma FindLastIsMaximal(stages: seq<AlertStage>, duration: int)
    requires Ascending(stages)
    ensures FindLast(stages, duration).Some? ==>
      forall j :: 0 <= j < |stages| && Reached(stages[j], duration) ==>
        stages[j].time <= stages[FindLast(stages, duration).value].time
  {
  }

  /** A larger duration never makes `findLast` land on an earlier index, and a
      threshold reached once stays reached. This needs no ordering of the table. */
  lemma FindLastMonotone(stages: seq<AlertStage>, d1: int, d2: int)
    requires d1 <= d2
    ensures FindLast(stages, d1).Some? ==>
      FindLast(stages, d2).Some? && FindLast(stages, d1).value <= FindLast(stages, d2).value
  {
  }

  /** The stage shown is the table's stage with the largest threshold reached;
      when no threshold is reached it is the first stage. */
  lemma ResolveIsMaximalReached(duration: int)
    ensures (exists j :: 0 <= j < |ALERT_STAGES| && Reached(ALERT_STAGES[j], duration)) ==>
      Reached(ResolveAlert(duration), duration) &&
      forall j :: 0 <= j < |ALERT_STAGES| && Reached(ALERT_STAGES[j], duration) ==>
        ALERT_STAGES[j].time <= ResolveAlert(duration).time
    ensures (forall j :: 0 <= j < |ALERT_STAGES| ==> !Reached(ALERT_STAGES[j], duration)) ==>
      ResolveAlert(duration) == ALERT_STAGES[0]
  {
  }

  /** Escalation is monotone: a longer stillness never shows a stage with a
      lower threshold. */
  lemma ResolveMonotone(d1: int, d2: int)
    requires d1 <= d2
    ensures ResolveAlert(d1).time <= ResolveAlert(d2).time
  {
  }

  /** `findLast` finds nothing only below the first threshold (2 s); the
      fallback to ALERT_STAGES[0] is therefore taken for 0 and 1 s and for
      negative durations. */
  lemma FallbackOnlyBelowFirstThreshold(duration: int)
    ensures FindLast(ALERT_STAGES, duration).None? <==> duration < 2
  {
    AlertStagesAscending();
    if duration >= 2 {
      assert Reached(ALERT_STAGES[0], duration);
    }
  }

  /** The resolver as a closed form over the five intervals of the table. */
  lemma ResolveClosedForm(duration: int)
    ensures ResolveAlert(duration) ==
      if duration >= 120 then ALERT_STAGES[4]
      else if duration >= 60 then ALERT_STAGES[3]
      else if duration >= 30 then ALERT_STAGES[2]
      else if duration >= 10 then ALERT_STAGES[1]
      else ALERT_STAGES[0]
  {
  }

  /** Every duration below 10 s shows the green "Movement detected" stage. */
  lemma ResolveBelowTen(duration: int)
    requires duration < 10
    ensures ResolveAlert(duration).message == "Movement detected"
    ensures ResolveAlert(duration).color == "green"
  {
  }

  /** Every duration of two minutes or more shows the darkred stage. */
  lemma ResolveFromTwoMinutes(duration: int)
    requires duration >= 120
    ensures ResolveAlert(duration).message == "Stillness for 2 minutes"
    ensures ResolveAlert(duration).color == "darkred"
  {
  }

  /** The stage boundaries: 0 and 1 s fall back to the first stage, 10 s is
      yellow, 59 s is still orange and 60 s turns red. */
  lemma ResolveBoundaries()
    ensures ResolveAlert(0) == ALERT_STAGES[0] && ResolveAlert(1) == ALERT_STAGES[0]
    ensures ResolveAlert(10) == AlertStage(10, "Stillness for 10 seconds", "yellow")
    ensures ResolveAlert(59) == AlertStage(30, "Stillness for 30 seconds", "orange")
    ensures ResolveAlert(60) == AlertStage(60, "Stillness for 1 minute", "red")
  {
    ResolveClosedForm(0);
    ResolveClosedForm(1);
    ResolveClosedForm(10);
    ResolveClosedForm(59);
    ResolveClosedForm(60);
  }
}
