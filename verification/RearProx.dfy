/** The rear proximity sensor: near and far decisions with hysteresis over time-of-flight readings. */
module RearProx {

  const EINVAL := 22
  const EIO := 5
  const CROSS_LOW := 0
  const CROSS_HIGH := 1
  const WEIGHT_CEILING := 2
  const LOW_THRESHOLD_MM := 70
  const HIGH_THRESHOLD_MM := 75
  const CLOSE := 1
  const FAR := 10
  const WRAP := 0x1_0000_0000

  /** The detector: the side it has seen, for how many readings, and the side it watches for. */
  datatype Prox = Prox(distance: int, weight: int, mode: int, pending: int, sendData: bool)

  predicate Sane(s: Prox) {
    s.distance in {CLOSE, FAR} && s.mode in {CROSS_LOW, CROSS_HIGH} && 0 <= s.weight < WRAP
  }

  function Seen(s: Prox, distance: int): Prox {
    var weight := if s.distance == distance then s.weight else 0;
    s.(distance := distance, weight := (weight + 1) % WRAP)
  }

  function Weighed(s: Prox, reading: int): Prox {
    if reading <= LOW_THRESHOLD_MM then Seen(s, CLOSE)
    else if reading >= HIGH_THRESHOLD_MM then Seen(s, FAR)
    else s
  }

  /** The mode that watches for the other side. */
  function ModeFor(distance: int): int {
    if distance == CLOSE then CROSS_HIGH else CROSS_LOW
  }

  predicate Decides(s: Prox, reading: int) {
    var w := Weighed(s, reading);
    w.weight >= WEIGHT_CEILING && w.mode != ModeFor(w.distance)
  }

  /** A reading; `writes` says whether the new mode can be written to the device. */
  function Handled(s: Prox, reading: int, writes: bool): Prox {
    var w := Weighed(s, reading);
    if w.weight < WEIGHT_CEILING then w
    else if !Decides(s, reading) then w.(pending := w.distance)
    else w.(pending := w.distance, mode := if writes then ModeFor(w.distance) else w.mode, sendData := true)
  }

  /** Enabling, with the mode written to the device. The weight is left as it was. */
  predicate Started(s: Prox) {
    Sane(s) && s.distance == CLOSE && s.mode == CROSS_HIGH
  }

  // ----- runs

  datatype Answer = Nothing | Decided(distance: int)

  function After(s: Prox, readings: seq<int>): Prox {
    if readings == [] then s
    else Handled(After(s, readings[..|readings| - 1]), readings[|readings| - 1], true)
  }

  function Decision(s: Prox, reading: int): Answer {
    if Decides(s, reading) then Decided(Handled(s, reading, true).pending) else Nothing
  }

  /** What each reading decides. */
  function Decisions(s: Prox, readings: seq<int>): (ds: seq<Answer>)
    ensures |ds| == |readings|
  {
    if readings == [] then []
    else
      var before := readings[..|readings| - 1];
      Decisions(s, before) + [Decision(After(s, before), readings[|readings| - 1])]
  }

  // ----- what the decisions should be

  /** The side of a reading; none between the thresholds. */
  function Side(reading: int): Answer {
    if reading <= 70 then Decided(CLOSE) else if reading >= 75 then Decided(FAR) else Nothing
  }

  /** The side of the last reading that had one. */
  function LastSide(readings: seq<int>): Answer {
    if readings == [] then Nothing
    else if Side(readings[|readings| - 1]).Decided? then Side(readings[|readings| - 1])
    else LastSide(readings[..|readings| - 1])
  }

  /** The last decision; the sensor starts out close. */
  function LastDecision(ds: seq<Answer>): int {
    if ds == [] then CLOSE
    else if ds[|ds| - 1].Decided? then ds[|ds| - 1].distance
    else LastDecision(ds[..|ds| - 1])
  }

  /** A decision is due when two successive readings lie on the side opposite to the last one. */
  function Due(previous: Answer, last: int, reading: int): Answer {
    if Side(reading).Decided? && previous == Side(reading) && Side(reading).distance != last then Side(reading) else Nothing
  }

  /** The state summarizes the readings and decisions so far; only one reading can be ahead. */
  ghost predicate Summary(s: Prox, previous: Answer, last: int) {
    && Sane(s) && s.mode == ModeFor(last) && last in {CLOSE, FAR}
    && s.distance == (if previous.Decided? then previous.distance else CLOSE)
    && (s.distance != last ==> s.weight == 1 && previous.Decided?)
  }

  lemma StepSummary(s: Prox, previous: Answer, last: int, reading: int)
    requires Summary(s, previous, last)
    ensures Decision(s, reading) == Due(previous, last, reading)
    ensures Summary(Handled(s, reading, true),
                    if Side(reading).Decided? then Side(reading) else previous,
                    if Decision(s, reading).Decided? then Decision(s, reading).distance else last)
  {}

  lemma {:induction false} RunSummary(s: Prox, readings: seq<int>)
    requires Started(s)
    ensures Summary(After(s, readings), LastSide(readings), LastDecision(Decisions(s, readings)))
  {
    if readings != [] {
      var before := readings[..|readings| - 1];
      RunSummary(s, before);
      var ds := Decisions(s, readings);
      assert ds[..|ds| - 1] == Decisions(s, before);
      StepSummary(After(s, before), LastSide(before), LastDecision(Decisions(s, before)), readings[|readings| - 1]);
    }
  }

  lemma {:induction false} DecisionsOfPrefix(s: Prox, readings: seq<int>, n: nat)
    requires n <= |readings|
    ensures Decisions(s, readings[..n]) == Decisions(s, readings)[..n]
    decreases |readings|
  {
    if n == |readings| {
      assert readings[..n] == readings;
    } else {
      var before := readings[..|readings| - 1];
      DecisionsOfPrefix(s, before, n);
      assert before[..n] == readings[..n];
    }
  }

  /** From an enabling on, over any readings: each one decides exactly what is due, and so decisions
      alternate, the first being FAR. */
  lemma DecisionsAreDue(s: Prox, readings: seq<int>, i: nat)
    requires Started(s) && i < |readings|
    ensures Decisions(s, readings)[i]
         == Due(LastSide(readings[..i]), LastDecision(Decisions(s, readings)[..i]), readings[i])
  {
    var before := readings[..i];
    var through := readings[..i + 1];
    assert through[..i] == before;
    RunSummary(s, before);
    DecisionsOfPrefix(s, readings, i);
    DecisionsOfPrefix(s, readings, i + 1);
    assert Decisions(s, through)[i] == Decisions(s, readings)[i];
    StepSummary(After(s, before), LastSide(before), LastDecision(Decisions(s, before)), readings[i]);
  }

  /** No two successive decisions are the same. */
  lemma DecisionsAlternate(s: Prox, readings: seq<int>, i: nat)
    requires Started(s) && i < |readings| && Decisions(s, readings)[i].Decided?
    ensures Decisions(s, readings)[i].distance
         == if LastDecision(Decisions(s, readings)[..i]) == CLOSE then FAR else CLOSE
  {
    DecisionsAreDue(s, readings, i);
    RunSummary(s, readings[..i]);
    DecisionsOfPrefix(s, readings, i);
  }

  /** A decision is made again at a next reading that is not on the other side exactly when the new
      mode could not be written. */
  lemma RepeatedWhenNotWritten(s: Prox, previous: Answer, last: int, reading: int, next: int, writes: bool)
    requires Summary(s, previous, last) && Decides(s, reading)
    requires Side(next) == Nothing || Side(next) == Side(reading)
    ensures Decides(Handled(s, reading, writes), next) <==> !writes
  {}

  /** What a reading leaves, in numbers. A decision (1 is close, 10 is far) marks data to be sent, with
      the side that was seen, and sets the mode to watch for the other side (1 while close, 0 while far)
      if it can be written; without a decision the mark and the mode stay as they were. */
  lemma DecisionIsReported(s: Prox, reading: int, writes: bool)
    requires Sane(s)
    ensures var t, seen := Handled(s, reading, writes), if reading <= 70 then 1 else if reading >= 75 then 10 else s.distance;
      && Sane(t) && t.distance == seen
      && (Decision(s, reading).Decided? ==>
            && Decision(s, reading) == Decided(seen)
            && t.sendData && t.pending == seen
            && t.mode == if writes then (if seen == 1 then 1 else 0) else s.mode)
      && (Decision(s, reading).Nothing? ==> t.sendData == s.sendData && t.mode == s.mode)
  {}

  ghost predicate AnyDecided(ds: seq<Answer>) {
    exists i :: 0 <= i < |ds| && ds[i].Decided?
  }

  lemma OneMoreAnswer(ds: seq<Answer>, d: Answer)
    ensures AnyDecided(ds + [d]) <==> AnyDecided(ds) || d.Decided?
  {
    var all := ds + [d];
    assert all[|ds|] == d && forall i :: 0 <= i < |ds| ==> all[i] == ds[i];
  }

  /** Data is marked to be sent over a run exactly when some reading of it has decided. */
  lemma {:induction false} MarkedByDecisions(s: Prox, readings: seq<int>)
    requires Started(s)
    ensures After(s, readings).sendData <==> s.sendData || AnyDecided(Decisions(s, readings))
  {
    if readings != [] {
      var before, last := readings[..|readings| - 1], readings[|readings| - 1];
      RunSummary(s, before);
      MarkedByDecisions(s, before);
      DecisionIsReported(After(s, before), last, true);
      OneMoreAnswer(Decisions(s, before), Decision(After(s, before), last));
      hide Handled;
      hide Decision;
      hide AnyDecided;
    }
  }

  // ----- the stateful code

  class RearProxSensor {
    var enabled: bool
    var detectDistance: int
    var detectWeight: int
    var detectMode: int
    var sendData: bool
    var pendingDistance: int

    ghost function Value(): Prox
      reads this
    {
      Prox(detectDistance, detectWeight, detectMode, pendingDistance, sendData)
    }

    constructor ()
      ensures Started(Value()) && !sendData && !enabled
    {
      enabled, detectDistance, detectWeight, detectMode := false, CLOSE, 0, CROSS_HIGH;
      sendData, pendingDistance := false, 0;
    }

    method SetSarConfig(mode: int, writes: bool) returns (err: int)
      modifies `detectMode
      ensures err == if mode != 0 && mode != 1 then -22 else if writes then 0 else -5
      ensures detectMode == if err == 0 then mode else old(detectMode)
    {
      if mode != CROSS_HIGH && mode != CROSS_LOW {
        return -EINVAL;
      }
      if writes {
        detectMode := mode;
        return 0;
      }
      return -EIO;
    }

    /** Enabling starts afresh, whatever came before. */
    method SetEnable(en: bool, writes: bool)
      requires Sane(Value())
      modifies this
      ensures Sane(Value()) && enabled == en
      ensures en && writes ==> Started(Value())
      ensures en ==> detectDistance == 1 && detectMode == if writes then 1 else old(detectMode)
      ensures !en ==> Value() == old(Value())
      ensures detectWeight == old(detectWeight) && sendData == old(sendData) && pendingDistance == old(pendingDistance)
    {
      enabled := en;
      if enabled {
        detectDistance := CLOSE;
        var _ := SetSarConfig(CROSS_HIGH, writes);
      }
    }

    method HandleSarProcess(distance: int, writes: bool)
      requires Sane(Value())
      modifies this
      ensures Sane(Value())
      ensures Value() == Handled(old(Value()), distance, writes) && enabled == old(enabled)
    {
      if distance <= LOW_THRESHOLD_MM {
        if detectDistance == FAR {
          detectDistance := CLOSE;
          detectWeight := 0;
        }
        detectWeight := (detectWeight + 1) % WRAP;
      } else if distance >= HIGH_THRESHOLD_MM {
        if detectDistance == CLOSE {
          detectDistance := FAR;
          detectWeight := 0;
        }
        detectWeight := (detectWeight + 1) % WRAP;
      }
      if detectWeight >= WEIGHT_CEILING {
        var mode := if detectDistance == CLOSE then CROSS_HIGH else CROSS_LOW;
        pendingDistance := detectDistance;
        if detectMode != mode {
          var _ := SetSarConfig(mode, writes);
          sendData := true;
        }
      }
    }
  }
}
