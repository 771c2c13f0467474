/**
One simulator connection: bytes are framed into messages, messages update the sensors' health, and sensors that stay
silent are reported.  The connection keeps the pending bytes, the last time each sensor was heard, and the set of
sensors it has reported; all three are proved against the log of what happened.
*/
module SensorMonitor {
  import opened Options
  import opened Framing
  import opened SystemState

  /** The steady clock counts nanoseconds. */
  type Time = int

  const SENSOR_TIMEOUT: Time := 2_000_000_000

  const TIMEOUT_FAULT := Fault(true, Critical)
  const NO_FAULT := Fault(false, NoSeverity)

  /** Two seconds, and the four sensors by name. */
  lemma TimeoutAndSensors(s: SensorId)
    ensures SENSOR_TIMEOUT == 2 * 1_000_000_000
    ensures s in ExpectedSensors() <==> s == "TEMP-01" || s == "VOLT-01" || s == "POS-01" || s == "MOTION-01"
  {
    assert ExpectedSensors()[0] == "TEMP-01" && ExpectedSensors()[1] == "VOLT-01";
    assert ExpectedSensors()[2] == "POS-01" && ExpectedSensors()[3] == "MOTION-01";
  }

  /** What parsing and analysing a message gives; parsing may reject it. */
  type Evaluation = Text -> Option<Update>

  datatype Event =
    | Heard(text: Text, at: Time)
    | Outage(sensor: SensorId, at: Time)

  // ---------------------------------------------------------------- what the log says

  predicate IsFrom(e: Event, evaluate: Evaluation, s: SensorId) {
    e.Heard? && evaluate(e.text).Some? && evaluate(e.text).value.sensor == s
  }

  /** The last time a valid message of the sensor arrived, or the start of the connection. */
  function LastHeard(log: seq<Event>, evaluate: Evaluation, start: Time, s: SensorId): Time {
    if log == [] then start
    else if IsFrom(log[|log| - 1], evaluate, s) then log[|log| - 1].at
    else LastHeard(log[..|log| - 1], evaluate, start, s)
  }

  /** That is the time of the latest valid message of the sensor, at position `i`, or the start when there is none. */
  lemma {:induction false} LastHeardIsLatest(log: seq<Event>, evaluate: Evaluation, start: Time, s: SensorId, i: int)
    requires -1 <= i < |log| && (i >= 0 ==> IsFrom(log[i], evaluate, s))
    requires forall k :: i < k < |log| ==> !IsFrom(log[k], evaluate, s)
    ensures LastHeard(log, evaluate, start, s) == if i >= 0 then log[i].at else start
  {
    if i < |log| - 1 {
      LastHeardIsLatest(log[..|log| - 1], evaluate, start, s, i);
    }
  }

  /** How many outages of the sensor were reported since it was last heard. */
  function OutagesSince(log: seq<Event>, evaluate: Evaluation, s: SensorId): nat {
    if log == [] || IsFrom(log[|log| - 1], evaluate, s) then 0
    else OutagesSince(log[..|log| - 1], evaluate, s) + if log[|log| - 1].Outage? && log[|log| - 1].sensor == s then 1 else 0
  }

  ghost predicate HeardBetween(log: seq<Event>, evaluate: Evaluation, i: int, k: int, s: SensorId) {
    exists m :: 0 <= i < m < k <= |log| && IsFrom(log[m], evaluate, s)
  }

  /** Between two reports of an outage of one sensor the sensor was heard: each outage is reported once. */
  ghost predicate OutagesApart(log: seq<Event>, evaluate: Evaluation) {
    forall i, k :: 0 <= i < k < |log| && log[i].Outage? && log[k].Outage? && log[i].sensor == log[k].sensor ==>
      HeardBetween(log, evaluate, i, k, log[i].sensor)
  }

  lemma {:induction false} HeardSinceOutage(log: seq<Event>, evaluate: Evaluation, s: SensorId, i: nat)
    requires i < |log| && log[i].Outage? && log[i].sensor == s && OutagesSince(log, evaluate, s) == 0
    ensures HeardBetween(log, evaluate, i, |log|, s)
  {
    var n := |log| - 1;
    if IsFrom(log[n], evaluate, s) {
      assert i < n;
    } else {
      HeardSinceOutage(log[..n], evaluate, s, i);
      var m :| 0 <= i < m < n && IsFrom(log[..n][m], evaluate, s);
      assert IsFrom(log[m], evaluate, s);
    }
  }

  lemma OutagesStayApart(log: seq<Event>, e: Event, evaluate: Evaluation)
    requires OutagesApart(log, evaluate) && (e.Outage? ==> OutagesSince(log, evaluate, e.sensor) == 0)
    ensures OutagesApart(log + [e], evaluate)
  {
    hide OutagesSince;
    var log1 := log + [e];
    forall i, k | 0 <= i < k < |log1| && log1[i].Outage? && log1[k].Outage? && log1[i].sensor == log1[k].sensor
      ensures HeardBetween(log1, evaluate, i, k, log1[i].sensor)
    {
      var s := log1[i].sensor;
      if k < |log| {
        assert HeardBetween(log, evaluate, i, k, s);
      } else {
        HeardSinceOutage(log, evaluate, s, i);
      }
      var m :| 0 <= i < m < k && IsFrom(log[m], evaluate, s);
      assert IsFrom(log1[m], evaluate, s);
    }
  }

  function Texts(log: seq<Event>): seq<Text> {
    if log == [] then []
    else Texts(log[..|log| - 1]) + if log[|log| - 1].Heard? then [log[|log| - 1].text] else []
  }

  /** The health updates of one event after `log`; a reading of a reported sensor first clears its timeout. */
  function UpdatesOf(log: seq<Event>, evaluate: Evaluation, e: Event): seq<Update> {
    match e
    case Outage(s, _) => [Update(s, TIMEOUT_FAULT)]
    case Heard(text, _) =>
      match evaluate(text)
      case None => []
      case Some(u) => (if OutagesSince(log, evaluate, u.sensor) > 0 then [Update(u.sensor, NO_FAULT)] else []) + [u]
  }

  function AllUpdates(log: seq<Event>, evaluate: Evaluation): seq<Update> {
    if log == [] then []
    else AllUpdates(log[..|log| - 1], evaluate) + UpdatesOf(log[..|log| - 1], evaluate, log[|log| - 1])
  }

  /** A reported sensor that has not been heard since has a critical fault, whatever happened before the connection. */
  lemma {:induction false} ReportedMeansCritical(
      base: seq<Update>, log: seq<Event>, evaluate: Evaluation, s: SensorId)
    requires OutagesSince(log, evaluate, s) > 0
    ensures Latest(base + AllUpdates(log, evaluate), s) == Some(TIMEOUT_FAULT)
  {
    var n := |log| - 1;
    var earlier, e := log[..n], log[n];
    var more := UpdatesOf(earlier, evaluate, e);
    assert base + AllUpdates(log, evaluate) == base + AllUpdates(earlier, evaluate) + more;
    if e.Outage? && e.sensor == s {
      LatestOfLonger(base + AllUpdates(earlier, evaluate), more, s);
    } else {
      ReportedMeansCritical(base, earlier, evaluate, s);
      OthersKeepLatest(base + AllUpdates(earlier, evaluate), more, s);
    }
  }

  lemma LatestOfLonger(updates: seq<Update>, more: seq<Update>, s: SensorId)
    requires |more| == 1 && more[0].sensor == s
    ensures Latest(updates + more, s) == Some(more[0].fault)
  {
  }

  lemma OthersKeepLatest(updates: seq<Update>, more: seq<Update>, s: SensorId)
    requires |more| <= 2 && forall i :: 0 <= i < |more| ==> more[i].sensor != s
    ensures Latest(updates + more, s) == Latest(updates, s)
  {
    if more == [] {
      assert updates + more == updates;
    } else {
      assert (updates + more)[..|updates| + |more| - 1] == updates + more[..|more| - 1];
      OthersKeepLatest(updates, more[..|more| - 1], s);
    }
  }

  /** What one more event changes. */
  lemma OneMoreEvent(log: seq<Event>, e: Event, evaluate: Evaluation, start: Time, s: SensorId)
    ensures LastHeard(log + [e], evaluate, start, s)
            == if IsFrom(e, evaluate, s) then e.at else LastHeard(log, evaluate, start, s)
    ensures OutagesSince(log + [e], evaluate, s)
            == if IsFrom(e, evaluate, s) then 0
               else OutagesSince(log, evaluate, s) + if e.Outage? && e.sensor == s then 1 else 0
    ensures Texts(log + [e]) == Texts(log) + if e.Heard? then [e.text] else []
    ensures AllUpdates(log + [e], evaluate) == AllUpdates(log, evaluate) + UpdatesOf(log, evaluate, e)
  {
  }

  // ---------------------------------------------------------------- the connection

  datatype Input =
    | Chunk(bytes: Text)
    | Quiet
    | Closed
    | Failed

  /** The bytes received before the connection closes or fails. */
  function Stream(inputs: seq<Input>): Text
    decreases |inputs|
  {
    if inputs == [] then []
    else
      match inputs[0]
      case Chunk(bytes) => bytes + Stream(inputs[1..])
      case Quiet => Stream(inputs[1..])
      case _ => []
  }

  /** The sensors that must report. */
  function ExpectedSensors(): seq<SensorId> {
    ["TEMP-01", "VOLT-01", "POS-01", "MOTION-01"]
  }

  ghost predicate Monotone(clock: nat -> Time) {
    forall i: nat, k: nat :: i <= k ==> clock(i) <= clock(k)
  }

  /** What a connection keeps in its fields. */
  datatype Watch = Watch(lastSeen: map<SensorId, Time>, timedOut: set<SensorId>)

  /** The entries of a sensor agree with the log: the last time it was heard, and its one report of an outage. */
  ghost predicate SensorAgrees(h: Watch, log: seq<Event>, evaluate: Evaluation, start: Time, now: Time, s: SensorId) {
    var heard := LastHeard(log, evaluate, start, s);
    && (s in ExpectedSensors() ==> s in h.lastSeen)
    && (s in h.lastSeen ==> h.lastSeen[s] == heard)
    && OutagesSince(log, evaluate, s) == (if s in h.timedOut then 1 else 0)
    && (s in h.timedOut ==> s in ExpectedSensors() && now - heard > SENSOR_TIMEOUT)
  }

  ghost predicate Agrees(h: Watch, log: seq<Event>, evaluate: Evaluation, start: Time, now: Time) {
    forall s :: SensorAgrees(h, log, evaluate, start, now, s)
  }

  lemma LaterAgrees(h: Watch, log: seq<Event>, evaluate: Evaluation, start: Time, now: Time, later: Time)
    requires Agrees(h, log, evaluate, start, now) && now <= later
    ensures Agrees(h, log, evaluate, start, later)
  {
    hide ExpectedSensors;
    forall s
      ensures SensorAgrees(h, log, evaluate, start, later, s)
    {
      assert SensorAgrees(h, log, evaluate, start, now, s);
    }
  }

  /** The fields after a message. */
  function Hear(h: Watch, evaluate: Evaluation, text: Text, at: Time): Watch {
    match evaluate(text)
    case None => h
    case Some(u) => Watch(h.lastSeen[u.sensor := at], h.timedOut - {u.sensor})
  }

  lemma HearingAgreesFor(
      h: Watch, log: seq<Event>, evaluate: Evaluation, start: Time, at: Time, text: Text, s: SensorId)
    requires SensorAgrees(h, log, evaluate, start, at, s)
    ensures SensorAgrees(Hear(h, evaluate, text, at), log + [Heard(text, at)], evaluate, start, at, s)
  {
  }

  lemma HearingAgrees(h: Watch, log: seq<Event>, evaluate: Evaluation, start: Time, at: Time, later: Time, text: Text)
    requires Agrees(h, log, evaluate, start, at) && at <= later
    ensures Agrees(Hear(h, evaluate, text, at), log + [Heard(text, at)], evaluate, start, later)
  {
    hide SensorAgrees, Hear;
    forall s
      ensures SensorAgrees(Hear(h, evaluate, text, at), log + [Heard(text, at)], evaluate, start, at, s)
    {
      HearingAgreesFor(h, log, evaluate, start, at, text, s);
    }
    LaterAgrees(Hear(h, evaluate, text, at), log + [Heard(text, at)], evaluate, start, at, later);
  }

  /** The health updates of a message: a reported sensor's timeout is cleared first. */
  lemma HearingUpdates(h: Watch, log: seq<Event>, evaluate: Evaluation, start: Time, at: Time, text: Text)
    requires Agrees(h, log, evaluate, start, at)
    ensures AllUpdates(log + [Heard(text, at)], evaluate)
            == AllUpdates(log, evaluate) + Recovery(h, evaluate, text) + Reading(evaluate, text)
  {
    hide ExpectedSensors, LastHeard, OutagesSince, AllUpdates;
    OneMoreEvent(log, Heard(text, at), evaluate, start, "");
    if evaluate(text).Some? {
      assert SensorAgrees(h, log, evaluate, start, at, evaluate(text).value.sensor);
    }
  }

  function Recovery(h: Watch, evaluate: Evaluation, text: Text): seq<Update> {
    match evaluate(text)
    case None => []
    case Some(u) => if u.sensor in h.timedOut then [Update(u.sensor, NO_FAULT)] else []
  }

  function Reading(evaluate: Evaluation, text: Text): seq<Update> {
    match evaluate(text)
    case None => []
    case Some(u) => [u]
  }

  lemma ReportingAgrees(h: Watch, log: seq<Event>, evaluate: Evaluation, start: Time, now: Time, s: SensorId, at: Time)
    requires Agrees(h, log, evaluate, start, now) && s in ExpectedSensors() && s !in h.timedOut
    requires now - LastHeard(log, evaluate, start, s) > SENSOR_TIMEOUT
    ensures Agrees(h.(timedOut := h.timedOut + {s}), log + [Outage(s, at)], evaluate, start, now)
    ensures AllUpdates(log + [Outage(s, at)], evaluate) == AllUpdates(log, evaluate) + [Update(s, TIMEOUT_FAULT)]
  {
    hide ExpectedSensors, LastHeard, OutagesSince, AllUpdates;
    forall x
      ensures SensorAgrees(h.(timedOut := h.timedOut + {s}), log + [Outage(s, at)], evaluate, start, now, x)
    {
      assert SensorAgrees(h, log, evaluate, start, now, x);
      OneMoreEvent(log, Outage(s, at), evaluate, start, x);
    }
    OneMoreEvent(log, Outage(s, at), evaluate, start, s);
  }

  /** The reported sensors are exactly the expected ones that have been silent for more than two seconds. */
  ghost predicate TimedOutIsSilent(h: Watch, log: seq<Event>, evaluate: Evaluation, start: Time, now: Time) {
    forall s :: s in h.timedOut <==>
                  && (s == "TEMP-01" || s == "VOLT-01" || s == "POS-01" || s == "MOTION-01")
                  && now - LastHeard(log, evaluate, start, s) > 2 * 1_000_000_000
  }

  /** The first `n` expected sensors have been checked. */
  ghost predicate Checked(h: Watch, log: seq<Event>, evaluate: Evaluation, start: Time, now: Time, n: nat) {
    forall k :: 0 <= k < n <= |ExpectedSensors()| && now - LastHeard(log, evaluate, start, ExpectedSensors()[k]) > SENSOR_TIMEOUT
      ==> ExpectedSensors()[k] in h.timedOut
  }

  lemma NoneChecked(h: Watch, log: seq<Event>, evaluate: Evaluation, start: Time, now: Time)
    ensures Checked(h, log, evaluate, start, now, 0)
  {
  }

  lemma AllChecked(h: Watch, log: seq<Event>, evaluate: Evaluation, start: Time, now: Time)
    requires Agrees(h, log, evaluate, start, now)
    requires Checked(h, log, evaluate, start, now, |ExpectedSensors()|)
    ensures TimedOutIsSilent(h, log, evaluate, start, now)
  {
    hide ExpectedSensors, LastHeard, OutagesSince;
    forall s
      ensures s in h.timedOut <==>
                && (s == "TEMP-01" || s == "VOLT-01" || s == "POS-01" || s == "MOTION-01")
                && now - LastHeard(log, evaluate, start, s) > 2 * 1_000_000_000
    {
      TimeoutAndSensors(s);
      assert SensorAgrees(h, log, evaluate, start, now, s);
      if s in ExpectedSensors() {
        var k :| 0 <= k < |ExpectedSensors()| && ExpectedSensors()[k] == s;
      }
    }
  }

  /** The next expected sensor needs no report: it has one, or it was heard in time. */
  lemma NothingToReport(h: Watch, log: seq<Event>, evaluate: Evaluation, start: Time, now: Time, n: nat)
    requires n < |ExpectedSensors()| && Agrees(h, log, evaluate, start, now) && Checked(h, log, evaluate, start, now, n)
    requires ExpectedSensors()[n] in h.timedOut || LastHeard(log, evaluate, start, ExpectedSensors()[n]) >= now - SENSOR_TIMEOUT
    ensures Checked(h, log, evaluate, start, now, n + 1)
  {
  }

  /** A report of the next expected sensor. */
  lemma ReportChecks(h: Watch, log: seq<Event>, evaluate: Evaluation, start: Time, now: Time, n: nat, at: Time)
    requires n < |ExpectedSensors()| && Checked(h, log, evaluate, start, now, n)
    ensures var s := ExpectedSensors()[n];
            Checked(h.(timedOut := h.timedOut + {s}), log + [Outage(s, at)], evaluate, start, now, n + 1)
  {
    hide ExpectedSensors, LastHeard;
    var s := ExpectedSensors()[n];
    forall k | 0 <= k <= n && now - LastHeard(log + [Outage(s, at)], evaluate, start, ExpectedSensors()[k]) > SENSOR_TIMEOUT
      ensures ExpectedSensors()[k] in h.timedOut + {s}
    {
      OneMoreEvent(log, Outage(s, at), evaluate, start, ExpectedSensors()[k]);
    }
  }

  /** Every reported sensor holds a critical fault. */
  lemma ReportsAreCritical(
      h: Watch, base: seq<Update>, log: seq<Event>, evaluate: Evaluation, start: Time, now: Time, s: SensorId)
    requires Agrees(h, log, evaluate, start, now) && s in h.timedOut
    ensures Latest(base + AllUpdates(log, evaluate), s) == Some(TIMEOUT_FAULT)
  {
    hide ExpectedSensors, LastHeard, AllUpdates, Latest;
    assert SensorAgrees(h, log, evaluate, start, now, s);
    ReportedMeansCritical(base, log, evaluate, s);
  }

  class Connection {
    const manager: SystemStateManager
    const evaluate: Evaluation
    /** The successive readings of the steady clock. */
    const clock: nat -> Time
    var ticks: nat
    var pendingData: Text
    var lastSeenTimes: map<SensorId, Time>
    var timedOutSensors: set<SensorId>

    ghost const start: Time
    ghost const base: seq<Update>
    ghost var log: seq<Event>

    constructor (manager: SystemStateManager, evaluate: Evaluation, clock: nat -> Time)
      requires manager.Valid() && Monotone(clock)
      ensures Valid() && this.manager == manager && this.evaluate == evaluate && this.clock == clock
      ensures log == [] && pendingData == [] && timedOutSensors == {} && start == clock(0) && ticks == 1
      ensures base == manager.updates
    {
      this.manager, this.evaluate, this.clock := manager, evaluate, clock;
      var connectionTime := clock(0);
      var lastSeen: map<SensorId, Time> := map[];
      for i := 0 to |ExpectedSensors()|
        invariant forall k :: 0 <= k < i ==> ExpectedSensors()[k] in lastSeen
        invariant forall s :: s in lastSeen ==> lastSeen[s] == clock(0)
      {
        lastSeen := lastSeen[ExpectedSensors()[i] := connectionTime];
      }
      ticks, pendingData, lastSeenTimes, timedOutSensors := 1, [], lastSeen, {};
      start, base, log := clock(0), manager.updates, [];
      new;
      assert manager.updates == base + [];
    }

    function Fields(): Watch
      reads this
    {
      Watch(lastSeenTimes, timedOutSensors)
    }

    ghost predicate Valid()
      reads this, manager
    {
      && manager.Valid() && Monotone(clock)
      && manager.updates == base + AllUpdates(log, evaluate)
      && Agrees(Fields(), log, evaluate, start, clock(ticks))
      && OutagesApart(log, evaluate)
    }

    /** Any report forces safe mode. */
    lemma ReportsForceSafeMode()
      requires Valid()
      ensures forall s :: s in timedOutSensors ==> Latest(manager.updates, s) == Some(TIMEOUT_FAULT)
      ensures timedOutSensors != {} ==> manager.currentState == SafeMode
    {
      hide Agrees, AllUpdates, StateFits;
      forall s | s in timedOutSensors
        ensures Latest(manager.updates, s) == Some(TIMEOUT_FAULT)
      {
        ReportsAreCritical(Fields(), base, log, evaluate, start, clock(ticks), s);
      }
      if timedOutSensors != {} {
        var s :| s in timedOutSensors;
        CriticalMeansSafeMode(manager.updates, manager.currentState, s);
      }
    }

    /** The report of an outage, once for each. */
    method ReportTimeout(i: nat, now: Time)
      requires manager.Valid() && manager.updates == base + AllUpdates(log, evaluate)
      requires Agrees(Fields(), log, evaluate, start, now) && OutagesApart(log, evaluate)
      requires i < |ExpectedSensors()| && Checked(Fields(), log, evaluate, start, now, i)
      requires ExpectedSensors()[i] !in timedOutSensors
      requires now - LastHeard(log, evaluate, start, ExpectedSensors()[i]) > SENSOR_TIMEOUT
      modifies this`timedOutSensors, this`log, manager
      ensures manager.Valid() && manager.updates == base + AllUpdates(log, evaluate)
      ensures Agrees(Fields(), log, evaluate, start, now) && Checked(Fields(), log, evaluate, start, now, i + 1)
      ensures OutagesApart(log, evaluate)
      ensures timedOutSensors == old(timedOutSensors) + {ExpectedSensors()[i]}
      ensures log == old(log) + [Outage(ExpectedSensors()[i], now)] && Texts(log) == Texts(old(log))
    {
      hide Agrees, AllUpdates, Checked, ExpectedSensors, LastHeard, OutagesSince, Texts, OutagesApart;
      var s := ExpectedSensors()[i];
      ReportIsFirst(Fields(), log, evaluate, start, now, s);
      OutagesStayApart(log, Outage(s, now), evaluate);
      ReportChecks(Fields(), log, evaluate, start, now, i, now);
      ReportingAgrees(Fields(), log, evaluate, start, now, s, now);
      OneMoreEvent(log, Outage(s, now), evaluate, start, s);
      timedOutSensors := timedOutSensors + {s};
      manager.UpdateSensor(s, TIMEOUT_FAULT);
      log := log + [Outage(s, now)];
    }

    /**
    `checkSensorTimeouts`.  Afterwards the reported sensors are exactly the silent ones, each with a critical fault,
    and each with one report since it was last heard.
    */
    method CheckSensorTimeouts()
      requires Valid()
      modifies this`ticks, this`timedOutSensors, this`log, manager
      ensures Valid() && ticks == old(ticks) + 1
      ensures TimedOutIsSilent(Fields(), log, evaluate, start, clock(old(ticks)))
      ensures forall s :: s in timedOutSensors ==>
                OutagesSince(log, evaluate, s) == 1 && Latest(manager.updates, s) == Some(TIMEOUT_FAULT)
      ensures timedOutSensors != {} ==> manager.currentState == SafeMode
      ensures old(log) <= log && forall k :: |old(log)| <= k < |log| ==> log[k].Outage? && log[k].at == clock(old(ticks))
      ensures Texts(log) == Texts(old(log))
    {
      hide Agrees, AllUpdates, Monotone, Checked, TimedOutIsSilent, ExpectedSensors, LastHeard, OutagesSince, Texts;
      hide OutagesApart;
      var currentTime := clock(ticks);
      assert clock(ticks) <= clock(ticks + 1) by { LaterReading(clock, ticks); }
      NoneChecked(Fields(), log, evaluate, start, currentTime);
      for i := 0 to |ExpectedSensors()|
        invariant manager.Valid() && Monotone(clock) && manager.updates == base + AllUpdates(log, evaluate)
        invariant Agrees(Fields(), log, evaluate, start, currentTime) && OutagesApart(log, evaluate)
        invariant Checked(Fields(), log, evaluate, start, currentTime, i)
        invariant ticks == old(ticks) && Texts(log) == Texts(old(log)) && old(log) <= log
        invariant forall k :: |old(log)| <= k < |log| ==> log[k].Outage? && log[k].at == currentTime
      {
        var s := ExpectedSensors()[i];
        Registered(Fields(), log, evaluate, start, currentTime, s);
        if s in lastSeenTimes {
          var elapsed := currentTime - lastSeenTimes[s];
          if elapsed > SENSOR_TIMEOUT && s !in timedOutSensors {
            ReportTimeout(i, currentTime);
          } else {
            NothingToReport(Fields(), log, evaluate, start, currentTime, i);
          }
        }
      }
      AllChecked(Fields(), log, evaluate, start, currentTime);
      OneReportEach(Fields(), log, evaluate, start, currentTime);
      LaterAgrees(Fields(), log, evaluate, start, currentTime, clock(ticks + 1));
      ticks := ticks + 1;
      ReportsForceSafeMode();
    }

    /**
    `processSensorMessage`.  The transition it logs leaves out the change that a recovery makes: it compares with the
    state after the timeout fault has been cleared.
    */
    method ProcessSensorMessage(message: Text) returns (transition: Option<(State, State)>)
      requires Valid()
      modifies this`ticks, this`lastSeenTimes, this`timedOutSensors, this`log, manager
      ensures Valid() && log == old(log) + [Heard(message, clock(old(ticks)))]
      ensures match evaluate(message)
              case None => Fields() == old(Fields())
              case Some(u) => lastSeenTimes == old(lastSeenTimes)[u.sensor := clock(old(ticks))]
                              && timedOutSensors == old(timedOutSensors) - {u.sensor}
      ensures var cleared := old(manager.updates)
                             + if evaluate(message).Some? && evaluate(message).value.sensor in old(timedOutSensors)
                               then [Update(evaluate(message).value.sensor, Fault(false, NoSeverity))] else [];
              && manager.updates == cleared + (if evaluate(message).Some? then [evaluate(message).value] else [])
              && (transition.Some? ==>
                    && StateFits(cleared, transition.value.0)
                    && transition.value.0 != transition.value.1 == manager.currentState)
              && (transition.None? ==> StateFits(cleared, manager.currentState))
    {
      hide Agrees, AllUpdates, Monotone, StateFits, OutagesApart;
      ghost var now := clock(ticks);
      LaterReading(clock, ticks);
      HearingAgrees(Fields(), log, evaluate, start, now, now, message);
      HearingAgrees(Fields(), log, evaluate, start, now, clock(ticks + 1), message);
      HearingUpdates(Fields(), log, evaluate, start, now, message);
      OutagesStayApart(log, Heard(message, now), evaluate);
      log := log + [Heard(message, now)];
      transition := None;
      ghost var cleared := manager.updates + Recovery(Fields(), evaluate, message);
      assert base + AllUpdates(log, evaluate) == cleared + Reading(evaluate, message);
      match evaluate(message) {
        case None =>
          assert cleared == manager.updates;
        case Some(update) =>
          lastSeenTimes := lastSeenTimes[update.sensor := clock(ticks)];
          ticks := ticks + 1;
          if update.sensor in timedOutSensors {
            timedOutSensors := timedOutSensors - {update.sensor};
            manager.UpdateSensor(update.sensor, NO_FAULT);
          }
          assert manager.updates == cleared;
          var previousState := manager.currentState;
          manager.UpdateSensor(update.sensor, update.fault);
          if previousState != manager.currentState {
            transition := Some((previousState, manager.currentState));
          }
      }
      assert Fields() == Hear(old(Fields()), evaluate, message, now);
      assert Agrees(Fields(), log, evaluate, start, clock(ticks));
    }

    /** The inner receive loop: the complete messages of the pending bytes are handled in order. */
    method HandleChunk(bytes: Text, ghost received: Text)
      requires Valid() && Texts(log) == Messages(received) && pendingData == Rest(received)
      modifies this, manager
      ensures Valid() && Texts(log) == Messages(received + bytes) && pendingData == Rest(received + bytes)
      ensures old(log) <= log && forall k :: |old(log)| <= k < |log| ==> log[k].Heard?
    {
      hide Messages, Rest, Lines, Agrees, OutagesApart, AllUpdates, Monotone, StateFits, LastHeard, OutagesSince, Texts;
      AppendChunk(received, bytes);
      pendingData := pendingData + bytes;
      var k := FindNewline(pendingData);
      while k < |pendingData|
        invariant 0 <= k <= |pendingData| && NoNewline(pendingData[..k]) && (k < |pendingData| ==> pendingData[k] == NEWLINE)
        invariant Valid() && old(log) <= log && forall k :: |old(log)| <= k < |log| ==> log[k].Heard?
        invariant Texts(log) + Messages(pendingData) == Messages(received + bytes)
        invariant Rest(pendingData) == Rest(received + bytes)
        decreases |pendingData|
      {
        CutLine(pendingData, k, Texts(log), received + bytes);
        var message := pendingData[..k];
        pendingData := pendingData[k + 1..];
        if message != [] {
          OneMoreEvent(log, Heard(message, clock(ticks)), evaluate, start, "");
          var transition := ProcessSensorMessage(message);
        }
        k := FindNewline(pendingData);
      }
      assert pendingData == pendingData[..k];
      NothingComplete(pendingData);
    }

    /**
    The receive loop.  However the stream is cut into chunks, the messages handled are those of the stream, and after
    every check the reported sensors are exactly the silent ones.
    */
    method ReceiveSensorMessages(inputs: seq<Input>) returns (failed: bool, checks: nat)
      requires Valid() && log == [] && pendingData == []
      modifies this, manager
      ensures Valid() && Texts(log) == Messages(Stream(inputs)) && pendingData == Rest(Stream(inputs))
      ensures checks > 0 ==> ticks > 0 && TimedOutIsSilent(Fields(), log, evaluate, start, clock(ticks - 1))
      ensures checks <= |inputs| && forall i :: 0 <= i < checks ==> inputs[i].Chunk? || inputs[i].Quiet?
      ensures checks < |inputs| ==> inputs[checks].Closed? || inputs[checks].Failed?
      ensures failed <==> checks < |inputs| && inputs[checks].Failed?
    {
      hide Valid, Messages, Rest, Lines, TimedOutIsSilent, LastHeard, OutagesSince, Texts, Latest;
      ghost var received: Text := [];
      checks := 0;
      NothingYet();
      while checks < |inputs|
        invariant checks <= |inputs| && Valid()
        invariant Texts(log) == Messages(received) && pendingData == Rest(received)
        invariant Stream(inputs) == received + Stream(inputs[checks..])
        invariant checks > 0 ==> ticks > 0 && TimedOutIsSilent(Fields(), log, evaluate, start, clock(ticks - 1))
        invariant forall i :: 0 <= i < checks ==> inputs[i].Chunk? || inputs[i].Quiet?
      {
        assert inputs[checks..][1..] == inputs[checks + 1..];
        assert received + [] == received;
        match inputs[checks] {
          case Closed =>
            return false, checks;
          case Failed =>
            return true, checks;
          case Quiet =>
            CheckSensorTimeouts();
          case Chunk(bytes) =>
            HandleChunk(bytes, received);
            received := received + bytes;
            CheckSensorTimeouts();
        }
        checks := checks + 1;
      }
      failed := false;
    }
  }

  lemma NothingYet()
    ensures Texts([]) == Messages([]) && Rest([]) == []
  {
  }

  lemma LaterReading(clock: nat -> Time, ticks: nat)
    requires Monotone(clock)
    ensures clock(ticks) <= clock(ticks + 1)
  {
  }

  /** Every expected sensor has been registered with the time it was last heard. */
  lemma Registered(h: Watch, log: seq<Event>, evaluate: Evaluation, start: Time, now: Time, s: SensorId)
    requires Agrees(h, log, evaluate, start, now)
    ensures s in ExpectedSensors() ==> s in h.lastSeen
    ensures s in h.lastSeen ==> h.lastSeen[s] == LastHeard(log, evaluate, start, s)
  {
    assert SensorAgrees(h, log, evaluate, start, now, s);
  }

  /** A sensor not yet reported has no report since it was heard. */
  lemma ReportIsFirst(h: Watch, log: seq<Event>, evaluate: Evaluation, start: Time, now: Time, s: SensorId)
    requires Agrees(h, log, evaluate, start, now) && s !in h.timedOut
    ensures OutagesSince(log, evaluate, s) == 0
  {
    assert SensorAgrees(h, log, evaluate, start, now, s);
  }

  lemma OneReportEach(h: Watch, log: seq<Event>, evaluate: Evaluation, start: Time, now: Time)
    requires Agrees(h, log, evaluate, start, now)
    ensures forall s :: s in h.timedOut ==> OutagesSince(log, evaluate, s) == 1
  {
    hide ExpectedSensors, LastHeard, OutagesSince;
    forall s | s in h.timedOut
      ensures OutagesSince(log, evaluate, s) == 1
    {
      assert SensorAgrees(h, log, evaluate, start, now, s);
    }
  }

  lemma {:induction false} OnlyOutagesHeardNothing(log: seq<Event>, evaluate: Evaluation, start: Time, s: SensorId)
    requires forall k :: 0 <= k < |log| ==> log[k].Outage?
    ensures LastHeard(log, evaluate, start, s) == start
  {
    if log != [] {
      OnlyOutagesHeardNothing(log[..|log| - 1], evaluate, start, s);
    }
  }

  /**
  One report for each outage is a promise for each connection only: a sensor that stays silent through two connections
  is reported in both, although its timeout fault was never cleared in between.
  */
  method ReconnectReportsAgain(evaluate: Evaluation, clock: nat -> Time, later: nat -> Time, s: SensorId)
    returns (manager: SystemStateManager, first: Connection, second: Connection)
    requires Monotone(clock) && Monotone(later) && s in ExpectedSensors()
    requires clock(1) - clock(0) > SENSOR_TIMEOUT && later(1) - later(0) > SENSOR_TIMEOUT
    ensures first != second && OutagesSince(first.log, evaluate, s) == 1 && OutagesSince(second.log, evaluate, s) == 1
    ensures Latest(second.base, s) == Some(TIMEOUT_FAULT) && Latest(manager.updates, s) == Some(TIMEOUT_FAULT)
    ensures Texts(first.log) == [] && Texts(second.log) == []
  {
    TimeoutAndSensors(s);
    hide OutagesApart;
    hide Monotone, ExpectedSensors, LastHeard, OutagesSince, Latest, Agrees, AllUpdates;
    manager := new SystemStateManager();
    first := new Connection(manager, evaluate, clock);
    first.CheckSensorTimeouts();
    OnlyOutagesHeardNothing(first.log, evaluate, first.start, s);
    second := new Connection(manager, evaluate, later);
    second.CheckSensorTimeouts();
    OnlyOutagesHeardNothing(second.log, evaluate, second.start, s);
  }
}
