/**
The health of the sensors and the operating state derived from it.  The manager keeps only each sensor's latest fault
and a cached state; both are proved against the whole history of updates.
*/
module SystemState {
  import opened Options

  type SensorId = string

  datatype Severity = NoSeverity | Warning | Critical

  /** What is left out of a fault is its type and its message. */
  datatype Fault = Fault(detected: bool, severity: Severity)

  datatype State = Normal | Degraded | SafeMode

  datatype Update = Update(sensor: SensorId, fault: Fault)

  /** The latest fault reported for a sensor. */
  function Latest(updates: seq<Update>, sensor: SensorId): Option<Fault> {
    if updates == [] then None
    else if updates[|updates| - 1].sensor == sensor then Some(updates[|updates| - 1].fault)
    else Latest(updates[..|updates| - 1], sensor)
  }

  predicate HasFault(updates: seq<Update>, sensor: SensorId) {
    Latest(updates, sensor).Some? && Latest(updates, sensor).value.detected
  }

  predicate HasCriticalFault(updates: seq<Update>, sensor: SensorId) {
    HasFault(updates, sensor) && Latest(updates, sensor).value.severity == Critical
  }

  /** The sensors whose latest update is a fault. */
  ghost function Faulted(updates: seq<Update>): set<SensorId> {
    set u | u in updates && HasFault(updates, u.sensor) :: u.sensor
  }

  /** One critical fault or two faults mean safe mode, one fault degraded operation. */
  ghost predicate StateFits(updates: seq<Update>, state: State) {
    && (state == SafeMode <==> (exists s :: s in Faulted(updates) && HasCriticalFault(updates, s)) || |Faulted(updates)| >= 2)
    && (state == Normal <==> Faulted(updates) == {})
  }

  lemma {:induction false} OnlyUpdatedSensorsHaveALatest(updates: seq<Update>, sensor: SensorId)
    ensures Latest(updates, sensor).Some? <==> exists i :: 0 <= i < |updates| && updates[i].sensor == sensor
  {
    if updates != [] {
      var n := |updates| - 1;
      OnlyUpdatedSensorsHaveALatest(updates[..n], sensor);
      if Latest(updates, sensor).Some? && updates[n].sensor != sensor {
        var i :| 0 <= i < n && updates[..n][i].sensor == sensor;
        assert updates[i].sensor == sensor;
      }
      if i :| 0 <= i < |updates| && updates[i].sensor == sensor && updates[n].sensor != sensor {
        assert updates[..n][i].sensor == sensor;
      }
    }
  }

  lemma FaultedIffHasFault(updates: seq<Update>, sensor: SensorId)
    ensures sensor in Faulted(updates) <==> HasFault(updates, sensor)
  {
    OnlyUpdatedSensorsHaveALatest(updates, sensor);
    if HasFault(updates, sensor) {
      var i :| 0 <= i < |updates| && updates[i].sensor == sensor;
      assert updates[i] in updates;
    }
  }

  /** A critical fault of any sensor forces safe mode. */
  lemma CriticalMeansSafeMode(updates: seq<Update>, state: State, sensor: SensorId)
    requires StateFits(updates, state) && HasCriticalFault(updates, sensor)
    ensures state == SafeMode
  {
    FaultedIffHasFault(updates, sensor);
  }

  predicate HealthShows(health: map<SensorId, Fault>, updates: seq<Update>, sensor: SensorId) {
    Latest(updates, sensor) == if sensor in health then Some(health[sensor]) else None
  }

  /** The faulted sensors among some of the keys. */
  ghost function FaultedAmong(health: map<SensorId, Fault>, keys: set<SensorId>): set<SensorId> {
    set s | s in keys && s in health && health[s].detected
  }

  lemma FaultedOfHealth(health: map<SensorId, Fault>, updates: seq<Update>)
    requires forall s :: HealthShows(health, updates, s)
    ensures FaultedAmong(health, health.Keys) == Faulted(updates)
  {
    forall s
      ensures s in FaultedAmong(health, health.Keys) <==> s in Faulted(updates)
    {
      assert HealthShows(health, updates, s);
      FaultedIffHasFault(updates, s);
    }
  }

  ghost predicate CriticalAmong(health: map<SensorId, Fault>, keys: set<SensorId>) {
    exists s :: s in FaultedAmong(health, keys) && health[s].severity == Critical
  }

  /** The rule on the health map is the rule on the history. */
  lemma CountsDecide(health: map<SensorId, Fault>, updates: seq<Update>, state: State)
    requires forall s :: HealthShows(health, updates, s)
    requires var count := |FaultedAmong(health, health.Keys)|;
             state == if CriticalAmong(health, health.Keys) || count >= 2 then SafeMode
                      else if count == 1 then Degraded else Normal
    ensures StateFits(updates, state)
  {
    FaultedOfHealth(health, updates);
    forall s | s in Faulted(updates)
      ensures s in health && (HasCriticalFault(updates, s) <==> health[s].severity == Critical)
    {
      FaultedIffHasFault(updates, s);
      assert HealthShows(health, updates, s);
    }
  }

  lemma NoKeys(health: map<SensorId, Fault>)
    ensures FaultedAmong(health, {}) == {} && !CriticalAmong(health, {})
  {
  }

  /** Counting one more key. */
  lemma OneMoreKey(health: map<SensorId, Fault>, keys: set<SensorId>, s: SensorId)
    requires s in health && s !in keys
    ensures |FaultedAmong(health, keys + {s})| == |FaultedAmong(health, keys)| + if health[s].detected then 1 else 0
    ensures CriticalAmong(health, keys + {s}) <==>
            CriticalAmong(health, keys) || (health[s].detected && health[s].severity == Critical)
  {
    var more := if health[s].detected then {s} else {};
    assert FaultedAmong(health, keys + {s}) == FaultedAmong(health, keys) + more;
    if CriticalAmong(health, keys) {
      var c :| c in FaultedAmong(health, keys) && health[c].severity == Critical;
      assert c in FaultedAmong(health, keys + {s});
    }
    if health[s].detected {
      assert s in FaultedAmong(health, keys + {s});
    }
  }

  class SystemStateManager {
    var sensorHealth: map<SensorId, Fault>
    var currentState: State
    ghost var updates: seq<Update>

    constructor ()
      ensures Valid() && updates == []
    {
      sensorHealth, currentState, updates := map[], Normal, [];
    }

    ghost predicate HealthOk()
      reads this
    {
      forall s :: HealthShows(sensorHealth, updates, s)
    }

    /** The cache agrees with the history. */
    ghost predicate Valid()
      reads this
    {
      HealthOk() && StateFits(updates, currentState)
    }

    method UpdateSensor(sensor: SensorId, fault: Fault)
      requires Valid()
      modifies this
      ensures Valid() && updates == old(updates) + [Update(sensor, fault)]
    {
      ghost var before := updates;
      sensorHealth := sensorHealth[sensor := fault];
      updates := updates + [Update(sensor, fault)];
      assert updates[..|updates| - 1] == before;
      forall s
        ensures HealthShows(sensorHealth, updates, s)
      {
        assert HealthShows(old(sensorHealth), before, s);
      }
      RecalculateState();
    }

    method RecalculateState()
      requires HealthOk()
      modifies this`currentState
      ensures Valid()
    {
      hide FaultedAmong, CriticalAmong, StateFits, HealthShows;
      var activeFaultCount := 0;
      NoKeys(sensorHealth);
      var criticalFaultDetected := false;
      var todo := sensorHealth.Keys;
      ghost var seen: set<SensorId> := {};
      while todo != {}
        invariant seen + todo == sensorHealth.Keys && seen !! todo
        invariant activeFaultCount == |FaultedAmong(sensorHealth, seen)|
        invariant criticalFaultDetected <==> CriticalAmong(sensorHealth, seen)
        modifies {}
        decreases |todo|
      {
        var s :| s in todo;
        OneMoreKey(sensorHealth, seen, s);
        var health := sensorHealth[s];
        todo, seen := todo - {s}, seen + {s};
        if health.detected {
          activeFaultCount := activeFaultCount + 1;
          if health.severity == Critical {
            criticalFaultDetected := true;
          }
        }
      }
      assert seen == sensorHealth.Keys;
      if criticalFaultDetected || activeFaultCount >= 2 {
        currentState := SafeMode;
      } else if activeFaultCount == 1 {
        currentState := Degraded;
      } else {
        currentState := Normal;
      }
      CountsDecide(sensorHealth, updates, currentState);
    }

    method GetActiveFaultCount() returns (activeFaultCount: nat)
      requires Valid()
      ensures activeFaultCount == |Faulted(updates)|
    {
      hide FaultedAmong, StateFits, HealthShows;
      activeFaultCount := 0;
      NoKeys(sensorHealth);
      var todo := sensorHealth.Keys;
      ghost var seen: set<SensorId> := {};
      while todo != {}
        invariant seen + todo == sensorHealth.Keys && seen !! todo
        invariant activeFaultCount == |FaultedAmong(sensorHealth, seen)|
        decreases |todo|
      {
        var s :| s in todo;
        OneMoreKey(sensorHealth, seen, s);
        todo, seen := todo - {s}, seen + {s};
        if sensorHealth[s].detected {
          activeFaultCount := activeFaultCount + 1;
        }
      }
      assert seen == sensorHealth.Keys;
      FaultedOfHealth(sensorHealth, updates);
    }
  }
}
