/** The decision logic of the Active Heating Manager: which TRVs (radiator
    valve controllers) demand heat, how their valve sensors are found and
    read, and how the boiler is driven in thermostat or toggle mode.

    Home Assistant is replaced by two oracles fixed for one polling cycle:
    a `Store` snapshot standing for `get_entity_state`, and an `Acceptor`
    standing for the success result of `call_service`. Every actuator
    returns the service calls it issued, in order, so that idempotence and
    call order are stated directly. */
module Heating {
  import opened Wrappers
  import opened Strings
  import opened Json

  // ---------------------------------------------------------------------
  // Entities, service calls and the two oracles
  // ---------------------------------------------------------------------

  /** A state object from Home Assistant's REST API. `state` is `None`
      when the object has no `state` key; a missing `attributes` key reads
      as the empty map. */
  datatype Entity = Entity(state: Option<string>, attributes: map<string, Json>)

  /** The entity states seen during one cycle. An id that is absent stands
      for a read that failed, timed out, or returned an empty object. */
  type Store = map<string, Entity>

  function ReadEntity(store: Store, id: string): Option<Entity> {
    if id in store then Some(store[id]) else None
  }

  /** `state_data.get('state', 'unknown')`. */
  function StateOf(e: Entity): string {
    e.state.GetOr("unknown")
  }

  /** `attributes.get(key, default)`. */
  function Attribute(e: Entity, key: string, default: Json): Json {
    if key in e.attributes then e.attributes[key] else default
  }

  /** The optional service data sent with a call besides `entity_id`. */
  datatype ServiceData = NoData | PresetMode(preset: string) | Temperature(value: real)

  datatype ServiceCall = ServiceCall(domain: string, service: string, entityId: string, data: ServiceData)

  /** Whether Home Assistant accepted a service call (`call_service`'s
      return value). */
  type Acceptor = ServiceCall -> bool

  /** The outcome of one actuator: its return value and the calls made. */
  datatype Actuation = Actuation(ok: bool, calls: seq<ServiceCall>)

  // ---------------------------------------------------------------------
  // Valve-open resolution (get_valve_state)
  // ---------------------------------------------------------------------

  /** The three readings of a valve sensor's (lower-cased) state. */
  datatype ValveReading = Open | Closed | Unrecognised

  function ClassifyValve(lowered: string): (v: ValveReading)
    ensures v == Closed <==> lowered in ["closed", "off", "false"]
    ensures v == Open <==> lowered in ["open", "opened", "on", "true"]
  {
    if lowered in ["open", "opened", "on", "true"] then Open
    else if lowered in ["closed", "off", "false"] then Closed
    else Unrecognised
  }

  /** Fail-open: only a recognised "closed" reading closes the valve. */
  predicate SensorSaysOpen(e: Entity) {
    ClassifyValve(Lower(StateOf(e))) != Closed
  }

  /** The sibling sensors tried for a TRV whose id has `name` after its
      first dot, in the order they are tried. */
  function ValveCandidates(name: string): (r: seq<string>)
    ensures |r| == 3
    ensures r[0] == "binary_sensor." + name + "_valve_state"
    ensures r[1] == "binary_sensor." + RemoveAll(name, "_trv") + "_valve_state"
    ensures r[2] == "sensor." + name + "_valve_state"
  {
    [ "binary_sensor." + name + "_valve_state",
      "binary_sensor." + RemoveAll(name, "_trv") + "_valve_state",
      "sensor." + name + "_valve_state" ]
  }

  /** Whether the valve is open, and the sensor ids read to decide it. */
  datatype ValveLookup = ValveLookup(open: bool, consulted: seq<string>)

  /** The sensor lookup proper: try the candidates in order; the first one
      that exists decides. */
  function ProbeValve(store: Store, candidates: seq<string>): (r: ValveLookup)
    ensures |r.consulted| <= |candidates| && r.consulted == candidates[..|r.consulted|]
    ensures forall i :: 0 <= i < |r.consulted| - 1 ==> r.consulted[i] !in store
    ensures |r.consulted| < |candidates| ==> |r.consulted| > 0 && r.consulted[|r.consulted| - 1] in store
    ensures |candidates| > 0 ==> |r.consulted| > 0
    ensures r.open <==> !(|r.consulted| > 0 && r.consulted[|r.consulted| - 1] in store
                          && !SensorSaysOpen(store[r.consulted[|r.consulted| - 1]]))
  {
    if |candidates| == 0 then ValveLookup(true, [])
    else if candidates[0] in store then ValveLookup(SensorSaysOpen(store[candidates[0]]), [candidates[0]])
    else
      var rest := ProbeValve(store, candidates[1..]);
      ValveLookup(rest.open, [candidates[0]] + rest.consulted)
  }

  /** `get_valve_state`: a TRV id without a dot is assumed open without any
      lookup; otherwise its sibling sensors are probed. */
  function GetValveState(store: Store, trvId: string): (r: ValveLookup)
    ensures '.' !in trvId ==> r == ValveLookup(true, [])
    ensures '.' in trvId ==>
      (0 < |r.consulted| <= 3 && r.consulted == ValveCandidates(After(trvId, '.'))[..|r.consulted|])
    ensures !r.open ==>
      (r.consulted[|r.consulted| - 1] in store
       && Lower(StateOf(store[r.consulted[|r.consulted| - 1]])) in ["closed", "off", "false"])
  {
    if '.' !in trvId then ValveLookup(true, [])
    else ProbeValve(store, ValveCandidates(After(trvId, '.')))
  }

  /** The valve is reported closed exactly when the first candidate sensor
      that exists has a lower-cased state in {closed, off, false}; a missing
      dot, no sensor at all, or any other state leaves it open. */
  lemma ValveFailOpen(store: Store, trvId: string)
    requires '.' in trvId
    ensures !GetValveState(store, trvId).open ==>
      exists k :: 0 <= k < 3 && ClosedAt(store, ValveCandidates(After(trvId, '.')), k)
    ensures forall k :: 0 <= k < 3 && ClosedAt(store, ValveCandidates(After(trvId, '.')), k) ==>
      !GetValveState(store, trvId).open
  {
    var cands := ValveCandidates(After(trvId, '.'));
    var r := ProbeValve(store, cands);
    assert r == GetValveState(store, trvId);
    var n := |r.consulted|;
    assert r.consulted == cands[..n];
    if !r.open {
      var k := n - 1;
      assert cands[k] == r.consulted[k];
      forall j | 0 <= j < k ensures cands[j] !in store {
        assert cands[j] == r.consulted[j];
      }
      assert ClosedAt(store, cands, k);
    }
    // the probe stops at the first candidate present in the store
    forall j | 0 <= j < n - 1 ensures cands[j] !in store {
      assert cands[j] == r.consulted[j];
    }
    assert cands[n - 1] == r.consulted[n - 1];
    forall k | 0 <= k < 3 && ClosedAt(store, cands, k) ensures !r.open {
      assert n - 1 == k;
      assert !SensorSaysOpen(store[cands[k]]);
    }
  }

  /** Candidate `k` is the first one present in the store, and its state
      reads as closed. */
  predicate ClosedAt(store: Store, cands: seq<string>, k: int)
    requires 0 <= k < |cands|
  {
    && cands[k] in store
    && (forall j :: 0 <= j < k ==> cands[j] !in store)
    && Lower(StateOf(store[cands[k]])) in ["closed", "off", "false"]
  }

  /** A TRV named `<w>_trv` also tries the sensor named after `<w>` alone:
      `climate.living_room_trv` probes `binary_sensor.living_room_valve_state`
      second. */
  lemma TrvSuffixDropped(w: string)
    requires !Occurs("_trv", w)
    ensures ValveCandidates(w + "_trv")[1] == "binary_sensor." + w + "_valve_state"
  {
    PatternOnlyAtEnd(w, "_trv");
  }

  /** A name without `_trv` probes the same binary sensor first and second. */
  lemma SecondCandidateRepeatsFirst(name: string)
    requires !Occurs("_trv", name)
    ensures ValveCandidates(name)[1] == ValveCandidates(name)[0]
  {
    RemoveAllAbsent(name, "_trv");
  }

  /** A word free of a pattern whose first character does not recur in it,
      followed by the pattern, loses exactly that trailing copy. */
  lemma PatternOnlyAtEnd(w: string, pattern: string)
    requires |pattern| > 0
    requires forall k :: 0 < k < |pattern| ==> pattern[k] != pattern[0]
    requires !Occurs(pattern, w)
    ensures RemoveAll(w + pattern, pattern) == w
  {
    var s := w + pattern;
    forall i | 0 <= i < |w| ensures !StartsWith(s[i..], pattern) {
      if i + |pattern| <= |w| {
        // the window lies inside `w`
        assert s[i..][..|pattern|] == w[i..][..|pattern|];
        assert !StartsWith(w[i..], pattern);
      } else {
        // the window reaches into the trailing copy, whose first character
        // would have to match a later character of the pattern
        var k := |w| - i;
        assert 0 < k < |pattern|;
        assert s[i..][k] == pattern[0];
      }
    }
    RemoveAllSuffix(w, pattern);
  }

  // ---------------------------------------------------------------------
  // Demand aggregation (the TRV loop of poll_trv_entities)
  // ---------------------------------------------------------------------

  /** The TRV reports `hvac_action` exactly equal to "heating". */
  predicate ReportsHeating(e: Entity) {
    "hvac_action" in e.attributes && e.attributes["hvac_action"] == JStr("heating")
  }

  /** What one TRV contributes: whether it demands heat, and the entities
      read to find out. */
  datatype TrvReport = TrvReport(demand: bool, lookups: seq<string>)

  function ReadTrv(store: Store, trvId: string, checkValveState: bool): (r: TrvReport)
    ensures r.demand <==>
      (trvId in store && ReportsHeating(store[trvId]) && (!checkValveState || GetValveState(store, trvId).open))
    ensures r.lookups == [trvId] + (if trvId in store && ReportsHeating(store[trvId]) && checkValveState
                                  then GetValveState(store, trvId).consulted else [])
  {
    match ReadEntity(store, trvId)
    case None => TrvReport(false, [trvId])
    case Some(e) =>
      if !ReportsHeating(e) then TrvReport(false, [trvId])
      else if !checkValveState then TrvReport(true, [trvId])
      else
        var valve := GetValveState(store, trvId);
        TrvReport(valve.open, [trvId] + valve.consulted)
  }

  /** A TRV demands heat: readable, reporting "heating", and with its valve
      open unless valve checking is off. */
  predicate Demands(store: Store, trvId: string, checkValveState: bool) {
    trvId in store && ReportsHeating(store[trvId])
    && (!checkValveState || GetValveState(store, trvId).open)
  }

  /** All TRVs, in configuration order. */
  function AggregateTrvs(store: Store, trvIds: seq<string>, checkValveState: bool): (r: TrvReport)
    ensures r.demand <==> exists i :: 0 <= i < |trvIds| && Demands(store, trvIds[i], checkValveState)
    ensures !checkValveState ==> r.lookups == trvIds
    ensures |r.lookups| >= |trvIds|
  {
    if |trvIds| == 0 then TrvReport(false, [])
    else
      var head := ReadTrv(store, trvIds[0], checkValveState);
      var rest := AggregateTrvs(store, trvIds[1..], checkValveState);
      assert forall i :: 0 < i < |trvIds| ==> trvIds[i] == trvIds[1..][i - 1];
      TrvReport(head.demand || rest.demand, head.lookups + rest.lookups)
  }

  // ---------------------------------------------------------------------
  // Boiler actuation in thermostat mode
  // ---------------------------------------------------------------------

  const OnPresets: seq<string> := ["none", "manual", "away"]
  const OffPresets: seq<string> := ["none", "manual"]

  function PresetCall(entityId: string, preset: string): ServiceCall {
    ServiceCall("climate", "set_preset_mode", entityId, PresetMode(preset))
  }

  function SetTemperatureCall(entityId: string, target: real): ServiceCall {
    ServiceCall("climate", "set_temperature", entityId, Temperature(target))
  }

  /** `calls` tries `presets` in order and stops at the first one accepted:
      every call before the last was refused, and the list is cut short
      only by an accepted call. */
  ghost predicate PresetAttempts(calls: seq<ServiceCall>, entityId: string, presets: seq<string>, accepts: Acceptor) {
    && |calls| <= |presets|
    && (|presets| > 0 ==> |calls| > 0)
    && (forall i :: 0 <= i < |calls| ==> calls[i] == PresetCall(entityId, presets[i]))
    && (forall i :: 0 <= i < |calls| - 1 ==> !accepts(calls[i]))
    && (|calls| < |presets| ==> accepts(calls[|calls| - 1]))
  }

  /** The preset loop: `for preset in presets: if call_service(...): break`. */
  function TryPresets(entityId: string, presets: seq<string>, accepts: Acceptor): (calls: seq<ServiceCall>)
    ensures PresetAttempts(calls, entityId, presets, accepts)
  {
    if |presets| == 0 then []
    else
      var call := PresetCall(entityId, presets[0]);
      if accepts(call) then [call] else [call] + TryPresets(entityId, presets[1..], accepts)
  }

  /** The idempotence guard: the `temperature` attribute (default 0) already
      equals the target and the `preset_mode` (default "none") is not
      "schedule". */
  predicate AtTarget(e: Entity, target: real) {
    EqualsNumber(Attribute(e, "temperature", JNum(0.0)), target)
    && Attribute(e, "preset_mode", JStr("none")) != JStr("schedule")
  }

  /** What a thermostat actuator promises: no call when the boiler already
      sits at the target outside "schedule"; otherwise the presets in order
      up to the first one accepted (none for an unreadable boiler), then one
      `set_temperature`, whose acceptance is the result. */
  ghost predicate ThermostatOutcome(store: Store, accepts: Acceptor, entityId: string, target: real,
                                    presets: seq<string>, r: Actuation) {
    if entityId in store && AtTarget(store[entityId], target) then r == Actuation(true, [])
    else
      && |r.calls| > 0
      && r.calls[|r.calls| - 1] == SetTemperatureCall(entityId, target)
      && r.ok == accepts(SetTemperatureCall(entityId, target))
      && (entityId in store ==> PresetAttempts(r.calls[..|r.calls| - 1], entityId, presets, accepts))
      && (entityId !in store ==> |r.calls| == 1)
  }

  /** The shared body of `set_manual_temperature_thermostat` and
      `set_manual_off_temperature_thermostat`, which differ only in the
      presets they try. */
  function ApplyThermostat(store: Store, accepts: Acceptor, entityId: string, target: real, presets: seq<string>): (r: Actuation)
    ensures ThermostatOutcome(store, accepts, entityId, target, presets, r)
  {
    var setTemp := SetTemperatureCall(entityId, target);
    match ReadEntity(store, entityId)
    case None => Actuation(accepts(setTemp), [setTemp])
    case Some(e) =>
      if AtTarget(e, target) then Actuation(true, [])
      else
        var tried := TryPresets(entityId, presets, accepts);
        assert (tried + [setTemp])[..|tried|] == tried;
        Actuation(accepts(setTemp), tried + [setTemp])
  }

  /** `set_manual_temperature_thermostat`: presets none, manual, away. */
  function SetManualTemperature(store: Store, accepts: Acceptor, entityId: string, target: real): (r: Actuation)
    ensures ThermostatOutcome(store, accepts, entityId, target, ["none", "manual", "away"], r)
    ensures entityId in store && !AtTarget(store[entityId], target) ==>
      (2 <= |r.calls| <= 4 && r.calls[0] == PresetCall(entityId, "none"))
  {
    ApplyThermostat(store, accepts, entityId, target, OnPresets)
  }

  /** `set_manual_off_temperature_thermostat`: presets none, manual. */
  function SetManualOffTemperature(store: Store, accepts: Acceptor, entityId: string, target: real): (r: Actuation)
    ensures ThermostatOutcome(store, accepts, entityId, target, ["none", "manual"], r)
    ensures entityId in store && !AtTarget(store[entityId], target) ==>
      (2 <= |r.calls| <= 3 && r.calls[0] == PresetCall(entityId, "none")
       && PresetCall(entityId, "away") !in r.calls)
  {
    ApplyThermostat(store, accepts, entityId, target, OffPresets)
  }

  /** Whatever the oracle answers, exactly one `set_temperature` call is
      made unless the guard short-circuits, and it is the last call. */
  lemma SetTemperatureOnce(store: Store, accepts: Acceptor, entityId: string, target: real, presets: seq<string>)
    requires !(entityId in store && AtTarget(store[entityId], target))
    ensures var calls := ApplyThermostat(store, accepts, entityId, target, presets).calls;
      forall i :: 0 <= i < |calls| ==> (calls[i].service == "set_temperature" <==> i == |calls| - 1)
  {
    var calls := ApplyThermostat(store, accepts, entityId, target, presets).calls;
    var pre := calls[..|calls| - 1];
    forall i | 0 <= i < |calls| ensures calls[i].service == "set_temperature" <==> i == |calls| - 1 {
      if i < |calls| - 1 {
        assert calls[i] == pre[i];
      }
    }
  }

  // ---------------------------------------------------------------------
  // Boiler actuation in toggle mode
  // ---------------------------------------------------------------------

  /** The service domain of a toggle: the text before the first dot, or
      "switch" for an id without a dot. */
  function ToggleDomain(entityId: string): (r: string)
    ensures '.' in entityId ==> '.' !in r && StartsWith(entityId, r + ".")
    ensures '.' !in entityId ==> r == "switch"
  {
    if '.' in entityId then Before(entityId, '.') else "switch"
  }

  /** The shared body of `turn_on_boiler_toggle` and `turn_off_boiler_toggle`:
      nothing is done when the boiler already reports `settled`. */
  function ApplyToggle(store: Store, accepts: Acceptor, entityId: string, service: string, settled: string): (r: Actuation)
    ensures entityId in store && StateOf(store[entityId]) == settled ==> r == Actuation(true, [])
    ensures !(entityId in store && StateOf(store[entityId]) == settled) ==>
      var call := ServiceCall(ToggleDomain(entityId), service, entityId, NoData);
      r == Actuation(accepts(call), [call])
  {
    var call := ServiceCall(ToggleDomain(entityId), service, entityId, NoData);
    match ReadEntity(store, entityId)
    case Some(e) => if StateOf(e) == settled then Actuation(true, []) else Actuation(accepts(call), [call])
    case None => Actuation(accepts(call), [call])
  }

  /** `turn_on_boiler_toggle`: nothing when the boiler already reports
      "on"; otherwise one `turn_on` in the boiler's own domain, whose
      acceptance is the result. */
  function TurnOnBoilerToggle(store: Store, accepts: Acceptor, entityId: string): (r: Actuation)
    ensures |r.calls| <= 1
    ensures forall c :: c in r.calls ==> c.service == "turn_on"
    ensures entityId in store && StateOf(store[entityId]) == "on" <==> r == Actuation(true, [])
    ensures r.calls != [] ==>
      r.calls[0] == ServiceCall(ToggleDomain(entityId), "turn_on", entityId, NoData) && r.ok == accepts(r.calls[0])
  {
    ApplyToggle(store, accepts, entityId, "turn_on", "on")
  }

  /** `turn_off_boiler_toggle`: nothing when the boiler already reports
      "off"; otherwise one `turn_off` in the boiler's own domain, whose
      acceptance is the result. */
  function TurnOffBoilerToggle(store: Store, accepts: Acceptor, entityId: string): (r: Actuation)
    ensures |r.calls| <= 1
    ensures forall c :: c in r.calls ==> c.service == "turn_off"
    ensures entityId in store && StateOf(store[entityId]) == "off" <==> r == Actuation(true, [])
    ensures r.calls != [] ==>
      r.calls[0] == ServiceCall(ToggleDomain(entityId), "turn_off", entityId, NoData) && r.ok == accepts(r.calls[0])
  {
    ApplyToggle(store, accepts, entityId, "turn_off", "off")
  }

  // ---------------------------------------------------------------------
  // One polling cycle (poll_trv_entities)
  // ---------------------------------------------------------------------

  /** The arguments of `poll_trv_entities`. `boilerEntity` is `None` when no
      boiler was passed. */
  datatype Config = Config(
    trvEntities: seq<string>,
    boilerEntity: Option<string>,
    boilerMode: string,
    manualOnTemperature: real,
    manualOffTemperature: real,
    checkValveState: bool)

  /** `if boiler_entity:` — a missing or empty id disables boiler control. */
  predicate HasBoiler(cfg: Config) {
    cfg.boilerEntity.Some? && |cfg.boilerEntity.value| > 0
  }

  /** The actuator chosen by the demand flag and the mode. */
  function DriveBoiler(cfg: Config, store: Store, accepts: Acceptor, heating: bool): Actuation
    requires HasBoiler(cfg)
  {
    var boiler := cfg.boilerEntity.value;
    if heating then
      if cfg.boilerMode == "thermostat" then SetManualTemperature(store, accepts, boiler, cfg.manualOnTemperature)
      else TurnOnBoilerToggle(store, accepts, boiler)
    else
      if cfg.boilerMode == "thermostat" then SetManualOffTemperature(store, accepts, boiler, cfg.manualOffTemperature)
      else TurnOffBoilerToggle(store, accepts, boiler)
  }

  /** What one cycle returns and does: the demand flag, the entities read
      for the TRV loop, and the boiler service calls. */
  datatype Cycle = Cycle(anyHeating: bool, trvReads: seq<string>, calls: seq<ServiceCall>)

  function PollTrvEntities(cfg: Config, store: Store, accepts: Acceptor): (r: Cycle)
    ensures r.anyHeating <==>
      (exists i :: 0 <= i < |cfg.trvEntities| && Demands(store, cfg.trvEntities[i], cfg.checkValveState))
    ensures !HasBoiler(cfg) ==> r.calls == []
    ensures HasBoiler(cfg) ==> r.calls == DriveBoiler(cfg, store, accepts, r.anyHeating).calls
    ensures !cfg.checkValveState ==> r.trvReads == cfg.trvEntities
  {
    var trvs := AggregateTrvs(store, cfg.trvEntities, cfg.checkValveState);
    var calls := if HasBoiler(cfg) then DriveBoiler(cfg, store, accepts, trvs.demand).calls else [];
    Cycle(trvs.demand, trvs.lookups, calls)
  }

  /** The demand flag never depends on how the boiler calls went. */
  lemma DemandIgnoresServiceOutcomes(cfg: Config, store: Store, a1: Acceptor, a2: Acceptor)
    ensures PollTrvEntities(cfg, store, a1).anyHeating == PollTrvEntities(cfg, store, a2).anyHeating
    ensures PollTrvEntities(cfg, store, a1).trvReads == PollTrvEntities(cfg, store, a2).trvReads
  {
  }

  /** Any mode string other than "thermostat" drives the boiler as a toggle. */
  lemma OtherModesAreToggle(cfg: Config, store: Store, accepts: Acceptor)
    requires cfg.boilerMode != "thermostat"
    ensures PollTrvEntities(cfg, store, accepts) == PollTrvEntities(cfg.(boilerMode := "toggle"), store, accepts)
  {
  }

  /** Exactly one actuator runs: its calls are all preset or temperature
      calls in the climate domain in thermostat mode, and a single on/off
      call matching the demand in toggle mode. */
  lemma OneActuatorRuns(cfg: Config, store: Store, accepts: Acceptor)
    requires HasBoiler(cfg)
    ensures var r := PollTrvEntities(cfg, store, accepts);
      && (cfg.boilerMode == "thermostat" ==>
            forall c :: c in r.calls ==> c.domain == "climate" && c.entityId == cfg.boilerEntity.value)
      && (cfg.boilerMode != "thermostat" ==>
            |r.calls| <= 1 && forall c :: c in r.calls ==>
              c.service == (if r.anyHeating then "turn_on" else "turn_off") && c.entityId == cfg.boilerEntity.value)
  {
    var r := PollTrvEntities(cfg, store, accepts);
    var b := cfg.boilerEntity.value;
    if cfg.boilerMode == "thermostat" {
      var target := if r.anyHeating then cfg.manualOnTemperature else cfg.manualOffTemperature;
      var presets := if r.anyHeating then OnPresets else OffPresets;
      assert r.calls == ApplyThermostat(store, accepts, b, target, presets).calls;
      ThermostatCallsStayOnBoiler(store, accepts, b, target, presets);
    }
  }

  /** Every call the thermostat actuator makes is a climate call on the
      boiler entity. */
  lemma ThermostatCallsStayOnBoiler(store: Store, accepts: Acceptor, b: string, target: real, presets: seq<string>)
    ensures forall c :: c in ApplyThermostat(store, accepts, b, target, presets).calls ==>
      c.domain == "climate" && c.entityId == b
  {
    var a := ApplyThermostat(store, accepts, b, target, presets);
    forall c | c in a.calls ensures c.domain == "climate" && c.entityId == b {
      var i :| 0 <= i < |a.calls| && a.calls[i] == c;
      if i < |a.calls| - 1 {
        assert a.calls[i] == a.calls[..|a.calls| - 1][i];
      }
    }
  }

  /** A boiler already in the state the cycle wants is left alone: once the
      boiler reflects the last cycle's command, an identical cycle issues no
      calls at all. */
  lemma SettledBoilerIsQuiet(cfg: Config, store: Store, accepts: Acceptor)
    requires HasBoiler(cfg) && cfg.boilerEntity.value in store
    ensures var r := PollTrvEntities(cfg, store, accepts);
      var e := store[cfg.boilerEntity.value];
      (if cfg.boilerMode == "thermostat"
       then AtTarget(e, if r.anyHeating then cfg.manualOnTemperature else cfg.manualOffTemperature)
       else StateOf(e) == (if r.anyHeating then "on" else "off"))
      ==> r.calls == []
  {
  }

  /** A toggle boiler reporting "on" while no TRV demands heat receives
      exactly one `turn_off` call in its own domain. */
  lemma IdleToggleTurnsOff(cfg: Config, store: Store, accepts: Acceptor)
    requires HasBoiler(cfg) && cfg.boilerMode == "toggle"
    requires cfg.boilerEntity.value in store && StateOf(store[cfg.boilerEntity.value]) == "on"
    requires forall i :: 0 <= i < |cfg.trvEntities| ==> !Demands(store, cfg.trvEntities[i], cfg.checkValveState)
    ensures var b := cfg.boilerEntity.value;
      PollTrvEntities(cfg, store, accepts).calls == [ServiceCall(ToggleDomain(b), "turn_off", b, NoData)]
  {
  }
}
