/**
 * The generic thermostat: an on/off controller that switches one heater
 * (or, in AC mode, one cooler) from a temperature sensor, with cold/hot
 * tolerances, an optional minimum cycle duration, an optional keep-alive
 * tick and preset modes that remember the manual target.
 *
 * The host services are parameters: the heater switch's state is a
 * `HeaterState`, the host's "has the heater held this state for the
 * minimum cycle duration" query is a `CycleCheck`, and every switching
 * service call the controller would make is returned as a `Command`.
 * Temperatures are exact reals; durations are whole seconds.
 */
module Thermostat {
  import opened Wrappers
  import Text

  datatype HvacMode = Off | Heat | Cool | HeatCool | Auto | Dry | FanOnly

  datatype HvacAction = ActionOff | Idle | Heating | Cooling

  /** The heater switch as the host reports it: on, in any other state, or with no state at all. */
  datatype HeaterState = HeaterOn | HeaterNotOn | HeaterMissing

  /** The host's answer to "has the heater been in its current state for the minimum cycle duration". */
  datatype CycleCheck = HeldLongEnough | NotHeldLongEnough | ConditionFailed

  /** The switching service call a step makes, if any. */
  datatype Command = TurnOn | TurnOff | NoCommand

  /** A sensor state: a finite number, a NaN or infinity, or text that is not a number. */
  datatype SensorReading = Finite(celsius: real) | NotFinite | NotANumber

  /** What the host restored from before a restart; `state` is None when it was empty. */
  datatype LastState = LastState(state: Option<HvacMode>, temperature: Option<real>, presetMode: Option<string>)

  datatype ThermostatError = InvalidDuration(text: string) | UnsupportedPresetMode(preset: string)

  /** The entry options the thermostat is built from; preset temperatures are keyed by option name. */
  datatype ThermostatOptions = ThermostatOptions(
    acMode: bool,
    coldTolerance: real,
    hotTolerance: real,
    keepAlive: Option<string>,
    minCycleDuration: Option<string>,
    minTemp: real,
    maxTemp: real,
    targetTemp: Option<real>,
    initialHvacMode: Option<HvacMode>,
    presetTemps: map<string, real>)

  /** The configuration a control step depends on. */
  datatype Tuning = Tuning(acMode: bool, coldTolerance: real, hotTolerance: real, minCycleDuration: Option<nat>)

  const PRESET_NONE: string := "none"

  /** Each preset mode with the option that holds its temperature, in the order presets are offered. */
  const PRESET_TABLE: seq<(string, string)> := [
    ("away", "away_temp"),
    ("comfort", "comfort_temp"),
    ("home", "home_temp"),
    ("sleep", "sleep_temp"),
    ("activity", "activity_temp")
  ]

  const SECONDS_PER_DAY: nat := 86400

  // ---------------------------------------------------------------------
  // convert_timedelta: "%H:%M:%S" to a duration

  /** One strptime field: one or two ASCII digits whose value is below `bound`. */
  predicate IsTimeField(s: string, bound: nat)
  {
    1 <= |s| <= 2 && Text.AllDigits(s) && Text.DigitsValue(s) < bound
  }

  function TimeField(s: string, bound: nat): (r: Option<nat>)
    ensures r.Some? ==> IsTimeField(s, bound) && r.value == Text.DigitsValue(s)
    ensures IsTimeField(s, bound) ==> r.Some?
  {
    if IsTimeField(s, bound) then Some(Text.DigitsValue(s)) else None
  }

  /**
   * `convert_timedelta`: the seconds of an "H:M:S" time of day, or None where
   * strptime raises. Hours go to 23 and minutes to 59; seconds 60 and 61 pass
   * the pattern but are rejected when the time is built, so seconds go to 59.
   */
  function ConvertTimedelta(s: string): (r: Option<nat>)
    ensures r.Some? ==> r.value < SECONDS_PER_DAY
    ensures r.Some? ==>
      var parts := Text.SplitOn(s, ':');
      && |parts| == 3
      && IsTimeField(parts[0], 24) && IsTimeField(parts[1], 60) && IsTimeField(parts[2], 60)
      && r.value == Text.DigitsValue(parts[0]) * 3600 + Text.DigitsValue(parts[1]) * 60 + Text.DigitsValue(parts[2])
  {
    var parts := Text.SplitOn(s, ':');
    if |parts| != 3 then None
    else
      match (TimeField(parts[0], 24), TimeField(parts[1], 60), TimeField(parts[2], 60))
      case (Some(h), Some(m), Some(sec)) => Some(h * 3600 + m * 60 + sec)
      case _ => None
  }

  /**
   * Every "H:M:S" text of one- or two-digit fields within their bounds
   * converts, padded or not, to H·3600 + M·60 + S seconds.
   */
  lemma ConvertTimedeltaOfFields(hs: string, ms: string, ss: string)
    requires IsTimeField(hs, 24) && IsTimeField(ms, 60) && IsTimeField(ss, 60)
    ensures ConvertTimedelta(Text.Join([hs, ms, ss], ':'))
      == Some(Text.DigitsValue(hs) * 3600 + Text.DigitsValue(ms) * 60 + Text.DigitsValue(ss))
  {
    var parts := [hs, ms, ss];
    var s := Text.Join(parts, ':');
    assert Text.SplitOn(s, ':') == parts by {
      DigitsHaveNoColon(hs);
      DigitsHaveNoColon(ms);
      DigitsHaveNoColon(ss);
      Text.SplitJoin(parts, ':');
    }
    assert TimeField(hs, 24) == Some(Text.DigitsValue(hs));
    assert TimeField(ms, 60) == Some(Text.DigitsValue(ms));
    assert TimeField(ss, 60) == Some(Text.DigitsValue(ss));
  }

  lemma DigitsHaveNoColon(p: string)
    requires Text.AllDigits(p)
    ensures ':' !in p
  {
  }

  function TwoDigits(n: nat): string
    requires n < 100
  {
    [Text.DigitChar(n / 10), Text.DigitChar(n % 10)]
  }

  /** A zero-padded "HH:MM:SS" clock reading converts to H·3600 + M·60 + S seconds. */
  lemma ConvertTimedeltaOfClock(h: nat, m: nat, sec: nat)
    requires h < 24 && m < 60 && sec < 60
    ensures ConvertTimedelta(Text.Join([TwoDigits(h), TwoDigits(m), TwoDigits(sec)], ':')) == Some(h * 3600 + m * 60 + sec)
  {
    forall n: nat | n < 100 ensures Text.AllDigits(TwoDigits(n)) && Text.DigitsValue(TwoDigits(n)) == n {
      var s := TwoDigits(n);
      assert s[..1] == [Text.DigitChar(n / 10)];
      assert s[..1][..0] == [];
      assert Text.DigitsValue(s[..1]) == n / 10;
    }
    ConvertTimedeltaOfFields(TwoDigits(h), TwoDigits(m), TwoDigits(sec));
  }

  /** An optional duration option: absent or empty means none; text that does not parse is an error. */
  function ParseOptionalDuration(v: Option<string>): (r: Result<Option<nat>, ThermostatError>)
    ensures v.None? || v.value == "" ==> r == Success(None)
    ensures v.Some? && v.value != "" ==> (r.Failure? <==> ConvertTimedelta(v.value).None?)
    ensures r.Success? && r.value.Some? ==> v.Some? && ConvertTimedelta(v.value) == r.value
  {
    if v.None? || v.value == "" then Success(None)
    else
      match ConvertTimedelta(v.value)
      case None => Failure(InvalidDuration(v.value))
      case Some(d) => Success(Some(d))
  }

  // ---------------------------------------------------------------------
  // Presets

  /** The configured presets in table order: those whose temperature option is present. */
  function ConfiguredPresets(table: seq<(string, string)>, temps: map<string, real>): (r: seq<(string, real)>)
    ensures |r| <= |table|
    ensures forall e | e in r :: exists option | option in temps :: (e.0, option) in table && temps[option] == e.1
    ensures forall j | 0 <= j < |table| && table[j].1 in temps :: (table[j].0, temps[table[j].1]) in r
    decreases |table|
  {
    if |table| == 0 then []
    else
      var last := table[|table| - 1];
      var init := ConfiguredPresets(table[..|table| - 1], temps);
      init + (if last.1 in temps then [(last.0, temps[last.1])] else [])
  }

  /** Some entry of `table` is named `a`. */
  predicate Named(table: seq<(string, string)>, a: string)
  {
    exists p | 0 <= p < |table| :: table[p].0 == a
  }

  /** Some entry of `table` named `a` comes before some entry named `b`. */
  predicate NamedBefore(table: seq<(string, string)>, a: string, b: string)
  {
    exists p, q | 0 <= p < q < |table| :: table[p].0 == a && table[q].0 == b
  }

  /** The presets come in the order of their names in the table. */
  predicate InTableOrder(presets: seq<(string, real)>, table: seq<(string, string)>)
  {
    forall i, j | 0 <= i < j < |presets| :: NamedBefore(table, presets[i].0, presets[j].0)
  }

  /** The configured presets keep the table's order. */
  lemma {:induction false} ConfiguredPresetsInTableOrder(table: seq<(string, string)>, temps: map<string, real>)
    ensures InTableOrder(ConfiguredPresets(table, temps), table)
    decreases |table|
  {
    if |table| > 0 {
      var n := |table| - 1;
      var init := table[..n];
      var prior := ConfiguredPresets(init, temps);
      ConfiguredPresetsInTableOrder(init, temps);
      assert table == init + [table[n]];
      if table[n].1 in temps {
        forall e | e in prior ensures Named(init, e.0) {
          var option :| option in temps && (e.0, option) in init && temps[option] == e.1;
          var p :| 0 <= p < |init| && init[p] == (e.0, option);
          assert init[p].0 == e.0;
        }
        InTableOrderSnoc(prior, init, table[n], temps[table[n].1]);
      } else {
        InTableOrderExtend(prior, init, table[n]);
      }
    }
  }

  lemma InTableOrderExtend(presets: seq<(string, real)>, table: seq<(string, string)>, x: (string, string))
    requires InTableOrder(presets, table)
    ensures InTableOrder(presets, table + [x])
  {
    var t := table + [x];
    forall i, j | 0 <= i < j < |presets| ensures NamedBefore(t, presets[i].0, presets[j].0) {
      assert NamedBefore(table, presets[i].0, presets[j].0);
      var p, q :| 0 <= p < q < |table| && table[p].0 == presets[i].0 && table[q].0 == presets[j].0;
      assert t[p] == table[p] && t[q] == table[q];
    }
  }

  lemma InTableOrderSnoc(presets: seq<(string, real)>, table: seq<(string, string)>, x: (string, string), temp: real)
    requires InTableOrder(presets, table)
    requires forall e | e in presets :: Named(table, e.0)
    ensures InTableOrder(presets + [(x.0, temp)], table + [x])
  {
    InTableOrderExtend(presets, table, x);
    var r, t := presets + [(x.0, temp)], table + [x];
    forall i, j | 0 <= i < j < |r| ensures NamedBefore(t, r[i].0, r[j].0) {
      assert r[i] == presets[i];
      if j < |presets| {
        assert r[j] == presets[j];
      } else {
        assert presets[i] in presets;
        assert Named(table, presets[i].0);
        var p :| 0 <= p < |table| && table[p].0 == presets[i].0;
        assert t[p].0 == r[i].0 && t[|table|].0 == r[j].0;
      }
    }
  }

  /**
   * The preset names in order. The Onkyo model has the same projection for
   * its dictionaries; each model keeps its own so that the two stay
   * independent of each other.
   */
  function PresetNames(presets: seq<(string, real)>): (names: seq<string>)
    ensures |names| == |presets|
    ensures forall i | 0 <= i < |presets| :: names[i] == presets[i].0
  {
    seq(|presets|, i requires 0 <= i < |presets| => presets[i].0)
  }

  /** The temperature of a named preset (the first entry with that name). */
  function PresetTemp(presets: seq<(string, real)>, name: string): (t: real)
    requires name in PresetNames(presets)
    ensures (name, t) in presets
    decreases |presets|
  {
    if presets[0].0 == name then presets[0].1
    else
      assert PresetNames(presets) == [presets[0].0] + PresetNames(presets[1..]);
      PresetTemp(presets[1..], name)
  }

  /** The saved target at start: the configured target unless it is missing or zero, else the first preset's. */
  function InitialSavedTarget(target: Option<real>, presets: seq<(string, real)>): (r: Option<real>)
    ensures target.Some? && target.value != 0.0 ==> r == target
    ensures (target.None? || target.value == 0.0) ==> (r.Some? <==> |presets| > 0)
    ensures (target.None? || target.value == 0.0) && |presets| > 0 ==> r == Some(presets[0].1)
  {
    if target.Some? && target.value != 0.0 then target
    else if |presets| > 0 then Some(presets[0].1)
    else None
  }

  // ---------------------------------------------------------------------
  // The control decision

  predicate TooCold(t: Tuning, current: real, target: real) { target >= current + t.coldTolerance }

  predicate TooHot(t: Tuning, current: real, target: real) { current >= target + t.hotTolerance }

  /**
   * The hysteresis step once the controller may act. In heat mode a running
   * heater stops when too hot and an idle one starts when too cold; AC mode
   * swaps the two. With no threshold crossed a keep-alive tick re-asserts the
   * heater's state, and any other step does nothing.
   */
  function Hysteresis(t: Tuning, current: real, target: real, heater: HeaterState, keepAliveTick: bool): (cmd: Command)
    ensures heater.HeaterOn? && !t.acMode ==> (cmd == TurnOff <==> TooHot(t, current, target))
    ensures heater.HeaterOn? && t.acMode ==> (cmd == TurnOff <==> TooCold(t, current, target))
    ensures !heater.HeaterOn? && !t.acMode ==> (cmd == TurnOn <==> TooCold(t, current, target))
    ensures !heater.HeaterOn? && t.acMode ==> (cmd == TurnOn <==> TooHot(t, current, target))
    ensures heater.HeaterOn? && cmd != TurnOff ==> cmd == (if keepAliveTick then TurnOn else NoCommand)
    ensures !heater.HeaterOn? && cmd != TurnOn ==> cmd == (if keepAliveTick then TurnOff else NoCommand)
  {
    var tooCold := TooCold(t, current, target);
    var tooHot := TooHot(t, current, target);
    if heater.HeaterOn? then
      if (t.acMode && tooCold) || (!t.acMode && tooHot) then TurnOff
      else if keepAliveTick then TurnOn
      else NoCommand
    else
      if (t.acMode && tooHot) || (!t.acMode && tooCold) then TurnOn
      else if keepAliveTick then TurnOff
      else NoCommand
  }

  /** Inside the band strictly between the two thresholds, a step that is not a keep-alive tick does nothing. */
  lemma DeadBandIssuesNothing(t: Tuning, current: real, target: real, heater: HeaterState)
    requires target - t.coldTolerance < current < target + t.hotTolerance
    ensures Hysteresis(t, current, target, heater, false) == NoCommand
  {
  }

  /** With non-negative tolerances that are not both zero, a reading is never both too cold and too hot. */
  lemma ThresholdsExclusive(t: Tuning, current: real, target: real)
    requires t.coldTolerance >= 0.0 && t.hotTolerance >= 0.0 && t.coldTolerance + t.hotTolerance > 0.0
    ensures !(TooCold(t, current, target) && TooHot(t, current, target))
  {
  }

  /** The minimum-cycle gate applies to a step that is neither forced nor a keep-alive tick, when a non-zero duration is set. */
  predicate CycleGateApplies(t: Tuning, keepAliveTick: bool, force: bool)
  {
    !force && !keepAliveTick && t.minCycleDuration.Some? && t.minCycleDuration.value > 0
  }

  /**
   * One control step after the active latch was updated: nothing while
   * inactive or off, nothing when the minimum-cycle gate applies and the
   * heater has not held its state long enough (a failed check counts as not
   * long enough), and the hysteresis decision otherwise.
   */
  function ControlDecision(
    active: bool, mode: Option<HvacMode>, current: Option<real>, target: Option<real>,
    t: Tuning, keepAliveTick: bool, force: bool, heater: HeaterState, held: CycleCheck): (cmd: Command)
    requires active ==> current.Some? && target.Some?
    ensures !active || mode == Some(Off) ==> cmd == NoCommand
    ensures CycleGateApplies(t, keepAliveTick, force) && held != HeldLongEnough ==> cmd == NoCommand
    ensures active && mode != Some(Off) && (!CycleGateApplies(t, keepAliveTick, force) || held == HeldLongEnough)
      ==> cmd == Hysteresis(t, current.value, target.value, heater, keepAliveTick)
  {
    if !active || mode == Some(Off) then NoCommand
    else if CycleGateApplies(t, keepAliveTick, force) && held != HeldLongEnough then NoCommand
    else Hysteresis(t, current.value, target.value, heater, keepAliveTick)
  }

  /** `hvac_action`: off when the mode is off, else idle unless the heater is on, else cooling in AC mode and heating otherwise. */
  function Action(mode: Option<HvacMode>, heater: HeaterState, acMode: bool): (a: HvacAction)
    ensures a == ActionOff <==> mode == Some(Off)
    ensures a == Idle <==> mode != Some(Off) && !heater.HeaterOn?
    ensures a == Cooling <==> mode != Some(Off) && heater.HeaterOn? && acMode
    ensures a == Heating <==> mode != Some(Off) && heater.HeaterOn? && !acMode
  {
    if mode == Some(Off) then ActionOff
    else if !heater.HeaterOn? then Idle
    else if acMode then Cooling
    else Heating
  }

  // ---------------------------------------------------------------------
  // The entity

  class GenericThermostat {
    const acMode: bool
    const coldTolerance: real
    const hotTolerance: real
    const keepAlive: Option<nat>
    const minCycleDuration: Option<nat>
    const minTemp: real
    const maxTemp: real
    const hvacModes: seq<HvacMode>
    const presets: seq<(string, real)>
    const presetModes: seq<string>

    var active: bool
    var currentTemperature: Option<real>
    var targetTemperature: Option<real>
    var hvacMode: Option<HvacMode>
    var presetMode: string
    var savedTargetTemperature: Option<real>

    /** The object invariant, from construction on. */
    ghost predicate Valid()
      reads this
    {
      && presetModes == [PRESET_NONE] + PresetNames(presets)
      && presetMode in presetModes
      && (savedTargetTemperature.None? ==> presets == [])
      && (active ==> currentTemperature.Some? && targetTemperature.Some?)
    }

    /** After the entity was added to the host: a mode and a target are always known. */
    ghost predicate Ready()
      reads this
    {
      Valid() && hvacMode.Some? && targetTemperature.Some?
    }

    function Settings(): Tuning
    {
      Tuning(acMode, coldTolerance, hotTolerance, minCycleDuration)
    }

    constructor (o: ThermostatOptions)
      requires ParseOptionalDuration(o.keepAlive).Success? && ParseOptionalDuration(o.minCycleDuration).Success?
      ensures Valid()
      ensures acMode == o.acMode && coldTolerance == o.coldTolerance && hotTolerance == o.hotTolerance
      ensures keepAlive == ParseOptionalDuration(o.keepAlive).value
      ensures minCycleDuration == ParseOptionalDuration(o.minCycleDuration).value
      ensures minTemp == o.minTemp && maxTemp == o.maxTemp
      ensures hvacModes == if o.acMode then [Cool, Off] else [Heat, Off]
      ensures presets == ConfiguredPresets(PRESET_TABLE, o.presetTemps)
      ensures presetModes == [PRESET_NONE] + PresetNames(presets)
      ensures savedTargetTemperature == InitialSavedTarget(o.targetTemp, presets)
      ensures !active && currentTemperature.None? && targetTemperature == o.targetTemp
      ensures hvacMode == o.initialHvacMode && presetMode == PRESET_NONE
    {
      var configured := ConfiguredPresets(PRESET_TABLE, o.presetTemps);
      acMode := o.acMode;
      coldTolerance := o.coldTolerance;
      hotTolerance := o.hotTolerance;
      keepAlive := ParseOptionalDuration(o.keepAlive).value;
      minCycleDuration := ParseOptionalDuration(o.minCycleDuration).value;
      minTemp := o.minTemp;
      maxTemp := o.maxTemp;
      hvacModes := if o.acMode then [Cool, Off] else [Heat, Off];
      presets := configured;
      presetModes := [PRESET_NONE] + PresetNames(configured);
      active := false;
      currentTemperature := None;
      targetTemperature := o.targetTemp;
      hvacMode := o.initialHvacMode;
      presetMode := PRESET_NONE;
      savedTargetTemperature := InitialSavedTarget(o.targetTemp, configured);
    }

    /** Restoring defaults when the entity is added, from the last saved state if there is one. */
    method AddedToHass(last: Option<LastState>)
      requires Valid()
      modifies this`targetTemperature, this`presetMode, this`hvacMode
      ensures Ready()
      ensures old(targetTemperature).Some? ==> targetTemperature == old(targetTemperature)
      ensures old(targetTemperature).None? && last.Some? && last.value.temperature.Some?
        ==> targetTemperature == last.value.temperature
      ensures old(targetTemperature).None? && (last.None? || last.value.temperature.None?)
        ==> targetTemperature == Some(if acMode then maxTemp else minTemp)
      ensures presetMode == if last.Some? && last.value.presetMode.Some? && last.value.presetMode.value in presetModes
        then last.value.presetMode.value else old(presetMode)
      ensures hvacMode == if old(hvacMode).Some? then old(hvacMode)
        else if last.Some? && last.value.state.Some? then last.value.state else Some(Off)
    {
      if last.Some? {
        var old_state := last.value;
        if targetTemperature.None? {
          if old_state.temperature.None? {
            if acMode {
              targetTemperature := Some(maxTemp);
            } else {
              targetTemperature := Some(minTemp);
            }
          } else {
            targetTemperature := old_state.temperature;
          }
        }
        if old_state.presetMode.Some? && old_state.presetMode.value in presetModes {
          presetMode := old_state.presetMode.value;
        }
        if hvacMode.None? && old_state.state.Some? {
          hvacMode := old_state.state;
        }
      } else {
        if targetTemperature.None? {
          if acMode {
            targetTemperature := Some(maxTemp);
          } else {
            targetTemperature := Some(minTemp);
          }
        }
      }
      if hvacMode.None? {
        hvacMode := Some(Off);
      }
    }

    /** `_async_control_heating`: latch active once both temperatures are known, then decide. */
    method ControlHeating(keepAliveTick: bool, force: bool, heater: HeaterState, held: CycleCheck) returns (cmd: Command)
      requires Valid()
      modifies this`active
      ensures Valid()
      ensures active == (old(active) || (currentTemperature.Some? && targetTemperature.Some?))
      ensures cmd == ControlDecision(active, hvacMode, currentTemperature, targetTemperature,
                                     Settings(), keepAliveTick, force, heater, held)
    {
      if !active && currentTemperature.Some? && targetTemperature.Some? {
        active := true;
      }
      if !active || hvacMode == Some(Off) {
        return NoCommand;
      }
      if !force && !keepAliveTick && minCycleDuration.Some? && minCycleDuration.value > 0 {
        var longEnough := held == HeldLongEnough;
        if !longEnough {
          return NoCommand;
        }
      }
      var tooCold := targetTemperature.value >= currentTemperature.value + coldTolerance;
      var tooHot := currentTemperature.value >= targetTemperature.value + hotTolerance;
      if heater.HeaterOn? {
        if (acMode && tooCold) || (!acMode && tooHot) {
          cmd := TurnOff;
        } else if keepAliveTick {
          cmd := TurnOn;
        } else {
          cmd := NoCommand;
        }
      } else {
        if (acMode && tooHot) || (!acMode && tooCold) {
          cmd := TurnOn;
        } else if keepAliveTick {
          cmd := TurnOff;
        } else {
          cmd := NoCommand;
        }
      }
    }

    /** `async_set_hvac_mode`: heat and cool force a control step, off stops a running heater, anything else is refused. */
    method SetHvacMode(mode: HvacMode, heater: HeaterState, held: CycleCheck) returns (cmd: Command)
      requires Ready()
      modifies this`hvacMode, this`active
      ensures Ready()
      ensures mode == Heat || mode == Cool ==>
        && hvacMode == Some(mode)
        && active == (old(active) || currentTemperature.Some?)
        && cmd == ControlDecision(active, hvacMode, currentTemperature, targetTemperature, Settings(), false, true, heater, held)
      ensures mode == Off ==>
        hvacMode == Some(Off) && active == old(active) && cmd == (if heater.HeaterOn? then TurnOff else NoCommand)
      ensures mode !in {Heat, Cool, Off} ==>
        hvacMode == old(hvacMode) && active == old(active) && cmd == NoCommand
    {
      if mode == Heat {
        hvacMode := Some(Heat);
        cmd := ControlHeating(false, true, heater, held);
      } else if mode == Cool {
        hvacMode := Some(Cool);
        cmd := ControlHeating(false, true, heater, held);
      } else if mode == Off {
        hvacMode := Some(Off);
        cmd := if heater.HeaterOn? then TurnOff else NoCommand;
      } else {
        cmd := NoCommand;
      }
    }

    /** `async_set_temperature`: a call without a temperature changes nothing; otherwise set it and force a step. */
    method SetTemperature(temperature: Option<real>, heater: HeaterState, held: CycleCheck) returns (cmd: Command)
      requires Ready()
      modifies this`targetTemperature, this`active
      ensures Ready()
      ensures temperature.None? ==> targetTemperature == old(targetTemperature) && active == old(active) && cmd == NoCommand
      ensures temperature.Some? ==>
        && targetTemperature == temperature
        && active == (old(active) || currentTemperature.Some?)
        && cmd == ControlDecision(active, hvacMode, currentTemperature, targetTemperature, Settings(), false, true, heater, held)
    {
      if temperature.None? {
        return NoCommand;
      }
      targetTemperature := temperature;
      cmd := ControlHeating(false, true, heater, held);
    }

    /** `_async_update_temp`: only a finite number replaces the current temperature. */
    method UpdateTemp(reading: SensorReading)
      requires Valid()
      modifies this`currentTemperature
      ensures Valid()
      ensures currentTemperature == if reading.Finite? then Some(reading.celsius) else old(currentTemperature)
    {
      if reading.Finite? {
        currentTemperature := Some(reading.celsius);
      }
    }

    /**
     * `_async_sensor_changed`: a missing, unavailable or unknown new state
     * (None here) is ignored; otherwise update and run an ordinary step.
     */
    method SensorChanged(newState: Option<SensorReading>, heater: HeaterState, held: CycleCheck) returns (cmd: Command)
      requires Ready()
      modifies this`currentTemperature, this`active
      ensures Ready()
      ensures newState.None? ==> currentTemperature == old(currentTemperature) && active == old(active) && cmd == NoCommand
      ensures newState.Some? ==>
        && currentTemperature == (if newState.value.Finite? then Some(newState.value.celsius) else old(currentTemperature))
        && active == (old(active) || currentTemperature.Some?)
        && cmd == ControlDecision(active, hvacMode, currentTemperature, targetTemperature, Settings(), false, false, heater, held)
    {
      if newState.None? {
        return NoCommand;
      }
      UpdateTemp(newState.value);
      cmd := ControlHeating(false, false, heater, held);
    }

    /** `_check_switch_initial_state`: a heater found on while the mode is off is turned off. */
    method CheckSwitchInitialState(heater: HeaterState) returns (cmd: Command)
      ensures cmd == TurnOff <==> hvacMode == Some(Off) && heater.HeaterOn?
      ensures cmd != TurnOn
    {
      if hvacMode == Some(Off) && heater.HeaterOn? {
        cmd := TurnOff;
      } else {
        cmd := NoCommand;
      }
    }

    /**
     * `async_set_preset_mode`: leaving NONE saves the target, moving between
     * presets keeps the saved one, returning to NONE restores it; the current
     * preset again changes nothing, and an unknown one is an error.
     */
    method SetPresetMode(preset: string, heater: HeaterState, held: CycleCheck) returns (r: Result<Command, ThermostatError>)
      requires Ready()
      modifies this`presetMode, this`targetTemperature, this`savedTargetTemperature, this`active
      ensures Ready()
      ensures preset !in presetModes ==>
        r == Failure(UnsupportedPresetMode(preset)) && unchanged(this)
      ensures preset in presetModes && preset == old(presetMode) ==>
        r == Success(NoCommand) && unchanged(this)
      ensures preset == PRESET_NONE && old(presetMode) != PRESET_NONE ==>
        && presetMode == PRESET_NONE
        && targetTemperature == old(savedTargetTemperature)
        && savedTargetTemperature == old(savedTargetTemperature)
      ensures preset in presetModes && preset != PRESET_NONE && preset != old(presetMode) ==>
        && presetMode == preset
        && targetTemperature == Some(PresetTemp(presets, preset))
        && savedTargetTemperature == (if old(presetMode) == PRESET_NONE then old(targetTemperature) else old(savedTargetTemperature))
      ensures preset in presetModes && preset != old(presetMode) ==>
        && active == (old(active) || currentTemperature.Some?)
        && r == Success(ControlDecision(active, hvacMode, currentTemperature, targetTemperature, Settings(), false, true, heater, held))
    {
      if preset !in presetModes {
        return Failure(UnsupportedPresetMode(preset));
      }
      if preset == presetMode {
        return Success(NoCommand);
      }
      if preset == PRESET_NONE {
        presetMode := PRESET_NONE;
        targetTemperature := savedTargetTemperature;
      } else {
        if presetMode == PRESET_NONE {
          savedTargetTemperature := targetTemperature;
        }
        presetMode := preset;
        targetTemperature := Some(PresetTemp(presets, preset));
      }
      var cmd := ControlHeating(false, true, heater, held);
      r := Success(cmd);
    }
  }

  /** Building the entity: a keep-alive or minimum-cycle option that does not parse raises, as the constructor does. */
  method Create(o: ThermostatOptions) returns (r: Result<GenericThermostat, ThermostatError>)
    ensures r.Failure? <==> ParseOptionalDuration(o.keepAlive).Failure? || ParseOptionalDuration(o.minCycleDuration).Failure?
    ensures r.Success? ==> fresh(r.value) && r.value.Valid() && !r.value.active && r.value.hvacMode == o.initialHvacMode
  {
    var keepAlive := ParseOptionalDuration(o.keepAlive);
    if keepAlive.Failure? {
      return Failure(keepAlive.error);
    }
    var minCycle := ParseOptionalDuration(o.minCycleDuration);
    if minCycle.Failure? {
      return Failure(minCycle.error);
    }
    var t := new GenericThermostat(o);
    r := Success(t);
  }

  /** Entering a preset from NONE and returning to NONE gives back the manual target. */
  method PresetRoundTrip(t: GenericThermostat, preset: string, heater: HeaterState, held: CycleCheck)
    requires t.Ready() && t.presetMode == PRESET_NONE && preset in t.presetModes && preset != PRESET_NONE
    modifies t
    ensures t.Ready() && t.presetMode == PRESET_NONE && t.targetTemperature == old(t.targetTemperature)
  {
    var _ := t.SetPresetMode(preset, heater, held);
    var _ := t.SetPresetMode(PRESET_NONE, heater, held);
  }
}
