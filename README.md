# Home Assistant components: thermostat, mower calendar, Onkyo sources, Freebox sensors

A Dafny model of four pieces of Home Assistant integrations, with proofs of
what they promise.

- **Generic thermostat** (`thermostat.dfy`, module `Thermostat`). The thermostat is an on/off controller for one heater switch, or one cooler in AC mode. It has a target temperature, cold and hot tolerances, an optional keep-alive tick and an optional minimum cycle duration. Preset modes remember the manual target. `GenericThermostat` is a class whose methods update the entity's fields:
  - the "active" latch;
  - HVAC mode and preset mode;
  - target and current temperature;
  - the saved target.

  The heater switch's state and the host's "held long enough" check are inputs. The switching service call a step makes is the output `Command`.
- **Husqvarna Automower calendar** (`automower_calendar.dfy`, module `AutomowerCalendar`). Weekly mowing tasks expand into dated windows over a horizon of days. Each window carries a uid `"{task}#{work area}#{weekday}"`. The model covers:
  - the window that contains "now";
  - the events over a range;
  - the update of one task from an edited event, which parses that uid back.

  The day cursor is shared by all tasks, so every task after the first gets an empty period. The model keeps this and proves it (`ExpandShape`).
- **Onkyo sources** (`onkyo_sources.dfy`, module `OnkyoSources`). The default source table is distilled from the receiver library's SLI command table. The model also covers restricting that table to a user's selection, and moving the selected sources into the config entry's options once.
- **Freebox sensors** (`freebox_sensor.dfy`, module `FreeboxSensor`). The model covers:
  - the entities set up from a coordinator refresh;
  - the call sensor, which counts new calls of one type;
  - the disk sensor's free-space percentage. The sensor is modelled as written: it reads the partition record it was created with. The value from the latest refresh is defined beside it, see "## Findings";
  - the temperature and connection readings.

`wrappers.dfy` holds `Option` and `Result`. `text.dfy` holds Python's `int()`, `str()`, `split` and `join` on the strings the model needs, with the round trip `SplitOn(Join(parts)) == parts`.

Modelling conventions:
- Temperatures are exact reals.
- Times are whole seconds counted from a Monday midnight in local time.
- A Python dict that is iterated is a sequence of pairs in insertion order.

## Model

| member | source | states |
|---|---|---|
| Thermostat.ConvertTimedelta | homeassistant/components/generic_thermostat/climate.py:144-149 | an "H:M:S" text converts only when it splits on ':' into three fields of one or two ASCII digits, with hour below 24 and minute and second below 60, and then to H·3600 + M·60 + S seconds, less than a day |
| Thermostat.ConvertTimedeltaOfFields | homeassistant/components/generic_thermostat/climate.py:144-149 | every text of three such fields joined by ':' converts, padded or not, to H·3600 + M·60 + S seconds |
| Thermostat.ConvertTimedeltaOfClock | homeassistant/components/generic_thermostat/climate.py:144-149 | a zero-padded "HH:MM:SS" reading converts to H·3600 + M·60 + S seconds |
| Thermostat.ParseOptionalDuration | homeassistant/components/generic_thermostat/climate.py:181-190 | an absent or empty keep-alive / minimum-cycle option means no duration; other text is an error exactly when it does not convert |
| Thermostat.ConfiguredPresets | homeassistant/components/generic_thermostat/climate.py:170-174 | the presets are exactly the table's presets whose temperature option is configured, each with that option's temperature |
| Thermostat.ConfiguredPresetsInTableOrder | homeassistant/components/generic_thermostat/climate.py:170-174 | the configured presets come in the order of the preset table |
| Thermostat.PresetTemp | homeassistant/components/generic_thermostat/climate.py:507 | the temperature looked up for a configured preset is one configured for that name |
| Thermostat.InitialSavedTarget | homeassistant/components/generic_thermostat/climate.py:219-221 | the saved target starts as the configured target unless it is missing or zero, else as the first preset's temperature, else none |
| Thermostat.Hysteresis | homeassistant/components/generic_thermostat/climate.py:437-465 | in heat mode a running heater is turned off iff too hot and an idle one turned on iff too cold; AC mode swaps the two; otherwise a keep-alive tick re-asserts the heater's state and any other step issues nothing |
| Thermostat.DeadBandIssuesNothing | homeassistant/components/generic_thermostat/climate.py:437-465 | strictly inside the band between the two thresholds an ordinary step issues no command |
| Thermostat.ThresholdsExclusive | homeassistant/components/generic_thermostat/climate.py:437-444 | with non-negative tolerances, not both zero, a reading is never both too cold and too hot |
| Thermostat.ControlDecision | homeassistant/components/generic_thermostat/climate.py:412-465 | no command while inactive or off; no command when the minimum-cycle gate applies (not forced, no keep-alive tick, non-zero duration) and the heater has not held its state long enough, a failed check counting as not long enough; the hysteresis decision otherwise |
| Thermostat.Action | homeassistant/components/generic_thermostat/climate.py:317-323 | the action is off iff the mode is off, idle iff not off and the heater is not on, cooling iff on in AC mode, heating iff on otherwise |
| Thermostat.GenericThermostat.constructor | homeassistant/components/generic_thermostat/climate.py:167-221 | HVAC modes are [cool, off] in AC mode and [heat, off] otherwise; preset modes are none followed by the configured presets; preset none; inactive; no current temperature; the saved target as above |
| Thermostat.Create | homeassistant/components/generic_thermostat/climate.py:167-190 | building the entity fails exactly when a keep-alive or minimum-cycle option does not convert |
| Thermostat.GenericThermostat.AddedToHass | homeassistant/components/generic_thermostat/climate.py:268-309 | a missing target is restored from the last state, else set to max_temp in AC mode and min_temp otherwise; a restored preset is taken only if offered; a missing mode is restored, else off |
| Thermostat.GenericThermostat.ControlHeating | homeassistant/components/generic_thermostat/climate.py:395-465 | the latch becomes active once both temperatures are known and stays active; the command is the control decision for the new state |
| Thermostat.GenericThermostat.SetHvacMode | homeassistant/components/generic_thermostat/climate.py:325-341 | heat and cool set the mode and force a control step; off sets the mode and turns a running heater off; an unrecognised mode changes nothing |
| Thermostat.GenericThermostat.SetTemperature | homeassistant/components/generic_thermostat/climate.py:343-349 | a call without a temperature changes nothing; otherwise the target is set and a forced control step runs |
| Thermostat.GenericThermostat.UpdateTemp | homeassistant/components/generic_thermostat/climate.py:384-393 | only a finite numeric reading replaces the current temperature; a non-numeric, NaN or infinite one leaves it unchanged |
| Thermostat.GenericThermostat.SensorChanged | homeassistant/components/generic_thermostat/climate.py:351-359 | a missing, unavailable or unknown new state is ignored; otherwise the reading is applied and an ordinary control step runs |
| Thermostat.GenericThermostat.CheckSwitchInitialState | homeassistant/components/generic_thermostat/climate.py:361-371 | the heater is turned off iff the mode is off and the heater is on; it is never turned on |
| Thermostat.GenericThermostat.SetPresetMode | homeassistant/components/generic_thermostat/climate.py:489-510 | an unknown preset is an error and changes nothing; the current preset again changes nothing; leaving none saves the target, moving between presets keeps the saved target, returning to none restores it; each change forces a control step |
| Thermostat.PresetRoundTrip | homeassistant/components/generic_thermostat/climate.py:499-507 | entering a preset from none and returning to none gives back the manual target |
| AutomowerCalendar.SetFlag | homeassistant/components/husqvarna_automower/calendar.py:139-140 | exactly the given weekday's flag becomes true; the other flags and the task's times are kept |
| AutomowerCalendar.WorkAreaIdOf | homeassistant/components/husqvarna_automower/calendar.py:97 | a task without a work area counts as work area 0 |
| AutomowerCalendar.UidFields | homeassistant/components/husqvarna_automower/calendar.py:131 | a uid is accepted iff it splits on '#' into exactly three fields; the first two are returned |
| AutomowerCalendar.UidRoundTrip | homeassistant/components/husqvarna_automower/calendar.py:116-132 | the uid built for a window splits and parses back into its task index and work-area id |
| AutomowerCalendar.DayWindow | homeassistant/components/husqvarna_automower/calendar.py:104-117 | the window of a day starts task.start minutes into it, lasts task.duration minutes and carries the uid of task, work area and weekday name |
| AutomowerCalendar.TaskWindows | homeassistant/components/husqvarna_automower/calendar.py:100-119 | a task gets no more windows than the horizon has days |
| AutomowerCalendar.TaskWindowsInDayOrder | homeassistant/components/husqvarna_automower/calendar.py:100-119 | the windows have strictly increasing dates: at most one per day, in day order |
| AutomowerCalendar.TaskWindowsSound | homeassistant/components/husqvarna_automower/calendar.py:101-119 | every window falls on a day of the horizon whose weekday flag is set, with the start, end and uid above |
| AutomowerCalendar.TaskWindowsComplete | homeassistant/components/husqvarna_automower/calendar.py:101-119 | every day of the horizon whose weekday flag is set has its window |
| AutomowerCalendar.DaysLeft | homeassistant/components/husqvarna_automower/calendar.py:101 | the days scanned run from the cursor's date up to, and excluding, the start date plus the interval |
| AutomowerCalendar.ExpandShape | homeassistant/components/husqvarna_automower/calendar.py:89-121 | there is one period per task; the first holds the first task's windows over the whole horizon; every later period is empty because the day cursor is not reset |
| AutomowerCalendar.ExhaustedCursorGivesEmptyPeriods | homeassistant/components/husqvarna_automower/calendar.py:96-120 | once the cursor has reached the end date, every further task gets an empty period |
| AutomowerCalendar.ExpandFailsOnUnknownArea | homeassistant/components/husqvarna_automower/calendar.py:97-99 | the expansion fails iff some task's work area is missing from the work-area dictionary |
| AutomowerCalendar.PeriodsStep | homeassistant/components/husqvarna_automower/calendar.py:96-120 | one round of the task loop appends the task's period and advances the cursor over the rest of the horizon |
| AutomowerCalendar.PeriodsFailStep | homeassistant/components/husqvarna_automower/calendar.py:99 | a task with an unknown work area makes the whole expansion fail |
| AutomowerCalendar.WalkDays | homeassistant/components/husqvarna_automower/calendar.py:100-119 | the day loop yields the task's windows over the days left and leaves the cursor at the end date |
| AutomowerCalendar.DateRange | homeassistant/components/husqvarna_automower/calendar.py:89-121 | the loops compute the expansion: nothing when the work areas are not a dictionary, else one period per task with the cursor shared, or the error of an unknown work area |
| AutomowerCalendar.ToEvent | homeassistant/components/husqvarna_automower/calendar.py:57-64 | an event has the window's start, end and uid, and the work area as its location |
| AutomowerCalendar.ToEvents | homeassistant/components/husqvarna_automower/calendar.py:77-86 | one event per window, in order |
| AutomowerCalendar.FirstCovering | homeassistant/components/husqvarna_automower/calendar.py:52-65 | the result is the first window in task-then-day order with start < now < end, or none when no window has it |
| AutomowerCalendar.CurrentEvent | homeassistant/components/husqvarna_automower/calendar.py:47-65 | over the default 7-day horizon from the start of today, the event of the first window strictly containing now, else none |
| AutomowerCalendar.CollectEvents | homeassistant/components/husqvarna_automower/calendar.py:71-87 | the loops append exactly one event per expanded window, in task-then-day order |
| AutomowerCalendar.GetEvents | homeassistant/components/husqvarna_automower/calendar.py:67-87 | the events over a range are the events of the expansion over the whole days between start and end |
| AutomowerCalendar.TruncDiv | homeassistant/components/husqvarna_automower/calendar.py:143-145 | the whole minutes truncate toward zero, as `int()` does: a non-negative difference gives a non-negative quotient whose remainder lies in [0, d); a negative one gives a non-positive quotient whose remainder lies in (−d, 0] |
| AutomowerCalendar.UpdatedTask | homeassistant/components/husqvarna_automower/calendar.py:139-145 | the new start's weekday flag is set and the others kept; start becomes hour·60 + minute of the new start; duration becomes the whole minutes from start to end |
| AutomowerCalendar.MinuteOfDay | homeassistant/components/husqvarna_automower/calendar.py:142 | a time on a whole minute is its date's midnight plus its hour·60 + minute minutes |
| AutomowerCalendar.UpdatedTaskWindow | homeassistant/components/husqvarna_automower/calendar.py:139-145 | an edit on whole minutes round-trips: the updated task's window on that day runs from the new start to the new end |
| AutomowerCalendar.ListPosition | homeassistant/components/husqvarna_automower/calendar.py:137 | a list index is valid iff it lies in [-length, length); a negative one counts from the end |
| AutomowerCalendar.CalendarEntity.UpdateEvent | homeassistant/components/husqvarna_automower/calendar.py:123-156 | a uid without three fields or with a non-numeric work-area id fails before the refresh; after the refresh, a bad task index fails; otherwise that task is updated and the work-area id is returned with the task list |
| OnkyoSources.Put | homeassistant/components/onkyo/__init__.py:107 | updating a dict replaces the value of an existing key in its place and appends a new key |
| OnkyoSources.PutKeys | homeassistant/components/onkyo/__init__.py:107 | an update keeps the keys distinct and adds the key at the end only when it is new |
| OnkyoSources.PutMember | homeassistant/components/onkyo/__init__.py:107 | after an update an entry is present iff it is the new (key, value) pair or an old entry under another key |
| OnkyoSources.PutContents | homeassistant/components/onkyo/__init__.py:107 | after an update the keys stay distinct, the key holds the new value and every other entry is kept |
| OnkyoSources.RemoveSets | homeassistant/components/onkyo/__init__.py:102 | removing "sets " never lengthens a description |
| OnkyoSources.RemoveSetsKeepsPlain | homeassistant/components/onkyo/__init__.py:102 | a description without "sets " is unchanged |
| OnkyoSources.RemoveSetsDropsFirst | homeassistant/components/onkyo/__init__.py:102 | the scan keeps the text before the first occurrence of "sets ", drops that occurrence and carries on after it |
| OnkyoSources.RemoveSetsDropsWholeOccurrences | homeassistant/components/onkyo/__init__.py:102 | the description shrinks by whole occurrences of "sets " |
| OnkyoSources.SinglePassCanLeaveSets | homeassistant/components/onkyo/__init__.py:102 | the removal is a single left-to-right pass: "ssets ets " becomes "sets " |
| OnkyoSources.SourceName | homeassistant/components/onkyo/__init__.py:103-104 | a tuple-valued name is replaced by its first element |
| OnkyoSources.Step | homeassistant/components/onkyo/__init__.py:101-107 | one round files the normalised description under the source's name unless the name is excluded, keeping the other entries |
| OnkyoSources.DefaultSourcesOf | homeassistant/components/onkyo/__init__.py:97-108 | the default table has distinct keys |
| OnkyoSources.DefaultSources | homeassistant/components/onkyo/__init__.py:97-108 | the loop builds exactly the default table |
| OnkyoSources.DefaultSourcesExcludes | homeassistant/components/onkyo/__init__.py:105-106 | the default table never holds "07", "08", "09", "up", "down" or "query" |
| OnkyoSources.DefaultSourcesKeys | homeassistant/components/onkyo/__init__.py:97-108 | a name is a key of the default table iff some SLI value carries it and it is not excluded |
| OnkyoSources.DefaultSourcesLastWins | homeassistant/components/onkyo/__init__.py:102-107 | the description under a name is the normalised description of the last value carrying that name |
| OnkyoSources.Restrict | homeassistant/components/onkyo/__init__.py:113 | the restriction never has more entries than the table |
| OnkyoSources.RestrictMembers | homeassistant/components/onkyo/__init__.py:113 | the restriction keeps exactly the entries whose key is selected |
| OnkyoSources.RestrictKeepsOrder | homeassistant/components/onkyo/__init__.py:113 | the restriction keeps the order of the default table |
| OnkyoSources.RestrictDistinct | homeassistant/components/onkyo/__init__.py:113 | the restriction of a table with distinct keys has distinct keys |
| OnkyoSources.ListToDict | homeassistant/components/onkyo/__init__.py:111-113 | every key is selected and a default source with its default description, and every selected default source is present |
| OnkyoSources.MigratedOptions | homeassistant/components/onkyo/__init__.py:41-48 | options already set are kept; empty options get the sources: a list converted by `list2dict`, a dict kept, nothing becoming an empty dict |
| OnkyoSources.MigrationIsIdempotent | homeassistant/components/onkyo/__init__.py:41-48 | setting an entry up again does not change its options again |
| OnkyoSources.ConfigEntry.MigrateOptions | homeassistant/components/onkyo/__init__.py:41-48 | the entry's options become the migrated options |
| FreeboxSensor.NewCallsOfType | homeassistant/components/freebox/sensor.py:111-118 | never more selected calls than logged calls |
| FreeboxSensor.NewCallsMembers | homeassistant/components/freebox/sensor.py:111-118 | the selected calls are exactly the logged calls that are new and of the sensor's type |
| FreeboxSensor.NewCallsCount | homeassistant/components/freebox/sensor.py:111-123 | the value is the number of log entries that are new calls of the sensor's type |
| FreeboxSensor.CollectNewCalls | homeassistant/components/freebox/sensor.py:111-118 | the loop keeps exactly the new calls of the type, in order; a missing or empty log gives none |
| FreeboxSensor.CallAttributes | homeassistant/components/freebox/sensor.py:119-122 | never more attributes than calls |
| FreeboxSensor.CallAttributesKeys | homeassistant/components/freebox/sensor.py:119-122 | the attribute keys are exactly the calls' timestamps |
| FreeboxSensor.LaterCallWins | homeassistant/components/freebox/sensor.py:119-122 | among calls sharing a timestamp, the last one's name is kept |
| FreeboxSensor.FreeboxCallSensor.HandleCoordinatorUpdate | homeassistant/components/freebox/sensor.py:108-124 | the value counts the new calls of the type and the attributes index them by timestamp; a missing or empty log gives 0 and no attributes; there are no more attributes than the value |
| FreeboxSensor.DiskPercent | homeassistant/components/freebox/sensor.py:180-185 | no value when the total is missing or zero; otherwise value·total = free·100 |
| FreeboxSensor.CurrentDiskValue | homeassistant/components/freebox/sensor.py:177-186 | the percentage of the partition with the sensor's disk and partition ids in the latest refresh |
| FreeboxSensor.CapturedIgnoresRefresh | homeassistant/components/freebox/sensor.py:177-186 | the value computed from the stored partition is the same whatever the refresh holds |
| FreeboxSensor.CapturedAgreesWhileUnchanged | homeassistant/components/freebox/sensor.py:177-186 | while the refresh still reports the stored partition unchanged under the sensor's ids, the stored value equals the value from the refresh |
| FreeboxSensor.CapturedValueMissesRefresh | homeassistant/components/freebox/sensor.py:159-186 | the value computed from the partition captured at creation misses a refresh that changes that partition |
| FreeboxSensor.FreeboxDiskSensor.constructor | homeassistant/components/freebox/sensor.py:151-164 | the sensor keeps the disk and partition records it is given and is named after the partition label and the description |
| FreeboxSensor.FreeboxDiskSensor.HandleCoordinatorUpdate | homeassistant/components/freebox/sensor.py:177-186 | the value becomes the percentage of the partition stored at creation; the refresh is not read |
| FreeboxSensor.TemperatureValue | homeassistant/components/freebox/sensor.py:86-92 | a temperature sensor reads its key's value from the refresh; a key the refresh lacks is the error case |
| FreeboxSensor.ConnectionValue | homeassistant/components/freebox/sensor.py:140-145 | a connection sensor's value is its reading divided by 1000 |
| FreeboxSensor.PartitionEntities | homeassistant/components/freebox/sensor.py:60-66 | one disk sensor per description for a partition |
| FreeboxSensor.DiskEntitiesOf | homeassistant/components/freebox/sensor.py:60-66 | a disk yields partitions × descriptions sensors |
| FreeboxSensor.DiskEntities | homeassistant/components/freebox/sensor.py:60-66 | the disks yield their partition count × descriptions sensors |
| FreeboxSensor.DiskEntitiesOfContents | homeassistant/components/freebox/sensor.py:60-66 | a disk's sensors are exactly one per (partition, description) pair |
| FreeboxSensor.DiskEntitiesContents | homeassistant/components/freebox/sensor.py:60-66 | the disk sensors are exactly one per (disk, partition, description) triple |
| FreeboxSensor.SetupEntities | homeassistant/components/freebox/sensor.py:26-69 | one temperature sensor per key of the refresh's temperature table, then the connection sensors, the call sensors and the disk sensors, in that order |
| FreeboxSensor.DiskUniqueIdRoundTrip | homeassistant/components/freebox/sensor.py:164 | a disk sensor's unique id combines entry id, description key, disk id and partition id, and splits back into all four when the first two hold no space |

## Left out

- Host plumbing in the thermostat is not modelled: service calls, state-change listeners, the keep-alive interval registration, `async_write_ha_state` and the startup hooks. Commands are returned instead of called. The heater's state and the "held long enough" check are inputs.
- The thermostat's `asyncio.Lock` only serialises control steps. Each step is atomic in the model.
- The switch-changed listener (`_async_switch_changed`) is not modelled. It only schedules `_check_switch_initial_state`, which is modelled.
- Thermostat.ConvertTimedelta: accepts only ASCII digits. The other Unicode decimal digits that `strptime`'s `\d` patterns also match are not modelled.
- Text.ParseInt: models `int()` on an optional sign and ASCII digits only. Surrounding whitespace, `_` between digits and non-ASCII decimal digits, which `int()` also accepts, are not modelled. So AutomowerCalendar.CalendarEntity.UpdateEvent rejects uid fields written that way, where the source would accept them.
- Thermostat.GenericThermostat.UpdateTemp: the reading arrives already classified as finite, NaN or infinite, or non-numeric. Parsing the sensor text with `float()` is not modelled.
- Float rounding of temperatures is not modelled, because temperatures are exact reals.
- The calendar has no time zones or daylight-saving shifts: every day lasts 86400 seconds. Weekday names are computed from the date, not by `strftime`.
- Several calendar values are parameters: "now", the start of today, and the status fetched before an update. Sending the task list to the mower and requesting a refresh are network I/O. `UpdateEvent` returns the work-area id instead.
- The receiver library's command table is an input.
- Connecting to the receiver, the device registry and forwarding platforms in the Onkyo `async_setup_entry` are I/O and are not modelled.
- A sources value of a type other than a list or a dict is not modelled.
- FreeboxSensor.DiskPercent: the rounding to two decimal places is not modelled. The value is the exact quotient.
- FreeboxSensor.ConnectionValue: the rounding to two decimal places is not modelled. The value is the exact quotient.
- FreeboxSensor.CallAttributes: an attribute key is the call's timestamp, not its ISO-8601 text. That text is a one-to-one function of the timestamp.
- The Freebox device info and the coordinator's refresh are not modelled. The refresh is an input value.

## Findings

| source | as written | input that shows it | evidently intended | confidence | as-written member | corrected member |
|---|---|---|---|---|---|---|
| homeassistant/components/freebox/sensor.py:161-185 | the disk sensor keeps the partition dict it was created with and computes its value from it on every update | a refresh in which the partition's free bytes change from 50 to 100 of 100: the sensor still reports 50 % | each update reads the sensor's partition, found by disk id and partition id, from the latest refresh | medium, not executed | FreeboxSensor.CapturedValueMissesRefresh | FreeboxSensor.CurrentDiskValue |
