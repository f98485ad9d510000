# Home Assistant add-ons: decision logic in Dafny

This project models the decision logic of three Home Assistant add-ons as
pure Dafny functions over snapshots, and proves what that logic promises.

- **Active heating manager.** One polling cycle reads the radiator valves (TRVs). It works out whether any of them demands heat, with valve sensors consulted fail-open. It then drives the boiler, either as a thermostat (presets tried in order, then `set_temperature`) or as a toggle (`turn_on` / `turn_off`).
- **Argon ONE fan.** This covers three parts:
  - the temperature-to-speed table built from the options;
  - the stepped, inclusive threshold lookup;
  - the clamped, change-only speed setter with its spin-up byte, plus `fan_off`, `shutdown` and the `cpu_temp > 0` guard of the main loop.
- **Argon ONE OLED.** This covers four parts:
  - the Supervisor client (request dispatch, the status-200 getters, IP and URL selection, the update count, the latest backup, the permission check, reboot and shutdown);
  - the system metrics (CPU temperature, the two-sample CPU usage, memory, disk);
  - the screen-index state machine (button, legacy bitmask handler, auto-rotation, screen dispatch, the default screen list);
  - the screen layouts (7-segment digit, progress bar, temperature, IP and HA status screens).

## How the world is modelled

Everything the scripts read from outside becomes a parameter:

- The Home Assistant state store is a `map` from entity id to entity. An absent id is a failed read.
- `call_service` is an acceptance oracle `ServiceCall -> bool`. Each actuator returns its result together with the list of calls it made, in order.
- I²C writes are a returned list. Whether the write at position `i` of one call succeeds is an oracle `nat -> bool`.
- The Supervisor's HTTP transport is an oracle from a request to an optional response. A response carries a status and an optional parsed JSON body.
- File contents (`/sys/.../temp`, `/proc/stat`, `/proc/meminfo`), the `statvfs` result, the socket-derived IP and the clock are plain inputs.
- A drawing is the list of shapes it would draw: rectangles, lines, points and texts.
- Python semantics that matter are written out:
  - `int()` on a float truncates toward zero (`Numbers.Trunc`);
  - `%` and `//` floor (`Numbers.PyMod`, `Numbers.FloorDiv`);
  - `str.split()`, `strip()`, `lower()`, `replace()`, `int()` and `float()` on text are in `Strings`;
  - string ordering is `Strings.LexLess`;
  - JSON truthiness and `dict.get` are in `Json`.
- A raised exception is the `Err` case of a `Result`.

Modules: `Wrappers`, `Numbers`, `Strings`, `Json` (shared helpers); `Heating`, `Fan`, `Supervisor`, `SystemInfo`, `Oled`, `Screens` (one per source file).

## Model

| member | source | states |
|---|---|---|
| Heating.ClassifyValve | active-heating-manager-addon/active_heating_manager.py:195-202 | a lowered sensor state is Closed exactly for closed/off/false and Open exactly for open/opened/on/true; anything else is unrecognised |
| Heating.ValveCandidates | active-heating-manager-addon/active_heating_manager.py:180-187 | three sensor ids in the order tried: `binary_sensor.<name>_valve_state`, then `binary_sensor.<name with every _trv removed>_valve_state`, then `sensor.<name>_valve_state` |
| Heating.TrvSuffixDropped | active-heating-manager-addon/active_heating_manager.py:185 | for a TRV named `<w>_trv`, with no other `_trv` in `w` (e.g. `living_room_trv`), the second candidate is `binary_sensor.<w>_valve_state` |
| Heating.SecondCandidateRepeatsFirst | active-heating-manager-addon/active_heating_manager.py:180-187 | a name without `_trv` tries the same binary sensor first and second |
| Heating.PatternOnlyAtEnd | active-heating-manager-addon/active_heating_manager.py:185 | `replace(p, "")` on a word free of `p` followed by `p` gives back the word, when the first character of `p` does not recur in `p` (as for `_trv`) |
| Heating.ProbeValve | active-heating-manager-addon/active_heating_manager.py:189-206 | candidates are consulted in order up to and including the first present one, and none after it; the valve is closed iff that sensor exists and reads closed |
| Heating.GetValveState | active-heating-manager-addon/active_heating_manager.py:173-206 | an id without a dot is open with no lookup; otherwise between one and three candidates are consulted, and a closed answer comes only from a present sensor whose lowered state is closed/off/false |
| Heating.ValveFailOpen | active-heating-manager-addon/active_heating_manager.py:176-206 | both directions: the valve is reported closed iff some candidate is the first present one and reads closed |
| Heating.ReadTrv | active-heating-manager-addon/active_heating_manager.py:215-251 | a TRV demands heat iff it is readable, its `hvac_action` is exactly "heating", and valve checking is off or the valve is open; the valve sensors are read only in that case |
| Heating.AggregateTrvs | active-heating-manager-addon/active_heating_manager.py:213-251 | the demand flag is true iff some configured TRV demands heat; without valve checking only the TRVs themselves are read |
| Heating.TryPresets | active-heating-manager-addon/active_heating_manager.py:100-103 | presets are tried in order, every one before the last attempt was refused, and the loop stops at the first one accepted |
| Heating.ApplyThermostat | active-heating-manager-addon/active_heating_manager.py:88-106 | a readable boiler already at the target outside "schedule" gets no call and reports success; otherwise the presets are tried in order up to the first accepted one (none for an unreadable boiler), then exactly one `set_temperature` comes last, and its acceptance is the result |
| Heating.SetManualTemperature | active-heating-manager-addon/active_heating_manager.py:83-106 | the thermostat outcome with presets none, manual, away: no call at the target; otherwise the presets in order up to the first accepted, then `set_temperature` last with its acceptance returned, 2 to 4 calls starting with "none" |
| Heating.SetManualOffTemperature | active-heating-manager-addon/active_heating_manager.py:109-132 | the thermostat outcome with presets none, manual: no call at the target; otherwise the presets in order up to the first accepted, then `set_temperature` last with its acceptance returned, 2 to 3 calls, "away" never tried |
| Heating.SetTemperatureOnce | active-heating-manager-addon/active_heating_manager.py:99-106 | when the guard does not hold, `set_temperature` is the last call and the only one of its kind |
| Heating.ToggleDomain | active-heating-manager-addon/active_heating_manager.py:150 | the domain is the dot-free text before the first dot, or "switch" when there is no dot |
| Heating.ApplyToggle | active-heating-manager-addon/active_heating_manager.py:139-151 | a boiler already in the settled state gets no call and reports success; otherwise exactly one call in the derived domain, whose result is returned |
| Heating.TurnOnBoilerToggle | active-heating-manager-addon/active_heating_manager.py:135-151 | no call and success exactly when the boiler reports "on"; otherwise one `turn_on` in the boiler's domain (or "switch"), whose acceptance is the result |
| Heating.TurnOffBoilerToggle | active-heating-manager-addon/active_heating_manager.py:154-170 | no call and success exactly when the boiler reports "off"; otherwise one `turn_off` in the boiler's domain (or "switch"), whose acceptance is the result |
| Heating.PollTrvEntities | active-heating-manager-addon/active_heating_manager.py:209-272 | the result is true iff some TRV demands heat; without a boiler entity no call is made; otherwise the calls are those of the actuator chosen by demand and mode |
| Heating.DemandIgnoresServiceOutcomes | active-heating-manager-addon/active_heating_manager.py:236-249 | the demand flag and the entities read are the same whatever the service oracle answers |
| Heating.OtherModesAreToggle | active-heating-manager-addon/active_heating_manager.py:256-268 | any mode other than "thermostat" behaves exactly like "toggle" |
| Heating.OneActuatorRuns | active-heating-manager-addon/active_heating_manager.py:254-268 | in thermostat mode every call is a climate call on the boiler; in toggle mode there is at most one call on the boiler, `turn_on` iff demand |
| Heating.ThermostatCallsStayOnBoiler | active-heating-manager-addon/active_heating_manager.py:100-106 | every thermostat call is in the climate domain and targets the boiler |
| Heating.SettledBoilerIsQuiet | active-heating-manager-addon/active_heating_manager.py:94-97 | a boiler already in the state the cycle wants receives no call |
| Heating.IdleToggleTurnsOff | active-heating-manager-addon/active_heating_manager.py:262-268 | a toggle boiler reporting "on" while no TRV demands heat gets exactly one `turn_off` |
| Fan.Insert | argon-fan-addon/argon_fan.py:62 | assigning a key keeps the table ascending, maps the key to the new speed and leaves every other key alone |
| Fan.BuildTable | argon-fan-addon/argon_fan.py:56-65 | the table is ascending, has a key exactly for each configured temperature, and maps it to the truncated speed of the last entry carrying it |
| Fan.Scan | argon-fan-addon/argon_fan.py:186-201 | the loop returns the initial speed when no key is reached, and otherwise the speed of the last reached key with no later key reached |
| Fan.GreatestThresholdWins | argon-fan-addon/argon_fan.py:186-201 | on an ascending table the speed is that of the greatest threshold not above the temperature, and 0 when none is |
| Fan.ThresholdInclusive | argon-fan-addon/argon_fan.py:190-191 | a temperature equal to a threshold gets that threshold's speed |
| Fan.SpeedMonotone | argon-fan-addon/argon_fan.py:186-201 | with non-negative speeds rising with the thresholds, a hotter CPU never gets a slower fan |
| Fan.SetFanSpeed | argon-fan-addon/argon_fan.py:203-248 | the speed is clamped to 0..100 first; an unchanged speed writes nothing; any change to a positive speed, up or down, writes 100 and then the target (only 100 when that write fails); a change to 0 writes 0 alone; the stored speed becomes the target iff every write succeeded, and is otherwise unchanged |
| Fan.SetFanSpeedIdempotent | argon-fan-addon/argon_fan.py:221 | after a successful set, asking for the same speed again writes nothing |
| Fan.FanOff | argon-fan-addon/argon_fan.py:250-253 | turning off writes a single 0, and writes nothing iff the stored speed is already 0 |
| Fan.Shutdown | argon-fan-addon/argon_fan.py:255-266 | writes 0 and then 0xFF to the fan address (stopping after a failed write) and never changes the stored speed |
| Fan.RunStep | argon-fan-addon/argon_fan.py:281-290 | a reading of 0 or below changes nothing; a positive reading sets the looked-up speed |
| Fan.FanOffOnStartWritesNothing | argon-fan-addon/argon_fan.py:51 | a fresh controller's off command sends nothing to the bus |
| Fan.ForceFanOff | argon-fan-addon/argon_fan.py:250-253 | the corrected off command always writes 0, and stores 0 iff the write succeeded |
| Fan.ForcedFanOffOnStartWrites | argon-fan-addon/argon_fan.py:275-276 | with the corrected command a fresh controller does write 0 |
| Supervisor.Request | argon-oled-addon/supervisor_api.py:24-46 | GET and POST make exactly one call to `http://supervisor/<endpoint>` with the bearer token and timeout and return the transport's answer; any other method makes no call and returns none |
| Supervisor.GetData | argon-oled-addon/supervisor_api.py:71-97 | the result is `{}` unless the response is truthy with status 200; a 200 response yields its `data` field (default `{}`), and a body that is not a JSON object raises |
| Supervisor.GetDataList | argon-oled-addon/supervisor_api.py:99-111 | the result is `[]` unless the response is a truthy 200; otherwise it is `data[key]` (default `[]`), raising when `data` is not an object |
| Json.Get | argon-oled-addon/supervisor_api.py:75 | `dict.get` on a JSON object returns the field or the default, and raises on anything that is not an object |
| Json.Items | argon-oled-addon/supervisor_api.py:196-197 | iterating a JSON list gives its items; any other value gives nothing or raises |
| Supervisor.FirstAddress | argon-oled-addon/supervisor_api.py:126 | the first address is cut at its first '/' |
| Supervisor.PrefixLengthDropped | argon-oled-addon/supervisor_api.py:126 | `a/n` with a slash-free `a` gives back `a` |
| Supervisor.ScanInterfaces | argon-oled-addon/supervisor_api.py:120-136 | the pass yields nothing when no interface is decisive, and otherwise the answer of the first decisive interface |
| Supervisor.CandidateOfWellFormed | argon-oled-addon/supervisor_api.py:121-127 | a well-formed interface yields the slash-cut first address iff it qualifies for the pass and has addresses |
| Supervisor.ScanWellFormed | argon-oled-addon/supervisor_api.py:120-136 | on well-formed interfaces a pass returns the first usable interface's address, or nothing when none is usable |
| Supervisor.IpAddressPriority | argon-oled-addon/supervisor_api.py:113-149 | the contract of `get_ip_address` over well-formed interface records: the first usable primary interface's address without its prefix length, else the first usable non-docker one, else the socket address or "No Network" |
| Supervisor.GetHaUrl | argon-oled-addon/supervisor_api.py:151-173 | a returned URL is truthy, and the result is None iff no URL is configured and the IP is "No Network" |
| Supervisor.UrlPriority | argon-oled-addon/supervisor_api.py:158-171 | a truthy `external_url` wins, then a truthy `internal_url`, then `http://<ip>:8123` |
| Supervisor.CountUpdates | argon-oled-addon/supervisor_api.py:196-199 | the count is at most the number of add-ons, counts all of them when all have updates and none when none do, and raises iff some add-on is not an object |
| Supervisor.CountUpdatesAppend | argon-oled-addon/supervisor_api.py:197-199 | counting a concatenation adds the two counts |
| Supervisor.UpdatesCounted | argon-oled-addon/supervisor_api.py:196-199 | with the first non-dict entry at p (or none), the count is the number of entries before p with a truthy `update_available`, and the loop raises iff such an entry exists |
| Supervisor.PrefixCount | argon-oled-addon/supervisor_api.py:196-199 | a prefix of dicts raises nothing and counts exactly its entries with an update |
| Supervisor.DateKeys | argon-oled-addon/supervisor_api.py:206 | one sort key per backup, its `date` (default "") |
| Supervisor.LatestIndex | argon-oled-addon/supervisor_api.py:206-207 | the chosen key is not below any other, and every earlier key is strictly below it, so ties keep the first |
| Supervisor.LatestFrom | argon-oled-addon/supervisor_api.py:206-207 | the scan returns an index whose key no key exceeds and which every earlier key lies strictly below: the first of the greatest keys, as a stable descending sort puts first |
| Supervisor.BackupStatus | argon-oled-addon/supervisor_api.py:202-212 | only the backup fields change, to state "OK" or "None" |
| Supervisor.LatestBackupReported | argon-oled-addon/supervisor_api.py:204-210 | a non-empty list of dicts with string dates reports state "OK" and the date of the first entry with the greatest date; an undated entry sorts as "" and reports "Unknown" |
| Supervisor.NoBackups | argon-oled-addon/supervisor_api.py:211-212 | an empty list sets the state to "None" and nothing else |
| Supervisor.GetHaSystemStatus | argon-oled-addon/supervisor_api.py:175-216 | updates in 0..2 + #add-ons, no repairs, state Unknown/OK/None, no date unless "OK"; over dict answers the updates are the Supervisor, Core and add-on updates together and the backup fields are those the backup step derives from the listed backups |
| Supervisor.CountedStatus | argon-oled-addon/supervisor_api.py:184-199 | the status after the update count: backup fields untouched, and over dict answers the count is the Supervisor, Core and add-on updates with nothing raised |
| Supervisor.HaStatusReport | argon-oled-addon/supervisor_api.py:175-212 | over dict answers: updates = Supervisor flag + Core flag + add-ons with updates; no backups gives "None"; otherwise "OK" with the date of the first latest backup, or "Unknown" when it has no date |
| Supervisor.CheckPowerPermissionsAsWritten | argon-oled-addon/supervisor_api.py:48-69 | the permission check with Python truthiness on responses, as written |
| Supervisor.ManagerMessageUnreachable | argon-oled-addon/supervisor_api.py:64-65 | as written, the "manager" message is never produced; a 403 gives the "unexpected" message |
| Supervisor.CheckPowerPermissions | argon-oled-addon/supervisor_api.py:48-69 | the decision table: no token, cannot access, granted on 200, lacks manager on 403, unexpected otherwise; enabled iff granted |
| Supervisor.PermissionVersionsAgree | argon-oled-addon/supervisor_api.py:58-67 | the two versions differ exactly when host/info answers 403 |
| Supervisor.PowerAction | argon-oled-addon/supervisor_api.py:218-226 | success iff the POST got a response with status 200 or 202 |
| Supervisor.PowerActionStatuses | argon-oled-addon/supervisor_api.py:221 | for a given response, success iff its status is 200 or 202 |
| SystemInfo.GetCpuTemp | argon-oled-addon/system_info.py:17-26 | millidegrees / 1000, converted to °F only for unit "F"; 0 when the file is missing or unparsable |
| SystemInfo.MillidegreeReading | argon-oled-addon/tests/test_system_info.py:26-36 | a reading of n gives n/1000 °C or its °F value; 45000 gives 45.0 and 113.0 |
| SystemInfo.CpuTempMonotone | argon-oled-addon/system_info.py:21-24 | a higher reading never gives a lower temperature |
| SystemInfo.ParseStat | argon-oled-addon/system_info.py:32-35 | a parsed stat line has at least five fields |
| SystemInfo.StatLineRoundTrip | argon-oled-addon/system_info.py:32-35 | a `cpu` line of counters parses to idle = fourth counter and total = their sum |
| SystemInfo.ParseStatOfFields | argon-oled-addon/system_info.py:33-35 | idle is field 4 and total is the float sum of the fields after the label |
| SystemInfo.Usage | argon-oled-addon/system_info.py:42-51 | always within 0..100; 0 on an unchanged total; otherwise the raw value 100·(1 − Δidle/Δtotal) when it lies in 0..100, 0 below and 100 above |
| SystemInfo.GetCpuUsage | argon-oled-addon/system_info.py:28-53 | a failed read returns 0 and keeps the sampler; a good read stores the sample and returns 0 on the first one, else the usage |
| SystemInfo.FirstSampleReadsZero | argon-oled-addon/tests/test_system_info.py:44-48 | the first good sample returns 0 and is stored |
| SystemInfo.SecondSampleExample | argon-oled-addon/tests/test_system_info.py:50-63 | (850, 1000) then (860, 1040) gives 75 percent |
| SystemInfo.ScanKeepsLastFigure | argon-oled-addon/system_info.py:63-67 | the scan keeps the figure of the last MemTotal and the last MemAvailable line |
| SystemInfo.MeminfoLineFigure | argon-oled-addon/system_info.py:65-67 | a `<label> <kB> kB` line gives kB / 1024 megabytes |
| SystemInfo.MemoryFigures | argon-oled-addon/system_info.py:69-72 | used + available = total, percent·total = used·100, and the percent is within 0..100 when available ≤ total |
| SystemInfo.GetMemoryUsage | argon-oled-addon/system_info.py:55-75 | all zeros unless MemTotal is positive; otherwise total and available are the scanned figures, used + available = total, percent·total = used·100, and the percent lies in 0..100 when 0 ≤ used ≤ total |
| SystemInfo.MemoryOfMeminfo | argon-oled-addon/system_info.py:58-72 | a two-line meminfo gives the figures of its kB values |
| SystemInfo.MemoryExample | argon-oled-addon/tests/test_system_info.py:71-81 | 8000000 kB total and 4000000 kB available give 3906.25 MB used of 7812.5 MB, 50 percent |
| SystemInfo.GetDiskUsage | argon-oled-addon/system_info.py:77-87 | total and used in GiB from the block counts, percent 0 when the total is 0, all zeros on failure |
| SystemInfo.DiskPercentOfBlocks | argon-oled-addon/system_info.py:81-84 | the percent is used blocks over all blocks; 10000000 blocks with 5000000 free give 50 |
| Oled.Next | argon-oled-addon/argon_oled.py:274-275 | an empty list raises; otherwise the index advances by one, wrapping to 0, and the timer resets |
| Oled.Previous | argon-oled-addon/argon_oled.py:295-296 | an empty list raises; otherwise the index goes back by one, wrapping to the last, and the timer resets |
| Oled.NextPreviousInverse | argon-oled-addon/argon_oled.py:290-296 | forward then back, or back then forward, returns to the same screen |
| Oled.PressesRotate | argon-oled-addon/argon_oled.py:274 | k presses land on (current + k) mod len, and len presses come back to the start |
| Oled.PyModUnique | argon-oled-addon/argon_oled.py:274 | Python's `%` gives the unique remainder in 0..n-1 |
| Oled.ButtonCallback | argon-oled-addon/argon_oled.py:268-277 | an empty list raises; otherwise the index stays in range, steps by one, wraps from the last screen to 0, and the timer resets |
| Oled.HandleButtonPressLegacy | argon-oled-addon/argon_oled.py:279-311 | it raises iff the list is empty and the value moves the screen; a value with neither bit 1 nor bit 2 set, other than 0x10 and 0x20, changes nothing; otherwise the index becomes (current + bit1 + [0x10] − bit2 − [0x20]) mod len and the timer resets |
| Oled.LegacyRule | argon-oled-addon/argon_oled.py:290-299 | with both bits set, forward then back returns to the same in-range index |
| Oled.LegacyCodes | argon-oled-addon/argon_oled.py:286-311 | 0x02 and 0x10 advance, 0x04 and 0x20 go back, 0x06 returns to the same screen with a new timer, and 0x01 and 0x08 change nothing |
| Oled.LegacyIgnoresOtherValues | argon-oled-addon/argon_oled.py:286-311 | a value with neither bit 1 nor bit 2 set and other than 0x10 and 0x20 changes nothing |
| Oled.AutoRotate | argon-oled-addon/argon_oled.py:357-359 | the index advances and the timer resets iff the switch duration has elapsed |
| Oled.TransitionsStayInRange | argon-oled-addon/argon_oled.py:274-309 | every transition from an in-range index ends in range |
| Oled.DisplayScreen | argon-oled-addon/argon_oled.py:318-333 | "logo" and "logo1v5" show the logo; an unknown name shows "Unknown: <name>" |
| Oled.DisplayScreenRoundTrip | argon-oled-addon/argon_oled.py:318-333 | every known screen's name dispatches back to it, and "logo1v5" is the only alias |
| Oled.ScreenList | argon-oled-addon/argon_oled.py:386-387 | the list holds non-empty words without spaces |
| Oled.DefaultScreenListSplits | argon-oled-addon/argon_oled.py:386-387 | without SCREEN_LIST the list is logo, clock, cpu, storage, ram, temp, ip |
| Oled.DefaultScreensKnown | argon-oled-addon/argon_oled.py:318-331 | every default screen has a drawing |
| Oled.ConfiguredScreenList | argon-oled-addon/argon_oled.py:386-387 | a configured list of words joined by spaces splits back into the same words |
| Strings.FieldsOfUnwords | argon-oled-addon/argon_oled.py:387 | `split()` of words joined by single spaces gives the words back |
| Strings.ParseIntShowNat | argon-oled-addon/system_info.py:65 | `int()` of a decimal numeral gives its value |
| Strings.ParseFloatShowNat | argon-oled-addon/system_info.py:21 | `float()` of a decimal numeral gives its value |
| Strings.LowerIdempotent | active-heating-manager-addon/active_heating_manager.py:192 | lower-casing twice is lower-casing once |
| Strings.Lower | active-heating-manager-addon/active_heating_manager.py:192 | lower-casing keeps the length and maps each character on its own |
| Strings.LexLessTotal | argon-oled-addon/supervisor_api.py:206 | two distinct date strings are ordered one way or the other |
| Strings.LexLessTransitive | argon-oled-addon/supervisor_api.py:206 | the string order is transitive |
| Numbers.PyModMinusOne | argon-oled-addon/argon_oled.py:295 | `-1 % n` is n − 1 |
| Numbers.PyMod | argon-oled-addon/argon_oled.py:274 | Python's `%`: the remainder of floor division, with the sign of the divisor |
| Numbers.Trunc | argon-oled-addon/screens.py:35 | `int()` of a float drops the fraction toward zero |
| Screens.DrawHeader | argon-oled-addon/screens.py:23-27 | a lit bar across the top and dark text at (5, 2), prefixed by the icon and a space when there is one |
| Screens.LitSegments | argon-oled-addon/screens.py:84-111 | one filled rectangle per lit segment, all within the digit's bounds |
| Screens.DrawSegmentDigit | argon-oled-addon/screens.py:57-111 | nothing outside 0..9; otherwise one filled rectangle per lit segment, all inside [x, x+2h+w] × [y, y+3h+2v] |
| Screens.DigitStrokeCounts | argon-oled-addon/screens.py:66-77 | digits 0..9 draw 6, 2, 5, 5, 4, 5, 6, 3, 7, 6 rectangles |
| Screens.DigitEightAtScaleOne | argon-oled-addon/tests/test_screens.py:86-93 | at scale 1 the digit 8 draws 7 rectangles inside a 12 by 26 cell |
| Screens.Range | argon-oled-addon/screens.py:41 | `range(start, stop, step)`: every value in [start, stop), starting at start, rising by step, with the last one within step of stop |
| Screens.BarWidthBounds | argon-oled-addon/screens.py:35 | for a percentage in 0..100 the fill width lies in 0..width, 0 at 0 and width at 100 |
| Screens.BarWidthMonotone | argon-oled-addon/screens.py:35 | more percent never fills less |
| Screens.Dots | argon-oled-addon/screens.py:44-46 | one point per column and row pair, each on a given column and row |
| Screens.BarFill | argon-oled-addon/screens.py:37-46 | solid is one lit rectangle; striped is lines every third column; other styles draw no rectangle; an unknown style draws nothing; the fill stays within its width |
| Screens.DrawProgressBar | argon-oled-addon/screens.py:29-55 | the outline comes first, the value text last iff a font is given, and the rectangle count is 1 + solid + (above 80) |
| Screens.SolidBarRectangles | argon-oled-addon/tests/test_screens.py:58-84 | a solid bar draws at least 2 rectangles, and at least 3 above 80 percent |
| Screens.WarningIffAboveEighty | argon-oled-addon/screens.py:49-50 | the warning block is drawn iff the value is above 80 |
| Screens.FillInsideOutline | argon-oled-addon/screens.py:32-46 | for 0..100 percent every fill shape lies inside the outline |
| Screens.CpuTempBarAsWritten | argon-oled-addon/screens.py:179-183 | the CPU screen's temperature bar as written, filled from the raw temperature |
| Screens.CpuTempBarOverflows | argon-oled-addon/screens.py:180-183 | at 140 °F the fill ends at x = 131, outside its 90-pixel outline |
| Screens.TempPercent | argon-oled-addon/screens.py:180-182 | the clamped position in 20..80 °C or 68..176 °F, always within 0..100: 0 at or below the low end, 100 at or above the high end, linear between |
| Screens.CpuTempBar | argon-oled-addon/screens.py:175-183 | the corrected bar: outline first and the temperature text with its unit last |
| Screens.CpuTempBarStaysInside | argon-oled-addon/screens.py:180-183 | the corrected fill stays inside the outline, and a °F reading fills as much as the same °C reading |
| Screens.ClassifyTemp | argon-oled-addon/screens.py:222-235 | both directions of the bands: NORMAL below 50 °C / 122 °F, HOT from 70 °C / 158 °F |
| Screens.ClassifyTempMonotone | argon-oled-addon/screens.py:222-235 | the status never drops as the temperature rises |
| Screens.FahrenheitBandsAgree | argon-oled-addon/screens.py:222-235 | the °F bands are the °C bands converted |
| Screens.DrawTemp | argon-oled-addon/screens.py:209-237 | header, the temperature with one decimal and its unit at (25, 30), and a status at (40, 52): HOT, WARM (50..70 °C or 122..158 °F) or NORMAL, each exactly in its band |
| Screens.IpDisplay | argon-oled-addon/screens.py:251 | the shown text is a prefix of at most 15 characters, and the whole address iff it has at most 15 |
| Screens.IpTextPlacement | argon-oled-addon/screens.py:253-254 | x lies in 10..64, centres texts of up to 13 characters, and is 10 for longer ones |
| Screens.DrawIp | argon-oled-addon/screens.py:239-260 | header, frame, the shown address at its x, and CONNECTED iff the address is not "No Network" |
| Screens.UpdateIndicator | argon-oled-addon/screens.py:342-348 | "!" iff there are updates, otherwise "OK" |
| Screens.BackupIndicator | argon-oled-addon/screens.py:362-368 | "OK" iff the backup state is "OK", otherwise "!" |
| Screens.BackupText | argon-oled-addon/screens.py:350-360 | the state when there is no usable date, the formatted date when it parses, and "Parse Err" otherwise |
| Screens.DrawHaStatus | argon-oled-addon/screens.py:330-368 | header, the update count, its indicator, the backup line and the backup indicator, in that order |
| Screens.HaStatusMarks | argon-oled-addon/screens.py:343-368 | the "!" mark shows iff there are updates, and the backup "OK" shows iff the state is "OK" |

## Left out

- HTTP, I²C, GPIO, sockets, files and clocks are not performed. Their results are inputs (see above).
- Entity state reads, `call_service`, logging, `time.sleep` (including the 30 s delay before a fan slows down), the main loops, `KeyboardInterrupt` handling and `sys.exit` are not modelled.
- Configuration loading (`load_config` of both scripts) and environment parsing are not modelled, except the SCREEN_LIST default.
- Hardware discovery is not modelled: `i2cdetect` bus scanning, the `vcgencmd` fallback, GPIO registration and OLED setup.
- The file-reading metric copies inside `argon_oled.py` are not modelled; `system_info.py` is the one modelled.
- Fonts, PIL images, the luma canvas, QR codes and logo pasting are not modelled. A text is kept as its caption. A number in a text is kept as the value with its decimal places (`Figure`), not as formatted digits.
- `draw_clock`, `draw_logo`, `draw_qr`, `draw_ram` and `draw_storage` are not modelled. They only place fixed shapes or reuse the progress bar.
- ISO date parsing and `strftime` in `draw_ha_status` are an input function from the date string to an optional formatted date.
- Floats are Dafny reals: no IEEE rounding, infinities or NaN.
- `float()` accepts optionally signed decimal numerals with an optional fraction. Exponents, "inf" and "nan" are refused, which the source would accept.
- Backup dates that are not strings are treated as raising. Python could compare some other types, such as numbers with each other.
- Python's `str.split()` and `strip()` treat only the ASCII whitespace characters as spaces here.
- Strings.Lower: lower-cases ASCII letters only; Python's `lower()` also folds other scripts. Every word the valve classifier compares is ASCII.
- Strings.ParseInt and Strings.ParseFloat refuse digit-group underscores (`1_000`) and non-ASCII digits, which Python's `int()` and `float()` accept.
- FanEntry: option values are taken as JSON numbers. `float()` on a textual temperature is not modelled. `int()` on a textual speed such as "30.5" raises ValueError in `__init__`; the model has no such error path and truncates the number instead.
- CountUpdates: its own contract bounds the count. The exact value (the add-ons with an update before the first non-dict entry) is stated by the lemma Supervisor.UpdatesCounted, which is proved by induction over prefixes.
- Valve-position gating, a minimum count of demanding TRVs, a dynamic target temperature and MQTT statistics are not modelled. They are described for the heating manager but do not appear in its code.
- The gpslive device tracker is not modelled. It holds no logic.
- Screens.CpuTempBar: a unit other than "C" uses the °F range but is labelled "°C" (screens.py:176 and 180-181 disagree for such units). The model keeps this as written.

## Findings

| source | as written | input that shows it | evidently intended | confidence | as-written member | corrected member |
|---|---|---|---|---|---|---|
| argon-oled-addon/supervisor_api.py:62-65 | `test_response and test_response.status_code == 403` tests the truthiness of a `requests.Response`, which is false for every 4xx status | a token, supervisor/info answering 200, host/info answering 403 | report the "manager" role message for a 403 | high (not executed) | Supervisor.CheckPowerPermissionsAsWritten, Supervisor.ManagerMessageUnreachable | Supervisor.CheckPowerPermissions, Supervisor.PermissionVersionsAgree |
| argon-fan-addon/argon_fan.py:51, 250-253, 276, 318 | `fan_off` goes through `set_fan_speed(0)`, which writes only on a change, and a new controller believes the speed is already 0 | the FANOFF command, or the start of `run`, while the fan is still spinning from an earlier process | turning the fan off writes 0 to the bus | medium (not executed) | Fan.FanOffOnStart, Fan.FanOffOnStartWritesNothing | Fan.ForceFanOff, Fan.ForcedFanOffOnStartWrites |
| argon-oled-addon/screens.py:179-183 | `temp_percent` is computed but the raw `cpu_temp` is passed as the bar's percentage | unit "F" and a CPU at 140 °F: the fill ends at x = 131, past the outline's right edge at 95 | fill the bar with `temp_percent` | high (not executed) | Screens.CpuTempBarAsWritten, Screens.CpuTempBarOverflows | Screens.CpuTempBar, Screens.CpuTempBarStaysInside |
