/** The Argon ONE fan controller: the stepped temperature-to-speed table
    built from the add-on options, the lookup over it, and the I2C speed
    writes.

    The I2C bus is an oracle `BusOk`: `busOk(i)` says whether the `i`-th
    byte written during one call reaches the micro-controller. Each
    operation returns the controller's new state and the writes it
    attempted, in order; a failed write ends the attempt and is the last
    write listed. */
module Fan {
  import opened Wrappers
  import opened Numbers

  /** The fan micro-controller's I2C address. */
  const FanAddress: int := 0x1a
  /** The speed written first to spin the fan up before a lower target. */
  const SpinUpSpeed: int := 100
  /** The byte that signals shutdown to the micro-controller. */
  const ShutdownSignal: int := 0xFF

  // ---------------------------------------------------------------------
  // The speed table (ArgonFanController.__init__)
  // ---------------------------------------------------------------------

  /** One `cpu_fan_temps` option entry: `temp` after `float()`, and `speed`
      the JSON number that `int()` truncates. */
  datatype FanEntry = FanEntry(temp: real, speed: real)

  /** `fan_config`: thresholds with their speeds, in key order. */
  type Table = seq<(real, int)>

  predicate Ascending(t: Table) {
    forall i, j :: 0 <= i < j < |t| ==> t[i].0 < t[j].0
  }

  /** The speed stored under `temp`, if it is a key. */
  function Lookup(t: Table, temp: real): Option<int> {
    if |t| == 0 then None
    else if t[0].0 == temp then Some(t[0].1)
    else Lookup(t[1..], temp)
  }

  /** `fan_config[temp] = speed` on a dict kept in ascending key order: an
      existing key takes the new speed, a new key goes in its place, and
      every other key keeps its speed. */
  function Insert(t: Table, temp: real, speed: int): (r: Table)
    requires Ascending(t)
    ensures Ascending(r)
    ensures Lookup(r, temp) == Some(speed)
    ensures forall k :: k != temp ==> Lookup(r, k) == Lookup(t, k)
    ensures |r| > 0 && (r[0].0 == temp || (|t| > 0 && r[0] == t[0]))
  {
    if |t| == 0 then [(temp, speed)]
    else if temp < t[0].0 then [(temp, speed)] + t
    else if temp == t[0].0 then [(temp, speed)] + t[1..]
    else
      var rest := Insert(t[1..], temp, speed);
      var r := [t[0]] + rest;
      assert t[0].0 < rest[0].0 by {
        if rest[0].0 != temp {
          assert t[1..][0] == t[1];
        }
      }
      AscendingCons(t[0], rest);
      r
  }

  /** A key below the first of an ascending table keeps it ascending. */
  lemma AscendingCons(head: (real, int), rest: Table)
    requires Ascending(rest) && (|rest| > 0 ==> head.0 < rest[0].0)
    ensures Ascending([head] + rest)
  {
    var r := [head] + rest;
    forall i, j | 0 <= i < j < |r| ensures r[i].0 < r[j].0 {
      if i == 0 && j > 1 {
        assert rest[0].0 < rest[j - 1].0;
      }
    }
  }

  /** Some option entry has temperature `temp`. */
  ghost predicate HasTemp(entries: seq<FanEntry>, temp: real) {
    exists i :: 0 <= i < |entries| && entries[i].temp == temp
  }

  /** The entry at index `i` is the last one with its temperature. */
  ghost predicate LastWithTemp(entries: seq<FanEntry>, i: int)
    requires 0 <= i < |entries|
  {
    forall j :: i < j < |entries| ==> entries[j].temp != entries[i].temp
  }

  /** A temperature occurs in the entries when it occurs before the last
      one or in the last one. */
  lemma HasTempSnoc(entries: seq<FanEntry>, k: real)
    requires |entries| > 0
    ensures HasTemp(entries, k) <==> HasTemp(entries[..|entries| - 1], k) || entries[|entries| - 1].temp == k
  {
    var n := |entries| - 1;
    if HasTemp(entries, k) && k != entries[n].temp {
      var i :| 0 <= i < |entries| && entries[i].temp == k;
      assert entries[..n][i] == entries[i];
    }
    if HasTemp(entries[..n], k) {
      var i :| 0 <= i < n && entries[..n][i].temp == k;
      assert entries[i] == entries[..n][i];
    }
  }

  /** An entry that is the last with its temperature, and is not the final
      entry, is also the last in the entries before the final one, and the
      final one has another temperature. */
  lemma LastWithTempSnoc(entries: seq<FanEntry>, i: int)
    requires 0 <= i < |entries| - 1 && LastWithTemp(entries, i)
    ensures LastWithTemp(entries[..|entries| - 1], i)
    ensures entries[..|entries| - 1][i] == entries[i]
    ensures entries[|entries| - 1].temp != entries[i].temp
  {
  }

  /** The table holds one key per temperature of the entries. */
  ghost predicate KeysOf(entries: seq<FanEntry>, r: Table) {
    forall k :: Lookup(r, k).Some? <==> HasTemp(entries, k)
  }

  /** Each temperature maps to the truncated speed of the last entry
      carrying it. */
  ghost predicate SpeedsOf(entries: seq<FanEntry>, r: Table) {
    forall i :: 0 <= i < |entries| && LastWithTemp(entries, i) ==>
      Lookup(r, entries[i].temp) == Some(Trunc(entries[i].speed))
  }

  lemma KeysStep(entries: seq<FanEntry>, prefix: Table, r: Table)
    requires |entries| > 0 && Ascending(prefix)
    requires KeysOf(entries[..|entries| - 1], prefix)
    requires r == Insert(prefix, entries[|entries| - 1].temp, Trunc(entries[|entries| - 1].speed))
    ensures KeysOf(entries, r)
  {
    forall k ensures Lookup(r, k).Some? <==> HasTemp(entries, k) {
      HasTempSnoc(entries, k);
    }
  }

  lemma SpeedsStep(entries: seq<FanEntry>, prefix: Table, r: Table)
    requires |entries| > 0 && Ascending(prefix)
    requires SpeedsOf(entries[..|entries| - 1], prefix)
    requires r == Insert(prefix, entries[|entries| - 1].temp, Trunc(entries[|entries| - 1].speed))
    ensures SpeedsOf(entries, r)
  {
    forall i | 0 <= i < |entries| && LastWithTemp(entries, i)
      ensures Lookup(r, entries[i].temp) == Some(Trunc(entries[i].speed))
    {
      if i < |entries| - 1 {
        LastWithTempSnoc(entries, i);
      }
    }
  }

  function BuildTable(entries: seq<FanEntry>): (r: Table)
    ensures Ascending(r)
    ensures forall k :: Lookup(r, k).Some? <==> HasTemp(entries, k)
    ensures forall i :: 0 <= i < |entries| && LastWithTemp(entries, i) ==>
      Lookup(r, entries[i].temp) == Some(Trunc(entries[i].speed))
  {
    if |entries| == 0 then []
    else
      var n := |entries| - 1;
      var prefix := BuildTable(entries[..n]);
      var r := Insert(prefix, entries[n].temp, Trunc(entries[n].speed));
      KeysStep(entries, prefix, r);
      SpeedsStep(entries, prefix, r);
      r
  }

  // ---------------------------------------------------------------------
  // Speed lookup (get_fan_speed)
  // ---------------------------------------------------------------------

  /** The loop of `get_fan_speed`: walk the keys in order, taking the speed
      of every threshold the temperature reaches. The result is the speed of
      the last such threshold in table order, or `speed` if there is none. */
  function Scan(t: Table, temp: real, speed: int): (r: int)
    ensures (forall i :: 0 <= i < |t| ==> temp < t[i].0) ==> r == speed
    ensures forall k :: (0 <= k < |t| && t[k].0 <= temp && (forall j :: k < j < |t| ==> temp < t[j].0)
      ==> r == t[k].1)
  {
    if |t| == 0 then speed
    else
      var r := Scan(t[1..], temp, if temp >= t[0].0 then t[0].1 else speed);
      assert forall j :: 0 < j < |t| ==> t[j] == t[1..][j - 1];
      r
  }

  function GetFanSpeed(t: Table, temp: real): int {
    Scan(t, temp, 0)
  }

  /** On an ascending table the speed is that of the greatest threshold not
      above the temperature (thresholds are inclusive), and 0 when the table
      is empty or the temperature is below every threshold. */
  lemma GreatestThresholdWins(t: Table, temp: real)
    requires Ascending(t)
    ensures (forall i :: 0 <= i < |t| ==> temp < t[i].0) ==> GetFanSpeed(t, temp) == 0
    ensures forall k :: (0 <= k < |t| && t[k].0 <= temp && (k == |t| - 1 || temp < t[k + 1].0)
      ==> GetFanSpeed(t, temp) == t[k].1)
  {
    forall k | 0 <= k < |t| && t[k].0 <= temp && (k == |t| - 1 || temp < t[k + 1].0)
      ensures GetFanSpeed(t, temp) == t[k].1
    {
      forall j | k < j < |t| ensures temp < t[j].0 {
        if j > k + 1 {
          assert t[k + 1].0 < t[j].0;
        }
      }
    }
  }

  /** A temperature exactly at a threshold gets that threshold's speed. */
  lemma ThresholdInclusive(t: Table, k: int)
    requires Ascending(t) && 0 <= k < |t|
    ensures GetFanSpeed(t, t[k].0) == t[k].1
  {
    GreatestThresholdWins(t, t[k].0);
  }

  /** A hotter CPU never gets a slower fan when the configured speeds rise
      with the thresholds. */
  lemma SpeedMonotone(t: Table, a: real, b: real)
    requires Ascending(t)
    requires forall i, j :: 0 <= i < j < |t| ==> t[i].1 <= t[j].1
    requires forall i :: 0 <= i < |t| ==> t[i].1 >= 0
    requires a <= b
    ensures GetFanSpeed(t, a) <= GetFanSpeed(t, b)
  {
    var ka := SpeedSource(t, a);
    var kb := SpeedSource(t, b);
    if ka >= 0 {
      assert t[ka].0 <= b;
      if ka < kb {
        assert t[ka].1 <= t[kb].1;
      }
    } else if kb >= 0 {
      assert t[kb].1 >= 0;
    }
  }

  /** The index whose speed `GetFanSpeed` returns: the greatest threshold
      reached, or -1 (speed 0) when none is. */
  lemma SpeedSource(t: Table, temp: real) returns (k: int)
    requires Ascending(t)
    ensures -1 <= k < |t|
    ensures k == -1 ==> GetFanSpeed(t, temp) == 0
    ensures k >= 0 ==> GetFanSpeed(t, temp) == t[k].1 && t[k].0 <= temp
    ensures forall i :: 0 <= i < |t| && t[i].0 <= temp ==> i <= k
  {
    GreatestThresholdWins(t, temp);
    if exists i :: 0 <= i < |t| && t[i].0 <= temp {
      k := LastReached(t, temp);
    } else {
      k := -1;
    }
  }

  /** The index of the greatest threshold reached by `temp`. */
  lemma LastReached(t: Table, temp: real) returns (k: int)
    requires Ascending(t)
    requires exists i :: 0 <= i < |t| && t[i].0 <= temp
    ensures 0 <= k < |t| && t[k].0 <= temp && (k == |t| - 1 || temp < t[k + 1].0)
    ensures forall i :: 0 <= i < |t| && t[i].0 <= temp ==> i <= k
  {
    var i :| 0 <= i < |t| && t[i].0 <= temp;
    k := i;
    while k < |t| - 1 && t[k + 1].0 <= temp
      invariant i <= k < |t| && t[k].0 <= temp
      decreases |t| - k
    {
      k := k + 1;
    }
  }

  // ---------------------------------------------------------------------
  // Speed writes (set_fan_speed, fan_off, shutdown)
  // ---------------------------------------------------------------------

  /** `current_speed`: the last speed known to have reached the fan. */
  datatype FanState = FanState(currentSpeed: int)

  /** A freshly constructed controller. */
  const Fresh: FanState := FanState(0)

  datatype BusWrite = BusWrite(address: int, value: int)

  /** Whether the `i`-th write of one call succeeds. */
  type BusOk = nat -> bool

  /** The new state and the writes attempted, in order. */
  datatype FanStep = FanStep(state: FanState, writes: seq<BusWrite>)

  function Write(value: int): BusWrite {
    BusWrite(FanAddress, value)
  }

  /** All listed writes succeeded. */
  predicate AllDelivered(writes: seq<BusWrite>, busOk: BusOk) {
    forall i :: 0 <= i < |writes| ==> busOk(i)
  }

  /** `set_fan_speed` (the 30-second delay before a reduction is timing
      only). The request is clamped into [0, 100] first; an unchanged speed
      writes nothing; a change to a positive speed writes 100 and then the
      target; a change to 0 writes 0 alone. `current_speed` takes the target
      only once every write succeeded. */
  function SetFanSpeed(s: FanState, speed: int, busOk: BusOk): (r: FanStep)
    ensures var target := ClampInt(0, 100, speed);
      && (target == s.currentSpeed ==> r == FanStep(s, []))
      && (target != s.currentSpeed && target > 0 ==>
            r.writes == (if busOk(0) then [Write(SpinUpSpeed), Write(target)] else [Write(SpinUpSpeed)]))
      && (target != s.currentSpeed && target == 0 ==> r.writes == [Write(0)])
      && (target != s.currentSpeed ==>
            (r.state.currentSpeed == target <==> AllDelivered(r.writes, busOk))
            && (r.state.currentSpeed != target ==> r.state == s && !busOk(|r.writes| - 1)))
    ensures forall w :: w in r.writes ==> w.address == FanAddress
    ensures 0 <= s.currentSpeed <= 100 ==> 0 <= r.state.currentSpeed <= 100
  {
    var target := ClampInt(0, 100, speed);
    if target == s.currentSpeed then FanStep(s, [])
    else if target > 0 then
      if !busOk(0) then FanStep(s, [Write(SpinUpSpeed)])
      else if !busOk(1) then FanStep(s, [Write(SpinUpSpeed), Write(target)])
      else FanStep(FanState(target), [Write(SpinUpSpeed), Write(target)])
    else
      if !busOk(0) then FanStep(s, [Write(0)])
      else FanStep(FanState(0), [Write(0)])
  }

  /** Setting the speed it was just set to writes nothing the second time. */
  lemma SetFanSpeedIdempotent(s: FanState, speed: int, ok1: BusOk, ok2: BusOk)
    requires AllDelivered(SetFanSpeed(s, speed, ok1).writes, ok1)
    ensures SetFanSpeed(SetFanSpeed(s, speed, ok1).state, speed, ok2).writes == []
  {
  }

  /** `fan_off`: `set_fan_speed(0)`. */
  function FanOff(s: FanState, busOk: BusOk): (r: FanStep)
    ensures r.writes == [] || r.writes == [Write(0)]
    ensures r.writes == [] <==> s.currentSpeed == 0
    ensures r.state.currentSpeed == 0 || r.state == s
  {
    SetFanSpeed(s, 0, busOk)
  }

  /** `shutdown`: 0 and then the shutdown byte, whatever the current speed;
      the recorded speed is never updated. */
  function Shutdown(s: FanState, busOk: BusOk): (r: FanStep)
    ensures r.state == s
    ensures r.writes == (if busOk(0) then [Write(0), Write(ShutdownSignal)] else [Write(0)])
  {
    if busOk(0) then FanStep(s, [Write(0), Write(ShutdownSignal)]) else FanStep(s, [Write(0)])
  }

  /** One pass of the `run` loop after the temperature was read: a reading
      that is not above 0 leaves the fan alone. */
  function RunStep(s: FanState, t: Table, cpuTemp: real, busOk: BusOk): (r: FanStep)
    ensures cpuTemp <= 0.0 ==> r == FanStep(s, [])
    ensures cpuTemp > 0.0 ==> r == SetFanSpeed(s, GetFanSpeed(t, cpuTemp), busOk)
  {
    if cpuTemp > 0.0 then SetFanSpeed(s, GetFanSpeed(t, cpuTemp), busOk) else FanStep(s, [])
  }

  // ---------------------------------------------------------------------
  // Turning the fan off from a fresh controller
  // ---------------------------------------------------------------------

  /** The `FANOFF` command and the first action of `run`, as written: a
      fresh controller believes the fan is already at 0. */
  function FanOffOnStart(busOk: BusOk): FanStep {
    FanOff(Fresh, busOk)
  }

  /** As written, turning the fan off on a fresh controller sends nothing
      to the bus, so a fan left spinning by an earlier process keeps
      spinning. */
  lemma FanOffOnStartWritesNothing(busOk: BusOk)
    ensures FanOffOnStart(busOk).writes == []
  {
  }

  /** The intended behaviour: turning the fan off always writes 0, whatever
      speed the controller believes is set. */
  function ForceFanOff(s: FanState, busOk: BusOk): (r: FanStep)
    ensures r.writes == [Write(0)]
    ensures busOk(0) ==> r.state == FanState(0)
    ensures !busOk(0) ==> r.state == s
  {
    if busOk(0) then FanStep(FanState(0), [Write(0)]) else FanStep(s, [Write(0)])
  }

  /** With the corrected off command, a fresh controller does write 0. */
  lemma ForcedFanOffOnStartWrites(busOk: BusOk)
    ensures ForceFanOff(Fresh, busOk).writes == [Write(0)]
  {
  }
}
