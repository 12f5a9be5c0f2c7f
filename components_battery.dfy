/** `getBatteryInfo` of the battery screen under `ui/components/battery`:
    the charge level as a percentage of the scale, the status, health and
    plug tables, and the defaults used when the broadcast or an extra is
    missing. */
module ComponentsBattery {
  import opened Wrappers
  import opened Numerics
  import opened BatteryExtras

  /** The record this screen builds (`BatteryInfo` of `BatteryScreen.kt`);
      the temperature is in degrees Celsius. */
  datatype BatteryInfo = BatteryInfo(level: int, status: string, health: string, plugged: string,
                                     temperature: real, voltage: int, technology: string)

  /** `(level / scale.toFloat() * 100).toInt()` when neither extra is -1,
      else -1. */
  function LevelPercent(level: int, scale: int): int
  {
    if level != -1 && scale != -1 then ToInt(Scale(Div(level as real, scale as real), 100.0)) else -1
  }

  /** A level within its scale gives the whole percentage, rounded down. */
  lemma LevelPercentIsWholePercentage(level: int, scale: int)
    requires 0 <= level <= scale && scale > 0
    ensures LevelPercent(level, scale) == level * 100 / scale
    ensures 0 <= LevelPercent(level, scale) <= 100
  {
    var v := level as real / scale as real;
    ScaledQuotient(level, scale, 100);
    TruncOfQuotient(level * 100, scale);
    QuotientAtMost(level * 100, scale, 100);
    assert Scale(Div(level as real, scale as real), 100.0) == Finite(v * 100.0);
  }

  /** A missing level or scale gives -1; a zero scale gives the saturated
      conversion of an infinite (or NaN) quotient. */
  lemma LevelPercentEdges(level: int, scale: int)
    ensures level == -1 || scale == -1 ==> LevelPercent(level, scale) == -1
    ensures level != -1 && scale == 0 ==>
              LevelPercent(level, scale) == (if level > 0 then INT_MAX else if level < 0 then INT_MIN else 0)
  {
  }

  /** `BatteryManager.BATTERY_STATUS_*` labels. */
  function StatusLabel(code: int): string
  {
    if code == BATTERY_STATUS_CHARGING then "Charging"
    else if code == BATTERY_STATUS_DISCHARGING then "Discharging"
    else if code == BATTERY_STATUS_FULL then "Full"
    else if code == BATTERY_STATUS_NOT_CHARGING then "Not Charging"
    else "Unknown"
  }

  /** `BatteryManager.BATTERY_HEALTH_*` labels, all seven codes. */
  function HealthLabel(code: int): string
  {
    if code == BATTERY_HEALTH_COLD then "Cold"
    else if code == BATTERY_HEALTH_DEAD then "Dead"
    else if code == BATTERY_HEALTH_GOOD then "Good"
    else if code == BATTERY_HEALTH_OVERHEAT then "Overheat"
    else if code == BATTERY_HEALTH_OVER_VOLTAGE then "Over Voltage"
    else if code == BATTERY_HEALTH_UNSPECIFIED_FAILURE then "Failure"
    else "Unknown"
  }

  /** `BatteryManager.BATTERY_PLUGGED_*` labels. */
  function PluggedLabel(code: int): string
  {
    if code == BATTERY_PLUGGED_AC then "AC"
    else if code == BATTERY_PLUGGED_USB then "USB"
    else if code == BATTERY_PLUGGED_WIRELESS then "Wireless"
    else "Unplugged"
  }

  /** The tables: which codes have a label of their own, and that distinct
      codes share a label only when it is the default. */
  lemma LabelTables(code: int, other: int)
    ensures StatusLabel(code) == "Unknown" <==> !(2 <= code <= 5)
    ensures HealthLabel(code) == "Unknown" <==> !(2 <= code <= 7)
    ensures PluggedLabel(code) == "Unplugged" <==> !(code == 1 || code == 2 || code == 4)
    ensures code != other && StatusLabel(code) == StatusLabel(other) ==> StatusLabel(code) == "Unknown"
    ensures code != other && HealthLabel(code) == HealthLabel(other) ==> HealthLabel(code) == "Unknown"
    ensures code != other && PluggedLabel(code) == PluggedLabel(other) ==> PluggedLabel(code) == "Unplugged"
  {
  }

  /** `getBatteryInfo`. */
  function GetBatteryInfo(intent: Option<BatteryIntent>): (info: BatteryInfo)
    ensures info.level == LevelPercent(IntExtra(intent, EXTRA_LEVEL, -1), IntExtra(intent, EXTRA_SCALE, -1))
    ensures info.status == StatusLabel(IntExtra(intent, EXTRA_STATUS, -1))
    ensures info.health == HealthLabel(IntExtra(intent, EXTRA_HEALTH, -1))
    ensures info.plugged == PluggedLabel(IntExtra(intent, EXTRA_PLUGGED, -1))
    ensures info.temperature * 10.0 == IntExtra(intent, EXTRA_TEMPERATURE, 0) as real
    ensures info.voltage == IntExtra(intent, EXTRA_VOLTAGE, 0)
    ensures info.technology == Technology(intent)
  {
    var level := IntExtra(intent, EXTRA_LEVEL, -1);
    var scale := IntExtra(intent, EXTRA_SCALE, -1);
    BatteryInfo(LevelPercent(level, scale),
                StatusLabel(IntExtra(intent, EXTRA_STATUS, -1)),
                HealthLabel(IntExtra(intent, EXTRA_HEALTH, -1)),
                PluggedLabel(IntExtra(intent, EXTRA_PLUGGED, -1)),
                IntExtra(intent, EXTRA_TEMPERATURE, 0) as real / 10.0,
                IntExtra(intent, EXTRA_VOLTAGE, 0),
                Technology(intent))
  }

  /** Without the broadcast every field takes its default. */
  lemma NoBroadcastDefaults()
    ensures GetBatteryInfo(None) == BatteryInfo(-1, "Unknown", "Unknown", "Unplugged", 0.0, 0, "Unknown")
  {
  }
}
