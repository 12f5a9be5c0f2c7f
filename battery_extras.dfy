/** The sticky `ACTION_BATTERY_CHANGED` broadcast both battery screens read,
    and the `BatteryManager` codes it carries. */
module BatteryExtras {
  import opened Wrappers

  const EXTRA_LEVEL: string := "level"
  const EXTRA_SCALE: string := "scale"
  const EXTRA_STATUS: string := "status"
  const EXTRA_HEALTH: string := "health"
  const EXTRA_PLUGGED: string := "plugged"
  const EXTRA_TEMPERATURE: string := "temperature"
  const EXTRA_VOLTAGE: string := "voltage"

  const BATTERY_STATUS_UNKNOWN: int := 1
  const BATTERY_STATUS_CHARGING: int := 2
  const BATTERY_STATUS_DISCHARGING: int := 3
  const BATTERY_STATUS_NOT_CHARGING: int := 4
  const BATTERY_STATUS_FULL: int := 5

  const BATTERY_HEALTH_UNKNOWN: int := 1
  const BATTERY_HEALTH_GOOD: int := 2
  const BATTERY_HEALTH_OVERHEAT: int := 3
  const BATTERY_HEALTH_DEAD: int := 4
  const BATTERY_HEALTH_OVER_VOLTAGE: int := 5
  const BATTERY_HEALTH_UNSPECIFIED_FAILURE: int := 6
  const BATTERY_HEALTH_COLD: int := 7

  const BATTERY_PLUGGED_AC: int := 1
  const BATTERY_PLUGGED_USB: int := 2
  const BATTERY_PLUGGED_WIRELESS: int := 4

  /** The broadcast's extras: its integer extras by key and its
      `EXTRA_TECHNOLOGY` string, if present. */
  datatype BatteryIntent = BatteryIntent(intExtras: map<string, int>, technology: Option<string>)

  /** `intent?.getIntExtra(key, default) ?: default`: the default when there
      is no broadcast or it lacks the key. */
  function IntExtra(intent: Option<BatteryIntent>, key: string, default: int): (v: int)
    ensures (intent.Some? && key in intent.value.intExtras) ==> v == intent.value.intExtras[key]
    ensures !(intent.Some? && key in intent.value.intExtras) ==> v == default
  {
    match intent
    case None => default
    case Some(i) => if key in i.intExtras then i.intExtras[key] else default
  }

  /** `intent?.getStringExtra(EXTRA_TECHNOLOGY) ?: "Unknown"`. */
  function Technology(intent: Option<BatteryIntent>): (t: string)
    ensures intent.Some? && intent.value.technology.Some? ==> t == intent.value.technology.value
    ensures !(intent.Some? && intent.value.technology.Some?) ==> t == "Unknown"
  {
    match intent
    case None => "Unknown"
    case Some(i) => i.technology.GetOr("Unknown")
  }
}
