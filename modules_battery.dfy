/** `getBatteryInfo` of `modules/battery`: the same broadcast read with -1
    defaults, a capacity estimate from the charge counter, and a level whose
    `level * 100` is computed in 32-bit `Int` arithmetic. */
module ModulesBattery {
  import opened Wrappers
  import opened Numerics
  import opened BatteryExtras
  import ComponentsBattery

  /** The record this file builds (`BatteryInfo` of `BatteryTypes.kt`); the
      temperature stays in tenths of a degree. */
  datatype BatteryInfo = BatteryInfo(level: int, health: string, status: string, plugged: string,
                                     capacity: int, technology: string, voltage: int, temperature: int)

  /** `(level * 100 / scale.toFloat()).toInt()` when neither extra is -1,
      else -1; the product is an `Int` and wraps. */
  function BatteryLevel(level: int, scale: int): int
  {
    if level != -1 && scale != -1 then ToInt(Div(Wrap32(level * 100) as real, scale as real)) else -1
  }

  /** While `level * 100` fits in an `Int`, the level is the whole percentage
      and agrees with the other battery screen. */
  lemma BatteryLevelIsWholePercentage(level: int, scale: int)
    requires 0 <= level <= scale && scale > 0 && level * 100 <= INT_MAX
    ensures BatteryLevel(level, scale) == level * 100 / scale
    ensures BatteryLevel(level, scale) == ComponentsBattery.LevelPercent(level, scale)
  {
    TruncOfQuotient(level * 100, scale);
    QuotientAtMost(level * 100, scale, 100);
    ComponentsBattery.LevelPercentIsWholePercentage(level, scale);
  }

  /** A scale of 30,000,000 overflows the product: a full battery shows -43
      here and 100 on the other screen. */
  lemma BatteryLevelWraps()
    ensures BatteryLevel(30_000_000, 30_000_000) == -43
    ensures ComponentsBattery.LevelPercent(30_000_000, 30_000_000) == 100
  {
    assert Wrap32(3_000_000_000) == -1_294_967_296;
    var v := -1_294_967_296 as real / 30_000_000 as real;
    assert v * 30_000_000.0 == -1_294_967_296.0;
    assert -44.0 < v < -43.0;
    ComponentsBattery.LevelPercentIsWholePercentage(30_000_000, 30_000_000);
  }

  /** `chargeCounter / (level / scale) / 1000` in `Double`, truncated to a
      `Long`, when level, scale and charge counter are all positive; else 0. */
  function Capacity(level: int, scale: int, chargeCounter: int): (c: int)
    ensures c >= 0
    ensures !(level > 0 && scale > 0 && chargeCounter > 0) ==> c == 0
  {
    if level > 0 && scale > 0 && chargeCounter > 0 then
      ToLong(Finite((chargeCounter as real / (level as real / scale as real)) / 1000.0))
    else 0
  }

  /** The estimate is the charge counter scaled to a full battery, in units
      of 1000 (µAh to mAh), rounded down. */
  lemma CapacityEstimate(level: int, scale: int, chargeCounter: int)
    requires level > 0 && scale > 0 && chargeCounter > 0
    requires IsLong(chargeCounter * scale / (level * 1000))
    ensures Capacity(level, scale, chargeCounter) == chargeCounter * scale / (level * 1000)
  {
    var v := (chargeCounter as real / (level as real / scale as real)) / 1000.0;
    assert v == (chargeCounter * scale) as real / (level * 1000) as real by {
      RealRatioIdentity(chargeCounter, level, scale);
    }
    TruncOfQuotient(chargeCounter * scale, level * 1000);
  }

  lemma RealRatioIdentity(c: int, l: int, s: int)
    requires l > 0 && s > 0
    ensures (c as real / (l as real / s as real)) / 1000.0 == (c * s) as real / (l * 1000) as real
  {
    var q := l as real / s as real;
    assert q * s as real == l as real;
    assert (c as real / q) * (l * 1000) as real == (c * s) as real * 1000.0 by {
      assert (c as real / q) * q == c as real;
      assert (l * 1000) as real == q * s as real * 1000.0;
    }
  }

  /** At a full charge the estimate is the charge counter in mAh. */
  lemma CapacityAtFullCharge(scale: int, chargeCounter: int)
    requires scale > 0 && chargeCounter > 0 && IsLong(chargeCounter)
    ensures Capacity(scale, scale, chargeCounter) == chargeCounter / 1000
  {
    assert chargeCounter * scale / (scale * 1000) == chargeCounter / 1000 by {
      DivCancel(chargeCounter, scale, 1000);
    }
    CapacityEstimate(scale, scale, chargeCounter);
  }

  lemma DivCancel(a: int, s: int, d: int)
    requires a >= 0 && s > 0 && d > 0
    ensures a * s / (s * d) == a / d
  {
    var q, r := a / d, a % d;
    assert a * s == q * (s * d) + r * s;
    assert 0 <= r * s < s * d;
    ModUnique(a * s, q, r * s, s * d);
  }

  /** Health labels; this table has no Over Voltage entry. */
  function HealthLabel(code: int): string
  {
    if code == BATTERY_HEALTH_GOOD then "Good"
    else if code == BATTERY_HEALTH_OVERHEAT then "Overheat"
    else if code == BATTERY_HEALTH_DEAD then "Dead"
    else if code == BATTERY_HEALTH_UNSPECIFIED_FAILURE then "Failure"
    else if code == BATTERY_HEALTH_COLD then "Cold"
    else "Unknown"
  }

  function StatusLabel(code: int): string
  {
    if code == BATTERY_STATUS_CHARGING then "Charging"
    else if code == BATTERY_STATUS_DISCHARGING then "Discharging"
    else if code == BATTERY_STATUS_NOT_CHARGING then "Not Charging"
    else if code == BATTERY_STATUS_FULL then "Full"
    else "Unknown"
  }

  function PluggedLabel(code: int): string
  {
    if code == BATTERY_PLUGGED_AC then "AC"
    else if code == BATTERY_PLUGGED_USB then "USB"
    else if code == BATTERY_PLUGGED_WIRELESS then "Wireless"
    else "Unplugged"
  }

  /** The status and plug tables agree with the other battery screen's; the
      health tables differ exactly at Over Voltage, shown here as "Unknown". */
  lemma TablesAgainstOtherScreen(code: int)
    ensures StatusLabel(code) == ComponentsBattery.StatusLabel(code)
    ensures PluggedLabel(code) == ComponentsBattery.PluggedLabel(code)
    ensures HealthLabel(code) == ComponentsBattery.HealthLabel(code) <==> code != BATTERY_HEALTH_OVER_VOLTAGE
    ensures HealthLabel(BATTERY_HEALTH_OVER_VOLTAGE) == "Unknown"
  {
  }

  /** `getBatteryInfo`, given the broadcast and the charge counter property. */
  function GetBatteryInfo(intent: Option<BatteryIntent>, chargeCounter: int): (info: BatteryInfo)
    ensures var level := IntExtra(intent, EXTRA_LEVEL, -1);
            var scale := IntExtra(intent, EXTRA_SCALE, -1);
            info.level == BatteryLevel(level, scale) && info.capacity == Capacity(level, scale, chargeCounter)
    ensures info.health == HealthLabel(IntExtra(intent, EXTRA_HEALTH, -1))
    ensures info.status == StatusLabel(IntExtra(intent, EXTRA_STATUS, -1))
    ensures info.plugged == PluggedLabel(IntExtra(intent, EXTRA_PLUGGED, -1))
    ensures info.technology == Technology(intent)
    ensures info.voltage == IntExtra(intent, EXTRA_VOLTAGE, -1)
    ensures info.temperature == IntExtra(intent, EXTRA_TEMPERATURE, -1)
  {
    var level := IntExtra(intent, EXTRA_LEVEL, -1);
    var scale := IntExtra(intent, EXTRA_SCALE, -1);
    BatteryInfo(BatteryLevel(level, scale),
                HealthLabel(IntExtra(intent, EXTRA_HEALTH, -1)),
                StatusLabel(IntExtra(intent, EXTRA_STATUS, -1)),
                PluggedLabel(IntExtra(intent, EXTRA_PLUGGED, -1)),
                Capacity(level, scale, chargeCounter),
                Technology(intent),
                IntExtra(intent, EXTRA_VOLTAGE, -1),
                IntExtra(intent, EXTRA_TEMPERATURE, -1))
  }

  /** Without the broadcast: level, voltage and temperature are -1 and the
      capacity is 0. */
  lemma NoBroadcastDefaults(chargeCounter: int)
    ensures GetBatteryInfo(None, chargeCounter) ==
            BatteryInfo(-1, "Unknown", "Unknown", "Unplugged", 0, "Unknown", -1, -1)
  {
  }
}
