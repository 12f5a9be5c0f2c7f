/** The device screen's derived strings: the uptime split into hours and
    minutes, the kernel version default, and the camera, NFC, SIM, display
    and sensor summaries of `getHardwareInfo`. Platform answers are inputs. */
module DeviceInfo {
  import opened Wrappers
  import opened Numerics
  import opened Text
  import opened Sizes

  const SDK_M: int := 23
  const MILLIS_PER_MINUTE: nat := 60_000
  const MILLIS_PER_HOUR: nat := 3_600_000

  datatype SystemInfo = SystemInfo(kernelVersion: string, uptime: string)

  /** `TimeUnit.MILLISECONDS.toHours` and `toMinutes(..) % 60`. */
  function UptimeHours(uptimeMillis: nat): nat
  {
    uptimeMillis / MILLIS_PER_HOUR
  }

  function UptimeMinutes(uptimeMillis: nat): nat
  {
    (uptimeMillis / MILLIS_PER_MINUTE) % 60
  }

  /** The minutes are below an hour, and hours and minutes together are the
      whole minutes elapsed. */
  lemma UptimeSplit(uptimeMillis: nat)
    ensures 0 <= UptimeMinutes(uptimeMillis) < 60
    ensures UptimeHours(uptimeMillis) * 60 + UptimeMinutes(uptimeMillis) == uptimeMillis / MILLIS_PER_MINUTE
  {
    var m, r1 := uptimeMillis / 60_000, uptimeMillis % 60_000;
    var q2, r2 := m / 60, m % 60;
    assert uptimeMillis == q2 * 3_600_000 + (r2 * 60_000 + r1);
    ModUnique(uptimeMillis, q2, r2 * 60_000 + r1, 3_600_000);
  }

  /** `getSystemInfo`: the `%d hours, %d minutes` text and the `os.version`
      property, "Unknown" when absent. */
  function GetSystemInfo(uptimeMillis: nat, osVersion: Option<string>): (info: SystemInfo)
    ensures osVersion.None? ==> info.kernelVersion == "Unknown"
    ensures osVersion.Some? ==> info.kernelVersion == osVersion.value
    ensures info.uptime == IntToString(UptimeHours(uptimeMillis)) + " hours, " +
                           IntToString(UptimeMinutes(uptimeMillis)) + " minutes"
  {
    SystemInfo(osVersion.GetOr("Unknown"),
               IntToString(UptimeHours(uptimeMillis)) + " hours, " + IntToString(UptimeMinutes(uptimeMillis)) + " minutes")
  }

  /** The number of SIM slots: the phone count from M on, else 1. */
  function SimCount(sdk: int, phoneCount: int): int
  {
    if sdk >= SDK_M then phoneCount else 1
  }

  function SimText(simCount: int): string
  {
    if simCount > 1 then "Dual SIM (" + IntToString(simCount) + " slots)" else "Single SIM"
  }

  /** "Single SIM" exactly when there is at most one slot, which is always
      the case before M; otherwise the slot count is shown. */
  lemma SimTextCases(sdk: int, phoneCount: int)
    ensures SimText(SimCount(sdk, phoneCount)) == "Single SIM" <==> SimCount(sdk, phoneCount) <= 1
    ensures sdk < SDK_M ==> SimText(SimCount(sdk, phoneCount)) == "Single SIM"
    ensures SimCount(sdk, phoneCount) > 1 ==>
              SimText(SimCount(sdk, phoneCount))[10..|SimText(SimCount(sdk, phoneCount))| - 7] == IntToString(phoneCount)
  {
    var n := SimCount(sdk, phoneCount);
    if n > 1 {
      var t := SimText(n);
      assert t[10..|t| - 7] == IntToString(n);
      assert |t| > |"Single SIM"|;
    }
  }

  function NfcText(hasAdapter: bool): (t: string)
    ensures t == "Supported" <==> hasAdapter
  {
    if hasAdapter then "Supported" else "Not Supported"
  }

  /** The camera summary; `cameraIds` is `None` when listing the cameras
      throws, which counts as 0. */
  function CameraText(cameraIds: Option<nat>): string
  {
    IntToString(cameraIds.GetOr(0)) + " cameras detected"
  }

  /** Different counts give different texts, and a failed listing reads as
      zero cameras. */
  lemma CameraTextCases(a: Option<nat>, b: Option<nat>)
    ensures CameraText(None) == "0 cameras detected"
    ensures CameraText(a) == CameraText(b) ==> a.GetOr(0) == b.GetOr(0)
  {
    assert IntToString(0) == "0";
    if CameraText(a) == CameraText(b) {
      SuffixCancel(IntToString(a.GetOr(0)), IntToString(b.GetOr(0)), " cameras detected");
      IntToStringInjective(a.GetOr(0), b.GetOr(0));
    }
  }

  lemma SuffixCancel(x: string, y: string, c: string)
    requires x + c == y + c
    ensures x == y
  {
    assert |x| == |y|;
    assert x == (x + c)[..|x|];
    assert y == (y + c)[..|y|];
  }

  /** The display's reported figures. */
  datatype DisplayMetrics = DisplayMetrics(widthPixels: int, heightPixels: int, densityDpi: int, refreshRate: real)

  datatype HardwareInfo = HardwareInfo(ramGigabytes: real, storageGigabytes: real, display: string,
                                       refreshRate: string, camera: string, nfc: string, simSlots: string,
                                       sensorCount: string)

  /** `getHardwareInfo`; RAM and storage are kept as the GiB amounts that
      `formatSize` prints with two decimals. */
  function GetHardwareInfo(totalMem: int, totalStorage: int, metrics: DisplayMetrics, cameraIds: Option<nat>,
                           hasNfcAdapter: bool, sdk: int, phoneCount: int, sensorCount: nat): (h: HardwareInfo)
    ensures h.ramGigabytes * GIB as real == totalMem as real
    ensures h.storageGigabytes * GIB as real == totalStorage as real
    ensures h.display == IntToString(metrics.widthPixels) + " x " + IntToString(metrics.heightPixels) +
                         " (" + IntToString(metrics.densityDpi) + " dpi)"
    ensures h.refreshRate == IntToString(ToInt(Finite(metrics.refreshRate))) + " Hz"
    ensures h.camera == CameraText(cameraIds)
    ensures h.nfc == NfcText(hasNfcAdapter)
    ensures h.simSlots == SimText(SimCount(sdk, phoneCount))
    ensures h.sensorCount == IntToString(sensorCount)
  {
    HardwareInfo(totalMem as real / GIB as real, totalStorage as real / GIB as real,
                 IntToString(metrics.widthPixels) + " x " + IntToString(metrics.heightPixels) +
                 " (" + IntToString(metrics.densityDpi) + " dpi)",
                 IntToString(ToInt(Finite(metrics.refreshRate))) + " Hz",
                 CameraText(cameraIds), NfcText(hasNfcAdapter), SimText(SimCount(sdk, phoneCount)),
                 IntToString(sensorCount))
  }
}
