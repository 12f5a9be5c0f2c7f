# Doctor Droid: a verified model of the dashboard's logic

Doctor Droid is an Android device-diagnostics dashboard written in Kotlin. Most of its screens read a platform service and render the answer. Inside those screens sits a set of small, self-contained pieces of logic. This project models them in Dafny and proves what they compute. Whatever the platform answers becomes an input to the model:

- the battery broadcast;
- `/proc/stat` and sysfs text;
- network interfaces;
- camera characteristics;
- the running services;
- clock readings and random draws.

The modules follow the app's files:

- `TouchTest`: the touch-screen test overlay.
  - Touch coordinates map to one of the 15 × 10 grid cells.
  - The touched set grows with each drag.
  - The test completes once all 150 cells are touched.
  - Rendering visits the grid row by row.
- `FloatingMonitor`: the floating monitor service.
  - The one-second FPS window counter.
  - The overlay's drag position as a 32-bit `Int`.
  - The process-wide `isRunning` flag.
  - `onCreate` and `onDestroy`.
- `MainActivity`: the toggle for the floating monitor.
  - The `isMonitorActive` flag.
  - The overlay-permission gate.
  - The start/stop decision made by scanning the running services.
- `Memory`, `Storage` and `Sizes`:
  - memory and storage totals;
  - the per-process memory breakdown, with its "System & Other Apps" remainder, sorted largest first;
  - the fixed storage categories;
  - the KB/MB/GB unit choice.
- `NetworkCommon`, `ComponentsNetwork` and `ModulesNetwork`: the two network screens.
  - The connection status and the transport precedence.
  - The telephony data state.
  - SSID quote stripping and the Wi-Fi fields.
  - The last-wins IPv4/IPv6 address scan. IPv6 zone indices (section 11 of RFC 4007) are cut off, and the text is upper-cased.
  - The `wlan0` MAC address as colon-separated upper-case hexadecimal pairs (IEEE 802 EUI-48 notation).
  - The Wi-Fi standard table.
- `BatteryExtras`, `ComponentsBattery` and `ModulesBattery`: the two battery readers.
  - The level percentage (one of them multiplies in 32-bit arithmetic).
  - The capacity estimate from the charge counter.
  - The status, health and plug tables, and the defaults.
- `CpuUsage`: two `/proc/stat` readings (proc(5) layout) and the busy fraction, with its random fallback.
- `CpuFrequency`: the current and maximum core clock, read in kHz from cpufreq files and returned in MHz.
- `DeviceInfo`: the uptime split, and the SIM, NFC, camera and display strings.
- `Applications`: the installed-application rows, their stable sort by name, and the case-insensitive search filter.
- `Camera`: the camera rows: lens facing, the largest JPEG size, flash and video support, and the loop that stops at the first failing camera.

Shared helpers sit in four modules:

- `Numerics`: Kotlin `Int` wrap-around, truncating division, `Float` division with infinities and NaN, and the saturating `toInt`/`toLong`.
- `Text`: decimal rendering and parsing, trimming, ASCII case mapping, and splitting on runs of spaces.
- `Sorting`: a stable insertion sort, which is what Kotlin's `sortedBy` is.
- `Wrappers`: `Option`.

Three points where the code is easy to misread:

- The two battery readers disagree on the health table and on overflow.
- The storage `formatSize` (`ui/components/storage/StorageScreen.kt:408-418`) uses the same thresholds as the memory one, so `Sizes.FormatSize` models both.
- In the touch test, the drag handler and the canvas compute the cell size differently; see Findings. The overlay's `OnDrag` marks the cell as the handler computes it, and `OnDragFixed` is the corrected handler.

## Model

| member | source | states |
|---|---|---|
| TouchTest.CellAtBijective | app/src/main/java/com/carlosnc/doctordroid/ui/components/health/TouchTestOverlay.kt:53-55 | the render loop's `r * cols + c` maps every cell of the 15 × 10 grid into [0, 150), and distinct cells get distinct indices |
| TouchTest.CellAtOnto | app/src/main/java/com/carlosnc/doctordroid/ui/components/health/TouchTestOverlay.kt:53-55 | every index in [0, 150) is the index of some grid cell |
| TouchTest.AxisAsWritten | app/src/main/java/com/carlosnc/doctordroid/ui/components/health/TouchTestOverlay.kt:40-43 | the drag handler's column or row (whole-pixel cell size, truncation, `coerceIn`) is always within the grid, whatever the coordinate |
| TouchTest.CellIndexAsWritten | app/src/main/java/com/carlosnc/doctordroid/ui/components/health/TouchTestOverlay.kt:40-44 | the index the drag handler adds is always in [0, 150), even for off-screen touches |
| TouchTest.Axis | app/src/main/java/com/carlosnc/doctordroid/ui/components/health/TouchTestOverlay.kt:50-51 | a coordinate mapped with the canvas's fractional cell size, then clamped, is always within the grid |
| TouchTest.CellIndex | app/src/main/java/com/carlosnc/doctordroid/ui/components/health/TouchTestOverlay.kt:50-51 | the corrected half of the touch-test finding: the drag index computed with the canvas's fractional cell size is in [0, 150); its row and column are the clamped row and column of the touch |
| TouchTest.CellIndexIsDrawnCell | app/src/main/java/com/carlosnc/doctordroid/ui/components/health/TouchTestOverlay.kt:50-57 | a touch inside the region marks the cell whose drawn rectangle contains it |
| TouchTest.AxisIsDrawnCell | app/src/main/java/com/carlosnc/doctordroid/ui/components/health/TouchTestOverlay.kt:50-51 | a coordinate inside the region maps to the column (or row) whose drawn band `[k·cell, (k+1)·cell)` contains it |
| TouchTest.AsWrittenMarksNeighbour | app/src/main/java/com/carlosnc/doctordroid/ui/components/health/TouchTestOverlay.kt:40-51 | on a 1085-pixel-wide region, a touch at x = 540 is drawn in column 4, but the handler as written marks column 5 |
| TouchTest.TouchTestOverlay.constructor | app/src/main/java/com/carlosnc/doctordroid/ui/components/health/TouchTestOverlay.kt:20 | the overlay starts with no touched cells and no completion |
| TouchTest.TouchTestOverlay.OnDrag | app/src/main/java/com/carlosnc/doctordroid/ui/components/health/TouchTestOverlay.kt:25-44 | a drag adds exactly the cell the handler's whole-pixel division picks (`CellIndexAsWritten`); the set only grows; touching a touched cell changes nothing; `onComplete` fires exactly when the size first reaches 150 |
| TouchTest.TouchTestOverlay.OnDragFixed | app/src/main/java/com/carlosnc/doctordroid/ui/components/health/TouchTestOverlay.kt:25-51 | the corrected drag handler: it adds the cell the canvas draws under the finger (`CellIndex`), with the same set and completion behaviour |
| TouchTest.AsWrittenAgreesOnWholeCells | app/src/main/java/com/carlosnc/doctordroid/ui/components/health/TouchTestOverlay.kt:40-51 | when the width is a multiple of 10 and the height of 15, the handler's index equals the drawn cell's index, so the discrepancy needs a region that does not divide evenly |
| TouchTest.TouchTestOverlay.Render | app/src/main/java/com/carlosnc/doctordroid/ui/components/health/TouchTestOverlay.kt:53-57 | every one of the 150 cells is visited, and a cell is drawn touched iff its index is in the set |
| TouchTest.SizeBound | app/src/main/java/com/carlosnc/doctordroid/ui/components/health/TouchTestOverlay.kt:25-29 | the touched set never holds more than 150 cells |
| TouchTest.CompleteIffAllTouched | app/src/main/java/com/carlosnc/doctordroid/ui/components/health/TouchTestOverlay.kt:25-29 | the completion test `size >= 150` holds iff every cell has been touched |
| FloatingMonitor.QuietFrames | app/src/main/java/com/carlosnc/doctordroid/services/FloatingMonitorService.kt:172-181 | frames that arrive within one second of the window start each add 1 to the count; the rate shown and the window start stay the same |
| FloatingMonitor.WindowCloses | app/src/main/java/com/carlosnc/doctordroid/services/FloatingMonitorService.kt:172-181 | the frame that closes a window publishes the number of frames in it (itself included), resets the count to 0 and starts the next window at its own time |
| FloatingMonitor.StepPublishesOnlyAtBoundary | app/src/main/java/com/carlosnc/doctordroid/services/FloatingMonitorService.kt:173-179 | each frame either counts one more frame, leaving the rest alone, or, at a boundary, publishes the count and resets it to 0 |
| FloatingMonitor.FpsCounter.constructor | app/src/main/java/com/carlosnc/doctordroid/services/FloatingMonitorService.kt:168-169 | the counter starts at 0 frames, with the window starting now and a rate of 0 |
| FloatingMonitor.FpsCounter.DoFrame | app/src/main/java/com/carlosnc/doctordroid/services/FloatingMonitorService.kt:172-180 | `doFrame` performs exactly one window step |
| FloatingMonitor.PositionIsStartPlusSum | app/src/main/java/com/carlosnc/doctordroid/services/FloatingMonitorService.kt:141-142 | after any number of drags, the position is the start plus the sum of the truncated deltas, wrapped once to 32 bits |
| FloatingMonitor.PositionWithoutOverflow | app/src/main/java/com/carlosnc/doctordroid/services/FloatingMonitorService.kt:130-142 | without overflow, the position is exactly the start plus the sum of the truncated deltas |
| FloatingMonitor.Companion.constructor | app/src/main/java/com/carlosnc/doctordroid/services/FloatingMonitorService.kt:71 | the shared `isRunning` flag starts false |
| FloatingMonitor.FloatingMonitorService.OnCreate | app/src/main/java/com/carlosnc/doctordroid/services/FloatingMonitorService.kt:78-87 | `onCreate` raises `isRunning` and shows the overlay at (100, 100) |
| FloatingMonitor.FloatingMonitorService.ShowFloatingWindow | app/src/main/java/com/carlosnc/doctordroid/services/FloatingMonitorService.kt:115-151 | the view is created and added at (100, 100) |
| FloatingMonitor.FloatingMonitorService.StartFpsEffect | app/src/main/java/com/carlosnc/doctordroid/services/FloatingMonitorService.kt:167-184 | the FPS effect creates fresh counter variables and posts the frame callback |
| FloatingMonitor.FloatingMonitorService.OnVsync | app/src/main/java/com/carlosnc/doctordroid/services/FloatingMonitorService.kt:172-181 | a posted callback takes one window step and posts itself again; without one, nothing changes |
| FloatingMonitor.FloatingMonitorService.OnDrag | app/src/main/java/com/carlosnc/doctordroid/services/FloatingMonitorService.kt:140-144 | each drag adds the truncated deltas to the 32-bit position, and nothing else changes |
| FloatingMonitor.FloatingMonitorService.OnDestroy | app/src/main/java/com/carlosnc/doctordroid/services/FloatingMonitorService.kt:214-223 | as written, `onDestroy` lowers `isRunning`, cancels the job and removes the view if there is one, but leaves the frame callback posted |
| FloatingMonitor.FloatingMonitorService.OnDestroyReleasingFrames | app/src/main/java/com/carlosnc/doctordroid/services/FloatingMonitorService.kt:214-223 | the corrected teardown does all of that and also unposts the frame callback |
| FloatingMonitor.DestroyedServiceStillCounts | app/src/main/java/com/carlosnc/doctordroid/services/FloatingMonitorService.kt:172-183 | after `onDestroy` as written, the next display frame is still counted |
| FloatingMonitor.DestroyedServiceStopsCounting | app/src/main/java/com/carlosnc/doctordroid/services/FloatingMonitorService.kt:214-223 | after the corrected teardown, the next display frame is not counted |
| MainActivity.ClickDecision | app/src/main/java/com/carlosnc/doctordroid/MainActivity.kt:47-91 | a click sends exactly one request; the grant flow is launched iff the monitor is off and overlays are refused on M or later; a start is requested iff the monitor is off, overlays are allowed (or the SDK predates M) and the service is not registered; O and later start in the foreground |
| MainActivity.ClickWhileOffStopsRunningService | app/src/main/java/com/carlosnc/doctordroid/MainActivity.kt:75-81 | the toggle goes by the service registry, not the flag: a click with the flag off stops a service the registry lists |
| MainActivity.PermissionResultDecision | app/src/main/java/com/carlosnc/doctordroid/MainActivity.kt:30-34 | after the grant flow, nothing is sent unless overlays are now allowed; otherwise the registry decides between start and stop |
| MainActivity.IsServiceRunning | app/src/main/java/com/carlosnc/doctordroid/MainActivity.kt:99-107 | the early-exit scan returns true iff some running service has the class name |
| MainActivity.MainActivity.constructor | app/src/main/java/com/carlosnc/doctordroid/MainActivity.kt:25 | the flag starts false and nothing has been sent |
| MainActivity.MainActivity.OnCreate | app/src/main/java/com/carlosnc/doctordroid/MainActivity.kt:41 | the flag starts as the registry reports |
| MainActivity.MainActivity.OnToggleFloatingMonitor | app/src/main/java/com/carlosnc/doctordroid/MainActivity.kt:47-53 | the toggle's new flag and the requests it sends are those `ClickDecision` describes |
| MainActivity.MainActivity.OnOverlayPermissionResult | app/src/main/java/com/carlosnc/doctordroid/MainActivity.kt:27-35 | the permission result's new flag and requests are those `PermissionResultDecision` describes |
| MainActivity.MainActivity.CheckOverlayPermissionAndStart | app/src/main/java/com/carlosnc/doctordroid/MainActivity.kt:59-73 | on M or later without permission, only the grant flow is launched and the flag is kept; otherwise the registry toggle runs |
| MainActivity.MainActivity.ToggleFloatingMonitor | app/src/main/java/com/carlosnc/doctordroid/MainActivity.kt:75-81 | stop if the registry lists the service, else start |
| MainActivity.MainActivity.StartFloatingMonitor | app/src/main/java/com/carlosnc/doctordroid/MainActivity.kt:83-91 | the flag becomes true, and one start request is sent (foreground from O on) |
| MainActivity.MainActivity.StopFloatingMonitor | app/src/main/java/com/carlosnc/doctordroid/MainActivity.kt:93-97 | the flag becomes false, and one stop request is sent |
| Sizes.FormatSize | app/src/main/java/com/carlosnc/doctordroid/ui/components/memory/MemoryScreen.kt:446-456 | GB iff bytes ≥ 2^30, MB iff 2^20 ≤ bytes < 2^30, KB otherwise; the amount shown times the unit is the byte count |
| Sizes.UsedFraction | app/src/main/java/com/carlosnc/doctordroid/ui/components/storage/StorageScreen.kt:299 | the progress is 0 when the total is not positive; otherwise it is the part over the total, which lies in [0, 1] when the part lies within the total |
| Memory.GetMemoryInfo | app/src/main/java/com/carlosnc/doctordroid/ui/components/memory/MemoryScreen.kt:383-401 | used plus available is the total; the percentage is 0 when the total is not positive, and otherwise is used over total |
| Memory.Label | app/src/main/java/com/carlosnc/doctordroid/ui/components/memory/MemoryScreen.kt:419-424 | the application label, or the process name when the lookup fails |
| Memory.GetRunningAppsMemory | app/src/main/java/com/carlosnc/doctordroid/ui/components/memory/MemoryScreen.kt:403-444 | the loop's result is the stable descending sort of the collected rows plus the remainder row |
| Memory.CollectProcesses | app/src/main/java/com/carlosnc/doctordroid/ui/components/memory/MemoryScreen.kt:409-434 | the per-process loop builds exactly the collected rows, in process order, and its running total is their byte sum |
| Memory.CollectedRows | app/src/main/java/com/carlosnc/doctordroid/ui/components/memory/MemoryScreen.kt:413-433 | a process has a row iff its PSS × 1024 (0 past the end of the PSS list) is positive, and every row is such a process's row |
| Memory.EntriesAccountForUsed | app/src/main/java/com/carlosnc/doctordroid/ui/components/memory/MemoryScreen.kt:438-441 | the "System & Other Apps" row is added iff the rows account for less than the memory in use, and then all rows sum to exactly that amount |
| Memory.BreakdownOrdered | app/src/main/java/com/carlosnc/doctordroid/ui/components/memory/MemoryScreen.kt:443 | the breakdown is a permutation of the entries, in non-increasing size, with equal sizes in collection order |
| Storage.GetStorageInfo | app/src/main/java/com/carlosnc/doctordroid/ui/components/storage/StorageScreen.kt:397-406 | used plus free is the total; the percentage is 0 when the total is not positive, and otherwise is used over total |
| Storage.GetFileTypeUsage | app/src/main/java/com/carlosnc/doctordroid/ui/components/storage/StorageScreen.kt:378-387 | six categories, each a positive whole number of GiB |
| Storage.SortedFileTypes | app/src/main/java/com/carlosnc/doctordroid/ui/components/storage/StorageScreen.kt:277-279 | the displayed list is a permutation of the categories, in non-increasing size |
| Storage.DisplayedOrder | app/src/main/java/com/carlosnc/doctordroid/ui/components/storage/StorageScreen.kt:277-279 | the categories are displayed as Apps, Videos, Images, Other, Audio, Documents |
| Storage.DisplayedIsPermutation | app/src/main/java/com/carlosnc/doctordroid/ui/components/storage/StorageScreen.kt:378-387 | the displayed arrangement holds exactly the six categories, each once |
| Storage.SortedDistinctUnique | app/src/main/java/com/carlosnc/doctordroid/ui/components/storage/StorageScreen.kt:277-279 | two descending arrangements of the same categories, one of them strictly descending, are equal |
| NetworkCommon.Status | app/src/main/java/com/carlosnc/doctordroid/ui/components/network/NetworkScreen.kt:235 | "Connected" iff there is an active network, "Disconnected" otherwise |
| NetworkCommon.TransportTypeIsFirstInPrecedence | app/src/main/java/com/carlosnc/doctordroid/ui/components/network/NetworkScreen.kt:236-242 | the type is the label of the first of WiFi, Mobile Data, Ethernet, Bluetooth that the network has; "None" iff it has none of them (or no capabilities) |
| NetworkCommon.DataStateTable | app/src/main/java/com/carlosnc/doctordroid/ui/components/network/NetworkScreen.kt:244-250 | the four telephony states get four distinct labels; "Unknown" iff the code is none of them |
| NetworkCommon.SsidQuotes | app/src/main/java/com/carlosnc/doctordroid/ui/components/network/NetworkScreen.kt:263 | a quoted SSID is shown without its quotes; one not both starting and ending with a quote is shown as reported |
| NetworkCommon.WifiFieldsOf | app/src/main/java/com/carlosnc/doctordroid/ui/components/network/NetworkScreen.kt:254-271 | without permission or connection info all four fields are "N/A"; a SecurityException gives "Permission Denied"; a connection gives its SSID, BSSID, MHz and Mbps |
| NetworkCommon.Ipv6TextShape | app/src/main/java/com/carlosnc/doctordroid/ui/components/network/NetworkScreen.kt:286-287 | a shown IPv6 address has no zone index and no lower-case letter; an address without a zone index is only upper-cased |
| NetworkCommon.LastIpv4Wins | app/src/main/java/com/carlosnc/doctordroid/ui/components/network/NetworkScreen.kt:280-284 | the IPv4 field is the last non-loopback address without ':' |
| NetworkCommon.NoIpv4StaysUnavailable | app/src/main/java/com/carlosnc/doctordroid/ui/components/network/NetworkScreen.kt:273-284 | without such an address the IPv4 field stays "N/A" |
| NetworkCommon.LastIpv6Wins | app/src/main/java/com/carlosnc/doctordroid/ui/components/network/NetworkScreen.kt:285-288 | the IPv6 field is the last non-loopback address with ':', zone-stripped and upper-cased |
| NetworkCommon.NoIpv6StaysUnavailable | app/src/main/java/com/carlosnc/doctordroid/ui/components/network/NetworkScreen.kt:273-288 | without such an address the IPv6 field stays "N/A" |
| NetworkCommon.FindIpAddresses | app/src/main/java/com/carlosnc/doctordroid/ui/components/network/NetworkScreen.kt:273-292 | the nested loop over interfaces and addresses computes the last-wins scan; an unlistable interface set leaves both fields "N/A" |
| NetworkCommon.ScanInterface | app/src/main/java/com/carlosnc/doctordroid/ui/components/network/NetworkScreen.kt:278-290 | the inner loop over one interface's addresses continues the last-wins scan from the fields the earlier interfaces left |
| ComponentsNetwork.HexPair | app/src/main/java/com/carlosnc/doctordroid/ui/components/network/NetworkScreen.kt:302-304 | `%02X` of a byte always has two characters |
| ComponentsNetwork.HexPairReadsBack | app/src/main/java/com/carlosnc/doctordroid/ui/components/network/NetworkScreen.kt:302-304 | the two hexadecimal digits read back as the byte's unsigned value |
| ComponentsNetwork.MacTextShape | app/src/main/java/com/carlosnc/doctordroid/ui/components/network/NetworkScreen.kt:301-307 | an n-byte address (n ≥ 1) becomes 3n − 1 characters: byte i's two digits at 3i, with ':' between bytes |
| ComponentsNetwork.FormatHardwareAddress | app/src/main/java/com/carlosnc/doctordroid/ui/components/network/NetworkScreen.kt:301-307 | the builder loop followed by deleting the last character yields exactly the MAC text |
| ComponentsNetwork.ScanMacFails | app/src/main/java/com/carlosnc/doctordroid/ui/components/network/NetworkScreen.kt:294-313 | the lookup fails (and the field is "N/A") iff some `wlan0` interface's address read throws |
| ComponentsNetwork.LastWlanWins | app/src/main/java/com/carlosnc/doctordroid/ui/components/network/NetworkScreen.kt:297-308 | without failures, the last `wlan0` (any case) interface with an address gives the MAC |
| ComponentsNetwork.NoWlanAddress | app/src/main/java/com/carlosnc/doctordroid/ui/components/network/NetworkScreen.kt:294-313 | without failures and without a `wlan0` address, the MAC is "N/A" |
| ComponentsNetwork.FindMacAddress | app/src/main/java/com/carlosnc/doctordroid/ui/components/network/NetworkScreen.kt:294-313 | the loop, with its early exit on an exception, computes the MAC field |
| ComponentsNetwork.GetNetworkDetails | app/src/main/java/com/carlosnc/doctordroid/ui/components/network/NetworkScreen.kt:235-313 | every field of the record is the one its rule above defines |
| ModulesNetwork.WifiStandardTable | app/src/main/java/com/carlosnc/doctordroid/modules/network/NetworkScreen.kt:241-250 | Legacy, 11n, 11ac, 11ax and 11ad each have their own label; every other code is "Unknown" |
| ModulesNetwork.WifiStandardOf | app/src/main/java/com/carlosnc/doctordroid/modules/network/NetworkScreen.kt:226-250 | the standard is "N/A" iff there is no connection read or the SDK is below R; otherwise it is the standard's label |
| ModulesNetwork.GetNetworkDetails | app/src/main/java/com/carlosnc/doctordroid/modules/network/NetworkScreen.kt:207-293 | the shared fields follow the same rules; the MAC address is always "N/A" |
| BatteryExtras.IntExtra | app/src/main/java/com/carlosnc/doctordroid/ui/components/battery/BatteryScreen.kt:245-246 | an extra's value, or the default when there is no broadcast or no such extra |
| BatteryExtras.Technology | app/src/main/java/com/carlosnc/doctordroid/ui/components/battery/BatteryScreen.kt:281 | the technology string, "Unknown" when absent |
| ComponentsBattery.LevelPercentIsWholePercentage | app/src/main/java/com/carlosnc/doctordroid/ui/components/battery/BatteryScreen.kt:245-247 | a level within its scale gives `level * 100 / scale`, rounded down and in [0, 100] |
| ComponentsBattery.LevelPercentEdges | app/src/main/java/com/carlosnc/doctordroid/ui/components/battery/BatteryScreen.kt:245-247 | a missing level or scale gives -1; a zero scale gives the saturated conversion of ±∞ or NaN |
| ComponentsBattery.LabelTables | app/src/main/java/com/carlosnc/doctordroid/ui/components/battery/BatteryScreen.kt:249-277 | exactly the status codes 2–5, health codes 2–7 and plug codes 1, 2, 4 have labels of their own; distinct codes share a label only when it is the default |
| ComponentsBattery.GetBatteryInfo | app/src/main/java/com/carlosnc/doctordroid/ui/components/battery/BatteryScreen.kt:242-292 | each field is read from its extra with the screen's default; the temperature is the raw tenths over 10 |
| ComponentsBattery.NoBroadcastDefaults | app/src/main/java/com/carlosnc/doctordroid/ui/components/battery/BatteryScreen.kt:242-292 | without the broadcast: level -1, status, health and technology "Unknown", "Unplugged", temperature 0, voltage 0 |
| ModulesBattery.BatteryLevelIsWholePercentage | app/src/main/java/com/carlosnc/doctordroid/modules/battery/BatteryUtils.kt:59-63 | while `level * 100` fits in an `Int`, the level is the whole percentage and agrees with the other battery screen |
| ModulesBattery.BatteryLevelWraps | app/src/main/java/com/carlosnc/doctordroid/modules/battery/BatteryUtils.kt:59-63 | with a scale of 30,000,000 the `Int` product wraps: a full battery reads -43 here and 100 on the other screen |
| ModulesBattery.Capacity | app/src/main/java/com/carlosnc/doctordroid/modules/battery/BatteryUtils.kt:29-33 | the capacity is never negative, and is 0 unless level, scale and charge counter are all positive |
| ModulesBattery.CapacityEstimate | app/src/main/java/com/carlosnc/doctordroid/modules/battery/BatteryUtils.kt:29-33 | the estimate is `chargeCounter * scale / (level * 1000)`, the counter scaled to a full battery in mAh, rounded down |
| ModulesBattery.CapacityAtFullCharge | app/src/main/java/com/carlosnc/doctordroid/modules/battery/BatteryUtils.kt:29-33 | at a full charge the estimate is the charge counter divided by 1000 |
| ModulesBattery.TablesAgainstOtherScreen | app/src/main/java/com/carlosnc/doctordroid/modules/battery/BatteryUtils.kt:35-57 | the status and plug tables equal the other screen's; the health tables differ exactly at Over Voltage, shown here as "Unknown" |
| ModulesBattery.GetBatteryInfo | app/src/main/java/com/carlosnc/doctordroid/modules/battery/BatteryUtils.kt:13-75 | each field comes from its extra with a -1 default (capacity 0); the temperature stays in raw tenths |
| ModulesBattery.NoBroadcastDefaults | app/src/main/java/com/carlosnc/doctordroid/modules/battery/BatteryUtils.kt:17-24 | without the broadcast: level, voltage and temperature -1, capacity 0, labels at their defaults |
| CpuUsage.ParseFields | app/src/main/java/com/carlosnc/doctordroid/ui/components/cpu/CpuScreen.kt:279 | parsing succeeds iff every token is a number, and then gives each token's value in order |
| CpuUsage.ParseStatLine | app/src/main/java/com/carlosnc/doctordroid/ui/components/cpu/CpuScreen.kt:276-279 | a line gives seven times iff splitting on runs of spaces yields at least eight tokens and tokens 1 to 7 are numbers |
| CpuUsage.CpuUsageOf | app/src/main/java/com/carlosnc/doctordroid/ui/components/cpu/CpuScreen.kt:272-296 | two parsed readings give the busy fraction; any failure gives the random fallback, a value in [0.30, 0.70] |
| CpuUsage.BusyFractionInUnitInterval | app/src/main/java/com/carlosnc/doctordroid/ui/components/cpu/CpuScreen.kt:279-291 | when no counter goes backwards and time has passed, usage lies in [0, 1] |
| CpuUsage.IdenticalReadingsGiveNaN | app/src/main/java/com/carlosnc/doctordroid/ui/components/cpu/CpuScreen.kt:291 | two identical readings give 0/0 = NaN, not the fallback |
| CpuUsage.ParseStatLineRoundTrip | app/src/main/java/com/carlosnc/doctordroid/ui/components/cpu/CpuScreen.kt:276-279 | a line written as `cpu`, then seven times, then any further columns, parses back to those seven times |
| CpuFrequency.PathsAreDistinct | app/src/main/java/com/carlosnc/doctordroid/modules/cpu/CpuUtils.kt:10-24 | each core has its own current and maximum frequency file, and the two differ |
| CpuFrequency.FrequencyMhz | app/src/main/java/com/carlosnc/doctordroid/modules/cpu/CpuUtils.kt:12-19 | 0 for a missing, unreadable or non-numeric file; otherwise the trimmed number divided by 1000 |
| CpuFrequency.CoreFrequency | app/src/main/java/com/carlosnc/doctordroid/modules/cpu/CpuUtils.kt:8-20 | reads `scaling_cur_freq` of the core, and is 0 when the file is missing |
| CpuFrequency.MaxCoreFrequency | app/src/main/java/com/carlosnc/doctordroid/modules/cpu/CpuUtils.kt:22-34 | reads `scaling_max_freq` of the core, and is 0 when the file is missing |
| CpuFrequency.FrequencyOfWrittenValue | app/src/main/java/com/carlosnc/doctordroid/modules/cpu/CpuUtils.kt:12-16 | a file holding a kHz figure and a newline gives that figure in whole MHz |
| DeviceInfo.UptimeSplit | app/src/main/java/com/carlosnc/doctordroid/modules/device/DeviceScreen.kt:233-239 | the minutes lie in [0, 59], and hours × 60 + minutes is the number of whole minutes elapsed |
| DeviceInfo.GetSystemInfo | app/src/main/java/com/carlosnc/doctordroid/modules/device/DeviceScreen.kt:232-247 | the kernel version defaults to "Unknown"; the uptime reads "h hours, m minutes" |
| DeviceInfo.SimTextCases | app/src/main/java/com/carlosnc/doctordroid/modules/device/DeviceScreen.kt:209-214 | "Single SIM" iff at most one slot, which is always the case before M; otherwise the slot count is shown |
| DeviceInfo.NfcText | app/src/main/java/com/carlosnc/doctordroid/modules/device/DeviceScreen.kt:204-205 | "Supported" iff there is an NFC adapter |
| DeviceInfo.CameraTextCases | app/src/main/java/com/carlosnc/doctordroid/modules/device/DeviceScreen.kt:200-201 | a failed camera listing reads as "0 cameras detected", and different counts give different texts |
| DeviceInfo.GetHardwareInfo | app/src/main/java/com/carlosnc/doctordroid/modules/device/DeviceScreen.kt:178-218 | RAM and storage are given in GiB; display, refresh rate, camera, NFC, SIM and sensor strings follow their rules |
| Applications.VersionText | app/src/main/java/com/carlosnc/doctordroid/ui/components/applications/ApplicationsScreen.kt:239-243 | the version name, or "Unknown" when the lookup throws or gives none |
| Applications.AppSize | app/src/main/java/com/carlosnc/doctordroid/ui/components/applications/ApplicationsScreen.kt:245-255 | app + data + cache bytes on O and later when the query succeeds; otherwise the APK length |
| Applications.AppRows | app/src/main/java/com/carlosnc/doctordroid/ui/components/applications/ApplicationsScreen.kt:235-257 | one row per installed application, in the package manager's order |
| Applications.GetInstalledApps | app/src/main/java/com/carlosnc/doctordroid/ui/components/applications/ApplicationsScreen.kt:231-259 | the rows, permuted and sorted by name |
| Applications.ByNameInjective | app/src/main/java/com/carlosnc/doctordroid/ui/components/applications/ApplicationsScreen.kt:258 | the sort key identifies the name |
| Applications.InstalledAppsStable | app/src/main/java/com/carlosnc/doctordroid/ui/components/applications/ApplicationsScreen.kt:258 | rows with the same name keep the package manager's order |
| Applications.FilterApps | app/src/main/java/com/carlosnc/doctordroid/ui/components/applications/ApplicationsScreen.kt:75-78 | an application is kept iff its name or package name contains the query, ignoring case |
| Applications.FilterAppend | app/src/main/java/com/carlosnc/doctordroid/ui/components/applications/ApplicationsScreen.kt:75-78 | filtering distributes over concatenation, so it keeps the order |
| Applications.FilterEmptyQuery | app/src/main/java/com/carlosnc/doctordroid/ui/components/applications/ApplicationsScreen.kt:75-78 | the empty query keeps every application |
| Applications.FilterIdempotent | app/src/main/java/com/carlosnc/doctordroid/ui/components/applications/ApplicationsScreen.kt:75-78 | filtering twice with the same query changes nothing |
| Applications.ApplicationsScreen.constructor | app/src/main/java/com/carlosnc/doctordroid/ui/components/applications/ApplicationsScreen.kt:66-68 | the screen starts with no rows, an empty query and loading on |
| Applications.ApplicationsScreen.OnAppsLoaded | app/src/main/java/com/carlosnc/doctordroid/ui/components/applications/ApplicationsScreen.kt:70-73 | the sorted rows replace the list, and loading ends |
| Applications.ApplicationsScreen.OnQueryChange | app/src/main/java/com/carlosnc/doctordroid/ui/components/applications/ApplicationsScreen.kt:66-78 | typing sets the query only |
| Applications.ApplicationsScreen.FilteredApps | app/src/main/java/com/carlosnc/doctordroid/ui/components/applications/ApplicationsScreen.kt:75-78 | the rows shown are the loaded rows that match; all of them for an empty query |
| Camera.FacingText | app/src/main/java/com/carlosnc/doctordroid/ui/components/camera/CameraScreen.kt:213-218 | code 0 is shown as "Front", 1 as "Back", 2 as "External", each iff; "Unknown" iff the lens facing is absent or none of these |
| Camera.LargestIndex | app/src/main/java/com/carlosnc/doctordroid/ui/components/camera/CameraScreen.kt:222 | the first JPEG size whose `Int` area no other size exceeds |
| Camera.ResolutionText | app/src/main/java/com/carlosnc/doctordroid/ui/components/camera/CameraScreen.kt:220-224 | "W x H" of the largest size; "Unknown" when there are no sizes |
| Camera.FlashText | app/src/main/java/com/carlosnc/doctordroid/ui/components/camera/CameraScreen.kt:230 | "Supported" iff flash availability is reported true |
| Camera.AnyFullHd | app/src/main/java/com/carlosnc/doctordroid/ui/components/camera/CameraScreen.kt:235 | true iff some preview size is at least 1920 wide |
| Camera.VideoText | app/src/main/java/com/carlosnc/doctordroid/ui/components/camera/CameraScreen.kt:235-239 | "Full HD (1080p) supported" iff some preview size is at least 1920 wide; otherwise "Standard HD supported" |
| Camera.CameraDetails | app/src/main/java/com/carlosnc/doctordroid/ui/components/camera/CameraScreen.kt:209-257 | one row per camera, in id order, up to the first camera whose read throws |
| Camera.GetCameraDetails | app/src/main/java/com/carlosnc/doctordroid/ui/components/camera/CameraScreen.kt:205-258 | the loop keeps the rows built before an exception; a failed listing gives no rows |
| Camera.AllReadable | app/src/main/java/com/carlosnc/doctordroid/ui/components/camera/CameraScreen.kt:209-251 | with every camera readable, there is one row per camera id |

## Left out

- Floating point is modelled as exact real arithmetic, with Kotlin's infinities, NaN and saturating conversions but without rounding. A `Float` quotient that lands just below a whole number could round differently (`ui/components/battery/BatteryScreen.kt:247`, `modules/battery/BatteryUtils.kt:30`, `ui/components/cpu/CpuScreen.kt:291`, the touch-test cell sizes).
- `%.2f` and `%.1f` formatting is not modelled: the size amounts, megapixels and sensor size are kept as unrounded reals or left out (`ui/components/camera/CameraScreen.kt:225-233`).
- `Long` overflow in sums and differences is not modelled: PSS totals, application sizes and the CPU time sums and deltas are unbounded integers.
- Case mapping covers ASCII letters only.
- Name ordering compares Unicode characters; Kotlin compares UTF-16 code units. The two differ only for characters outside the Basic Multilingual Plane.
- `%d` is taken to print ASCII digits, whatever the default locale.
- Text.ParseLong: parsing accepts the ASCII digits '0' to '9' only, while `String.toLong` also accepts other Unicode decimal digits; `/proc/stat` and sysfs files hold ASCII text.
- Platform reads, clocks, `delay`, coroutines, the Choreographer and randomness become inputs and events: the battery broadcast, `StatFs`, the activity and package managers, the connectivity, Wi-Fi and telephony managers, `NetworkInterface`, the camera manager, `/proc/stat`, sysfs, `System.nanoTime` and `(30..70).random()`.
- A `SecurityException` in the Wi-Fi block is assumed to come only from reading the connection info.
- An exception while listing one interface's addresses is not modelled separately from failing to list the interfaces.
- The temperature sysfs loop and `getBatteryTemperature` (`modules/battery/BatteryUtils.kt:8-11`) are left out: they read files in a loop and only format the result.
- The service's notification channel, foreground start and window-manager layout parameters are left out; the window manager is reduced to whether the view is added.
- A second `onDestroy` call and `System.nanoTime` overflow are not modelled.
- Icons, drawables and every `@Composable` rendering detail beyond the touch grid are left out.
- Other screens are not modelled: audio, GPU, temperature, quick controls, device resume and the dashboard cards.
- FloatingMonitor.FloatingMonitorService.OnDrag: the overlay position is a plain pair of integers, not a `WindowManager.LayoutParams` update followed by `updateViewLayout`.

## Findings

| source | as written | input that shows it | evidently intended | confidence | as-written member | corrected member |
|---|---|---|---|---|---|---|
| app/src/main/java/com/carlosnc/doctordroid/ui/components/health/TouchTestOverlay.kt:40-43 | the drag handler divides the integer region size by the count, so its cell size is a whole number of pixels (108 for a 1085-pixel width), while the canvas draws cells of the fractional size (108.5) | width 1085, touch at x = 540: drawn column 4 spans 434 to 542.5, but the handler marks column 5 | mark the cell drawn under the finger, with the same fractional cell size the canvas uses | not executed | TouchTest.AsWrittenMarksNeighbour | TouchTest.CellIndexIsDrawnCell |
| app/src/main/java/com/carlosnc/doctordroid/services/FloatingMonitorService.kt:172-183 | the frame callback re-posts itself on every frame, and `onDestroy` (lines 214-223) never removes it, so it keeps counting after the service is destroyed | create, start the FPS effect, destroy, then one display frame: the frame is still counted | remove the frame callback in `onDestroy`, so that a destroyed service stops counting frames | not executed | FloatingMonitor.DestroyedServiceStillCounts | FloatingMonitor.DestroyedServiceStopsCounting |
