/** The main activity's control of the floating monitor: the `isMonitorActive`
    flag shown in the UI, the overlay-permission gate and the decision to
    start or stop the service. What the platform answers (the SDK level,
    whether overlays may be drawn, the running services) is a `Platform`
    value; what the activity asks of the platform is a log of requests. */
module MainActivity {

  const SDK_M: int := 23
  const SDK_O: int := 26

  /** The fully qualified class name of the floating monitor service. */
  const SERVICE_CLASS_NAME: string := "com.carlosnc.doctordroid.services.FloatingMonitorService"

  /** What the platform reports: the SDK level, `Settings.canDrawOverlays`
      and the class names of the running services, in the order the
      activity manager lists them. */
  datatype Platform = Platform(sdk: int, canDrawOverlays: bool, runningServices: seq<string>)

  /** The intents the activity sends. */
  datatype Request = StartForegroundService | StartService | StopService | LaunchOverlayPermission

  predicate IsStart(r: Request) { r == StartForegroundService || r == StartService }

  /** The service is running iff the registry lists its class name. */
  predicate Running(p: Platform)
  {
    exists i :: 0 <= i < |p.runningServices| && p.runningServices[i] == SERVICE_CLASS_NAME
  }

  /** The outcome of an action: the flag afterwards and the requests sent. */
  datatype Outcome = Outcome(active: bool, sent: seq<Request>)

  function StartOutcome(p: Platform): Outcome
  {
    Outcome(true, [if p.sdk >= SDK_O then StartForegroundService else StartService])
  }

  function StopOutcome(): Outcome
  {
    Outcome(false, [StopService])
  }

  /** `toggleFloatingMonitor`: decided by the registry, not by the flag. */
  function ToggleOutcome(p: Platform): Outcome
  {
    if Running(p) then StopOutcome() else StartOutcome(p)
  }

  /** `checkOverlayPermissionAndStart`. */
  function CheckPermissionOutcome(p: Platform, active: bool): Outcome
  {
    if p.sdk >= SDK_M && !p.canDrawOverlays then Outcome(active, [LaunchOverlayPermission])
    else ToggleOutcome(p)
  }

  /** The UI toggle: stop when the flag says active, else the permission check. */
  function ClickOutcome(p: Platform, active: bool): Outcome
  {
    if active then StopOutcome() else CheckPermissionOutcome(p, active)
  }

  /** The permission screen's result: toggle only if overlays are now allowed. */
  function PermissionResultOutcome(p: Platform, active: bool): Outcome
  {
    if p.sdk >= SDK_M && p.canDrawOverlays then ToggleOutcome(p) else Outcome(active, [])
  }

  /** A click sends exactly one request; the flag is set exactly when a start
      is requested and unchanged when the grant flow is launched; the grant
      flow is launched exactly when the monitor is off and overlays are not
      allowed on M or later; a start is requested exactly when the monitor is
      off, overlays are allowed (or the SDK predates M) and the registry
      does not list the service. */
  lemma ClickDecision(p: Platform, active: bool)
    ensures var o := ClickOutcome(p, active);
            |o.sent| == 1 &&
            (o.sent[0] == LaunchOverlayPermission <==> !active && p.sdk >= SDK_M && !p.canDrawOverlays) &&
            (o.sent[0] == LaunchOverlayPermission ==> o.active == active) &&
            (o.sent[0] != LaunchOverlayPermission ==> (o.active <==> IsStart(o.sent[0]))) &&
            (IsStart(o.sent[0]) <==> !active && (p.sdk < SDK_M || p.canDrawOverlays) && !Running(p)) &&
            (IsStart(o.sent[0]) ==> (o.sent[0] == StartForegroundService <==> p.sdk >= SDK_O))
  {
  }

  /** A click while the flag is off can still stop the service when the
      registry lists it: the decision is the registry's. */
  lemma ClickWhileOffStopsRunningService(p: Platform)
    requires p.sdk < SDK_M || p.canDrawOverlays
    requires Running(p)
    ensures ClickOutcome(p, false) == Outcome(false, [StopService])
  {
  }

  /** After the grant flow, nothing is sent unless overlays are now allowed;
      otherwise the result is the registry's toggle. */
  lemma PermissionResultDecision(p: Platform, active: bool)
    ensures var o := PermissionResultOutcome(p, active);
            (o.sent == [] <==> p.sdk < SDK_M || !p.canDrawOverlays) &&
            (o.sent == [] ==> o.active == active) &&
            (o.sent != [] ==> o.active == !Running(p) && |o.sent| == 1 && (IsStart(o.sent[0]) <==> !Running(p)))
  {
  }

  /** `isServiceRunning`: a scan of the running services that returns as soon
      as one has the class name. */
  method IsServiceRunning(runningServices: seq<string>, className: string) returns (found: bool)
    ensures found <==> exists i :: 0 <= i < |runningServices| && runningServices[i] == className
  {
    for i := 0 to |runningServices|
      invariant forall j :: 0 <= j < i ==> runningServices[j] != className
    {
      if runningServices[i] == className {
        return true;
      }
    }
    return false;
  }

  class MainActivity {
    var isMonitorActive: bool
    var requests: seq<Request>

    constructor ()
      ensures !isMonitorActive && requests == []
    {
      isMonitorActive := false;
      requests := [];
    }

    /** `onCreate`: the flag starts as the registry says. */
    method OnCreate(p: Platform)
      modifies this
      ensures isMonitorActive == Running(p) && requests == old(requests)
    {
      isMonitorActive := IsServiceRunning(p.runningServices, SERVICE_CLASS_NAME);
    }

    method OnToggleFloatingMonitor(p: Platform)
      modifies this
      ensures var o := ClickOutcome(p, old(isMonitorActive));
              isMonitorActive == o.active && requests == old(requests) + o.sent
    {
      if isMonitorActive {
        StopFloatingMonitor();
      } else {
        CheckOverlayPermissionAndStart(p);
      }
    }

    method OnOverlayPermissionResult(p: Platform)
      modifies this
      ensures var o := PermissionResultOutcome(p, old(isMonitorActive));
              isMonitorActive == o.active && requests == old(requests) + o.sent
    {
      if p.sdk >= SDK_M {
        if p.canDrawOverlays {
          ToggleFloatingMonitor(p);
        }
      }
    }

    method CheckOverlayPermissionAndStart(p: Platform)
      modifies this
      ensures var o := CheckPermissionOutcome(p, old(isMonitorActive));
              isMonitorActive == o.active && requests == old(requests) + o.sent
    {
      if p.sdk >= SDK_M {
        if !p.canDrawOverlays {
          requests := requests + [LaunchOverlayPermission];
        } else {
          ToggleFloatingMonitor(p);
        }
      } else {
        ToggleFloatingMonitor(p);
      }
    }

    method ToggleFloatingMonitor(p: Platform)
      modifies this
      ensures var o := ToggleOutcome(p);
              isMonitorActive == o.active && requests == old(requests) + o.sent
    {
      var running := IsServiceRunning(p.runningServices, SERVICE_CLASS_NAME);
      if running {
        StopFloatingMonitor();
      } else {
        StartFloatingMonitor(p);
      }
    }

    method StartFloatingMonitor(p: Platform)
      modifies this
      ensures isMonitorActive
      ensures requests == old(requests) + StartOutcome(p).sent
    {
      if p.sdk >= SDK_O {
        requests := requests + [StartForegroundService];
      } else {
        requests := requests + [StartService];
      }
      isMonitorActive := true;
    }

    method StopFloatingMonitor()
      modifies this
      ensures !isMonitorActive
      ensures requests == old(requests) + [StopService]
    {
      requests := requests + [StopService];
      isMonitorActive := false;
    }
  }
}
