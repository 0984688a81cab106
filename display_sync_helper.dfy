/** `DisplaySyncHelper`: pushes a "SYNC" or "FORCE" command to the parking display.
    It scans for the display's service, connects, discovers the command
    characteristic, writes the command and closes the connection, reporting
    progress through a callback. The Bluetooth stack's answers are method
    parameters; the calls made into it and the callback's reports are kept as
    two logs. A runnable posted to the main looper is recorded when it is posted. */
module DisplaySync {
  import opened JavaLang

  const CmdSync := "SYNC"
  const CmdForce := "FORCE"

  /** What the callback is told. */
  datatype Report = Status(text: string) | Success | Error(text: string)

  /** The Bluetooth calls the helper attempts, in order. */
  datatype BleCall = ScanStarted | ScanStopped | GattConnect | ServiceDiscovery | CommandWrite(command: string) | GattClose

  /** What `connectGatt` does: return a connection, return null, or throw a
      `SecurityException`. */
  datatype ConnectResult = Connected | ConnectedNull | ConnectDenied

  /** `BluetoothProfile` connection states the callback distinguishes. */
  datatype LinkState = LinkConnected | LinkDisconnected | LinkOther

  /** How `onServicesDiscovered` finds the display: discovery failed, the display
      service or its command characteristic is missing, or both are there and the
      write is attempted (it may throw a `SecurityException`). */
  datatype Discovery = DiscoveryFailed | NoService | NoCharacteristic | Found(writePermitted: bool)

  /** The helper's fields: whether each handle is non-null, the scanning flag, the
      pending command, how many scan timeouts are posted and have not fired, and
      the two logs. */
  datatype HelperState = HelperState(
    adapterPresent: bool,
    scannerPresent: bool,
    gattOpen: bool,
    hasCallback: bool,
    isScanning: bool,
    pendingCommand: Option<string>,
    timeoutsPending: nat,
    reports: seq<Report>,
    calls: seq<BleCall>)

  /** The command `syncDisplay` will send. */
  function CommandFor(force: bool): (c: string)
    ensures c == CmdForce <==> force
    ensures c == CmdSync <==> !force
  {
    if force then CmdForce else CmdSync
  }

  /** The helper just constructed. */
  function Initial(adapterPresent: bool): (s: HelperState)
    ensures s.adapterPresent == adapterPresent
    ensures !s.scannerPresent && !s.gattOpen && !s.hasCallback && !s.isScanning
    ensures s.pendingCommand.None? && s.timeoutsPending == 0 && s.reports == [] && s.calls == []
  {
    HelperState(adapterPresent, false, false, false, false, None, 0, [], [])
  }

  /** A report as delivered: only when a callback is registered. */
  function Notify(s: HelperState, r: Report): (t: HelperState)
    ensures t == s.(reports := if s.hasCallback then s.reports + [r] else s.reports)
  {
    if s.hasCallback then s.(reports := s.reports + [r]) else s
  }

  /** `syncDisplay(force, callback)`: register the callback and command; report an
      error when the adapter is missing or off, or when there is no scanner;
      otherwise report the scan and start it. `startScan` raises the scanning flag
      before the platform call, so a refused scan leaves it raised and posts no
      timeout. */
  function AfterSyncDisplay(s: HelperState, force: bool, adapterEnabled: bool,
                            scannerAvailable: bool, scanPermitted: bool): (t: HelperState)
    ensures t.hasCallback && t.pendingCommand == Some(CommandFor(force)) && t.gattOpen == s.gattOpen
    ensures var ready := s.adapterPresent && adapterEnabled && scannerAvailable;
      && t.calls == s.calls + (if ready then [ScanStarted] else [])
      && t.timeoutsPending == s.timeoutsPending + (if ready && scanPermitted then 1 else 0)
      && (t.isScanning <==> s.isScanning || ready)
      && |t.reports| == |s.reports| + (if ready && !scanPermitted then 2 else 1)
  {
    var s1 := s.(hasCallback := true, pendingCommand := Some(CommandFor(force)));
    if !s1.adapterPresent || !adapterEnabled then
      s1.(reports := s1.reports + [Error("Bluetooth not available")])
    else
      var s2 := s1.(scannerPresent := scannerAvailable);
      if !scannerAvailable then
        s2.(reports := s2.reports + [Error("BLE scanner not available")])
      else
        var s3 := s2.(reports := s2.reports + [Status("Scanning for display...")],
                      isScanning := true, calls := s2.calls + [ScanStarted]);
        if scanPermitted then s3.(timeoutsPending := s3.timeoutsPending + 1)
        else s3.(reports := s3.reports + [Error("Bluetooth permission denied")])
  }

  /** `stopScan`: the platform stop is attempted only while scanning with a scanner,
      and then the flag drops. */
  function AfterStopScan(s: HelperState): (t: HelperState)
    ensures t.isScanning <==> s.isScanning && !s.scannerPresent
    ensures t.calls == s.calls + (if s.isScanning && s.scannerPresent then [ScanStopped] else [])
    ensures t.reports == s.reports && t.gattOpen == s.gattOpen && t.timeoutsPending == s.timeoutsPending
  {
    if s.isScanning && s.scannerPresent then s.(isScanning := false, calls := s.calls + [ScanStopped])
    else s
  }

  /** The posted timeout firing: if the scan is still running, stop it and report
      that the display was not found; otherwise do nothing. */
  function AfterTimeout(s: HelperState): (t: HelperState)
    requires s.timeoutsPending > 0
    ensures t.timeoutsPending == s.timeoutsPending - 1 && t.gattOpen == s.gattOpen
    ensures t.isScanning <==> s.isScanning && !s.scannerPresent
  {
    var s1 := s.(timeoutsPending := s.timeoutsPending - 1);
    if s1.isScanning then Notify(AfterStopScan(s1), Error("Display not found")) else s1
  }

  /** `onScanResult`: stop scanning, report, connect. A refused connection keeps the
      old connection handle. */
  function AfterScanResult(s: HelperState, connect: ConnectResult): (t: HelperState)
    ensures t.gattOpen <==> connect == Connected || (connect == ConnectDenied && s.gattOpen)
    ensures s.scannerPresent ==> !t.isScanning
    ensures |t.calls| > 0 && t.calls[|t.calls| - 1] == GattConnect
    ensures |t.reports| == |s.reports| + (if !s.hasCallback then 0 else if connect == ConnectDenied then 2 else 1)
  {
    var s1 := Notify(AfterStopScan(s), Status("Connecting to display..."));
    var s2 := s1.(calls := s1.calls + [GattConnect]);
    match connect
    case Connected => s2.(gattOpen := true)
    case ConnectedNull => s2.(gattOpen := false)
    case ConnectDenied => Notify(s2, Error("Connection permission denied"))
  }

  /** `onScanFailed`: the flag drops without a platform stop, and the failure is reported. */
  function AfterScanFailed(s: HelperState): (t: HelperState)
    ensures !t.isScanning && t.calls == s.calls && t.gattOpen == s.gattOpen
    ensures t.reports == s.reports + (if s.hasCallback then [Error("Scan failed")] else [])
  {
    Notify(s.(isScanning := false), Error("Scan failed"))
  }

  /** `cleanup`: close the connection if there is one and forget it. */
  function AfterCleanup(s: HelperState): (t: HelperState)
    ensures !t.gattOpen && t.reports == s.reports && t.isScanning == s.isScanning
    ensures t.calls == s.calls + (if s.gattOpen then [GattClose] else [])
  {
    if s.gattOpen then s.(gattOpen := false, calls := s.calls + [GattClose]) else s
  }

  /** `onConnectionStateChange`: on connect, report and discover services; on
      disconnect, clean up; other states are only logged. */
  function AfterLinkChange(s: HelperState, state: LinkState): (t: HelperState)
    ensures state == LinkOther ==> t == s
    ensures state == LinkDisconnected ==> !t.gattOpen && t.reports == s.reports
    ensures state == LinkConnected ==> t.calls == s.calls + [ServiceDiscovery] && t.gattOpen == s.gattOpen
  {
    match state
    case LinkConnected =>
      var s1 := Notify(s, Status("Connected, sending command..."));
      s1.(calls := s1.calls + [ServiceDiscovery])
    case LinkDisconnected => AfterCleanup(s)
    case LinkOther => s
  }

  /** `onServicesDiscovered` and `sendCommand`: write the pending command when the
      characteristic is there; otherwise report which step failed and clean up. */
  function AfterServicesDiscovered(s: HelperState, d: Discovery): (t: HelperState)
    requires s.pendingCommand.Some?
    ensures t.calls == s.calls + (if d.Found? then [CommandWrite(s.pendingCommand.value)] else [])
                               + (if d != Found(true) && s.gattOpen then [GattClose] else [])
    ensures d == Found(true) ==> t.reports == s.reports && t.gattOpen == s.gattOpen
    ensures d != Found(true) ==> !t.gattOpen && |t.reports| == |s.reports| + (if s.hasCallback then 1 else 0)
  {
    match d
    case DiscoveryFailed => AfterCleanup(Notify(s, Error("Service discovery failed")))
    case NoService => AfterCleanup(Notify(s, Error("Display service not found")))
    case NoCharacteristic => AfterCleanup(Notify(s, Error("Command characteristic not found")))
    case Found(writePermitted) =>
      var s1 := s.(calls := s.calls + [CommandWrite(s.pendingCommand.value)]);
      if writePermitted then s1 else AfterCleanup(Notify(s1, Error("Write permission denied")))
  }

  /** `onCharacteristicWrite`: report the outcome, then clean up in either case. */
  function AfterCharacteristicWrite(s: HelperState, success: bool): (t: HelperState)
    ensures !t.gattOpen
    ensures t.reports == s.reports + (if !s.hasCallback then [] else if success then [Success] else [Error("Command failed")])
  {
    AfterCleanup(Notify(s, if success then Success else Error("Command failed")))
  }

  /** `cancel`. */
  function AfterCancel(s: HelperState): (t: HelperState)
    ensures !t.gattOpen && t.reports == s.reports
    ensures t.isScanning <==> s.isScanning && !s.scannerPresent
  {
    AfterCleanup(AfterStopScan(s))
  }

  // ---------------------------------------------------------------- properties

  /** The helper's invariant: a callback is registered exactly when a command is
      pending (both are set together by `syncDisplay` and never cleared). */
  predicate Consistent(s: HelperState) {
    s.hasCallback <==> s.pendingCommand.Some?
  }

  /** Without an enabled adapter, or without a scanner, `syncDisplay` reports one
      error and starts nothing. */
  lemma UnavailableStartsNoScan(s: HelperState, force: bool, adapterEnabled: bool,
                                scannerAvailable: bool, scanPermitted: bool)
    requires !s.adapterPresent || !adapterEnabled || !scannerAvailable
    ensures var t := AfterSyncDisplay(s, force, adapterEnabled, scannerAvailable, scanPermitted);
      && t.calls == s.calls && t.isScanning == s.isScanning && t.timeoutsPending == s.timeoutsPending
      && t.reports == s.reports + [Error(if !s.adapterPresent || !adapterEnabled then "Bluetooth not available"
                                         else "BLE scanner not available")]
      && t.pendingCommand == Some(CommandFor(force))
  {
  }

  /** A refused scan reports the denial, leaves the scanning flag raised and posts
      no timeout, so nothing will ever report "Display not found" for it. */
  lemma RefusedScanStaysScanning(s: HelperState, force: bool)
    requires s.adapterPresent
    ensures var t := AfterSyncDisplay(s, force, true, true, false);
      && t.isScanning && t.timeoutsPending == s.timeoutsPending
      && t.reports == s.reports + [Status("Scanning for display..."), Error("Bluetooth permission denied")]
  {
  }

  /** `stopScan` is idempotent, and it leaves the flag down whenever a scanner is known. */
  lemma StopScanIdempotent(s: HelperState)
    ensures AfterStopScan(AfterStopScan(s)) == AfterStopScan(s)
    ensures s.scannerPresent ==> !AfterStopScan(s).isScanning
    ensures ScanStopped in AfterStopScan(s).calls[|s.calls|..] <==> s.isScanning && s.scannerPresent
  {
  }

  /** The timeout reports "Display not found" exactly when the scan was still running
      (and a callback is registered); it never touches the connection. */
  lemma TimeoutReportsIffScanning(s: HelperState)
    requires s.timeoutsPending > 0
    ensures var t := AfterTimeout(s);
      && t.reports == s.reports + (if s.isScanning && s.hasCallback then [Error("Display not found")] else [])
      && t.gattOpen == s.gattOpen
  {
  }

  /** A scan result stops a scan that has a scanner, so a timeout that fires after
      it is silent. */
  lemma {:induction false} TimeoutAfterResultIsSilent(s: HelperState, c: ConnectResult)
    requires s.timeoutsPending > 0 && s.scannerPresent
    ensures AfterTimeout(AfterScanResult(s, c)).reports == AfterScanResult(s, c).reports
  {
    StopScanIdempotent(s);
  }

  /** Each discovery problem reports exactly one error and closes the connection. */
  lemma DiscoveryProblemsReportAndClean(s: HelperState, d: Discovery)
    requires Consistent(s) && s.hasCallback
    requires !d.Found? || !d.writePermitted
    ensures var t := AfterServicesDiscovered(s, d);
      && |t.reports| == |s.reports| + 1 && t.reports[|s.reports|].Error?
      && !t.gattOpen
  {
  }

  /** The write's completion reports success exactly when it succeeded, exactly
      once, and always leaves no connection. */
  lemma WriteCompletion(s: HelperState, success: bool)
    requires s.hasCallback
    ensures var t := AfterCharacteristicWrite(s, success);
      && |t.reports| == |s.reports| + 1
      && (t.reports[|s.reports|] == Success <==> success)
      && !t.gattOpen && (GattClose in t.calls[|s.calls|..] <==> s.gattOpen)
  {
  }

  /** `cleanup` and `cancel` are idempotent. */
  lemma CleanupAndCancelIdempotent(s: HelperState)
    ensures AfterCleanup(AfterCleanup(s)) == AfterCleanup(s)
    ensures AfterCancel(AfterCancel(s)) == AfterCancel(s)
    ensures !AfterCancel(s).gattOpen
  {
  }

  /** A whole successful push from a fresh helper: the reports and platform calls in
      order, the command written, nothing left open, and the scan timeout that fires
      afterwards stays silent. */
  lemma {:induction false} SuccessfulPush(force: bool)
    ensures var s1 := AfterSyncDisplay(Initial(true), force, true, true, true);
      var s2 := AfterScanResult(s1, Connected);
      var s3 := AfterLinkChange(s2, LinkConnected);
      var s4 := AfterServicesDiscovered(s3, Found(true));
      var s5 := AfterCharacteristicWrite(s4, true);
      && s5.timeoutsPending == 1
      && AfterTimeout(s5).reports == s5.reports
      && s5.reports == [Status("Scanning for display..."), Status("Connecting to display..."),
                        Status("Connected, sending command..."), Success]
      && s5.calls == [ScanStarted, ScanStopped, GattConnect, ServiceDiscovery, CommandWrite(CommandFor(force)), GattClose]
      && !s5.gattOpen && !s5.isScanning
  {
    var s1 := AfterSyncDisplay(Initial(true), force, true, true, true);
    assert s1.isScanning && s1.scannerPresent && s1.hasCallback;
    assert s1.reports == [Status("Scanning for display...")] && s1.calls == [ScanStarted];
    var s2 := AfterScanResult(s1, Connected);
    assert s2.reports == s1.reports + [Status("Connecting to display...")];
    assert s2.calls == [ScanStarted, ScanStopped, GattConnect] && s2.gattOpen && !s2.isScanning;
    var s3 := AfterLinkChange(s2, LinkConnected);
    var s4 := AfterServicesDiscovered(s3, Found(true));
    assert s4.calls == s3.calls + [CommandWrite(CommandFor(force))];
    var s5 := AfterCharacteristicWrite(s4, true);
    assert s5.calls == s4.calls + [GattClose];
  }

  // ---------------------------------------------------------------- the object

  class DisplaySyncHelper {
    var adapterPresent: bool
    var scannerPresent: bool
    var gattOpen: bool
    var hasCallback: bool
    var isScanning: bool
    var pendingCommand: Option<string>
    var timeoutsPending: nat
    var reports: seq<Report>
    var calls: seq<BleCall>

    /** The fields as one value. */
    function State(): HelperState
      reads this
    {
      HelperState(adapterPresent, scannerPresent, gattOpen, hasCallback, isScanning,
                  pendingCommand, timeoutsPending, reports, calls)
    }

    predicate Valid()
      reads this
    {
      Consistent(State())
    }

    /** The constructor: looks the adapter up and holds nothing else. */
    constructor (adapterPresent: bool)
      ensures Valid() && State() == Initial(adapterPresent)
    {
      this.adapterPresent := adapterPresent;
      scannerPresent, gattOpen, hasCallback, isScanning := false, false, false, false;
      pendingCommand, timeoutsPending := None, 0;
      reports, calls := [], [];
    }

    /** A report posted to the callback, if there is one. */
    method Deliver(r: Report)
      modifies this
      ensures State() == Notify(old(State()), r)
    {
      if hasCallback {
        reports := reports + [r];
      }
    }

    method SyncDisplay(force: bool, adapterEnabled: bool, scannerAvailable: bool, scanPermitted: bool)
      requires Valid()
      modifies this
      ensures Valid()
      ensures State() == AfterSyncDisplay(old(State()), force, adapterEnabled, scannerAvailable, scanPermitted)
    {
      hasCallback := true;
      pendingCommand := Some(CommandFor(force));
      if !adapterPresent || !adapterEnabled {
        reports := reports + [Error("Bluetooth not available")];
        return;
      }
      scannerPresent := scannerAvailable;
      if !scannerPresent {
        reports := reports + [Error("BLE scanner not available")];
        return;
      }
      reports := reports + [Status("Scanning for display...")];
      StartScan(scanPermitted);
    }

    method StartScan(scanPermitted: bool)
      modifies this
      ensures State() == old(State()).(isScanning := true, calls := old(calls) + [ScanStarted],
                                       timeoutsPending := old(timeoutsPending) + (if scanPermitted then 1 else 0),
                                       reports := old(reports) + (if scanPermitted then [] else [Error("Bluetooth permission denied")]))
    {
      isScanning := true;
      calls := calls + [ScanStarted];
      if scanPermitted {
        timeoutsPending := timeoutsPending + 1;
      } else {
        reports := reports + [Error("Bluetooth permission denied")];
      }
    }

    method StopScan()
      modifies this
      ensures State() == AfterStopScan(old(State()))
    {
      if isScanning && scannerPresent {
        calls := calls + [ScanStopped];
        isScanning := false;
      }
    }

    method OnScanTimeout()
      requires Valid() && timeoutsPending > 0
      modifies this
      ensures Valid()
      ensures State() == AfterTimeout(old(State()))
    {
      timeoutsPending := timeoutsPending - 1;
      if isScanning {
        StopScan();
        Deliver(Error("Display not found"));
      }
    }

    method OnScanResult(connect: ConnectResult)
      requires Valid()
      modifies this
      ensures Valid()
      ensures State() == AfterScanResult(old(State()), connect)
    {
      StopScan();
      Deliver(Status("Connecting to display..."));
      calls := calls + [GattConnect];
      match connect
      case Connected => gattOpen := true;
      case ConnectedNull => gattOpen := false;
      case ConnectDenied => Deliver(Error("Connection permission denied"));
    }

    method OnScanFailed()
      requires Valid()
      modifies this
      ensures Valid()
      ensures State() == AfterScanFailed(old(State()))
    {
      isScanning := false;
      Deliver(Error("Scan failed"));
    }

    method OnConnectionStateChange(state: LinkState)
      requires Valid()
      modifies this
      ensures Valid()
      ensures State() == AfterLinkChange(old(State()), state)
    {
      match state
      case LinkConnected =>
        Deliver(Status("Connected, sending command..."));
        calls := calls + [ServiceDiscovery];
      case LinkDisconnected => Cleanup();
      case LinkOther =>
    }

    /** Discovery follows a connection that `syncDisplay` started, so a callback is
        registered and, by `Valid()`, a command is pending. */
    method OnServicesDiscovered(d: Discovery)
      requires Valid() && hasCallback
      modifies this
      ensures Valid()
      ensures State() == AfterServicesDiscovered(old(State()), d)
    {
      match d
      case DiscoveryFailed =>
        Deliver(Error("Service discovery failed"));
        Cleanup();
      case NoService =>
        Deliver(Error("Display service not found"));
        Cleanup();
      case NoCharacteristic =>
        Deliver(Error("Command characteristic not found"));
        Cleanup();
      case Found(writePermitted) =>
        SendCommand(writePermitted);
    }

    method SendCommand(writePermitted: bool)
      requires Valid() && hasCallback
      modifies this
      ensures Valid()
      ensures State() == AfterServicesDiscovered(old(State()), Found(writePermitted))
    {
      calls := calls + [CommandWrite(pendingCommand.value)];
      if !writePermitted {
        Deliver(Error("Write permission denied"));
        Cleanup();
      }
    }

    method OnCharacteristicWrite(success: bool)
      requires Valid()
      modifies this
      ensures Valid()
      ensures State() == AfterCharacteristicWrite(old(State()), success)
    {
      if success {
        Deliver(Success);
      } else {
        Deliver(Error("Command failed"));
      }
      Cleanup();
    }

    method Cleanup()
      modifies this
      ensures State() == AfterCleanup(old(State()))
    {
      if gattOpen {
        calls := calls + [GattClose];
        gattOpen := false;
      }
    }

    method Cancel()
      requires Valid()
      modifies this
      ensures Valid()
      ensures State() == AfterCancel(old(State()))
    {
      StopScan();
      Cleanup();
    }
  }
}
