/**
 * The session hook `useELM327Connection` (src/hooks/useELM327Connection.ts): one session over
 * either the BLE transport or the WiFi transport, with its connection type, flags, current
 * device and last error. Calls into the two transport singletons are recorded in `calls`, and
 * what they answer is a parameter; React state is a class whose setters run in program order.
 */
module Elm327Connection {
  import opened Common
  import opened Text
  import BleTransport
  import WiFiTransport

  datatype Transport = Bluetooth | WiFi

  /** `ELM327Device`: a BLE device or the WiFi transport's device record. */
  datatype SessionDevice =
    | BleSession(ble: BleTransport.BleDevice)
    | WiFiSession(wifi: WiFiTransport.Device)

  /** A call into `elm327BLE` or `wifiELM327`. */
  datatype TransportCall =
    | BleInitialize
    | BleScan
    | BleConnect(deviceId: string)
    | BleDisconnect
    | BleSend(command: string)
    | BleStartNotifications
    | BleStopNotifications
    | WiFiConnect(ip: string, port: nat)
    | WiFiDisconnect
    | WiFiSend(command: string)
    | WiFiSetCallback
    | WiFiRemoveCallback

  const NotConnectedToAny: string := "Not connected to any device"
  const UnknownType: string := "Unknown connection type"

  /** `err.message || 'Unknown error'`. */
  function ErrorText(message: string): (t: string)
    ensures t != ""
    ensures message != "" ==> t == message
  {
    if message == "" then "Unknown error" else message
  }

  /** What a session's transports answer when `disconnect` asks them. */
  datatype DisconnectAnswers = DisconnectAnswers(bleConnected: bool, wifiConnected: bool, outcome: Status)

  /**
   * The transport call `disconnect` makes (src/hooks/useELM327Connection.ts:204-208): only the
   * session's own transport, and only when that transport reports itself connected.
   */
  function DisconnectCalls(connectionType: Option<Transport>, a: DisconnectAnswers): (r: seq<TransportCall>)
    ensures |r| <= 1
    ensures r == [BleDisconnect] <==> connectionType == Some(Bluetooth) && a.bleConnected
    ensures r == [WiFiDisconnect] <==> connectionType == Some(WiFi) && a.wifiConnected
  {
    if connectionType == Some(Bluetooth) && a.bleConnected then [BleDisconnect]
    else if connectionType == Some(WiFi) && a.wifiConnected then [WiFiDisconnect]
    else []
  }

  /** Whether `disconnect` resets the session: it does unless the transport call it made failed. */
  predicate DisconnectResets(connectionType: Option<Transport>, a: DisconnectAnswers) {
    DisconnectCalls(connectionType, a) == [] || a.outcome.Done?
  }

  /** Connected via Bluetooth: the BLE device's name, or its id when the name is missing or empty. */
  function BleLabel(d: BleTransport.BleDevice): string {
    if d.name.Some? && d.name.value != "" then d.name.value else d.deviceId
  }

  class ConnectionHook {
    var connectionType: Option<Transport>
    var isConnected: bool
    var isConnecting: bool
    var currentDevice: Option<SessionDevice>
    var error: Option<string>
    var scanResults: seq<BleTransport.BleDevice>
    var isScanning: bool
    /** Every call made into the two transports, oldest first. */
    var calls: seq<TransportCall>

    /**
     * The type, the flag and the device are set and cleared together, and the device is of the
     * session's transport.
     */
    ghost predicate Valid()
      reads this
    {
      && (isConnected <==> connectionType.Some?)
      && (connectionType.Some? <==> currentDevice.Some?)
      && (connectionType == Some(Bluetooth) ==> currentDevice.value.BleSession?)
      && (connectionType == Some(WiFi) ==> currentDevice.value.WiFiSession?)
    }

    constructor()
      ensures Valid()
      ensures connectionType.None? && !isConnected && !isConnecting && currentDevice.None?
      ensures error.None? && scanResults == [] && !isScanning && calls == []
    {
      connectionType := None;
      isConnected := false;
      isConnecting := false;
      currentDevice := None;
      error := None;
      scanResults := [];
      isScanning := false;
      calls := [];
    }

    /** The mount effect (src/hooks/useELM327Connection.ts:56-63): BLE is initialised on a native platform only. */
    method InitializeBle(native: bool, outcome: Status)
      modifies this`error, this`calls
      ensures !native ==> error == old(error) && calls == old(calls)
      ensures native ==> calls == old(calls) + [BleInitialize]
      ensures native && outcome.Failed? ==> error == Some("Failed to initialize Bluetooth: " + ErrorText(outcome.message))
      ensures native && outcome.Done? ==> error == old(error)
    {
      if native {
        calls := calls + [BleInitialize];
        if outcome.Failed? {
          error := Some("Failed to initialize Bluetooth: " + ErrorText(outcome.message));
        }
      }
    }

    /**
     * `scanForDevices` (src/hooks/useELM327Connection.ts:68-109): ignored while a scan runs;
     * otherwise the results are cleared, then replaced by what the BLE scan finds.
     */
    method ScanForDevices(scan: Result<seq<BleTransport.BleDevice>>)
      modifies this`isScanning, this`error, this`scanResults, this`calls
      ensures old(isScanning) ==> isScanning && error == old(error) && scanResults == old(scanResults) && calls == old(calls)
      ensures !old(isScanning) ==> !isScanning && calls == old(calls) + [BleScan]
      ensures !old(isScanning) && scan.Ok? ==> error.None? && scanResults == scan.value
      ensures !old(isScanning) && scan.Err? ==>
        error == Some("Failed to scan for devices: " + ErrorText(scan.message)) && scanResults == []
    {
      if isScanning {
        return;
      }
      isScanning := true;
      error := None;
      scanResults := [];
      calls := calls + [BleScan];
      if scan.Ok? {
        scanResults := scan.value;
      } else {
        error := Some("Failed to scan for devices: " + ErrorText(scan.message));
      }
      isScanning := false;
    }

    /**
     * `disconnect` (src/hooks/useELM327Connection.ts:202-228): the session's transport is asked
     * to disconnect only when it reports connected; then the session is reset. A failing
     * transport call records the error and leaves the session as it was.
     */
    method Disconnect(a: DisconnectAnswers)
      requires Valid()
      modifies this`connectionType, this`isConnected, this`currentDevice, this`error, this`calls
      ensures Valid()
      ensures calls == old(calls) + DisconnectCalls(old(connectionType), a)
      ensures DisconnectResets(old(connectionType), a) ==>
        connectionType.None? && !isConnected && currentDevice.None? && error == old(error)
      ensures !DisconnectResets(old(connectionType), a) ==>
        && connectionType == old(connectionType) && isConnected == old(isConnected)
        && currentDevice == old(currentDevice)
        && error == Some("Failed to disconnect: " + ErrorText(a.outcome.message))
    {
      var call := DisconnectCalls(connectionType, a);
      calls := calls + call;
      if call != [] && a.outcome.Failed? {
        error := Some("Failed to disconnect: " + ErrorText(a.outcome.message));
        return;
      }
      connectionType := None;
      isConnected := false;
      currentDevice := None;
    }

    /**
     * The part both connect paths share (src/hooks/useELM327Connection.ts:115-124, 159-168):
     * `isConnecting` is raised, the error cleared and an existing session disconnected.
     */
    method BeginConnect(a: DisconnectAnswers)
      requires Valid() && !isConnecting
      modifies this`connectionType, this`isConnected, this`isConnecting, this`currentDevice, this`error, this`calls
      ensures Valid() && isConnecting
      ensures old(isConnected) ==> calls == old(calls) + DisconnectCalls(old(connectionType), a)
      ensures !old(isConnected) ==> calls == old(calls)
      ensures old(isConnected) && !DisconnectResets(old(connectionType), a) ==>
        && connectionType == old(connectionType) && isConnected && currentDevice == old(currentDevice)
        && error == Some("Failed to disconnect: " + ErrorText(a.outcome.message))
      ensures !old(isConnected) || DisconnectResets(old(connectionType), a) ==>
        connectionType.None? && !isConnected && currentDevice.None? && error.None?
    {
      isConnecting := true;
      error := None;
      if isConnected {
        Disconnect(a);
      }
    }

    /**
     * `connectToBluetoothDevice` (src/hooks/useELM327Connection.ts:114-153): ignored while a
     * connect is under way. A successful BLE connect sets the type, the flag and the device
     * together; a failure records "Failed to connect: " and the message.
     */
    method ConnectToBluetoothDevice(device: BleTransport.BleDevice, a: DisconnectAnswers, link: Status)
      requires Valid()
      modifies this`connectionType, this`isConnected, this`isConnecting, this`currentDevice, this`error, this`calls
      ensures Valid()
      ensures old(isConnecting) ==>
        && isConnecting && connectionType == old(connectionType) && isConnected == old(isConnected)
        && currentDevice == old(currentDevice) && error == old(error) && calls == old(calls)
      ensures !old(isConnecting) ==> !isConnecting
      ensures !old(isConnecting) ==>
        calls == old(calls) + (if old(isConnected) then DisconnectCalls(old(connectionType), a) else [])
                 + [BleConnect(device.deviceId)]
      ensures !old(isConnecting) && link.Done? ==>
        connectionType == Some(Bluetooth) && isConnected && currentDevice == Some(BleSession(device))
      ensures !old(isConnecting) && link.Failed? ==>
        error == Some("Failed to connect: " + ErrorText(link.message))
      ensures !old(isConnecting) && link.Failed? && old(isConnected) && !DisconnectResets(old(connectionType), a) ==>
        connectionType == old(connectionType) && isConnected && currentDevice == old(currentDevice)
      ensures !old(isConnecting) && link.Failed? && (!old(isConnected) || DisconnectResets(old(connectionType), a)) ==>
        connectionType.None? && !isConnected && currentDevice.None?
    {
      if isConnecting {
        return;
      }
      BeginConnect(a);
      calls := calls + [BleConnect(device.deviceId)];
      if link.Failed? {
        error := Some("Failed to connect: " + ErrorText(link.message));
      } else {
        connectionType := Some(Bluetooth);
        isConnected := true;
        currentDevice := Some(BleSession(device));
      }
      isConnecting := false;
    }

    /**
     * `connectToWiFiDevice` (src/hooks/useELM327Connection.ts:158-197): as the Bluetooth path,
     * with the device the WiFi transport's `connect` resolves with.
     */
    method ConnectToWiFiDevice(ip: string, port: nat, a: DisconnectAnswers, link: Result<WiFiTransport.Device>)
      requires Valid()
      modifies this`connectionType, this`isConnected, this`isConnecting, this`currentDevice, this`error, this`calls
      ensures Valid()
      ensures old(isConnecting) ==>
        && isConnecting && connectionType == old(connectionType) && isConnected == old(isConnected)
        && currentDevice == old(currentDevice) && error == old(error) && calls == old(calls)
      ensures !old(isConnecting) ==> !isConnecting
      ensures !old(isConnecting) ==>
        calls == old(calls) + (if old(isConnected) then DisconnectCalls(old(connectionType), a) else [])
                 + [WiFiConnect(ip, port)]
      ensures !old(isConnecting) && link.Ok? ==>
        connectionType == Some(WiFi) && isConnected && currentDevice == Some(WiFiSession(link.value))
      ensures !old(isConnecting) && link.Err? ==>
        error == Some("Failed to connect: " + ErrorText(link.message))
      ensures !old(isConnecting) && link.Err? && old(isConnected) && !DisconnectResets(old(connectionType), a) ==>
        connectionType == old(connectionType) && isConnected && currentDevice == old(currentDevice)
      ensures !old(isConnecting) && link.Err? && (!old(isConnected) || DisconnectResets(old(connectionType), a)) ==>
        connectionType.None? && !isConnected && currentDevice.None?
    {
      if isConnecting {
        return;
      }
      BeginConnect(a);
      calls := calls + [WiFiConnect(ip, port)];
      if link.Err? {
        error := Some("Failed to connect: " + ErrorText(link.message));
      } else {
        connectionType := Some(WiFi);
        isConnected := true;
        currentDevice := Some(WiFiSession(link.value));
      }
      isConnecting := false;
    }

    /**
     * `sendCommand` (src/hooks/useELM327Connection.ts:233-251): refused when not connected;
     * otherwise routed to the session's transport, whose failure is recorded as "Command
     * failed: " and the message and passed on.
     */
    method SendCommand(command: string, answer: Reply) returns (r: Reply)
      modifies this`error, this`calls
      ensures !isConnected ==> r == Err(NotConnectedToAny) && error == old(error) && calls == old(calls)
      ensures isConnected && connectionType == Some(Bluetooth) ==> r == answer && calls == old(calls) + [BleSend(command)]
      ensures isConnected && connectionType == Some(WiFi) ==> r == answer && calls == old(calls) + [WiFiSend(command)]
      ensures isConnected && connectionType.None? ==> r == Err(UnknownType) && calls == old(calls)
      ensures isConnected && r.Err? ==> error == Some("Command failed: " + ErrorText(r.message))
      ensures isConnected && r.Ok? ==> error == old(error)
    {
      if !isConnected {
        return Err(NotConnectedToAny);
      }
      if connectionType == Some(Bluetooth) {
        calls := calls + [BleSend(command)];
        r := answer;
      } else if connectionType == Some(WiFi) {
        calls := calls + [WiFiSend(command)];
        r := answer;
      } else {
        r := Err(UnknownType);
      }
      if r.Err? {
        error := Some("Command failed: " + ErrorText(r.message));
      }
    }

    /**
     * `startMonitoring` (src/hooks/useELM327Connection.ts:256-272): BLE notifications are
     * started, or the WiFi transport's message callback is set.
     */
    method StartMonitoring(outcome: Status) returns (r: Status)
      modifies this`error, this`calls
      ensures !isConnected ==> r == Failed(NotConnectedToAny) && error == old(error) && calls == old(calls)
      ensures isConnected && connectionType == Some(Bluetooth) ==> r == outcome && calls == old(calls) + [BleStartNotifications]
      ensures isConnected && connectionType == Some(WiFi) ==> r == Done && calls == old(calls) + [WiFiSetCallback]
      ensures isConnected && connectionType.None? ==> r == Done && calls == old(calls)
      ensures isConnected && r.Failed? ==> error == Some("Failed to start monitoring: " + ErrorText(r.message))
      ensures r.Done? ==> error == old(error)
    {
      if !isConnected {
        return Failed(NotConnectedToAny);
      }
      r := Done;
      if connectionType == Some(Bluetooth) {
        calls := calls + [BleStartNotifications];
        r := outcome;
      } else if connectionType == Some(WiFi) {
        calls := calls + [WiFiSetCallback];
      }
      if r.Failed? {
        error := Some("Failed to start monitoring: " + ErrorText(r.message));
      }
    }

    /**
     * `stopMonitoring` (src/hooks/useELM327Connection.ts:277-289): only the session's transport,
     * and only when it reports connected.
     */
    method StopMonitoring(bleConnected: bool, wifiConnected: bool, outcome: Status) returns (r: Status)
      modifies this`error, this`calls
      ensures connectionType == Some(Bluetooth) && bleConnected ==>
        r == outcome && calls == old(calls) + [BleStopNotifications]
      ensures connectionType == Some(WiFi) && wifiConnected ==> r == Done && calls == old(calls) + [WiFiRemoveCallback]
      ensures !(connectionType == Some(Bluetooth) && bleConnected) && !(connectionType == Some(WiFi) && wifiConnected) ==>
        r == Done && calls == old(calls)
      ensures r.Failed? ==> error == Some("Failed to stop monitoring: " + ErrorText(r.message))
      ensures r.Done? ==> error == old(error)
    {
      r := Done;
      if connectionType == Some(Bluetooth) && bleConnected {
        calls := calls + [BleStopNotifications];
        r := outcome;
      } else if connectionType == Some(WiFi) && wifiConnected {
        calls := calls + [WiFiRemoveCallback];
      }
      if r.Failed? {
        error := Some("Failed to stop monitoring: " + ErrorText(r.message));
      }
    }

    /** `getConnectionStatusText` (src/hooks/useELM327Connection.ts:294-307). */
    function StatusText(): (t: string)
      requires Valid()
      reads this
      ensures isConnecting ==> t == "Connecting..."
      ensures !isConnecting && !isConnected ==> t == "Disconnected"
    {
      if isConnecting then "Connecting..."
      else if !isConnected then "Disconnected"
      else match currentDevice.value
        case BleSession(d) => "Connected via Bluetooth: " + BleLabel(d)
        case WiFiSession(d) => "Connected via WiFi: " + d.ipAddress + ":" + Decimal(d.port)
    }

    /**
     * A connected session's text names its transport and device: the BLE name or id, or the
     * WiFi address and port; the bare "Connected" fallback is never reached.
     */
    lemma StatusTextOfSession()
      requires Valid() && !isConnecting && isConnected
      ensures connectionType == Some(Bluetooth) ==>
        StatusText() == "Connected via Bluetooth: " + BleLabel(currentDevice.value.ble)
      ensures connectionType == Some(WiFi) ==>
        StatusText() == "Connected via WiFi: " + currentDevice.value.wifi.ipAddress + ":" + Decimal(currentDevice.value.wifi.port)
      ensures StatusText() != "Connected" && StatusText() != "Disconnected" && StatusText() != "Connecting..."
    {
      var t := StatusText();
      assert t[..9] == "Connected";
      assert t[9] == ' ';
    }
  }
}
