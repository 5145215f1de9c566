/**
 * The device registry hook `useELM327` (src/hooks/useELM327.ts): a list of known adapters kept
 * free of duplicate ids, the manual WiFi entry with its `wifi-<ip>:<port>` id, the connect and
 * disconnect state updates, and the default configuration. Browser Bluetooth calls are inputs;
 * React state is a class whose setters run in program order.
 */
module Elm327Devices {
  import opened Common
  import opened Text

  datatype DeviceType = Bluetooth | WiFi

  /** `ELM327Device`; `lastConnected` is a clock reading. */
  datatype Device = Device(id: string, name: string, kind: DeviceType, connected: bool, lastConnected: Option<int>)

  datatype Config = Config(autoConnect: bool, connectionTimeout: int, retryAttempts: int, preferredDevice: Option<string>)

  /** The configuration the hook starts with (src/hooks/useELM327.ts:25-29). */
  const DefaultConfig: Config := Config(true, 10000, 3, None)

  /** The default port of `addWiFiDevice`. */
  const DefaultWiFiPort: nat := 35000

  /** What the Bluetooth path writes to the characteristic, in order (src/hooks/useELM327.ts:140-145). */
  const BtInitCommands: seq<string> := ["ATZ\r", "ATE0\r", "ATL0\r", "ATS0\r", "ATSP0\r"]

  // ---------------------------------------------------------------- the device list

  /** `devices.find(d => d.id === id)`: the first entry with that id. */
  function Find(devices: seq<Device>, id: string): (r: Option<Device>)
    decreases |devices|
  {
    if devices == [] then None
    else if devices[0].id == id then Some(devices[0])
    else Find(devices[1..], id)
  }

  /** `find` answers with an entry carrying the id exactly when the list has one. */
  lemma {:induction false} FindFacts(devices: seq<Device>, id: string)
    ensures Find(devices, id).Some? <==> exists i :: 0 <= i < |devices| && devices[i].id == id
    ensures Find(devices, id).Some? ==> Find(devices, id).value in devices && Find(devices, id).value.id == id
    decreases |devices|
  {
    if devices != [] {
      FindFacts(devices[1..], id);
      if devices[0].id != id && Find(devices[1..], id).None? {
        forall i | 0 <= i < |devices|
          ensures devices[i].id != id
        {
          if i > 0 {
            assert devices[i] == devices[1..][i - 1];
          }
        }
      }
      if Find(devices[1..], id).Some? {
        var j :| 0 <= j < |devices[1..]| && devices[1..][j].id == id;
        assert devices[j + 1].id == id;
      }
    }
  }

  predicate UniqueIds(devices: seq<Device>) {
    forall i, j :: 0 <= i < j < |devices| ==> devices[i].id != devices[j].id
  }

  /** The list update of the scan and of `addWiFiDevice` (src/hooks/useELM327.ts:67-71, 101-105). */
  function AddUnique(devices: seq<Device>, d: Device): (r: seq<Device>)
    ensures |devices| <= |r| <= |devices| + 1 && r[..|devices|] == devices
    ensures |r| == |devices| + 1 ==> r[|devices|] == d
  {
    if Find(devices, d.id).Some? then devices else devices + [d]
  }

  /**
   * Adding keeps the list when the id is already known and appends otherwise; either way the
   * id is then known exactly once if ids were unique before.
   */
  lemma AddUniqueFacts(devices: seq<Device>, d: Device)
    ensures var r := AddUnique(devices, d);
      && ((exists i :: 0 <= i < |devices| && devices[i].id == d.id) ==> r == devices)
      && ((forall i :: 0 <= i < |devices| ==> devices[i].id != d.id) ==> r == devices + [d])
      && (exists i :: 0 <= i < |r| && r[i].id == d.id)
      && (UniqueIds(devices) ==> UniqueIds(r))
  {
    FindFacts(devices, d.id);
    var r := AddUnique(devices, d);
    if Find(devices, d.id).None? {
      assert r[|devices|] == d;
    }
  }

  /** The entry for `id` marked connected at `now`; the others as they were. */
  function MarkConnected(devices: seq<Device>, id: string, now: int): (r: seq<Device>)
    ensures |r| == |devices|
  {
    seq(|devices|, i requires 0 <= i < |devices| =>
      if devices[i].id == id then devices[i].(connected := true, lastConnected := Some(now)) else devices[i])
  }

  /** The entry for `id` marked disconnected; the others as they were. */
  function MarkDisconnected(devices: seq<Device>, id: string): (r: seq<Device>)
    ensures |r| == |devices|
  {
    seq(|devices|, i requires 0 <= i < |devices| =>
      if devices[i].id == id then devices[i].(connected := false) else devices[i])
  }

  /**
   * A successful connect changes only the entries with the device's id, which become connected
   * with `lastConnected` set; entries of other devices, connected or not, are untouched, and
   * the ids stay where they were.
   */
  lemma MarkConnectedFacts(devices: seq<Device>, id: string, now: int)
    ensures var r := MarkConnected(devices, id, now);
      && (forall i :: 0 <= i < |r| ==> r[i].id == devices[i].id && r[i].name == devices[i].name && r[i].kind == devices[i].kind)
      && (forall i :: 0 <= i < |r| && devices[i].id != id ==> r[i] == devices[i])
      && (forall i :: 0 <= i < |r| && devices[i].id == id ==> r[i].connected && r[i].lastConnected == Some(now))
      && (UniqueIds(devices) ==> UniqueIds(r))
  {
  }

  /** Disconnecting clears only the flag of the entries with that id. */
  lemma MarkDisconnectedFacts(devices: seq<Device>, id: string)
    ensures var r := MarkDisconnected(devices, id);
      && (forall i :: 0 <= i < |r| ==> r[i].id == devices[i].id && r[i].lastConnected == devices[i].lastConnected)
      && (forall i :: 0 <= i < |r| && devices[i].id != id ==> r[i] == devices[i])
      && (forall i :: 0 <= i < |r| && devices[i].id == id ==> !r[i].connected)
      && (UniqueIds(devices) ==> UniqueIds(r))
  {
  }

  // ---------------------------------------------------------------- the WiFi id

  /** The entry `addWiFiDevice(ip, port)` builds (src/hooks/useELM327.ts:94-99). */
  function WiFiDevice(ip: string, port: nat): (d: Device)
    ensures d.kind == WiFi && !d.connected && d.lastConnected.None?
    ensures StartsWith(d.id, "wifi-") && EndsWith(d.id, Decimal(port))
  {
    Device("wifi-" + ip + ":" + Decimal(port), "ELM327 WiFi (" + ip + ")", WiFi, false, None)
  }

  /**
   * `const [ip, port] = device.id.replace('wifi-', '').split(':')`
   * (src/hooks/useELM327.ts:160); the port is missing when there is no ':'.
   */
  function ParseWiFiId(id: string): (r: (string, Option<string>))
    ensures ':' !in r.0 && (r.1.Some? ==> ':' !in r.1.value)
    ensures r.1.None? ==> r.0 == ReplaceFirst(id, "wifi-", "")
  {
    var rest := ReplaceFirst(id, "wifi-", "");
    var parts := Split(rest, ':');
    JoinSplit(rest, ':');
    (parts[0], if |parts| > 1 then Some(parts[1]) else None)
  }

  /**
   * For an address without ':', parsing the WiFi id gives back the address and the port's
   * decimal text, which reads back as the port.
   */
  lemma {:induction false} WiFiIdRoundTrip(ip: string, port: nat)
    requires ':' !in ip
    ensures ParseWiFiId(WiFiDevice(ip, port).id) == (ip, Some(Decimal(port)))
    ensures AllDigits(Decimal(port)) && DecimalValue(Decimal(port)) == port
  {
    var p := Decimal(port);
    DecimalFacts(port);
    var id := WiFiDevice(ip, port).id;
    assert StartsWith(id, "wifi-") && id[5..] == ip + [':'] + p;
    assert ReplaceFirst(id, "wifi-", "") == ip + [':'] + p;
    assert ':' !in p;
    SplitAfterPiece(ip, ':', p);
    SplitNoSeparator(p, ':');
  }

  /** Different addresses or ports get different ids, so the WiFi entries never collapse. */
  lemma WiFiIdsDistinct(ip1: string, port1: nat, ip2: string, port2: nat)
    requires ':' !in ip1 && ':' !in ip2
    requires WiFiDevice(ip1, port1).id == WiFiDevice(ip2, port2).id
    ensures ip1 == ip2 && port1 == port2
  {
    WiFiIdRoundTrip(ip1, port1);
    WiFiIdRoundTrip(ip2, port2);
  }

  // ---------------------------------------------------------------- auto-connect

  /**
   * The device the auto-connect effect (src/hooks/useELM327.ts:217-224) connects to: with
   * auto-connect on, a non-empty preferred id and no connection, the listed entry with that id
   * unless it is already marked connected.
   */
  function AutoConnectTarget(config: Config, devices: seq<Device>, isConnected: bool): (r: Option<Device>)
    ensures r.Some? ==> config.autoConnect && !isConnected && config.preferredDevice.Some?
  {
    if config.autoConnect && config.preferredDevice.Some? && config.preferredDevice.value != "" && !isConnected then
      var found := Find(devices, config.preferredDevice.value);
      if found.Some? && !found.value.connected then found else None
    else None
  }

  /** The auto-connect target is a listed, unconnected entry with the preferred id. */
  lemma AutoConnectTargetFacts(config: Config, devices: seq<Device>, isConnected: bool)
    ensures var r := AutoConnectTarget(config, devices, isConnected);
      r.Some? ==> r.value in devices && !r.value.connected && r.value.id == config.preferredDevice.value
  {
    if config.preferredDevice.Some? {
      FindFacts(devices, config.preferredDevice.value);
    }
  }

  // ---------------------------------------------------------------- the Bluetooth connect path

  /**
   * How the Bluetooth link setup ends (src/hooks/useELM327.ts:123-137): the device lookup, the
   * GATT connection, then the service and characteristic lookups, whose outcome is `service`.
   */
  function BluetoothLink(found: bool, gattUp: bool, service: Status): (r: Status)
    ensures r.Done? ==> found && gattUp && service.Done?
  {
    if !found then Failed("Bluetooth device not found")
    else if !gattUp then Failed("Failed to connect to GATT server")
    else service
  }

  /** How many init writes are attempted: up to and including the first one that fails. */
  function Attempted(writes: seq<Status>): (n: nat)
    ensures n <= |writes|
    decreases |writes|
  {
    if writes == [] then 0
    else if writes[0].Failed? then 1
    else 1 + Attempted(writes[1..])
  }

  predicate AllDone(writes: seq<Status>) {
    forall i :: 0 <= i < |writes| ==> writes[i].Done?
  }

  /** All writes are attempted when they all succeed; otherwise the last attempted one failed. */
  lemma {:induction false} AttemptedFacts(writes: seq<Status>)
    ensures AllDone(writes) ==> Attempted(writes) == |writes|
    ensures !AllDone(writes) ==>
      1 <= Attempted(writes) && writes[Attempted(writes) - 1].Failed?
      && forall i :: 0 <= i < Attempted(writes) - 1 ==> writes[i].Done?
    decreases |writes|
  {
    if writes != [] {
      AttemptedFacts(writes[1..]);
      if AllDone(writes) {
        assert AllDone(writes[1..]);
      }
      if writes[0].Done? && !AllDone(writes) {
        assert !AllDone(writes[1..]) by {
          var k :| 0 <= k < |writes| && writes[k].Failed?;
          assert writes[1..][k - 1] == writes[k];
        }
        forall i | 0 <= i < Attempted(writes) - 1
          ensures writes[i].Done?
        {
          if i > 0 {
            assert writes[i] == writes[1..][i - 1];
          }
        }
      }
    }
  }

  // ---------------------------------------------------------------- the hook

  class Elm327Hook {
    var devices: seq<Device>
    var currentDevice: Option<Device>
    var isScanning: bool
    var isConnecting: bool
    var isConnected: bool
    var config: Config
    /** Every text written to a Bluetooth characteristic, oldest first. */
    var written: seq<string>

    ghost predicate Valid()
      reads this
    {
      UniqueIds(devices)
    }

    constructor()
      ensures Valid()
      ensures devices == [] && currentDevice.None? && !isScanning && !isConnecting && !isConnected
      ensures config == DefaultConfig && config.autoConnect && config.connectionTimeout == 10000
      ensures config.retryAttempts == 3 && written == []
    {
      devices := [];
      currentDevice := None;
      isScanning := false;
      isConnecting := false;
      isConnected := false;
      config := DefaultConfig;
      written := [];
    }

    /**
     * `scanBluetoothDevices` (src/hooks/useELM327.ts:37-90): nothing without Web Bluetooth;
     * otherwise the picked device (id and name), or the picker's failure, is `picked`. A picked
     * device without a name is called "ELM327 Device".
     */
    method ScanBluetoothDevices(supported: bool, picked: Result<(string, string)>) returns (found: seq<Device>)
      requires Valid()
      modifies this`devices, this`isScanning
      ensures Valid() && isScanning == (old(isScanning) && !supported)
      ensures !supported || picked.Err? ==> found == [] && devices == old(devices)
      ensures supported && picked.Ok? ==>
        var d := Device(picked.value.0, if picked.value.1 == "" then "ELM327 Device" else picked.value.1,
                        Bluetooth, false, None);
        found == [d] && devices == AddUnique(old(devices), d)
    {
      if !supported {
        return [];
      }
      isScanning := true;
      if picked.Err? {
        isScanning := false;
        return [];
      }
      var (id, name) := picked.value;
      var d := Device(id, if name == "" then "ELM327 Device" else name, Bluetooth, false, None);
      AddUniqueFacts(devices, d);
      devices := AddUnique(devices, d);
      isScanning := false;
      found := [d];
    }

    /** `addWiFiDevice` (src/hooks/useELM327.ts:93-113). */
    method AddWiFiDevice(ip: string, port: nat) returns (d: Device)
      requires Valid()
      modifies this`devices
      ensures Valid()
      ensures d == WiFiDevice(ip, port) && !d.connected && d.kind == WiFi
      ensures devices == AddUnique(old(devices), d)
    {
      d := WiFiDevice(ip, port);
      AddUniqueFacts(devices, d);
      devices := AddUnique(devices, d);
    }

    /**
     * `connectDevice` (src/hooks/useELM327.ts:116-187). A Bluetooth device needs the link
     * (`found`, `gattUp`, `service`) and all five init writes (`writes`) to succeed; a WiFi device
     * always connects. Success sets the flag and marks the list entry; failure only drops the
     * current device; `isConnecting` ends false either way.
     */
    method ConnectDevice(device: Device, now: int, found: bool, gattUp: bool, service: Status, writes: seq<Status>)
      requires Valid() && |writes| == |BtInitCommands|
      modifies this`devices, this`currentDevice, this`isConnecting, this`isConnected, this`written
      ensures Valid() && !isConnecting
      ensures device.kind == WiFi ==>
        && currentDevice == Some(device) && isConnected && written == old(written)
        && devices == MarkConnected(old(devices), device.id, now)
      ensures device.kind == Bluetooth ==>
        var link := BluetoothLink(found, gattUp, service);
        var n := if link.Done? then Attempted(writes) else 0;
        && written == old(written) + BtInitCommands[..n]
        && (link.Done? && AllDone(writes) ==>
              currentDevice == Some(device) && isConnected && devices == MarkConnected(old(devices), device.id, now))
        && (link.Failed? || !AllDone(writes) ==>
              currentDevice.None? && isConnected == old(isConnected) && devices == old(devices))
    {
      isConnecting := true;
      currentDevice := Some(device);
      if device.kind == Bluetooth {
        var link := BluetoothLink(found, gattUp, service);
        if link.Failed? {
          currentDevice := None;
          isConnecting := false;
          return;
        }
        var ok := WriteInit(writes);
        if !ok {
          currentDevice := None;
          isConnecting := false;
          return;
        }
      }
      isConnected := true;
      MarkConnectedFacts(devices, device.id, now);
      devices := MarkConnected(devices, device.id, now);
      isConnecting := false;
    }

    /** The init writes of the Bluetooth path, stopping at the first failure. */
    method WriteInit(writes: seq<Status>) returns (ok: bool)
      requires |writes| == |BtInitCommands|
      modifies this`written
      ensures ok == AllDone(writes)
      ensures written == old(written) + BtInitCommands[..Attempted(writes)]
    {
      AttemptedFacts(writes);
      var i := 0;
      while i < |BtInitCommands|
        invariant 0 <= i <= |BtInitCommands|
        invariant forall k :: 0 <= k < i ==> writes[k].Done?
        invariant written == old(written) + BtInitCommands[..i]
      {
        written := written + [BtInitCommands[i]];
        assert BtInitCommands[..i + 1] == BtInitCommands[..i] + [BtInitCommands[i]];
        if writes[i].Failed? {
          return false;
        }
        i := i + 1;
      }
      return true;
    }

    /** `disconnect` (src/hooks/useELM327.ts:201-214): nothing without a current device. */
    method Disconnect()
      requires Valid()
      modifies this`devices, this`currentDevice, this`isConnected
      ensures Valid()
      ensures old(currentDevice).None? ==> devices == old(devices) && currentDevice.None? && isConnected == old(isConnected)
      ensures old(currentDevice).Some? ==>
        && devices == MarkDisconnected(old(devices), old(currentDevice).value.id)
        && currentDevice.None? && !isConnected
    {
      if currentDevice.Some? {
        isConnected := false;
        MarkDisconnectedFacts(devices, currentDevice.value.id);
        devices := MarkDisconnected(devices, currentDevice.value.id);
        currentDevice := None;
      }
    }
  }
}
