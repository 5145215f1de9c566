/**
 * The BLE transport session (src/lib/bluetooth-le.ts): the `ELM327BLE` class with its
 * `deviceId`, `isConnected` and notification-callback fields. Every call into the BLE plugin is
 * recorded in `calls`, and what the plugin answers is a parameter of the method that calls it.
 */
module BleTransport {
  import opened Common
  import opened Text
  import opened Framing

  /** The serial-port-profile service and characteristic every read and write goes to. */
  const SppService: string := "0000ffe0-0000-1000-8000-00805f9b34fb"
  const SppCharacteristic: string := "0000ffe1-0000-1000-8000-00805f9b34fb"

  const NotConnectedToDevice: string := "Not connected to a device"

  /** What `connectToDevice` sends after the link is up: reset, echo off, linefeeds off, auto protocol. */
  const BleInitCommands: seq<string> := ["ATZ", "ATE0", "ATL0", "ATSP0"]

  datatype BleDevice = BleDevice(deviceId: string, name: Option<string>)

  /** One advertisement the scan callback receives. */
  datatype ScanResult = ScanResult(device: BleDevice, localName: Option<string>)

  /** A call into the BLE plugin (always on the SPP service and characteristic where one applies). */
  datatype PluginCall =
    | InitializeOp
    | ScanOp
    | ConnectOp(deviceId: string)
    | DisconnectOp(deviceId: string)
    | WriteOp(deviceId: string, text: string)
    | ReadOp(deviceId: string)
    | StartNotificationsOp(deviceId: string)
    | StopNotificationsOp(deviceId: string)

  /** JavaScript truthiness of `this.deviceId`: null and the empty string are both false. */
  predicate Truthy(id: Option<string>) {
    id.Some? && id.value != ""
  }

  // ---------------------------------------------------------------- the scan filter

  /** `name?.includes('ELM') || name?.includes('OBD')`, where a missing name gives false. */
  predicate NamesAdapter(name: Option<string>) {
    name.Some? && (Contains(name.value, "ELM") || Contains(name.value, "OBD"))
  }

  predicate IsAdapter(r: ScanResult) {
    NamesAdapter(r.device.name) || NamesAdapter(r.localName)
  }

  /** The devices of the scan results that pass the filter, in arrival order. */
  function Adapters(results: seq<ScanResult>): (devices: seq<BleDevice>)
    ensures |devices| <= |results|
  {
    if results == [] then []
    else
      var last := results[|results| - 1];
      Adapters(results[..|results| - 1]) + (if IsAdapter(last) then [last.device] else [])
  }

  /** The positions of the results that pass the filter, in increasing order. */
  function AdapterIndices(results: seq<ScanResult>): (idx: seq<nat>)
    ensures |idx| <= |results|
  {
    if results == [] then []
    else
      var n := |results| - 1;
      AdapterIndices(results[..n]) + (if IsAdapter(results[n]) then [n] else [])
  }

  /**
   * The filter keeps only adapters and keeps their arrival order: the `j`-th kept device is the
   * device of the `j`-th passing result, and those results' positions increase; duplicates are
   * not removed.
   */
  lemma {:induction false} AdaptersAreOrderedMatches(results: seq<ScanResult>)
    ensures |AdapterIndices(results)| == |Adapters(results)|
    ensures forall j :: 0 <= j < |AdapterIndices(results)| ==>
      && AdapterIndices(results)[j] < |results|
      && IsAdapter(results[AdapterIndices(results)[j]])
      && Adapters(results)[j] == results[AdapterIndices(results)[j]].device
    ensures forall j, k :: 0 <= j < k < |AdapterIndices(results)| ==>
      AdapterIndices(results)[j] < AdapterIndices(results)[k]
    decreases |results|
  {
    if results != [] {
      var n := |results| - 1;
      var init := results[..n];
      AdaptersAreOrderedMatches(init);
      var idx := AdapterIndices(init);
      forall j | 0 <= j < |idx|
        ensures idx[j] < n && results[idx[j]] == init[idx[j]]
      {
      }
    }
  }

  /** Every result that passes the filter has its position among the kept ones. */
  lemma {:induction false} AdaptersAreAllMatches(results: seq<ScanResult>)
    ensures forall i :: 0 <= i < |results| && IsAdapter(results[i]) ==> i in AdapterIndices(results)
    decreases |results|
  {
    if results != [] {
      var n := |results| - 1;
      var init := results[..n];
      AdaptersAreAllMatches(init);
      forall i | 0 <= i < n && IsAdapter(results[i])
        ensures i in AdapterIndices(results)
      {
        assert results[i] == init[i];
      }
    }
  }

  // ---------------------------------------------------------------- commands and the init run

  /** The plugin calls `sendCommand` makes on a connected session: write the framed command, then read. */
  function SendTrace(id: string, command: string, write: Status): seq<PluginCall> {
    [WriteOp(id, Frame(command))] + (if write.Done? then [ReadOp(id)] else [])
  }

  /** What `sendCommand` settles with on a connected session: the write's error, else the read. */
  function SendOutcome(write: Status, read: Reply): (r: Result<string>)
    ensures write.Failed? ==> r == Err(write.message)
    ensures write.Done? ==> r == read
  {
    if write.Failed? then Err(write.message) else read
  }

  /** The plugin calls and the first error of the first `k` init commands, stopping at a failure. */
  datatype InitRun = InitRun(calls: seq<PluginCall>, failure: Option<string>)

  function RunInit(id: string, writes: seq<Status>, answers: seq<Reply>, k: nat): InitRun
    requires k <= |BleInitCommands| && |writes| == |answers| == |BleInitCommands|
  {
    if k == 0 then InitRun([], None)
    else
      var before := RunInit(id, writes, answers, k - 1);
      if before.failure.Some? then before
      else
        var out := SendOutcome(writes[k - 1], answers[k - 1]);
        InitRun(before.calls + SendTrace(id, BleInitCommands[k - 1], writes[k - 1]),
                if out.Err? then Some(out.message) else None)
  }

  /** While no init command has failed, the next one is sent and its outcome recorded. */
  lemma RunInitStep(id: string, writes: seq<Status>, answers: seq<Reply>, k: nat)
    requires k < |BleInitCommands| && |writes| == |answers| == |BleInitCommands|
    requires RunInit(id, writes, answers, k).failure.None?
    ensures RunInit(id, writes, answers, k + 1).calls
      == RunInit(id, writes, answers, k).calls + SendTrace(id, BleInitCommands[k], writes[k])
    ensures RunInit(id, writes, answers, k + 1).failure.None?
      <==> SendOutcome(writes[k], answers[k]).Ok?
    ensures RunInit(id, writes, answers, k + 1).failure.Some?
      ==> RunInit(id, writes, answers, k + 1).failure.value == SendOutcome(writes[k], answers[k]).message
  {
  }

  /** Once an init command fails, no later one is sent. */
  lemma {:induction false} RunInitStops(id: string, writes: seq<Status>, answers: seq<Reply>, k: nat, m: nat)
    requires k <= m <= |BleInitCommands| && |writes| == |answers| == |BleInitCommands|
    requires RunInit(id, writes, answers, k).failure.Some?
    ensures RunInit(id, writes, answers, m) == RunInit(id, writes, answers, k)
    decreases m - k
  {
    if m > k {
      RunInitStops(id, writes, answers, k, m - 1);
    }
  }

  /** None of the init commands already ends in a carriage return, so each is framed with one. */
  lemma InitCommandsFramed(i: nat)
    requires i < |BleInitCommands|
    ensures Frame(BleInitCommands[i]) == BleInitCommands[i] + "\r"
  {
    var c := BleInitCommands[i];
    assert c[|c| - 1..] == [c[|c| - 1]] && c[|c| - 1] != '\r';
  }

  /**
   * When every write and read succeeds, the first `k` init commands are all sent: a write of
   * each framed command, in list order, each followed by one read, and no failure.
   */
  lemma {:induction false} InitWritesInOrder(id: string, writes: seq<Status>, answers: seq<Reply>, k: nat)
    requires k <= |BleInitCommands| && |writes| == |answers| == |BleInitCommands|
    requires forall i :: 0 <= i < |writes| ==> writes[i].Done? && answers[i].Ok?
    ensures RunInit(id, writes, answers, k).failure.None?
    ensures |RunInit(id, writes, answers, k).calls| == 2 * k
    ensures forall i :: 0 <= i < k ==>
      && RunInit(id, writes, answers, k).calls[2 * i] == WriteOp(id, BleInitCommands[i] + "\r")
      && RunInit(id, writes, answers, k).calls[2 * i + 1] == ReadOp(id)
  {
    if k > 0 {
      InitWritesInOrder(id, writes, answers, k - 1);
      InitCommandsFramed(k - 1);
      assert SendTrace(id, BleInitCommands[k - 1], writes[k - 1])
          == [WriteOp(id, BleInitCommands[k - 1] + "\r"), ReadOp(id)];
    }
  }

  // ---------------------------------------------------------------- the session

  class Elm327Ble {
    var deviceId: Option<string>
    var isConnected: bool
    var hasNotificationCallback: bool
    /** Every call made to the BLE plugin, oldest first. */
    var calls: seq<PluginCall>

    /** The flag and the device id are set and cleared together. */
    ghost predicate Valid()
      reads this
    {
      isConnected <==> deviceId.Some?
    }

    constructor()
      ensures Valid()
      ensures deviceId.None? && !isConnected && !hasNotificationCallback && calls == []
    {
      deviceId := None;
      isConnected := false;
      hasNotificationCallback := false;
      calls := [];
    }

    /** `initialize` (src/lib/bluetooth-le.ts:83-91): the plugin's outcome is passed on. */
    method Initialize(plugin: Status) returns (r: Status)
      modifies this`calls
      ensures r == plugin && calls == old(calls) + [InitializeOp]
    {
      calls := calls + [InitializeOp];
      r := plugin;
    }

    /**
     * `scanForDevices` (src/lib/bluetooth-le.ts:98-117): `results` are the advertisements the
     * callback receives before the scan call settles with `plugin`.
     */
    method ScanForDevices(results: seq<ScanResult>, plugin: Status) returns (r: Result<seq<BleDevice>>)
      modifies this`calls
      ensures calls == old(calls) + [ScanOp]
      ensures plugin.Failed? ==> r == Err(plugin.message)
      ensures plugin.Done? ==> r == Ok(Adapters(results))
    {
      calls := calls + [ScanOp];
      var devices: seq<BleDevice> := [];
      var i := 0;
      while i < |results|
        invariant 0 <= i <= |results|
        invariant devices == Adapters(results[..i])
      {
        assert results[..i + 1][..i] == results[..i];
        if IsAdapter(results[i]) {
          devices := devices + [results[i].device];
        }
        i := i + 1;
      }
      assert results[..|results|] == results;
      if plugin.Failed? {
        return Err(plugin.message);
      }
      return Ok(devices);
    }

    /**
     * `sendCommand` (src/lib/bluetooth-le.ts:171-192): refused unless `deviceId` is truthy and
     * the flag is set; otherwise the framed command is written and the response read.
     */
    method SendCommand(command: string, write: Status, read: Reply) returns (r: Result<string>)
      modifies this`calls
      ensures !Truthy(deviceId) || !isConnected ==> r == Err(NotConnectedToDevice) && calls == old(calls)
      ensures Truthy(deviceId) && isConnected ==>
        && r == SendOutcome(write, read)
        && calls == old(calls) + SendTrace(deviceId.value, command, write)
    {
      if !Truthy(deviceId) || !isConnected {
        return Err(NotConnectedToDevice);
      }
      var wire := Frame(command);
      calls := calls + [WriteOp(deviceId.value, wire)];
      if write.Failed? {
        return Err(write.message);
      }
      calls := calls + [ReadOp(deviceId.value)];
      r := read;
    }

    /**
     * `connectToDevice` (src/lib/bluetooth-le.ts:123-142): connect, record the device, then send
     * the init commands in order; any failure clears the device and the flag and is rethrown.
     * `writes[i]` and `answers[i]` are the plugin's answers for init command `i`.
     */
    method ConnectToDevice(device: BleDevice, link: Status, writes: seq<Status>, answers: seq<Reply>)
      returns (r: Status)
      requires Valid() && |writes| == |answers| == |BleInitCommands|
      modifies this`deviceId, this`isConnected, this`calls
      ensures Valid()
      ensures link.Failed? ==>
        && r == link && calls == old(calls) + [ConnectOp(device.deviceId)]
        && deviceId.None? && !isConnected
      ensures link.Done? && device.deviceId == "" ==>
        && r == Failed(NotConnectedToDevice) && calls == old(calls) + [ConnectOp(device.deviceId)]
        && deviceId.None? && !isConnected
      ensures link.Done? && device.deviceId != "" ==>
        var run := RunInit(device.deviceId, writes, answers, |BleInitCommands|);
        && calls == old(calls) + [ConnectOp(device.deviceId)] + run.calls
        && (run.failure.None? ==> r == Done && deviceId == Some(device.deviceId) && isConnected)
        && (run.failure.Some? ==> r == Failed(run.failure.value) && deviceId.None? && !isConnected)
    {
      calls := calls + [ConnectOp(device.deviceId)];
      if link.Failed? {
        isConnected := false;
        deviceId := None;
        return link;
      }
      deviceId := Some(device.deviceId);
      isConnected := true;
      r := SendInitCommands(device.deviceId, writes, answers);
    }

    /**
     * The init part of `connectToDevice` (src/lib/bluetooth-le.ts:130-141): send the init
     * commands in order through `sendCommand`; the first failure clears the session and is
     * returned. An empty device id is refused by the first `sendCommand`.
     */
    method SendInitCommands(id: string, writes: seq<Status>, answers: seq<Reply>) returns (r: Status)
      requires deviceId == Some(id) && isConnected && |writes| == |answers| == |BleInitCommands|
      modifies this`deviceId, this`isConnected, this`calls
      ensures Valid()
      ensures id == "" ==>
        r == Failed(NotConnectedToDevice) && calls == old(calls) && deviceId.None? && !isConnected
      ensures id != "" ==>
        var run := RunInit(id, writes, answers, |BleInitCommands|);
        && calls == old(calls) + run.calls
        && (run.failure.None? ==> r == Done && deviceId == Some(id) && isConnected)
        && (run.failure.Some? ==> r == Failed(run.failure.value) && deviceId.None? && !isConnected)
    {
      ghost var start := calls;
      var i := 0;
      while i < |BleInitCommands|
        invariant 0 <= i <= |BleInitCommands|
        invariant deviceId == Some(id) && isConnected
        invariant id != "" ==>
          RunInit(id, writes, answers, i).failure.None?
          && calls == start + RunInit(id, writes, answers, i).calls
        invariant id == "" ==> calls == start && i == 0
      {
        var out := SendInitCommand(id, writes, answers, i, start);
        if out.Err? {
          if id != "" {
            RunInitStops(id, writes, answers, i + 1, |BleInitCommands|);
          }
          isConnected := false;
          deviceId := None;
          return Failed(out.message);
        }
        i := i + 1;
      }
      r := Done;
    }

    /** One `await this.sendCommand(...)` of the init sequence, in terms of the init run so far. */
    method SendInitCommand(id: string, writes: seq<Status>, answers: seq<Reply>, i: nat, ghost start: seq<PluginCall>)
      returns (out: Result<string>)
      requires deviceId == Some(id) && isConnected
      requires i < |BleInitCommands| && |writes| == |answers| == |BleInitCommands|
      requires id != "" ==>
        RunInit(id, writes, answers, i).failure.None? && calls == start + RunInit(id, writes, answers, i).calls
      modifies this`calls
      ensures id == "" ==> out == Err(NotConnectedToDevice) && calls == old(calls)
      ensures id != "" ==>
        var run := RunInit(id, writes, answers, i + 1);
        && calls == start + run.calls
        && (out.Err? <==> run.failure.Some?)
        && (out.Err? ==> run.failure.value == out.message)
    {
      out := SendCommand(BleInitCommands[i], writes[i], answers[i]);
      if id != "" {
        RunInitStep(id, writes, answers, i);
        var done := RunInit(id, writes, answers, i).calls;
        var trace := SendTrace(id, BleInitCommands[i], writes[i]);
        assert calls == (start + done) + trace;
        assert (start + done) + trace == start + (done + trace);
      }
    }

    /**
     * `disconnect` (src/lib/bluetooth-le.ts:147-164): nothing without a truthy `deviceId`;
     * otherwise stop notifications first when a callback is registered, then disconnect. A
     * failing plugin call is rethrown and leaves the rest undone.
     */
    method Disconnect(stop: Status, link: Status) returns (r: Status)
      requires Valid()
      modifies this`deviceId, this`isConnected, this`hasNotificationCallback, this`calls
      ensures Valid()
      ensures !Truthy(old(deviceId)) ==> r == Done && unchanged(this)
      ensures Truthy(old(deviceId)) ==> var id := old(deviceId).value;
        var stops := if old(hasNotificationCallback) then [StopNotificationsOp(id)] else [];
        && (old(hasNotificationCallback) && stop.Failed? ==>
              r == stop && calls == old(calls) + stops
              && deviceId == old(deviceId) && isConnected == old(isConnected) && hasNotificationCallback)
        && (!old(hasNotificationCallback) || stop.Done? ==>
              && calls == old(calls) + stops + [DisconnectOp(id)]
              && !hasNotificationCallback
              && (link.Failed? ==> r == link && deviceId == old(deviceId) && isConnected == old(isConnected))
              && (link.Done? ==> r == Done && deviceId.None? && !isConnected))
    {
      if !Truthy(deviceId) {
        return Done;
      }
      var id := deviceId.value;
      if hasNotificationCallback {
        calls := calls + [StopNotificationsOp(id)];
        if stop.Failed? {
          return stop;
        }
        hasNotificationCallback := false;
      }
      calls := calls + [DisconnectOp(id)];
      if link.Failed? {
        return link;
      }
      isConnected := false;
      deviceId := None;
      r := Done;
    }

    /**
     * `startNotifications` (src/lib/bluetooth-le.ts:198-219): refused unless connected; the
     * callback is recorded before the plugin call, so it stays recorded when that call fails.
     */
    method StartNotifications(plugin: Status) returns (r: Status)
      modifies this`hasNotificationCallback, this`calls
      ensures !Truthy(deviceId) || !isConnected ==>
        r == Failed(NotConnectedToDevice) && calls == old(calls)
        && hasNotificationCallback == old(hasNotificationCallback)
      ensures Truthy(deviceId) && isConnected ==>
        r == plugin && hasNotificationCallback && calls == old(calls) + [StartNotificationsOp(deviceId.value)]
    {
      if !Truthy(deviceId) || !isConnected {
        return Failed(NotConnectedToDevice);
      }
      hasNotificationCallback := true;
      calls := calls + [StartNotificationsOp(deviceId.value)];
      r := plugin;
    }

    /**
     * `stopNotifications` (src/lib/bluetooth-le.ts:224-237): does nothing unless connected with
     * a callback; the callback is dropped only when the plugin call succeeds.
     */
    method StopNotifications(plugin: Status) returns (r: Status)
      modifies this`hasNotificationCallback, this`calls
      ensures !Truthy(deviceId) || !isConnected || !old(hasNotificationCallback) ==>
        r == Done && calls == old(calls) && hasNotificationCallback == old(hasNotificationCallback)
      ensures Truthy(deviceId) && isConnected && old(hasNotificationCallback) ==>
        && r == plugin && calls == old(calls) + [StopNotificationsOp(deviceId.value)]
        && hasNotificationCallback == plugin.Failed?
    {
      if !Truthy(deviceId) || !isConnected || !hasNotificationCallback {
        return Done;
      }
      calls := calls + [StopNotificationsOp(deviceId.value)];
      if plugin.Failed? {
        return plugin;
      }
      hasNotificationCallback := false;
      r := Done;
    }

    /** `isDeviceConnected` (src/lib/bluetooth-le.ts:242-244). */
    method IsDeviceConnected() returns (r: bool)
      requires Valid()
      ensures r == isConnected && (r <==> deviceId.Some?)
    {
      r := isConnected;
    }

    /** `getConnectedDeviceId` (src/lib/bluetooth-le.ts:249-251). */
    method GetConnectedDeviceId() returns (r: Option<string>)
      requires Valid()
      ensures r == deviceId && (r.Some? <==> isConnected)
    {
      r := deviceId;
    }
  }
}
