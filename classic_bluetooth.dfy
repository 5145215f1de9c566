/**
 * The classic (serial-port) Bluetooth hook `useClassicBluetooth`
 * (src/hooks/useClassicBluetooth.ts): scanning the paired devices, connecting with the ELM327
 * init sequence, exclusive `connected` flags on the device list, disconnecting, and the guarded
 * `sendCommand`. The serial plugin's answers are parameters; React state is a class whose
 * setters run in program order.
 */
module ClassicBluetooth {
  import opened Common
  import opened Text

  /** `ClassicBluetoothDevice`; `connected` is optional in the plugin's list. */
  datatype ClassicDevice = ClassicDevice(address: string, name: string, connected: Option<bool>)

  const NotConnected: string := "Not connected to a device."
  const PermissionDenied: string := "Bluetooth permission not granted"

  /** The init commands `connectDevice` sends through `sendCommand` (src/hooks/useClassicBluetooth.ts:56-60). */
  const ClassicInitCommands: seq<string> := ["ATZ", "ATE0", "ATL0", "ATSP0"]

  // ---------------------------------------------------------------- the device list

  /** `devices.find(d => d.address === address)`. */
  function FindAddress(devices: seq<ClassicDevice>, address: string): (r: Option<ClassicDevice>)
    ensures r.Some? ==> r.value in devices && r.value.address == address
    decreases |devices|
  {
    if devices == [] then None
    else if devices[0].address == address then Some(devices[0])
    else FindAddress(devices[1..], address)
  }

  /** `find` misses only when no entry has the address. */
  lemma {:induction false} FindAddressMisses(devices: seq<ClassicDevice>, address: string)
    requires FindAddress(devices, address).None?
    ensures forall i :: 0 <= i < |devices| ==> devices[i].address != address
    decreases |devices|
  {
    if devices != [] {
      FindAddressMisses(devices[1..], address);
      forall i | 0 <= i < |devices|
        ensures devices[i].address != address
      {
        if i > 0 {
          assert devices[i] == devices[1..][i - 1];
        }
      }
    }
  }

  /** The list update after a connect (src/hooks/useClassicBluetooth.ts:65-67). */
  function ConnectExclusively(devices: seq<ClassicDevice>, address: string): (r: seq<ClassicDevice>)
    ensures |r| == |devices|
  {
    seq(|devices|, i requires 0 <= i < |devices| => devices[i].(connected := Some(devices[i].address == address)))
  }

  /**
   * After the update exactly the entries with the address are marked connected, every other
   * entry is marked not connected, and addresses and names stay in place.
   */
  lemma ConnectExclusivelyFacts(devices: seq<ClassicDevice>, address: string)
    ensures var r := ConnectExclusively(devices, address);
      && (forall i :: 0 <= i < |r| ==> r[i].address == devices[i].address && r[i].name == devices[i].name)
      && (forall i :: 0 <= i < |r| ==> (r[i].connected == Some(true) <==> r[i].address == address))
      && (forall i :: 0 <= i < |r| ==> r[i].connected.Some?)
  {
  }

  /** With distinct addresses, at most one entry is connected afterwards. */
  lemma AtMostOneConnected(devices: seq<ClassicDevice>, address: string, i: nat, j: nat)
    requires forall a, b :: 0 <= a < b < |devices| ==> devices[a].address != devices[b].address
    requires i < j < |devices|
    ensures !(ConnectExclusively(devices, address)[i].connected == Some(true)
              && ConnectExclusively(devices, address)[j].connected == Some(true))
  {
  }

  // ---------------------------------------------------------------- the init run

  /** What one `sendCommand` gives on a connected hook: the write's error, else the read. */
  function StepOutcome(write: Status, read: Reply): Reply {
    if write.Failed? then Err(write.message) else read
  }

  /** The first of the first `k` init commands that fails, if any. */
  function InitFailure(writes: seq<Status>, answers: seq<Reply>, k: nat): (f: Option<nat>)
    requires k <= |writes| == |answers|
    ensures f.Some? ==> f.value < k && StepOutcome(writes[f.value], answers[f.value]).Err?
  {
    if k == 0 then None
    else
      var before := InitFailure(writes, answers, k - 1);
      if before.Some? then before
      else if StepOutcome(writes[k - 1], answers[k - 1]).Err? then Some(k - 1)
      else None
  }

  /** The recorded failure is the first failing step: every earlier one succeeded. */
  lemma {:induction false} InitFailureIsFirst(writes: seq<Status>, answers: seq<Reply>, k: nat)
    requires k <= |writes| == |answers|
    ensures var f := InitFailure(writes, answers, k);
      && (f.Some? ==> StepOutcome(writes[f.value], answers[f.value]).Err?
                      && forall i :: 0 <= i < f.value ==> StepOutcome(writes[i], answers[i]).Ok?)
      && (f.None? ==> forall i :: 0 <= i < k ==> StepOutcome(writes[i], answers[i]).Ok?)
  {
    if k > 0 {
      InitFailureIsFirst(writes, answers, k - 1);
    }
  }

  /** The framed texts of the first `n` init commands. */
  function Framed(commands: seq<string>): (r: seq<string>)
    ensures |r| == |commands|
  {
    seq(|commands|, i requires 0 <= i < |commands| => commands[i] + "\r")
  }

  // ---------------------------------------------------------------- the hook

  /**
   * The guard at the head of `sendCommand` (src/hooks/useClassicBluetooth.ts:107-109), on the
   * `isConnected` the callback closed over: the refusal, if it refuses.
   */
  function SendGuard(connected: bool): (refusal: Option<Reply>)
    ensures refusal.Some? <==> !connected
    ensures refusal.Some? ==> refusal.value == Err(NotConnected)
  {
    if connected then None else Some(Err(NotConnected))
  }

  class ClassicHook {
    var devices: seq<ClassicDevice>
    var currentDevice: Option<ClassicDevice>
    var isScanning: bool
    var isConnecting: bool
    var isConnected: bool
    var error: Option<string>
    /** Every text written to the serial plugin, oldest first. */
    var written: seq<string>

    constructor()
      ensures devices == [] && currentDevice.None? && !isScanning && !isConnecting && !isConnected
      ensures error.None? && written == []
    {
      devices := [];
      currentDevice := None;
      isScanning := false;
      isConnecting := false;
      isConnected := false;
      error := None;
      written := [];
    }

    /**
     * `scanDevices` (src/hooks/useClassicBluetooth.ts:20-46): without permission the error is
     * set and the list kept; a failing enable or list call records its message; a successful
     * list replaces the device list.
     */
    method ScanDevices(granted: bool, enable: Status, list: Result<seq<ClassicDevice>>)
      modifies this`devices, this`isScanning, this`error
      ensures !isScanning
      ensures !granted ==> error == Some(PermissionDenied) && devices == old(devices)
      ensures granted && enable.Failed? ==> error == Some(enable.message) && devices == old(devices)
      ensures granted && enable.Done? && list.Err? ==> error == Some(list.message) && devices == old(devices)
      ensures granted && enable.Done? && list.Ok? ==> error.None? && devices == list.value
    {
      isScanning := true;
      error := None;
      if !granted {
        error := Some(PermissionDenied);
      } else if enable.Failed? {
        error := Some(enable.message);
      } else if list.Err? {
        error := Some(list.message);
      } else {
        devices := list.value;
      }
      isScanning := false;
    }

    /**
     * `sendCommand` (src/hooks/useClassicBluetooth.ts:106-119): refused without writing when not
     * connected; otherwise the command plus CR is written, unconditionally, and the response read
     * up to the prompt comes back trimmed.
     */
    method SendCommand(command: string, write: Status, read: Reply) returns (r: Reply)
      modifies this`written
      ensures !isConnected ==> r == Err(NotConnected) && written == old(written)
      ensures isConnected ==> written == old(written) + [command + "\r"]
      ensures isConnected && write.Failed? ==> r == Err(write.message)
      ensures isConnected && write.Done? && read.Err? ==> r == read
      ensures isConnected && write.Done? && read.Ok? ==> r == Ok(Trim(read.value))
      ensures isConnected ==> (r.Err? <==> StepOutcome(write, read).Err?)
    {
      var refusal := SendGuard(isConnected);
      if refusal.Some? {
        return refusal.value;
      }
      written := written + [command + "\r"];
      if write.Failed? {
        return Err(write.message);
      }
      if read.Err? {
        return read;
      }
      r := Ok(Trim(read.value));
    }

    /**
     * `connectDevice` (src/hooks/useClassicBluetooth.ts:48-84), with each init command sent
     * through a `sendCommand` that sees the flag just set: the flag is set as soon as the
     * link is up, before the init commands; a failing link or init command records its message
     * and leaves the flag as it is. Only after the whole init is the device looked up, and only
     * a listed device becomes current and the only connected entry.
     */
    method ConnectDevice(address: string, link: Status, writes: seq<Status>, answers: seq<Reply>)
      requires |writes| == |answers| == |ClassicInitCommands|
      modifies this`devices, this`currentDevice, this`isConnecting, this`isConnected, this`error, this`written
      ensures !isConnecting
      ensures link.Failed? ==>
        && error == Some(link.message) && isConnected == old(isConnected)
        && written == old(written) && devices == old(devices) && currentDevice == old(currentDevice)
      ensures link.Done? ==> isConnected
      ensures link.Done? ==> var f := InitFailure(writes, answers, |ClassicInitCommands|);
        && (f.Some? ==>
              && written == old(written) + Framed(ClassicInitCommands[..f.value + 1])
              && error == Some(StepOutcome(writes[f.value], answers[f.value]).message)
              && devices == old(devices) && currentDevice == old(currentDevice))
        && (f.None? ==>
              && written == old(written) + Framed(ClassicInitCommands)
              && error.None?
              && (FindAddress(old(devices), address).None? ==>
                    devices == old(devices) && currentDevice == old(currentDevice))
              && (FindAddress(old(devices), address).Some? ==>
                    && currentDevice == Some(FindAddress(old(devices), address).value.(connected := Some(true)))
                    && devices == ConnectExclusively(old(devices), address)))
    {
      isConnecting := true;
      error := None;
      if link.Failed? {
        error := Some(link.message);
        isConnecting := false;
        return;
      }
      isConnected := true;
      var failure := RunInit(writes, answers);
      if failure.Some? {
        error := failure;
        isConnecting := false;
        return;
      }
      var device := FindAddress(devices, address);
      if device.Some? {
        currentDevice := Some(device.value.(connected := Some(true)));
        devices := ConnectExclusively(devices, address);
      }
      isConnecting := false;
    }

    /**
     * `connectDevice` as written (src/hooks/useClassicBluetooth.ts:48-84): the `sendCommand` it
     * awaits is the one closed over when the callback was created, and a callback created
     * while the hook was not connected sees `isConnected` false. Once the link is up the flag
     * is set, yet the first init command is refused by that callback's guard: nothing is
     * written, the refusal's message becomes the error, and no device becomes current.
     */
    method ConnectDeviceAsWritten(address: string, link: Status)
      modifies this`isConnecting, this`isConnected, this`error
      ensures !isConnecting
      ensures link.Failed? ==> error == Some(link.message) && isConnected == old(isConnected)
      ensures link.Done? ==> isConnected && error == Some(NotConnected)
      ensures written == old(written) && devices == old(devices) && currentDevice == old(currentDevice)
    {
      isConnecting := true;
      error := None;
      if link.Failed? {
        error := Some(link.message);
        isConnecting := false;
        return;
      }
      isConnected := true;
      var capturedConnected := false;
      error := Some(SendGuard(capturedConnected).value.message);
      isConnecting := false;
    }

    /** The four awaited init commands of `connectDevice`, stopping at the first failure. */
    method RunInit(writes: seq<Status>, answers: seq<Reply>) returns (failure: Option<string>)
      requires isConnected && |writes| == |answers| == |ClassicInitCommands|
      modifies this`written
      ensures var f := InitFailure(writes, answers, |ClassicInitCommands|);
        && (f.Some? ==> written == old(written) + Framed(ClassicInitCommands[..f.value + 1])
                        && failure == Some(StepOutcome(writes[f.value], answers[f.value]).message))
        && (f.None? ==> written == old(written) + Framed(ClassicInitCommands) && failure.None?)
    {
      var i := 0;
      while i < |ClassicInitCommands|
        invariant 0 <= i <= |ClassicInitCommands|
        invariant InitFailure(writes, answers, i).None?
        invariant written == old(written) + Framed(ClassicInitCommands[..i])
      {
        var r := SendCommand(ClassicInitCommands[i], writes[i], answers[i]);
        assert Framed(ClassicInitCommands[..i + 1]) == Framed(ClassicInitCommands[..i]) + [ClassicInitCommands[i] + "\r"];
        if r.Err? {
          FailureStays(writes, answers, i + 1, |ClassicInitCommands|);
          return Some(r.message);
        }
        i := i + 1;
      }
      assert ClassicInitCommands[..i] == ClassicInitCommands;
      failure := None;
    }

    /** `disconnect` (src/hooks/useClassicBluetooth.ts:86-104): a failing plugin call changes nothing. */
    method Disconnect(plugin: Status)
      modifies this`isConnected, this`currentDevice
      ensures plugin.Done? ==> !isConnected && currentDevice.None?
      ensures plugin.Failed? ==> isConnected == old(isConnected) && currentDevice == old(currentDevice)
    {
      if plugin.Done? {
        isConnected := false;
        currentDevice := None;
      }
    }
  }

  /** Once a step has failed, later steps do not change the recorded failure. */
  lemma {:induction false} FailureStays(writes: seq<Status>, answers: seq<Reply>, k: nat, m: nat)
    requires k <= m <= |writes| == |answers|
    requires InitFailure(writes, answers, k).Some?
    ensures InitFailure(writes, answers, m) == InitFailure(writes, answers, k)
    decreases m - k
  {
    if m > k {
      FailureStays(writes, answers, k, m - 1);
    }
  }

  /** When every step succeeds, the hook writes "ATZ\r", "ATE0\r", "ATL0\r" and "ATSP0\r" in order. */
  lemma InitWritesInOrder()
    ensures Framed(ClassicInitCommands) == ["ATZ\r", "ATE0\r", "ATL0\r", "ATSP0\r"]
  {
    var f := Framed(ClassicInitCommands);
    assert f[0] == ClassicInitCommands[0] + "\r" == "ATZ\r";
    assert f[1] == ClassicInitCommands[1] + "\r" == "ATE0\r";
    assert f[2] == ClassicInitCommands[2] + "\r" == "ATL0\r";
    assert f[3] == ClassicInitCommands[3] + "\r" == "ATSP0\r";
  }

  /**
   * The connect flow as written never initialises the adapter: on a fresh hook whose scan
   * listed the devices, a connect whose link comes up leaves the hook flagged connected with
   * the "not connected" error, nothing written, and no current device.
   */
  method FreshConnectAsWritten(list: seq<ClassicDevice>, address: string) returns (h: ClassicHook)
    ensures h.isConnected && h.error == Some(NotConnected) && !h.isConnecting
    ensures h.written == [] && h.currentDevice.None? && h.devices == list
  {
    h := new ClassicHook();
    h.ScanDevices(true, Done, Ok(list));
    h.ConnectDeviceAsWritten(address, Done);
  }

  /**
   * With the init sent through a `sendCommand` that sees the flag just set, the same fresh
   * connect completes when every init step succeeds: the four init commands are written in
   * order, no error is recorded, and a listed device becomes current and the only connected
   * entry.
   */
  method FreshConnect(list: seq<ClassicDevice>, address: string, writes: seq<Status>, answers: seq<Reply>)
    returns (h: ClassicHook)
    requires |writes| == |answers| == |ClassicInitCommands|
    requires forall i :: 0 <= i < |writes| ==> writes[i].Done? && answers[i].Ok?
    ensures h.isConnected && h.error.None? && !h.isConnecting
    ensures h.written == ["ATZ\r", "ATE0\r", "ATL0\r", "ATSP0\r"]
    ensures FindAddress(list, address).Some? ==>
      && h.currentDevice == Some(FindAddress(list, address).value.(connected := Some(true)))
      && h.devices == ConnectExclusively(list, address)
    ensures FindAddress(list, address).None? ==> h.currentDevice.None? && h.devices == list
  {
    h := new ClassicHook();
    h.ScanDevices(true, Done, Ok(list));
    h.ConnectDevice(address, Done, writes, answers);
    InitWritesInOrder();
  }
}
