/**
 * `useConnectionManager` (src/hooks/useConnectionManager.ts): one view over the classic
 * Bluetooth hook and the WiFi hook. The connection type is state an effect keeps in step with
 * the two hooks' flags; the flag, device, error and status text are derived from them.
 */
module ConnectionManager {
  import opened Common
  import opened Text
  import ClassicBluetooth
  import WiFiHook

  /** `ConnectionType` without its `null`, which is `None`. */
  datatype Link = Bluetooth | WiFi

  /** The device either hook holds. */
  datatype AnyDevice =
    | ClassicDev(classic: ClassicBluetooth.ClassicDevice)
    | WiFiDev(wifi: WiFiHook.HookDevice)

  function NameOf(d: AnyDevice): string {
    match d
    case ClassicDev(c) => c.name
    case WiFiDev(w) => w.name
  }

  /** `currentDevice?.name` inside a template literal: a missing device reads "undefined". */
  function DeviceLabel(d: Option<AnyDevice>): (s: string)
    ensures d.Some? ==> s == NameOf(d.value)
  {
    if d.Some? then NameOf(d.value) else "undefined"
  }

  /** The type the effect sets (src/hooks/useConnectionManager.ts:22-30). */
  function TypeOf(btConnected: bool, wifiConnected: bool): (t: Option<Link>)
    ensures t == Some(Bluetooth) <==> btConnected
    ensures t == Some(WiFi) <==> !btConnected && wifiConnected
    ensures t.None? <==> !btConnected && !wifiConnected
  {
    if btConnected then Some(Bluetooth) else if wifiConnected then Some(WiFi) else None
  }

  /** `bluetoothHook.currentDevice || wifiHook.currentDevice`. */
  function DeviceOf(bt: Option<ClassicBluetooth.ClassicDevice>, wifi: Option<WiFiHook.HookDevice>): (d: Option<AnyDevice>)
    ensures bt.Some? ==> d == Some(ClassicDev(bt.value))
    ensures bt.None? && wifi.Some? ==> d == Some(WiFiDev(wifi.value))
    ensures d.None? <==> bt.None? && wifi.None?
  {
    if bt.Some? then Some(ClassicDev(bt.value))
    else if wifi.Some? then Some(WiFiDev(wifi.value))
    else None
  }

  /**
   * `bluetoothHook.error || wifiHook.error`: an empty Bluetooth message is falsy and gives way
   * to the WiFi error.
   */
  function ErrorOf(bt: Option<string>, wifi: Option<string>): (e: Option<string>)
    ensures e == bt || e == wifi
    ensures bt.Some? && bt.value != "" ==> e == bt
    ensures (bt.None? || bt.value == "") ==> e == wifi
  {
    if bt.Some? && bt.value != "" then bt else wifi
  }

  /** `getConnectionStatus` (src/hooks/useConnectionManager.ts:45-50) over the values it reads. */
  function StatusText(t: Option<Link>, connected: bool, device: Option<AnyDevice>): (s: string)
    ensures s == "Disconnected" <==> !connected
    ensures connected && t == Some(Bluetooth) ==> StartsWith(s, "Connected via Bluetooth: ")
    ensures connected && t == Some(WiFi) ==> StartsWith(s, "Connected via WiFi: ")
    ensures connected && t.None? ==> s == "Connected"
  {
    if !connected then "Disconnected"
    else if t == Some(Bluetooth) then "Connected via Bluetooth: " + DeviceLabel(device)
    else if t == Some(WiFi) then "Connected via WiFi: " + DeviceLabel(device)
    else "Connected"
  }

  /**
   * Once the effect has run, the text says "Disconnected" exactly when neither hook is
   * connected, names Bluetooth exactly when the classic hook is connected, and names WiFi
   * otherwise; the bare "Connected" is only seen while the type lags the flags.
   */
  lemma {:induction false} StatusAfterSync(b: bool, w: bool, device: Option<AnyDevice>)
    ensures var s := StatusText(TypeOf(b, w), b || w, device);
      && (s == "Disconnected" <==> !b && !w)
      && (b ==> s == "Connected via Bluetooth: " + DeviceLabel(device))
      && (!b && w ==> s == "Connected via WiFi: " + DeviceLabel(device))
      && s != "Connected"
  {
    var s := StatusText(TypeOf(b, w), b || w, device);
    if b || w {
      assert s[..9] == "Connected" && s[9] == ' ';
    }
  }

  /** While the type still says nothing about a new connection, the text is the bare "Connected". */
  lemma StatusWhileTypeLags(connected: bool, device: Option<AnyDevice>)
    requires connected
    ensures StatusText(None, connected, device) == "Connected"
    ensures StatusText(None, connected, device) != "Disconnected"
  {
  }

  class Manager {
    const bt: ClassicBluetooth.ClassicHook
    const wifi: WiFiHook.WiFiHookState
    var connectionType: Option<Link>

    constructor(bt: ClassicBluetooth.ClassicHook, wifi: WiFiHook.WiFiHookState)
      ensures this.bt == bt && this.wifi == wifi && connectionType.None?
    {
      this.bt := bt;
      this.wifi := wifi;
      connectionType := None;
    }

    /** The effect on the two flags (src/hooks/useConnectionManager.ts:22-30). */
    method SyncConnectionType()
      modifies this`connectionType
      ensures connectionType == TypeOf(bt.isConnected, wifi.isConnected)
      ensures connectionType.Some? <==> IsConnected()
    {
      connectionType := TypeOf(bt.isConnected, wifi.isConnected);
    }

    /** `isConnected` (src/hooks/useConnectionManager.ts:32). */
    function IsConnected(): (r: bool)
      reads this, bt, wifi
      ensures r <==> bt.isConnected || wifi.isConnected
    {
      bt.isConnected || wifi.isConnected
    }

    /** `currentDevice` (src/hooks/useConnectionManager.ts:33). */
    function CurrentDevice(): (d: Option<AnyDevice>)
      reads this, bt, wifi
      ensures bt.currentDevice.Some? ==> d == Some(ClassicDev(bt.currentDevice.value))
      ensures bt.currentDevice.None? && wifi.currentDevice.Some? ==> d == Some(WiFiDev(wifi.currentDevice.value))
      ensures d.None? <==> bt.currentDevice.None? && wifi.currentDevice.None?
    {
      DeviceOf(bt.currentDevice, wifi.currentDevice)
    }

    /** `error` (src/hooks/useConnectionManager.ts:34). */
    function Error(): (e: Option<string>)
      reads this, bt, wifi
      ensures bt.error.Some? && bt.error.value != "" ==> e == bt.error
      ensures bt.error.None? || bt.error.value == "" ==> e == wifi.error
    {
      ErrorOf(bt.error, wifi.error)
    }

    /** `getConnectionStatus` (src/hooks/useConnectionManager.ts:45-50). */
    function ConnectionStatus(): (s: string)
      reads this, bt, wifi
      ensures s == "Disconnected" <==> !bt.isConnected && !wifi.isConnected
      ensures IsConnected() && connectionType.None? ==> s == "Connected"
      ensures IsConnected() && connectionType == Some(Bluetooth) ==> StartsWith(s, "Connected via Bluetooth: ")
      ensures IsConnected() && connectionType == Some(WiFi) ==> StartsWith(s, "Connected via WiFi: ")
    {
      StatusText(connectionType, IsConnected(), CurrentDevice())
    }

    /**
     * `disconnect` (src/hooks/useConnectionManager.ts:36-43): the classic hook first, then the
     * WiFi hook, each only if it reports connected. The classic hook keeps a failure to itself,
     * so the WiFi hook is disconnected either way; afterwards nothing is connected unless the
     * serial plugin failed.
     */
    method Disconnect(plugin: Status)
      requires wifi.Valid()
      modifies bt`isConnected, bt`currentDevice
      modifies wifi`socket, wifi`closed, wifi`isConnected, wifi`currentDevice
      ensures wifi.Valid()
      ensures old(bt.isConnected) && plugin.Done? ==> !bt.isConnected && bt.currentDevice.None?
      ensures !old(bt.isConnected) || plugin.Failed? ==>
        bt.isConnected == old(bt.isConnected) && bt.currentDevice == old(bt.currentDevice)
      ensures old(wifi.isConnected) ==>
        && !wifi.isConnected && wifi.currentDevice.None? && wifi.socket.None?
        && wifi.closed == old(wifi.closed) + [old(wifi.socket).value]
      ensures !old(wifi.isConnected) ==>
        && wifi.socket == old(wifi.socket) && wifi.closed == old(wifi.closed)
        && wifi.currentDevice == old(wifi.currentDevice) && !wifi.isConnected
      ensures !old(bt.isConnected) || plugin.Done? ==> !IsConnected()
    {
      if bt.isConnected {
        bt.Disconnect(plugin);
      }
      if wifi.isConnected {
        wifi.Disconnect();
      }
    }
  }
}
