/**
 * The WebSocket hook `useWiFiELM327` (src/hooks/useWiFiELM327.ts): it opens `ws://ip:port`,
 * initialises the adapter from the socket's open handler, and exchanges one command for the
 * next message on the socket. Socket events (open, message, timeout, error, close) are
 * methods or inputs; `sent` and `closed` record what the hook does to its sockets.
 */
module WiFiHook {
  import opened Common
  import opened Text
  import Elm327Devices

  const NotConnected: string := "Not connected to device"
  const CommandTimeout: string := "Command timeout"
  const ConnectFailed: string := "Failed to connect to WiFi ELM327"

  /** The commands the open handler sends, in order (src/hooks/useWiFiELM327.ts:32-37). */
  const InitCommands: seq<string> := ["ATZ\r", "ATE0\r", "ATL0\r", "ATS0\r", "ATSP0\r"]

  /** A WebSocket to `ws://ip:port`. */
  datatype Socket = Socket(ip: string, port: nat)

  /** `WiFiELM327Device`. */
  datatype HookDevice = HookDevice(id: string, name: string, ip: string, port: nat, connected: bool)

  /** The device the open handler records (src/hooks/useWiFiELM327.ts:39-45). */
  function DeviceAt(ip: string, port: nat): (d: HookDevice)
    ensures d.ip == ip && d.port == port && d.connected
  {
    HookDevice("wifi-" + ip + ":" + Decimal(port), "ELM327 WiFi (" + ip + ")", ip, port, true)
  }

  /**
   * The hook names a device as the device list of `useELM327` does, so a device connected here
   * carries the id and name `addWiFiDevice` gives it, and its id gives back the address and port.
   */
  lemma DeviceMatchesListEntry(ip: string, port: nat)
    requires ':' !in ip
    ensures DeviceAt(ip, port).id == Elm327Devices.WiFiDevice(ip, port).id
    ensures DeviceAt(ip, port).name == Elm327Devices.WiFiDevice(ip, port).name
    ensures Elm327Devices.ParseWiFiId(DeviceAt(ip, port).id) == (ip, Some(Decimal(port)))
  {
    Elm327Devices.WiFiIdRoundTrip(ip, port);
  }

  /** What goes on the wire for a command: trimmed, upper-cased, one carriage return. */
  function Normalise(command: string): (wire: string)
    ensures |wire| >= 1 && wire[|wire| - 1] == '\r'
  {
    ToUpper(Trim(command)) + "\r"
  }

  /** A trimmed, upper-case text followed by a carriage return trims back to the text. */
  lemma TrimFramed(u: string)
    requires u == [] || (!IsWhitespace(u[0]) && !IsWhitespace(u[|u| - 1]))
    ensures Trim(u + "\r") == u
  {
    var w := u + "\r";
    if u == [] {
      assert TrimStart(w) == TrimStart(w[1..]) && w[1..] == [];
    } else {
      assert w[0] == u[0];
      assert TrimStart(w) == w;
      assert w[..|w| - 1] == u;
      assert TrimEnd(w) == TrimEnd(u);
    }
  }

  /** Normalising a command twice puts the same text on the wire as normalising it once. */
  lemma NormaliseIdempotent(command: string)
    ensures Normalise(Normalise(command)) == Normalise(command)
  {
    var t := Trim(command);
    var u := ToUpper(t);
    TrimFacts(command);
    if u != [] {
      UpperCharFacts(t[0]);
      UpperCharFacts(t[|t| - 1]);
    }
    TrimFramed(u);
    forall i | 0 <= i < |u|
      ensures UpperChar(u[i]) == u[i]
    {
      UpperCharFacts(t[i]);
    }
    assert ToUpper(u) == u;
  }

  /**
   * The wire text is the trimmed, upper-cased command followed by exactly one carriage return:
   * whatever carriage returns the caller put at the end were trimmed away first.
   */
  lemma {:induction false} NormaliseFramesOnce(command: string)
    ensures var w := Normalise(command); w[..|w| - 1] == ToUpper(Trim(command))
    ensures var w := Normalise(command); |w| == 1 || w[|w| - 2] != '\r'
  {
    var t := Trim(command);
    var w := Normalise(command);
    TrimFacts(command);
    assert w[..|w| - 1] == ToUpper(t);
    if |t| > 0 {
      UpperCharFacts(t[|t| - 1]);
      assert w[|w| - 2] == UpperChar(t[|t| - 1]);
      assert IsWhitespace('\r');
    }
  }

  /** A text with no space at either end and no lower-case letter, plus a carriage return, is in wire form. */
  lemma WireFormFixed(u: string)
    requires u != [] && !IsWhitespace(u[0]) && !IsWhitespace(u[|u| - 1])
    requires forall i :: 0 <= i < |u| ==> !('a' <= u[i] <= 'z')
    ensures Normalise(u + "\r") == u + "\r"
  {
    TrimFramed(u);
    assert ToUpper(u) == u;
  }

  /** Each init command is already in wire form. */
  lemma InitCommandIsWireForm(j: nat)
    requires j < |InitCommands|
    ensures Normalise(InitCommands[j]) == InitCommands[j]
  {
    var u := if j == 0 then "ATZ" else if j == 1 then "ATE0" else if j == 2 then "ATL0" else if j == 3 then "ATS0" else "ATSP0";
    assert InitCommands[j] == u + "\r";
    WireFormFixed(u);
  }

  /** How many exchanges in a row were answered before the first timeout. */
  function Answered(answers: seq<Option<string>>): (n: nat)
    ensures n <= |answers|
    ensures forall j :: 0 <= j < n ==> answers[j].Some?
    ensures n < |answers| ==> answers[n].None?
  {
    if answers == [] || answers[0].None? then 0 else 1 + Answered(answers[1..])
  }

  /** When every exchange is answered, all of them count. */
  lemma {:induction false} AnsweredAll(answers: seq<Option<string>>)
    requires forall j :: 0 <= j < |answers| ==> answers[j].Some?
    ensures Answered(answers) == |answers|
  {
    if answers != [] {
      AnsweredAll(answers[1..]);
    }
  }

  /** How many init commands the open handler sends: the answered ones and the one that timed out. */
  function InitSent(answers: seq<Option<string>>): (k: nat)
    requires |answers| == |InitCommands|
    ensures k <= |InitCommands|
    ensures k == |InitCommands| || k == Answered(answers) + 1
    ensures Answered(answers) <= k
  {
    var n := Answered(answers);
    if n == |InitCommands| then n else n + 1
  }

  /** A prefix one longer is the prefix and the next element. */
  lemma PrefixGrows(s: seq<string>, n: nat)
    requires n < |s|
    ensures s[..n + 1] == s[..n] + [s[n]]
  {
  }

  /**
   * The guard at the head of `sendCommand` (src/hooks/useWiFiELM327.ts:100-102), on the
   * `isConnected` and `socket` the callback closed over: the refusal, if it refuses.
   */
  function SendGuard(connected: bool, socket: Option<Socket>): (refusal: Option<Reply>)
    ensures refusal.Some? <==> !connected || socket.None?
    ensures refusal.Some? ==> refusal.value == Err(NotConnected)
  {
    if !connected || socket.None? then Some(Err(NotConnected)) else None
  }

  class WiFiHookState {
    var currentDevice: Option<HookDevice>
    var isConnecting: bool
    var isConnected: bool
    var error: Option<string>
    var socket: Option<Socket>
    /** The socket `connectDevice` created last, whose open handler has not run yet. */
    var opening: Option<Socket>
    /** Message listeners registered on the socket and not yet removed. */
    var listeners: nat
    /** Every `socket.send`, oldest first. */
    var sent: seq<string>
    /** Every `socket.close`, oldest first. */
    var closed: seq<Socket>

    /** A connected hook holds its device and its socket. */
    ghost predicate Valid()
      reads this
    {
      && (isConnected <==> currentDevice.Some?)
      && (isConnected ==> socket.Some?)
      && (currentDevice.Some? ==> currentDevice.value.connected)
    }

    constructor()
      ensures Valid()
      ensures currentDevice.None? && !isConnecting && !isConnected && error.None?
      ensures socket.None? && opening.None? && listeners == 0 && sent == [] && closed == []
    {
      currentDevice := None;
      isConnecting := false;
      isConnected := false;
      error := None;
      socket := None;
      opening := None;
      listeners := 0;
      sent := [];
      closed := [];
    }

    /**
     * `connectDevice` (src/hooks/useWiFiELM327.ts:20-88), up to the socket's events: the
     * socket is created with its handlers, or the constructor's error is recorded.
     */
    method ConnectDevice(ip: string, port: nat, created: Status)
      requires Valid()
      modifies this`isConnecting, this`error, this`opening
      ensures Valid()
      ensures created.Done? ==> isConnecting && error.None? && opening == Some(Socket(ip, port))
      ensures created.Failed? ==> !isConnecting && error == Some(created.message) && opening == old(opening)
    {
      isConnecting := true;
      error := None;
      if created.Failed? {
        error := Some(created.message);
        isConnecting := false;
      } else {
        opening := Some(Socket(ip, port));
      }
    }

    /**
     * One exchange on the open socket (src/hooks/useWiFiELM327.ts:104-117): the normalised
     * command is sent; the next message answers it and every registered listener, this one and
     * any left behind by a timeout, removes itself; a timeout rejects and leaves this listener
     * registered.
     */
    method Exchange(command: string, answer: Option<string>) returns (r: Reply)
      modifies this`listeners, this`sent
      ensures sent == old(sent) + [Normalise(command)]
      ensures answer.Some? ==> r == Ok(answer.value) && listeners == 0
      ensures answer.None? ==> r == Err(CommandTimeout) && listeners == old(listeners) + 1
    {
      sent := sent + [Normalise(command)];
      if answer.Some? {
        listeners := 0;
        r := Ok(answer.value);
      } else {
        listeners := listeners + 1;
        r := Err(CommandTimeout);
      }
    }

    /** `sendCommand` (src/hooks/useWiFiELM327.ts:99-118): refused unless connected with a socket. */
    method SendCommand(command: string, answer: Option<string>) returns (r: Reply)
      modifies this`listeners, this`sent
      ensures !isConnected || socket.None? ==>
        r == Err(NotConnected) && sent == old(sent) && listeners == old(listeners)
      ensures isConnected && socket.Some? ==> sent == old(sent) + [Normalise(command)]
      ensures isConnected && socket.Some? && answer.Some? ==> r == Ok(answer.value) && listeners == 0
      ensures isConnected && socket.Some? && answer.None? ==> r == Err(CommandTimeout) && listeners == old(listeners) + 1
    {
      var refusal := SendGuard(isConnected, socket);
      if refusal.Some? {
        return refusal.value;
      }
      r := Exchange(command, answer);
    }

    /**
     * The open handler as written (src/hooks/useWiFiELM327.ts:28-32). The `sendCommand` it calls
     * is the one `connectDevice` closed over when it was created, on the first render, when the
     * hook was neither connected nor holding a socket; so the first init command is refused
     * by that callback's guard, nothing is sent, the rejection `r` leaves the handler, and
     * nothing after it runs.
     */
    method OnOpenAsWritten() returns (r: Reply)
      requires Valid() && opening.Some?
      modifies this`socket, this`opening
      ensures Valid()
      ensures socket == old(opening) && opening.None?
      ensures r == Err(NotConnected)
      ensures sent == old(sent) && listeners == old(listeners) && currentDevice == old(currentDevice)
      ensures isConnected == old(isConnected) && isConnecting == old(isConnecting)
    {
      socket := opening;
      opening := None;
      var capturedConnected, capturedSocket := false, None;
      r := SendGuard(capturedConnected, capturedSocket).value;
    }

    /**
     * The open handler with the init commands sent on the socket it was called for: the five
     * commands go out in order, each waiting for its answer; once all are answered the device
     * is recorded and the hook is connected. A timeout ends the handler as in the source.
     */
    method OnOpen(answers: seq<Option<string>>)
      requires Valid() && opening.Some? && |answers| == |InitCommands|
      modifies this`socket, this`opening, this`listeners, this`sent, this`currentDevice, this`isConnected, this`isConnecting
      ensures Valid()
      ensures socket == old(opening) && opening.None?
      ensures sent == old(sent) + InitCommands[..InitSent(answers)]
      ensures Answered(answers) == |InitCommands| ==>
        && currentDevice == Some(DeviceAt(old(opening).value.ip, old(opening).value.port))
        && isConnected && !isConnecting && listeners == 0
      ensures Answered(answers) < |InitCommands| ==>
        && currentDevice == old(currentDevice) && isConnected == old(isConnected)
        && isConnecting == old(isConnecting)
        && listeners == (if Answered(answers) == 0 then old(listeners) else 0) + 1
    {
      var ws := opening.value;
      socket := opening;
      opening := None;
      var n := SendInit(answers);
      if n == |InitCommands| {
        currentDevice := Some(DeviceAt(ws.ip, ws.port));
        isConnected := true;
        isConnecting := false;
      }
    }

    /**
     * The init exchanges of the open handler: each command waits for its answer, and the first
     * timeout ends the sequence.
     */
    method SendInit(answers: seq<Option<string>>) returns (n: nat)
      requires |answers| == |InitCommands|
      modifies this`listeners, this`sent
      ensures n == Answered(answers)
      ensures sent == old(sent) + InitCommands[..InitSent(answers)]
      ensures n == |InitCommands| ==> listeners == 0
      ensures n < |InitCommands| ==> listeners == (if n == 0 then old(listeners) else 0) + 1
    {
      n := 0;
      while n < |InitCommands|
        invariant 0 <= n <= Answered(answers)
        invariant sent == old(sent) + InitCommands[..n]
        invariant listeners == if n == 0 then old(listeners) else 0
      {
        PrefixGrows(InitCommands, n);
        var answered := InitExchange(n, answers[n]);
        if !answered {
          return;
        }
        n := n + 1;
      }
    }

    /** The init exchange of the `k`th command: what goes on the wire is the command itself. */
    method InitExchange(k: nat, answer: Option<string>) returns (answered: bool)
      requires k < |InitCommands|
      modifies this`listeners, this`sent
      ensures answered <==> answer.Some?
      ensures sent == old(sent) + [InitCommands[k]]
      ensures listeners == if answered then 0 else old(listeners) + 1
    {
      var r := Exchange(InitCommands[k], answer);
      InitCommandIsWireForm(k);
      answered := r.Ok?;
    }

    /** The error handler (src/hooks/useWiFiELM327.ts:57-66). */
    method OnError()
      modifies this`error, this`isConnecting
      ensures error == Some(ConnectFailed) && !isConnecting
    {
      error := Some(ConnectFailed);
      isConnecting := false;
    }

    /** The close handler (src/hooks/useWiFiELM327.ts:68-76). */
    method OnClose()
      modifies this`isConnected, this`currentDevice, this`socket
      ensures Valid()
      ensures !isConnected && currentDevice.None? && socket.None?
    {
      isConnected := false;
      currentDevice := None;
      socket := None;
    }

    /**
     * `disconnect` (src/hooks/useWiFiELM327.ts:90-97): the socket, if any, is closed and
     * dropped; a socket still opening is left alone, and so is `isConnecting`.
     */
    method Disconnect()
      modifies this`socket, this`closed, this`isConnected, this`currentDevice
      ensures Valid()
      ensures !isConnected && currentDevice.None? && socket.None?
      ensures closed == old(closed) + (if old(socket).Some? then [old(socket).value] else [])
    {
      if socket.Some? {
        closed := closed + [socket.value];
        socket := None;
      }
      isConnected := false;
      currentDevice := None;
    }
  }

  /**
   * The open handler as written never completes a connection: on a fresh hook, a created
   * socket that opens leaves the hook connecting, unconnected, without a device, and with
   * nothing sent to the adapter; the open handler ends with the "not connected" rejection.
   */
  method FreshConnectAsWritten(ip: string, port: nat) returns (h: WiFiHookState, rejection: Reply)
    ensures h.isConnecting && !h.isConnected && h.currentDevice.None? && h.sent == []
    ensures h.socket == Some(Socket(ip, port))
    ensures rejection == Err(NotConnected)
  {
    h := new WiFiHookState();
    h.ConnectDevice(ip, port, Done);
    rejection := h.OnOpenAsWritten();
  }

  /**
   * With the init sent on the opened socket, the same fresh connect completes when every init
   * command is answered: the hook is connected to the device at that address, and the five
   * init commands were sent in order.
   */
  method FreshConnect(ip: string, port: nat, answers: seq<Option<string>>) returns (h: WiFiHookState)
    requires |answers| == |InitCommands| && forall j :: 0 <= j < |answers| ==> answers[j].Some?
    ensures !h.isConnecting && h.isConnected && h.currentDevice == Some(DeviceAt(ip, port))
    ensures h.sent == InitCommands && h.socket == Some(Socket(ip, port))
  {
    h := new WiFiHookState();
    h.ConnectDevice(ip, port, Done);
    AnsweredAll(answers);
    h.OnOpen(answers);
  }
}
