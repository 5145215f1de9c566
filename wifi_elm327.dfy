/**
 * The WiFi ELM327 transport (src/lib/wifi-elm327.ts): a WebSocket client for the adapter, or a
 * built-in mock on the web build, with a first-in first-out command queue of which at most one
 * command is in flight. The class keeps the source's fields; timer callbacks and socket events
 * are methods of their own that the environment calls. The queue part of every method is
 * proved to be the matching transition of module WiFiQueue, and `Valid` carries that module's
 * invariant.
 */
module WiFiTransport {
  import opened Common
  import opened Text
  import opened Framing
  import opened Ipv4
  import opened MockReplies
  import opened WiFiQueue

  /** The device record handed back by `connect` (its `lastConnected` date is not modelled). */
  datatype Device = Device(id: string, name: string, ipAddress: string, port: nat, connected: bool)

  datatype Endpoint = Endpoint(ip: string, port: nat)

  const DefaultPort: nat := 35000
  const InvalidIp: string := "Invalid IP address format"
  const ConnectTimedOut: string := "Connection timeout"
  const SocketFailed: string := "WebSocket connection failed"

  /** The commands `initializeELM327` sends, in order: reset, echo, linefeeds, headers, spaces off, auto protocol. */
  const InitCommands: seq<string> := ["ATZ", "ATE0", "ATL0", "ATH0", "ATS0", "ATSP0"]

  function DeviceFor(ep: Endpoint): Device {
    Device("wifi-" + ep.ip + "-" + Decimal(ep.port), "ELM327 WiFi (" + ep.ip + ")", ep.ip, ep.port, true)
  }

  /** An address that passes the dotted-quad check holds no '-'. */
  lemma ValidAddressHasNoDash(ip: string)
    requires IsValidIPv4(ip)
    ensures '-' !in ip
  {
    AcceptedIsDottedQuad(ip);
  }

  /**
   * Device ids identify endpoints: two endpoints whose addresses hold no '-' (every address that
   * passes the dotted-quad check, by `ValidAddressHasNoDash`) get the same id only if they are equal.
   */
  lemma DeviceIdIdentifiesEndpoint(e1: Endpoint, e2: Endpoint)
    requires '-' !in e1.ip && '-' !in e2.ip
    requires DeviceFor(e1).id == DeviceFor(e2).id
    ensures e1 == e2
  {
    var w := "wifi-";
    var s1 := e1.ip + ['-'] + Decimal(e1.port);
    var s2 := e2.ip + ['-'] + Decimal(e2.port);
    assert DeviceFor(e1).id == w + s1;
    assert DeviceFor(e2).id == w + s2;
    assert s1 == (w + s1)[|w|..] && s2 == (w + s2)[|w|..];
    SplitAtSeparator(e1.ip, Decimal(e1.port), e2.ip, Decimal(e2.port), '-');
    DecimalFacts(e1.port);
    DecimalFacts(e2.port);
  }

  class WiFiElm327 {
    /** `Capacitor.isNativePlatform()`: a real socket on a device, the mock on the web. */
    const native: bool

    var socket: SocketState
    var device: Option<Device>
    var isConnected: bool
    var hasMessageCallback: bool
    var buffer: string

    // the command queue and the promises of `sendCommand`
    var queue: seq<Pending>
    var current: Option<Pending>
    var settled: map<nat, Outcome>
    var sent: seq<string>
    var timerArmed: bool
    var mockReplyFor: Option<string>
    var nextTicket: nat

    /** Responses passed to the message callback, oldest first. */
    var delivered: seq<string>

    // the latest `connect` call
    var endpoint: Option<Endpoint>
    var connectTimerArmed: bool
    var mockConnectDue: bool
    var connectOutcome: Option<Result<Device>>

    // the latest `initializeELM327` run: the ticket it waits on and the index of its command
    var initTicket: Option<nat>
    var initStep: nat

    ghost function QueueState(): Machine
      reads this
    {
      Machine(queue, current, settled, sent, timerArmed, mockReplyFor)
    }

    function LinkState(): Link
      reads this
    {
      Link(native, isConnected, socket)
    }

    /**
     * The link-side invariant. The queue's own invariant, `WiFiQueue.Coherent`, is proved of
     * every transition in module WiFiQueue; each method below is proved to perform one of them.
     */
    ghost predicate Valid()
      reads this
    {
      && (isConnected <==> device.Some?)
      && TimersValid()
      && (native ==> !mockConnectDue)
      && (!native ==> socket == NoSocket && !connectTimerArmed)
      && (connectTimerArmed ==> socket == Connecting && !isConnected)
      && (socket != NoSocket || mockConnectDue ==> endpoint.Some?)
      && (initTicket.Some? ==> initTicket.value < nextTicket && initStep < |InitCommands|)
    }

    /** Each platform runs only its own kind of reply timer. */
    ghost predicate TimersValid()
      reads this
    {
      && (native ==> mockReplyFor.None?)
      && (!native ==> !timerArmed)
    }

    constructor(native: bool)
      ensures Valid()
      ensures this.native == native && socket == NoSocket && device.None? && !isConnected
      ensures !hasMessageCallback && buffer == "" && queue == [] && current.None? && settled == map[]
      ensures sent == [] && !timerArmed && mockReplyFor.None? && nextTicket == 0 && delivered == []
      ensures endpoint.None? && !connectTimerArmed && !mockConnectDue && connectOutcome.None? && initTicket.None?
    {
      this.native := native;
      socket := NoSocket;
      device := None;
      isConnected := false;
      hasMessageCallback := false;
      buffer := "";
      queue := [];
      current := None;
      settled := map[];
      sent := [];
      timerArmed := false;
      mockReplyFor := None;
      nextTicket := 0;
      delivered := [];
      endpoint := None;
      connectTimerArmed := false;
      mockConnectDue := false;
      connectOutcome := None;
      initTicket := None;
      initStep := 0;
    }

    /** `processCommandQueue` (src/lib/wifi-elm327.ts:188-195). */
    method ProcessCommandQueue()
      requires Valid()
      modifies this`queue, this`current, this`settled, this`sent, this`timerArmed, this`mockReplyFor
      ensures Valid()
      ensures QueueState() == Dispatch(old(QueueState()), LinkState())
      ensures native ==> mockReplyFor == old(mockReplyFor)
      ensures !native ==> timerArmed == old(timerArmed)
      decreases |queue|, 0
    {
      if |queue| > 0 && current.None? {
        var next := queue[0];
        queue := queue[1..];
        ExecuteCommand(next);
      }
    }

    /** `executeCommand` (src/lib/wifi-elm327.ts:203-271) for a command taken off the queue. */
    method ExecuteCommand(p: Pending)
      requires Valid()
      modifies this`queue, this`current, this`settled, this`sent, this`timerArmed, this`mockReplyFor
      ensures Valid()
      ensures QueueState() == Execute(old(QueueState()), p, LinkState())
      ensures native ==> mockReplyFor == old(mockReplyFor)
      ensures !native ==> timerArmed == old(timerArmed)
      decreases |queue|, 1
    {
      if !isConnected || (socket == NoSocket && native) {
        settled := settled[p.ticket := Rejected(NotConnected)];
        return;
      }
      ghost var before := QueueState();
      current := Some(p);
      var command := Frame(p.command);
      if !native {
        mockReplyFor := Some(command);
        return;
      }
      if socket == Connecting {
        // `WebSocket.send` throws while the socket is connecting; the catch block rejects and moves on
        settled := settled[p.ticket := Rejected(SendFailed)];
        current := None;
        assert QueueState() == before.(settled := before.settled[p.ticket := Rejected(SendFailed)], current := None);
        ProcessCommandQueue();
        return;
      }
      sent := sent + [command];
      timerArmed := true;
    }

    /**
     * `sendCommand` (src/lib/wifi-elm327.ts:278-293): the returned ticket names the promise.
     * Refused at once when not connected; otherwise queued, and dispatched when nothing is in flight.
     */
    method SendCommand(command: string) returns (ticket: nat)
      requires Valid()
      modifies this`queue, this`current, this`settled, this`sent, this`timerArmed, this`mockReplyFor,
               this`nextTicket
      ensures Valid()
      ensures ticket == old(nextTicket) && nextTicket == ticket + 1
      ensures !isConnected ==> QueueState() == RejectNow(old(QueueState()), ticket)
      ensures isConnected ==>
        QueueState() == Enqueue(old(QueueState()), Pending(ticket, command), LinkState())
    {
      ticket := nextTicket;
      nextTicket := nextTicket + 1;
      if !isConnected {
        settled := settled[ticket := Rejected(NotConnected)];
        return;
      }
      Accept(Pending(ticket, command));
    }

    /** The accepted branch of `sendCommand` (src/lib/wifi-elm327.ts:285-291). */
    method Accept(p: Pending)
      requires Valid()
      modifies this`queue, this`current, this`settled, this`sent, this`timerArmed, this`mockReplyFor
      ensures Valid()
      ensures QueueState() == Enqueue(old(QueueState()), p, LinkState())
    {
      ghost var m := QueueState();
      queue := queue + [p];
      ghost var m1 := QueueState();
      assert m1 == m.(queue := m.queue + [p]);
      if current.None? {
        ProcessCommandQueue();
      }
    }

    /**
     * `handleIncomingData` (src/lib/wifi-elm327.ts:153-183): buffer the data; once the buffer
     * holds the '>' prompt, pass the trimmed response to the callback and complete the command
     * in flight with it.
     */
    method HandleIncomingData(data: string)
      requires Valid() && mockReplyFor.None?
      modifies this`queue, this`current, this`settled, this`sent, this`timerArmed, this`mockReplyFor,
               this`buffer, this`delivered
      ensures Valid()
      ensures '>' !in old(buffer) + data ==>
        buffer == old(buffer) + data && QueueState() == old(QueueState()) && delivered == old(delivered)
      ensures '>' in old(buffer) + data ==>
        && buffer == ""
        && QueueState() == Complete(old(QueueState()), Trim(old(buffer) + data), LinkState())
        && delivered == old(delivered) + (if hasMessageCallback then [Trim(old(buffer) + data)] else [])
    {
      buffer := buffer + data;
      if '>' in buffer {
        TakeResponse();
      }
    }

    /** The prompt arrived (src/lib/wifi-elm327.ts:158-182): hand the trimmed buffer on. */
    method TakeResponse()
      requires Valid()
      modifies this`queue, this`current, this`settled, this`sent, this`timerArmed, this`mockReplyFor,
               this`buffer, this`delivered
      ensures Valid()
      ensures buffer == ""
      ensures QueueState() == Complete(old(QueueState()), Trim(old(buffer)), LinkState())
      ensures delivered == old(delivered) + (if hasMessageCallback then [Trim(old(buffer))] else [])
    {
      var response := Trim(buffer);
      buffer := "";
      if hasMessageCallback {
        delivered := delivered + [response];
      }
      Respond(response);
    }

    /**
     * A complete response arrived (src/lib/wifi-elm327.ts:160-181): clear the response timer,
     * resolve the command in flight and start the next.
     */
    method Respond(response: string)
      requires Valid()
      modifies this`queue, this`current, this`settled, this`sent, this`timerArmed, this`mockReplyFor
      ensures Valid()
      ensures QueueState() == Complete(old(QueueState()), response, LinkState())
    {
      ghost var m := QueueState();
      timerArmed := false;
      if current.Some? {
        settled := settled[current.value.ticket := Resolved(response)];
        current := None;
        ghost var m1 := QueueState();
        assert m1 == m.(timerArmed := false).(settled := m.settled[m.current.value.ticket := Resolved(response)], current := None);
        ProcessCommandQueue();
      }
    }

    /** The 5-second response timer of `executeCommand` fires (src/lib/wifi-elm327.ts:259-265). */
    method ResponseTimeoutFires()
      requires Valid() && timerArmed
      modifies this`queue, this`current, this`settled, this`sent, this`timerArmed, this`mockReplyFor
      ensures Valid()
      ensures QueueState() == TimeOut(old(QueueState()), LinkState())
    {
      ghost var m := QueueState();
      timerArmed := false;
      if current.Some? {
        settled := settled[current.value.ticket := Rejected(CommandTimeout)];
        current := None;
        ghost var m1 := QueueState();
        assert m1 == m.(timerArmed := false).(settled := m.settled[m.current.value.ticket := Rejected(CommandTimeout)], current := None);
        ProcessCommandQueue();
      }
    }

    /**
     * The 300 ms timer of the web-build mock fires (src/lib/wifi-elm327.ts:226-250): the canned
     * reply always holds the prompt, so the command in flight is resolved with it.
     */
    method MockReplyFires(coolant: nat, rpm: nat, voltageTenths: nat)
      requires Valid() && mockReplyFor.Some?
      modifies this`queue, this`current, this`settled, this`sent, this`timerArmed, this`mockReplyFor,
               this`buffer, this`delivered
      ensures Valid()
      ensures var response := Trim(old(buffer) + MockReply(old(mockReplyFor).value, coolant, rpm, voltageTenths));
        && buffer == ""
        && QueueState() == Complete(old(QueueState()).(mockReplyFor := None), response, LinkState())
    {
      var reply := MockReply(mockReplyFor.value, coolant, rpm, voltageTenths);
      ContainsChar(reply, '>');
      assert '>' in buffer + reply;
      mockReplyFor := None;
      HandleIncomingData(reply);
    }

    /**
     * `disconnect` (src/lib/wifi-elm327.ts:298-339). The web build only drops the flag and the
     * device; a native one also closes the socket, clears the buffer and the timer, and rejects
     * the command in flight and every queued one with "Disconnected".
     */
    method Disconnect()
      requires Valid()
      modifies this`queue, this`current, this`settled, this`sent, this`timerArmed, this`mockReplyFor,
               this`socket, this`isConnected, this`device, this`buffer
      ensures Valid()
      ensures !isConnected && device.None?
      ensures !old(isConnected) ==> QueueState() == old(QueueState()) && socket == old(socket) && buffer == old(buffer)
      ensures old(isConnected) && !native ==> QueueState() == old(QueueState()) && buffer == old(buffer)
      ensures old(isConnected) && native ==>
        && socket == NoSocket && buffer == ""
        && QueueState() == Abort(old(QueueState()))
    {
      if !isConnected {
        return;
      }
      if !native {
        isConnected := false;
        device := None;
        return;
      }
      CloseNative();
    }

    /** The native part of `disconnect` (src/lib/wifi-elm327.ts:311-338). */
    method CloseNative()
      requires Valid() && native && isConnected
      modifies this`queue, this`current, this`settled, this`sent, this`timerArmed, this`mockReplyFor,
               this`socket, this`isConnected, this`device, this`buffer
      ensures Valid()
      ensures !isConnected && device.None? && socket == NoSocket && buffer == ""
      ensures QueueState() == Abort(old(QueueState()))
    {
      CloseLink();
      RejectPending();
    }

    /** The socket is closed and dropped, and the link state cleared (src/lib/wifi-elm327.ts:309-316). */
    method CloseLink()
      requires Valid() && native && isConnected
      modifies this`socket, this`isConnected, this`device, this`buffer
      ensures Valid()
      ensures !isConnected && device.None? && socket == NoSocket && buffer == ""
    {
      socket := NoSocket;
      isConnected := false;
      device := None;
      buffer := "";
    }

    /** Rejects the command in flight and every queued command with "Disconnected" (src/lib/wifi-elm327.ts:318-337). */
    method RejectPending()
      modifies this`queue, this`current, this`settled, this`timerArmed
      ensures QueueState() == Abort(old(QueueState()))
      ensures old(Valid()) ==> Valid()
    {
      if current.Some? {
        settled := settled[current.value.ticket := Rejected(Disconnected)];
        current := None;
      }
      RejectQueued();
      queue := [];
      timerArmed := false;
    }

    /** The `forEach` of `disconnect` (src/lib/wifi-elm327.ts:325-327): reject every queued promise. */
    method RejectQueued()
      modifies this`settled
      ensures settled == RejectAll(old(settled), queue, Disconnected)
    {
      ghost var s0 := settled;
      var i := 0;
      while i < |queue|
        invariant 0 <= i <= |queue|
        invariant settled == RejectAll(s0, queue[..i], Disconnected)
      {
        RejectAllSnoc(s0, queue[..i], queue[i], Disconnected);
        assert queue[..i + 1] == queue[..i] + [queue[i]];
        settled := settled[queue[i].ticket := Rejected(Disconnected)];
        i := i + 1;
      }
      assert queue[..|queue|] == queue;
    }

    /**
     * `connect` (src/lib/wifi-elm327.ts:34-125) up to the point where it waits: an address that
     * fails the dotted-quad check is refused with no change; a connected transport disconnects
     * first, which on a native platform rejects every pending command (`Abort`); then the link
     * is opened (`OpenLink`).
     */
    method Connect(ip: string, port: nat) returns (error: Option<string>)
      requires Valid()
      modifies this`queue, this`current, this`settled, this`sent, this`timerArmed, this`mockReplyFor,
               this`socket, this`isConnected, this`device, this`buffer,
               this`endpoint, this`connectOutcome, this`mockConnectDue, this`connectTimerArmed
      ensures Valid()
      ensures !IsValidIPv4(ip) ==> error == Some(InvalidIp) && unchanged(this)
      ensures IsValidIPv4(ip) && old(isConnected) && native ==>
        QueueState() == Abort(old(QueueState())) && buffer == ""
      ensures !IsValidIPv4(ip) || !old(isConnected) || !native ==>
        QueueState() == old(QueueState()) && buffer == old(buffer)
      ensures nextTicket == old(nextTicket) && hasMessageCallback == old(hasMessageCallback) && delivered == old(delivered)
      ensures initTicket == old(initTicket) && initStep == old(initStep)
      ensures IsValidIPv4(ip) ==>
        && error.None? && endpoint == Some(Endpoint(ip, port)) && connectOutcome.None?
        && (!native ==> isConnected && device == Some(DeviceFor(Endpoint(ip, port))) && mockConnectDue)
        && (native ==> !isConnected && device.None? && socket == Connecting && connectTimerArmed)
    {
      if !IsValidIPv4(ip) {
        return Some(InvalidIp);
      }
      if isConnected {
        Disconnect();
      }
      OpenLink(ip, port);
      return None;
    }

    /**
     * The promise part of `connect` (src/lib/wifi-elm327.ts:46-124) on a disconnected transport:
     * the web build records the device at once and schedules the mock's 1-second timer; a
     * native one opens a socket and arms the 10-second connection timer.
     */
    method OpenLink(ip: string, port: nat)
      requires Valid() && !isConnected
      modifies this`socket, this`isConnected, this`device, this`endpoint, this`connectOutcome,
               this`mockConnectDue, this`connectTimerArmed
      ensures Valid()
      ensures endpoint == Some(Endpoint(ip, port)) && connectOutcome.None?
      ensures !native ==> isConnected && device == Some(DeviceFor(Endpoint(ip, port))) && mockConnectDue && socket == old(socket)
      ensures native ==> !isConnected && device.None? && socket == Connecting && connectTimerArmed
      ensures QueueState() == old(QueueState())
    {
      endpoint := Some(Endpoint(ip, port));
      connectOutcome := None;
      if !native {
        device := Some(DeviceFor(Endpoint(ip, port)));
        isConnected := true;
        mockConnectDue := true;
        return;
      }
      socket := Connecting;
      connectTimerArmed := true;
    }

    /** The connect promise settles once; later settlements are ignored. */
    method SettleConnect(outcome: Result<Device>)
      modifies this`connectOutcome
      ensures connectOutcome == if old(connectOutcome).None? then Some(outcome) else old(connectOutcome)
    {
      if connectOutcome.None? {
        connectOutcome := Some(outcome);
      }
    }

    /** `initializeELM327` starts (src/lib/wifi-elm327.ts:130-133): it sends "ATZ" and waits. */
    method StartInit()
      requires Valid()
      modifies this`queue, this`current, this`settled, this`sent, this`timerArmed, this`mockReplyFor,
               this`nextTicket, this`initTicket, this`initStep
      ensures Valid()
      ensures initStep == 0 && initTicket == Some(old(nextTicket)) && nextTicket == old(nextTicket) + 1
      ensures !isConnected ==> QueueState() == RejectNow(old(QueueState()), old(nextTicket))
      ensures isConnected ==>
        QueueState() == Enqueue(old(QueueState()), Pending(old(nextTicket), InitCommands[0]), LinkState())
    {
      initStep := 0;
      var t := SendCommand(InitCommands[0]);
      initTicket := Some(t);
    }

    /**
     * The awaited init command settled (src/lib/wifi-elm327.ts:133-146): after a rejection the
     * catch block ends the run; after a resolution the next command is sent, until "ATSP0" is done.
     * The one-second pause after "ATZ" is the environment's choice of when to call this.
     */
    method ResumeInit()
      requires Valid() && initTicket.Some? && initTicket.value in settled
      modifies this`queue, this`current, this`settled, this`sent, this`timerArmed, this`mockReplyFor,
               this`nextTicket, this`initTicket, this`initStep
      ensures Valid()
      ensures old(settled)[old(initTicket).value].Rejected? || old(initStep) + 1 == |InitCommands| ==>
        initTicket.None? && nextTicket == old(nextTicket) && QueueState() == old(QueueState())
      ensures old(settled)[old(initTicket).value].Resolved? && old(initStep) + 1 < |InitCommands| ==>
        && initStep == old(initStep) + 1 && initTicket == Some(old(nextTicket)) && nextTicket == old(nextTicket) + 1
        && (!isConnected ==> QueueState() == RejectNow(old(QueueState()), old(nextTicket)))
        && (isConnected ==>
              QueueState() == Enqueue(old(QueueState()), Pending(old(nextTicket), InitCommands[initStep]), LinkState()))
    {
      var outcome := settled[initTicket.value];
      if outcome.Rejected? || initStep + 1 == |InitCommands| {
        initTicket := None;
        return;
      }
      initStep := initStep + 1;
      var t := SendCommand(InitCommands[initStep]);
      initTicket := Some(t);
    }

    /** The socket's `onopen` (src/lib/wifi-elm327.ts:84-101): record the device, start the init, resolve. */
    method SocketOpened()
      requires Valid() && native && socket == Connecting
      modifies this`queue, this`current, this`settled, this`sent, this`timerArmed, this`mockReplyFor,
               this`nextTicket, this`initTicket, this`initStep,
               this`connectTimerArmed, this`device, this`isConnected, this`socket, this`connectOutcome
      ensures Valid()
      ensures socket == Open && isConnected && !connectTimerArmed
      ensures device == Some(DeviceFor(old(endpoint).value))
      ensures connectOutcome == if old(connectOutcome).None? then Some(Ok(DeviceFor(old(endpoint).value))) else old(connectOutcome)
      ensures initStep == 0 && initTicket == Some(old(nextTicket)) && nextTicket == old(nextTicket) + 1
      ensures QueueState() == Enqueue(old(QueueState()), Pending(old(nextTicket), InitCommands[0]), LinkState())
    {
      var d := RecordOpen();
      StartInit();
      SettleConnect(Ok(d));
    }

    /** The first half of `onopen` (src/lib/wifi-elm327.ts:85-98): clear the timer, record the device. */
    method RecordOpen() returns (d: Device)
      requires Valid() && native && socket == Connecting
      modifies this`connectTimerArmed, this`device, this`isConnected, this`socket
      ensures Valid()
      ensures d == DeviceFor(endpoint.value)
      ensures socket == Open && isConnected && !connectTimerArmed && device == Some(d)
    {
      connectTimerArmed := false;
      d := DeviceFor(endpoint.value);
      device := Some(d);
      isConnected := true;
      socket := Open;
    }

    /** The socket's `onclose` (src/lib/wifi-elm327.ts:103-109): the queue is left as it is. */
    method SocketClosed()
      requires Valid() && native && socket != NoSocket
      modifies this`connectTimerArmed, this`isConnected, this`device, this`socket
      ensures Valid()
      ensures !connectTimerArmed && !isConnected && device.None? && socket == NoSocket
    {
      connectTimerArmed := false;
      isConnected := false;
      device := None;
      socket := NoSocket;
    }

    /** The socket's `onerror` (src/lib/wifi-elm327.ts:111-115): rejects a pending connect. */
    method SocketErrored()
      requires Valid() && native && socket != NoSocket
      modifies this`connectTimerArmed, this`connectOutcome
      ensures Valid()
      ensures !connectTimerArmed
      ensures connectOutcome == if old(connectOutcome).None? then Some(Err(SocketFailed)) else old(connectOutcome)
    {
      connectTimerArmed := false;
      SettleConnect(Err(SocketFailed));
    }

    /** The 10-second connection timer fires (src/lib/wifi-elm327.ts:79-82): reject, then close the socket. */
    method ConnectTimeoutFires()
      requires Valid() && connectTimerArmed
      modifies this`connectTimerArmed, this`connectOutcome, this`socket
      ensures Valid()
      ensures !connectTimerArmed && socket == Closing
      ensures connectOutcome == if old(connectOutcome).None? then Some(Err(ConnectTimedOut)) else old(connectOutcome)
    {
      connectTimerArmed := false;
      SettleConnect(Err(ConnectTimedOut));
      socket := Closing;
    }

    /** The web build's 1-second connect timer fires (src/lib/wifi-elm327.ts:65-68): init, then resolve. */
    method MockConnectTimerFires()
      requires Valid() && mockConnectDue
      modifies this`queue, this`current, this`settled, this`sent, this`timerArmed, this`mockReplyFor,
               this`nextTicket, this`initTicket, this`initStep,
               this`mockConnectDue, this`connectOutcome
      ensures Valid()
      ensures !mockConnectDue
      ensures connectOutcome == if old(connectOutcome).None? then Some(Ok(DeviceFor(old(endpoint).value))) else old(connectOutcome)
      ensures initStep == 0 && initTicket == Some(old(nextTicket)) && nextTicket == old(nextTicket) + 1
      ensures !isConnected ==> QueueState() == RejectNow(old(QueueState()), old(nextTicket))
      ensures isConnected ==>
        QueueState() == Enqueue(old(QueueState()), Pending(old(nextTicket), InitCommands[0]), LinkState())
    {
      mockConnectDue := false;
      var d := DeviceFor(endpoint.value);
      StartInit();
      SettleConnect(Ok(d));
    }

    /** `setMessageCallback` (src/lib/wifi-elm327.ts:345-347). */
    method SetMessageCallback()
      modifies this`hasMessageCallback
      ensures hasMessageCallback
    {
      hasMessageCallback := true;
    }

    /** `removeMessageCallback` (src/lib/wifi-elm327.ts:352-354). */
    method RemoveMessageCallback()
      modifies this`hasMessageCallback
      ensures !hasMessageCallback
    {
      hasMessageCallback := false;
    }

    /** `isDeviceConnected` (src/lib/wifi-elm327.ts:360-362). */
    method IsDeviceConnected() returns (r: bool)
      requires Valid()
      ensures r == isConnected && (r <==> device.Some?)
    {
      r := isConnected;
    }

    /** `getConnectedDevice` (src/lib/wifi-elm327.ts:368-370). */
    method GetConnectedDevice() returns (r: Option<Device>)
      requires Valid()
      ensures r == device && (r.Some? <==> isConnected)
    {
      r := device;
    }
  }
}
