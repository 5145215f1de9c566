/**
 * The command queue of the WiFi ELM327 transport (src/lib/wifi-elm327.ts:153-339), as pure
 * transitions over the queue's state. Every command handed to `sendCommand` gets a ticket; the
 * promise it returns is modelled by the entry for that ticket in `settled`. The transport class
 * (module WiFiTransport) is proved to perform exactly these transitions; the lemmas here state
 * what the transitions promise: first in, first out, one command in flight, and every promise
 * settled at most once.
 */
module WiFiQueue {
  import opened Common
  import opened Framing

  /** A queued `sendCommand` call: its ticket and the command text as given. */
  datatype Pending = Pending(ticket: nat, command: string)

  /** How the promise of a command was settled. */
  datatype Outcome = Resolved(response: string) | Rejected(reason: string)

  /** The transport's `socket` field: absent, or a WebSocket in one of its ready states. */
  datatype SocketState = NoSocket | Connecting | Open | Closing

  /** What `executeCommand` consults before sending: the platform, the flag and the socket. */
  datatype Link = Link(native: bool, isConnected: bool, socket: SocketState)
  {
    /** The guard of `executeCommand`: not connected, or native without a socket. */
    predicate Refuses() {
      !isConnected || (socket == NoSocket && native)
    }

    /** `WebSocket.send` throws on a socket that is still connecting. */
    predicate SendThrows() {
      !Refuses() && native && socket == Connecting
    }

    /** The command reaches the device (or the web-build mock). */
    predicate Ready() {
      !Refuses() && !SendThrows()
    }
  }

  const NotConnected: string := "Not connected to WiFi ELM327"
  const SendFailed: string := "InvalidStateError"
  const CommandTimeout: string := "Command timeout"
  const Disconnected: string := "Disconnected"

  /**
   * The queue part of the transport: waiting commands, the command in flight, the settled
   * promises, the text written to the socket, and whether the 5-second response timer or the
   * web-build mock reply is pending.
   */
  datatype Machine = Machine(
    queue: seq<Pending>,
    current: Option<Pending>,
    settled: map<nat, Outcome>,
    sent: seq<string>,
    timerArmed: bool,
    mockReplyFor: Option<string>)

  predicate Queued(q: seq<Pending>, t: nat) {
    exists i :: 0 <= i < |q| && q[i].ticket == t
  }

  /** Rejects every queued promise with `reason`, front to back (the `forEach` of `disconnect`). */
  function RejectAll(settled: map<nat, Outcome>, q: seq<Pending>, reason: string): (r: map<nat, Outcome>)
    ensures q == [] ==> r == settled
    decreases |q|
  {
    if q == [] then settled
    else RejectAll(settled[q[0].ticket := Rejected(reason)], q[1..], reason)
  }

  /**
   * `RejectAll` settles exactly the queued tickets, each with `reason`, and keeps every other
   * settled promise as it was.
   */
  lemma {:induction false} RejectAllFacts(settled: map<nat, Outcome>, q: seq<Pending>, reason: string)
    ensures var r := RejectAll(settled, q, reason);
      && (forall t :: t in r <==> t in settled || Queued(q, t))
      && (forall i :: 0 <= i < |q| ==> q[i].ticket in r && r[q[i].ticket] == Rejected(reason))
      && (forall t :: t in settled && !Queued(q, t) ==> r[t] == settled[t])
    decreases |q|
  {
    if q != [] {
      RejectAllFacts(settled[q[0].ticket := Rejected(reason)], q[1..], reason);
      forall t
        ensures Queued(q, t) <==> t == q[0].ticket || Queued(q[1..], t)
      {
        if Queued(q, t) {
          var i :| 0 <= i < |q| && q[i].ticket == t;
          if i > 0 {
            assert q[1..][i - 1].ticket == t;
          }
        }
        if Queued(q[1..], t) {
          var i :| 0 <= i < |q[1..]| && q[1..][i].ticket == t;
          assert q[i + 1].ticket == t;
        }
      }
      forall i | 0 <= i < |q|
        ensures q[i].ticket in RejectAll(settled, q, reason)
      {
        if i > 0 {
          assert q[i] == q[1..][i - 1];
        }
      }
    }
  }

  /** Rejecting one more queued command at the end extends `RejectAll` by that ticket. */
  lemma {:induction false} RejectAllSnoc(settled: map<nat, Outcome>, q: seq<Pending>, p: Pending, reason: string)
    ensures RejectAll(settled, q + [p], reason) == RejectAll(settled, q, reason)[p.ticket := Rejected(reason)]
    decreases |q|
  {
    if q != [] {
      assert (q + [p])[1..] == q[1..] + [p];
      RejectAllSnoc(settled[q[0].ticket := Rejected(reason)], q[1..], p, reason);
    }
  }

  /** `processCommandQueue`: start the head of the queue when nothing is in flight. */
  function Dispatch(m: Machine, link: Link): Machine
    decreases |m.queue|, 0
  {
    if m.queue == [] || m.current.Some? then m
    else Execute(m.(queue := m.queue[1..]), m.queue[0], link)
  }

  /**
   * `executeCommand` for a command just taken off the queue: refuse it, hand it to the web-build
   * mock, send it framed and arm the response timer, or (when the send throws) reject it and
   * move on to the next.
   */
  function Execute(m: Machine, p: Pending, link: Link): Machine
    decreases |m.queue|, 1
  {
    if link.Refuses() then
      m.(settled := m.settled[p.ticket := Rejected(NotConnected)])
    else if !link.native then
      m.(current := Some(p), mockReplyFor := Some(Frame(p.command)))
    else if link.socket == Connecting then
      Dispatch(m.(settled := m.settled[p.ticket := Rejected(SendFailed)], current := None), link)
    else
      m.(current := Some(p), sent := m.sent + [Frame(p.command)], timerArmed := true)
  }

  /** The accepted branch of `sendCommand`: append, and dispatch when nothing is in flight. */
  function Enqueue(m: Machine, p: Pending, link: Link): Machine {
    var m1 := m.(queue := m.queue + [p]);
    if m.current.None? then Dispatch(m1, link) else m1
  }

  /** The refused branch of `sendCommand`: the new promise is rejected at once. */
  function RejectNow(m: Machine, ticket: nat): Machine {
    m.(settled := m.settled[ticket := Rejected(NotConnected)])
  }

  /** A complete response arrived: clear the timer, resolve the command in flight, start the next. */
  function Complete(m: Machine, response: string, link: Link): Machine {
    var m1 := m.(timerArmed := false);
    if m.current.Some? then
      Dispatch(m1.(settled := m.settled[m.current.value.ticket := Resolved(response)], current := None), link)
    else m1
  }

  /** The 5-second response timer fired: reject the command in flight and start the next. */
  function TimeOut(m: Machine, link: Link): Machine {
    var m1 := m.(timerArmed := false);
    if m.current.Some? then
      Dispatch(m1.(settled := m.settled[m.current.value.ticket := Rejected(CommandTimeout)], current := None), link)
    else m1
  }

  /** The native `disconnect`: reject the command in flight and every queued one, clear the timer. */
  function Abort(m: Machine): Machine {
    var s := if m.current.Some? then m.settled[m.current.value.ticket := Rejected(Disconnected)] else m.settled;
    m.(settled := RejectAll(s, m.queue, Disconnected), queue := [], current := None, timerArmed := false)
  }

  /** No settled promise changes: `b` only adds entries to `a`. */
  ghost predicate Extends(a: map<nat, Outcome>, b: map<nat, Outcome>) {
    forall t :: t in a ==> t in b && b[t] == a[t]
  }

  /**
   * The queue's invariant, relative to the next unused ticket: tickets are handed out in call
   * order, so the queue holds increasing tickets and the command in flight precedes all of them
   * (first in, first out); queued and in-flight promises are unsettled; every ticket handed out
   * is settled, in flight or queued (none is lost); and timers only run for a command in flight.
   */
  ghost predicate Coherent(m: Machine, next: nat) {
    && (forall t :: t in m.settled ==> t < next)
    && (forall i :: 0 <= i < |m.queue| ==> m.queue[i].ticket < next && m.queue[i].ticket !in m.settled)
    && (forall i, j :: 0 <= i < j < |m.queue| ==> m.queue[i].ticket < m.queue[j].ticket)
    && (m.current.Some? ==>
          && m.current.value.ticket < next && m.current.value.ticket !in m.settled
          && forall i :: 0 <= i < |m.queue| ==> m.current.value.ticket < m.queue[i].ticket)
    && (forall t :: 0 <= t < next ==>
          t in m.settled || (m.current.Some? && t == m.current.value.ticket) || Queued(m.queue, t))
    && (m.timerArmed ==> m.current.Some?)
    && (m.mockReplyFor.Some? ==> m.current.Some?)
  }

  /**
   * A ready link puts the head of the queue in flight: written to the socket with a carriage
   * return and the response timer armed on a native platform, handed to the mock otherwise.
   */
  lemma DispatchReady(m: Machine, link: Link)
    requires m.queue != [] && m.current.None? && link.Ready()
    ensures var d := Dispatch(m, link); var p := m.queue[0];
      && d.current == Some(p) && d.queue == m.queue[1..] && d.settled == m.settled
      && (link.native ==> d.sent == m.sent + [Frame(p.command)] && d.timerArmed)
      && (!link.native ==> d.sent == m.sent && d.mockReplyFor == Some(Frame(p.command)))
      && (link.native ==> d.mockReplyFor == m.mockReplyFor)
      && (!link.native ==> d.timerArmed == m.timerArmed)
  {
    assert Dispatch(m, link) == Execute(m.(queue := m.queue[1..]), m.queue[0], link);
  }

  /** A refusing link rejects the head of the queue with "Not connected to WiFi ELM327". */
  lemma DispatchRefused(m: Machine, link: Link)
    requires m.queue != [] && m.current.None? && link.Refuses()
    ensures var d := Dispatch(m, link); var p := m.queue[0];
      && d.current.None? && d.queue == m.queue[1..]
      && d.settled == m.settled[p.ticket := Rejected(NotConnected)] && d.sent == m.sent
      && d.timerArmed == m.timerArmed && d.mockReplyFor == m.mockReplyFor
  {
    assert Dispatch(m, link) == Execute(m.(queue := m.queue[1..]), m.queue[0], link);
  }

  /** One step of `DispatchThrows`: the head is rejected and dispatch continues with the rest. */
  lemma ThrowHead(m: Machine, link: Link) returns (m2: Machine)
    requires m.queue != [] && m.current.None? && link.SendThrows()
    ensures m2 == m.(queue := m.queue[1..], settled := m.settled[m.queue[0].ticket := Rejected(SendFailed)])
    ensures Dispatch(m, link) == Dispatch(m2, link)
  {
    var m1 := m.(queue := m.queue[1..]);
    m2 := m1.(settled := m1.settled[m.queue[0].ticket := Rejected(SendFailed)], current := None);
    assert Dispatch(m, link) == Execute(m1, m.queue[0], link);
  }

  /**
   * On a native socket that is still connecting every send throws, and each rejection moves on
   * to the next command, so the whole queue is rejected in order and nothing is written.
   */
  lemma {:induction false} DispatchThrows(m: Machine, link: Link)
    requires m.current.None? && link.SendThrows()
    ensures var d := Dispatch(m, link);
      && d.current.None? && d.queue == [] && d.sent == m.sent
      && d.settled == RejectAll(m.settled, m.queue, SendFailed)
      && d.timerArmed == m.timerArmed && d.mockReplyFor == m.mockReplyFor
    decreases |m.queue|
  {
    if m.queue != [] {
      var m2 := ThrowHead(m, link);
      DispatchThrows(m2, link);
      assert RejectAll(m.settled, m.queue, SendFailed) == RejectAll(m2.settled, m2.queue, SendFailed);
    }
  }

  /**
   * `processCommandQueue` only ever removes commands from the front of the queue, and does
   * nothing while a command is in flight.
   */
  lemma DispatchTakesFromFront(m: Machine, link: Link)
    ensures var d := Dispatch(m, link);
      && |d.queue| <= |m.queue| && d.queue == m.queue[|m.queue| - |d.queue|..]
    ensures m.current.Some? ==> Dispatch(m, link) == m
  {
    if m.queue == [] || m.current.Some? {
    } else if link.SendThrows() {
      DispatchThrows(m, link);
    } else if link.Refuses() {
      DispatchRefused(m, link);
    } else {
      DispatchReady(m, link);
    }
  }

  /**
   * Dispatch starts no timer the platform does not use: on a native platform it leaves the
   * mock's reply alone, on the web build it leaves the response timer alone.
   */
  lemma DispatchKeepsOtherTimer(m: Machine, link: Link)
    ensures link.native ==> Dispatch(m, link).mockReplyFor == m.mockReplyFor
    ensures !link.native ==> Dispatch(m, link).timerArmed == m.timerArmed
  {
    if m.queue == [] || m.current.Some? {
    } else if link.SendThrows() {
      DispatchThrows(m, link);
    } else if link.Refuses() {
      DispatchRefused(m, link);
    } else {
      DispatchReady(m, link);
    }
  }

  /**
   * Refused commands strand the queue: when the link refuses, dispatch rejects only the head
   * and leaves the others queued with nothing in flight and no timer, so no pending event
   * settles them until a later `sendCommand` dispatches again.
   */
  lemma StrandedAfterRefusal(m: Machine, link: Link)
    requires |m.queue| >= 2 && m.current.None? && !m.timerArmed && m.mockReplyFor.None?
    requires link.Refuses()
    ensures var d := Dispatch(m, link);
      && d.queue == m.queue[1..] && d.queue != []
      && d.current.None? && !d.timerArmed && d.mockReplyFor.None?
  {
    assert Dispatch(m, link) == Execute(m.(queue := m.queue[1..]), m.queue[0], link);
  }

  /** Settles the command in flight with `o`; nothing is in flight afterwards and no timer runs. */
  function SettleInFlight(m: Machine, o: Outcome): Machine
    requires m.current.Some?
  {
    m.(settled := m.settled[m.current.value.ticket := o], current := None, timerArmed := false)
  }

  /** Settling the command in flight keeps the invariant and changes no other promise. */
  lemma SettleInFlightCoherent(m: Machine, o: Outcome, next: nat)
    requires Coherent(m, next) && m.current.Some? && m.mockReplyFor.None?
    ensures Coherent(SettleInFlight(m, o), next)
    ensures Extends(m.settled, SettleInFlight(m, o).settled)
    ensures SettleInFlight(m, o).settled[m.current.value.ticket] == o
  {
  }

  /** Taking the head of the queue puts it in flight without breaking the invariant. */
  lemma TakeHeadCoherent(m: Machine, next: nat)
    requires Coherent(m, next) && m.queue != [] && m.current.None?
    ensures Coherent(m.(queue := m.queue[1..], current := Some(m.queue[0])), next)
  {
    var c := m.(queue := m.queue[1..], current := Some(m.queue[0]));
    forall t | 0 <= t < next
      ensures t in c.settled || (c.current.Some? && t == c.current.value.ticket) || Queued(c.queue, t)
    {
      if Queued(m.queue, t) {
        var i :| 0 <= i < |m.queue| && m.queue[i].ticket == t;
        if i > 0 {
          assert c.queue[i - 1].ticket == t;
        }
      }
    }
  }

  /** `processCommandQueue` keeps the invariant and never changes a settled promise. */
  lemma {:induction false} DispatchCoherent(m: Machine, link: Link, next: nat)
    requires Coherent(m, next)
    ensures Coherent(Dispatch(m, link), next)
    ensures Extends(m.settled, Dispatch(m, link).settled)
    decreases |m.queue|
  {
    if m.queue == [] || m.current.Some? {
      return;
    }
    var p := m.queue[0];
    var m1 := m.(queue := m.queue[1..]);
    var c := m1.(current := Some(p));
    TakeHeadCoherent(m, next);
    assert Dispatch(m, link) == Execute(m1, p, link);
    if link.Refuses() {
      assert Execute(m1, p, link) == SettleInFlight(c, Rejected(NotConnected));
      SettleInFlightCoherent(c, Rejected(NotConnected), next);
    } else if !link.native {
    } else if link.socket == Connecting {
      var m2 := SettleInFlight(c, Rejected(SendFailed));
      assert Execute(m1, p, link) == Dispatch(m2, link);
      SettleInFlightCoherent(c, Rejected(SendFailed), next);
      DispatchCoherent(m2, link, next);
    } else {
    }
  }

  /** Appending the next ticket keeps the queue's tickets fresh, unsettled and increasing. */
  lemma AppendOrdered(m: Machine, p: Pending, next: nat)
    requires Coherent(m, next) && p.ticket == next
    ensures var q1 := m.queue + [p];
      && (forall i :: 0 <= i < |q1| ==> q1[i].ticket < next + 1 && q1[i].ticket !in m.settled)
      && (forall i, j :: 0 <= i < j < |q1| ==> q1[i].ticket < q1[j].ticket)
  {
    var q := m.queue;
    var q1 := q + [p];
    assert q1[|q|] == p;
    forall i | 0 <= i < |q1|
      ensures q1[i].ticket < next + 1 && q1[i].ticket !in m.settled
    {
      if i < |q| {
        assert q1[i] == q[i];
      }
    }
    forall i, j | 0 <= i < j < |q1|
      ensures q1[i].ticket < q1[j].ticket
    {
      assert q1[i] == q[i];
      if j < |q| {
        assert q1[j] == q[j];
      }
    }
  }

  /** Appending the next ticket keeps the command in flight ahead of the queue, and loses no ticket. */
  lemma AppendCovered(m: Machine, p: Pending, next: nat)
    requires Coherent(m, next) && p.ticket == next
    ensures var q1 := m.queue + [p];
      && (m.current.Some? ==> forall i :: 0 <= i < |q1| ==> m.current.value.ticket < q1[i].ticket)
      && (forall t :: 0 <= t < next + 1 ==>
            t in m.settled || (m.current.Some? && t == m.current.value.ticket) || Queued(q1, t))
  {
    var q := m.queue;
    var q1 := q + [p];
    assert q1[|q|] == p;
    if m.current.Some? {
      forall i | 0 <= i < |q1|
        ensures m.current.value.ticket < q1[i].ticket
      {
        if i < |q| {
          assert q1[i] == q[i];
        }
      }
    }
    forall t | 0 <= t < next + 1
      ensures t in m.settled || (m.current.Some? && t == m.current.value.ticket) || Queued(q1, t)
    {
      if t == next {
        assert q1[|q|].ticket == t;
      } else if Queued(q, t) {
        var i :| 0 <= i < |q| && q[i].ticket == t;
        assert q1[i].ticket == t;
      }
    }
  }

  /** Queueing the next ticket last keeps the invariant, one ticket further on. */
  lemma AppendCoherent(m: Machine, p: Pending, next: nat)
    requires Coherent(m, next) && p.ticket == next
    ensures Coherent(m.(queue := m.queue + [p]), next + 1)
  {
    AppendOrdered(m, p, next);
    AppendCovered(m, p, next);
  }

  /** The accepted branch of `sendCommand` keeps the invariant with the new ticket queued last. */
  lemma EnqueueCoherent(m: Machine, p: Pending, link: Link, next: nat)
    requires Coherent(m, next) && p.ticket == next
    ensures Coherent(Enqueue(m, p, link), next + 1)
    ensures Extends(m.settled, Enqueue(m, p, link).settled)
  {
    var m1 := m.(queue := m.queue + [p]);
    AppendCoherent(m, p, next);
    if m.current.None? {
      DispatchCoherent(m1, link, next + 1);
    }
  }

  /** The refused branch of `sendCommand` settles only the new ticket. */
  lemma RejectNowCoherent(m: Machine, next: nat)
    requires Coherent(m, next)
    ensures Coherent(RejectNow(m, next), next + 1)
    ensures Extends(m.settled, RejectNow(m, next).settled)
    ensures RejectNow(m, next).settled[next] == Rejected(NotConnected)
  {
  }

  /** A complete response keeps the invariant and settles exactly the command that was in flight. */
  lemma CompleteCoherent(m: Machine, response: string, link: Link, next: nat)
    requires Coherent(m, next) && m.mockReplyFor.None?
    ensures Coherent(Complete(m, response, link), next)
    ensures Extends(m.settled, Complete(m, response, link).settled)
    ensures m.current.Some? ==> var s := Complete(m, response, link).settled;
      m.current.value.ticket in s && s[m.current.value.ticket] == Resolved(response)
  {
    if m.current.Some? {
      var m2 := SettleInFlight(m, Resolved(response));
      assert Complete(m, response, link) == Dispatch(m2, link);
      SettleInFlightCoherent(m, Resolved(response), next);
      DispatchCoherent(m2, link, next);
    }
  }

  /** The response timer keeps the invariant and rejects exactly the command that was in flight. */
  lemma TimeOutCoherent(m: Machine, link: Link, next: nat)
    requires Coherent(m, next) && m.mockReplyFor.None?
    ensures Coherent(TimeOut(m, link), next)
    ensures Extends(m.settled, TimeOut(m, link).settled)
    ensures m.current.Some? ==> var s := TimeOut(m, link).settled;
      m.current.value.ticket in s && s[m.current.value.ticket] == Rejected(CommandTimeout)
  {
    if m.current.Some? {
      var m2 := SettleInFlight(m, Rejected(CommandTimeout));
      assert TimeOut(m, link) == Dispatch(m2, link);
      SettleInFlightCoherent(m, Rejected(CommandTimeout), next);
      DispatchCoherent(m2, link, next);
    }
  }

  /**
   * The native `disconnect` keeps the invariant, changes no settled promise, and leaves every
   * ticket handed out settled: after it no promise of the transport is left pending.
   */
  lemma AbortCoherent(m: Machine, next: nat)
    requires Coherent(m, next) && m.mockReplyFor.None?
    ensures Coherent(Abort(m), next)
    ensures Extends(m.settled, Abort(m).settled)
    ensures forall t :: 0 <= t < next ==> t in Abort(m).settled
  {
    var s0 := m;
    if m.current.Some? {
      s0 := SettleInFlight(m, Rejected(Disconnected));
      SettleInFlightCoherent(m, Rejected(Disconnected), next);
    }
    assert Abort(m) == Abort(s0);
    RejectAllFacts(s0.settled, m.queue, Disconnected);
  }
}
