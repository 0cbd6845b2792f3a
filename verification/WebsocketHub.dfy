/**
 * The websocket hub: one loop that registers, unregisters and broadcasts, next to any number of connections and
 * producers. Every select branch and every channel operation outside the loop is one atomic step.
 */
module WebsocketHub {
  import opened Strings
  import opened Common

  datatype Message = Alert(body: string) | Hosts(body: string)

  /** Clients are told apart by the identity of their connection. */
  type Id = nat

  const SEND_CAPACITY := 32
  const REGISTER_CAPACITY := 16
  const UNREGISTER_CAPACITY := 64
  const BROADCAST_CAPACITY := 64

  function MaxConnections(configured: int): nat {
    if configured <= 0 then 1000 else configured
  }

  /** A client's send channel. */
  datatype Chan = Chan(buffer: seq<Message>, closed: bool)

  /**
   * What happened to a client so far: messages put into and taken out of its channel, how often the channel was closed,
   * how many broadcasts the loop had handled when the client entered and left the map, and whether its reader ended.
   */
  datatype Trace = Trace(pushed: seq<Message>, taken: seq<Message>, closes: nat, joined: Option<nat>, left: Option<nat>,
                         ended: bool)

  datatype State = State(
    clients: set<Id>,
    send: map<Id, Chan>,
    register: seq<Id>,
    unregister: seq<Id>,
    broadcast: seq<Message>,
    done: bool,
    gauge: Option<nat>,
    handled: seq<Message>,
    traces: map<Id, Trace>)

  const INITIAL := State({}, map[], [], [], [], false, None, [], map[])

  datatype Step =
    | Register                     // the loop takes a client from the register channel
    | Unregister                   // the loop takes a client from the unregister channel
    | Broadcast                    // the loop takes a message from the broadcast channel
    | Shutdown                     // the loop ends
    | Serve(client: Id)            // a new connection is queued for registration
    | ReadEnds(client: Id)         // a connection's reader ends and asks to be unregistered
    | Take(client: Id)             // a connection's writer takes a message
    | Enqueue(message: Message)    // a producer queues a message

  predicate Enabled(s: State, step: Step) {
    match step
    case Register => !s.done && s.register != []
    case Unregister => !s.done && s.unregister != []
    case Broadcast => !s.done && s.broadcast != []
    case Shutdown => !s.done
    case Serve(c) => c !in s.send && |s.register| < REGISTER_CAPACITY    // also in a race with the loop's end
    case ReadEnds(c) => c in s.send && c in s.traces && !s.traces[c].ended
    case Take(c) => c in s.send && s.send[c].buffer != []
    case Enqueue(m) => |s.broadcast| < BROADCAST_CAPACITY
  }

  // ---- Single channels ----

  function Closed(c: Chan): Chan {
    c.(closed := true)
  }

  function ClosedTrace(t: Trace): Trace {
    t.(closes := t.closes + 1)
  }

  function LeftTrace(t: Trace, handled: nat): Trace {
    t.(closes := t.closes + 1, left := Some(handled))
  }

  predicate IsFull(c: Chan) {
    |c.buffer| >= SEND_CAPACITY
  }

  /** The clients of the map whose channel has no room. */
  function FullClients(s: State): set<Id>
    requires s.clients <= s.send.Keys
  {
    set c | c in s.clients && IsFull(s.send[c])
  }

  // ---- The loop's branches ----

  function AfterRegister(s: State, max: nat): State
    requires s.register != [] && s.register[0] in s.send && s.send.Keys == s.traces.Keys
  {
    var c := s.register[0];
    var popped := s.(register := s.register[1..]);
    if |s.clients| >= max then
      popped.(send := s.send[c := Closed(s.send[c])], traces := s.traces[c := ClosedTrace(s.traces[c])])
    else
      popped.(clients := s.clients + {c}, gauge := Some(|s.clients + {c}|),
              traces := s.traces[c := s.traces[c].(joined := Some(|s.handled|))])
  }

  function Removed(s: State, c: Id): State
    requires c in s.send && s.send.Keys == s.traces.Keys
  {
    s.(clients := s.clients - {c}, send := s.send[c := Closed(s.send[c])],
       traces := s.traces[c := LeftTrace(s.traces[c], |s.handled|)])
  }

  function AfterUnregister(s: State): State
    requires s.unregister != [] && s.clients <= s.send.Keys == s.traces.Keys
  {
    var c := s.unregister[0];
    var popped := s.(unregister := s.unregister[1..]);
    if c in s.clients then Removed(popped, c).(gauge := Some(|s.clients - {c}|)) else popped
  }

  /** The message offered to the clients visited: pushed where there is room, the client dropped where there is none. */
  function Offered(s: State, m: Message, visited: set<Id>): State
    requires s.clients <= s.send.Keys == s.traces.Keys
  {
    var dropped := FullClients(s) * visited;
    s.(clients := s.clients - dropped,
       send := map c | c in s.send :: OfferedChan(s.send[c], m, c in s.clients * visited),
       traces := map c | c in s.traces :: OfferedTrace(s.traces[c], s.send[c], m, |s.handled|, c in s.clients * visited),
       gauge := if dropped == {} then s.gauge else Some(|s.clients - dropped|))
  }

  function OfferedChan(ch: Chan, m: Message, offered: bool): Chan {
    if !offered then ch else if IsFull(ch) then Closed(ch) else ch.(buffer := ch.buffer + [m])
  }

  function OfferedTrace(t: Trace, ch: Chan, m: Message, handled: nat, offered: bool): Trace {
    if !offered then t else if IsFull(ch) then LeftTrace(t, handled) else t.(pushed := t.pushed + [m])
  }

  function AfterBroadcast(s: State): State
    requires s.broadcast != [] && s.clients <= s.send.Keys == s.traces.Keys
  {
    var m := s.broadcast[0];
    Offered(s.(broadcast := s.broadcast[1..]), m, s.clients).(handled := s.handled + [m])
  }

  /** The deferred clean-up with the clients visited so far removed. */
  function Emptied(s: State, visited: set<Id>): State
    requires s.clients <= s.send.Keys == s.traces.Keys
  {
    s.(clients := s.clients - visited,
       send := map c | c in s.send :: if c in s.clients * visited then Closed(s.send[c]) else s.send[c],
       traces := map c | c in s.traces ::
                   if c in s.clients * visited then LeftTrace(s.traces[c], |s.handled|) else s.traces[c])
  }

  function AfterShutdown(s: State): State
    requires s.clients <= s.send.Keys == s.traces.Keys
  {
    Emptied(s, s.clients).(done := true, gauge := Some(0))
  }

  predicate Shaped(s: State) {
    && s.clients <= s.send.Keys == s.traces.Keys
    && (forall i :: 0 <= i < |s.register| ==> s.register[i] in s.send)
  }

  function Next(s: State, max: nat, step: Step): State
    requires Shaped(s) && Enabled(s, step)
  {
    match step
    case Register => AfterRegister(s, max)
    case Unregister => AfterUnregister(s)
    case Broadcast => AfterBroadcast(s)
    case Shutdown => AfterShutdown(s)
    case Serve(c) =>
      s.(send := s.send[c := Chan([], false)], traces := s.traces[c := Trace([], [], 0, None, None, false)],
         register := s.register + [c])
    case ReadEnds(c) =>
      s.(traces := s.traces[c := s.traces[c].(ended := true)],
         unregister := if |s.unregister| < UNREGISTER_CAPACITY then s.unregister + [c] else s.unregister)
    case Take(c) =>
      s.(send := s.send[c := s.send[c].(buffer := s.send[c].buffer[1..])],
         traces := s.traces[c := s.traces[c].(taken := s.traces[c].taken + [s.send[c].buffer[0]])])
    case Enqueue(m) => s.(broadcast := s.broadcast + [m])
  }

  // ---- The invariant ----

  /** A client outside the map that was never in it: waiting to be registered, or turned away. */
  predicate Outside(t: Trace) {
    t.left.None? && t.pushed == []
  }

  /**
   * One client: its channel is closed at most once and open while it is in the map; what was pushed is exactly the block
   * of broadcasts handled between joining and leaving; what was taken and what waits in the buffer make up what was
   * pushed; the buffer is within its capacity.
   */
  predicate ClientOk(ch: Chan, t: Trace, inMap: bool, handled: seq<Message>) {
    && t.closes <= 1 && (ch.closed <==> t.closes == 1)
    && t.taken + ch.buffer == t.pushed && |ch.buffer| <= SEND_CAPACITY
    && (inMap ==> !ch.closed && t.joined.Some? && t.left.None?)
    && (match t.joined
        case None => Outside(t)
        case Some(from) =>
          match t.left
          case None => inMap && from <= |handled| && t.pushed == handled[from..]
          case Some(to) => !inMap && ch.closed && from <= to <= |handled| && t.pushed == handled[from..to])
  }

  predicate Waiting(s: State, c: Id) {
    c in s.send && c in s.traces && !s.send[c].closed && s.traces[c].joined.None?
  }

  predicate Distinct(ids: seq<Id>) {
    forall i, j :: 0 <= i < j < |ids| ==> ids[i] != ids[j]
  }

  predicate AllOk(s: State)
    requires s.send.Keys == s.traces.Keys
  {
    forall c :: c in s.send ==> ClientOk(s.send[c], s.traces[c], c in s.clients, s.handled)
  }

  predicate QueuesOk(s: State) {
    && |s.register| <= REGISTER_CAPACITY && |s.unregister| <= UNREGISTER_CAPACITY && |s.broadcast| <= BROADCAST_CAPACITY
    && Distinct(s.register) && forall i :: 0 <= i < |s.register| ==> Waiting(s, s.register[i])
  }

  predicate GaugeOk(s: State) {
    if s.gauge.None? then s.clients == {} else s.gauge == Some(|s.clients|)
  }

  predicate Inv(s: State, max: nat) {
    && Shaped(s) && AllOk(s) && QueuesOk(s) && GaugeOk(s)
    && |s.clients| <= max && (s.done ==> s.clients == {})
  }

  /** Clients waiting for registration go on waiting as long as their channel and trace are left alone. */
  lemma StillWaiting(s: State, t: State, skip: nat)
    requires Shaped(s) && QueuesOk(s) && skip <= |s.register| && t.register == s.register[skip..]
    requires forall i :: skip <= i < |s.register| ==>
               && s.register[i] in t.send && t.send[s.register[i]] == s.send[s.register[i]]
               && s.register[i] in t.traces && t.traces[s.register[i]] == s.traces[s.register[i]]
    ensures Distinct(t.register) && forall i :: 0 <= i < |t.register| ==> Waiting(t, t.register[i])
  {
    forall i | 0 <= i < |t.register| ensures Waiting(t, t.register[i]) {
      assert t.register[i] == s.register[skip + i] && Waiting(s, s.register[skip + i]);
    }
  }

  /** A state in which one client changed, its new channel and trace being in order. */
  lemma OneClientChanged(s: State, t: State, c: Id)
    requires s.send.Keys == s.traces.Keys && AllOk(s) && c in t.send && c in t.traces && t.handled == s.handled
    requires t.send == s.send[c := t.send[c]] && t.traces == s.traces[c := t.traces[c]]
    requires forall d :: d != c ==> (d in t.clients <==> d in s.clients)
    requires ClientOk(t.send[c], t.traces[c], c in t.clients, t.handled)
    ensures t.send.Keys == t.traces.Keys && AllOk(t)
  {
    hide ClientOk;
    forall d | d in t.send ensures ClientOk(t.send[d], t.traces[d], d in t.clients, t.handled) {
      if d != c {
        assert ClientOk(s.send[d], s.traces[d], d in s.clients, s.handled);
      }
    }
  }

  lemma RegisterClientsOk(s: State, max: nat)
    requires Shaped(s) && AllOk(s) && s.register != [] && Waiting(s, s.register[0])
    ensures AfterRegister(s, max).send.Keys == AfterRegister(s, max).traces.Keys && AllOk(AfterRegister(s, max))
  {
    WaitingOk(s, s.register[0]);
    hide ClientOk, Waiting, AllOk, Closed, ClosedTrace;
    OneClientChanged(s, AfterRegister(s, max), s.register[0]);
  }

  lemma RegisterQueuesOk(s: State, max: nat)
    requires Shaped(s) && QueuesOk(s) && s.register != []
    ensures QueuesOk(AfterRegister(s, max))
  {
    hide ClientOk, Waiting, Closed, ClosedTrace;
    forall i | 1 <= i < |s.register| ensures s.register[i] != s.register[0] {
    }
    StillWaiting(s, AfterRegister(s, max), 1);
  }

  lemma RegisterKeeps(s: State, max: nat)
    requires Inv(s, max) && Enabled(s, Register)
    ensures Inv(AfterRegister(s, max), max)
  {
    RegisterClientsOk(s, max);
    RegisterQueuesOk(s, max);
    WaitingOk(s, s.register[0]);
    hide QueuesOk, AllOk, ClientOk, Waiting, Closed, ClosedTrace;
  }

  /** A waiting client may be turned away or let in. */
  lemma WaitingOk(s: State, c: Id)
    requires Shaped(s) && AllOk(s) && Waiting(s, c)
    ensures c !in s.clients
    ensures ClientOk(Closed(s.send[c]), ClosedTrace(s.traces[c]), false, s.handled)
    ensures ClientOk(s.send[c], s.traces[c].(joined := Some(|s.handled|)), true, s.handled)
  {
    assert s.handled[|s.handled|..] == [];
  }

  lemma LeaveOk(ch: Chan, t: Trace, handled: seq<Message>)
    requires ClientOk(ch, t, true, handled)
    ensures ClientOk(Closed(ch), LeftTrace(t, |handled|), false, handled)
  {
    var from := t.joined.value;
    assert handled[from..] == handled[from..|handled|];
  }

  lemma UnregisterClientsOk(s: State)
    requires Shaped(s) && AllOk(s) && s.unregister != []
    ensures AfterUnregister(s).send.Keys == AfterUnregister(s).traces.Keys && AllOk(AfterUnregister(s))
  {
    var c, t := s.unregister[0], AfterUnregister(s);
    if c in s.clients {
      LeaveOk(s.send[c], s.traces[c], s.handled);
      hide ClientOk, AllOk, Closed, LeftTrace;
      OneClientChanged(s, t, c);
    } else {
      hide ClientOk;
      forall d | d in t.send ensures ClientOk(t.send[d], t.traces[d], d in t.clients, t.handled) {
        assert ClientOk(s.send[d], s.traces[d], d in s.clients, s.handled);
      }
    }
  }

  lemma WaitingAreOutside(s: State)
    requires Shaped(s) && AllOk(s) && QueuesOk(s)
    ensures forall i :: 0 <= i < |s.register| ==> s.register[i] !in s.clients
  {
    hide AllOk, ClientOk, Waiting;
    forall i | 0 <= i < |s.register| ensures s.register[i] !in s.clients {
      WaitingOk(s, s.register[i]);
    }
  }

  lemma UnregisterQueuesOk(s: State)
    requires Shaped(s) && AllOk(s) && QueuesOk(s) && s.unregister != []
    ensures QueuesOk(AfterUnregister(s))
  {
    WaitingAreOutside(s);
    hide ClientOk, Waiting, AllOk, Closed, LeftTrace, Distinct;
    StillWaiting(s, AfterUnregister(s), 0);
  }

  lemma UnregisterKeeps(s: State, max: nat)
    requires Inv(s, max) && Enabled(s, Unregister)
    ensures Inv(AfterUnregister(s), max)
  {
    UnregisterClientsOk(s);
    UnregisterQueuesOk(s);
    hide QueuesOk, AllOk, Closed, LeftTrace;
    if s.unregister[0] in s.clients {
      assert s.clients == AfterUnregister(s).clients + {s.unregister[0]};
    }
  }

  lemma HandledMore(ch: Chan, t: Trace, handled: seq<Message>, m: Message)
    requires ClientOk(ch, t, false, handled)
    ensures ClientOk(ch, t, false, handled + [m])
  {
    if t.joined.Some? {
      assert (handled + [m])[t.joined.value..t.left.value] == handled[t.joined.value..t.left.value];
    }
  }

  lemma OfferedOk(ch: Chan, t: Trace, handled: seq<Message>, m: Message)
    requires ClientOk(ch, t, true, handled)
    ensures ClientOk(OfferedChan(ch, m, true), OfferedTrace(t, ch, m, |handled|, true), !IsFull(ch), handled + [m])
  {
    var from := t.joined.value;
    assert (handled + [m])[from..] == handled[from..] + [m];
    assert (handled + [m])[from..|handled|] == handled[from..];
    assert t.taken + (ch.buffer + [m]) == t.pushed + [m];
  }

  lemma BroadcastClientOk(s: State, c: Id)
    requires Shaped(s) && AllOk(s) && s.broadcast != [] && c in s.send
    ensures var t := AfterBroadcast(s); ClientOk(t.send[c], t.traces[c], c in t.clients, t.handled)
  {
    var m := s.broadcast[0];
    assert ClientOk(s.send[c], s.traces[c], c in s.clients, s.handled);
    hide ClientOk, OfferedChan, OfferedTrace, IsFull;
    if c in s.clients {
      OfferedOk(s.send[c], s.traces[c], s.handled, m);
    } else {
      NotOffered(s.send[c], s.traces[c], m, |s.handled|);
      HandledMore(s.send[c], s.traces[c], s.handled, m);
    }
  }

  lemma BroadcastQueuesOk(s: State)
    requires Shaped(s) && AllOk(s) && QueuesOk(s) && s.broadcast != []
    ensures QueuesOk(AfterBroadcast(s))
  {
    var m, t := s.broadcast[0], AfterBroadcast(s);
    hide ClientOk, OfferedChan, OfferedTrace, IsFull, AllOk;
    forall i | 0 <= i < |s.register|
      ensures t.send[s.register[i]] == s.send[s.register[i]] && t.traces[s.register[i]] == s.traces[s.register[i]]
    {
      var c := s.register[i];
      assert Waiting(s, c);
      WaitingOk(s, c);
      NotOffered(s.send[c], s.traces[c], m, |s.handled|);
    }
    hide Waiting, Distinct;
    StillWaiting(s, t, 0);
  }

  lemma BroadcastGaugeOk(s: State)
    requires Shaped(s) && GaugeOk(s) && s.broadcast != []
    ensures GaugeOk(AfterBroadcast(s)) && AfterBroadcast(s).clients <= s.clients
  {
    hide OfferedChan, OfferedTrace, IsFull;
    var t := AfterBroadcast(s);
    assert FullClients(s) * s.clients == {} ==> t.clients == s.clients;
  }

  lemma BroadcastKeeps(s: State, max: nat)
    requires Inv(s, max) && Enabled(s, Broadcast)
    ensures Inv(AfterBroadcast(s), max)
  {
    var t := AfterBroadcast(s);
    assert t.send.Keys == s.send.Keys && t.traces.Keys == s.traces.Keys;
    BroadcastQueuesOk(s);
    BroadcastGaugeOk(s);
    assert Shaped(t);
    forall c | c in t.send ensures ClientOk(t.send[c], t.traces[c], c in t.clients, t.handled) {
      BroadcastClientOk(s, c);
    }
    SmallerSet(t.clients, s.clients);
    hide ClientOk, OfferedChan, OfferedTrace, IsFull, QueuesOk, AfterBroadcast, GaugeOk;
  }

  lemma NotOffered(ch: Chan, t: Trace, m: Message, handled: nat)
    ensures OfferedChan(ch, m, false) == ch && OfferedTrace(t, ch, m, handled, false) == t
  {
  }

  lemma ShutdownClientsOk(s: State)
    requires Shaped(s) && AllOk(s)
    ensures AfterShutdown(s).send.Keys == AfterShutdown(s).traces.Keys && AllOk(AfterShutdown(s))
  {
    var t := AfterShutdown(s);
    hide ClientOk, Closed, LeftTrace;
    forall c | c in t.send ensures ClientOk(t.send[c], t.traces[c], c in t.clients, t.handled) {
      assert ClientOk(s.send[c], s.traces[c], c in s.clients, s.handled);
      if c in s.clients {
        LeaveOk(s.send[c], s.traces[c], s.handled);
      }
    }
  }

  lemma ShutdownKeeps(s: State, max: nat)
    requires Inv(s, max) && Enabled(s, Shutdown)
    ensures Inv(AfterShutdown(s), max)
  {
    ShutdownClientsOk(s);
    WaitingAreOutside(s);
    hide ClientOk, Waiting, AllOk, Closed, LeftTrace, Distinct;
    StillWaiting(s, AfterShutdown(s), 0);
    assert AfterShutdown(s).clients == {};
  }

  lemma ServeKeeps(s: State, max: nat, c: Id)
    requires Inv(s, max) && Enabled(s, Serve(c))
    ensures Inv(Next(s, max, Serve(c)), max)
  {
    var t := Next(s, max, Serve(c));
    forall i | 0 <= i < |t.register| ensures Waiting(t, t.register[i]) {
      if i < |s.register| {
        assert t.register[i] == s.register[i] && Waiting(s, s.register[i]);
      }
    }
    assert ClientOk(t.send[c], t.traces[c], c in t.clients, t.handled);
    hide ClientOk, AllOk, Waiting;
    OneClientChanged(s, t, c);
  }

  lemma TakeOk(ch: Chan, t: Trace, inMap: bool, handled: seq<Message>)
    requires ClientOk(ch, t, inMap, handled) && ch.buffer != []
    ensures ClientOk(ch.(buffer := ch.buffer[1..]), t.(taken := t.taken + [ch.buffer[0]]), inMap, handled)
  {
    assert t.taken + [ch.buffer[0]] + ch.buffer[1..] == t.taken + ch.buffer;
  }

  lemma TakeKeeps(s: State, max: nat, c: Id)
    requires Inv(s, max) && Enabled(s, Take(c))
    ensures Inv(Next(s, max, Take(c)), max)
  {
    var t := Next(s, max, Take(c));
    TakeOk(s.send[c], s.traces[c], c in s.clients, s.handled);
    forall i | 0 <= i < |t.register| ensures Waiting(t, t.register[i]) {
      assert Waiting(s, s.register[i]);
    }
    hide ClientOk, AllOk, Waiting;
    OneClientChanged(s, t, c);
  }

  /** A step that only touches the unregister or broadcast queue. */
  lemma QueueingKeeps(s: State, t: State, max: nat)
    requires Inv(s, max) && t == s.(unregister := t.unregister, broadcast := t.broadcast)
    requires |t.unregister| <= UNREGISTER_CAPACITY && |t.broadcast| <= BROADCAST_CAPACITY
    ensures Inv(t, max)
  {
    hide ClientOk;
    forall d | d in t.send ensures ClientOk(t.send[d], t.traces[d], d in t.clients, t.handled) {
      assert ClientOk(s.send[d], s.traces[d], d in s.clients, s.handled);
    }
    StillWaiting(s, t, 0);
  }

  lemma EndKeeps(s: State, max: nat, c: Id)
    requires Inv(s, max) && Enabled(s, ReadEnds(c))
    ensures Inv(Next(s, max, ReadEnds(c)), max)
  {
    var t := Next(s, max, ReadEnds(c));
    hide Waiting;
    assert ClientOk(s.send[c], s.traces[c], c in s.clients, s.handled);
    assert ClientOk(t.send[c], t.traces[c], c in t.clients, t.handled);
    hide ClientOk;
    OneClientChanged(s, t, c);
    EndedWaits(s, t, c);
  }

  lemma EndedWaits(s: State, t: State, c: Id)
    requires c in s.traces && t.traces == s.traces[c := s.traces[c].(ended := true)]
    requires t.send == s.send && t.register == s.register
    ensures forall d :: Waiting(s, d) ==> Waiting(t, d)
  {
  }

  lemma InvQueues(s: State, max: nat)
    requires Inv(s, max)
    ensures |s.unregister| <= UNREGISTER_CAPACITY && |s.broadcast| <= BROADCAST_CAPACITY
  {
  }

  lemma InvShaped(s: State, max: nat)
    requires Inv(s, max)
    ensures Shaped(s)
  {
  }

  /** Every step, whichever is chosen, keeps the invariant. */
  lemma StepKeeps(s: State, max: nat, step: Step)
    requires Inv(s, max) && Enabled(s, step)
    ensures Inv(Next(s, max, step), max)
  {
    InvShaped(s, max);
    hide Inv, AfterRegister, AfterUnregister, AfterBroadcast, AfterShutdown;
    match step {
      case Register => RegisterKeeps(s, max);
      case Unregister => UnregisterKeeps(s, max);
      case Broadcast => BroadcastKeeps(s, max);
      case Shutdown => ShutdownKeeps(s, max);
      case Serve(c) => ServeKeeps(s, max, c);
      case ReadEnds(c) => EndKeeps(s, max, c);
      case Take(c) => TakeKeeps(s, max, c);
      case Enqueue(m) =>
        InvQueues(s, max);
        QueueingKeeps(s, Next(s, max, step), max);
    }
  }

  // ---- Runs ----

  /** The state after the steps, when each of them was possible in its turn. */
  function Run(s: State, max: nat, steps: seq<Step>): Option<State>
    decreases |steps|
  {
    if steps == [] then Some(s)
    else if Shaped(s) && Enabled(s, steps[0]) then Run(Next(s, max, steps[0]), max, steps[1..])
    else None
  }

  function Reached(max: nat, steps: seq<Step>): Option<State> {
    Run(INITIAL, max, steps)
  }

  lemma {:induction false} RunOk(s: State, max: nat, steps: seq<Step>)
    requires Inv(s, max) && Run(s, max, steps).Some?
    ensures Inv(Run(s, max, steps).value, max)
    decreases |steps|
  {
    if steps != [] {
      hide Inv, Next, Enabled;
      StepKeeps(s, max, steps[0]);
      RunOk(Next(s, max, steps[0]), max, steps[1..]);
    }
  }

  lemma ReachedOk(max: nat, steps: seq<Step>)
    requires Reached(max, steps).Some?
    ensures Inv(Reached(max, steps).value, max)
  {
    RunOk(INITIAL, max, steps);
  }

  /**
   * In every run, what was pushed to a client is exactly the block of broadcasts the loop handled from its registration
   * to its removal (or until now), what its writer took is a beginning of that block, the rest waits in the buffer.
   */
  lemma {:induction false} GaplessDelivery(max: nat, steps: seq<Step>, c: Id)
    requires Reached(max, steps).Some? && c in Reached(max, steps).value.send
    ensures var s := Reached(max, steps).value;
            c in s.traces &&
            var t := s.traces[c];
            && t.taken + s.send[c].buffer == t.pushed && |s.send[c].buffer| <= SEND_CAPACITY
            && (t.joined.None? ==> t.pushed == [])
            && (c in s.clients ==> t.joined.Some? && t.joined.value <= |s.handled|
                                   && t.pushed == s.handled[t.joined.value..])
            && (t.joined.Some? && c !in s.clients ==>
                  t.left.Some? && t.joined.value <= t.left.value <= |s.handled|
                  && t.pushed == s.handled[t.joined.value..t.left.value])
  {
    ReachedOk(max, steps);
    var s := Reached(max, steps).value;
    hide Reached;
    assert ClientOk(s.send[c], s.traces[c], c in s.clients, s.handled);
  }

  /**
   * In every run, a channel is closed at most once, the channels of the map are open (so neither a send nor a close can
   * hit a closed channel), the map stays within its limit, and the last observed gauge is the size of the map.
   */
  lemma HubSafety(max: nat, steps: seq<Step>)
    requires Reached(max, steps).Some?
    ensures var s := Reached(max, steps).value;
            && s.send.Keys == s.traces.Keys && s.clients <= s.send.Keys
            && (forall c :: c in s.send ==> s.traces[c].closes <= 1 && (s.send[c].closed <==> s.traces[c].closes == 1))
            && (forall c :: c in s.clients ==> !s.send[c].closed)
            && (forall i :: 0 <= i < |s.register| ==> s.register[i] in s.send && !s.send[s.register[i]].closed)
            && |s.clients| <= max
            && (if s.gauge.None? then s.clients == {} else s.gauge.value == |s.clients|)
  {
    ReachedOk(max, steps);
    var s := Reached(max, steps).value;
    hide Reached;
    forall c | c in s.send
      ensures s.traces[c].closes <= 1 && (s.send[c].closed <==> s.traces[c].closes == 1)
      ensures c in s.clients ==> !s.send[c].closed
    {
      assert ClientOk(s.send[c], s.traces[c], c in s.clients, s.handled);
    }
    forall i | 0 <= i < |s.register| ensures s.register[i] in s.send && !s.send[s.register[i]].closed {
      assert Waiting(s, s.register[i]);
    }
  }

  // ---- Leaving ----

  /** A client the hub knew and is done with: neither in the map nor waiting to get in. */
  predicate Gone(s: State, c: Id) {
    c in s.send && c !in s.clients && c !in s.register
  }

  lemma GoneStays(s: State, max: nat, step: Step, c: Id)
    requires Shaped(s) && Enabled(s, step) && Gone(s, c)
    ensures Gone(Next(s, max, step), c)
  {
    hide Closed, ClosedTrace, LeftTrace, OfferedChan, OfferedTrace, FullClients;
  }

  lemma {:induction false} GoneForever(s: State, max: nat, steps: seq<Step>, c: Id)
    requires Gone(s, c) && Run(s, max, steps).Some?
    ensures Gone(Run(s, max, steps).value, c)
    decreases |steps|
  {
    if steps != [] {
      hide Gone, Next, Enabled, Shaped;
      GoneStays(s, max, steps[0], c);
      GoneForever(Next(s, max, steps[0]), max, steps[1..], c);
    }
  }

  /** Every connection that asked to leave has a channel. */
  predicate Known(s: State) {
    forall i :: 0 <= i < |s.unregister| ==> s.unregister[i] in s.send
  }

  lemma KnownStays(s: State, max: nat, step: Step)
    requires Shaped(s) && Enabled(s, step) && Known(s)
    ensures Known(Next(s, max, step))
  {
    hide Closed, ClosedTrace, LeftTrace, OfferedChan, OfferedTrace, FullClients;
  }

  lemma {:induction false} KnownRun(s: State, max: nat, steps: seq<Step>)
    requires Known(s) && Run(s, max, steps).Some?
    ensures Known(Run(s, max, steps).value)
    decreases |steps|
  {
    if steps != [] {
      hide Known, Next, Enabled, Shaped;
      KnownStays(s, max, steps[0]);
      KnownRun(Next(s, max, steps[0]), max, steps[1..]);
    }
  }

  /** What the leave request at the head of its queue does: it removes a mapped client and passes over a waiting one. */
  lemma LeaveHandled(s: State, max: nat)
    requires Inv(s, max) && Known(s) && Enabled(s, Unregister)
    ensures Shaped(s)
    ensures var t := Next(s, max, Unregister);
            && t.clients == s.clients - {s.unregister[0]} && t.register == s.register && t.done == s.done
            && t.unregister == s.unregister[1..] && Known(t)
            && (Gone(t, s.unregister[0]) <==> s.unregister[0] !in s.register)
  {
    KnownStays(s, max, Unregister);
    hide ClientOk, Closed, LeftTrace;
  }

  /** The first waiting client gets into the map when there is room, and is turned away and gone when there is none. */
  lemma AdmissionHandled(s: State, max: nat)
    requires Inv(s, max) && Enabled(s, Register)
    ensures Shaped(s)
    ensures var (c, t) := (s.register[0], Next(s, max, Register));
            && t.register == s.register[1..] && t.unregister == s.unregister && t.done == s.done
            && t.clients == (if |s.clients| < max then s.clients + {c} else s.clients)
            && (|s.clients| >= max ==> Gone(t, c))
  {
    assert Waiting(s, s.register[0]);
    WaitingOk(s, s.register[0]);
    assert forall i :: 1 <= i < |s.register| ==> s.register[i] != s.register[0];
    hide Waiting, ClientOk, Closed, ClosedTrace, AllOk;
  }

  /** Where in the register queue a client waits. */
  function Position(ids: seq<Id>, c: Id): (i: nat)
    requires c in ids
    ensures i < |ids| && ids[i] == c
  {
    if ids[0] == c then 0 else 1 + Position(ids[1..], c)
  }

  lemma PrependStep(s: State, max: nat, step: Step, rest: seq<Step>)
    requires Shaped(s) && Enabled(s, step)
    ensures Run(s, max, [step] + rest) == Run(Next(s, max, step), max, rest)
  {
    hide Next, Enabled, Shaped;
    assert ([step] + rest)[1..] == rest;
  }

  lemma RunNothing(s: State, max: nat)
    ensures Run(s, max, []) == Some(s)
  {
  }

  lemma {:induction false} RunConcat(s: State, max: nat, first: seq<Step>, rest: seq<Step>)
    requires Run(s, max, first).Some?
    ensures Run(s, max, first + rest) == Run(Run(s, max, first).value, max, rest)
    decreases |first|
  {
    hide Next, Enabled, Shaped;
    if first == [] {
      assert first + rest == rest;
    } else {
      assert (first + rest)[1..] == first[1..] + rest && (first + rest)[0] == first[0];
      RunConcat(Next(s, max, first[0]), max, first[1..], rest);
    }
  }

  lemma FillStep(s: State, max: nat, m: Message)
    requires Inv(s, max) && s.broadcast == []
    ensures Shaped(s) && Enabled(s, Enqueue(m))
    ensures var t := Next(s, max, Enqueue(m));
            Inv(t, max) && t == s.(broadcast := [m])
  {
    InvShaped(s, max);
    StepKeeps(s, max, Enqueue(m));
    hide Inv;
  }

  lemma OverflowStep(s: State, max: nat, d: Id)
    requires Inv(s, max) && !s.done && s.broadcast != [] && d in s.clients
    ensures Shaped(s) && Enabled(s, Broadcast) && d in s.send
    ensures var t := Next(s, max, Broadcast);
            && Inv(t, max) && !t.done && t.register == s.register && t.clients <= s.clients && Unread(s, t, d, 1)
            && d in t.send && |t.send[d].buffer| <= SEND_CAPACITY
  {
    InvShaped(s, max);
    StepKeeps(s, max, Broadcast);
    UnreadGrows(s, max, Broadcast, d);
    BufferFits(Next(s, max, Broadcast), max, d);
    hide Inv, FullClients, OfferedChan, OfferedTrace;
  }

  /** Broadcasts alone drop a client nobody reads for. */
  lemma {:induction false} Overflow(s: State, max: nat, d: Id) returns (steps: seq<Step>)
    requires Inv(s, max) && !s.done && d in s.clients && d in s.send && |s.send[d].buffer| <= SEND_CAPACITY
    ensures Run(s, max, steps).Some?
    ensures var t := Run(s, max, steps).value;
            Inv(t, max) && !t.done && t.register == s.register && t.clients <= s.clients - {d}
    decreases SEND_CAPACITY - |s.send[d].buffer|, if s.broadcast == [] then 1 else 0
  {
    hide Inv, Run, Next, Enabled, Shaped;
    if s.broadcast == [] {
      FillStep(s, max, Hosts(""));
      var rest := Overflow(Next(s, max, Enqueue(Hosts(""))), max, d);
      PrependStep(s, max, Enqueue(Hosts("")), rest);
      steps := [Enqueue(Hosts(""))] + rest;
    } else {
      OverflowStep(s, max, d);
      var t := Next(s, max, Broadcast);
      var rest := [];
      if d in t.clients {
        rest := Overflow(t, max, d);
      } else {
        RunNothing(t, max);
      }
      PrependStep(s, max, Broadcast, rest);
      steps := [Broadcast] + rest;
    }
  }

  lemma MapFits(s: State, max: nat)
    requires Inv(s, max)
    ensures |s.clients| <= max && s.clients <= s.send.Keys
    ensures forall c :: c in s.clients ==> |s.send[c].buffer| <= SEND_CAPACITY
  {
    forall c | c in s.clients ensures |s.send[c].buffer| <= SEND_CAPACITY {
      BufferFits(s, max, c);
    }
  }

  /**
   * From any state of a running hub a waiting client can still get into the map: those before it are handled first, and
   * room is made by broadcasts that a mapped client does not read.
   */
  lemma {:induction false} CanGetIn(s: State, max: nat, c: Id) returns (steps: seq<Step>)
    requires Inv(s, max) && !s.done && c in s.register && max > 0
    ensures Run(s, max, steps).Some? && c in Run(s, max, steps).value.clients
    decreases Position(s.register, c), if |s.clients| >= max then 1 else 0
  {
    MapFits(s, max);
    hide Inv, Next, Run;
    if |s.clients| < max {
      AdmissionHandled(s, max);
      StepKeeps(s, max, Register);
      var t := Next(s, max, Register);
      var rest := [];
      if s.register[0] == c {
        RunNothing(t, max);
      } else {
        rest := CanGetIn(t, max, c);
      }
      PrependStep(s, max, Register, rest);
      steps := [Register] + rest;
    } else {
      var d :| d in s.clients;
      var room := Overflow(s, max, d);
      var t := Run(s, max, room).value;
      SmallerSet(t.clients, s.clients - {d});
      var rest := CanGetIn(t, max, c);
      RunConcat(s, max, room, rest);
      steps := room + rest;
    }
  }

  ghost predicate NeverIn(s: State, max: nat, c: Id) {
    forall steps :: Run(s, max, steps).Some? ==> c !in Run(s, max, steps).value.clients
  }

  /**
   * In every run, when the hub handles a request to leave, the client is in the map in no later state exactly when it is
   * not still waiting to be registered at that moment: the two queues are not kept in order.
   */
  lemma LeaveWorksIff(max: nat, steps: seq<Step>, c: Id)
    requires max > 0 && Reached(max, steps).Some? && Enabled(Reached(max, steps).value, Unregister)
    requires Reached(max, steps).value.unregister[0] == c
    ensures var s := Reached(max, steps).value;
            Shaped(s) && (NeverIn(Next(s, max, Unregister), max, c) <==> c !in s.register)
  {
    ReachedOk(max, steps);
    KnownRun(INITIAL, max, steps);
    var s := Reached(max, steps).value;
    hide Inv, Known, Next, Run, Reached;
    LeaveHandled(s, max);
    StepKeeps(s, max, Unregister);
    var t := Next(s, max, Unregister);
    if c !in s.register {
      forall more | Run(t, max, more).Some? ensures c !in Run(t, max, more).value.clients {
        GoneForever(t, max, more, c);
      }
    } else {
      var more := CanGetIn(t, max, c);
      assert Run(t, max, more).Some? && c in Run(t, max, more).value.clients;
    }
  }

  // ---- Every request to leave is accounted for ----

  /** The state before step k of the run. */
  function StateAt(max: nat, steps: seq<Step>, k: nat): Option<State>
    requires k <= |steps|
  {
    Reached(max, steps[..k])
  }

  /** The reader ended when the queue of requests was full. */
  predicate MetFullAt(max: nat, steps: seq<Step>, c: Id, k: int) {
    && 0 <= k < |steps| && steps[k] == ReadEnds(c)
    && StateAt(max, steps, k).Some? && |StateAt(max, steps, k).value.unregister| >= 64
  }

  /** The request was handled while the client still waited for registration. */
  predicate MissedAt(max: nat, steps: seq<Step>, c: Id, k: int) {
    && 0 <= k < |steps| && steps[k] == Unregister && StateAt(max, steps, k).Some?
    && var s := StateAt(max, steps, k).value;
    s.unregister != [] && s.unregister[0] == c && c in s.register
  }

  ghost predicate Excused(max: nat, steps: seq<Step>, c: Id) {
    exists k :: MetFullAt(max, steps, c, k) || MissedAt(max, steps, c, k)
  }

  lemma ExcusedLater(max: nat, steps: seq<Step>, c: Id)
    requires steps != [] && Excused(max, steps[..|steps| - 1], c)
    ensures Excused(max, steps, c)
  {
    var front := steps[..|steps| - 1];
    var k :| MetFullAt(max, front, c, k) || MissedAt(max, front, c, k);
    assert front[..k] == steps[..k] && front[k] == steps[k];
    assert MetFullAt(max, steps, c, k) || MissedAt(max, steps, c, k);
  }

  lemma LastStep(max: nat, steps: seq<Step>)
    requires steps != [] && Reached(max, steps).Some?
    ensures var front, last := steps[..|steps| - 1], steps[|steps| - 1];
            && Reached(max, front).Some?
            && Shaped(Reached(max, front).value) && Enabled(Reached(max, front).value, last)
            && Reached(max, steps) == Some(Next(Reached(max, front).value, max, last))
  {
    var front, last := steps[..|steps| - 1], steps[|steps| - 1];
    assert steps == front + [last];
    RunFront(INITIAL, max, front, [last]);
    RunConcat(INITIAL, max, front, [last]);
    var s := Reached(max, front).value;
    hide Next, Enabled, Shaped;
    assert [last][1..] == [];
    assert Run(s, max, [last]) == if Shaped(s) && Enabled(s, last) then Run(Next(s, max, last), max, []) else None;
  }

  lemma {:induction false} RunFront(s: State, max: nat, first: seq<Step>, rest: seq<Step>)
    requires Run(s, max, first + rest).Some?
    ensures Run(s, max, first).Some?
    decreases |first|
  {
    hide Next, Enabled, Shaped;
    if first != [] {
      assert (first + rest)[1..] == first[1..] + rest && (first + rest)[0] == first[0];
      RunFront(Next(s, max, first[0]), max, first[1..], rest);
    }
  }

  /** A step that a client waiting or mapped outlives: its request is queued, still queued, or excused by this step. */
  lemma RequestStays(s: State, max: nat, step: Step, c: Id)
    requires Inv(s, max) && Enabled(s, step) && c in s.send
    requires c in Next(s, max, step).clients || c in Next(s, max, step).register
    requires step == ReadEnds(c) || c in s.unregister
    requires !(step == ReadEnds(c) && |s.unregister| >= 64)
    requires !(step == Unregister && s.unregister[0] == c && c in s.register)
    ensures c in Next(s, max, step).unregister
  {
    WaitingAreOutside(s);
    hide ClientOk, Waiting, Closed, ClosedTrace, LeftTrace, OfferedChan, OfferedTrace, FullClients, AllOk, QueuesOk, GaugeOk;
  }

  lemma StaysBefore(s: State, max: nat, step: Step, c: Id)
    requires Inv(s, max) && Enabled(s, step) && c in s.send
    requires c in Next(s, max, step).clients || c in Next(s, max, step).register
    ensures c in s.clients || c in s.register
  {
    hide ClientOk, Waiting, Closed, ClosedTrace, LeftTrace, OfferedChan, OfferedTrace, FullClients, AllOk, QueuesOk, GaugeOk;
  }

  lemma SendGrows(s: State, max: nat, step: Step, c: Id)
    requires Shaped(s) && Enabled(s, step) && (c in s.send || step == ReadEnds(c))
    ensures c in Next(s, max, step).send
  {
    hide Closed, ClosedTrace, LeftTrace, OfferedChan, OfferedTrace, FullClients;
  }

  lemma {:induction false} EndedIsKnown(max: nat, steps: seq<Step>, c: Id)
    requires Reached(max, steps).Some? && ReadEnds(c) in steps
    ensures c in Reached(max, steps).value.send
  {
    var front, last := steps[..|steps| - 1], steps[|steps| - 1];
    assert steps == front + [last];
    LastStep(max, steps);
    hide Reached, Next, Enabled, Shaped;
    if ReadEnds(c) in front {
      EndedIsKnown(max, front, c);
    }
    SendGrows(Reached(max, front).value, max, last, c);
  }

  /**
   * In every run, a mapped or waiting client whose reader ended has its request in the queue, unless the request met a
   * full queue or was handled while the client waited for registration.
   */
  lemma {:induction false} EndedLeaves(max: nat, steps: seq<Step>, c: Id)
    requires Reached(max, steps).Some? && ReadEnds(c) in steps
    requires c in Reached(max, steps).value.clients || c in Reached(max, steps).value.register
    ensures c in Reached(max, steps).value.unregister || Excused(max, steps, c)
  {
    var n := |steps| - 1;
    var front, last := steps[..n], steps[n];
    assert steps == front + [last];
    LastStep(max, steps);
    ReachedOk(max, front);
    var s := Reached(max, front).value;
    hide Reached, Next, Inv, Excused;
    if ReadEnds(c) in front {
      EndedIsKnown(max, front, c);
      StaysBefore(s, max, last, c);
      EndedLeaves(max, front, c);
      if Excused(max, front, c) {
        ExcusedLater(max, steps, c);
        return;
      }
    }
    ExcusedNow(max, steps, c);
    if !Excused(max, steps, c) {
      RequestStays(s, max, last, c);
    }
  }

  lemma ExcusedNow(max: nat, steps: seq<Step>, c: Id)
    requires steps != [] && Reached(max, steps[..|steps| - 1]).Some?
    ensures var s, last := Reached(max, steps[..|steps| - 1]).value, steps[|steps| - 1];
            || (last == ReadEnds(c) && |s.unregister| >= 64)
            || (last == Unregister && s.unregister != [] && s.unregister[0] == c && c in s.register)
            ==> Excused(max, steps, c)
  {
    var n := |steps| - 1;
    var s := Reached(max, steps[..n]).value;
    hide Reached;
    if steps[n] == ReadEnds(c) && |s.unregister| >= 64 {
      assert MetFullAt(max, steps, c, n);
    }
    if steps[n] == Unregister && s.unregister != [] && s.unregister[0] == c && c in s.register {
      assert MissedAt(max, steps, c, n);
    }
  }

  function Unregisters(n: nat): seq<Step> {
    if n == 0 then [] else [Unregister] + Unregisters(n - 1)
  }

  /** Handling the queue up to a client's request takes the client out. */
  lemma {:induction false} QueueTakesOut(s: State, max: nat, c: Id, k: nat)
    requires Inv(s, max) && Known(s) && !s.done && c !in s.register
    requires k < |s.unregister| && s.unregister[k] == c
    ensures Run(s, max, Unregisters(k + 1)).Some? && Gone(Run(s, max, Unregisters(k + 1)).value, c)
    decreases k
  {
    hide Inv, Known, Next, Run, Gone;
    LeaveHandled(s, max);
    StepKeeps(s, max, Unregister);
    var t := Next(s, max, Unregister);
    PrependStep(s, max, Unregister, Unregisters(k));
    if k == 0 {
      RunNothing(t, max);
    } else {
      QueueTakesOut(t, max, c, k - 1);
    }
  }

  /** A request that finds room works: once the queue as it stands is handled, a client that does not wait is out. */
  lemma LeaveGetsThrough(s: State, max: nat, c: Id)
    requires Inv(s, max) && Known(s) && !s.done && Enabled(s, ReadEnds(c)) && c !in s.register && |s.unregister| < 64
    ensures var steps := [ReadEnds(c)] + Unregisters(|s.unregister| + 1);
            Run(s, max, steps).Some? && Gone(Run(s, max, steps).value, c)
  {
    InvShaped(s, max);
    StepKeeps(s, max, ReadEnds(c));
    KnownStays(s, max, ReadEnds(c));
    var t := Next(s, max, ReadEnds(c));
    assert t.unregister == s.unregister + [c] && t.register == s.register && !t.done;
    hide Inv, Known, Next, Run, Gone;
    QueueTakesOut(t, max, c, |s.unregister|);
    PrependStep(s, max, ReadEnds(c), Unregisters(|s.unregister| + 1));
  }

  // ---- Clients nobody reads for ----

  function Broadcasts(steps: seq<Step>): nat {
    if steps == [] then 0 else (if steps[0] == Broadcast then 1 else 0) + Broadcasts(steps[1..])
  }

  /** A step that is not the client's own writer either removes a mapped client or leaves its buffer no shorter. */
  lemma UnreadGrows(s: State, max: nat, step: Step, c: Id)
    requires Inv(s, max) && Enabled(s, step) && c in s.clients && step != Take(c)
    ensures Shaped(s) && c in s.send
    ensures Unread(s, Next(s, max, step), c, if step == Broadcast then 1 else 0)
  {
    WaitingAreOutside(s);
    hide AllOk, QueuesOk, GaugeOk;
    match step {
      case Register => UnreadRegister(s, max, c);
      case Unregister => UnreadUnregister(s, max, c);
      case Broadcast => UnreadBroadcast(s, c);
      case Shutdown => UnreadShutdown(s, c);
      case _ =>
    }
  }

  /** From s to t the client left for good, or its buffer grew by so many messages. */
  predicate Unread(s: State, t: State, c: Id, more: nat)
    requires c in s.send
  {
    c in t.send && (Gone(t, c) || (c in t.clients && |t.send[c].buffer| == |s.send[c].buffer| + more))
  }

  lemma UnreadRegister(s: State, max: nat, c: Id)
    requires Shaped(s) && s.register != [] && c in s.clients && c !in s.register
    ensures Unread(s, AfterRegister(s, max), c, 0)
  {
    assert s.register[0] in s.register;
  }

  lemma UnreadUnregister(s: State, max: nat, c: Id)
    requires Shaped(s) && s.unregister != [] && c in s.clients && c !in s.register
    ensures Unread(s, AfterUnregister(s), c, 0)
  {
  }

  lemma UnreadBroadcast(s: State, c: Id)
    requires Shaped(s) && s.broadcast != [] && c in s.clients && c !in s.register
    ensures Unread(s, AfterBroadcast(s), c, 1)
  {
    hide LeftTrace, OfferedTrace;
    var t := s.(broadcast := s.broadcast[1..]);
    assert FullClients(t) * s.clients == FullClients(s);
  }

  lemma UnreadShutdown(s: State, c: Id)
    requires Shaped(s) && c in s.clients && c !in s.register
    ensures Unread(s, AfterShutdown(s), c, 0)
  {
    hide LeftTrace;
  }

  lemma BufferFits(s: State, max: nat, c: Id)
    requires Inv(s, max) && c in s.send
    ensures |s.send[c].buffer| <= SEND_CAPACITY
  {
    assert ClientOk(s.send[c], s.traces[c], c in s.clients, s.handled);
  }

  /** A mapped client nobody reads for is gone once more broadcasts were handled than its buffer has room for. */
  lemma {:induction false} UnreadLeaves(s: State, max: nat, steps: seq<Step>, c: Id)
    requires Inv(s, max) && c in s.clients && c in s.send && Run(s, max, steps).Some? && Take(c) !in steps
    requires |s.send[c].buffer| + Broadcasts(steps) > SEND_CAPACITY
    ensures Gone(Run(s, max, steps).value, c)
    decreases |steps|
  {
    BufferFits(s, max, c);
    if steps != [] {
      UnreadGrows(s, max, steps[0], c);
      StepKeeps(s, max, steps[0]);
      var t := Next(s, max, steps[0]);
      hide Inv, Next, Enabled, Shaped, Gone;
      if Gone(t, c) {
        GoneForever(t, max, steps[1..], c);
      } else {
        UnreadLeaves(t, max, steps[1..], c);
      }
    }
  }

  // ---- The hub itself ----

  /** What becomes of a connection or a message offered to the hub. */
  datatype Answer = Queued | HubClosed | QueueFull | Cancelled | Waits

  class Hub {
    const max: nat
    var clients: set<Id>
    var send: map<Id, Chan>
    var register: seq<Id>
    var unregister: seq<Id>
    var broadcast: seq<Message>
    var done: bool
    var gauge: Option<nat>
    ghost var handled: seq<Message>
    ghost var traces: map<Id, Trace>

    ghost function View(): State
      reads this
    {
      State(clients, send, register, unregister, broadcast, done, gauge, handled, traces)
    }

    ghost predicate Valid()
      reads this
    {
      Inv(View(), max)
    }

    constructor (maxConnections: int)
      ensures Valid() && max == MaxConnections(maxConnections) && View() == INITIAL
    {
      max := if maxConnections <= 0 then 1000 else maxConnections;
      clients, send, register, unregister, broadcast := {}, map[], [], [], [];
      done, gauge, handled, traces := false, None, [], map[];
    }

    method ObserveConnections()
      modifies this`gauge
      ensures gauge == Some(|clients|)
    {
      gauge := Some(|clients|);
    }

    /** Closing a closed channel would panic; that it never happens is the precondition. */
    method CloseChannel(c: Id)
      requires c in send && !send[c].closed
      modifies this`send
      ensures send == old(send)[c := Closed(old(send)[c])]
    {
      send := send[c := send[c].(closed := true)];
    }

    /** The non-blocking send; sending on a closed channel would panic, which the precondition rules out. */
    method TrySend(c: Id, m: Message) returns (sent: bool)
      requires c in send && !send[c].closed
      modifies this`send
      ensures sent == !IsFull(old(send)[c])
      ensures send == if sent then old(send)[c := OfferedChan(old(send)[c], m, true)] else old(send)
    {
      sent := |send[c].buffer| < SEND_CAPACITY;
      if sent {
        send := send[c := send[c].(buffer := send[c].buffer + [m])];
      }
    }

    method HandleRegister()
      requires Valid() && Enabled(View(), Register)
      modifies this
      ensures Valid() && View() == Next(old(View()), max, Register)
    {
      RegisterFacts(View(), max);
      hide Inv, Next, Enabled, Closed, ClosedTrace;
      var c := register[0];
      register := register[1..];
      if |clients| >= max {
        CloseChannel(c);
        traces := traces[c := ClosedTrace(traces[c])];
      } else {
        clients := clients + {c};
        traces := traces[c := traces[c].(joined := Some(|handled|))];
        ObserveConnections();
      }
      assert View() == AfterRegister(old(View()), max);
    }

    /** delete(h.clients, client); close(client.send) */
    method Drop(c: Id)
      requires c in send && c in traces && !send[c].closed && send.Keys == traces.Keys
      modifies this`clients, this`send, this`traces
      ensures View() == Removed(old(View()), c)
    {
      clients := clients - {c};
      CloseChannel(c);
      traces := traces[c := LeftTrace(traces[c], |handled|)];
    }

    method HandleUnregister()
      requires Valid() && Enabled(View(), Unregister)
      modifies this
      ensures Valid() && View() == Next(old(View()), max, Unregister)
    {
      UnregisterFacts(View(), max);
      hide Inv, Next, Enabled, Removed;
      var c := unregister[0];
      unregister := unregister[1..];
      if c in clients {
        ghost var popped := View();
        Drop(c);
        RemovedClients(popped, c);
        ObserveConnections();
      }
      assert View() == AfterUnregister(old(View()));
    }

    /** One turn of the broadcast loop. */
    method Offer(c: Id, m: Message)
      requires c in clients && c in send && c in traces && !send[c].closed && send.Keys == traces.Keys
      modifies this`clients, this`send, this`traces, this`gauge
      ensures View() == OfferedTo(old(View()), m, c)
    {
      hide LeftTrace, Closed, OfferedChan;
      var sent := TrySend(c, m);
      if sent {
        traces := traces[c := traces[c].(pushed := traces[c].pushed + [m])];
      } else {
        Drop(c);
        ObserveConnections();
      }
    }

    /** Offers the message to every client of the map, in any order, dropping those without room. */
    method BroadcastMessage(m: Message)
      requires Valid()
      modifies this`clients, this`send, this`traces, this`gauge
      ensures old(View()).clients <= old(View()).send.Keys == old(View()).traces.Keys
      ensures View() == Offered(old(View()), m, old(clients))
    {
      ghost var s := View();
      MapIsOpen(s, max);
      NoneOffered(s, m);
      hide Inv, Offered, OfferedBut, OfferedTo, Shaped;
      var rest := clients;
      while rest != {}
        invariant rest <= s.clients && View() == OfferedBut(s, m, rest)
        decreases |rest|
      {
        var c :| c in rest;
        NextOffered(s, m, rest, c);
        Offer(c, m);
        rest := rest - {c};
      }
      AllOffered(s, m);
    }

    method HandleBroadcast()
      requires Valid() && Enabled(View(), Step.Broadcast)
      modifies this
      ensures Valid() && View() == Next(old(View()), max, Step.Broadcast)
    {
      StepKeeps(View(), max, Step.Broadcast);
      QueuePopKeeps(View(), max);
      hide Inv, Offered;
      var m := broadcast[0];
      broadcast := broadcast[1..];
      BroadcastMessage(m);
      handled := handled + [m];
    }

    /** The deferred clean-up loop over the map. */
    method CloseAll()
      requires clients <= send.Keys == traces.Keys && forall c :: c in clients ==> !send[c].closed
      modifies this`clients, this`send, this`traces
      ensures View() == Emptied(old(View()), old(clients))
    {
      ghost var s := View();
      NoneEmptied(s);
      hide Emptied, EmptiedBut, Removed;
      while clients != {}
        invariant clients <= s.clients && View() == EmptiedBut(s, clients)
        decreases |clients|
      {
        var c :| c in clients;
        NextEmptied(s, clients, c);
        ghost var before := View();
        Drop(c);
        RemovedClients(before, c);
      }
      AllEmptied(s);
    }

    method HandleShutdown()
      requires Valid() && Enabled(View(), Shutdown)
      modifies this
      ensures Valid() && View() == Next(old(View()), max, Shutdown)
    {
      StepKeeps(View(), max, Shutdown);
      MapIsOpen(View(), max);
      ShutdownIsEmptied(View());
      hide Inv, Emptied, AfterShutdown;
      done := true;
      CloseAll();
      ObserveConnections();
    }

    /**
     * The queueing part of ServeWS. looked is what the first look at the closed flag saw; the flag may have been raised
     * since, and when both cases of the select are then ready, which one is taken is not determined.
     */
    method ServeWS(c: Id, looked: bool, preferDone: bool) returns (r: Answer)
      requires Valid() && c !in send && (looked ==> done)
      modifies this
      ensures Valid()
      ensures looked ==> r == HubClosed
      ensures r == HubClosed ==> done
      ensures r == QueueFull <==> !done && |old(View()).register| == REGISTER_CAPACITY
      ensures !done ==> (r == Queued <==> Enabled(old(View()), Serve(c)))
      ensures r in {Queued, HubClosed, QueueFull}
      ensures r == Queued ==> Enabled(old(View()), Serve(c)) && View() == Next(old(View()), max, Serve(c))
      ensures r != Queued ==> View() == old(View())
    {
      RegisterFits(View(), max);
      if looked {
        return HubClosed;
      }
      if |register| < REGISTER_CAPACITY && !(done && preferDone) {
        StepKeeps(View(), max, Serve(c));
        hide Inv;
        send := send[c := Chan([], false)];
        traces := traces[c := Trace([], [], 0, None, None, false)];
        register := register + [c];
        return Queued;
      }
      r := if done then HubClosed else QueueFull;
    }

    /** The end of readPump: the request to leave is dropped when its channel is full. */
    method ReadPumpEnds(c: Id)
      requires Valid() && Enabled(View(), ReadEnds(c))
      modifies this`unregister, this`traces
      ensures Valid() && View() == Next(old(View()), max, ReadEnds(c))
    {
      StepKeeps(View(), max, ReadEnds(c));
      hide Inv;
      traces := traces[c := traces[c].(ended := true)];
      if |unregister| < UNREGISTER_CAPACITY {
        unregister := unregister + [c];
      }
    }

    method WritePumpTakes(c: Id) returns (m: Message)
      requires Valid() && Enabled(View(), Take(c))
      modifies this`send, this`traces
      ensures Valid() && View() == Next(old(View()), max, Take(c)) && m == old(View()).send[c].buffer[0]
    {
      StepKeeps(View(), max, Take(c));
      hide Inv;
      m := send[c].buffer[0];
      send := send[c := send[c].(buffer := send[c].buffer[1..])];
      traces := traces[c := traces[c].(taken := traces[c].taken + [m])];
    }

    /**
     * Broadcast: queued or, when the queue is full, dropped. On a closed hub with room both cases of the select are
     * ready, and which one is taken is not determined.
     */
    method TryEnqueue(m: Message, preferDone: bool) returns (queued: bool)
      requires Valid()
      modifies this`broadcast
      ensures Valid()
      ensures !done ==> (queued <==> Enabled(old(View()), Enqueue(m)))
      ensures queued ==> Enabled(old(View()), Enqueue(m)) && !(done && preferDone)
      ensures View() == if queued then Next(old(View()), max, Enqueue(m)) else old(View())
    {
      queued := |broadcast| < BROADCAST_CAPACITY && !(done && preferDone);
      if queued {
        StepKeeps(View(), max, Enqueue(m));
        hide Inv;
        broadcast := broadcast + [m];
      }
    }

    /** One attempt of BroadcastBlocking; choice picks among the cases that are ready, and with none the caller waits. */
    method BroadcastBlocking(m: Message, ctxDone: bool, choice: Answer) returns (r: Answer)
      requires Valid()
      modifies this`broadcast
      ensures Valid()
      ensures r != QueueFull
      ensures r == HubClosed ==> done
      ensures r == Cancelled ==> ctxDone
      ensures r == Queued ==> Enabled(old(View()), Enqueue(m)) && View() == Next(old(View()), max, Enqueue(m))
      ensures r != Queued ==> View() == old(View())
      ensures r == Waits <==> !done && !ctxDone && !Enabled(old(View()), Enqueue(m))
    {
      var room := |broadcast| < BROADCAST_CAPACITY;
      if done && (choice == HubClosed || (!room && !(ctxDone && choice == Cancelled))) {
        return HubClosed;
      }
      if ctxDone && (choice == Cancelled || !room) {
        return Cancelled;
      }
      if !room {
        return Waits;
      }
      StepKeeps(View(), max, Enqueue(m));
      hide Inv;
      broadcast := broadcast + [m];
      r := Queued;
    }
  }

  lemma RegisterFits(s: State, max: nat)
    requires Inv(s, max)
    ensures |s.register| <= REGISTER_CAPACITY
  {
  }

  lemma MapIsOpen(s: State, max: nat)
    requires Inv(s, max)
    ensures Shaped(s) && forall c :: c in s.clients ==> !s.send[c].closed
  {
    forall c | c in s.clients ensures !s.send[c].closed {
      assert ClientOk(s.send[c], s.traces[c], true, s.handled);
    }
  }

  lemma QueuePopKeeps(s: State, max: nat)
    requires Inv(s, max) && s.broadcast != []
    ensures Inv(s.(broadcast := s.broadcast[1..]), max)
  {
    InvQueues(s, max);
    hide Inv;
    QueueingKeeps(s, s.(broadcast := s.broadcast[1..]), max);
  }

  /** The message offered to all clients but the rest. */
  function OfferedBut(s: State, m: Message, rest: set<Id>): State
    requires s.clients <= s.send.Keys == s.traces.Keys
  {
    Offered(s, m, s.clients - rest)
  }

  lemma NoneOffered(s: State, m: Message)
    requires s.clients <= s.send.Keys == s.traces.Keys
    ensures OfferedBut(s, m, s.clients) == s
  {
    hide IsFull;
    assert s.clients - s.clients == {};
    assert FullClients(s) * {} == {};
  }

  lemma AllOffered(s: State, m: Message)
    requires s.clients <= s.send.Keys == s.traces.Keys
    ensures OfferedBut(s, m, {}) == Offered(s, m, s.clients)
  {
    hide Offered;
    assert s.clients - {} == s.clients;
  }

  function OfferedTo(s: State, m: Message, c: Id): State
    requires c in s.send && s.send.Keys == s.traces.Keys
  {
    if IsFull(s.send[c]) then Removed(s, c).(gauge := Some(|s.clients - {c}|))
    else s.(send := s.send[c := OfferedChan(s.send[c], m, true)],
            traces := s.traces[c := s.traces[c].(pushed := s.traces[c].pushed + [m])])
  }

  lemma RemovedClients(s: State, c: Id)
    requires c in s.send && s.send.Keys == s.traces.Keys
    ensures Removed(s, c).clients == s.clients - {c}
  {
  }

  /** Offering to one more client is one more turn of the loop. */
  lemma OneOffered(s: State, m: Message, visited: set<Id>, c: Id)
    requires s.clients <= s.send.Keys == s.traces.Keys && c in s.clients && c !in visited
    ensures var t := Offered(s, m, visited);
            && c in t.clients && c in t.send && t.send[c] == s.send[c] && c in t.traces && t.send.Keys == t.traces.Keys
            && Offered(s, m, visited + {c}) == OfferedTo(t, m, c)
  {
    hide IsFull, Closed, LeftTrace;
    var t, u := Offered(s, m, visited), Offered(s, m, visited + {c});
    var before, after := FullClients(s) * visited, FullClients(s) * (visited + {c});
    if IsFull(s.send[c]) {
      assert c in FullClients(s);
      assert after == before + {c};
      assert s.clients - after == s.clients - before - {c};
    } else {
      assert c !in FullClients(s);
      assert after == before;
    }
    hide FullClients;
    forall d | d in s.send && d != c ensures (d in s.clients * (visited + {c})) == (d in s.clients * visited) {
    }
    assert u.send == t.send[c := OfferedChan(s.send[c], m, true)];
    assert u.traces == t.traces[c := OfferedTrace(s.traces[c], s.send[c], m, |s.handled|, true)];
  }

  lemma NextOffered(s: State, m: Message, rest: set<Id>, c: Id)
    requires s.clients <= s.send.Keys == s.traces.Keys && rest <= s.clients && c in rest
    ensures var t := OfferedBut(s, m, rest);
            && c in t.clients && c in t.send && t.send[c] == s.send[c] && c in t.traces && t.send.Keys == t.traces.Keys
            && OfferedBut(s, m, rest - {c}) == OfferedTo(t, m, c)
  {
    hide Offered, OfferedTo;
    OneOffered(s, m, s.clients - rest, c);
    assert s.clients - rest + {c} == s.clients - (rest - {c});
  }

  function EmptiedBut(s: State, rest: set<Id>): State
    requires s.clients <= s.send.Keys == s.traces.Keys
  {
    Emptied(s, s.clients - rest)
  }

  lemma NoneEmptied(s: State)
    requires s.clients <= s.send.Keys == s.traces.Keys
    ensures EmptiedBut(s, s.clients) == s
  {
    hide Closed, LeftTrace;
    assert s.clients - s.clients == {} && s.clients * {} == {};
  }

  lemma AllEmptied(s: State)
    requires s.clients <= s.send.Keys == s.traces.Keys
    ensures EmptiedBut(s, {}) == Emptied(s, s.clients)
  {
    hide Emptied;
    assert s.clients - {} == s.clients;
  }

  lemma NextEmptied(s: State, rest: set<Id>, c: Id)
    requires s.clients <= s.send.Keys == s.traces.Keys && rest <= s.clients && c in rest
    ensures var t := EmptiedBut(s, rest);
            && c in t.send && t.send[c] == s.send[c] && c in t.traces && t.send.Keys == t.traces.Keys
            && EmptiedBut(s, rest - {c}) == Removed(t, c)
  {
    hide Emptied, Removed;
    OneEmptied(s, s.clients - rest, c);
    assert s.clients - rest + {c} == s.clients - (rest - {c});
  }

  lemma OneEmptied(s: State, visited: set<Id>, c: Id)
    requires s.clients <= s.send.Keys == s.traces.Keys && c in s.clients && c !in visited
    ensures var t := Emptied(s, visited);
            && c in t.send && t.send[c] == s.send[c] && c in t.traces && t.send.Keys == t.traces.Keys
            && Emptied(s, visited + {c}) == Removed(t, c)
  {
    hide Closed, LeftTrace;
    var t, u := Emptied(s, visited), Emptied(s, visited + {c});
    assert u.clients == t.clients - {c};
    assert u.send == t.send[c := Closed(s.send[c])];
    assert u.traces == t.traces[c := LeftTrace(s.traces[c], |s.handled|)];
  }

  lemma RegisterFacts(s: State, max: nat)
    requires Inv(s, max) && Enabled(s, Register)
    ensures Shaped(s) && Waiting(s, s.register[0])
    ensures Next(s, max, Register) == AfterRegister(s, max) && Inv(AfterRegister(s, max), max)
  {
    StepKeeps(s, max, Register);
    hide AfterRegister;
  }

  lemma UnregisterFacts(s: State, max: nat)
    requires Inv(s, max) && Enabled(s, Unregister)
    ensures Shaped(s) && forall c :: c in s.clients ==> !s.send[c].closed
    ensures Next(s, max, Unregister) == AfterUnregister(s) && Inv(AfterUnregister(s), max)
  {
    StepKeeps(s, max, Unregister);
    MapIsOpen(s, max);
    hide AfterUnregister, Inv;
  }

  lemma ShutdownIsEmptied(s: State)
    requires s.clients <= s.send.Keys == s.traces.Keys
    ensures var d := s.(done := true);
            AfterShutdown(s) == Emptied(d, d.clients).(gauge := Some(0)) && Emptied(d, d.clients).clients == {}
  {
  }

  /** The sizes of the hub's queues, and its limit when none is configured. */
  lemma Sizes(configured: int)
    ensures SEND_CAPACITY == 32 && REGISTER_CAPACITY == 16 && UNREGISTER_CAPACITY == 64 && BROADCAST_CAPACITY == 64
    ensures MaxConnections(configured) >= 1 && (configured > 0 ==> MaxConnections(configured) == configured)
    ensures configured <= 0 ==> MaxConnections(configured) == 1000
  {
  }
}
