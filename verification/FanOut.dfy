/**
 * From the Redis subscription to the websocket hub: the subscriber publishes into a bounded channel guarded by a lock
 * and a closed flag, the forwarder moves messages on to the hub's broadcast queue, a second producer shares that queue.
 */
module FanOut {
  import opened Strings
  import opened Common
  import Ws = WebsocketHub

  // ---- The pubsub hub ----

  datatype PublishResult = Published | HubClosed | Cancelled | Blocked

  class PubSubHub {
    const capacity: nat
    var messages: seq<string>
    var closed: bool
    var closes: nat

    /** The channel was closed as often as the flag says: closing it twice would panic. */
    ghost predicate Valid()
      reads this
    {
      |messages| <= capacity && closes == if closed then 1 else 0
    }

    constructor (capacity: nat)
      ensures Valid() && this.capacity == capacity && messages == [] && !closed
    {
      this.capacity, messages, closed, closes := capacity, [], false, 0;
    }

    /**
     * One attempt of PublishLocal under the read lock. When both cases of the select are ready, which one is taken is
     * not determined; when neither is, the caller waits with the lock held.
     */
    method PublishLocal(message: string, ctxDone: bool, preferDone: bool) returns (r: PublishResult)
      requires Valid()
      modifies this`messages
      ensures Valid()
      ensures r == HubClosed <==> closed
      ensures r == Published ==> !closed && |old(messages)| < capacity && messages == old(messages) + [message]
      ensures r != Published ==> messages == old(messages)
      ensures r == Cancelled ==> ctxDone
      ensures r == Blocked ==> !ctxDone && |messages| == capacity
    {
      if closed {
        return HubClosed;
      }
      if |messages| < capacity && !(ctxDone && preferDone) {
        messages := messages + [message];
        return Published;
      }
      r := if ctxDone then Cancelled else Blocked;
    }

    /** Under the write lock: the channel is closed once, however often this is called, and keeps its messages. */
    method Close()
      requires Valid()
      modifies this`closed, this`closes
      ensures Valid() && closed && closes == 1
    {
      if closed {
        return;
      }
      closed := true;
      closes := closes + 1;
    }
  }

  // ---- The whole pipeline as one transition system ----

  /** Sending means inside PublishLocal's select, with the read lock held. */
  datatype Subscriber = Disconnected | Idle | Calling(message: string) | Sending(message: string) | Stopped

  datatype Forwarder = Ready | Holding(message: string) | Ended

  datatype System = System(
    subscriber: Subscriber,
    buffer: seq<string>,
    closed: bool,
    forwarder: Forwarder,
    hub: Ws.State,
    cancelled: bool,
    received: seq<string>)

  const INITIAL := System(Disconnected, [], false, Ready, Ws.INITIAL, false, [])

  datatype Step =
    | Connect | Disconnect | StopSubscriber
    | Receive(message: string)         // subscribeOnce takes a message
    | Lock                             // PublishLocal takes the read lock and looks at the flag
    | Send                             // the message goes into the buffer
    | HandOver                         // or straight to a waiting forwarder
    | CancelSend                       // or the context ends the wait
    | Close                            // Hub.Close, which needs the write lock
    | ForwarderTakes | ForwarderSends | ForwarderFails | ForwarderEnds
    | HostsTick(body: string, preferDone: bool)    // the other producer, which never waits
    | HubStep(step: Ws.Step)           // the hub's loop and its connections
    | Cancel                           // the application context is cancelled

  predicate HubsOwn(step: Ws.Step) {
    !step.Enqueue?
  }

  predicate Enabled(s: System, capacity: nat, step: Step) {
    match step
    case Connect => s.subscriber.Disconnected?
    case Disconnect => s.subscriber.Idle?
    case StopSubscriber => s.cancelled && (s.subscriber.Idle? || s.subscriber.Disconnected?)
    case Receive(_) => s.subscriber.Idle?
    case Lock => s.subscriber.Calling?
    case Send => s.subscriber.Sending? && |s.buffer| < capacity
    case HandOver => s.subscriber.Sending? && s.buffer == [] && s.forwarder.Ready?
    case CancelSend => s.subscriber.Sending? && s.cancelled
    case Close => s.cancelled && !s.subscriber.Sending?
    case ForwarderTakes => s.forwarder.Ready? && s.buffer != []
    case ForwarderSends => s.forwarder.Holding? && Ws.Enabled(s.hub, Ws.Enqueue(Ws.Alert(s.forwarder.message)))
    case ForwarderFails => s.forwarder.Holding? && (s.hub.done || s.cancelled)
    case ForwarderEnds => s.forwarder.Ready? && s.buffer == [] && s.closed
    case HostsTick(_, _) => true
    case HubStep(step) => HubsOwn(step) && Ws.Enabled(s.hub, step) && (step.Shutdown? ==> s.cancelled)
    case Cancel => true
  }

  function Next(s: System, capacity: nat, max: nat, step: Step): System
    requires Ws.Shaped(s.hub) && Enabled(s, capacity, step)
  {
    match step
    case Connect => s.(subscriber := Idle)
    case Disconnect => s.(subscriber := Disconnected)
    case StopSubscriber => s.(subscriber := Stopped)
    case Receive(m) => s.(subscriber := Calling(m), received := s.received + [m])
    case Lock =>
      // PublishLocal's error makes subscribeOnce return: nil ends Run when the context is over, an error reconnects
      if !s.closed then s.(subscriber := Sending(s.subscriber.message))
      else if s.cancelled then s.(subscriber := Stopped) else s.(subscriber := Disconnected)
    case Send => s.(subscriber := Idle, buffer := s.buffer + [s.subscriber.message])
    case HandOver => s.(subscriber := Idle, forwarder := Holding(s.subscriber.message))
    case CancelSend => s.(subscriber := Stopped)
    case Close => s.(closed := true)
    case ForwarderTakes => s.(forwarder := Holding(s.buffer[0]), buffer := s.buffer[1..])
    case ForwarderSends =>
      s.(forwarder := Ready, hub := Ws.Next(s.hub, max, Ws.Enqueue(Ws.Alert(s.forwarder.message))))
    case ForwarderFails => s.(forwarder := if s.cancelled then Ended else Ready)
    case ForwarderEnds => s.(forwarder := Ended)
    case HostsTick(body, preferDone) =>
      if Ws.Enabled(s.hub, Ws.Enqueue(Ws.Hosts(body))) && !(s.hub.done && preferDone)
      then s.(hub := Ws.Next(s.hub, max, Ws.Enqueue(Ws.Hosts(body)))) else s
    case HubStep(step) => s.(hub := Ws.Next(s.hub, max, step))
    case Cancel => s.(cancelled := true)
  }

  // ---- Where the alerts are ----

  function Alerts(ms: seq<Ws.Message>): seq<string> {
    if ms == [] then []
    else Alerts(ms[..|ms| - 1]) + if ms[|ms| - 1].Alert? then [ms[|ms| - 1].body] else []
  }

  lemma {:induction false} AlertsConcat(a: seq<Ws.Message>, b: seq<Ws.Message>)
    ensures Alerts(a + b) == Alerts(a) + Alerts(b)
  {
    if b == [] {
      assert a + b == a;
    } else {
      AlertsConcat(a, b[..|b| - 1]);
      assert (a + b)[..|a + b| - 1] == a + b[..|b| - 1];
    }
  }

  lemma AlertsOne(m: Ws.Message)
    ensures Alerts([m]) == if m.Alert? then [m.body] else []
  {
    assert [m][..0] == [];
  }

  /** Alerts the hub has fanned out or queued. */
  function InHub(s: System): seq<string> {
    Alerts(s.hub.handled) + Alerts(s.hub.broadcast)
  }

  function HeldByForwarder(s: System): seq<string> {
    if s.forwarder.Holding? then [s.forwarder.message] else []
  }

  function HeldBySubscriber(s: System): seq<string> {
    if s.subscriber.Calling? || s.subscriber.Sending? then [s.subscriber.message] else []
  }

  /** Everything between the hub and the subscription, in order. */
  function Pipeline(s: System): seq<string> {
    Stages(InHub(s), HeldByForwarder(s), s.buffer, HeldBySubscriber(s))
  }

  function Stages(inHub: seq<string>, forwarding: seq<string>, buffer: seq<string>, publishing: seq<string>)
    : seq<string>
  {
    inHub + forwarding + buffer + publishing
  }

  lemma StageMoves(h: seq<string>, f: seq<string>, b: seq<string>, p: seq<string>, m: string)
    ensures Stages(h, f, b + [m], []) == Stages(h, f, b, [m])
    ensures Stages(h, [m], [], []) == Stages(h, [], [], [m])
    ensures Stages(h, [m], b, p) == Stages(h, [], [m] + b, p)
    ensures Stages(h + [m], [], b, p) == Stages(h, [m], b, p)
    ensures Stages(h, f, b, [m]) == Stages(h, f, b, []) + [m]
    ensures h <= Stages(h, f, b, p) && Stages(h, f, b, []) <= Stages(h, f, b, p)
  {
  }

  /** Before shutdown the pipeline is everything received; a stage that has stopped may have lost only what follows. */
  predicate InOrder(s: System) {
    if s.forwarder.Ended? then InHub(s) <= s.received
    else if s.subscriber.Stopped? then Pipeline(s) <= s.received
    else Pipeline(s) == s.received
  }

  predicate OnlyAfterCancel(s: System) {
    s.closed || s.hub.done || s.subscriber.Stopped? || s.forwarder.Ended? ==> s.cancelled
  }

  predicate Inv(s: System, capacity: nat, max: nat) {
    && Ws.Inv(s.hub, max) && InOrder(s) && OnlyAfterCancel(s)
    && (s.subscriber.Sending? ==> !s.closed)
    && |s.buffer| <= capacity
  }

  lemma {:induction false} BroadcastKeepsAlerts(handled: seq<Ws.Message>, queued: seq<Ws.Message>)
    requires queued != []
    ensures Alerts(handled + [queued[0]]) + Alerts(queued[1..]) == Alerts(handled) + Alerts(queued)
  {
    var m, rest := queued[0], queued[1..];
    assert queued == [m] + rest;
    AlertsConcat([m], rest);
    AlertsConcat(handled, [m]);
    hide Alerts;
  }

  lemma EnqueueAddsAlerts(handled: seq<Ws.Message>, queued: seq<Ws.Message>, m: Ws.Message)
    ensures Alerts(handled) + Alerts(queued + [m]) == Alerts(handled) + Alerts(queued) + AlertIn(m)
  {
    AlertsConcat(queued, [m]);
    AlertsOne(m);
    hide Alerts;
  }

  function AlertIn(m: Ws.Message): seq<string> {
    if m.Alert? then [m.body] else []
  }

  function NewAlert(step: Ws.Step): seq<string> {
    if step.Enqueue? then AlertIn(step.message) else []
  }

  lemma HubQueues(h: Ws.State, max: nat, step: Ws.Step)
    requires Ws.Shaped(h) && Ws.Enabled(h, step)
    ensures var t := Ws.Next(h, max, step);
            match step
            case Broadcast => t.handled == h.handled + [h.broadcast[0]] && t.broadcast == h.broadcast[1..]
            case Enqueue(m) => t.handled == h.handled && t.broadcast == h.broadcast + [m]
            case _ => t.handled == h.handled && t.broadcast == h.broadcast
  {
    hide Ws.Closed, Ws.ClosedTrace, Ws.LeftTrace, Ws.OfferedChan, Ws.OfferedTrace, Ws.FullClients;
  }

  /** The hub's own steps move alerts from its queue to the fanned-out ones and lose none. */
  lemma HubKeepsAlerts(h: Ws.State, max: nat, step: Ws.Step)
    requires Ws.Shaped(h) && Ws.Enabled(h, step)
    ensures Alerts(Ws.Next(h, max, step).handled) + Alerts(Ws.Next(h, max, step).broadcast)
         == Alerts(h.handled) + Alerts(h.broadcast) + NewAlert(step)
  {
    HubQueues(h, max, step);
    var t := Ws.Next(h, max, step);
    hide Ws.Next, Alerts, Ws.Shaped;
    match step {
      case Broadcast => BroadcastKeepsAlerts(h.handled, h.broadcast);
      case Enqueue(m) => EnqueueAddsAlerts(h.handled, h.broadcast, m);
      case _ =>
    }
  }

  lemma HubDone(h: Ws.State, max: nat, step: Ws.Step)
    requires Ws.Shaped(h) && Ws.Enabled(h, step)
    ensures Ws.Next(h, max, step).done == (h.done || step.Shutdown?)
  {
    hide Ws.Closed, Ws.ClosedTrace, Ws.LeftTrace, Ws.OfferedChan, Ws.OfferedTrace, Ws.FullClients;
  }

  /** A hub step that adds no alert leaves every stage's alerts where they are. */
  lemma HubStepKeeps(s: System, capacity: nat, max: nat, step: Ws.Step)
    requires Inv(s, capacity, max) && Ws.Enabled(s.hub, step) && (step.Shutdown? ==> s.cancelled)
    requires !(step.Enqueue? && step.message.Alert?)
    ensures Ws.Shaped(s.hub) && Inv(s.(hub := Ws.Next(s.hub, max, step)), capacity, max)
  {
    Ws.InvShaped(s.hub, max);
    HubKeepsAlerts(s.hub, max, step);
    HubDone(s.hub, max, step);
    Ws.StepKeeps(s.hub, max, step);
    hide Ws.Inv, Ws.Next, Ws.Shaped, Alerts;
    var t := s.(hub := Ws.Next(s.hub, max, step));
    assert InHub(s) + [] == InHub(s);
    assert InHub(t) == InHub(s);
  }

  lemma ForwardKeeps(s: System, capacity: nat, max: nat)
    requires Inv(s, capacity, max) && Enabled(s, capacity, ForwarderSends)
    ensures Ws.Shaped(s.hub) && Inv(Next(s, capacity, max, ForwarderSends), capacity, max)
  {
    Ws.InvShaped(s.hub, max);
    var m := s.forwarder.message;
    var step := Ws.Enqueue(Ws.Alert(m));
    HubKeepsAlerts(s.hub, max, step);
    HubDone(s.hub, max, step);
    Ws.StepKeeps(s.hub, max, step);
    var t := Next(s, capacity, max, ForwarderSends);
    hide Ws.Inv, Ws.Next, Ws.Shaped, Alerts;
    assert InHub(t) == InHub(s) + [m];
    StageMoves(InHub(s), [], s.buffer, HeldBySubscriber(s), m);
    hide Stages, InHub;
    assert Pipeline(t) == Pipeline(s);
  }

  predicate StageStep(step: Step) {
    !step.ForwarderSends? && !step.HostsTick? && !step.HubStep?
  }

  /** A step that may drop what its stage holds, after cancellation only. */
  predicate Losing(step: Step) {
    step.Lock? || step.CancelSend? || step.ForwarderFails? || step.ForwarderEnds?
  }

  lemma MovingKeepsPipeline(s: System, capacity: nat, max: nat, step: Step)
    requires Ws.Shaped(s.hub) && Enabled(s, capacity, step) && StageStep(step) && !Losing(step) && !step.Receive?
    ensures Pipeline(Next(s, capacity, max, step)) == Pipeline(s)
  {
    var t := Next(s, capacity, max, step);
    SameHubSameAlerts(s, t);
    if step == Send || step == HandOver {
      StageMoves(InHub(s), HeldByForwarder(s), s.buffer, [], s.subscriber.message);
    } else if step == ForwarderTakes {
      assert s.buffer == [s.buffer[0]] + t.buffer;
      StageMoves(InHub(s), [], t.buffer, HeldBySubscriber(s), s.buffer[0]);
    }
    hide InHub, Ws.Shaped, Ws.Next, Stages;
  }

  lemma SameHubSameAlerts(s: System, t: System)
    requires s.hub == t.hub
    ensures InHub(s) == InHub(t)
  {
  }

  lemma ReceivingInOrder(s: System, capacity: nat, max: nat, m: string)
    requires Ws.Shaped(s.hub) && InOrder(s) && Enabled(s, capacity, Receive(m))
    ensures InOrder(Next(s, capacity, max, Receive(m)))
  {
    var t := Next(s, capacity, max, Receive(m));
    SameHubSameAlerts(s, t);
    StageMoves(InHub(s), HeldByForwarder(s), s.buffer, [], m);
    hide InHub, Ws.Shaped, Ws.Next, Stages;
    PrefixTrans(InHub(s), s.received, t.received);
  }

  lemma LosingInOrder(s: System, capacity: nat, max: nat, step: Step)
    requires Ws.Shaped(s.hub) && InOrder(s) && OnlyAfterCancel(s) && Enabled(s, capacity, step) && Losing(step)
    ensures InOrder(Next(s, capacity, max, step))
  {
    SameHubSameAlerts(s, Next(s, capacity, max, step));
    StageMoves(InHub(s), HeldByForwarder(s), s.buffer, HeldBySubscriber(s), "");
    PrefixTrans(Stages(InHub(s), HeldByForwarder(s), s.buffer, []), Pipeline(s), s.received);
    PrefixTrans(InHub(s), Pipeline(s), s.received);
    hide InHub, Ws.Shaped, Ws.Next, Stages;
  }

  lemma StageInOrder(s: System, capacity: nat, max: nat, step: Step)
    requires Ws.Shaped(s.hub) && InOrder(s) && OnlyAfterCancel(s) && Enabled(s, capacity, step) && StageStep(step)
    ensures InOrder(Next(s, capacity, max, step))
  {
    if step.Receive? {
      hide InOrder, Next;
      ReceivingInOrder(s, capacity, max, step.message);
    } else if Losing(step) {
      hide InOrder, Next;
      LosingInOrder(s, capacity, max, step);
    } else {
      MovingKeepsPipeline(s, capacity, max, step);
      SameHubSameAlerts(s, Next(s, capacity, max, step));
      StageMoves(InHub(s), HeldByForwarder(s), s.buffer, HeldBySubscriber(s), "");
      hide Pipeline, InHub, Ws.Shaped, Ws.Next;
    }
  }

  /** Steps of the subscriber, the buffer and the forwarder's intake. */
  lemma StageKeeps(s: System, capacity: nat, max: nat, step: Step)
    requires Inv(s, capacity, max) && Enabled(s, capacity, step) && StageStep(step)
    ensures Ws.Shaped(s.hub) && Inv(Next(s, capacity, max, step), capacity, max)
  {
    Ws.InvShaped(s.hub, max);
    StageInOrder(s, capacity, max, step);
    StageFlags(s, capacity, max, step);
    hide Ws.Inv, Ws.Next, Ws.Shaped, InOrder, Next, Enabled, OnlyAfterCancel;
  }

  lemma StageFlags(s: System, capacity: nat, max: nat, step: Step)
    requires Ws.Shaped(s.hub) && OnlyAfterCancel(s) && Enabled(s, capacity, step) && StageStep(step)
    requires (s.subscriber.Sending? ==> !s.closed) && |s.buffer| <= capacity
    ensures var t := Next(s, capacity, max, step);
            t.hub == s.hub && OnlyAfterCancel(t) && (t.subscriber.Sending? ==> !t.closed) && |t.buffer| <= capacity
  {
    hide Ws.Shaped, Ws.Next;
  }

  lemma StepKeeps(s: System, capacity: nat, max: nat, step: Step)
    requires Inv(s, capacity, max) && Enabled(s, capacity, step)
    ensures Ws.Shaped(s.hub) && Inv(Next(s, capacity, max, step), capacity, max)
  {
    Ws.InvShaped(s.hub, max);
    hide Ws.Inv, Ws.Next, Ws.Shaped, InOrder;
    match step {
      case ForwarderSends => ForwardKeeps(s, capacity, max);
      case HubStep(own) => HubStepKeeps(s, capacity, max, own);
      case HostsTick(body, _) =>
        if Ws.Enabled(s.hub, Ws.Enqueue(Ws.Hosts(body))) {
          HubStepKeeps(s, capacity, max, Ws.Enqueue(Ws.Hosts(body)));
        }
      case _ => StageKeeps(s, capacity, max, step);
    }
  }

  /** The state after the steps, when each of them was possible in its turn. */
  function Run(s: System, capacity: nat, max: nat, steps: seq<Step>): Option<System>
    decreases |steps|
  {
    if steps == [] then Some(s)
    else if Ws.Shaped(s.hub) && Enabled(s, capacity, steps[0])
    then Run(Next(s, capacity, max, steps[0]), capacity, max, steps[1..])
    else None
  }

  function Reached(capacity: nat, max: nat, steps: seq<Step>): Option<System> {
    Run(INITIAL, capacity, max, steps)
  }

  lemma {:induction false} RunOk(s: System, capacity: nat, max: nat, steps: seq<Step>)
    requires Inv(s, capacity, max) && Run(s, capacity, max, steps).Some?
    ensures Inv(Run(s, capacity, max, steps).value, capacity, max)
    decreases |steps|
  {
    if steps != [] {
      hide Inv, Next, Enabled, Ws.Shaped;
      StepKeeps(s, capacity, max, steps[0]);
      RunOk(Next(s, capacity, max, steps[0]), capacity, max, steps[1..]);
    }
  }

  lemma ReachedOk(capacity: nat, max: nat, steps: seq<Step>)
    requires Reached(capacity, max, steps).Some?
    ensures Inv(Reached(capacity, max, steps).value, capacity, max)
  {
    assert InOrder(INITIAL);
    hide Run;
    RunOk(INITIAL, capacity, max, steps);
  }

  /**
   * Until the context is cancelled, the alerts received are, in order, those fanned out, those in the hub's queue, the
   * one the forwarder holds, the pubsub buffer, and the one the subscriber holds. Afterwards only a tail can be lost:
   * what is fanned out or queued is always a beginning of what was received.
   */
  lemma AlertConservation(capacity: nat, max: nat, steps: seq<Step>)
    requires Reached(capacity, max, steps).Some?
    ensures var s := Reached(capacity, max, steps).value;
            && (!s.cancelled ==> s.received == Pipeline(s))
            && InHub(s) <= s.received
            && |s.buffer| <= capacity
  {
    ReachedOk(capacity, max, steps);
    hide Reached, Alerts, Ws.Inv;
  }

  /** Whenever PublishLocal is about to send, the channel is open; and once closed it stays closed. */
  lemma NeverSendsAfterClose(capacity: nat, max: nat, steps: seq<Step>, step: Step)
    requires Reached(capacity, max, steps).Some?
    ensures var s := Reached(capacity, max, steps).value;
            && (s.subscriber.Sending? ==> !s.closed)
            && (s.closed ==> !Enabled(s, capacity, Send) && !Enabled(s, capacity, HandOver))
            && (s.closed && Enabled(s, capacity, step) && Ws.Shaped(s.hub) ==> Next(s, capacity, max, step).closed)
  {
    ReachedOk(capacity, max, steps);
    hide Reached, Ws.Inv, Ws.Next, InOrder;
  }

  // ---- Alerts can move on ----

  /** A step that brings in no message and ends nothing. */
  predicate Quiet(step: Step) {
    step.Lock? || step.Send? || step.HandOver? || step.ForwarderTakes? || step.ForwarderSends?
    || step == HubStep(Ws.Broadcast)
  }

  /** How many steps the messages under way are from the clients. */
  function Work(s: System): nat {
    (if s.subscriber.Calling? then 5 else if s.subscriber.Sending? then 4 else 0)
    + 3 * |s.buffer| + (if s.forwarder.Holding? then 2 else 0) + |s.hub.broadcast|
  }

  /** A step that moves some message on. */
  function Pick(s: System): Option<Step> {
    if s.hub.broadcast != [] then Some(HubStep(Ws.Broadcast))
    else if s.forwarder.Holding? then Some(ForwarderSends)
    else if s.buffer != [] then Some(ForwarderTakes)
    else if s.subscriber.Sending? then Some(HandOver)
    else if s.subscriber.Calling? then Some(Lock)
    else None
  }

  lemma PickMoves(s: System, capacity: nat, max: nat)
    requires Inv(s, capacity, max) && !s.cancelled && Pick(s).Some?
    ensures Ws.Shaped(s.hub) && Enabled(s, capacity, Pick(s).value) && Quiet(Pick(s).value)
    ensures var t := Next(s, capacity, max, Pick(s).value);
            Work(t) < Work(s) && !t.cancelled && t.received == s.received
  {
    Ws.InvShaped(s.hub, max);
    PickEnabled(s, capacity, max);
    PickHub(s, max);
    hide Inv, Ws.Shaped, Ws.Next, Ws.Enabled, Quiet;
  }

  lemma PickEnabled(s: System, capacity: nat, max: nat)
    requires Inv(s, capacity, max) && !s.cancelled && Pick(s).Some?
    ensures Enabled(s, capacity, Pick(s).value) && Quiet(Pick(s).value)
    ensures Pick(s) == Some(Lock) ==> !s.closed
  {
    hide Ws.Inv, Ws.Shaped, Ws.Next, InOrder;
  }

  /** What the picked step does to the hub's queue. */
  lemma PickHub(s: System, max: nat)
    requires Ws.Shaped(s.hub) && Pick(s).Some?
    requires Pick(s) == Some(HubStep(Ws.Broadcast)) ==> Ws.Enabled(s.hub, Ws.Broadcast)
    requires Pick(s) == Some(ForwarderSends) ==> Ws.Enabled(s.hub, Ws.Enqueue(Ws.Alert(s.forwarder.message)))
    ensures Pick(s) == Some(HubStep(Ws.Broadcast))
        ==> |Ws.Next(s.hub, max, Ws.Broadcast).broadcast| == |s.hub.broadcast| - 1
    ensures Pick(s) == Some(ForwarderSends)
        ==> |Ws.Next(s.hub, max, Ws.Enqueue(Ws.Alert(s.forwarder.message))).broadcast| == |s.hub.broadcast| + 1
  {
    hide Ws.Enabled, Ws.Next, Ws.Shaped;
    if s.hub.broadcast != [] {
      HubQueues(s.hub, max, Ws.Broadcast);
    } else if s.forwarder.Holding? {
      HubQueues(s.hub, max, Ws.Enqueue(Ws.Alert(s.forwarder.message)));
    }
  }

  /** With nothing left to move, everything received was fanned out. */
  lemma NothingLeft(s: System, capacity: nat, max: nat)
    requires Inv(s, capacity, max) && !s.cancelled && Pick(s).None?
    ensures Alerts(s.hub.handled) == s.received
  {
    hide Ws.Inv;
    assert Alerts([]) == [];
    assert Pipeline(s) == Alerts(s.hub.handled);
  }

  lemma {:induction false} Drain(s: System, capacity: nat, max: nat) returns (steps: seq<Step>)
    requires Inv(s, capacity, max) && !s.cancelled
    ensures Run(s, capacity, max, steps).Some? && forall i :: 0 <= i < |steps| ==> Quiet(steps[i])
    ensures var t := Run(s, capacity, max, steps).value;
            Alerts(t.hub.handled) == t.received == s.received
    decreases Work(s)
  {
    hide Inv, Next, Enabled, Quiet, Work, Alerts, Ws.Shaped;
    if Pick(s).None? {
      steps := [];
      NothingLeft(s, capacity, max);
    } else {
      var step := Pick(s).value;
      PickMoves(s, capacity, max);
      StepKeeps(s, capacity, max, step);
      var rest := Drain(Next(s, capacity, max, step), capacity, max);
      steps := [step] + rest;
      assert steps[1..] == rest;
    }
  }

  /** steps is a run of quiet steps after which every alert received was fanned out. */
  ghost predicate FansOutAll(s: System, capacity: nat, max: nat, steps: seq<Step>) {
    && (forall i :: 0 <= i < |steps| ==> Quiet(steps[i]))
    && var t := Run(s, capacity, max, steps);
    t.Some? && t.value.received == s.received && Alerts(t.value.hub.handled) == s.received
  }

  /** From every reachable state before cancellation all alerts received can be fanned out, with no new message. */
  lemma EveryAlertCanArrive(capacity: nat, max: nat, steps: seq<Step>)
    requires Reached(capacity, max, steps).Some? && !Reached(capacity, max, steps).value.cancelled
    ensures exists more :: FansOutAll(Reached(capacity, max, steps).value, capacity, max, more)
  {
    ReachedOk(capacity, max, steps);
    hide Reached, Run, Inv, Alerts, Quiet;
    var more := Drain(Reached(capacity, max, steps).value, capacity, max);
    assert FansOutAll(Reached(capacity, max, steps).value, capacity, max, more);
  }

  lemma AlertsSlice(ms: seq<Ws.Message>, from: nat, to: nat)
    requires from <= to <= |ms|
    ensures |Alerts(ms[..from])| <= |Alerts(ms[..to])| <= |Alerts(ms)|
    ensures Alerts(ms[from..to]) == Alerts(ms)[|Alerts(ms[..from])|..|Alerts(ms[..to])|]
  {
    var a, b, c := ms[..from], ms[from..to], ms[to..];
    assert ms[..to] == a + b && ms == ms[..to] + c;
    AlertsConcat(a, b);
    AlertsConcat(ms[..to], c);
    hide Alerts;
  }

  /**
   * End to end: in every run, the alerts pushed to a client are a contiguous block of the alerts the subscriber received,
   * none missing in between and none reordered, however host messages and other clients interfere.
   */
  lemma ClientSeesBlock(capacity: nat, max: nat, steps: seq<Step>, c: Ws.Id)
    requires Reached(capacity, max, steps).Some? && c in Reached(capacity, max, steps).value.hub.traces
    ensures var s := Reached(capacity, max, steps).value;
            exists i, j :: 0 <= i <= j <= |s.received| && Alerts(s.hub.traces[c].pushed) == s.received[i..j]
  {
    ReachedOk(capacity, max, steps);
    AlertConservation(capacity, max, steps);
    var s := Reached(capacity, max, steps).value;
    var t := s.hub.traces[c];
    hide Reached;
    assert Ws.ClientOk(s.hub.send[c], t, c in s.hub.clients, s.hub.handled);
    if t.joined.None? {
      assert Alerts([]) == s.received[0..0];
    } else {
      var to := if t.left.Some? then t.left.value else |s.hub.handled|;
      assert t.pushed == s.hub.handled[t.joined.value..to];
      AlertsSlice(s.hub.handled, t.joined.value, to);
      var i, j := |Alerts(s.hub.handled[..t.joined.value])|, |Alerts(s.hub.handled[..to])|;
      hide Ws.ClientOk;
      PrefixBlock(Alerts(s.hub.handled), Alerts(s.hub.broadcast), s.received, i, j);
    }
  }

  lemma PrefixBlock(a: seq<string>, b: seq<string>, whole: seq<string>, i: nat, j: nat)
    requires a + b <= whole && i <= j <= |a|
    ensures j <= |whole| && a[i..j] == whole[i..j]
  {
    assert a == (a + b)[..|a|];
    assert forall k :: 0 <= k < |a| ==> a[k] == whole[k];
  }
}
