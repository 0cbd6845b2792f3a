/**
 * The webhook handler of server-web: validate everything, then per alert write the active hash, append the event
 * once, archive it and publish it. A cache call that fails stops the call; Alertmanager then sends the payload again.
 */
module Webhook {
  import opened Strings
  import opened Common
  import opened TimeFormat
  import opened DedupKeys
  import opened History

  datatype FeedEvent = FeedEvent(alert: Alert, receivedAt: Time)

  /** What goes wrong while one alert of the payload is handled. */
  datatype Faults = Faults(active: Fault, add: Fault, archiveCommits: bool, publish: Fault, produceWorks: bool)

  datatype ErrorKind = UnsupportedStatus | StoreActiveAlert | DeleteActiveAlert | StoreAlertEvent

  /**
   * Everything the handler writes. log is every event ever appended to the stream, dedupe maps a live or expired
   * key to its deadline in milliseconds.
   */
  datatype Stores = Stores(
    active: map<string, Alert>,
    log: seq<FeedEvent>,
    dedupe: map<string, int>,
    rows: seq<Row>,
    published: seq<FeedEvent>,
    produced: seq<FeedEvent>)

  /** One call of the handler: when, with which receipt time, and what goes wrong at each alert. */
  datatype Call = Call(clock: int, receivedAt: Time, faults: seq<Faults>) {
    function FaultsAt(i: nat): Faults {
      if i < |faults| then faults[i] else NO_FAULTS
    }
  }

  const NO_FAULTS := Faults(Healthy, Healthy, true, Healthy, true)

  function EventKey(a: Alert): string {
    EventDedupeKey(a.fingerprint, a.status, a.startsAt, a.endsAt)
  }

  function SetActive(active: map<string, Alert>, a: Alert): map<string, Alert> {
    if a.status == FIRING then active[a.fingerprint := a]
    else if a.status == RESOLVED then active - {a.fingerprint}
    else active
  }

  predicate IsLive(dedupe: map<string, int>, clock: int, key: string) {
    key in dedupe && clock <= dedupe[key]
  }

  /** Two supported alerts share a key exactly when all four parts of their identity agree. */
  lemma EventKeyMeaning(a: Alert, b: Alert)
    requires Supported(a.status) && Supported(b.status)
    ensures EventKey(a) == EventKey(b)
       <==> a.fingerprint == b.fingerprint && a.status == b.status && a.startsAt == b.startsAt && a.endsAt == b.endsAt
  {
    assert ':' !in a.status && ':' !in b.status;
    hide EventDedupeKey;
    EventDedupeKeyInjective(a.fingerprint, a.status, a.startsAt, a.endsAt, b.fingerprint, b.status, b.startsAt, b.endsAt);
  }

  datatype Added = Stored | Duplicate | AddFailed

  /** AddAlertEventOnce: a TTL below a millisecond fails after the event is appended. */
  function AddOnce(s: Stores, ttlNs: int, clock: int, a: Alert, receivedAt: Time, fault: Fault): (Stores, Added) {
    if ttlNs <= 0 || fault == Refused then (s, AddFailed)
    else if IsLive(s.dedupe, clock, EventKey(a)) then (s, if fault == ReplyLost then AddFailed else Duplicate)
    else
      var appended := s.(log := s.log + [FeedEvent(a, receivedAt)]);
      var ttlMs := ttlNs / 1_000_000;
      if ttlMs < 1 then (appended, AddFailed)
      else
        (appended.(dedupe := s.dedupe[EventKey(a) := clock + ttlMs]), if fault == ReplyLost then AddFailed else Stored)
  }

  function Announce(s: Stores, a: Alert, receivedAt: Time, f: Faults): Stores {
    s.(rows := if f.archiveCommits then Archived(s.rows, a) else s.rows,
       published := if f.publish == Refused then s.published else s.published + [FeedEvent(a, receivedAt)],
       produced := if f.produceWorks then s.produced + [FeedEvent(a, receivedAt)] else s.produced)
  }

  function HandleAlert(s: Stores, ttlNs: int, clock: int, receivedAt: Time, a: Alert, f: Faults)
    : (Stores, Option<ErrorKind>)
  {
    if a.fingerprint == "" then (s, None)
    else if f.active == Refused then (s, Some(if a.status == FIRING then StoreActiveAlert else DeleteActiveAlert))
    else
      var written := s.(active := SetActive(s.active, a));
      if f.active == ReplyLost then (written, Some(if a.status == FIRING then StoreActiveAlert else DeleteActiveAlert))
      else
        var (after, added) := AddOnce(written, ttlNs, clock, a, receivedAt, f.add);
        match added
        case AddFailed => (after, Some(StoreAlertEvent))
        case Duplicate => (after, None)
        case Stored => (Announce(after, a, receivedAt, f), None)
  }

  /** The second loop, from alert i on. */
  function HandleFrom(s: Stores, ttlNs: int, alerts: seq<Alert>, call: Call, i: nat): (Stores, Option<ErrorKind>)
    requires i <= |alerts|
    decreases |alerts| - i
  {
    if i == |alerts| then (s, None)
    else
      var (after, error) := HandleAlert(s, ttlNs, call.clock, call.receivedAt, alerts[i], call.FaultsAt(i));
      if error.Some? then (after, error) else HandleFrom(after, ttlNs, alerts, call, i + 1)
  }

  predicate Acceptable(alerts: seq<Alert>) {
    forall i :: 0 <= i < |alerts| ==> alerts[i].fingerprint == "" || Supported(alerts[i].status)
  }

  function Handle(s: Stores, ttlNs: int, alerts: seq<Alert>, call: Call): (Stores, Option<ErrorKind>) {
    if !Acceptable(alerts) then (s, Some(UnsupportedStatus)) else HandleFrom(s, ttlNs, alerts, call, 0)
  }

  class Service {
    const ttlNs: int
    const history: Table
    var active: map<string, Alert>
    var log: seq<FeedEvent>
    var dedupe: map<string, int>
    var published: seq<FeedEvent>
    var produced: seq<FeedEvent>

    ghost function View(): Stores
      reads this, history
    {
      Stores(active, log, dedupe, history.rows, published, produced)
    }

    constructor (ttlNs: int, history: Table)
      ensures this.ttlNs == ttlNs && this.history == history
      ensures View() == Stores(map[], [], map[], history.rows, [], [])
    {
      this.ttlNs, this.history := ttlNs, history;
      active, log, dedupe, published, produced := map[], [], map[], [], [];
    }

    /** The client's check and the script: look for the key, append, remember. */
    method AddAlertEventOnce(clock: int, a: Alert, receivedAt: Time, fault: Fault) returns (added: Added)
      modifies this`log, this`dedupe
      ensures (View(), added) == AddOnce(old(View()), ttlNs, clock, a, receivedAt, fault)
    {
      hide EventKey;
      if ttlNs <= 0 || fault == Refused {
        return AddFailed;
      }
      var key := EventKey(a);
      if key in dedupe && clock <= dedupe[key] {
        return if fault == ReplyLost then AddFailed else Duplicate;
      }
      log := log + [FeedEvent(a, receivedAt)];
      var ttlMs := ttlNs / 1_000_000;
      if ttlMs < 1 {
        return AddFailed;
      }
      dedupe := dedupe[key := clock + ttlMs];
      added := if fault == ReplyLost then AddFailed else Stored;
    }

    method HandleWebhook(alerts: seq<Alert>, call: Call) returns (error: Option<ErrorKind>)
      modifies this, history
      ensures (View(), error) == Handle(old(View()), ttlNs, alerts, call)
    {
      hide AddOnce, Archived;
      for i := 0 to |alerts|
        invariant forall j :: 0 <= j < i ==> alerts[j].fingerprint == "" || Supported(alerts[j].status)
      {
        if alerts[i].fingerprint != "" && alerts[i].status != FIRING && alerts[i].status != RESOLVED {
          return Some(UnsupportedStatus);
        }
      }
      var i := 0;
      while i < |alerts|
        invariant 0 <= i <= |alerts|
        invariant HandleFrom(old(View()), ttlNs, alerts, call, 0) == HandleFrom(View(), ttlNs, alerts, call, i)
      {
        var a, f := alerts[i], call.FaultsAt(i);
        i := i + 1;
        if a.fingerprint == "" {
          continue;
        }
        if f.active != Refused {
          if a.status == FIRING {
            active := active[a.fingerprint := a];
          } else if a.status == RESOLVED {
            active := active - {a.fingerprint};
          }
        }
        if f.active != Healthy {
          return Some(if a.status == FIRING then StoreActiveAlert else DeleteActiveAlert);
        }
        var added := AddAlertEventOnce(call.clock, a, call.receivedAt, f.add);
        if added == AddFailed {
          return Some(StoreAlertEvent);
        }
        if added == Duplicate {
          continue;
        }
        history.ArchiveHistory(a, f.archiveCommits);
        if f.publish != Refused {
          published := published + [FeedEvent(a, call.receivedAt)];
        }
        if f.produceWorks {
          produced := produced + [FeedEvent(a, call.receivedAt)];
        }
      }
      error := None;
    }
  }

  /** A payload with an unsupported status on a named alert changes nothing. */
  lemma UnsupportedChangesNothing(s: Stores, ttlNs: int, alerts: seq<Alert>, call: Call)
    requires exists i :: 0 <= i < |alerts| && alerts[i].fingerprint != "" && !Supported(alerts[i].status)
    ensures Handle(s, ttlNs, alerts, call) == (s, Some(UnsupportedStatus))
  {
    hide HandleFrom;
  }

  // ---- What a call does, apart from how far it gets ----

  function AlertsOf(es: seq<FeedEvent>): (r: seq<Alert>)
    ensures |r| == |es| && forall i :: 0 <= i < |es| ==> r[i] == es[i].alert
  {
    seq(|es|, i requires 0 <= i < |es| => es[i].alert)
  }

  function FoldActive(active: map<string, Alert>, alerts: seq<Alert>): map<string, Alert>
    decreases |alerts|
  {
    if alerts == [] then active
    else FoldActive(ActiveAfter(active, alerts[0]), alerts[1..])
  }

  predicate IsNew(dedupe: map<string, int>, clock: int, a: Alert) {
    a.fingerprint != "" && !IsLive(dedupe, clock, EventKey(a))
  }

  function DedupeAfter(dedupe: map<string, int>, clock: int, ttlMs: int, a: Alert): map<string, int> {
    if IsNew(dedupe, clock, a) then dedupe[EventKey(a) := clock + ttlMs] else dedupe
  }

  function ActiveAfter(active: map<string, Alert>, a: Alert): map<string, Alert> {
    if a.fingerprint == "" then active else SetActive(active, a)
  }

  function Remembered(dedupe: map<string, int>, clock: int, ttlMs: int, alerts: seq<Alert>): map<string, int>
    decreases |alerts|
  {
    if alerts == [] then dedupe
    else Remembered(DedupeAfter(dedupe, clock, ttlMs, alerts[0]), clock, ttlMs, alerts[1..])
  }

  function NewsOf(dedupe: map<string, int>, clock: int, a: Alert): seq<Alert> {
    if IsNew(dedupe, clock, a) then [a] else []
  }

  /** The alerts whose event is appended when the sequence is handled in full at one moment. */
  function Collected(dedupe: map<string, int>, clock: int, ttlMs: int, alerts: seq<Alert>): seq<Alert>
    decreases |alerts|
  {
    if alerts == [] then []
    else
      NewsOf(dedupe, clock, alerts[0])
      + Collected(DedupeAfter(dedupe, clock, ttlMs, alerts[0]), clock, ttlMs, alerts[1..])
  }

  /** An alert together with what goes wrong while it is handled. */
  datatype Item = Item(alert: Alert, faults: Faults)

  function ItemsOf(alerts: seq<Alert>, call: Call): (items: seq<Item>)
    ensures |items| == |alerts| && forall i :: 0 <= i < |alerts| ==> items[i] == Item(alerts[i], call.FaultsAt(i))
  {
    seq(|alerts|, i requires 0 <= i < |alerts| => Item(alerts[i], call.FaultsAt(i)))
  }

  function AlertsIn(items: seq<Item>): (alerts: seq<Alert>)
    ensures |alerts| == |items| && forall i :: 0 <= i < |items| ==> alerts[i] == items[i].alert
  {
    seq(|items|, i requires 0 <= i < |items| => items[i].alert)
  }

  /** The same with the faults kept. */
  function NewItems(dedupe: map<string, int>, clock: int, ttlMs: int, items: seq<Item>): seq<Item>
    decreases |items|
  {
    if items == [] then []
    else
      (if IsNew(dedupe, clock, items[0].alert) then [items[0]] else [])
      + NewItems(DedupeAfter(dedupe, clock, ttlMs, items[0].alert), clock, ttlMs, items[1..])
  }

  datatype Stage = Appending | Archiving | Publishing | Producing

  /** The stage is carried out for an alert whose event is appended. */
  predicate Passes(stage: Stage, f: Faults) {
    match stage
    case Appending => true
    case Archiving => f.add != ReplyLost && f.archiveCommits
    case Publishing => f.add != ReplyLost && f.publish != Refused
    case Producing => f.add != ReplyLost && f.produceWorks
  }

  function Through(items: seq<Item>, stage: Stage): seq<Alert>
    decreases |items|
  {
    if items == [] then []
    else (if Passes(stage, items[0].faults) then [items[0].alert] else []) + Through(items[1..], stage)
  }

  /** How many alerts a call gets through: the first cache call that fails stops it, an append possibly with effect. */
  function Progress(alerts: seq<Alert>, call: Call, i: nat): (n: nat)
    requires i <= |alerts|
    ensures i <= n <= |alerts|
    decreases |alerts| - i
  {
    if i == |alerts| then i
    else if alerts[i].fingerprint == "" then Progress(alerts, call, i + 1)
    else
      var f := call.FaultsAt(i);
      if f.active != Healthy || f.add == Refused then i
      else if f.add == ReplyLost then i + 1
      else Progress(alerts, call, i + 1)
  }

  /** No cache call of the handler fails; what is archived, published or produced may. */
  predicate Completes(alerts: seq<Alert>, call: Call, i: nat) {
    forall k :: i <= k < |alerts| ==>
      alerts[k].fingerprint == "" || (call.FaultsAt(k).active == Healthy && call.FaultsAt(k).add == Healthy)
  }

  /** The items a call reaches and appends. */
  function Appended(dedupe: map<string, int>, ttlNs: int, alerts: seq<Alert>, call: Call): seq<Item> {
    NewItems(dedupe, call.clock, ttlNs / 1_000_000, ItemsOf(alerts, call)[..Progress(alerts, call, 0)])
  }

  ghost predicate GrewBy(s: Stores, t: Stores, items: seq<Item>) {
    && AlertsOf(t.log) == AlertsOf(s.log) + Through(items, Appending)
    && t.rows == ArchivedAll(s.rows, Through(items, Archiving))
    && AlertsOf(t.published) == AlertsOf(s.published) + Through(items, Publishing)
    && AlertsOf(t.produced) == AlertsOf(s.produced) + Through(items, Producing)
  }

  lemma {:induction false} ThroughConcat(a: seq<Item>, b: seq<Item>, stage: Stage)
    ensures Through(a + b, stage) == Through(a, stage) + Through(b, stage)
    decreases |a|
  {
    hide Passes;
    if a == [] {
      assert a + b == b;
    } else {
      assert (a + b)[1..] == a[1..] + b;
      ThroughConcat(a[1..], b, stage);
      Regroup(if Passes(stage, a[0].faults) then [a[0].alert] else [], Through(a[1..], stage), Through(b, stage));
      assert (a + b)[0] == a[0];
    }
  }

  lemma GrewTwice(s: Stores, mid: Stores, t: Stores, first: seq<Item>, rest: seq<Item>)
    requires GrewBy(s, mid, first) && GrewBy(mid, t, rest)
    ensures GrewBy(s, t, first + rest)
  {
    hide AlertsOf, Through;
    ThroughConcat(first, rest, Appending);
    ThroughConcat(first, rest, Archiving);
    ThroughConcat(first, rest, Publishing);
    ThroughConcat(first, rest, Producing);
    ArchivedAllConcat(s.rows, Through(first, Archiving), Through(rest, Archiving));
    Regroup(AlertsOf(s.log), Through(first, Appending), Through(rest, Appending));
    Regroup(AlertsOf(s.published), Through(first, Publishing), Through(rest, Publishing));
    Regroup(AlertsOf(s.produced), Through(first, Producing), Through(rest, Producing));
  }

  lemma Regroup(x: seq<Alert>, y: seq<Alert>, z: seq<Alert>)
    ensures x + y + z == x + (y + z)
  {
  }

  lemma NothingGrew(s: Stores, t: Stores)
    requires t == s.(active := t.active, dedupe := t.dedupe)
    ensures GrewBy(s, t, [])
  {
  }

  lemma ThroughOne(item: Item, stage: Stage)
    ensures Through([item], stage) == if Passes(stage, item.faults) then [item.alert] else []
  {
    assert Through([item][1..], stage) == [];
  }

  lemma OneEvent(before: seq<FeedEvent>, e: FeedEvent)
    ensures AlertsOf(before + [e]) == AlertsOf(before) + [e.alert]
  {
  }

  /** An appended event, announced or with its reply lost. */
  lemma ItemGrows(s: Stores, t: Stores, a: Alert, receivedAt: Time, f: Faults)
    requires var mid := s.(active := t.active, log := s.log + [FeedEvent(a, receivedAt)], dedupe := t.dedupe);
             t == if f.add == ReplyLost then mid else Announce(mid, a, receivedAt, f)
    ensures GrewBy(s, t, [Item(a, f)])
  {
    hide Archived, ArchivedAll, AlertsOf, Through;
    var e := FeedEvent(a, receivedAt);
    OneEvent(s.log, e);
    OneEvent(s.published, e);
    OneEvent(s.produced, e);
    ThroughOne(Item(a, f), Appending);
    ThroughOne(Item(a, f), Archiving);
    ThroughOne(Item(a, f), Publishing);
    ThroughOne(Item(a, f), Producing);
    ArchivedOne(s.rows, a);
  }

  lemma ArchivedOne(rows: seq<Row>, a: Alert)
    ensures ArchivedAll(rows, []) == rows && ArchivedAll(rows, [a]) == Archived(rows, a)
  {
    hide Archived;
    ArchivedAllSnoc(rows, [], a);
    assert [] + [a] == [a];
  }

  /** The append of the alert's event is reached and has its effect, the reply lost or not. */
  predicate Reaches(a: Alert, f: Faults) {
    a.fingerprint == "" || (f.active == Healthy && f.add != Refused)
  }

  lemma OneAlert(s: Stores, ttlNs: int, clock: int, receivedAt: Time, a: Alert, f: Faults)
    requires ttlNs / 1_000_000 >= 1
    ensures var (t, error) := HandleAlert(s, ttlNs, clock, receivedAt, a, f);
            && (error.None? <==> a.fingerprint == "" || (f.active == Healthy && f.add == Healthy))
            && (Reaches(a, f) ==>
                  && t.active == ActiveAfter(s.active, a)
                  && t.dedupe == DedupeAfter(s.dedupe, clock, ttlNs / 1_000_000, a)
                  && GrewBy(s, t, if IsNew(s.dedupe, clock, a) then [Item(a, f)] else []))
            && (!Reaches(a, f) ==>
                  && (t.active == s.active || t.active == ActiveAfter(s.active, a))
                  && t.dedupe == s.dedupe && GrewBy(s, t, []))
  {
    hide EventKey, GrewBy, Archived;
    var (t, error) := HandleAlert(s, ttlNs, clock, receivedAt, a, f);
    if Reaches(a, f) && IsNew(s.dedupe, clock, a) {
      ItemGrows(s, t, a, receivedAt, f);
    } else {
      NothingGrew(s, t);
    }
  }

  /** The call, from alert i on: how far it gets, what grows, and that the active hash is written up to m. */
  ghost predicate Got(s: Stores, ttlNs: int, alerts: seq<Alert>, call: Call, i: nat, m: nat)
    requires i <= |alerts|
  {
    var n := Progress(alerts, call, i);
    var (t, error) := HandleFrom(s, ttlNs, alerts, call, i);
    && n <= m <= |alerts|
    && t.active == FoldActive(s.active, alerts[i..m])
    && t.dedupe == Remembered(s.dedupe, call.clock, ttlNs / 1_000_000, alerts[i..n])
    && GrewBy(s, t, NewItems(s.dedupe, call.clock, ttlNs / 1_000_000, ItemsOf(alerts, call)[i..n]))
    && (error.None? <==> Completes(alerts, call, i))
    && (error.None? ==> n == |alerts|)
  }

  lemma {:induction false} HowFar(s: Stores, ttlNs: int, alerts: seq<Alert>, call: Call, i: nat) returns (m: nat)
    requires i <= |alerts| && ttlNs / 1_000_000 >= 1
    decreases |alerts| - i
    ensures Got(s, ttlNs, alerts, call, i, m)
  {
    m := i;
    if i == |alerts| {
      assert alerts[i..i] == [] && ItemsOf(alerts, call)[i..i] == [];
      NothingGrew(s, s);
    } else {
      var (mid, error) := HandleAlert(s, ttlNs, call.clock, call.receivedAt, alerts[i], call.FaultsAt(i));
      OneAlert(s, ttlNs, call.clock, call.receivedAt, alerts[i], call.FaultsAt(i));
      hide Got, HandleAlert, GrewBy, IsNew, DedupeAfter, ActiveAfter;
      if error.Some? {
        m := StopsHere(s, ttlNs, alerts, call, i);
      } else {
        m := HowFar(mid, ttlNs, alerts, call, i + 1);
        GoesOn(s, ttlNs, alerts, call, i, m);
      }
    }
  }

  lemma StopsHere(s: Stores, ttlNs: int, alerts: seq<Alert>, call: Call, i: nat) returns (m: nat)
    requires i < |alerts| && ttlNs / 1_000_000 >= 1
    requires HandleAlert(s, ttlNs, call.clock, call.receivedAt, alerts[i], call.FaultsAt(i)).1.Some?
    ensures Got(s, ttlNs, alerts, call, i, m)
  {
    hide Completes, HandleAlert, HandleFrom, GrewBy, IsNew, DedupeAfter, ActiveAfter, FoldActive, Remembered, NewItems,
      ItemsOf, Progress, Reaches;
    var a, f := alerts[i], call.FaultsAt(i);
    OneAlert(s, ttlNs, call.clock, call.receivedAt, a, f);
    ErrorEnds(s, ttlNs, alerts, call, i);
    OneWritten(s, call.clock, ttlNs / 1_000_000, a, f);
    OneItem(alerts, call, i);
    var t := HandleAlert(s, ttlNs, call.clock, call.receivedAt, a, f).0;
    m := if t.active == s.active && !Reaches(a, f) then i else i + 1;
  }

  lemma ErrorEnds(s: Stores, ttlNs: int, alerts: seq<Alert>, call: Call, i: nat)
    requires i < |alerts| && ttlNs / 1_000_000 >= 1
    requires HandleAlert(s, ttlNs, call.clock, call.receivedAt, alerts[i], call.FaultsAt(i)).1.Some?
    ensures HandleFrom(s, ttlNs, alerts, call, i)
         == HandleAlert(s, ttlNs, call.clock, call.receivedAt, alerts[i], call.FaultsAt(i))
    ensures !Completes(alerts, call, i)
    ensures Progress(alerts, call, i) == if Reaches(alerts[i], call.FaultsAt(i)) then i + 1 else i
  {
    OneAlert(s, ttlNs, call.clock, call.receivedAt, alerts[i], call.FaultsAt(i));
    hide HandleAlert, GrewBy, IsNew, DedupeAfter, ActiveAfter;
  }

  lemma OneItem(alerts: seq<Alert>, call: Call, i: nat)
    requires i < |alerts|
    ensures alerts[i..i] == [] && alerts[i..i + 1] == [alerts[i]]
    ensures ItemsOf(alerts, call)[i..i] == [] && ItemsOf(alerts, call)[i..i + 1] == [Item(alerts[i], call.FaultsAt(i))]
  {
  }

  lemma OneWritten(s: Stores, clock: int, ttlMs: int, a: Alert, f: Faults)
    ensures FoldActive(s.active, []) == s.active && FoldActive(s.active, [a]) == ActiveAfter(s.active, a)
    ensures Remembered(s.dedupe, clock, ttlMs, []) == s.dedupe
    ensures Remembered(s.dedupe, clock, ttlMs, [a]) == DedupeAfter(s.dedupe, clock, ttlMs, a)
    ensures NewItems(s.dedupe, clock, ttlMs, []) == []
    ensures NewItems(s.dedupe, clock, ttlMs, [Item(a, f)]) == if IsNew(s.dedupe, clock, a) then [Item(a, f)] else []
  {
    hide IsNew, DedupeAfter, ActiveAfter;
    assert [a][1..] == [] && [Item(a, f)][1..] == [];
  }

  lemma GoesOn(s: Stores, ttlNs: int, alerts: seq<Alert>, call: Call, i: nat, m: nat)
    requires i < |alerts| && ttlNs / 1_000_000 >= 1
    requires var (mid, error) := HandleAlert(s, ttlNs, call.clock, call.receivedAt, alerts[i], call.FaultsAt(i));
             error.None? && Got(mid, ttlNs, alerts, call, i + 1, m)
    ensures Got(s, ttlNs, alerts, call, i, m)
  {
    var a, f := alerts[i], call.FaultsAt(i);
    OneAlert(s, ttlNs, call.clock, call.receivedAt, a, f);
    Unroll(s, ttlNs, alerts, call, i);
    hide HandleAlert, HandleFrom, ActiveAfter, DedupeAfter, FoldActive, GrewBy, IsNew, Remembered, NewItems, ItemsOf;
    var mid := HandleAlert(s, ttlNs, call.clock, call.receivedAt, a, f).0;
    var t := HandleFrom(mid, ttlNs, alerts, call, i + 1).0;
    var n := Progress(alerts, call, i + 1);
    assert Progress(alerts, call, i) == n;
    Cut(alerts, i, n);
    Cut(alerts, i, m);
    Cut(ItemsOf(alerts, call), i, n);
    Prepend(s, mid, t, call.clock, ttlNs / 1_000_000, Item(a, f), alerts[i + 1..m], alerts[i + 1..n],
            ItemsOf(alerts, call)[i + 1..n]);
  }

  lemma Unroll(s: Stores, ttlNs: int, alerts: seq<Alert>, call: Call, i: nat)
    requires i < |alerts|
    requires HandleAlert(s, ttlNs, call.clock, call.receivedAt, alerts[i], call.FaultsAt(i)).1.None?
    ensures HandleFrom(s, ttlNs, alerts, call, i)
         == HandleFrom(HandleAlert(s, ttlNs, call.clock, call.receivedAt, alerts[i], call.FaultsAt(i)).0, ttlNs, alerts,
                       call, i + 1)
  {
    hide HandleAlert;
  }

  lemma Cut<T>(xs: seq<T>, i: nat, n: nat)
    requires i < n <= |xs|
    ensures xs[i..n] == [xs[i]] + xs[i + 1..n]
  {
  }

  /** One alert handled in full before the rest. */
  lemma Prepend(s: Stores, mid: Stores, t: Stores, clock: int, ttlMs: int, item: Item, written: seq<Alert>,
                handled: seq<Alert>, items: seq<Item>)
    requires mid.active == ActiveAfter(s.active, item.alert)
    requires mid.dedupe == DedupeAfter(s.dedupe, clock, ttlMs, item.alert)
    requires GrewBy(s, mid, if IsNew(s.dedupe, clock, item.alert) then [item] else [])
    requires GrewBy(mid, t, NewItems(mid.dedupe, clock, ttlMs, items))
    ensures FoldActive(s.active, [item.alert] + written) == FoldActive(mid.active, written)
    ensures Remembered(s.dedupe, clock, ttlMs, [item.alert] + handled) == Remembered(mid.dedupe, clock, ttlMs, handled)
    ensures GrewBy(s, t, NewItems(s.dedupe, clock, ttlMs, [item] + items))
  {
    hide ActiveAfter, DedupeAfter, GrewBy, IsNew;
    var a := item.alert;
    assert ([a] + written)[1..] == written && ([a] + handled)[1..] == handled && ([item] + items)[1..] == items;
    GrewTwice(s, mid, t, if IsNew(s.dedupe, clock, a) then [item] else [], NewItems(mid.dedupe, clock, ttlMs, items));
  }

  /** Appending leaves nothing out: what the items append is what their alerts call for. */
  lemma {:induction false} AppendingIsCollected(d: map<string, int>, clock: int, ttlMs: int, items: seq<Item>)
    ensures Through(NewItems(d, clock, ttlMs, items), Appending) == Collected(d, clock, ttlMs, AlertsIn(items))
    decreases |items|
  {
    if items != [] {
      hide IsNew, DedupeAfter;
      var first := if IsNew(d, clock, items[0].alert) then [items[0]] else [];
      var e := DedupeAfter(d, clock, ttlMs, items[0].alert);
      AppendingIsCollected(e, clock, ttlMs, items[1..]);
      assert AlertsIn(items)[1..] == AlertsIn(items[1..]);
      ThroughConcat(first, NewItems(e, clock, ttlMs, items[1..]), Appending);
      ThroughOne(items[0], Appending);
      hide Through, Collected;
      assert Through(first, Appending) == NewsOf(d, clock, items[0].alert) by { assert Through([], Appending) == []; }
    }
  }

  /** The whole call. */
  lemma OneCall(s: Stores, ttlNs: int, alerts: seq<Alert>, call: Call) returns (m: nat)
    requires Acceptable(alerts) && ttlNs / 1_000_000 >= 1
    ensures var (t, error) := Handle(s, ttlNs, alerts, call);
            var done := alerts[..Progress(alerts, call, 0)];
            && m <= |alerts| && t.active == FoldActive(s.active, alerts[..m])
            && t.dedupe == Remembered(s.dedupe, call.clock, ttlNs / 1_000_000, done)
            && GrewBy(s, t, Appended(s.dedupe, ttlNs, alerts, call))
            && Through(Appended(s.dedupe, ttlNs, alerts, call), Appending)
               == Collected(s.dedupe, call.clock, ttlNs / 1_000_000, done)
            && (error.None? <==> Completes(alerts, call, 0))
            && (Completes(alerts, call, 0) ==> m == |alerts| && done == alerts)
  {
    m := HowFar(s, ttlNs, alerts, call, 0);
    var n := Progress(alerts, call, 0);
    hide HandleFrom, FoldActive, GrewBy, Remembered, Completes, NewItems, Collected, Through;
    assert alerts[0..m] == alerts[..m] && alerts[0..n] == alerts[..n];
    assert ItemsOf(alerts, call)[0..n] == ItemsOf(alerts, call)[..n];
    assert AlertsIn(ItemsOf(alerts, call)[..n]) == alerts[..n];
    AppendingIsCollected(s.dedupe, call.clock, ttlNs / 1_000_000, ItemsOf(alerts, call)[..n]);
    assert n == |alerts| ==> alerts[..n] == alerts;
  }

  /** Alert k is the first from i on whose cache calls fail. */
  predicate FailsFirst(alerts: seq<Alert>, call: Call, i: int, k: int) {
    && i <= k < |alerts| && 0 <= k && alerts[k].fingerprint != ""
    && (call.FaultsAt(k).active != Healthy || call.FaultsAt(k).add != Healthy)
    && forall j :: i <= j < k ==>
         0 <= j && (alerts[j].fingerprint == "" || (call.FaultsAt(j).active == Healthy && call.FaultsAt(j).add == Healthy))
  }

  /** The error of a call names the cache call that failed first: the write or the removal of an alert, or the append. */
  lemma {:induction false} ErrorNames(s: Stores, ttlNs: int, alerts: seq<Alert>, call: Call, i: nat, k: nat)
    requires i <= |alerts| && ttlNs / 1_000_000 >= 1 && Acceptable(alerts) && FailsFirst(alerts, call, i, k)
    ensures HandleFrom(s, ttlNs, alerts, call, i).1
         == Some(if call.FaultsAt(k).active == Healthy then StoreAlertEvent
                 else if alerts[k].status == "firing" then StoreActiveAlert else DeleteActiveAlert)
    decreases |alerts| - i
  {
    OneError(s, ttlNs, call.clock, call.receivedAt, alerts[i], call.FaultsAt(i));
    hide HandleAlert;
    if i < k {
      var mid := HandleAlert(s, ttlNs, call.clock, call.receivedAt, alerts[i], call.FaultsAt(i)).0;
      ErrorNames(mid, ttlNs, alerts, call, i + 1, k);
    }
  }

  lemma OneError(s: Stores, ttlNs: int, clock: int, receivedAt: Time, a: Alert, f: Faults)
    requires ttlNs / 1_000_000 >= 1
    ensures HandleAlert(s, ttlNs, clock, receivedAt, a, f).1
         == if a.fingerprint == "" || (f.active == Healthy && f.add == Healthy) then None
            else if f.active == Healthy then Some(StoreAlertEvent)
            else if a.status == "firing" then Some(StoreActiveAlert) else Some(DeleteActiveAlert)
  {
    hide EventKey, Archived, SetActive;
  }

  // ---- The active hash ----

  predicate Names(alerts: seq<Alert>, fingerprint: string) {
    exists i :: 0 <= i < |alerts| && alerts[i].fingerprint == fingerprint && fingerprint != ""
  }

  /** The two hashes hold the same for every fingerprint outside the payload. */
  ghost predicate AgreeOutside(m: map<string, Alert>, n: map<string, Alert>, alerts: seq<Alert>) {
    forall f :: !Names(alerts, f) ==> (f in m <==> f in n) && (f in m ==> m[f] == n[f])
  }

  lemma NamesCons(alerts: seq<Alert>, f: string)
    requires alerts != []
    ensures Names(alerts, f) <==> Names(alerts[1..], f) || (f != "" && alerts[0].fingerprint == f)
  {
    if Names(alerts[1..], f) {
      var i :| 0 <= i < |alerts[1..]| && alerts[1..][i].fingerprint == f;
      assert alerts[i + 1].fingerprint == f;
    }
    if Names(alerts, f) && alerts[0].fingerprint != f {
      var i :| 0 <= i < |alerts| && alerts[i].fingerprint == f;
      assert alerts[1..][i - 1].fingerprint == f;
    }
  }

  /** The payload decides every fingerprint it names. */
  lemma {:induction false} FoldDecides(m: map<string, Alert>, n: map<string, Alert>, alerts: seq<Alert>)
    requires Acceptable(alerts) && AgreeOutside(m, n, alerts)
    ensures FoldActive(m, alerts) == FoldActive(n, alerts)
    decreases |alerts|
  {
    if alerts == [] {
      forall f ensures (f in m <==> f in n) && (f in m ==> m[f] == n[f]) {
        assert !Names(alerts, f);
      }
      assert m == n;
    } else {
      var a := alerts[0];
      assert Supported(a.status) || a.fingerprint == "";
      var m', n' := ActiveAfter(m, a), ActiveAfter(n, a);
      forall f | !Names(alerts[1..], f) ensures (f in m' <==> f in n') && (f in m' ==> m'[f] == n'[f]) {
        NamesCons(alerts, f);
      }
      hide ActiveAfter;
      FoldDecides(m', n', alerts[1..]);
    }
  }

  lemma {:induction false} FoldTouchesNamed(m: map<string, Alert>, alerts: seq<Alert>)
    ensures AgreeOutside(FoldActive(m, alerts), m, alerts)
    decreases |alerts|
  {
    if alerts != [] {
      FoldTouchesNamed(ActiveAfter(m, alerts[0]), alerts[1..]);
      var end := FoldActive(m, alerts);
      hide FoldActive;
      forall f | !Names(alerts, f) ensures (f in end <==> f in m) && (f in end ==> end[f] == m[f]) {
        NamesCons(alerts, f);
      }
    }
  }

  /** Writing a beginning of the payload first makes no difference once all of it is written. */
  lemma FoldResumes(m: map<string, Alert>, alerts: seq<Alert>, k: nat)
    requires Acceptable(alerts) && k <= |alerts|
    ensures FoldActive(FoldActive(m, alerts[..k]), alerts) == FoldActive(m, alerts)
  {
    FoldTouchesNamed(m, alerts[..k]);
    var begun := FoldActive(m, alerts[..k]);
    hide FoldActive;
    forall f | !Names(alerts, f) ensures (f in begun <==> f in m) && (f in begun ==> begun[f] == m[f]) {
      assert !Names(alerts[..k], f);
    }
    FoldDecides(begun, m, alerts);
  }

  /** i is the last alert of the payload with its fingerprint. */
  predicate IsLast(alerts: seq<Alert>, i: int) {
    && 0 <= i < |alerts| && alerts[i].fingerprint != ""
    && forall j :: i < j < |alerts| ==> alerts[j].fingerprint != alerts[i].fingerprint
  }

  /**
   * The active hash as the payload leaves it: of each fingerprint it names the last alert decides, stored itself when it
   * is firing and removed when it is resolved; every other fingerprint is as before.
   */
  ghost predicate Mirrors(before: map<string, Alert>, after: map<string, Alert>, alerts: seq<Alert>) {
    && (forall i :: IsLast(alerts, i) ==> Decides(after, alerts[i]))
    && (forall f :: !Names(alerts, f) ==> (f in after <==> f in before) && (f in before ==> after[f] == before[f]))
  }

  predicate Decides(after: map<string, Alert>, a: Alert) {
    if a.status == "firing" then a.fingerprint in after && after[a.fingerprint] == a else a.fingerprint !in after
  }

  lemma LastOfRest(alerts: seq<Alert>, i: int)
    requires IsLast(alerts, i)
    ensures i > 0 ==> IsLast(alerts[1..], i - 1) && alerts[1..][i - 1] == alerts[i]
    ensures i == 0 ==> !Names(alerts[1..], alerts[0].fingerprint)
  {
    assert forall j :: 0 <= j < |alerts[1..]| ==> alerts[1..][j] == alerts[j + 1];
  }

  lemma FirstDecides(before: map<string, Alert>, a: Alert)
    requires a.fingerprint == "" || Supported(a.status)
    ensures a.fingerprint != "" ==> Decides(ActiveAfter(before, a), a)
    ensures forall f :: f != a.fingerprint || f == "" ==>
              && (f in ActiveAfter(before, a) <==> f in before)
              && (f in before ==> ActiveAfter(before, a)[f] == before[f])
  {
  }

  lemma DecidesSame(m: map<string, Alert>, n: map<string, Alert>, a: Alert)
    requires Decides(m, a) && (a.fingerprint in m <==> a.fingerprint in n)
    requires a.fingerprint in m ==> n[a.fingerprint] == m[a.fingerprint]
    ensures Decides(n, a)
  {
  }

  lemma {:induction false} FoldMirrors(before: map<string, Alert>, alerts: seq<Alert>)
    requires Acceptable(alerts)
    ensures Mirrors(before, FoldActive(before, alerts), alerts)
    decreases |alerts|
  {
    if alerts != [] {
      var a, rest := alerts[0], alerts[1..];
      var next := ActiveAfter(before, a);
      var after := FoldActive(next, rest);
      FoldMirrors(next, rest);
      FirstDecides(before, a);
      hide FoldActive, ActiveAfter, Decides;
      forall i | IsLast(alerts, i) ensures Decides(after, alerts[i]) {
        LastOfRest(alerts, i);
        if i == 0 {
          DecidesSame(next, after, a);
        }
      }
      forall f | !Names(alerts, f) ensures (f in after <==> f in before) && (f in before ==> after[f] == before[f]) {
        NamesCons(alerts, f);
      }
    }
  }

  lemma {:induction false} NoErrorWritesAll(s: Stores, ttlNs: int, alerts: seq<Alert>, call: Call, i: nat)
    requires i <= |alerts| && HandleFrom(s, ttlNs, alerts, call, i).1.None?
    ensures HandleFrom(s, ttlNs, alerts, call, i).0.active == FoldActive(s.active, alerts[i..])
    decreases |alerts| - i
  {
    if i < |alerts| {
      var (mid, error) := HandleAlert(s, ttlNs, call.clock, call.receivedAt, alerts[i], call.FaultsAt(i));
      OneWrite(s, ttlNs, call.clock, call.receivedAt, alerts[i], call.FaultsAt(i));
      hide HandleAlert, ActiveAfter;
      NoErrorWritesAll(mid, ttlNs, alerts, call, i + 1);
      assert alerts[i..][1..] == alerts[i + 1..];
    }
  }

  lemma OneWrite(s: Stores, ttlNs: int, clock: int, receivedAt: Time, a: Alert, f: Faults)
    ensures var (t, error) := HandleAlert(s, ttlNs, clock, receivedAt, a, f);
            error.None? ==> t.active == ActiveAfter(s.active, a)
  {
    hide EventKey, Archived, SetActive;
  }

  /** A call that returns no error, whatever it lost on the way, leaves the active hash as its payload says. */
  lemma NoErrorMirrors(s: Stores, ttlNs: int, alerts: seq<Alert>, call: Call)
    requires Handle(s, ttlNs, alerts, call).1.None?
    ensures Mirrors(s.active, Handle(s, ttlNs, alerts, call).0.active, alerts)
  {
    assert Acceptable(alerts);
    NoErrorWritesAll(s, ttlNs, alerts, call, 0);
    hide HandleFrom;
    assert alerts[0..] == alerts;
    FoldMirrors(s.active, alerts);
  }

  /** Events were only added, and each of them is stamped with the receipt time. */
  predicate Stamped(before: seq<FeedEvent>, after: seq<FeedEvent>, receivedAt: Time) {
    && |before| <= |after| && after[..|before|] == before
    && forall i :: |before| <= i < |after| ==> after[i].receivedAt == receivedAt
  }

  predicate AllStamped(s: Stores, t: Stores, receivedAt: Time) {
    Stamped(s.log, t.log, receivedAt) && Stamped(s.published, t.published, receivedAt)
    && Stamped(s.produced, t.produced, receivedAt)
  }

  lemma StampedTwice(a: seq<FeedEvent>, b: seq<FeedEvent>, c: seq<FeedEvent>, receivedAt: Time)
    requires Stamped(a, b, receivedAt) && Stamped(b, c, receivedAt)
    ensures Stamped(a, c, receivedAt)
  {
    assert c[..|a|] == c[..|b|][..|a|];
    assert forall i :: 0 <= i < |b| ==> c[..|b|][i] == c[i];
  }

  lemma AlertStamped(s: Stores, ttlNs: int, clock: int, receivedAt: Time, a: Alert, f: Faults)
    ensures AllStamped(s, HandleAlert(s, ttlNs, clock, receivedAt, a, f).0, receivedAt)
  {
    var e := FeedEvent(a, receivedAt);
    AddedStamped(s.log, e);
    AddedStamped(s.published, e);
    AddedStamped(s.produced, e);
    hide EventKey, Archived, SetActive, IsLive, Stamped;
  }

  lemma AddedStamped(before: seq<FeedEvent>, e: FeedEvent)
    ensures Stamped(before, before, e.receivedAt) && Stamped(before, before + [e], e.receivedAt)
  {
  }

  /** Everything a call appends, publishes or produces carries its receipt time. */
  lemma {:induction false} CallStamped(s: Stores, ttlNs: int, alerts: seq<Alert>, call: Call, i: nat)
    requires i <= |alerts|
    ensures AllStamped(s, HandleFrom(s, ttlNs, alerts, call, i).0, call.receivedAt)
    decreases |alerts| - i
  {
    if i < |alerts| {
      var (mid, error) := HandleAlert(s, ttlNs, call.clock, call.receivedAt, alerts[i], call.FaultsAt(i));
      AlertStamped(s, ttlNs, call.clock, call.receivedAt, alerts[i], call.FaultsAt(i));
      hide HandleAlert, Stamped;
      if error.None? {
        CallStamped(mid, ttlNs, alerts, call, i + 1);
        var t := HandleFrom(mid, ttlNs, alerts, call, i + 1).0;
        StampedTwice(s.log, mid.log, t.log, call.receivedAt);
        StampedTwice(s.published, mid.published, t.published, call.receivedAt);
        StampedTwice(s.produced, mid.produced, t.produced, call.receivedAt);
      }
    }
  }

  // ---- The event log ----

  predicate Agree(d: map<string, int>, clock: int, d': map<string, int>, clock': int, alerts: seq<Alert>) {
    forall i :: 0 <= i < |alerts| ==> IsNew(d, clock, alerts[i]) == IsNew(d', clock', alerts[i])
  }

  lemma {:induction false} SameLivenessSameNews(d: map<string, int>, clock: int, d': map<string, int>, clock': int,
                                                ttlMs: nat, alerts: seq<Alert>)
    requires Agree(d, clock, d', clock', alerts)
    ensures Collected(d, clock, ttlMs, alerts) == Collected(d', clock', ttlMs, alerts)
    decreases |alerts|
  {
    if alerts != [] {
      var a := alerts[0];
      var e, e' := DedupeAfter(d, clock, ttlMs, a), DedupeAfter(d', clock', ttlMs, a);
      hide EventKey;
      forall i | 0 <= i < |alerts[1..]| ensures IsNew(e, clock, alerts[1..][i]) == IsNew(e', clock', alerts[1..][i]) {
        assert alerts[1..][i] == alerts[i + 1];
      }
      assert NewsOf(d, clock, a) == NewsOf(d', clock', a);
      hide DedupeAfter, NewsOf, IsNew;
      SameLivenessSameNews(e, clock, e', clock', ttlMs, alerts[1..]);
    }
  }

  /** The first alert of the payload with the event key. */
  function First(alerts: seq<Alert>, key: string): Option<Alert>
    decreases |alerts|
  {
    if alerts == [] then None
    else if alerts[0].fingerprint != "" && EventKey(alerts[0]) == key then Some(alerts[0])
    else First(alerts[1..], key)
  }

  lemma {:induction false} FirstOfConcat(xs: seq<Alert>, ys: seq<Alert>, key: string)
    ensures First(xs + ys, key) == if First(xs, key).Some? then First(xs, key) else First(ys, key)
    decreases |xs|
  {
    hide EventKey;
    if xs == [] {
      assert xs + ys == ys;
    } else {
      assert (xs + ys)[1..] == xs[1..] + ys;
      FirstOfConcat(xs[1..], ys, key);
    }
  }

  /** Within the TTL a key is live afterwards exactly when it was still live or was remembered in between. */
  lemma {:induction false} RememberedLive(d: map<string, int>, clock: int, ttlMs: int, alerts: seq<Alert>, key: string,
                                          later: int)
    requires clock <= later <= clock + ttlMs
    ensures IsLive(Remembered(d, clock, ttlMs, alerts), later, key)
       <==> IsLive(d, later, key) || (!IsLive(d, clock, key) && First(alerts, key).Some?)
    decreases |alerts|
  {
    if alerts != [] {
      hide EventKey;
      RememberedLive(DedupeAfter(d, clock, ttlMs, alerts[0]), clock, ttlMs, alerts[1..], key, later);
    }
  }

  lemma NewAfter(d: map<string, int>, clock: int, ttlMs: nat, h: Alert, a: Alert)
    ensures IsNew(DedupeAfter(d, clock, ttlMs, h), clock, a)
       <==> IsNew(d, clock, a) && !(IsNew(d, clock, h) && EventKey(h) == EventKey(a))
    ensures IsNew(d, clock, a) && h.fingerprint != "" && EventKey(h) == EventKey(a) ==> IsNew(d, clock, h)
    ensures IsNew(d, clock, h) ==> h.fingerprint != ""
  {
    hide EventKey;
  }

  lemma {:induction false} RememberedAt(d: map<string, int>, clock: int, ttlMs: nat, alerts: seq<Alert>, key: string)
    ensures var r := Remembered(d, clock, ttlMs, alerts);
            if (key in d && clock <= d[key]) || First(alerts, key).None?
            then (key in r <==> key in d) && (key in d ==> r[key] == d[key])
            else key in r && r[key] == clock + ttlMs
    decreases |alerts|
  {
    if alerts != [] {
      hide EventKey;
      RememberedAt(DedupeAfter(d, clock, ttlMs, alerts[0]), clock, ttlMs, alerts[1..], key);
    }
  }

  /**
   * How long an event is remembered: a call sets the key of every event it appends to run out exactly the TTL, in whole
   * milliseconds, after its own time, and leaves every other key alone; past that time the event is new again.
   */
  lemma RemembersUntil(s: Stores, ttlNs: int, alerts: seq<Alert>, call: Call, ms: nat, key: string)
    requires Acceptable(alerts) && ms >= 1 && ms * 1_000_000 <= ttlNs < (ms + 1) * 1_000_000
    ensures var t := Handle(s, ttlNs, alerts, call).0;
            if (key in s.dedupe && call.clock <= s.dedupe[key]) || First(alerts[..Progress(alerts, call, 0)], key).None?
            then (key in t.dedupe <==> key in s.dedupe) && (key in s.dedupe ==> t.dedupe[key] == s.dedupe[key])
            else key in t.dedupe && t.dedupe[key] == call.clock + ms
    ensures forall a, clock ::
              IsNew(s.dedupe, clock, a) <==> a.fingerprint != "" && (EventKey(a) in s.dedupe ==> s.dedupe[EventKey(a)] < clock)
  {
    assert ttlNs / 1_000_000 == ms;
    var m := OneCall(s, ttlNs, alerts, call);
    RememberedAt(s.dedupe, call.clock, ms, alerts[..Progress(alerts, call, 0)], key);
    hide Handle, Remembered, First, Progress, Appended, Completes, FoldActive, Collected, Through, EventKey, Acceptable;
  }

  /** What is appended at one moment: the first alert of each key that is not live. */
  lemma {:induction false} CollectedCount(d: map<string, int>, clock: int, ttlMs: nat, alerts: seq<Alert>, a: Alert)
    ensures multiset(Collected(d, clock, ttlMs, alerts))[a]
         == if IsNew(d, clock, a) && First(alerts, EventKey(a)) == Some(a) then 1 else 0
    decreases |alerts|
  {
    if alerts != [] {
      var h, e := alerts[0], DedupeAfter(d, clock, ttlMs, alerts[0]);
      CollectedCount(e, clock, ttlMs, alerts[1..], a);
      NewAfter(d, clock, ttlMs, h, a);
      hide IsNew, DedupeAfter, EventKey;
      assert multiset(Collected(d, clock, ttlMs, alerts))
          == multiset(NewsOf(d, clock, h)) + multiset(Collected(e, clock, ttlMs, alerts[1..]));
    }
  }

  /** An attempt and a later complete call together append the same events as the later call alone. */
  lemma SameEvents(d: map<string, int>, clock: int, later: int, ttlMs: nat, xs: seq<Alert>, ys: seq<Alert>)
    requires clock <= later <= clock + ttlMs
    ensures multiset(Collected(d, clock, ttlMs, xs)) + multiset(Collected(Remembered(d, clock, ttlMs, xs), later, ttlMs, xs + ys))
         == multiset(Collected(d, later, ttlMs, xs + ys))
  {
    var r := Remembered(d, clock, ttlMs, xs);
    forall a ensures multiset(Collected(d, clock, ttlMs, xs))[a] + multiset(Collected(r, later, ttlMs, xs + ys))[a]
                  == multiset(Collected(d, later, ttlMs, xs + ys))[a]
    {
      CollectedCount(d, clock, ttlMs, xs, a);
      CollectedCount(r, later, ttlMs, xs + ys, a);
      CollectedCount(d, later, ttlMs, xs + ys, a);
      FirstOfConcat(xs, ys, EventKey(a));
      RememberedLive(d, clock, ttlMs, xs, EventKey(a), later);
      hide EventKey, Collected, Remembered, First;
    }
    hide Collected, Remembered;
  }

  /**
   * No alert of xs whose key runs out between the two moments stands before one that is appended at the first of them.
   */
  predicate OrderKept(d: map<string, int>, clock: int, later: int, ttlMs: int, xs: seq<Alert>)
    decreases |xs|
  {
    if xs == [] then true
    else if IsNew(d, later, xs[0]) && !IsNew(d, clock, xs[0]) then Collected(d, clock, ttlMs, xs[1..]) == []
    else OrderKept(DedupeAfter(d, clock, ttlMs, xs[0]), clock, later, ttlMs, xs[1..])
  }

  lemma {:induction false} NothingCollected(d: map<string, int>, clock: int, ttlMs: int, xs: seq<Alert>)
    ensures Collected(d, clock, ttlMs, xs) == [] ==> Remembered(d, clock, ttlMs, xs) == d
    ensures Collected(d, clock, ttlMs, xs) != [] ==> IsNew(d, clock, Collected(d, clock, ttlMs, xs)[0])
    decreases |xs|
  {
    hide IsNew;
    if xs != [] {
      NothingCollected(DedupeAfter(d, clock, ttlMs, xs[0]), clock, ttlMs, xs[1..]);
    }
  }

  lemma {:induction false} StaysLive(d: map<string, int>, clock: int, ttlMs: int, xs: seq<Alert>, a: Alert, later: int)
    requires clock <= later <= clock + ttlMs && !IsNew(d, later, a)
    ensures !IsNew(Remembered(d, clock, ttlMs, xs), later, a)
  {
    RememberedLive(d, clock, ttlMs, xs, EventKey(a), later);
    hide EventKey, Remembered, First;
  }

  /** An alert that is not new adds nothing to what is collected. */
  lemma OldAddsNothing(d: map<string, int>, clock: int, ttlMs: int, a: Alert, rest: seq<Alert>)
    requires !IsNew(d, clock, a)
    ensures Collected(d, clock, ttlMs, [a] + rest) == Collected(d, clock, ttlMs, rest)
  {
    hide IsNew;
    assert ([a] + rest)[1..] == rest;
  }

  /** A new alert is collected first; when its key is remembered until does not matter within the TTL. */
  lemma NewComesFirst(d: map<string, int>, clock: int, later: int, ttlMs: nat, a: Alert, rest: seq<Alert>)
    requires clock <= later <= clock + ttlMs && IsNew(d, clock, a)
    ensures !IsNew(DedupeAfter(d, clock, ttlMs, a), later, a)
    ensures Collected(d, later, ttlMs, [a] + rest) == [a] + Collected(DedupeAfter(d, clock, ttlMs, a), later, ttlMs, rest)
    ensures Collected(d, clock, ttlMs, [a] + rest) == [a] + Collected(DedupeAfter(d, clock, ttlMs, a), clock, ttlMs, rest)
  {
    hide EventKey;
    assert ([a] + rest)[1..] == rest;
    var e, e' := DedupeAfter(d, clock, ttlMs, a), DedupeAfter(d, later, ttlMs, a);
    assert Agree(e, later, e', later, rest) by {
      hide Collected;
    }
    assert !IsNew(e, later, a) && IsNew(d, later, a);
    hide IsNew, Agree, DedupeAfter;
    SameLivenessSameNews(e, later, e', later, ttlMs, rest);
  }

  /**
   * What an attempt appended and what the later call appends make up, in order, what the later call alone appends exactly
   * when the order is kept; when it is not, the attempt already appended out of turn.
   */
  lemma {:induction false} NewsResume(d: map<string, int>, clock: int, later: int, ttlMs: nat, xs: seq<Alert>,
                                      ys: seq<Alert>)
    requires clock <= later <= clock + ttlMs
    ensures OrderKept(d, clock, later, ttlMs, xs)
        ==> Collected(d, clock, ttlMs, xs) + Collected(Remembered(d, clock, ttlMs, xs), later, ttlMs, xs + ys)
            == Collected(d, later, ttlMs, xs + ys)
    ensures !OrderKept(d, clock, later, ttlMs, xs)
        ==> !Begins(Collected(d, clock, ttlMs, xs), Collected(d, later, ttlMs, xs + ys))
    decreases |xs|, 0
  {
    if xs == [] {
      assert xs + ys == ys;
    } else {
      var a, rest := xs[0], xs[1..];
      assert xs == [a] + rest && xs + ys == [a] + (rest + ys);
      var e := DedupeAfter(d, clock, ttlMs, a);
      var r := Remembered(e, clock, ttlMs, rest);
      assert r == Remembered(d, clock, ttlMs, xs);
      if IsNew(d, clock, a) {
        NewFirst(d, clock, later, ttlMs, a, rest, ys);
      } else if IsNew(d, later, a) {
        ExpiredFirst(d, clock, later, ttlMs, a, rest, ys);
      } else {
        OldAddsNothing(d, clock, ttlMs, a, rest);
        OldAddsNothing(d, later, ttlMs, a, rest + ys);
        StaysLive(d, clock, ttlMs, rest, a, later);
        OldAddsNothing(r, later, ttlMs, a, rest + ys);
        assert OrderKept(d, clock, later, ttlMs, xs) == OrderKept(d, clock, later, ttlMs, rest);
        hide Collected, Remembered, IsNew, OrderKept, Begins;
        NewsResume(d, clock, later, ttlMs, rest, ys);
      }
    }
  }

  lemma {:induction false} NewFirst(d: map<string, int>, clock: int, later: int, ttlMs: nat, a: Alert,
                                    rest: seq<Alert>, ys: seq<Alert>)
    requires clock <= later <= clock + ttlMs && IsNew(d, clock, a)
    ensures var xs := [a] + rest;
            && (OrderKept(d, clock, later, ttlMs, xs)
                ==> Collected(d, clock, ttlMs, xs) + Collected(Remembered(d, clock, ttlMs, xs), later, ttlMs, [a] + (rest + ys))
                    == Collected(d, later, ttlMs, [a] + (rest + ys)))
            && (!OrderKept(d, clock, later, ttlMs, xs)
                ==> !Begins(Collected(d, clock, ttlMs, xs), Collected(d, later, ttlMs, [a] + (rest + ys))))
    decreases |rest|, 1
  {
    hide Collected, Remembered, IsNew, OrderKept, DedupeAfter, Begins;
    var e := DedupeAfter(d, clock, ttlMs, a);
    var r := Remembered(e, clock, ttlMs, rest);
    UnfoldNew(d, clock, later, ttlMs, a, rest);
    NewComesFirst(d, clock, later, ttlMs, a, rest);
    NewComesFirst(d, clock, later, ttlMs, a, rest + ys);
    StaysLive(e, clock, ttlMs, rest, a, later);
    OldAddsNothing(r, later, ttlMs, a, rest + ys);
    NewsResume(e, clock, later, ttlMs, rest, ys);
    SamePrefix(a, Collected(e, clock, ttlMs, rest), Collected(e, later, ttlMs, rest + ys));
    Regroup([a], Collected(e, clock, ttlMs, rest), Collected(r, later, ttlMs, rest + ys));
  }

  lemma UnfoldNew(d: map<string, int>, clock: int, later: int, ttlMs: int, a: Alert, rest: seq<Alert>)
    requires IsNew(d, clock, a)
    ensures Remembered(d, clock, ttlMs, [a] + rest) == Remembered(DedupeAfter(d, clock, ttlMs, a), clock, ttlMs, rest)
    ensures OrderKept(d, clock, later, ttlMs, [a] + rest)
         == OrderKept(DedupeAfter(d, clock, ttlMs, a), clock, later, ttlMs, rest)
  {
    hide IsNew, DedupeAfter;
    assert ([a] + rest)[1..] == rest;
  }

  predicate Begins(c: seq<Alert>, whole: seq<Alert>) {
    c <= whole
  }

  lemma SamePrefix(a: Alert, xs: seq<Alert>, ys: seq<Alert>)
    ensures Begins([a] + xs, [a] + ys) <==> Begins(xs, ys)
  {
    if |xs| <= |ys| {
      assert ([a] + ys)[..|xs| + 1] == [a] + ys[..|xs|];
      assert ([a] + xs)[1..] == xs && ([a] + ys[..|xs|])[1..] == ys[..|xs|];
    }
  }

  lemma DifferentHeads(xs: seq<Alert>, a: Alert, ys: seq<Alert>)
    requires xs != [] && xs[0] != a
    ensures !Begins(xs, [a] + ys)
  {
    assert ([a] + ys)[0] == a;
  }

  lemma ExpiredFirst(d: map<string, int>, clock: int, later: int, ttlMs: nat, a: Alert, rest: seq<Alert>,
                     ys: seq<Alert>)
    requires clock <= later <= clock + ttlMs && !IsNew(d, clock, a) && IsNew(d, later, a)
    ensures var xs := [a] + rest;
            && (OrderKept(d, clock, later, ttlMs, xs)
                ==> Collected(d, clock, ttlMs, xs) + Collected(Remembered(d, clock, ttlMs, xs), later, ttlMs, [a] + (rest + ys))
                    == Collected(d, later, ttlMs, [a] + (rest + ys)))
            && (!OrderKept(d, clock, later, ttlMs, xs)
                ==> !Begins(Collected(d, clock, ttlMs, xs), Collected(d, later, ttlMs, [a] + (rest + ys))))
  {
    assert ([a] + rest)[1..] == rest;
    OldAddsNothing(d, clock, ttlMs, a, rest);
    NothingCollected(d, clock, ttlMs, rest);
    NewComesFirst(d, later, later, ttlMs, a, rest + ys);
    assert Remembered(d, clock, ttlMs, [a] + rest) == Remembered(d, clock, ttlMs, rest);
    assert OrderKept(d, clock, later, ttlMs, [a] + rest) <==> Collected(d, clock, ttlMs, rest) == [];
    var first := Collected(d, clock, ttlMs, rest);
    if first != [] {
      DifferentHeads(first, a, Collected(DedupeAfter(d, later, ttlMs, a), later, ttlMs, rest + ys));
    }
    hide Collected, Remembered, IsNew, OrderKept, DedupeAfter, Begins;
  }

  // ---- Retrying ----

  /** The stores after the calls, one after the other. */
  function Attempts(s: Stores, ttlNs: int, alerts: seq<Alert>, calls: seq<Call>): Stores
    decreases |calls|
  {
    if calls == [] then s else Attempts(Handle(s, ttlNs, alerts, calls[0]).0, ttlNs, alerts, calls[1..])
  }

  /** The items the calls append, one call after the other. */
  function AppendedBy(s: Stores, ttlNs: int, alerts: seq<Alert>, calls: seq<Call>): seq<Item>
    decreases |calls|
  {
    if calls == [] then []
    else
      Appended(s.dedupe, ttlNs, alerts, calls[0])
      + AppendedBy(Handle(s, ttlNs, alerts, calls[0]).0, ttlNs, alerts, calls[1..])
  }

  /** No call appended an alert behind one whose key ran out between this call and the last. */
  predicate InSequence(s: Stores, ttlNs: int, alerts: seq<Alert>, calls: seq<Call>)
    decreases |calls|
  {
    |calls| <= 1
    || (OrderKept(s.dedupe, calls[0].clock, calls[|calls| - 1].clock, ttlNs / 1_000_000,
                  alerts[..Progress(alerts, calls[0], 0)])
        && InSequence(Handle(s, ttlNs, alerts, calls[0]).0, ttlNs, alerts, calls[1..]))
  }

  /** The last call completes, and it comes after the others and before the keys they remembered run out. */
  predicate Retried(ttlNs: int, alerts: seq<Alert>, calls: seq<Call>) {
    && calls != [] && Completes(alerts, calls[|calls| - 1], 0)
    && (forall i :: 0 <= i < |calls| ==>
          calls[i].clock <= calls[|calls| - 1].clock <= calls[i].clock + ttlNs / 1_000_000)
  }

  ghost predicate Conserves(s: Stores, ttlNs: int, alerts: seq<Alert>, calls: seq<Call>)
    requires calls != []
  {
    var (end, items) := (Attempts(s, ttlNs, alerts, calls), AppendedBy(s, ttlNs, alerts, calls));
    var all := Collected(s.dedupe, calls[|calls| - 1].clock, ttlNs / 1_000_000, alerts);
    && end.active == FoldActive(s.active, alerts)
    && GrewBy(s, end, items)
    && multiset(Through(items, Appending)) == multiset(all)
    && (Through(items, Appending) == all <==> InSequence(s, ttlNs, alerts, calls))
  }

  lemma {:induction false} CallsConserve(s: Stores, ttlNs: int, alerts: seq<Alert>, calls: seq<Call>)
    requires Acceptable(alerts) && ttlNs / 1_000_000 >= 1 && Retried(ttlNs, alerts, calls)
    ensures Conserves(s, ttlNs, alerts, calls)
    decreases |calls|
  {
    if |calls| == 1 {
      LastCall(s, ttlNs, alerts, calls);
    } else {
      var rest := calls[1..];
      assert rest[|rest| - 1] == calls[|calls| - 1];
      assert forall i :: 0 <= i < |rest| ==> rest[i] == calls[i + 1];
      hide Conserves, Handle, Acceptable, Completes;
      CallsConserve(Handle(s, ttlNs, alerts, calls[0]).0, ttlNs, alerts, rest);
      FirstCall(s, ttlNs, alerts, calls);
    }
  }

  lemma LastCall(s: Stores, ttlNs: int, alerts: seq<Alert>, calls: seq<Call>)
    requires Acceptable(alerts) && ttlNs / 1_000_000 >= 1 && Retried(ttlNs, alerts, calls) && |calls| == 1
    ensures Conserves(s, ttlNs, alerts, calls)
  {
    var call := calls[0];
    var m := OneCall(s, ttlNs, alerts, call);
    OnlyCall(s, ttlNs, alerts, call);
    assert calls == [call] && alerts[..|alerts|] == alerts;
    hide Handle, Attempts, AppendedBy, Acceptable, Completes, FoldActive, GrewBy, Collected, Remembered, Appended, Through;
  }

  lemma OnlyCall(s: Stores, ttlNs: int, alerts: seq<Alert>, call: Call)
    ensures Attempts(s, ttlNs, alerts, [call]) == Handle(s, ttlNs, alerts, call).0
    ensures AppendedBy(s, ttlNs, alerts, [call]) == Appended(s.dedupe, ttlNs, alerts, call)
  {
    hide Handle, Appended;
    var t := Handle(s, ttlNs, alerts, call).0;
    assert [call][1..] == [];
    assert Attempts(t, ttlNs, alerts, []) == t && AppendedBy(t, ttlNs, alerts, []) == [];
  }

  lemma FirstCall(s: Stores, ttlNs: int, alerts: seq<Alert>, calls: seq<Call>)
    requires Acceptable(alerts) && ttlNs / 1_000_000 >= 1 && Retried(ttlNs, alerts, calls) && |calls| > 1
    requires Conserves(Handle(s, ttlNs, alerts, calls[0]).0, ttlNs, alerts, calls[1..])
    ensures Conserves(s, ttlNs, alerts, calls)
  {
    var (call, rest, last) := (calls[0], calls[1..], calls[|calls| - 1]);
    assert rest[|rest| - 1] == last;
    var begun, ttlMs := Handle(s, ttlNs, alerts, call).0, ttlNs / 1_000_000;
    var m := OneCall(s, ttlNs, alerts, call);
    hide Handle, Progress, OrderKept, Collected, Remembered, Begins, Appended, Through, GrewBy, FoldActive;
    FoldResumes(s.active, alerts, m);
    Resume(s.dedupe, call.clock, last.clock, ttlMs, alerts, Progress(alerts, call, 0));
    var first, others := Appended(s.dedupe, ttlNs, alerts, call), AppendedBy(begun, ttlNs, alerts, rest);
    ThroughConcat(first, others, Appending);
    hide Acceptable, Completes;
    GrewTwice(s, begun, Attempts(begun, ttlNs, alerts, rest), first, others);
    Joins(Through(first, Appending), Through(others, Appending), Collected(begun.dedupe, last.clock, ttlMs, alerts),
          Collected(s.dedupe, last.clock, ttlMs, alerts));
  }

  /** An attempt that got through n of the alerts, and the later call. */
  lemma Resume(d: map<string, int>, clock: int, later: int, ttlMs: nat, alerts: seq<Alert>, n: nat)
    requires n <= |alerts| && clock <= later <= clock + ttlMs
    ensures var (c, u) := (Collected(d, clock, ttlMs, alerts[..n]),
                           Collected(Remembered(d, clock, ttlMs, alerts[..n]), later, ttlMs, alerts));
            var whole := Collected(d, later, ttlMs, alerts);
            && multiset(c) + multiset(u) == multiset(whole)
            && (OrderKept(d, clock, later, ttlMs, alerts[..n]) ==> c + u == whole)
            && (!OrderKept(d, clock, later, ttlMs, alerts[..n]) ==> !Begins(c, whole))
  {
    assert alerts == alerts[..n] + alerts[n..];
    hide Collected, Remembered, OrderKept, Begins;
    SameEvents(d, clock, later, ttlMs, alerts[..n], alerts[n..]);
    NewsResume(d, clock, later, ttlMs, alerts[..n], alerts[n..]);
  }

  /** c begins whole, or it does not and nothing after it helps. */
  lemma Joins(c: seq<Alert>, t: seq<Alert>, u: seq<Alert>, whole: seq<Alert>)
    ensures multiset(t) == multiset(u) && multiset(c) + multiset(u) == multiset(whole)
        ==> multiset(c + t) == multiset(whole)
    ensures c + u == whole ==> (c + t == whole <==> t == u)
    ensures !Begins(c, whole) ==> c + t != whole
  {
    assert multiset(c + t) == multiset(c) + multiset(t);
    if c + t == c + u {
      assert t == (c + t)[|c|..] && u == (c + u)[|c|..];
    }
  }

  /** The call as it would have gone with no fault at all. */
  function Faultless(call: Call): Call {
    call.(faults := [])
  }

  lemma {:induction false} ThroughAll(items: seq<Item>, stage: Stage)
    ensures |Through(items, stage)| <= |items|
    ensures |Through(items, stage)| == |items| <==> forall i :: 0 <= i < |items| ==> Passes(stage, items[i].faults)
    ensures |Through(items, stage)| == |items| ==> Through(items, stage) == AlertsIn(items)
    decreases |items|
  {
    hide Passes;
    if items != [] {
      ThroughAll(items[1..], stage);
      assert AlertsIn(items) == [items[0].alert] + AlertsIn(items[1..]);
      assert forall i :: 1 <= i < |items| ==> items[i] == items[1..][i - 1];
    }
  }

  lemma {:induction false} NewItemsAreItems(d: map<string, int>, clock: int, ttlMs: int, items: seq<Item>)
    ensures forall x :: x in NewItems(d, clock, ttlMs, items) ==> x in items
    decreases |items|
  {
    hide IsNew, DedupeAfter;
    if items != [] {
      NewItemsAreItems(DedupeAfter(d, clock, ttlMs, items[0].alert), clock, ttlMs, items[1..]);
    }
  }

  /** A faultless call does everything for every event it appends. */
  lemma FaultlessCall(s: Stores, ttlNs: int, alerts: seq<Alert>, call: Call)
    requires Acceptable(alerts) && ttlNs / 1_000_000 >= 1
    ensures var once := Handle(s, ttlNs, alerts, Faultless(call)).0;
            var all := Collected(s.dedupe, call.clock, ttlNs / 1_000_000, alerts);
            && once.active == FoldActive(s.active, alerts)
            && AlertsOf(once.log) == AlertsOf(s.log) + all
            && once.rows == ArchivedAll(s.rows, all)
            && AlertsOf(once.published) == AlertsOf(s.published) + all
            && AlertsOf(once.produced) == AlertsOf(s.produced) + all
  {
    var plain := Faultless(call);
    var m := OneCall(s, ttlNs, alerts, plain);
    assert Completes(alerts, plain, 0);
    assert alerts[..|alerts|] == alerts;
    var items := Appended(s.dedupe, ttlNs, alerts, plain);
    NewItemsAreItems(s.dedupe, plain.clock, ttlNs / 1_000_000, ItemsOf(alerts, plain)[..Progress(alerts, plain, 0)]);
    forall i, stage | 0 <= i < |items| ensures Passes(stage, items[i].faults) {
      assert items[i] in items;
      assert items[i].faults == NO_FAULTS;
    }
    hide Handle, Appended, Collected, Acceptable, Completes, Through, Passes, FoldActive;
    ThroughAll(items, Appending);
    ThroughAll(items, Archiving);
    ThroughAll(items, Publishing);
    ThroughAll(items, Producing);
  }

  /**
   * However many attempts stop at whatever faults, and whatever the last call loses, once a call completes within the TTL
   * the active hash is that of one faultless call, and so is the event log: always as a collection, and in order exactly
   * when no call appended behind a key that ran out in between.
   */
  lemma RetryConverges(s: Stores, ttlNs: int, alerts: seq<Alert>, calls: seq<Call>)
    requires Acceptable(alerts) && ttlNs / 1_000_000 >= 1 && Retried(ttlNs, alerts, calls)
    ensures var end := Attempts(s, ttlNs, alerts, calls);
            var once := Handle(s, ttlNs, alerts, Faultless(calls[|calls| - 1])).0;
            && end.active == once.active && Mirrors(s.active, end.active, alerts)
            && multiset(AlertsOf(end.log)) == multiset(AlertsOf(once.log))
            && (AlertsOf(end.log) == AlertsOf(once.log) <==> InSequence(s, ttlNs, alerts, calls))
  {
    CallsConserve(s, ttlNs, alerts, calls);
    FaultlessCall(s, ttlNs, alerts, calls[|calls| - 1]);
    FoldMirrors(s.active, alerts);
    var all := Collected(s.dedupe, calls[|calls| - 1].clock, ttlNs / 1_000_000, alerts);
    hide Handle, Attempts, AppendedBy, Acceptable, Retried, Collected, FoldActive, InSequence, Through, Mirrors;
    Appends(AlertsOf(s.log), Through(AppendedBy(s, ttlNs, alerts, calls), Appending), all);
  }

  lemma Appends(front: seq<Alert>, a: seq<Alert>, b: seq<Alert>)
    ensures front + a == front + b <==> a == b
    ensures multiset(a) == multiset(b) ==> multiset(front + a) == multiset(front + b)
  {
    assert a == (front + a)[|front|..] && b == (front + b)[|front|..];
    assert multiset(front + a) == multiset(front) + multiset(a) && multiset(front + b) == multiset(front) + multiset(b);
  }

  ghost predicate NothingLost(items: seq<Item>, stage: Stage) {
    forall i :: 0 <= i < |items| ==> Passes(stage, items[i].faults)
  }

  /** A stage of the calls yields the whole of a faultless call exactly when nothing was lost and the order was kept. */
  lemma StageConverges(s: Stores, ttlNs: int, alerts: seq<Alert>, calls: seq<Call>, stage: Stage)
    requires calls != [] && Conserves(s, ttlNs, alerts, calls)
    ensures var items := AppendedBy(s, ttlNs, alerts, calls);
            Through(items, stage) == Collected(s.dedupe, calls[|calls| - 1].clock, ttlNs / 1_000_000, alerts)
            <==> NothingLost(items, stage) && InSequence(s, ttlNs, alerts, calls)
  {
    var items := AppendedBy(s, ttlNs, alerts, calls);
    var all := Collected(s.dedupe, calls[|calls| - 1].clock, ttlNs / 1_000_000, alerts);
    hide Attempts, AppendedBy, Collected, FoldActive, InSequence, Through, GrewBy;
    ThroughAll(items, stage);
    ThroughAll(items, Appending);
    assert |all| == |multiset(all)| == |multiset(Through(items, Appending))| == |items|;
  }

  /**
   * The published and the produced sequence are those of one faultless call exactly when the log is, and no event that any
   * of the calls appended met a lost append reply or the failure of that stage: a retry never makes up for either.
   */
  lemma AnnouncedIffNothingLost(s: Stores, ttlNs: int, alerts: seq<Alert>, calls: seq<Call>)
    requires Acceptable(alerts) && ttlNs / 1_000_000 >= 1 && Retried(ttlNs, alerts, calls)
    ensures var end := Attempts(s, ttlNs, alerts, calls);
            var once := Handle(s, ttlNs, alerts, Faultless(calls[|calls| - 1])).0;
            var items := AppendedBy(s, ttlNs, alerts, calls);
            && (AlertsOf(end.published) == AlertsOf(once.published)
                <==> NothingLost(items, Publishing) && InSequence(s, ttlNs, alerts, calls))
            && (AlertsOf(end.produced) == AlertsOf(once.produced)
                <==> NothingLost(items, Producing) && InSequence(s, ttlNs, alerts, calls))
  {
    CallsConserve(s, ttlNs, alerts, calls);
    FaultlessCall(s, ttlNs, alerts, calls[|calls| - 1]);
    StageConverges(s, ttlNs, alerts, calls, Publishing);
    StageConverges(s, ttlNs, alerts, calls, Producing);
    var all := Collected(s.dedupe, calls[|calls| - 1].clock, ttlNs / 1_000_000, alerts);
    hide Handle, Attempts, AppendedBy, Acceptable, Retried, Collected, FoldActive, InSequence, Through, NothingLost;
    Appends(AlertsOf(s.published), Through(AppendedBy(s, ttlNs, alerts, calls), Publishing), all);
    Appends(AlertsOf(s.produced), Through(AppendedBy(s, ttlNs, alerts, calls), Producing), all);
  }

  predicate AllSupported(alerts: seq<Alert>) {
    forall i :: 0 <= i < |alerts| ==> Supported(alerts[i].status)
  }

  lemma {:induction false} CollectedSupported(d: map<string, int>, clock: int, ttlMs: int, alerts: seq<Alert>)
    requires Acceptable(alerts)
    ensures AllSupported(Collected(d, clock, ttlMs, alerts))
    decreases |alerts|
  {
    if alerts != [] {
      hide EventKey;
      CollectedSupported(DedupeAfter(d, clock, ttlMs, alerts[0]), clock, ttlMs, alerts[1..]);
    }
  }

  lemma {:induction false} ThroughSupported(items: seq<Item>, stage: Stage)
    ensures forall a :: a in Through(items, stage) ==> a in Through(items, Appending)
    decreases |items|
  {
    if items != [] {
      ThroughSupported(items[1..], stage);
    }
  }

  /**
   * The history is that of one faultless call exactly when what was archived adds the same occurrences in the same order
   * and tells the same of each as what was appended. Losing an archive therefore shows unless a later archived alert of
   * the same occurrence hides it.
   */
  lemma HistoryConvergesIff(s: Stores, ttlNs: int, alerts: seq<Alert>, calls: seq<Call>)
    requires Acceptable(alerts) && ttlNs / 1_000_000 >= 1 && Retried(ttlNs, alerts, calls)
    ensures var end := Attempts(s, ttlNs, alerts, calls);
            var once := Handle(s, ttlNs, alerts, Faultless(calls[|calls| - 1])).0;
            var archived := Through(AppendedBy(s, ttlNs, alerts, calls), Archiving);
            var all := Collected(s.dedupe, calls[|calls| - 1].clock, ttlNs / 1_000_000, alerts);
            && (end.rows == once.rows
                <==> NewKeys(s.rows, archived) == NewKeys(s.rows, all)
                     && forall k :: Told(Story(s.rows, k), archived, k) == Told(Story(s.rows, k), all, k))
            && (NothingLost(AppendedBy(s, ttlNs, alerts, calls), Archiving) && InSequence(s, ttlNs, alerts, calls)
                ==> end.rows == once.rows)
  {
    CallsConserve(s, ttlNs, alerts, calls);
    FaultlessCall(s, ttlNs, alerts, calls[|calls| - 1]);
    StageConverges(s, ttlNs, alerts, calls, Archiving);
    var items := AppendedBy(s, ttlNs, alerts, calls);
    var all := Collected(s.dedupe, calls[|calls| - 1].clock, ttlNs / 1_000_000, alerts);
    var archived := Through(items, Archiving);
    CollectedSupported(s.dedupe, calls[|calls| - 1].clock, ttlNs / 1_000_000, alerts);
    ThroughSupported(items, Archiving);
    ArchivedSupported(archived, Through(items, Appending), all);
    hide Handle, Attempts, AppendedBy, Acceptable, Retried, Collected, FoldActive, InSequence, Through, NothingLost;
    SameTableIff(s.rows, archived, all);
  }

  lemma ArchivedSupported(archived: seq<Alert>, appended: seq<Alert>, all: seq<Alert>)
    requires AllSupported(all) && multiset(appended) == multiset(all) && forall a :: a in archived ==> a in appended
    ensures AllSupported(archived)
  {
    forall i | 0 <= i < |archived| ensures Supported(archived[i].status) {
      assert archived[i] in archived && archived[i] in multiset(appended);
      assert archived[i] in all;
    }
  }

  /** A firing alert whose archive rolled back is made up for by the resolved one of the same occurrence after it. */
  lemma LostArchiveHidden(rows: seq<Row>, firing: Alert, resolved: Alert)
    requires firing.status == FIRING && resolved.status == RESOLVED && KeyOf(firing) == KeyOf(resolved)
    requires !HasKey(rows, KeyOf(firing))
    ensures ArchivedAll(rows, [resolved]) == ArchivedAll(rows, [firing, resolved])
    ensures ArchivedAll(rows, [firing]) != ArchivedAll(rows, [])
  {
    assert [firing, resolved][..1] == [firing] && [resolved][..0] == [] && [firing][..0] == [];
    assert ArchivedAll(rows, []) == rows;
    var one := ArchivedAll(rows, [firing]);
    assert one == Archived(rows, firing);
    assert one == rows + [BuildHistory(firing).(id := NextId(rows))];
    NewestIs(one, KeyOf(firing), |rows|);
  }

  // ---- Keys that run out between the calls ----

  predicate SteadyAt(dedupe: map<string, int>, key: string, from: int, to: int) {
    key in dedupe ==> dedupe[key] < from || to <= dedupe[key]
  }

  /** No key of the payload that was live at the start of the period runs out in it. */
  predicate Steady(dedupe: map<string, int>, alerts: seq<Alert>, from: int, to: int) {
    forall i :: 0 <= i < |alerts| && alerts[i].fingerprint != "" ==> SteadyAt(dedupe, EventKey(alerts[i]), from, to)
  }

  lemma {:induction false} SteadyKeepsOrder(d: map<string, int>, clock: int, later: int, ttlMs: int, xs: seq<Alert>)
    requires clock <= later <= clock + ttlMs && Steady(d, xs, clock, later)
    ensures OrderKept(d, clock, later, ttlMs, xs)
    decreases |xs|
  {
    if xs != [] {
      var e := DedupeAfter(d, clock, ttlMs, xs[0]);
      hide EventKey;
      forall i | 0 <= i < |xs[1..]| && xs[1..][i].fingerprint != ""
        ensures SteadyAt(e, EventKey(xs[1..][i]), clock, later)
      {
        assert xs[1..][i] == xs[i + 1];
      }
      assert SteadyAt(d, EventKey(xs[0]), clock, later) || xs[0].fingerprint == "";
      SteadyKeepsOrder(e, clock, later, ttlMs, xs[1..]);
    }
  }

  lemma {:induction false} RememberedSteady(d: map<string, int>, clock: int, ttlMs: int, xs: seq<Alert>, key: string,
                                            from: int, to: int)
    requires SteadyAt(d, key, clock, to) && clock <= from <= to <= clock + ttlMs
    ensures SteadyAt(Remembered(d, clock, ttlMs, xs), key, from, to)
    decreases |xs|
  {
    if xs != [] {
      hide EventKey;
      RememberedSteady(DedupeAfter(d, clock, ttlMs, xs[0]), clock, ttlMs, xs[1..], key, from, to);
    }
  }

  /** When no key of the payload runs out during the calls, the order of the log is kept. */
  lemma {:induction false} SteadyInSequence(s: Stores, ttlNs: int, alerts: seq<Alert>, calls: seq<Call>)
    requires Acceptable(alerts) && ttlNs / 1_000_000 >= 1 && Retried(ttlNs, alerts, calls)
    requires forall i, j :: 0 <= i < j < |calls| ==> calls[i].clock <= calls[j].clock
    requires Steady(s.dedupe, alerts, calls[0].clock, calls[|calls| - 1].clock)
    ensures InSequence(s, ttlNs, alerts, calls)
    decreases |calls|
  {
    if |calls| > 1 {
      var (call, rest, last) := (calls[0], calls[1..], calls[|calls| - 1]);
      assert rest[|rest| - 1] == last && rest[0] == calls[1];
      assert forall i :: 0 <= i < |rest| ==> rest[i] == calls[i + 1];
      hide Handle, Progress, OrderKept, Completes, Acceptable;
      SteadyNext(s, ttlNs, alerts, call, rest[0].clock, last.clock);
      hide Steady;
      SteadyInSequence(Handle(s, ttlNs, alerts, call).0, ttlNs, alerts, rest);
    }
  }

  lemma SteadyNext(s: Stores, ttlNs: int, alerts: seq<Alert>, call: Call, from: int, to: int)
    requires Acceptable(alerts) && ttlNs / 1_000_000 >= 1 && call.clock <= from <= to <= call.clock + ttlNs / 1_000_000
    requires Steady(s.dedupe, alerts, call.clock, to)
    ensures OrderKept(s.dedupe, call.clock, to, ttlNs / 1_000_000, alerts[..Progress(alerts, call, 0)])
    ensures Steady(Handle(s, ttlNs, alerts, call).0.dedupe, alerts, from, to)
  {
    var n, ttlMs := Progress(alerts, call, 0), ttlNs / 1_000_000;
    var m := OneCall(s, ttlNs, alerts, call);
    hide Handle, Progress, OrderKept, Remembered, Completes, Acceptable, GrewBy, Appended, FoldActive, EventKey, SteadyAt;
    SteadyKeepsOrder(s.dedupe, call.clock, to, ttlMs, alerts[..n]);
    forall i | 0 <= i < |alerts| && alerts[i].fingerprint != ""
      ensures SteadyAt(Remembered(s.dedupe, call.clock, ttlMs, alerts[..n]), EventKey(alerts[i]), from, to)
    {
      RememberedSteady(s.dedupe, call.clock, ttlMs, alerts[..n], EventKey(alerts[i]), from, to);
    }
  }

  /**
   * A key that runs out in between does reorder: the attempt appends b alone, the retry appends a behind it, and the later
   * call alone would have appended a first.
   */
  lemma ExpiryReorders(s: Stores, ttlNs: int, a: Alert, b: Alert, first: Call, last: Call)
    requires Supported(a.status) && Supported(b.status) && EventKey(a) != EventKey(b) && ttlNs / 1_000_000 >= 1
    requires a.fingerprint != "" && IsNew(s.dedupe, first.clock, b)
    requires !IsNew(s.dedupe, first.clock, a) && IsNew(s.dedupe, last.clock, a)
    requires first.faults == last.faults == [] && first.clock <= last.clock <= first.clock + ttlNs / 1_000_000
    ensures AlertsOf(Attempts(s, ttlNs, [a, b], [first, last]).log) == AlertsOf(s.log) + [b, a]
    ensures AlertsOf(Handle(s, ttlNs, [a, b], last).0.log) == AlertsOf(s.log) + [a, b]
  {
    hide Handle, Attempts, EventKey, Collected, Remembered, IsNew, AlertsOf, Supported;
    var payload := [a, b];
    assert Acceptable(payload);
    hide Acceptable;
    TwoCollected(s.dedupe, first.clock, last.clock, ttlNs / 1_000_000, a, b);
    TwoLogs(s, ttlNs, payload, first, last);
    FaultlessLog(s, ttlNs, payload, last);
    assert AlertsOf(s.log) + [b] + [a] == AlertsOf(s.log) + [b, a];
  }

  /** The log after two faultless calls. */
  lemma TwoLogs(s: Stores, ttlNs: int, alerts: seq<Alert>, first: Call, last: Call)
    requires Acceptable(alerts) && ttlNs / 1_000_000 >= 1 && first.faults == last.faults == []
    ensures AlertsOf(Attempts(s, ttlNs, alerts, [first, last]).log)
         == AlertsOf(s.log) + Collected(s.dedupe, first.clock, ttlNs / 1_000_000, alerts)
            + Collected(Remembered(s.dedupe, first.clock, ttlNs / 1_000_000, alerts), last.clock, ttlNs / 1_000_000, alerts)
  {
    hide Handle, Attempts, Collected, Remembered, Acceptable, AlertsOf;
    LastOfTwo(s, ttlNs, alerts, first, last);
    FaultlessLog(s, ttlNs, alerts, first);
    FaultlessLog(Handle(s, ttlNs, alerts, first).0, ttlNs, alerts, last);
  }

  lemma LastOfTwo(s: Stores, ttlNs: int, alerts: seq<Alert>, first: Call, last: Call)
    ensures Attempts(s, ttlNs, alerts, [first, last])
         == Handle(Handle(s, ttlNs, alerts, first).0, ttlNs, alerts, last).0
  {
    hide Handle;
    var begun := Handle(s, ttlNs, alerts, first).0;
    var end := Handle(begun, ttlNs, alerts, last).0;
    assert [first, last][1..] == [last] && [last][1..] == [];
    assert Attempts(end, ttlNs, alerts, []) == end;
    assert Attempts(begun, ttlNs, alerts, [last]) == end;
  }

  lemma FaultlessLog(s: Stores, ttlNs: int, alerts: seq<Alert>, call: Call)
    requires Acceptable(alerts) && ttlNs / 1_000_000 >= 1 && call.faults == []
    ensures var t := Handle(s, ttlNs, alerts, call).0;
            && t.dedupe == Remembered(s.dedupe, call.clock, ttlNs / 1_000_000, alerts)
            && AlertsOf(t.log) == AlertsOf(s.log) + Collected(s.dedupe, call.clock, ttlNs / 1_000_000, alerts)
  {
    assert Faultless(call) == call;
    FaultlessCall(s, ttlNs, alerts, call);
    var m := OneCall(s, ttlNs, alerts, call);
    hide Handle, Remembered, Collected, GrewBy, FoldActive, Through;
    assert Completes(alerts, call, 0);
  }

  lemma TwoCollected(d: map<string, int>, clock: int, later: int, ttlMs: nat, a: Alert, b: Alert)
    requires a.fingerprint != "" && EventKey(a) != EventKey(b) && clock <= later <= clock + ttlMs
    requires IsNew(d, clock, b) && !IsNew(d, clock, a) && IsNew(d, later, a)
    ensures Collected(d, clock, ttlMs, [a, b]) == [b]
    ensures Collected(d, later, ttlMs, [a, b]) == [a, b]
    ensures Collected(Remembered(d, clock, ttlMs, [a, b]), later, ttlMs, [a, b]) == [a]
  {
    hide EventKey;
    assert [a, b][1..] == [b] && [b][1..] == [];
    var e := d[EventKey(b) := clock + ttlMs];
    var f := d[EventKey(a) := later + ttlMs];
    var g := e[EventKey(a) := later + ttlMs];
    assert IsNew(e, later, a) && !IsNew(e, later, b) && IsNew(d, later, b) && IsNew(f, later, b) && !IsNew(g, later, b);
    assert Remembered(e, clock, ttlMs, []) == e;
    assert Remembered(d, clock, ttlMs, [b]) == e;
    assert Collected(d, clock, ttlMs, [b]) == [b] + Collected(e, clock, ttlMs, []);
    assert Collected(f, later, ttlMs, [b]) == [b] + Collected(f[EventKey(b) := later + ttlMs], later, ttlMs, []);
    assert Collected(g, later, ttlMs, [b]) == Collected(g, later, ttlMs, []) == [];
    assert Collected(e, later, ttlMs, [a, b]) == [a] + Collected(g, later, ttlMs, [b]);
  }

  // ---- A TTL too short to deduplicate ----

  /** The first new alert from i on, or the end. */
  function FirstNew(dedupe: map<string, int>, clock: int, alerts: seq<Alert>, i: nat): (k: nat)
    requires i <= |alerts|
    ensures i <= k <= |alerts| && (k < |alerts| ==> IsNew(dedupe, clock, alerts[k]))
    decreases |alerts| - i
  {
    if i == |alerts| || IsNew(dedupe, clock, alerts[i]) then i else FirstNew(dedupe, clock, alerts, i + 1)
  }

  /** The first alert with a fingerprint from i on, or the end. */
  function FirstNamed(alerts: seq<Alert>, i: nat): (k: nat)
    requires i <= |alerts|
    ensures i <= k <= |alerts| && (k < |alerts| ==> alerts[k].fingerprint != "")
    decreases |alerts| - i
  {
    if i == |alerts| || alerts[i].fingerprint != "" then i else FirstNamed(alerts, i + 1)
  }

  /** A call that stopped at alert k, having written the active hash up to it and appended es, or handled them all. */
  ghost predicate StoppedAt(s: Stores, t: Stores, error: Option<ErrorKind>, alerts: seq<Alert>, i: nat, k: nat,
                            es: seq<FeedEvent>)
    requires i <= k <= |alerts|
  {
    && t == s.(active := t.active, log := s.log + es)
    && t.active == FoldActive(s.active, alerts[i..if k < |alerts| then k + 1 else k])
    && error == if k < |alerts| then Some(StoreAlertEvent) else None
  }

  /** One faultless alert under a TTL below a millisecond. */
  lemma ShortTtlAlert(s: Stores, ttlNs: int, clock: int, receivedAt: Time, a: Alert)
    requires ttlNs < 1_000_000
    ensures var (t, error) := HandleAlert(s, ttlNs, clock, receivedAt, a, NO_FAULTS);
            && t == s.(active := t.active, log := t.log) && t.active == ActiveAfter(s.active, a)
            && (ttlNs > 0 ==>
                  && error == (if IsNew(s.dedupe, clock, a) then Some(StoreAlertEvent) else None)
                  && t.log == s.log + (if IsNew(s.dedupe, clock, a) then [FeedEvent(a, receivedAt)] else []))
            && (ttlNs <= 0 ==> error == (if a.fingerprint != "" then Some(StoreAlertEvent) else None) && t.log == s.log)
  {
    hide EventKey;
  }

  lemma StopsAtFirst(s: Stores, t: Stores, alerts: seq<Alert>, i: nat, es: seq<FeedEvent>)
    requires i < |alerts| && t == s.(active := t.active, log := s.log + es)
    requires t.active == ActiveAfter(s.active, alerts[i])
    ensures StoppedAt(s, t, Some(StoreAlertEvent), alerts, i, i, es)
  {
    hide ActiveAfter;
    assert alerts[i..i + 1] == [alerts[i]] && [alerts[i]][1..] == [];
    assert FoldActive(t.active, []) == t.active;
  }

  lemma StopsLater(s: Stores, mid: Stores, t: Stores, error: Option<ErrorKind>, alerts: seq<Alert>, i: nat, k: nat,
                   es: seq<FeedEvent>)
    requires i < k <= |alerts| && mid == s.(active := ActiveAfter(s.active, alerts[i]))
    requires StoppedAt(mid, t, error, alerts, i + 1, k, es)
    ensures StoppedAt(s, t, error, alerts, i, k, es)
  {
    hide ActiveAfter;
    var to := if k < |alerts| then k + 1 else k;
    Cut(alerts, i, to);
    assert alerts[i..to][1..] == alerts[i + 1..to];
  }

  /**
   * A positive TTL below a millisecond: a faultless call appends the event of its first new alert and fails there, the key
   * not remembered; what stands behind is never handled. Without a new alert it goes through.
   */
  lemma {:induction false} ShortTtlStops(s: Stores, ttlNs: int, alerts: seq<Alert>, call: Call, i: nat)
    requires 0 < ttlNs < 1_000_000 && call.faults == [] && i <= |alerts|
    ensures var (t, error) := HandleFrom(s, ttlNs, alerts, call, i);
            var k := FirstNew(s.dedupe, call.clock, alerts, i);
            StoppedAt(s, t, error, alerts, i, k,
                      if k < |alerts| then [FeedEvent(alerts[k], call.receivedAt)] else [])
    decreases |alerts| - i
  {
    if i == |alerts| {
      assert alerts[i..i] == [] && FoldActive(s.active, []) == s.active;
    } else {
      ShortTtlAlert(s, ttlNs, call.clock, call.receivedAt, alerts[i]);
      hide HandleAlert, ActiveAfter, FoldActive, IsNew, StoppedAt;
      var (mid, error) := HandleAlert(s, ttlNs, call.clock, call.receivedAt, alerts[i], NO_FAULTS);
      if error.Some? {
        StopsAtFirst(s, mid, alerts, i, [FeedEvent(alerts[i], call.receivedAt)]);
      } else {
        assert s.log + [] == s.log;
        ShortTtlStops(mid, ttlNs, alerts, call, i + 1);
        var (t, end) := HandleFrom(mid, ttlNs, alerts, call, i + 1);
        var k := FirstNew(s.dedupe, call.clock, alerts, i);
        StopsLater(s, mid, t, end, alerts, i, k, if k < |alerts| then [FeedEvent(alerts[k], call.receivedAt)] else []);
      }
    }
  }

  /** No TTL at all: a faultless call fails at its first named alert and appends nothing. */
  lemma {:induction false} NoTtlStops(s: Stores, ttlNs: int, alerts: seq<Alert>, call: Call, i: nat)
    requires ttlNs <= 0 && call.faults == [] && i <= |alerts|
    ensures var (t, error) := HandleFrom(s, ttlNs, alerts, call, i);
            StoppedAt(s, t, error, alerts, i, FirstNamed(alerts, i), [])
    decreases |alerts| - i
  {
    if i == |alerts| {
      assert alerts[i..i] == [] && FoldActive(s.active, []) == s.active;
    } else {
      ShortTtlAlert(s, ttlNs, call.clock, call.receivedAt, alerts[i]);
      hide HandleAlert, ActiveAfter, FoldActive, StoppedAt;
      var (mid, error) := HandleAlert(s, ttlNs, call.clock, call.receivedAt, alerts[i], NO_FAULTS);
      assert s.log + [] == s.log;
      if error.Some? {
        StopsAtFirst(s, mid, alerts, i, []);
      } else {
        NoTtlStops(mid, ttlNs, alerts, call, i + 1);
        var (t, end) := HandleFrom(mid, ttlNs, alerts, call, i + 1);
        StopsLater(s, mid, t, end, alerts, i, FirstNamed(alerts, i), []);
      }
    }
  }

  /** The events that faultless attempts append under such a TTL: the first new one of the payload, every time. */
  function FirstNews(dedupe: map<string, int>, alerts: seq<Alert>, calls: seq<Call>): seq<Alert>
    requires forall j :: 0 <= j < |calls| ==> FirstNew(dedupe, calls[j].clock, alerts, 0) < |alerts|
    decreases |calls|
  {
    if calls == [] then []
    else [alerts[FirstNew(dedupe, calls[0].clock, alerts, 0)]] + FirstNews(dedupe, alerts, calls[1..])
  }

  /** So every attempt fails and appends one event more, and nothing is ever archived, published or remembered. */
  lemma {:induction false} ShortTtlAppendsEveryTime(s: Stores, ttlNs: int, alerts: seq<Alert>, calls: seq<Call>)
    requires 0 < ttlNs < 1_000_000 && Acceptable(alerts)
    requires forall j :: 0 <= j < |calls| ==> calls[j].faults == []
    requires forall j :: 0 <= j < |calls| ==> FirstNew(s.dedupe, calls[j].clock, alerts, 0) < |alerts|
    ensures var t := Attempts(s, ttlNs, alerts, calls);
            && t == s.(active := t.active, log := t.log)
            && AlertsOf(t.log) == AlertsOf(s.log) + FirstNews(s.dedupe, alerts, calls)
    ensures forall j :: 0 <= j < |calls| ==> Handle(s, ttlNs, alerts, calls[j]).1 == Some(StoreAlertEvent)
    decreases |calls|
  {
    forall j | 0 <= j < |calls| ensures Handle(s, ttlNs, alerts, calls[j]).1 == Some(StoreAlertEvent) {
      ShortTtlCall(s, ttlNs, alerts, calls[j]);
    }
    if calls != [] {
      var mid := Handle(s, ttlNs, alerts, calls[0]).0;
      var first := alerts[FirstNew(s.dedupe, calls[0].clock, alerts, 0)];
      ShortTtlCall(s, ttlNs, alerts, calls[0]);
      hide Handle, FirstNew, AlertsOf, Acceptable;
      ShortTtlAppendsEveryTime(mid, ttlNs, alerts, calls[1..]);
      Regroup(AlertsOf(s.log), [first], FirstNews(s.dedupe, alerts, calls[1..]));
    }
  }

  lemma ShortTtlCall(s: Stores, ttlNs: int, alerts: seq<Alert>, call: Call)
    requires 0 < ttlNs < 1_000_000 && Acceptable(alerts) && call.faults == []
    requires FirstNew(s.dedupe, call.clock, alerts, 0) < |alerts|
    ensures var (t, error) := Handle(s, ttlNs, alerts, call);
            && t == s.(active := t.active, log := t.log) && error == Some(StoreAlertEvent)
            && AlertsOf(t.log) == AlertsOf(s.log) + [alerts[FirstNew(s.dedupe, call.clock, alerts, 0)]]
  {
    ShortTtlStops(s, ttlNs, alerts, call, 0);
    hide HandleFrom, FirstNew, FoldActive, AlertsOf;
    OneEvent(s.log, FeedEvent(alerts[FirstNew(s.dedupe, call.clock, alerts, 0)], call.receivedAt));
  }

  /** How long after an attempt the last call may come: while the keys it remembered live. */
  function Patience(ttlNs: int): nat {
    if ttlNs > 0 then ttlNs / 1_000_000 else 0
  }

  predicate Prompt(ttlNs: int, alerts: seq<Alert>, calls: seq<Call>) {
    && calls != [] && Completes(alerts, calls[|calls| - 1], 0)
    && (forall i :: 0 <= i < |calls| ==> calls[i].clock <= calls[|calls| - 1].clock <= calls[i].clock + Patience(ttlNs))
  }

  /** After the calls the payload is in: the active hash is written, each new event was appended once, and no error. */
  ghost predicate TakenIn(s: Stores, ttlNs: int, alerts: seq<Alert>, calls: seq<Call>)
    requires calls != []
  {
    var last := calls[|calls| - 1];
    var end := Attempts(s, ttlNs, alerts, calls);
    && end.active == FoldActive(s.active, alerts)
    && multiset(AlertsOf(end.log))
       == multiset(AlertsOf(s.log)) + multiset(Collected(s.dedupe, last.clock, Patience(ttlNs), alerts))
    && Handle(Attempts(s, ttlNs, alerts, calls[..|calls| - 1]), ttlNs, alerts, last).1.None?
  }

  ghost predicate RetryWorks(ttlNs: int) {
    forall s, alerts, calls :: Acceptable(alerts) && Prompt(ttlNs, alerts, calls) ==> TakenIn(s, ttlNs, alerts, calls)
  }

  lemma LongTtlTakesIn(s: Stores, ttlNs: int, alerts: seq<Alert>, calls: seq<Call>)
    requires ttlNs >= 1_000_000 && Acceptable(alerts) && Prompt(ttlNs, alerts, calls)
    ensures TakenIn(s, ttlNs, alerts, calls)
  {
    CallsConserve(s, ttlNs, alerts, calls);
    var last := calls[|calls| - 1];
    var m := OneCall(Attempts(s, ttlNs, alerts, calls[..|calls| - 1]), ttlNs, alerts, last);
    var news := Through(AppendedBy(s, ttlNs, alerts, calls), Appending);
    hide Handle, Attempts, AppendedBy, Acceptable, Completes, Collected, FoldActive, InSequence, Through, AlertsOf;
    assert multiset(AlertsOf(s.log) + news) == multiset(AlertsOf(s.log)) + multiset(news);
  }

  /** An alert that a single faultless call to a fresh service cannot take in. */
  lemma ShortTtlRefuses(ttlNs: int, a: Alert, call: Call)
    requires ttlNs < 1_000_000 && a.fingerprint != "" && a.status == FIRING && call.faults == []
    ensures !TakenIn(Stores(map[], [], map[], [], [], []), ttlNs, [a], [call])
  {
    var s, alerts := Stores(map[], [], map[], [], [], []), [a];
    assert IsNew(s.dedupe, call.clock, a);
    if ttlNs > 0 {
      ShortTtlStops(s, ttlNs, alerts, call, 0);
    } else {
      NoTtlStops(s, ttlNs, alerts, call, 0);
    }
    assert [call][..0] == [] && Attempts(s, ttlNs, alerts, []) == s;
    assert Acceptable(alerts);
    hide HandleFrom, EventKey, AlertsOf, Collected, FoldActive;
    assert Handle(s, ttlNs, alerts, call).1 == Some(StoreAlertEvent);
    hide Handle, Attempts;
  }

  /** A retry takes every payload in exactly when the TTL is at least a millisecond. */
  lemma RetryWorksIff(ttlNs: int)
    ensures RetryWorks(ttlNs) <==> ttlNs >= 1_000_000
  {
    if ttlNs >= 1_000_000 {
      forall s, alerts, calls | Acceptable(alerts) && Prompt(ttlNs, alerts, calls)
        ensures TakenIn(s, ttlNs, alerts, calls)
      {
        LongTtlTakesIn(s, ttlNs, alerts, calls);
      }
    } else {
      var a := Alert(FIRING, "a", map[], map[], ZERO, ZERO, "");
      var call := Call(0, ZERO, []);
      ShortTtlRefuses(ttlNs, a, call);
      hide TakenIn;
      assert Acceptable([a]) && Prompt(ttlNs, [a], [call]);
    }
  }
}
