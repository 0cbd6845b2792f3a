/**
 * The alert service around the two scripts: Store.Process decides, the Kafka consumer counts and marks.
 * Every outside event that can go wrong in a call is a parameter of the step that makes the call.
 */
module AlertService {
  import opened Strings
  import opened DedupKeys
  import opened RedisStore

  /** What happens to one Redis call. A lost reply and a late panic both leave the effect behind. */
  datatype Fault = Healthy | Refused | ReplyLost | Panicking(applied: bool)

  datatype CallResult = Answer(stored: bool) | CallError | CallPanic

  datatype Outcome = Success | Permanent | Transient | Panicked

  /** Labels of the per-event metric. */
  const STORED := "stored"
  const DEDUPED := "deduped"
  const FAILED := "failed"

  datatype MessageResult = Processed | InvalidJson | PermanentError | ProcessError

  const DEFAULT_TTL_NS := 300_000_000_000

  function TtlNs(configured: int): int {
    if configured <= 0 then DEFAULT_TTL_NS else configured
  }

  /** Duration.Milliseconds, which drops the part below a millisecond. */
  function Milliseconds(ns: int): int
    requires ns >= 0
  {
    ns / 1_000_000
  }

  /** The TTL the scripts are given is positive exactly when the configured one is absent or at least a millisecond. */
  lemma TtlReachesRedis(configured: int)
    ensures Milliseconds(TtlNs(configured)) >= 1 <==> configured <= 0 || configured >= 1_000_000
  {
  }

  /** ms is the configured life, or five minutes without one, in whole milliseconds. */
  predicate WholeMillis(configured: int, ms: int) {
    var life := if configured <= 0 then 300_000_000_000 else configured;
    ms * 1_000_000 <= life < (ms + 1) * 1_000_000
  }

  /** That is the life the scripts are given, and no other. */
  lemma LifeInMillis(configured: int, ms: int)
    ensures WholeMillis(configured, ms) <==> ms == Milliseconds(TtlNs(configured))
  {
  }

  /** A labelled counter, as a metrics vector keeps it. */
  type Counters = map<(string, string), nat>

  function CountOf(c: Counters, labels: (string, string)): nat {
    if labels in c then c[labels] else 0
  }

  function Bump(c: Counters, labels: (string, string)): Counters {
    c[labels := CountOf(c, labels) + 1]
  }

  function BumpIf(c: Counters, status: string, tag: Option<string>): Counters {
    if tag.Some? then Bump(c, (NormalizeStatus(status), tag.value)) else c
  }

  /** The consumer's four message counters. */
  datatype Tally = Tally(processed: nat, invalidJson: nat, permanentError: nat, processError: nat) {
    function Add(r: MessageResult): Tally {
      match r
      case Processed => this.(processed := processed + 1)
      case InvalidJson => this.(invalidJson := invalidJson + 1)
      case PermanentError => this.(permanentError := permanentError + 1)
      case ProcessError => this.(processError := processError + 1)
    }
  }

  function NormalizeStatus(status: string): string {
    if status == FIRING || status == RESOLVED then status else "unknown"
  }

  function ScriptStep(ks: Keyspace, clock: int, ttlMs: int, e: Event): (Keyspace, ScriptReply)
    requires ValidEvent(e) && (e.status == FIRING ==> e.json.Some?)
  {
    if e.status == FIRING then
      FiringStep(ks, clock, DedupKey(e), ttlMs, e.fingerprint, e.json.value, AlertNameOrFallback(e))
    else
      ResolvedStep(ks, clock, DedupKey(e), ttlMs, e.fingerprint)
  }

  function CallStep(ks: Keyspace, clock: int, ttlMs: int, e: Event, fault: Fault): (Keyspace, CallResult)
    requires ValidEvent(e) && (e.status == FIRING ==> e.json.Some?)
  {
    var (after, reply) := ScriptStep(ks, clock, ttlMs, e);
    match fault
    case Refused => (ks, CallError)
    case ReplyLost => (after, CallError)
    case Panicking(applied) => (if applied then after else ks, CallPanic)
    case Healthy => (after, if reply.Done? then Answer(reply.n == 1) else CallError)
  }

  /** New key space, outcome, and the result tag reported (none when the call panicked). */
  function ProcessStep(ks: Keyspace, clock: int, ttlMs: int, e: Event, fault: Fault)
    : (Keyspace, Outcome, Option<string>)
  {
    if !ValidEvent(e) then (ks, Permanent, Some(FAILED))
    else if e.status == FIRING && e.json.None? then (ks, Transient, Some(FAILED))
    else
      var (after, result) := CallStep(ks, clock, ttlMs, e, fault);
      match result
      case CallPanic => (after, Panicked, None)
      case CallError => (after, Transient, Some(FAILED))
      case Answer(stored) => (after, Success, Some(if stored then STORED else DEDUPED))
  }

  class Store {
    const server: Server
    const ttlNs: int
    var observed: Counters

    ghost predicate Valid()
      reads this, server
    {
      ttlNs > 0 && server.Valid()
    }

    constructor (server: Server, configuredTtlNs: int)
      requires server.Valid()
      ensures Valid() && this.server == server && ttlNs == TtlNs(configuredTtlNs) && observed == map[]
    {
      this.server := server;
      ttlNs := if configuredTtlNs <= 0 then DEFAULT_TTL_NS else configuredTtlNs;
      observed := map[];
    }

    method Observe(status: string, result: string)
      modifies this`observed
      ensures observed == Bump(old(observed), (NormalizeStatus(status), result))
    {
      observed := Bump(observed, (NormalizeStatus(status), result));
    }

    method Apply(e: Event, fault: Fault) returns (r: CallResult)
      requires Valid() && ValidEvent(e) && (e.status == FIRING ==> e.json.Some?)
      modifies server`keys
      ensures Valid()
      ensures (server.keys, r) == CallStep(old(server.keys), server.clock, Milliseconds(ttlNs), e, fault)
    {
      if fault == Refused {
        return CallError;
      }
      if fault == Panicking(false) {
        return CallPanic;
      }
      DedupKeyApart(e);
      hide FiringStep, ResolvedStep, DedupKey;
      var reply;
      if e.status == FIRING {
        reply := server.ApplyFiringScript(DedupKey(e), Milliseconds(ttlNs), e.fingerprint, e.json.value,
                                          AlertNameOrFallback(e));
      } else {
        reply := server.ApplyResolvedScript(DedupKey(e), Milliseconds(ttlNs), e.fingerprint);
      }
      match fault {
        case ReplyLost => r := CallError;
        case Panicking(_) => r := CallPanic;
        case Healthy => r := if reply.Done? then Answer(reply.n == 1) else CallError;
      }
    }

    method Process(e: Event, fault: Fault) returns (outcome: Outcome)
      requires Valid()
      modifies this`observed, server`keys
      ensures Valid()
      ensures var (keys, result, tag) :=
                ProcessStep(old(server.keys), server.clock, Milliseconds(ttlNs), e, fault);
              && server.keys == keys && outcome == result
              && observed == BumpIf(old(observed), e.status, tag)
    {
      hide CallStep;
      if !ValidEvent(e) {
        Observe(e.status, FAILED);
        return Permanent;
      }
      if e.status == FIRING && e.json.None? {
        Observe(e.status, FAILED);
        return Transient;
      }
      var r := Apply(e, fault);
      match r {
        case CallPanic =>
          outcome := Panicked;
        case CallError =>
          Observe(e.status, FAILED);
          outcome := Transient;
        case Answer(stored) =>
          Observe(e.status, if stored then STORED else DEDUPED);
          outcome := Success;
      }
    }
  }

  // ---- The consumer ----

  /** A Kafka message; body is None when its bytes are not a JSON event. */
  datatype Message = Message(offset: int, body: Option<Event>)

  /** One delivery: the time since the one before, the message, and what goes wrong. */
  datatype Step = Step(wait: nat, message: Message, fault: Fault, markPanics: bool)

  datatype World = World(keys: Keyspace, clock: int, observed: Counters,
                         results: Tally, marked: set<int>)

  function Advance(w: World, wait: nat): World {
    w.(clock := w.clock + wait, keys := Live(w.keys, w.clock + wait))
  }

  /** What handling the message reports first, before its offset is marked. */
  function ResultOf(w: World, ttlMs: int, m: Message, fault: Fault): MessageResult {
    if m.body.None? then InvalidJson
    else match ProcessStep(w.keys, w.clock, ttlMs, m.body.value, fault).1
      case Success => Processed
      case Permanent => PermanentError
      case Transient => ProcessError
      case Panicked => ProcessError
  }

  /** One message handled: the store's effect, the counters, the mark; a panic while marking adds one more error. */
  function Handle(w: World, ttlMs: int, m: Message, fault: Fault, markPanics: bool): World {
    var result := ResultOf(w, ttlMs, m, fault);
    var (keys, tag) :=
      if m.body.None? then (w.keys, None)
      else var (k, _, l) := ProcessStep(w.keys, w.clock, ttlMs, m.body.value, fault); (k, l);
    w.(keys := keys,
       observed := if m.body.Some? then BumpIf(w.observed, m.body.value.status, tag) else w.observed,
       results := if result != ProcessError && markPanics then w.results.Add(result).Add(ProcessError)
                  else w.results.Add(result),
       marked := if result != ProcessError && !markPanics then w.marked + {m.offset} else w.marked)
  }

  function TakeStep(w: World, ttlMs: int, s: Step): World {
    Handle(Advance(w, s.wait), ttlMs, s.message, s.fault, s.markPanics)
  }

  function Run(w: World, ttlMs: int, steps: seq<Step>): World {
    if steps == [] then w
    else TakeStep(Run(w, ttlMs, steps[..|steps| - 1]), ttlMs, steps[|steps| - 1])
  }

  class Consumer {
    const store: Store
    var results: Tally
    var marked: set<int>

    ghost predicate Valid()
      reads this, store, store.server
    {
      store.Valid()
    }

    ghost function View(): World
      reads this, store, store.server
    {
      World(store.server.keys, store.server.clock, store.observed, results, marked)
    }

    constructor (store: Store)
      requires store.Valid()
      ensures Valid() && this.store == store && results == Tally(0, 0, 0, 0) && marked == {}
    {
      this.store := store;
      results, marked := Tally(0, 0, 0, 0), {};
    }

    /** Marks the offset unless marking panics; the recovered panic is reported as a processing error. */
    method Mark(offset: int, panics: bool)
      modifies this
      ensures if panics then marked == old(marked) && results == old(results).Add(ProcessError)
              else marked == old(marked) + {offset} && results == old(results)
    {
      if panics {
        results := results.Add(ProcessError);
      } else {
        marked := marked + {offset};
      }
    }

    method ProcessMessage(m: Message, fault: Fault, markPanics: bool)
      requires Valid()
      modifies this, store`observed, store.server`keys
      ensures Valid() && View() == Handle(old(View()), Milliseconds(store.ttlNs), m, fault, markPanics)
    {
      hide ProcessStep;
      if m.body.None? {
        results := results.Add(InvalidJson);
        Mark(m.offset, markPanics);
        return;
      }
      var outcome := store.Process(m.body.value, fault);
      match outcome {
        case Success =>
          results := results.Add(Processed);
          Mark(m.offset, markPanics);
        case Permanent =>
          results := results.Add(PermanentError);
          Mark(m.offset, markPanics);
        case Transient =>
          results := results.Add(ProcessError);
        case Panicked =>
          results := results.Add(ProcessError);
      }
    }

    /** The claim's loop; time passes before each delivery. */
    method ConsumeClaim(steps: seq<Step>)
      requires Valid()
      modifies this, store`observed, store.server
      ensures Valid() && View() == Run(old(View()), Milliseconds(store.ttlNs), steps)
    {
      hide Handle;
      for i := 0 to |steps|
        invariant Valid() && View() == Run(old(View()), Milliseconds(store.ttlNs), steps[..i])
      {
        store.server.Tick(steps[i].wait);
        ProcessMessage(steps[i].message, steps[i].fault, steps[i].markPanics);
        assert steps[..i + 1][..i] == steps[..i];
      }
      assert steps[..|steps|] == steps;
    }
  }

  // ---- Accounting over any run ----

  function Labelled(observed: Counters, tag: string): nat {
    CountOf(observed, (FIRING, tag)) + CountOf(observed, (RESOLVED, tag)) + CountOf(observed, ("unknown", tag))
  }

  function Messages(results: Tally): nat {
    results.processed + results.invalidJson + results.permanentError + results.processError
  }

  /** How many steps of the run panicked inside the store, and how many while marking. */
  function Panics(w: World, ttlMs: int, steps: seq<Step>): (nat, nat) {
    if steps == [] then (0, 0)
    else
      var front, s := steps[..|steps| - 1], steps[|steps| - 1];
      var (inStore, inMark) := Panics(w, ttlMs, front);
      var before := Advance(Run(w, ttlMs, front), s.wait);
      (inStore + (if s.message.body.Some?
                     && ProcessStep(before.keys, before.clock, ttlMs, s.message.body.value, s.fault).1 == Panicked
                  then 1 else 0),
       inMark + (if ResultOf(before, ttlMs, s.message, s.fault) != ProcessError && s.markPanics then 1 else 0))
  }

  predicate Balanced(w: World, messages: nat, inStore: nat, inMark: nat) {
    && Messages(w.results) == messages + inMark
    && w.results.processed == Labelled(w.observed, STORED) + Labelled(w.observed, DEDUPED)
    && w.results.permanentError + w.results.processError == Labelled(w.observed, FAILED) + inStore + inMark
  }

  lemma BumpCounts(c: Counters, status: string, tag: string, other: string)
    ensures Labelled(Bump(c, (NormalizeStatus(status), tag)), other)
         == Labelled(c, other) + if tag == other then 1 else 0
  {
  }

  /** A call that returned reported exactly one tag, and which kind it is says how the message ends. */
  lemma TagTells(w: World, ttlMs: int, e: Event, fault: Fault)
    ensures var (_, outcome, tag) := ProcessStep(w.keys, w.clock, ttlMs, e, fault);
            && (outcome == Success <==> tag == Some(STORED) || tag == Some(DEDUPED))
            && (outcome == Permanent || outcome == Transient <==> tag == Some(FAILED))
            && (outcome == Panicked <==> tag.None?)
  {
    hide CallStep;
  }

  lemma HandleBalances(w: World, ttlMs: int, m: Message, fault: Fault, markPanics: bool,
                       messages: nat, inStore: nat, inMark: nat)
    requires Balanced(w, messages, inStore, inMark)
    ensures Balanced(Handle(w, ttlMs, m, fault, markPanics), messages + 1,
                     inStore + (if m.body.Some? && ProcessStep(w.keys, w.clock, ttlMs, m.body.value, fault).1 == Panicked
                                then 1 else 0),
                     inMark + (if ResultOf(w, ttlMs, m, fault) != ProcessError && markPanics then 1 else 0))
  {
    hide ProcessStep, Labelled, Bump;
    if m.body.Some? {
      var e := m.body.value;
      TagTells(w, ttlMs, e, fault);
      var tag := ProcessStep(w.keys, w.clock, ttlMs, e, fault).2;
      if tag.Some? {
        BumpCounts(w.observed, e.status, tag.value, STORED);
        BumpCounts(w.observed, e.status, tag.value, DEDUPED);
        BumpCounts(w.observed, e.status, tag.value, FAILED);
      }
    }
  }

  /**
   * Every message is counted once, plus once for each panic while marking; successes are the stored and the
   * deduplicated events; errors are the failed events and the panics.
   */
  lemma {:induction false} Accounting(w: World, ttlMs: int, steps: seq<Step>)
    requires Balanced(w, 0, 0, 0)
    ensures var (inStore, inMark) := Panics(w, ttlMs, steps);
            Balanced(Run(w, ttlMs, steps), |steps|, inStore, inMark)
  {
    if steps != [] {
      var front, s := steps[..|steps| - 1], steps[|steps| - 1];
      Accounting(w, ttlMs, front);
      var (inStore, inMark) := Panics(w, ttlMs, front);
      hide Handle, ProcessStep;
      HandleBalances(Advance(Run(w, ttlMs, front), s.wait), ttlMs, s.message, s.fault, s.markPanics,
                     |front|, inStore, inMark);
    }
  }

  /** The step finishes its message for good: bad JSON, a permanent error or a success, with the mark not failing. */
  predicate Finishes(w: World, ttlMs: int, s: Step) {
    !s.markPanics && ResultOf(Advance(w, s.wait), ttlMs, s.message, s.fault) != ProcessError
  }

  lemma MarkedAfter(w: World, ttlMs: int, steps: seq<Step>)
    requires steps != []
    ensures var before := Run(w, ttlMs, steps[..|steps| - 1]);
            var s := steps[|steps| - 1];
            Run(w, ttlMs, steps).marked
            == if Finishes(before, ttlMs, s) then before.marked + {s.message.offset} else before.marked
  {
    hide ProcessStep, ResultOf;
  }

  /** Step i of the run finished a message of the offset. */
  predicate FinishedAt(w: World, ttlMs: int, steps: seq<Step>, offset: int, i: int) {
    0 <= i < |steps| && steps[i].message.offset == offset && Finishes(Run(w, ttlMs, steps[..i]), ttlMs, steps[i])
  }

  lemma FinishedEarlier(w: World, ttlMs: int, steps: seq<Step>, offset: int, n: nat)
    requires n <= |steps|
    ensures forall i :: i < n ==> (FinishedAt(w, ttlMs, steps[..n], offset, i) <==> FinishedAt(w, ttlMs, steps, offset, i))
  {
    hide Run, Finishes;
    assert forall i :: 0 <= i < n ==> steps[..n][..i] == steps[..i];
  }

  /** Exactly the offsets of finished messages are marked, over any run. */
  lemma {:induction false} MarkedIffFinished(w: World, ttlMs: int, steps: seq<Step>, offset: int)
    ensures offset in Run(w, ttlMs, steps).marked
       <==> offset in w.marked || exists i :: FinishedAt(w, ttlMs, steps, offset, i)
  {
    if steps != [] {
      var n := |steps| - 1;
      MarkedIffFinished(w, ttlMs, steps[..n], offset);
      MarkedAfter(w, ttlMs, steps);
      FinishedEarlier(w, ttlMs, steps, offset, n);
      hide Run, Finishes;
      assert FinishedAt(w, ttlMs, steps, offset, n)
        <==> steps[n].message.offset == offset && Finishes(Run(w, ttlMs, steps[..n]), ttlMs, steps[n]);
      assert forall i :: FinishedAt(w, ttlMs, steps, offset, i) ==> i <= n;
      assert forall i :: FinishedAt(w, ttlMs, steps[..n], offset, i) ==> i < n;
      hide FinishedAt;
    }
  }

  // ---- What ends a message, said without the store ----

  /** The message is an event that no retry can make acceptable. */
  predicate Unacceptable(m: Message) {
    m.body.Some? && (m.body.value.fingerprint == "" || m.body.value.status !in {"firing", "resolved"})
  }

  /** The message is an event that gets as far as a Redis call. */
  predicate Callable(m: Message) {
    m.body.Some? && !Unacceptable(m) && (m.body.value.status == "firing" ==> m.body.value.json.Some?)
  }

  /** The call of the delivery was answered, and its dedup key is there right afterwards. */
  predicate Answered(w: World, ttlMs: int, s: Step) {
    Callable(s.message) && s.fault == Healthy && DedupKey(s.message.body.value) in TakeStep(w, ttlMs, s).keys
  }

  /** And the key was not there right before. */
  predicate AnsweredFirst(w: World, ttlMs: int, s: Step) {
    Answered(w, ttlMs, s) && DedupKey(s.message.body.value) !in Advance(w, s.wait).keys
  }

  /** A script that is done leaves the key behind, and one that failed does not. */
  lemma DoneLeavesKey(ks: Keyspace, clock: int, ttlMs: int, e: Event)
    requires ValidEvent(e) && (e.status == FIRING ==> e.json.Some?)
    ensures var (after, reply) := ScriptStep(ks, clock, ttlMs, e);
            && (reply.Done? <==> DedupKey(e) in after)
            && (reply == Done(1) <==> DedupKey(e) in after && DedupKey(e) !in ks)
            && (reply == Done(0) <==> DedupKey(e) in ks)
            && (reply.Done? ==> reply.n == 0 || reply.n == 1)
  {
    DedupKeyApart(e);
    hide DedupKey, AlertNameOrFallback, ParseCounter, FormatInt;
  }

  /** Which outcome and which tag a delivery gets. */
  lemma OutcomeIs(ks: Keyspace, clock: int, ttlMs: int, m: Message, fault: Fault)
    requires m.body.Some?
    ensures var e := m.body.value;
            var (after, outcome, tag) := ProcessStep(ks, clock, ttlMs, e, fault);
            && (outcome == Permanent <==> Unacceptable(m))
            && (outcome == Success <==> Callable(m) && fault == Healthy && DedupKey(e) in after)
            && (tag == Some("stored")
                <==> Callable(m) && fault == Healthy && DedupKey(e) in after && DedupKey(e) !in ks)
            && (tag == Some("deduped") <==> Callable(m) && fault == Healthy && DedupKey(e) in ks)
            && (tag == Some("failed") <==> outcome == Permanent || outcome == Transient)
            && (outcome == Panicked <==> Callable(m) && fault.Panicking?)
  {
    var e := m.body.value;
    if ValidEvent(e) && (e.status == FIRING ==> e.json.Some?) {
      DoneLeavesKey(ks, clock, ttlMs, e);
    }
    hide ScriptStep, DedupKey;
  }

  lemma TakenKeys(w: World, ttlMs: int, s: Step)
    requires s.message.body.Some?
    ensures var b := Advance(w, s.wait);
            TakeStep(w, ttlMs, s).keys == ProcessStep(b.keys, b.clock, ttlMs, s.message.body.value, s.fault).0
  {
    hide ProcessStep, ResultOf, BumpIf;
  }

  lemma ResultIs(w: World, ttlMs: int, s: Step)
    ensures var result := ResultOf(Advance(w, s.wait), ttlMs, s.message, s.fault);
            && (result == InvalidJson <==> s.message.body.None?)
            && (result == PermanentError <==> Unacceptable(s.message))
            && (result == Processed <==> Answered(w, ttlMs, s))
  {
    if s.message.body.Some? {
      var b := Advance(w, s.wait);
      OutcomeIs(b.keys, b.clock, ttlMs, s.message, s.fault);
      TakenKeys(w, ttlMs, s);
      hide ProcessStep, DedupKey, TakeStep;
    }
  }

  /** Delivery i of the run was of the offset and ended it: bad JSON, an unacceptable event, or one that was answered. */
  predicate EndedAt(w: World, ttlMs: int, steps: seq<Step>, offset: int, i: int) {
    && 0 <= i < |steps| && steps[i].message.offset == offset && !steps[i].markPanics
    && (steps[i].message.body.None? || Unacceptable(steps[i].message)
        || Answered(Run(w, ttlMs, steps[..i]), ttlMs, steps[i]))
  }

  /** Over any run an offset is marked for one of these three reasons and for no other; a refused call never marks. */
  lemma MarkedExactly(w: World, ttlMs: int, steps: seq<Step>, offset: int)
    ensures offset in Run(w, ttlMs, steps).marked
       <==> offset in w.marked || exists i :: EndedAt(w, ttlMs, steps, offset, i)
  {
    MarkedIffFinished(w, ttlMs, steps, offset);
    forall i ensures FinishedAt(w, ttlMs, steps, offset, i) <==> EndedAt(w, ttlMs, steps, offset, i) {
      if 0 <= i < |steps| {
        ResultIs(Run(w, ttlMs, steps[..i]), ttlMs, steps[i]);
        hide Run, ResultOf, Answered, Unacceptable;
      }
    }
    hide FinishedAt, EndedAt, Run;
  }

  function BadJson(steps: seq<Step>): nat {
    if steps == [] then 0
    else BadJson(steps[..|steps| - 1]) + if steps[|steps| - 1].message.body.None? then 1 else 0
  }

  function Unacceptables(steps: seq<Step>): nat {
    if steps == [] then 0
    else Unacceptables(steps[..|steps| - 1]) + if Unacceptable(steps[|steps| - 1].message) then 1 else 0
  }

  function Answers(w: World, ttlMs: int, steps: seq<Step>): nat {
    if steps == [] then 0
    else
      Answers(w, ttlMs, steps[..|steps| - 1])
      + if Answered(Run(w, ttlMs, steps[..|steps| - 1]), ttlMs, steps[|steps| - 1]) then 1 else 0
  }

  function FirstAnswers(w: World, ttlMs: int, steps: seq<Step>): nat {
    if steps == [] then 0
    else
      FirstAnswers(w, ttlMs, steps[..|steps| - 1])
      + if AnsweredFirst(Run(w, ttlMs, steps[..|steps| - 1]), ttlMs, steps[|steps| - 1]) then 1 else 0
  }

  lemma StepCounts(w: World, ttlMs: int, s: Step)
    ensures var t := TakeStep(w, ttlMs, s);
            && t.results.invalidJson == w.results.invalidJson + (if s.message.body.None? then 1 else 0)
            && t.results.permanentError == w.results.permanentError + (if Unacceptable(s.message) then 1 else 0)
            && t.results.processed == w.results.processed + (if Answered(w, ttlMs, s) then 1 else 0)
            && Labelled(t.observed, "stored")
               == Labelled(w.observed, "stored") + (if AnsweredFirst(w, ttlMs, s) then 1 else 0)
  {
    ResultIs(w, ttlMs, s);
    if s.message.body.Some? {
      var e, b := s.message.body.value, Advance(w, s.wait);
      OutcomeIs(b.keys, b.clock, ttlMs, s.message, s.fault);
      TakenKeys(w, ttlMs, s);
      var tag := ProcessStep(b.keys, b.clock, ttlMs, e, s.fault).2;
      hide ProcessStep, ResultOf, DedupKey, Labelled, Bump, Unacceptable, Callable;
      if tag.Some? {
        BumpCounts(w.observed, e.status, tag.value, "stored");
      }
    }
    hide ProcessStep, ResultOf, DedupKey, Labelled, Bump;
  }

  /** What each counter counts: bad messages, unacceptable events, answered calls, and calls that were answered first. */
  lemma {:induction false} CountersCount(w: World, ttlMs: int, steps: seq<Step>)
    ensures var t := Run(w, ttlMs, steps);
            && t.results.invalidJson == w.results.invalidJson + BadJson(steps)
            && t.results.permanentError == w.results.permanentError + Unacceptables(steps)
            && t.results.processed == w.results.processed + Answers(w, ttlMs, steps)
            && Labelled(t.observed, "stored") == Labelled(w.observed, "stored") + FirstAnswers(w, ttlMs, steps)
  {
    hide TakeStep, Labelled, Unacceptable, Answered, AnsweredFirst;
    if steps != [] {
      CountersCount(w, ttlMs, steps[..|steps| - 1]);
      StepCounts(Run(w, ttlMs, steps[..|steps| - 1]), ttlMs, steps[|steps| - 1]);
    }
  }

  /** A delivery that reports a tag raises the counter of its own status and of that tag by one, and no other. */
  lemma OneCounterGrows(w: World, ttlMs: int, s: Step, labels: (string, string))
    requires s.message.body.Some?
    ensures var (e, b) := (s.message.body.value, Advance(w, s.wait));
            var tag := ProcessStep(b.keys, b.clock, ttlMs, e, s.fault).2;
            var status := if e.status in {"firing", "resolved"} then e.status else "unknown";
            CountOf(TakeStep(w, ttlMs, s).observed, labels)
            == CountOf(w.observed, labels) + (if tag.Some? && labels == (status, tag.value) then 1 else 0)
  {
    hide ProcessStep, ResultOf;
  }

  lemma UndecodedObservesNothing(w: World, ttlMs: int, s: Step)
    requires s.message.body.None?
    ensures TakeStep(w, ttlMs, s).observed == w.observed && TakeStep(w, ttlMs, s).keys == Advance(w, s.wait).keys
  {
  }
}
