/**
 * At-least-once delivery with a dedup key that lives for a while has an exactly-once effect:
 * the active alerts and the counters are a plain fold over the first applied delivery of each key.
 */
module ExactlyOnce {
  import opened Strings
  import opened TimeFormat
  import opened DedupKeys
  import opened RedisStore
  import opened AlertService

  /** The intended state: no types, no deadlines, no undoing; done says when each key was applied. */
  datatype Ideal = Ideal(active: map<string, string>, counts: map<string, int>, done: map<string, int>)

  /** An event the encoder accepts, so far as its handling needs the encoding. */
  type Encoded = e: Event | e.status == FIRING ==> e.json.Some? witness Event("", "", map[], ZERO, ZERO, None)

  function CountAt(counts: map<string, int>, name: string): int {
    if name in counts then counts[name] else 0
  }

  /** The event of a delivery that gets as far as Redis. */
  function Arriving(s: Step): Option<Encoded> {
    match s.message.body
    case None => None
    case Some(e) =>
      if ValidEvent(e) && (e.status == FIRING ==> e.json.Some?) && s.fault != Refused && s.fault != Panicking(false)
      then Some(e) else None
  }

  function ApplyOnce(i: Ideal, clock: int, e: Encoded): Ideal {
    if DedupKey(e) in i.done then i
    else if e.status != FIRING then
      Ideal(i.active - {e.fingerprint}, i.counts, i.done[DedupKey(e) := clock])
    else if CountAt(i.counts, AlertNameOrFallback(e)) == MAX_INT64 then i
    else
      Ideal(i.active[e.fingerprint := e.json.value],
            i.counts[AlertNameOrFallback(e) := CountAt(i.counts, AlertNameOrFallback(e)) + 1],
            i.done[DedupKey(e) := clock])
  }

  function IdealStep(i: Ideal, clock: int, s: Step): Ideal {
    if Arriving(s).Some? then ApplyOnce(i, clock, Arriving(s).value) else i
  }

  function ClockAfter(clock: int, steps: seq<Step>): int {
    if steps == [] then clock else ClockAfter(clock, steps[..|steps| - 1]) + steps[|steps| - 1].wait
  }

  function IdealRun(i: Ideal, clock: int, steps: seq<Step>): Ideal {
    if steps == [] then i
    else IdealStep(IdealRun(i, clock, steps[..|steps| - 1]), ClockAfter(clock, steps), steps[|steps| - 1])
  }

  /** The delivery comes before the dedup key of its first applied delivery runs out. */
  predicate OnTime(i: Ideal, clock: int, ttlMs: int, s: Step) {
    Arriving(s).Some? && DedupKey(Arriving(s).value) in i.done ==> clock <= i.done[DedupKey(Arriving(s).value)] + ttlMs
  }

  /** Every redelivery of the run is on time; a condition on the schedule alone. */
  predicate Timely(i: Ideal, clock: int, ttlMs: int, steps: seq<Step>) {
    steps != [] ==>
      && Timely(i, clock, ttlMs, steps[..|steps| - 1])
      && OnTime(IdealRun(i, clock, steps[..|steps| - 1]), ClockAfter(clock, steps), ttlMs, steps[|steps| - 1])
  }

  // ---- The server state an ideal state stands for ----

  predicate Permanent(ks: Keyspace, key: string) {
    key in ks ==> ks[key].deadline.None?
  }

  predicate Counts(fields: map<string, string>, counts: map<string, int>) {
    && fields.Keys == counts.Keys
    && forall f :: f in fields ==> ParseCounter(fields[f]) == Some(counts[f])
  }

  predicate Remembers(ks: Keyspace, clock: int, ttlMs: int, done: map<string, int>) {
    && (forall k :: k in ks && IsDedupKey(k) ==> k in done && ks[k].deadline == Some(done[k] + ttlMs))
    && (forall k :: k in done ==> IsDedupKey(k))
    && (forall k :: k in done && clock <= done[k] + ttlMs ==> k in ks)
  }

  ghost predicate Stands(ks: Keyspace, clock: int, ttlMs: int, i: Ideal) {
    && WellFormed(ks) && AllLive(ks, clock)
    && Permanent(ks, ACTIVE) && Permanent(ks, STATS)
    && FieldsAt(ks, ACTIVE) == Some(i.active)
    && FieldsAt(ks, STATS).Some? && Counts(FieldsAt(ks, STATS).value, i.counts)
    && Remembers(ks, clock, ttlMs, i.done)
  }

  /** A server nobody has sent an event to: any hash of alerts and counters, no dedup key. */
  ghost predicate Fresh(ks: Keyspace, clock: int, active: map<string, string>, counts: map<string, int>) {
    && WellFormed(ks) && AllLive(ks, clock)
    && Permanent(ks, ACTIVE) && Permanent(ks, STATS)
    && FieldsAt(ks, ACTIVE) == Some(active)
    && FieldsAt(ks, STATS).Some? && Counts(FieldsAt(ks, STATS).value, counts)
    && (forall k :: k in ks ==> !IsDedupKey(k))
  }

  lemma TimePasses(ks: Keyspace, clock: int, wait: nat, ttlMs: int, i: Ideal)
    requires Stands(ks, clock, ttlMs, i)
    ensures Stands(Live(ks, clock + wait), clock + wait, ttlMs, i)
  {
    hide ParseCounter, IsDedupKey;
  }

  /** Writing a hash leaves every other key, and the deadline of its own, alone. */
  lemma WriteHash(ks: Keyspace, clock: int, key: string, fields: map<string, string>)
    requires WellFormed(ks) && AllLive(ks, clock) && FieldsAt(ks, key).Some? && Permanent(ks, key)
    ensures var after := WithFields(ks, key, fields);
            && WellFormed(after) && AllLive(after, clock) && Permanent(after, key)
            && FieldsAt(after, key) == Some(fields)
            && forall k :: k != key ==> (k in after <==> k in ks) && (k in ks ==> after[k] == ks[k])
  {
  }

  lemma CountOnce(fields: map<string, string>, counts: map<string, int>, name: string)
    requires Counts(fields, counts)
    ensures CounterAt(fields, name) == Some(CountAt(counts, name))
    ensures CountAt(counts, name) != MAX_INT64 ==>
              Counts(fields[name := FormatInt(CountAt(counts, name) + 1)], counts[name := CountAt(counts, name) + 1])
  {
    if CountAt(counts, name) != MAX_INT64 {
      if name in fields {
        CounterText(fields[name], counts[name]);
      }
      CounterText(FormatInt(CountAt(counts, name) + 1), CountAt(counts, name) + 1);
    }
    hide ParseCounter, FormatInt;
  }

  lemma PutActive(ks: Keyspace, clock: int, ttlMs: int, i: Ideal, active: map<string, string>)
    requires Stands(ks, clock, ttlMs, i)
    ensures Stands(WithFields(ks, ACTIVE, active), clock, ttlMs, i.(active := active))
  {
    ApartFromDedup();
    WriteHash(ks, clock, ACTIVE, active);
    hide WithFields, IsDedupKey, ParseCounter, Counts;
  }

  lemma PutStats(ks: Keyspace, clock: int, ttlMs: int, i: Ideal, stats: map<string, string>, counts: map<string, int>)
    requires Stands(ks, clock, ttlMs, i) && Counts(stats, counts)
    ensures Stands(WithFields(ks, STATS, stats), clock, ttlMs, i.(counts := counts))
  {
    ApartFromDedup();
    WriteHash(ks, clock, STATS, stats);
    hide WithFields, IsDedupKey, ParseCounter, Counts;
  }

  /** The server after one application stands for the ideal state after one application. */
  lemma Applied(ks: Keyspace, clock: int, ttlMs: int, i: Ideal, e: Encoded)
    requires Stands(ks, clock, ttlMs, i) && ttlMs >= 1
    requires ValidEvent(e) && DedupKey(e) !in ks && DedupKey(e) !in i.done
    ensures Stands(ScriptStep(ks, clock, ttlMs, e).0, clock, ttlMs, ApplyOnce(i, clock, e))
  {
    DedupKeyApart(e);
    var key, name := DedupKey(e), AlertNameOrFallback(e);
    hide DedupKey, AlertNameOrFallback, ParseCounter, FormatInt, WithFields, IsDedupKey, CounterAt, Counts, Remembers,
      WellFormed, AllLive, Permanent;
    if e.status == FIRING {
      CountOnce(FieldsAt(ks, STATS).value, i.counts, name);
      if CountAt(i.counts, name) != MAX_INT64 {
        var active := i.active[e.fingerprint := e.json.value];
        PutActive(ks, clock, ttlMs, i, active);
        OtherKeysStay(ks, ACTIVE, active, STATS);
        var stats := FieldsAt(ks, STATS).value[name := FormatInt(CountAt(i.counts, name) + 1)];
        var counts := i.counts[name := CountAt(i.counts, name) + 1];
        PutStats(WithFields(ks, ACTIVE, active), clock, ttlMs, i.(active := active), stats, counts);
        Remembered(Fire(ks, e.fingerprint, e.json.value, name), clock, ttlMs, key, Ideal(active, counts, i.done));
      }
    } else {
      PutActive(ks, clock, ttlMs, i, i.active - {e.fingerprint});
      Remembered(Resolve(ks, e.fingerprint), clock, ttlMs, key, i.(active := i.active - {e.fingerprint}));
    }
  }

  lemma ApartFromDedup()
    ensures !IsDedupKey(ACTIVE) && !IsDedupKey(STATS)
  {
    assert ACTIVE[6] == 'a' && STATS[6] == 's' && "alert:dedup:"[6] == 'd';
  }

  lemma Remembered(ks: Keyspace, clock: int, ttlMs: int, key: string, i: Ideal)
    requires Stands(ks, clock, ttlMs, i) && ttlMs >= 1 && key != ACTIVE && key != STATS && IsDedupKey(key)
    requires key !in i.done
    ensures Stands(Remember(ks, key, clock + ttlMs), clock, ttlMs, i.(done := i.done[key := clock]))
  {
    hide ParseCounter, IsDedupKey;
  }

  /** Handling a step, seen from the key space only. */
  function KeysAfter(ks: Keyspace, clock: int, ttlMs: int, s: Step): Keyspace {
    if Arriving(s).Some? then ScriptStep(ks, clock, ttlMs, Arriving(s).value).0 else ks
  }

  lemma HandleKeys(w: World, ttlMs: int, s: Step)
    ensures TakeStep(w, ttlMs, s).keys == KeysAfter(Live(w.keys, w.clock + s.wait), w.clock + s.wait, ttlMs, s)
    ensures TakeStep(w, ttlMs, s).clock == w.clock + s.wait
  {
    hide FiringStep, ResolvedStep, DedupKey, AlertNameOrFallback;
  }

  lemma DuplicateChangesNothing(ks: Keyspace, clock: int, ttlMs: int, e: Encoded)
    requires ValidEvent(e) && DedupKey(e) in ks
    ensures ScriptStep(ks, clock, ttlMs, e) == (ks, Done(0))
  {
    hide DedupKey, AlertNameOrFallback;
  }

  lemma OneStep(ks: Keyspace, clock: int, ttlMs: int, i: Ideal, s: Step)
    requires Stands(ks, clock, ttlMs, i) && ttlMs >= 1 && OnTime(i, clock, ttlMs, s)
    ensures Stands(KeysAfter(ks, clock, ttlMs, s), clock, ttlMs, IdealStep(i, clock, s))
  {
    if Arriving(s).Some? {
      var e := Arriving(s).value;
      DedupKeyApart(e);
      hide DedupKey, AlertNameOrFallback, ScriptStep;
      if DedupKey(e) in i.done {
        DuplicateChangesNothing(ks, clock, ttlMs, e);
      } else {
        Applied(ks, clock, ttlMs, i, e);
      }
    }
  }

  lemma StepTogether(w: World, ttlMs: int, i: Ideal, s: Step)
    requires Stands(w.keys, w.clock, ttlMs, i) && ttlMs >= 1 && OnTime(i, w.clock + s.wait, ttlMs, s)
    ensures var after := TakeStep(w, ttlMs, s);
            after.clock == w.clock + s.wait && Stands(after.keys, after.clock, ttlMs, IdealStep(i, after.clock, s))
  {
    HandleKeys(w, ttlMs, s);
    hide Stands, KeysAfter, TakeStep, IdealStep, OnTime;
    TimePasses(w.keys, w.clock, s.wait, ttlMs, i);
    OneStep(Live(w.keys, w.clock + s.wait), w.clock + s.wait, ttlMs, i, s);
  }

  /**
   * Any run of timely deliveries, with any duplicates, refused calls, lost replies and panics in between,
   * leaves the server standing for the ideal run.
   */
  lemma {:induction false} RunIsIdeal(w: World, ttlMs: int, i: Ideal, steps: seq<Step>)
    requires Stands(w.keys, w.clock, ttlMs, i) && ttlMs >= 1 && Timely(i, w.clock, ttlMs, steps)
    ensures var after := Run(w, ttlMs, steps);
            && after.clock == ClockAfter(w.clock, steps)
            && Stands(after.keys, after.clock, ttlMs, IdealRun(i, w.clock, steps))
  {
    hide Stands, TakeStep, IdealStep, OnTime, Live;
    if steps != [] {
      var front, s := steps[..|steps| - 1], steps[|steps| - 1];
      RunIsIdeal(w, ttlMs, i, front);
      StepTogether(Run(w, ttlMs, front), ttlMs, IdealRun(i, w.clock, front), s);
    }
  }

  /** The script would count the event, were its key new. */
  predicate CanApply(i: Ideal, e: Encoded) {
    e.status == FIRING ==> CountAt(i.counts, AlertNameOrFallback(e)) != MAX_INT64
  }

  /**
   * The schedule condition cannot be weakened: an event that arrives again after its key ran out is applied again, so
   * a delivery keeps the server and the ideal state together exactly when it is on time or its counter is exhausted.
   */
  lemma OnTimeIsNeeded(ks: Keyspace, clock: int, ttlMs: int, i: Ideal, s: Step)
    requires Stands(ks, clock, ttlMs, i) && ttlMs >= 1 && Arriving(s).Some?
    ensures Stands(KeysAfter(ks, clock, ttlMs, s), clock, ttlMs, IdealStep(i, clock, s))
       <==> OnTime(i, clock, ttlMs, s) || !CanApply(i, Arriving(s).value)
  {
    var e := Arriving(s).value;
    DedupKeyApart(e);
    if OnTime(i, clock, ttlMs, s) {
      OneStep(ks, clock, ttlMs, i, s);
    } else if CanApply(i, e) {
      AppliedAgain(ks, clock, ttlMs, i, e);
      hide Stands, ScriptStep, DedupKey, AlertNameOrFallback, CanApply;
    } else {
      NotCounted(ks, clock, ttlMs, i, e);
      hide Stands, ScriptStep, DedupKey, AlertNameOrFallback;
    }
  }

  /** Applied again, the key is remembered from the later application on. */
  lemma AppliedAgain(ks: Keyspace, clock: int, ttlMs: int, i: Ideal, e: Encoded)
    requires Stands(ks, clock, ttlMs, i) && ttlMs >= 1 && ValidEvent(e) && CanApply(i, e)
    requires DedupKey(e) in i.done && clock > i.done[DedupKey(e)] + ttlMs
    ensures !Stands(ScriptStep(ks, clock, ttlMs, e).0, clock, ttlMs, i)
  {
    DedupKeyApart(e);
    var after := ScriptStep(ks, clock, ttlMs, e).0;
    assert DedupKey(e) !in ks;
    if e.status == FIRING {
      CountOnce(FieldsAt(ks, STATS).value, i.counts, AlertNameOrFallback(e));
    }
    hide DedupKey, AlertNameOrFallback, Counts, ParseCounter, FormatInt, WellFormed, AllLive, Permanent, WithFields;
    assert DedupKey(e) in after && after[DedupKey(e)].deadline == Some(clock + ttlMs);
  }

  lemma NotCounted(ks: Keyspace, clock: int, ttlMs: int, i: Ideal, e: Encoded)
    requires Stands(ks, clock, ttlMs, i) && ValidEvent(e) && !CanApply(i, e) && DedupKey(e) !in ks
    ensures ScriptStep(ks, clock, ttlMs, e).0 == ks
  {
    CountOnce(FieldsAt(ks, STATS).value, i.counts, AlertNameOrFallback(e));
    hide DedupKey, AlertNameOrFallback, Counts, ParseCounter, FormatInt, WellFormed, AllLive, Permanent, WithFields;
  }

  /**
   * A late firing event raises its counter once more and puts its alert back, also one resolved since: the active alerts
   * stay right exactly when the alert is still active as this event left it.
   */
  lemma LateFiringCountsAgain(ks: Keyspace, clock: int, ttlMs: int, i: Ideal, s: Step)
    requires Stands(ks, clock, ttlMs, i) && ttlMs >= 1 && !OnTime(i, clock, ttlMs, s)
    requires Arriving(s).value.status == FIRING
    requires CountAt(i.counts, AlertNameOrFallback(Arriving(s).value)) != MAX_INT64
    ensures var e := Arriving(s).value;
            var name, after := AlertNameOrFallback(e), KeysAfter(ks, clock, ttlMs, s);
            && IdealStep(i, clock, s) == i
            && FieldsAt(after, STATS).Some?
            && CounterAt(FieldsAt(after, STATS).value, name) == Some(CountAt(i.counts, name) + 1)
            && FieldsAt(after, ACTIVE) == Some(i.active[e.fingerprint := e.json.value])
            && (FieldsAt(after, ACTIVE) == Some(i.active)
                <==> e.fingerprint in i.active && i.active[e.fingerprint] == e.json.value)
  {
    hide OnTime, KeysAfter, IdealStep, Arriving, ScriptStep, DedupKey, AlertNameOrFallback, FieldsAt, CounterAt, Stands;
    LateIsApplied(ks, clock, ttlMs, i, s);
    FiredAgain(ks, clock, ttlMs, i, Arriving(s).value);
  }

  lemma FiredAgain(ks: Keyspace, clock: int, ttlMs: int, i: Ideal, e: Encoded)
    requires Stands(ks, clock, ttlMs, i) && ttlMs >= 1 && ValidEvent(e) && e.status == FIRING && DedupKey(e) !in ks
    requires CountAt(i.counts, AlertNameOrFallback(e)) != MAX_INT64
    ensures var name, after := AlertNameOrFallback(e), ScriptStep(ks, clock, ttlMs, e).0;
            && FieldsAt(after, STATS).Some?
            && CounterAt(FieldsAt(after, STATS).value, name) == Some(CountAt(i.counts, name) + 1)
            && FieldsAt(after, ACTIVE) == Some(i.active[e.fingerprint := e.json.value])
            && (FieldsAt(after, ACTIVE) == Some(i.active)
                <==> e.fingerprint in i.active && i.active[e.fingerprint] == e.json.value)
  {
    hide ScriptStep, DedupKey, AlertNameOrFallback, FormatInt, FieldsAt, CounterAt;
    StandsForCounts(ks, clock, ttlMs, i);
    hide Stands, Counts;
    StatsAfterFiring(ks, clock, ttlMs, i.counts, e);
    ActiveAfterFiring(ks, clock, ttlMs, i.counts, e);
    CountedOnceMore(FieldsAt(ks, STATS).value, i.counts, AlertNameOrFallback(e));
    SameEntry(i.active, e.fingerprint, e.json.value);
  }

  lemma SameEntry(m: map<string, string>, k: string, v: string)
    ensures m[k := v] == m <==> k in m && m[k] == v
  {
    assert k in m[k := v] && m[k := v][k] == v;
  }

  lemma ActiveAfterFiring(ks: Keyspace, clock: int, ttlMs: int, counts: map<string, int>, e: Encoded)
    requires ValidEvent(e) && e.status == FIRING && DedupKey(e) !in ks && ttlMs >= 1
    requires FieldsAt(ks, ACTIVE).Some? && FieldsAt(ks, STATS).Some? && Counts(FieldsAt(ks, STATS).value, counts)
    requires CountAt(counts, AlertNameOrFallback(e)) != MAX_INT64
    ensures FieldsAt(ScriptStep(ks, clock, ttlMs, e).0, ACTIVE)
         == Some(FieldsAt(ks, ACTIVE).value[e.fingerprint := e.json.value])
  {
    DedupKeyApart(e);
    CountOnce(FieldsAt(ks, STATS).value, counts, AlertNameOrFallback(e));
    var active := FieldsAt(ks, ACTIVE).value[e.fingerprint := e.json.value];
    assert e.fingerprint in active;
    hide DedupKey, AlertNameOrFallback, ParseCounter, FormatInt, Counts;
  }

  /** A late delivery finds no key and is applied, where the ideal state takes no notice of it. */
  lemma LateIsApplied(ks: Keyspace, clock: int, ttlMs: int, i: Ideal, s: Step)
    requires Stands(ks, clock, ttlMs, i) && !OnTime(i, clock, ttlMs, s)
    ensures Arriving(s).Some?
    ensures var e := Arriving(s).value;
            ValidEvent(e) && DedupKey(e) !in ks && KeysAfter(ks, clock, ttlMs, s) == ScriptStep(ks, clock, ttlMs, e).0
    ensures IdealStep(i, clock, s) == i
  {
    DedupKeyApart(Arriving(s).value);
    hide DedupKey, AlertNameOrFallback, ScriptStep, IsDedupKey, Counts;
  }

  lemma StandsForCounts(ks: Keyspace, clock: int, ttlMs: int, i: Ideal)
    requires Stands(ks, clock, ttlMs, i)
    ensures FieldsAt(ks, ACTIVE) == Some(i.active) && FieldsAt(ks, STATS).Some? && Counts(FieldsAt(ks, STATS).value, i.counts)
  {
  }

  lemma CountedOnceMore(fields: map<string, string>, counts: map<string, int>, name: string)
    requires Counts(fields, counts) && CountAt(counts, name) != MAX_INT64
    ensures CounterAt(fields[name := FormatInt(CountAt(counts, name) + 1)], name) == Some(CountAt(counts, name) + 1)
  {
    CountOnce(fields, counts, name);
    hide Counts, CounterAt, FormatInt;
    CountOnce(fields[name := FormatInt(CountAt(counts, name) + 1)], counts[name := CountAt(counts, name) + 1], name);
  }

  /**
   * A late resolved event removes its alert again, also one that has fired since: the active alerts stay right exactly
   * when the alert is not active.
   */
  lemma LateResolvedRemoves(ks: Keyspace, clock: int, ttlMs: int, i: Ideal, s: Step)
    requires Stands(ks, clock, ttlMs, i) && ttlMs >= 1 && !OnTime(i, clock, ttlMs, s)
    requires Arriving(s).value.status != FIRING
    ensures var fingerprint := Arriving(s).value.fingerprint;
            var after := KeysAfter(ks, clock, ttlMs, s);
            && IdealStep(i, clock, s) == i
            && FieldsAt(after, ACTIVE) == Some(i.active - {fingerprint})
            && FieldsAt(after, STATS) == FieldsAt(ks, STATS)
            && (FieldsAt(after, ACTIVE) == Some(i.active) <==> fingerprint !in i.active)
  {
    var e := Arriving(s).value;
    DedupKeyApart(e);
    assert DedupKey(e) !in ks && DedupKey(e) in i.done;
    OtherKeysStay(ks, ACTIVE, i.active - {e.fingerprint}, STATS);
    hide DedupKey, AlertNameOrFallback, Counts;
    if e.fingerprint in i.active {
      assert e.fingerprint !in i.active - {e.fingerprint};
    } else {
      assert i.active - {e.fingerprint} == i.active;
    }
  }

  lemma StatsAfterFiring(ks: Keyspace, clock: int, ttlMs: int, counts: map<string, int>, e: Encoded)
    requires ValidEvent(e) && e.status == FIRING && DedupKey(e) !in ks && ttlMs >= 1
    requires FieldsAt(ks, ACTIVE).Some? && FieldsAt(ks, STATS).Some? && Counts(FieldsAt(ks, STATS).value, counts)
    requires CountAt(counts, AlertNameOrFallback(e)) != MAX_INT64
    ensures var name := AlertNameOrFallback(e);
            FieldsAt(ScriptStep(ks, clock, ttlMs, e).0, STATS)
            == Some(FieldsAt(ks, STATS).value[name := FormatInt(CountAt(counts, name) + 1)])
  {
    DedupKeyApart(e);
    CountOnce(FieldsAt(ks, STATS).value, counts, AlertNameOrFallback(e));
    hide DedupKey, AlertNameOrFallback, ParseCounter, FormatInt, Counts;
  }

  // ---- The ideal run is a plain fold over first deliveries ----

  function Deliveries(steps: seq<Step>): seq<Encoded> {
    if steps == [] then []
    else Deliveries(steps[..|steps| - 1])
         + (if Arriving(steps[|steps| - 1]).Some? then [Arriving(steps[|steps| - 1]).value] else [])
  }

  function Keys(es: seq<Encoded>): set<string> {
    if es == [] then {} else Keys(es[..|es| - 1]) + {DedupKey(es[|es| - 1])}
  }

  /** The first event of each dedup key, in order. */
  function Firsts(es: seq<Encoded>): seq<Encoded> {
    if es == [] then []
    else
      var front, e := es[..|es| - 1], es[|es| - 1];
      if DedupKey(e) in Keys(front) then Firsts(front) else Firsts(front) + [e]
  }

  function FoldActive(active: map<string, string>, es: seq<Encoded>): map<string, string> {
    if es == [] then active
    else
      var before, e := FoldActive(active, es[..|es| - 1]), es[|es| - 1];
      if e.status == FIRING then before[e.fingerprint := e.json.value] else before - {e.fingerprint}
  }

  /** How many of the events count as firings of the name. */
  function Firings(es: seq<Encoded>, name: string): nat {
    if es == [] then 0
    else Firings(es[..|es| - 1], name)
         + if es[|es| - 1].status == FIRING && AlertNameOrFallback(es[|es| - 1]) == name then 1 else 0
  }

  /** The final state: a fold for the alerts, a cardinality for each counter. */
  ghost predicate FoldOf(i: Ideal, active: map<string, string>, counts: map<string, int>, es: seq<Encoded>) {
    && i.active == FoldActive(active, es)
    && forall name :: CountAt(i.counts, name) == CountAt(counts, name) + Firings(es, name)
  }

  lemma FirstsGrow(es: seq<Encoded>, e: Encoded)
    ensures Keys(es + [e]) == Keys(es) + {DedupKey(e)}
    ensures Firsts(es + [e]) == if DedupKey(e) in Keys(es) then Firsts(es) else Firsts(es) + [e]
  {
    assert (es + [e])[..|es|] == es;
  }

  lemma ActiveGrows(active: map<string, string>, es: seq<Encoded>, e: Encoded)
    ensures FoldActive(active, es + [e])
         == if e.status == FIRING then FoldActive(active, es)[e.fingerprint := e.json.value]
            else FoldActive(active, es) - {e.fingerprint}
  {
    assert (es + [e])[..|es|] == es;
  }

  lemma FiringsGrow(es: seq<Encoded>, e: Encoded, name: string)
    ensures Firings(es + [e], name)
         == Firings(es, name) + if e.status == FIRING && AlertNameOrFallback(e) == name then 1 else 0
  {
    hide AlertNameOrFallback;
    assert (es + [e])[..|es|] == es;
  }

  lemma FoldGrows(i: Ideal, active: map<string, string>, counts: map<string, int>, es: seq<Encoded>, e: Encoded, clock: int)
    requires FoldOf(i, active, counts, es) && DedupKey(e) !in i.done
    requires CountAt(i.counts, AlertNameOrFallback(e)) != MAX_INT64
    ensures FoldOf(ApplyOnce(i, clock, e), active, counts, es + [e])
  {
    var all, j := es + [e], ApplyOnce(i, clock, e);
    ActiveGrows(active, es, e);
    hide DedupKey, AlertNameOrFallback, FoldActive;
    forall name ensures CountAt(j.counts, name) == CountAt(counts, name) + Firings(all, name) {
      FiringsGrow(es, e, name);
      hide Firings;
      assert CountAt(i.counts, name) == CountAt(counts, name) + Firings(es, name);
    }
    hide Firings;
  }

  lemma {:induction false} FiringsBound(es: seq<Encoded>, name: string)
    ensures Firings(es, name) <= |es|
  {
    if es != [] {
      FiringsBound(es[..|es| - 1], name);
    }
  }

  lemma {:induction false} FirstsBound(es: seq<Encoded>)
    ensures |Firsts(es)| <= |es|
  {
    if es != [] {
      FirstsBound(es[..|es| - 1]);
    }
  }

  lemma {:induction false} DeliveriesBound(steps: seq<Step>)
    ensures |Deliveries(steps)| <= |steps|
  {
    if steps != [] {
      DeliveriesBound(steps[..|steps| - 1]);
    }
  }

  /** No counter can reach the 64-bit limit during so many steps. */
  ghost predicate RoomFor(counts: map<string, int>, steps: nat) {
    forall name :: CountAt(counts, name) + steps < MAX_INT64
  }

  lemma BelowLimit(i: Ideal, active: map<string, string>, counts: map<string, int>, es: seq<Encoded>, room: nat,
                   name: string)
    requires FoldOf(i, active, counts, es) && RoomFor(counts, room) && |es| <= room
    ensures CountAt(i.counts, name) != MAX_INT64
  {
    FiringsBound(es, name);
    hide Firings, FoldActive, CountAt;
    assert CountAt(counts, name) + room < MAX_INT64;
    assert CountAt(i.counts, name) == CountAt(counts, name) + Firings(es, name);
  }

  lemma ApplyIsFold(i: Ideal, active: map<string, string>, counts: map<string, int>, es: seq<Encoded>, e: Encoded,
                    clock: int)
    requires FoldOf(i, active, counts, Firsts(es)) && i.done.Keys == Keys(es)
    requires RoomFor(counts, |es|)
    ensures var j := ApplyOnce(i, clock, e);
            FoldOf(j, active, counts, Firsts(es + [e])) && j.done.Keys == Keys(es + [e])
  {
    hide DedupKey, AlertNameOrFallback, FoldOf, RoomFor, Keys, Firsts;
    FirstsGrow(es, e);
    FirstsBound(es);
    BelowLimit(i, active, counts, Firsts(es), |es|, AlertNameOrFallback(e));
    if DedupKey(e) !in i.done {
      FoldGrows(i, active, counts, Firsts(es), e, clock);
    }
  }

  lemma {:induction false} IdealRunIsFold(active: map<string, string>, counts: map<string, int>, clock: int,
                                          steps: seq<Step>)
    requires RoomFor(counts, |steps|)
    ensures var i := IdealRun(Ideal(active, counts, map[]), clock, steps);
            && FoldOf(i, active, counts, Firsts(Deliveries(steps)))
            && i.done.Keys == Keys(Deliveries(steps))
  {
    if steps != [] {
      var front, s := steps[..|steps| - 1], steps[|steps| - 1];
      assert RoomFor(counts, |front|);
      IdealRunIsFold(active, counts, clock, front);
      DeliveriesBound(front);
      assert RoomFor(counts, |Deliveries(front)|);
      hide FoldOf, Keys, Firsts, ApplyOnce, Arriving;
      if Arriving(s).Some? {
        ApplyIsFold(IdealRun(Ideal(active, counts, map[]), clock, front), active, counts, Deliveries(front),
                    Arriving(s).value, ClockAfter(clock, steps));
      } else {
        assert Deliveries(steps) == Deliveries(front);
      }
    }
  }

  /** What Redis holds at the end: the fold of the first deliveries over what it held at the start. */
  lemma {:induction false} ExactlyOnceEffect(w: World, ttlMs: int, active: map<string, string>,
                                             counts: map<string, int>, steps: seq<Step>)
    requires Fresh(w.keys, w.clock, active, counts) && ttlMs >= 1
    requires Timely(Ideal(active, counts, map[]), w.clock, ttlMs, steps)
    requires RoomFor(counts, |steps|)
    ensures var ks := Run(w, ttlMs, steps).keys;
            var firsts := Firsts(Deliveries(steps));
            && FieldsAt(ks, ACTIVE) == Some(FoldActive(active, firsts))
            && FieldsAt(ks, STATS).Some?
            && forall name ::
                 CounterAt(FieldsAt(ks, STATS).value, name) == Some(CountAt(counts, name) + Firings(firsts, name))
  {
    var i := Ideal(active, counts, map[]);
    assert Stands(w.keys, w.clock, ttlMs, i);
    RunIsIdeal(w, ttlMs, i, steps);
    IdealRunIsFold(active, counts, w.clock, steps);
    var ks, end := Run(w, ttlMs, steps).keys, IdealRun(i, w.clock, steps);
    hide Run, IdealRun, Timely, Firsts, Firings, FoldActive, ParseCounter, Deliveries;
    forall name ensures CounterAt(FieldsAt(ks, STATS).value, name) == Some(CountAt(end.counts, name)) {
      CountOnce(FieldsAt(ks, STATS).value, end.counts, name);
    }
  }

  /** i is the last of the events with its fingerprint. */
  predicate IsLast(es: seq<Encoded>, i: int) {
    0 <= i < |es| && forall j :: i < j < |es| ==> es[j].fingerprint != es[i].fingerprint
  }

  /** What the last event of a fingerprint leaves of it. */
  predicate Decides(after: map<string, string>, e: Encoded) {
    if e.status == "firing" then e.fingerprint in after && after[e.fingerprint] == e.json.value
    else e.fingerprint !in after
  }

  predicate Names(es: seq<Encoded>, f: string) {
    exists i :: 0 <= i < |es| && es[i].fingerprint == f
  }

  lemma LastBefore(es: seq<Encoded>, i: int)
    requires es != [] && i < |es| - 1 && IsLast(es, i)
    ensures IsLast(es[..|es| - 1], i) && es[..|es| - 1][i] == es[i] && es[i].fingerprint != es[|es| - 1].fingerprint
  {
  }

  lemma NamesLast(es: seq<Encoded>, f: string)
    requires es != [] && !Names(es, f)
    ensures !Names(es[..|es| - 1], f) && f != es[|es| - 1].fingerprint
  {
    assert forall i :: 0 <= i < |es| - 1 ==> es[..|es| - 1][i] == es[i];
  }

  /** The fold, fingerprint by fingerprint: the last event of each decides, and the others are as before. */
  lemma {:induction false} FoldTells(active: map<string, string>, es: seq<Encoded>)
    ensures forall i :: IsLast(es, i) ==> Decides(FoldActive(active, es), es[i])
    ensures forall f :: !Names(es, f) ==>
              && (f in FoldActive(active, es) <==> f in active)
              && (f in active ==> FoldActive(active, es)[f] == active[f])
  {
    if es != [] {
      var n := |es| - 1;
      var before, after := FoldActive(active, es[..n]), FoldActive(active, es);
      FoldTells(active, es[..n]);
      forall i | IsLast(es, i) ensures Decides(after, es[i]) {
        if i < n {
          LastBefore(es, i);
          assert Decides(before, es[i]);
        }
        hide IsLast, Names;
      }
      forall f | !Names(es, f) ensures (f in after <==> f in active) && (f in active ==> after[f] == active[f]) {
        NamesLast(es, f);
        hide IsLast, Names;
      }
    }
  }

  predicate IsFiring(es: seq<Encoded>, name: string, i: int)
    requires 0 <= i < |es|
  {
    es[i].status == "firing" && AlertNameOrFallback(es[i]) == name
  }

  function FiringSet(es: seq<Encoded>, name: string): set<int> {
    set i | 0 <= i < |es| && IsFiring(es, name, i)
  }

  lemma FiringSetGrows(es: seq<Encoded>, name: string)
    requires es != []
    ensures var n := |es| - 1;
            FiringSet(es, name) == FiringSet(es[..n], name) + (if IsFiring(es, name, n) then {n} else {})
  {
    var n := |es| - 1;
    assert forall i :: 0 <= i < n ==> es[..n][i] == es[i];
    hide AlertNameOrFallback;
    assert forall i :: 0 <= i < n ==> IsFiring(es[..n], name, i) == IsFiring(es, name, i);
  }

  /** A counter's share is the number of the events that are firings of its name. */
  lemma {:induction false} FiringsIs(es: seq<Encoded>, name: string)
    ensures Firings(es, name) == |FiringSet(es, name)|
  {
    hide AlertNameOrFallback, FiringSet;
    if es != [] {
      FiringsIs(es[..|es| - 1], name);
      FiringSetGrows(es, name);
      NotYet(es[..|es| - 1], name);
    } else {
      NotYet(es, name);
      NoFiring(name);
    }
  }

  lemma NotYet(es: seq<Encoded>, name: string)
    ensures |es| !in FiringSet(es, name)
  {
  }

  lemma NoFiring(name: string)
    ensures FiringSet([], name) == {}
  {
  }

  /** The hashes hold the fold of the events over what they held before. */
  ghost predicate HoldsFold(ks: Keyspace, active: map<string, string>, counts: map<string, int>, es: seq<Encoded>) {
    && FieldsAt(ks, ACTIVE) == Some(FoldActive(active, es))
    && FieldsAt(ks, STATS).Some?
    && forall name :: CounterAt(FieldsAt(ks, STATS).value, name) == Some(CountAt(counts, name) + Firings(es, name))
  }

  lemma RunHoldsFold(w: World, configuredTtlNs: int, ms: int, active: map<string, string>, counts: map<string, int>,
                     steps: seq<Step>)
    requires Fresh(w.keys, w.clock, active, counts) && WholeMillis(configuredTtlNs, ms) && ms >= 1
    requires Timely(Ideal(active, counts, map[]), w.clock, ms, steps) && RoomFor(counts, |steps|)
    ensures HoldsFold(Run(w, Milliseconds(TtlNs(configuredTtlNs)), steps).keys, active, counts, Firsts(Deliveries(steps)))
  {
    LifeInMillis(configuredTtlNs, ms);
    hide Milliseconds, TtlNs, Fresh, Timely, RoomFor, Run;
    ExactlyOnceEffect(w, ms, active, counts, steps);
  }

  /**
   * The service as it is wired: a consumer over a store with the configured life of dedup keys. Redeliveries that come
   * within that life, in whole milliseconds, leave the fold of the first deliveries.
   */
  method Consume(server: Server, configuredTtlNs: int, steps: seq<Step>, ghost ms: int, ghost active: map<string, string>,
                 ghost counts: map<string, int>)
    requires server.Valid() && Fresh(server.keys, server.clock, active, counts)
    requires WholeMillis(configuredTtlNs, ms) && ms >= 1 && RoomFor(counts, |steps|)
    requires Timely(Ideal(active, counts, map[]), server.clock, ms, steps)
    modifies server
    ensures server.Valid() && HoldsFold(server.keys, active, counts, Firsts(Deliveries(steps)))
  {
    hide Milliseconds, TtlNs, Timely, Fresh, RoomFor, Run, HoldsFold, WholeMillis, Server.Valid;
    var store := new Store(server, configuredTtlNs);
    var consumer := new Consumer(store);
    ghost var start := consumer.View();
    assert start.keys == server.keys && start.clock == server.clock;
    RunHoldsFold(start, configuredTtlNs, ms, active, counts, steps);
    consumer.ConsumeClaim(steps);
    assert server.keys == consumer.View().keys;
  }
}
