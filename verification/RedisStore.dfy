/**
 * The Redis server as the alert service sees it: a typed key space with deadlines,
 * the commands the two Lua scripts call, and the scripts themselves.
 */
module RedisStore {
  import opened Strings

  const ACTIVE := "alert:active"
  const STATS := "alert:stats"

  datatype Data = Text(text: string) | Hash(fields: map<string, string>) | OtherType

  datatype Entry = Entry(data: Data, deadline: Option<int>)

  type Keyspace = map<string, Entry>

  datatype Reply = Number(n: int) | Bulk(text: string) | Nil | Error

  /** Redis never keeps an empty hash. */
  predicate WellFormed(ks: Keyspace) {
    forall k :: k in ks && ks[k].data.Hash? ==> ks[k].data.fields != map[]
  }

  predicate Expired(e: Entry, clock: int) {
    e.deadline.Some? && clock > e.deadline.value
  }

  predicate AllLive(ks: Keyspace, clock: int) {
    forall k :: k in ks ==> !Expired(ks[k], clock)
  }

  function Live(ks: Keyspace, clock: int): Keyspace {
    map k | k in ks && !Expired(ks[k], clock) :: ks[k]
  }

  /** The hash stored at a key: nothing when the key is absent, None when it holds another type. */
  function FieldsAt(ks: Keyspace, key: string): Option<map<string, string>> {
    if key !in ks then Some(map[])
    else if ks[key].data.Hash? then Some(ks[key].data.fields)
    else None
  }

  function WithFields(ks: Keyspace, key: string, fields: map<string, string>): Keyspace {
    if fields == map[] then ks - {key}
    else ks[key := Entry(Hash(fields), if key in ks then ks[key].deadline else None)]
  }

  /** Redis reads a counter only in canonical decimal form and only within 64 bits. */
  function ParseCounter(s: string): Option<int> {
    if s == "0" then Some(0)
    else
      var negative := s != [] && s[0] == '-';
      var digits := if negative then s[1..] else s;
      if digits == [] || !AllDigits(digits) || digits[0] == '0' then None
      else
        var v := if negative then 0 - Value(digits) as int else Value(digits) as int;
        if MIN_INT64 <= v <= MAX_INT64 then Some(v) else None
  }

  lemma ParsedIsCanonical(s: string, v: int)
    requires ParseCounter(s) == Some(v)
    ensures MIN_INT64 <= v <= MAX_INT64 && s == FormatInt(v)
  {
    if s == "0" {
      assert Decimal(0) == "0";
    } else {
      var digits := if s[0] == '-' then s[1..] else s;
      ValueIsCanonical(digits);
      NonZeroLead(digits);
      hide Value, Decimal;
      assert s[0] == '-' ==> s == "-" + digits;
    }
  }

  lemma CanonicalParses(v: int)
    requires MIN_INT64 <= v <= MAX_INT64
    ensures ParseCounter(FormatInt(v)) == Some(v)
  {
    var n := if v < 0 then -v else v;
    var digits, s := Decimal(n), FormatInt(v);
    DecimalReads(n);
    ZeroText();
    assert s == if v < 0 then "-" + digits else digits;
    hide Value, Decimal, FormatInt;
    assert v < 0 ==> s[0] == '-' && s[1..] == digits;
    assert v >= 0 ==> IsDigit(s[0]);
  }

  lemma ZeroText()
    ensures Decimal(0) == "0" && FormatInt(0) == "0"
  {
  }

  /** Exactly the texts FormatInt writes for 64-bit numbers are counters. */
  lemma CounterText(s: string, v: int)
    ensures ParseCounter(s) == Some(v) <==> MIN_INT64 <= v <= MAX_INT64 && s == FormatInt(v)
  {
    hide ParseCounter, FormatInt;
    if ParseCounter(s) == Some(v) {
      ParsedIsCanonical(s, v);
    } else if MIN_INT64 <= v <= MAX_INT64 && s == FormatInt(v) {
      CanonicalParses(v);
    }
  }

  lemma {:induction false} NonZeroLead(digits: string)
    requires digits != [] && AllDigits(digits) && digits[0] != '0'
    ensures Value(digits) > 0
  {
    if |digits| > 1 {
      NonZeroLead(digits[..|digits| - 1]);
    } else {
      assert Value(digits) == 10 * Value(digits[..0]) + DigitValue(digits[0]);
    }
  }

  /** The counter at a field of a hash, 0 when the field is absent. */
  function CounterAt(fields: map<string, string>, field: string): Option<int> {
    if field in fields then ParseCounter(fields[field]) else Some(0)
  }

  datatype ScriptReply = Done(n: int) | Failed(at: FailurePoint)

  datatype FailurePoint = ReadPrevious | StoreActive | IncrementStats | RollbackActive | DeleteActive | RememberKey

  /** Whether the firing script can count one more event under the field. */
  predicate Countable(ks: Keyspace, field: string) {
    var stats := FieldsAt(ks, STATS);
    stats.Some? && CounterAt(stats.value, field).Some? && CounterAt(stats.value, field).value != MAX_INT64
  }

  function Remember(ks: Keyspace, dedupKey: string, until: int): Keyspace {
    ks[dedupKey := Entry(Text("1"), Some(until))]
  }

  /** What a firing event is meant to change: the active alert and its counter, together. */
  function Fire(ks: Keyspace, fingerprint: string, payload: string, field: string): Keyspace
    requires FieldsAt(ks, ACTIVE).Some? && Countable(ks, field)
  {
    var active := WithFields(ks, ACTIVE, FieldsAt(ks, ACTIVE).value[fingerprint := payload]);
    var stats := FieldsAt(ks, STATS).value;
    WithFields(active, STATS, stats[field := FormatInt(CounterAt(stats, field).value + 1)])
  }

  function Resolve(ks: Keyspace, fingerprint: string): Keyspace
    requires FieldsAt(ks, ACTIVE).Some?
  {
    WithFields(ks, ACTIVE, FieldsAt(ks, ACTIVE).value - {fingerprint})
  }

  /** The firing script as one indivisible step, without any undoing. */
  function FiringStep(ks: Keyspace, clock: int, dedupKey: string, ttlMs: int, fingerprint: string, payload: string,
                      field: string): (Keyspace, ScriptReply)
  {
    if dedupKey in ks then (ks, Done(0))
    else if FieldsAt(ks, ACTIVE).None? then (ks, Failed(ReadPrevious))
    else if !Countable(ks, field) then (ks, Failed(IncrementStats))
    else if ttlMs <= 0 then (Fire(ks, fingerprint, payload, field), Failed(RememberKey))
    else (Remember(Fire(ks, fingerprint, payload, field), dedupKey, clock + ttlMs), Done(1))
  }

  function ResolvedStep(ks: Keyspace, clock: int, dedupKey: string, ttlMs: int, fingerprint: string)
    : (Keyspace, ScriptReply)
  {
    if dedupKey in ks then (ks, Done(0))
    else if FieldsAt(ks, ACTIVE).None? then (ks, Failed(DeleteActive))
    else if ttlMs <= 0 then (Resolve(ks, fingerprint), Failed(RememberKey))
    else (Remember(Resolve(ks, fingerprint), dedupKey, clock + ttlMs), Done(1))
  }

  class Server {
    var keys: Keyspace
    var clock: int

    ghost predicate Valid()
      reads this
    {
      WellFormed(keys) && AllLive(keys, clock)
    }

    constructor ()
      ensures Valid() && keys == map[] && clock == 0
    {
      keys, clock := map[], 0;
    }

    /** Time passes; keys past their deadline are gone. */
    method Tick(ms: nat)
      requires Valid()
      modifies this
      ensures Valid() && clock == old(clock) + ms && keys == Live(old(keys), clock)
    {
      clock := clock + ms;
      keys := Live(keys, clock);
    }

    method Exists(key: string) returns (n: int)
      ensures n == if key in keys then 1 else 0
    {
      n := if key in keys then 1 else 0;
    }

    method HGet(key: string, field: string) returns (r: Reply)
      ensures match FieldsAt(keys, key)
              case None => r == Error
              case Some(fields) => r == if field in fields then Bulk(fields[field]) else Nil
    {
      if key !in keys {
        return Nil;
      }
      match keys[key].data {
        case Hash(fields) => r := if field in fields then Bulk(fields[field]) else Nil;
        case _ => r := Error;
      }
    }

    method HSet(key: string, field: string, value: string) returns (r: Reply)
      requires Valid()
      modifies this`keys
      ensures Valid()
      ensures match FieldsAt(old(keys), key)
              case None => r == Error && keys == old(keys)
              case Some(fields) => r.Number? && keys == WithFields(old(keys), key, fields[field := value])
    {
      if key !in keys {
        assert field in map[field := value];
        keys := keys[key := Entry(Hash(map[][field := value]), None)];
        return Number(1);
      }
      match keys[key].data {
        case Hash(fields) =>
          r := Number(if field in fields then 0 else 1);
          assert field in fields[field := value];
          keys := keys[key := Entry(Hash(fields[field := value]), keys[key].deadline)];
        case _ =>
          r := Error;
      }
    }

    method HDel(key: string, field: string) returns (r: Reply)
      requires Valid()
      modifies this`keys
      ensures Valid()
      ensures match FieldsAt(old(keys), key)
              case None => r == Error && keys == old(keys)
              case Some(fields) => r.Number? && keys == WithFields(old(keys), key, fields - {field})
    {
      if key !in keys {
        return Number(0);
      }
      match keys[key].data {
        case Hash(fields) =>
          r := Number(if field in fields then 1 else 0);
          var rest := fields - {field};
          if rest == map[] {
            keys := keys - {key};
          } else {
            keys := keys[key := Entry(Hash(rest), keys[key].deadline)];
          }
        case _ =>
          r := Error;
      }
    }

    method HIncrByOne(key: string, field: string) returns (r: Reply)
      requires Valid()
      modifies this`keys
      ensures Valid()
      ensures match FieldsAt(old(keys), key)
              case None => r == Error && keys == old(keys)
              case Some(fields) =>
                match CounterAt(fields, field)
                case None => r == Error && keys == old(keys)
                case Some(v) =>
                  if v == MAX_INT64 then r == Error && keys == old(keys)
                  else r == Number(v + 1) && keys == WithFields(old(keys), key, fields[field := FormatInt(v + 1)])
    {
      var current := HGet(key, field);
      if current.Error? {
        return Error;
      }
      var count := if current.Bulk? then ParseCounter(current.text) else Some(0);
      if count.None? || count.value == MAX_INT64 {
        return Error;
      }
      r := HSet(key, field, FormatInt(count.value + 1));
      r := Number(count.value + 1);
    }

    method SetPx(key: string, value: string, ttlMs: int) returns (r: Reply)
      requires Valid()
      modifies this`keys
      ensures Valid()
      ensures if ttlMs <= 0 then r == Error && keys == old(keys)
              else r == Nil && keys == old(keys)[key := Entry(Text(value), Some(clock + ttlMs))]
    {
      if ttlMs <= 0 {
        return Error;
      }
      keys := keys[key := Entry(Text(value), Some(clock + ttlMs))];
      r := Nil;
    }

    /**
     * The firing script. Its hand-written undo makes it the indivisible step, and the two
     * failures that would leave a half-done write behind are never reported.
     */
    method ApplyFiringScript(dedupKey: string, ttlMs: int, fingerprint: string, payload: string, statsField: string)
      returns (reply: ScriptReply)
      requires Valid() && dedupKey != ACTIVE && dedupKey != STATS
      modifies this`keys
      ensures Valid()
      ensures (keys, reply) == FiringStep(old(keys), clock, dedupKey, ttlMs, fingerprint, payload, statsField)
      ensures reply != Failed(StoreActive) && reply != Failed(RollbackActive)
    {
      hide ParseCounter, CounterAt, FormatInt, WithFields, FieldsAt;
      var seen := Exists(dedupKey);
      if seen == 1 {
        return Done(0);
      }
      var previous := HGet(ACTIVE, fingerprint);
      if previous.Error? {
        return Failed(ReadPrevious);
      }
      var hset := HSet(ACTIVE, fingerprint, payload);
      if hset.Error? {
        return Failed(StoreActive);
      }
      OtherKeysStay(old(keys), ACTIVE, FieldsAt(old(keys), ACTIVE).value[fingerprint := payload], STATS);
      var hincr := HIncrByOne(STATS, statsField);
      if hincr.Error? {
        UndoRestores(old(keys), ACTIVE, fingerprint, payload);
        if previous.Bulk? {
          var restore := HSet(ACTIVE, fingerprint, previous.text);
          if restore.Error? {
            return Failed(RollbackActive);
          }
        } else {
          var deleted := HDel(ACTIVE, fingerprint);
          if deleted.Error? {
            return Failed(RollbackActive);
          }
        }
        return Failed(IncrementStats);
      }
      assert keys == Fire(old(keys), fingerprint, payload, statsField);
      var stored := SetPx(dedupKey, "1", ttlMs);
      if stored.Error? {
        return Failed(RememberKey);
      }
      reply := Done(1);
    }

    method ApplyResolvedScript(dedupKey: string, ttlMs: int, fingerprint: string) returns (reply: ScriptReply)
      requires Valid() && dedupKey != ACTIVE
      modifies this`keys
      ensures Valid()
      ensures (keys, reply) == ResolvedStep(old(keys), clock, dedupKey, ttlMs, fingerprint)
    {
      var seen := Exists(dedupKey);
      if seen == 1 {
        return Done(0);
      }
      var hdel := HDel(ACTIVE, fingerprint);
      if hdel.Error? {
        return Failed(DeleteActive);
      }
      var stored := SetPx(dedupKey, "1", ttlMs);
      if stored.Error? {
        return Failed(RememberKey);
      }
      reply := Done(1);
    }
  }

  lemma OtherKeysStay(ks: Keyspace, key: string, fields: map<string, string>, other: string)
    requires key != other
    ensures FieldsAt(WithFields(ks, key, fields), other) == FieldsAt(ks, other)
  {
  }

  /** Writing a field and then putting the old one back, or removing it, gives the old key space. */
  lemma UndoRestores(ks: Keyspace, key: string, field: string, value: string)
    requires WellFormed(ks) && FieldsAt(ks, key).Some?
    ensures var fields := FieldsAt(ks, key).value;
            var written := WithFields(ks, key, fields[field := value]);
            && FieldsAt(written, key) == Some(fields[field := value])
            && (if field in fields then WithFields(written, key, fields[field := value][field := fields[field]]) == ks
                else WithFields(written, key, fields[field := value] - {field}) == ks)
  {
    var fields := FieldsAt(ks, key).value;
    assert fields[field := value] != map[] by { assert field in fields[field := value]; }
    if field in fields {
      assert fields[field := value][field := fields[field]] == fields;
    } else {
      assert fields[field := value] - {field} == fields;
    }
  }

  /** A failed resolving call changed something exactly when its last SET failed after an alert was removed. */
  lemma ResolvedAllOrNothing(ks: Keyspace, clock: int, dedupKey: string, ttlMs: int, fingerprint: string)
    requires WellFormed(ks) && dedupKey != ACTIVE
    ensures var (after, reply) := ResolvedStep(ks, clock, dedupKey, ttlMs, fingerprint);
            && (reply.Failed? && ttlMs >= 1 ==> after == ks)
            && (reply.Failed? && after != ks
                <==> ttlMs < 1 && dedupKey !in ks && FieldsAt(ks, ACTIVE).Some? && fingerprint in FieldsAt(ks, ACTIVE).value)
  {
    if FieldsAt(ks, ACTIVE).Some? {
      var fields := FieldsAt(ks, ACTIVE).value;
      if fingerprint in fields {
        assert fingerprint !in fields - {fingerprint};
      } else {
        assert fields - {fingerprint} == fields;
      }
    }
  }

  /** A failed firing call has no effect for every server state exactly when the TTL is at least one millisecond. */
  lemma FiringAllOrNothing(ks: Keyspace, clock: int, dedupKey: string, ttlMs: int, fingerprint: string, payload: string,
                           field: string)
    requires WellFormed(ks) && dedupKey != ACTIVE && dedupKey != STATS
    ensures var (after, reply) := FiringStep(ks, clock, dedupKey, ttlMs, fingerprint, payload, field);
            && (reply.Failed? && ttlMs >= 1 ==> after == ks)
            && (reply == Failed(RememberKey) <==>
                  ttlMs < 1 && dedupKey !in ks && FieldsAt(ks, ACTIVE).Some? && Countable(ks, field))
            && (reply == Failed(RememberKey) ==> after != ks)
  {
    if ttlMs < 1 && dedupKey !in ks && FieldsAt(ks, ACTIVE).Some? && Countable(ks, field) {
      var stats := FieldsAt(ks, STATS).value;
      var v := CounterAt(stats, field).value;
      var bumped := stats[field := FormatInt(v + 1)];
      assert field in bumped;
      var after := Fire(ks, fingerprint, payload, field);
      assert FieldsAt(after, STATS) == Some(bumped);
      if field in stats {
        CounterText(stats[field], v);
        CounterText(FormatInt(v), v + 1);
      }
    }
  }
}
