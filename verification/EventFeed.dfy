/** The bounded event stream: appended with approximate trimming, read newest first with a parsed limit. */
module EventFeed {
  import opened Strings

  const EVENTS_MAX := 200
  const DEFAULT_LIMIT := 8

  /** strconv.ParseInt in base ten: an optional sign, at least one digit, and the value must fit 64 bits. */
  function ParseInt(raw: string): Option<int> {
    var signed := raw != [] && (raw[0] == '-' || raw[0] == '+');
    var digits := if signed then raw[1..] else raw;
    if digits == [] || !AllDigits(digits) then None
    else
      var v := if signed && raw[0] == '-' then 0 - Value(digits) as int else Value(digits) as int;
      if MIN_INT64 <= v <= MAX_INT64 then Some(v) else None
  }

  function ParseEventsLimit(raw: string): int {
    if raw == "" then DEFAULT_LIMIT
    else
      match ParseInt(raw)
      case None => DEFAULT_LIMIT
      case Some(v) => if v <= 0 then DEFAULT_LIMIT else if v > EVENTS_MAX then EVENTS_MAX else v
  }

  /** Whatever the client asks for, the limit is positive and within the trim bound; a number in range is kept. */
  lemma LimitWithinBound(raw: string)
    ensures 1 <= ParseEventsLimit(raw) <= EVENTS_MAX
    ensures forall n: nat :: raw == Decimal(n) && 1 <= n <= EVENTS_MAX ==> ParseEventsLimit(raw) == n
  {
    forall n: nat | raw == Decimal(n) && 1 <= n <= EVENTS_MAX ensures ParseEventsLimit(raw) == n {
      DecimalReads(n);
      hide Decimal, Value;
    }
  }

  datatype Entry = Entry(status: string, severity: string, body: string)

  /** The newest n entries, newest first. */
  function NewestFirst(entries: seq<Entry>, n: nat): seq<Entry>
    decreases n
  {
    if n == 0 || entries == [] then []
    else [entries[|entries| - 1]] + NewestFirst(entries[..|entries| - 1], n - 1)
  }

  lemma NewestStep(entries: seq<Entry>, i: nat, left: nat, values: seq<Entry>)
    requires i < |entries| && left > 0
    ensures values + NewestFirst(entries[..i + 1], left) == values + [entries[i]] + NewestFirst(entries[..i], left - 1)
  {
    assert entries[..i + 1][..i] == entries[..i];
    assert NewestFirst(entries[..i + 1], left) == [entries[i]] + NewestFirst(entries[..i], left - 1);
    hide NewestFirst;
  }

  lemma NewestNone(entries: seq<Entry>, n: nat)
    requires n == 0 || entries == []
    ensures NewestFirst(entries, n) == []
  {
  }

  predicate Passes(e: Entry, status: string, severity: string) {
    (status != "" ==> e.status == status) && (severity != "" ==> e.severity == severity)
  }

  function Filtered(entries: seq<Entry>, status: string, severity: string): seq<Entry> {
    if entries == [] then []
    else
      Filtered(entries[..|entries| - 1], status, severity)
      + if Passes(entries[|entries| - 1], status, severity) then [entries[|entries| - 1]] else []
  }

  lemma FilteredNone(status: string, severity: string)
    ensures Filtered([], status, severity) == []
  {
  }

  lemma FilteredStep(values: seq<Entry>, i: nat, status: string, severity: string)
    requires i < |values|
    ensures Filtered(values[..i + 1], status, severity)
         == Filtered(values[..i], status, severity) + if Passes(values[i], status, severity) then [values[i]] else []
  {
    hide Passes;
    assert values[..i + 1][..i] == values[..i];
  }

  predicate Trimmable(length: nat, drop: nat) {
    drop == 0 || drop + EVENTS_MAX <= length
  }

  /** Adding one entry; Redis may then drop old entries as long as the bound's worth remain. */
  function Append(entries: seq<Entry>, e: Entry, drop: nat): seq<Entry>
    requires Trimmable(|entries| + 1, drop)
  {
    (entries + [e])[drop..]
  }

  class Stream {
    var entries: seq<Entry>
    ghost var stored: seq<Entry>  // every entry ever added

    ghost predicate Valid()
      reads this
    {
      Kept(entries, stored)
    }

    constructor ()
      ensures Valid() && entries == [] && stored == []
    {
      entries, stored := [], [];
    }

    method XAdd(e: Entry, drop: nat)
      requires Valid() && Trimmable(|entries| + 1, drop)
      modifies this
      ensures Valid() && entries == Append(old(entries), e, drop) && stored == old(stored) + [e]
    {
      KeptAfterAppend(entries, stored, e, drop);
      entries := (entries + [e])[drop..];
      stored := stored + [e];
    }

    method XRevRangeN(count: int) returns (values: seq<Entry>)
      requires count > 0
      ensures values == NewestFirst(entries, count)
    {
      hide NewestFirst;
      values := [];
      var i := |entries|;
      assert entries[..i] == entries;
      assert [] + NewestFirst(entries, count) == NewestFirst(entries, count);
      while i > 0 && |values| < count
        invariant 0 <= i <= |entries| && |values| + i == |entries| && |values| <= count
        invariant values + NewestFirst(entries[..i], count - |values|) == NewestFirst(entries, count)
      {
        i := i - 1;
        NewestStep(entries, i, count - |values|, values);
        values := values + [entries[i]];
      }
      NewestNone(entries[..i], count - |values|);
    }

    /** The event list a client gets: the parsed limit's newest entries ever stored, then the two filters. */
    method AlertEvents(raw: string, status: string, severity: string) returns (events: seq<Entry>)
      requires Valid()
      ensures events == Filtered(NewestFirst(stored, ParseEventsLimit(raw)), status, severity)
      ensures status == "" && severity == "" ==> events == NewestFirst(stored, ParseEventsLimit(raw))
    {
      LimitWithinBound(raw);
      FeedIsTrueSuffix(entries, stored, raw);
      var values := XRevRangeN(ParseEventsLimit(raw));
      hide ParseEventsLimit, NewestFirst, Filtered;
      if status == "" && severity == "" {
        NoFilter(values);
        return values;
      }
      events := [];
      FilteredNone(status, severity);
      assert values[..0] == [];
      for i := 0 to |values|
        invariant events == Filtered(values[..i], status, severity)
      {
        FilteredStep(values, i, status, severity);
        if Passes(values[i], status, severity) {
          events := events + [values[i]];
        }
      }
      assert values[..|values|] == values;
    }
  }

  lemma {:induction false} NoFilter(values: seq<Entry>)
    ensures Filtered(values, "", "") == values
  {
    if values != [] {
      NoFilter(values[..|values| - 1]);
      assert values == values[..|values| - 1] + [values[|values| - 1]];
    }
  }

  /** The stream holds a suffix of everything stored, at least the bound's worth or all of it. */
  predicate Kept(entries: seq<Entry>, stored: seq<Entry>) {
    && |entries| <= |stored| && stored[|stored| - |entries|..] == entries
    && (|entries| >= EVENTS_MAX || |entries| == |stored|)
  }

  lemma KeptAfterAppend(entries: seq<Entry>, stored: seq<Entry>, e: Entry, drop: nat)
    requires Kept(entries, stored) && Trimmable(|entries| + 1, drop)
    ensures Kept(Append(entries, e, drop), stored + [e])
  {
    var skipped := |stored| - |entries|;
    var all := stored + [e];
    assert all[skipped..] == entries + [e];
    assert all[skipped + drop..] == all[skipped..][drop..];
  }

  function Appended(entries: seq<Entry>, es: seq<Entry>, drops: seq<nat>): Option<seq<Entry>>
    requires |drops| == |es|
  {
    if es == [] then Some(entries)
    else
      var n := |es| - 1;
      match Appended(entries, es[..n], drops[..n])
      case None => None
      case Some(before) => if Trimmable(|before| + 1, drops[n]) then Some(Append(before, es[n], drops[n])) else None
  }

  lemma {:induction false} RunIsKept(es: seq<Entry>, drops: seq<nat>)
    requires |drops| == |es| && Appended([], es, drops).Some?
    ensures Kept(Appended([], es, drops).value, es)
  {
    if es != [] {
      var n := |es| - 1;
      RunIsKept(es[..n], drops[..n]);
      hide Append, Trimmable, Kept;
      KeptAfterAppend(Appended([], es[..n], drops[..n]).value, es[..n], es[n], drops[n]);
      assert es[..n] + [es[n]] == es;
    }
  }

  lemma {:induction false} SuffixReadsAlike(entries: seq<Entry>, stored: seq<Entry>, n: nat)
    requires |entries| <= |stored| && stored[|stored| - |entries|..] == entries
    requires n <= |entries| || |entries| == |stored|
    ensures NewestFirst(entries, n) == NewestFirst(stored, n)
    decreases n
  {
    if n > 0 && entries != [] {
      var e, s := entries[..|entries| - 1], stored[..|stored| - 1];
      assert s[|s| - |e|..] == e by {
        assert forall k {:trigger e[k]} :: 0 <= k < |e| ==>
            s[|s| - |e|..][k] == stored[|stored| - |entries|..][k] && entries[k] == e[k];
      }
      assert entries[|entries| - 1] == stored[|stored| - |entries|..][|entries| - 1];
      SuffixReadsAlike(e, s, n - 1);
    }
  }

  lemma FeedIsTrueSuffix(entries: seq<Entry>, stored: seq<Entry>, raw: string)
    requires Kept(entries, stored)
    ensures ParseEventsLimit(raw) >= 0
    ensures NewestFirst(entries, ParseEventsLimit(raw)) == NewestFirst(stored, ParseEventsLimit(raw))
  {
    LimitWithinBound(raw);
    hide ParseEventsLimit;
    SuffixReadsAlike(entries, stored, ParseEventsLimit(raw));
  }

  /** Position by position: the feed is the newest min(limit, stored) entries, newest first. */
  lemma {:induction false} NewestFirstAt(entries: seq<Entry>, n: nat)
    ensures |NewestFirst(entries, n)| == if n <= |entries| then n else |entries|
    ensures forall k :: 0 <= k < |NewestFirst(entries, n)| ==> NewestFirst(entries, n)[k] == entries[|entries| - 1 - k]
    decreases n
  {
    if n > 0 && entries != [] {
      NewestFirstAt(entries[..|entries| - 1], n - 1);
    }
  }

  /** After any run of appends with any permitted trimming, every raw limit reads the newest entries ever stored. */
  lemma {:induction false} FeedAfterAnyRun(es: seq<Entry>, drops: seq<nat>, raw: string)
    requires |drops| == |es| && Appended([], es, drops).Some?
    ensures var limit := ParseEventsLimit(raw);
            var feed := NewestFirst(Appended([], es, drops).value, limit);
            && |feed| == (if limit <= |es| then limit else |es|)
            && forall k :: 0 <= k < |feed| ==> feed[k] == es[|es| - 1 - k]
  {
    LimitWithinBound(raw);
    RunIsKept(es, drops);
    FeedIsTrueSuffix(Appended([], es, drops).value, es, raw);
    NewestFirstAt(es, ParseEventsLimit(raw));
    hide ParseEventsLimit, NewestFirst, Appended;
  }

  // ---- The filters and the limit, spelled out ----

  lemma {:induction false} FilteredConcat(a: seq<Entry>, b: seq<Entry>, status: string, severity: string)
    ensures Filtered(a + b, status, severity) == Filtered(a, status, severity) + Filtered(b, status, severity)
    decreases |b|
  {
    hide Passes;
    if b == [] {
      assert a + b == a;
    } else {
      assert (a + b)[..|a + b| - 1] == a + b[..|b| - 1];
      FilteredConcat(a, b[..|b| - 1], status, severity);
    }
  }

  /** Filtering goes entry by entry and in order: an entry stays when each filter that is set names its own value. */
  lemma FilteredIs(before: seq<Entry>, e: Entry, after: seq<Entry>, status: string, severity: string)
    ensures Filtered(before + [e] + after, status, severity)
         == Filtered(before, status, severity)
            + (if (status == "" || e.status == status) && (severity == "" || e.severity == severity) then [e] else [])
            + Filtered(after, status, severity)
    ensures Filtered([], status, severity) == []
  {
    FilteredConcat(before + [e], after, status, severity);
    FilteredConcat(before, [e], status, severity);
    FilteredNone(status, severity);
    assert [e][..0] == [];
  }

  /** A number from 1 to 200 is the limit itself, a larger one is cut to 200, and no positive number means 8. */
  lemma LimitIs(n: int)
    requires MIN_INT64 <= n <= MAX_INT64
    ensures ParseEventsLimit(FormatInt(n)) == if n <= 0 then 8 else if n > 200 then 200 else n
    ensures ParseEventsLimit("") == 8
  {
    DecimalReads(if n < 0 then -n else n);
    var s := FormatInt(n);
    assert n < 0 ==> s[0] == '-' && s[1..] == Decimal(-n);
    hide Decimal, Value;
  }

  /** What reads as a number: digits, with or without a sign, whose value fits 64 bits. */
  lemma ParseIntIs(digits: string)
    requires digits != "" && AllDigits(digits)
    ensures ParseInt(digits) == if Value(digits) <= MAX_INT64 then Some(Value(digits)) else None
    ensures ParseInt("+" + digits) == ParseInt(digits)
    ensures ParseInt("-" + digits) == var v := 0 - Value(digits) as int; if v >= MIN_INT64 then Some(v) else None
  {
    assert ("+" + digits)[1..] == digits && ("-" + digits)[1..] == digits && IsDigit(digits[0]);
    hide Value;
  }

  lemma NotANumber(raw: string, i: nat)
    requires i < |raw| && !IsDigit(raw[i]) && (i == 0 ==> raw[0] != '-' && raw[0] != '+')
    ensures ParseInt(raw) == None && ParseEventsLimit(raw) == 8
  {
    if i > 0 {
      assert raw[1..][i - 1] == raw[i];
    }
    hide Value;
  }
}
