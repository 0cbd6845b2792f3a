/**
 * The sliding-window rate limiter: one sorted set per key, trimmed, extended and counted in one transaction.
 * Scores are whatever rounding the conversion to a float makes of the nanosecond clock.
 */
module Limiter {
  import opened Strings
  import opened Common

  const SECOND := 1_000_000_000
  const WRAP := 0x1_0000_0000_0000_0000

  datatype Answer = Answer(allowed: bool, remaining: int) | Failure

  datatype Config = Config(prefix: string, limit: int, window: int) {
    predicate Usable() {
      limit > 0 && window > 0
    }
  }

  /**
   * The key's sorted set, the millisecond after which the key is gone, and the process-wide member sequence. Redis keeps
   * the time of keys in milliseconds.
   */
  datatype State = State(members: map<string, real>, deadline: int, sequence: nat)

  function Millis(now: int): int {
    now / 1_000_000
  }

  predicate Expired(deadline: int, now: int) {
    Millis(now) > deadline
  }

  datatype Request = Request(now: int, fault: Fault)

  function Member(prefix: string, now: int, sequence: nat): string {
    prefix + ":" + FormatInt(now) + ":" + Decimal(sequence)
  }

  lemma MemberInjective(prefix: string, now: int, m: nat, now': int, n: nat)
    requires Member(prefix, now, m) == Member(prefix, now', n)
    ensures m == n
  {
    DecimalReads(m);
    DecimalReads(n);
    hide Decimal, Value, FormatInt;
    LastPiece(prefix + ":" + FormatInt(now), Decimal(m), prefix + ":" + FormatInt(now'), Decimal(n), ':');
  }

  /** EXPIRE counts whole seconds: a shorter window becomes one second, a longer one loses its fraction. */
  function KeyLife(window: int): int {
    if window < SECOND then SECOND else window / SECOND * SECOND
  }

  /** The key lives whole seconds, at least one, and otherwise less than a second short of its window. */
  lemma KeyLifeIs(window: int, life: int)
    requires window > 0
    ensures life == KeyLife(window)
       <==> life % 1_000_000_000 == 0
            && if window < 1_000_000_000 then life == 1_000_000_000 else life <= window < life + 1_000_000_000
  {
  }

  /** The key outlives its window exactly for whole-second windows and for windows below a second. */
  lemma KeyOutlivesWindow(window: int)
    ensures KeyLife(window) >= window <==> window < SECOND || window % SECOND == 0
  {
  }

  function Trimmed(members: map<string, real>, bound: real): map<string, real> {
    map m | m in members && !(0.0 <= members[m] < bound) :: members[m]
  }

  /** The state after a transaction took effect. */
  function Recorded(st: State, c: Config, score: int -> real, now: int): State {
    var present := if Expired(st.deadline, now) then map[] else st.members;
    var sequence := (st.sequence + 1) % WRAP;
    State(Trimmed(present, score(now - c.window))[Member(c.prefix, now, sequence) := score(now)],
          Millis(now) + Millis(KeyLife(c.window)), sequence)
  }

  function AfterRequest(st: State, c: Config, score: int -> real, r: Request): State {
    if !c.Usable() then st
    else if r.fault == Refused then st.(sequence := (st.sequence + 1) % WRAP)
    else Recorded(st, c, score, r.now)
  }

  function AnswerTo(st: State, c: Config, score: int -> real, r: Request): Answer {
    if !c.Usable() || r.fault != Healthy then Failure
    else
      var used := |Recorded(st, c, score, r.now).members|;
      Answer(used <= c.limit, if used <= c.limit then c.limit - used else 0)
  }

  class SlidingWindow {
    const config: Config
    const score: int -> real
    var members: map<string, real>
    var deadline: int
    var sequence: nat

    constructor (config: Config, score: int -> real)
      ensures this.config == config && this.score == score && View() == State(map[], 0, 0)
    {
      this.config, this.score := config, score;
      members, deadline, sequence := map[], 0, 0;
    }

    ghost function View(): State
      reads this
    {
      State(members, deadline, sequence)
    }

    method NewMember(now: int) returns (m: string)
      modifies this`sequence
      ensures sequence == (old(sequence) + 1) % WRAP && m == Member(config.prefix, now, sequence)
    {
      sequence := (sequence + 1) % WRAP;
      m := Member(config.prefix, now, sequence);
    }

    /** Removes every member whose score lies in [0, bound). */
    method ZRemRangeByScore(bound: real)
      modifies this`members
      ensures members == Trimmed(old(members), bound)
    {
      members := map m | m in members && !(0.0 <= members[m] < bound) :: members[m];
    }

    /** The transaction: drop an expired key, trim, add, count, and set the key to expire. */
    method Transact(member: string, now: int) returns (used: int)
      modifies this`members, this`deadline
      ensures members == Trimmed(if Expired(old(deadline), now) then map[] else old(members),
                                 score(now - config.window))[member := score(now)]
      ensures used == |members| && deadline == Millis(now) + Millis(KeyLife(config.window))
    {
      if Millis(now) > deadline {
        members := map[];
      }
      ZRemRangeByScore(score(now - config.window));
      members := members[member := score(now)];
      used := |members|;
      deadline := Millis(now) + Millis(KeyLife(config.window));
    }

    method AllowSlidingWindow(now: int, fault: Fault) returns (answer: Answer)
      modifies this
      ensures View() == AfterRequest(old(View()), config, score, Request(now, fault))
      ensures answer == AnswerTo(old(View()), config, score, Request(now, fault))
    {
      hide Member, KeyLife, Trimmed;
      if config.limit <= 0 || config.window <= 0 {
        return Failure;
      }
      var member := NewMember(now);
      if fault == Refused {
        return Failure;
      }
      var used := Transact(member, now);
      if fault == ReplyLost {
        return Failure;
      }
      var remaining := config.limit - used;
      if remaining < 0 {
        remaining := 0;
      }
      answer := Answer(used <= config.limit, remaining);
    }
  }

  // ---- Runs of one key ----

  function After(st: State, c: Config, score: int -> real, rs: seq<Request>): State {
    if rs == [] then st
    else AfterRequest(After(st, c, score, rs[..|rs| - 1]), c, score, rs[|rs| - 1])
  }

  predicate Ordered(rs: seq<Request>) {
    forall i, j :: 0 <= i < j < |rs| ==> rs[i].now <= rs[j].now
  }

  ghost predicate Monotone(score: int -> real) {
    forall s, t :: s <= t ==> score(s) <= score(t)
  }

  ghost predicate Strict(score: int -> real) {
    forall s, t :: s < t ==> score(s) < score(t)
  }

  /** Requests up to i, admitted or not, that were recorded and fall in the window that ends at request i. */
  function Recent(c: Config, rs: seq<Request>, i: nat): set<nat>
    requires i < |rs|
  {
    set j: nat | j <= i && rs[j].fault != Refused && rs[j].now >= rs[i].now - c.window
  }

  /** The member text request j was given. */
  function MemberOf(st: State, c: Config, rs: seq<Request>, j: nat): string {
    Member(c.prefix, if j < |rs| then rs[j].now else 0, SequenceOf(st, j))
  }

  function SequenceOf(st: State, j: nat): nat {
    (st.sequence + j + 1) % WRAP
  }

  function Used(st: State, c: Config, score: int -> real, rs: seq<Request>, i: nat): nat
    requires i < |rs|
  {
    |Recorded(After(st, c, score, rs[..i]), c, score, rs[i].now).members|
  }

  predicate Admitted(st: State, c: Config, score: int -> real, rs: seq<Request>, i: nat)
    requires i < |rs|
  {
    AnswerTo(After(st, c, score, rs[..i]), c, score, rs[i]) == Answer(true, c.limit - Used(st, c, score, rs, i))
  }

  /**
   * What the sorted set still holds after a run: at least every recorded request that a window ending
   * at the last request or later can see.
   */
  ghost predicate Holds(end: State, st: State, c: Config, score: int -> real, rs: seq<Request>) {
    forall j :: 0 <= j < |rs| && rs[j].fault != Refused ==>
      && Millis(rs[j].now) + Millis(KeyLife(c.window)) <= end.deadline
      && (rs[j].now >= rs[|rs| - 1].now - c.window ==>
            && MemberOf(st, c, rs, j) in end.members
            && end.members[MemberOf(st, c, rs, j)] == score(rs[j].now))
  }

  /** And nothing but recorded requests, under the scores they were given. */
  ghost predicate OnlyHolds(end: State, st: State, c: Config, score: int -> real, rs: seq<Request>) {
    forall m :: m in end.members ==> FromRequest(end.members[m], st, c, score, rs, m)
  }

  ghost predicate FromRequest(scored: real, st: State, c: Config, score: int -> real, rs: seq<Request>, m: string) {
    exists j: nat :: j < |rs| && m == MemberOf(st, c, rs, j) && rs[j].fault != Refused && scored == score(rs[j].now)
  }

  lemma SequenceDistinct(st: State, i: nat, j: nat)
    requires i < j < WRAP
    ensures SequenceOf(st, i) != SequenceOf(st, j)
  {
  }

  lemma MembersDistinct(st: State, c: Config, rs: seq<Request>, i: nat, j: nat)
    requires i < WRAP && j < WRAP && MemberOf(st, c, rs, i) == MemberOf(st, c, rs, j)
    ensures i == j
  {
    MemberInjective(c.prefix, if i < |rs| then rs[i].now else 0, SequenceOf(st, i),
                    if j < |rs| then rs[j].now else 0, SequenceOf(st, j));
    hide SequenceOf, Member;
    if i < j {
      SequenceDistinct(st, i, j);
    } else if j < i {
      SequenceDistinct(st, j, i);
    }
  }

  lemma {:induction false} SequenceAfter(st: State, c: Config, score: int -> real, rs: seq<Request>)
    requires c.Usable()
    ensures (After(st, c, score, rs).sequence + 1) % WRAP == SequenceOf(st, |rs|)
  {
    if rs != [] {
      var n := |rs| - 1;
      SequenceAfter(st, c, score, rs[..n]);
      SequenceStep(After(st, c, score, rs[..n]), c, score, rs[n]);
      NextSequence(st.sequence, n + 1);
      hide AfterRequest;
      assert After(st, c, score, rs).sequence == SequenceOf(st, n);
    }
  }

  lemma NextSequence(s: nat, n: nat)
    ensures ((s + n) % WRAP + 1) % WRAP == (s + n + 1) % WRAP
  {
  }

  lemma SequenceStep(st: State, c: Config, score: int -> real, r: Request)
    requires c.Usable()
    ensures AfterRequest(st, c, score, r).sequence == (st.sequence + 1) % WRAP
  {
  }

  ghost predicate Setting(st: State, c: Config, score: int -> real, rs: seq<Request>) {
    && st.members == map[] && st.sequence < WRAP && c.Usable() && c.window <= KeyLife(c.window)
    && Monotone(score) && Ordered(rs) && |rs| < WRAP
  }

  /** A key set at one time has not run out at any time within its life. */
  lemma StillAlive(set': int, now: int, window: int, deadline: int)
    requires Millis(set') + Millis(KeyLife(window)) <= deadline && now <= set' + window && window <= KeyLife(window)
    ensures !Expired(deadline, now)
  {
    WholeSeconds(set', KeyLife(window));
  }

  lemma WholeSeconds(now: int, life: int)
    requires life % SECOND == 0
    ensures Millis(now + life) == Millis(now) + Millis(life)
  {
    assert life == life / SECOND * 1000 * 1_000_000;
  }

  lemma MillisGrow(s: int, t: int)
    requires s <= t
    ensures Millis(s) <= Millis(t)
  {
  }

  lemma HoldsStep(before: State, st: State, c: Config, score: int -> real, front: seq<Request>, r: Request)
    requires Setting(st, c, score, front + [r]) && Holds(before, st, c, score, front)
    requires (before.sequence + 1) % WRAP == SequenceOf(st, |front|)
    ensures Holds(AfterRequest(before, c, score, r), st, c, score, front + [r])
  {
    var rs, n := front + [r], |front|;
    var end := AfterRequest(before, c, score, r);
    assert c.window <= KeyLife(c.window);
    hide KeyLife, Member, SequenceOf, Monotone, Ordered, Millis, Expired;
    forall j | 0 <= j < |rs| && rs[j].fault != Refused
      ensures Millis(rs[j].now) + Millis(KeyLife(c.window)) <= end.deadline
      ensures rs[j].now >= r.now - c.window ==>
                MemberOf(st, c, rs, j) in end.members && end.members[MemberOf(st, c, rs, j)] == score(rs[j].now)
    {
      if j < n {
        assert front[j] == rs[j] && MemberOf(st, c, front, j) == MemberOf(st, c, rs, j);
        OrderedAt(rs, j, n);
        OrderedAt(rs, n - 1, n);
        assert front[n - 1] == rs[n - 1];
        MillisGrow(rs[j].now, r.now);
        if rs[j].now >= r.now - c.window && r.fault != Refused {
          MonotoneAt(score, r.now - c.window, rs[j].now);
          StillAlive(rs[j].now, r.now, c.window, before.deadline);
          if MemberOf(st, c, rs, j) == MemberOf(st, c, rs, n) {
            MembersDistinct(st, c, rs, j, n);
          }
        }
      }
    }
  }

  lemma OrderedAt(rs: seq<Request>, i: nat, j: nat)
    requires Ordered(rs) && i <= j < |rs|
    ensures rs[i].now <= rs[j].now
  {
  }

  lemma MonotoneAt(score: int -> real, s: int, t: int)
    requires Monotone(score) && s <= t
    ensures score(s) <= score(t)
  {
  }

  lemma {:induction false} StillHolds(st: State, c: Config, score: int -> real, rs: seq<Request>)
    requires Setting(st, c, score, rs)
    ensures Holds(After(st, c, score, rs), st, c, score, rs)
  {
    if rs != [] {
      var front, r := rs[..|rs| - 1], rs[|rs| - 1];
      assert rs == front + [r];
      StillHolds(st, c, score, front);
      SequenceAfter(st, c, score, front);
      hide Holds, Setting, AfterRequest, SequenceOf;
      HoldsStep(After(st, c, score, front), st, c, score, front, r);
    }
  }

  lemma OnlyHoldsStep(before: State, st: State, c: Config, score: int -> real, front: seq<Request>, r: Request)
    requires c.Usable() && OnlyHolds(before, st, c, score, front)
    requires (before.sequence + 1) % WRAP == SequenceOf(st, |front|)
    ensures OnlyHolds(AfterRequest(before, c, score, r), st, c, score, front + [r])
  {
    var rs, n := front + [r], |front|;
    var end := AfterRequest(before, c, score, r);
    hide KeyLife, Member, SequenceOf;
    forall m | m in end.members ensures FromRequest(end.members[m], st, c, score, rs, m) {
      if r.fault != Refused && m == MemberOf(st, c, rs, n) {
        assert end.members[m] == score(rs[n].now);
      } else {
        assert m in before.members && before.members[m] == end.members[m];
        assert FromRequest(before.members[m], st, c, score, front, m);
        var j: nat :| j < n && m == MemberOf(st, c, front, j) && front[j].fault != Refused
                      && before.members[m] == score(front[j].now);
        assert rs[j] == front[j] && m == MemberOf(st, c, rs, j);
      }
    }
  }

  lemma {:induction false} StillOnlyHolds(st: State, c: Config, score: int -> real, rs: seq<Request>)
    requires c.Usable() && st.members == map[] && st.sequence < WRAP
    ensures OnlyHolds(After(st, c, score, rs), st, c, score, rs)
  {
    if rs != [] {
      var front, r := rs[..|rs| - 1], rs[|rs| - 1];
      assert rs == front + [r];
      StillOnlyHolds(st, c, score, front);
      SequenceAfter(st, c, score, front);
      hide OnlyHolds, AfterRequest, SequenceOf;
      OnlyHoldsStep(After(st, c, score, front), st, c, score, front, r);
    }
  }

  // ---- Counting ----

  lemma {:induction false} InjectionCount(s: set<nat>, f: nat -> string, t: set<string>)
    requires forall x :: x in s ==> f(x) in t
    requires forall x, y :: x in s && y in s && f(x) == f(y) ==> x == y
    ensures |s| <= |t|
  {
    if s != {} {
      var x :| x in s;
      InjectionCount(s - {x}, f, t - {f(x)});
    }
  }

  lemma {:induction false} SurjectionCount(s: set<nat>, f: nat -> string, t: set<string>)
    requires forall m :: m in t ==> exists x :: x in s && f(x) == m
    ensures |t| <= |s|
  {
    if t != {} {
      var m :| m in t;
      var x :| x in s && f(x) == m;
      forall k | k in t - {m} ensures exists y :: y in s - {x} && f(y) == k {
        var y :| y in s && f(y) == k;
        assert y in s - {x};
      }
      SurjectionCount(s - {x}, f, t - {m});
    }
  }

  lemma RunUpTo(st: State, c: Config, score: int -> real, rs: seq<Request>, i: nat)
    requires i < |rs|
    ensures rs[..i + 1][..i] == rs[..i]
    ensures After(st, c, score, rs[..i + 1]) == AfterRequest(After(st, c, score, rs[..i]), c, score, rs[i])
    ensures forall j: nat :: j <= i ==> MemberOf(st, c, rs[..i + 1], j) == MemberOf(st, c, rs, j)
  {
    assert rs[..i + 1][..i] == rs[..i];
  }

  /** Every request of the window, admitted or not, is in the count, whatever the rounding. */
  lemma CountCoversWindow(st: State, c: Config, score: int -> real, rs: seq<Request>, i: nat)
    requires Setting(st, c, score, rs) && i < |rs| && rs[i].fault != Refused
    ensures |Recent(c, rs, i)| <= Used(st, c, score, rs, i)
  {
    var upTo := rs[..i + 1];
    assert Setting(st, c, score, upTo);
    StillHolds(st, c, score, upTo);
    RunUpTo(st, c, score, rs, i);
    hide Setting, Member, KeyLife, Recorded;
    var f := (j: nat) => MemberOf(st, c, rs, j);
    var members := After(st, c, score, upTo).members;
    forall j | j in Recent(c, rs, i) ensures f(j) in members {
      assert upTo[j] == rs[j] && upTo[i] == rs[i];
    }
    forall x, y | x in Recent(c, rs, i) && y in Recent(c, rs, i) && f(x) == f(y) ensures x == y {
      BoundedRun(st, c, score, rs);
      MembersDistinct(st, c, rs, x, y);
    }
    InjectionCount(Recent(c, rs, i), f, members.Keys);
  }

  lemma BoundedRun(st: State, c: Config, score: int -> real, rs: seq<Request>)
    requires Setting(st, c, score, rs)
    ensures |rs| < WRAP && c.Usable()
  {
  }

  lemma StrictAt(score: int -> real, rs: seq<Request>, i: nat, window: int)
    requires Strict(score) && i < |rs|
    ensures forall j :: 0 <= j < |rs| && score(rs[j].now) >= score(rs[i].now - window) ==> rs[j].now >= rs[i].now - window
  {
  }

  lemma HeldFrom(end: State, st: State, c: Config, score: int -> real, rs: seq<Request>, m: string)
    requires OnlyHolds(end, st, c, score, rs) && m in end.members
    ensures FromRequest(end.members[m], st, c, score, rs, m)
  {
  }

  lemma SameMember(st: State, c: Config, rs: seq<Request>, i: nat, j: nat)
    requires j < i <= |rs|
    ensures MemberOf(st, c, rs[..i], j) == MemberOf(st, c, rs, j)
  {
  }

  /** A member of the set is the request's own, or an older one the trim left. */
  lemma HeldAfter(before: State, c: Config, score: int -> real, r: Request, m: string)
    requires c.Usable() && r.fault != Refused && m in AfterRequest(before, c, score, r).members
    ensures || m == Member(c.prefix, r.now, (before.sequence + 1) % WRAP)
            || (m in before.members && !(0.0 <= before.members[m] < score(r.now - c.window)))
  {
    hide Member, KeyLife;
  }

  lemma AdmittedIff(st: State, c: Config, score: int -> real, rs: seq<Request>, i: nat)
    requires c.Usable() && i < |rs|
    ensures Admitted(st, c, score, rs, i) <==> rs[i].fault == Healthy && Used(st, c, score, rs, i) <= c.limit
  {
    hide Recorded, After;
  }

  lemma HeldOlder(st: State, c: Config, score: int -> real, rs: seq<Request>, i: nat, m: string)
    requires c.Usable() && st.members == map[] && st.sequence < WRAP && i < |rs|
    requires m in After(st, c, score, rs[..i]).members
    ensures exists j: nat :: j < i && m == MemberOf(st, c, rs, j) && rs[j].fault != Refused
                             && After(st, c, score, rs[..i]).members[m] == score(rs[j].now)
  {
    StillOnlyHolds(st, c, score, rs[..i]);
    var before := After(st, c, score, rs[..i]);
    HeldFrom(before, st, c, score, rs[..i], m);
    hide After, OnlyHolds, MemberOf;
    var j: nat :| j < i && m == MemberOf(st, c, rs[..i], j) && rs[..i][j].fault != Refused
                  && before.members[m] == score(rs[..i][j].now);
    SameMember(st, c, rs, i, j);
    assert rs[..i][j] == rs[j];
  }

  lemma OwnMember(st: State, c: Config, score: int -> real, rs: seq<Request>, i: nat)
    requires c.Usable() && i < |rs|
    ensures Member(c.prefix, rs[i].now, (After(st, c, score, rs[..i]).sequence + 1) % WRAP) == MemberOf(st, c, rs, i)
  {
    SequenceAfter(st, c, score, rs[..i]);
    hide Member, After, SequenceOf;
  }

  lemma HeldIsRecent(st: State, c: Config, score: int -> real, rs: seq<Request>, i: nat, m: string)
    requires Setting(st, c, score, rs) && Strict(score) && i < |rs| && rs[i].fault != Refused
    requires forall j :: 0 <= j < |rs| ==> score(rs[j].now) >= 0.0
    requires m in After(st, c, score, rs[..i + 1]).members
    ensures exists j :: j in Recent(c, rs, i) && MemberOf(st, c, rs, j) == m
  {
    RunUpTo(st, c, score, rs, i);
    StrictAt(score, rs, i, c.window);
    assert c.Usable() && st.members == map[] && st.sequence < WRAP;
    hide Member, KeyLife, Setting, After, Strict, Expired, MemberOf, AfterRequest;
    var before := After(st, c, score, rs[..i]);
    HeldAfter(before, c, score, rs[i], m);
    OwnMember(st, c, score, rs, i);
    if m == MemberOf(st, c, rs, i) {
      assert i in Recent(c, rs, i);
    } else {
      HeldOlder(st, c, score, rs, i, m);
      var j: nat :| j < i && m == MemberOf(st, c, rs, j) && rs[j].fault != Refused
                    && before.members[m] == score(rs[j].now);
      assert j in Recent(c, rs, i);
    }
  }

  lemma UsedIs(st: State, c: Config, score: int -> real, rs: seq<Request>, i: nat)
    requires c.Usable() && i < |rs| && rs[i].fault != Refused
    ensures Used(st, c, score, rs, i) == |After(st, c, score, rs[..i + 1]).members|
  {
    RunUpTo(st, c, score, rs, i);
    hide Recorded, MemberOf;
  }

  /** With exact scores the count is the number of requests in the window that ends now, this one included. */
  lemma CountIsExact(st: State, c: Config, score: int -> real, rs: seq<Request>, i: nat)
    requires Setting(st, c, score, rs) && Strict(score) && i < |rs| && rs[i].fault != Refused
    requires forall j :: 0 <= j < |rs| ==> score(rs[j].now) >= 0.0
    ensures Used(st, c, score, rs, i) == |Recent(c, rs, i)|
    ensures Admitted(st, c, score, rs, i) <==> rs[i].fault == Healthy && |Recent(c, rs, i)| <= c.limit
  {
    BoundedRun(st, c, score, rs);
    CountCoversWindow(st, c, score, rs, i);
    RunUpTo(st, c, score, rs, i);
    AdmittedIff(st, c, score, rs, i);
    UsedIs(st, c, score, rs, i);
    hide Used, Admitted, Setting, Recorded, Member, MemberOf, After, AfterRequest, Recent, Strict;
    var members := After(st, c, score, rs[..i + 1]).members;
    forall m | m in members.Keys
      ensures exists j :: j in Recent(c, rs, i) && ((j: nat) => MemberOf(st, c, rs, j))(j) == m
    {
      HeldIsRecent(st, c, score, rs, i, m);
      var j :| j in Recent(c, rs, i) && MemberOf(st, c, rs, j) == m;
      assert ((j: nat) => MemberOf(st, c, rs, j))(j) == m;
    }
    SurjectionCount(Recent(c, rs, i), (j: nat) => MemberOf(st, c, rs, j), members.Keys);
  }

  /** What request i is told. */
  function AnswerAt(st: State, c: Config, score: int -> real, rs: seq<Request>, i: nat): Answer
    requires i < |rs|
  {
    AnswerTo(After(st, c, score, rs[..i]), c, score, rs[i])
  }

  /** A request fails on an unusable configuration, which it leaves alone, or when its answer does not come back. */
  lemma FailureIs(st: State, c: Config, score: int -> real, r: Request)
    ensures AnswerTo(st, c, score, r) == Failure <==> c.limit <= 0 || c.window <= 0 || r.fault != Healthy
    ensures c.limit <= 0 || c.window <= 0 ==> AfterRequest(st, c, score, r) == st
    ensures r.fault == Refused ==> AfterRequest(st, c, score, r).members == st.members
                                   && AfterRequest(st, c, score, r).deadline == st.deadline
  {
    hide Recorded;
  }

  lemma AnswerIs(st: State, c: Config, score: int -> real, rs: seq<Request>, i: nat)
    requires c.Usable() && i < |rs| && rs[i].fault == Healthy
    ensures var used := Used(st, c, score, rs, i);
            AnswerAt(st, c, score, rs, i) == Answer(used <= c.limit, if c.limit - used >= 0 then c.limit - used else 0)
    ensures Used(st, c, score, rs, i) >= 1
  {
    var members := Recorded(After(st, c, score, rs[..i]), c, score, rs[i].now).members;
    var own := Member(c.prefix, rs[i].now, (After(st, c, score, rs[..i]).sequence + 1) % WRAP);
    assert own in members;
    assert members.Keys != {};
    hide After, Member, Trimmed, KeyLife;
  }

  /** Under any rounding a denied request is told that nothing is left, and an admitted one at most limit - 1. */
  lemma RemainingIsSound(st: State, c: Config, score: int -> real, rs: seq<Request>, i: nat)
    requires c.Usable() && i < |rs| && rs[i].fault == Healthy
    ensures var a := AnswerAt(st, c, score, rs, i);
            a.Answer? && (a.allowed || a.remaining == 0) && 0 <= a.remaining <= c.limit - 1
  {
    AnswerIs(st, c, score, rs, i);
    hide AnswerAt, Used;
  }

  /** With exact scores every answered request is told what its window leaves of the limit. */
  lemma RemainingIsExact(st: State, c: Config, score: int -> real, rs: seq<Request>, i: nat)
    requires Setting(st, c, score, rs) && Strict(score) && i < |rs| && rs[i].fault == Healthy
    requires forall j :: 0 <= j < |rs| ==> score(rs[j].now) >= 0.0
    ensures var left := c.limit - |Recent(c, rs, i)|;
            AnswerAt(st, c, score, rs, i) == Answer(left >= 0, if left >= 0 then left else 0)
  {
    BoundedRun(st, c, score, rs);
    CountIsExact(st, c, score, rs, i);
    AnswerIs(st, c, score, rs, i);
    hide AnswerAt, Used, Recent, Admitted, Setting, Strict;
  }

  // ---- Safety ----

  function AdmittedWithin(st: State, c: Config, score: int -> real, rs: seq<Request>, from: int): set<nat> {
    set i: nat | i < |rs| && from <= rs[i].now <= from + c.window && Admitted(st, c, score, rs, i)
  }

  lemma {:induction false} LastOf(s: set<nat>) returns (last: nat)
    requires s != {}
    ensures last in s && forall x :: x in s ==> x <= last
  {
    var one :| one in s;
    var others := s - {one};
    assert s == others + {one};
    if others == {} {
      last := one;
    } else {
      last := LastOf(others);
      last := if last < one then one else last;
    }
  }

  /** Every interval one window long contains at most limit admitted requests, for any monotone rounding. */
  lemma WindowSafety(st: State, c: Config, score: int -> real, rs: seq<Request>, from: int)
    requires Setting(st, c, score, rs)
    ensures |AdmittedWithin(st, c, score, rs, from)| <= c.limit
  {
    var s := AdmittedWithin(st, c, score, rs, from);
    BoundedRun(st, c, score, rs);
    if s != {} {
      var last := LastOf(s);
      CountCoversWindow(st, c, score, rs, last);
      hide Setting, Recorded, Used;
      assert s <= Recent(c, rs, last);
      SmallerSet(s, Recent(c, rs, last));
    }
  }

  // ---- A key that runs out before its window ----

  const EXACT: int -> real := t => t as real
  const EMPTY := State(map[], 0, 0)

  /** limit requests at the end of a millisecond, and one more when the key has just run out. */
  function Burst(c: Config): seq<Request>
    requires c.Usable()
  {
    seq(c.limit, i => Request(999_999, Healthy)) + [Request(KeyLife(c.window) + 1_000_000, Healthy)]
  }

  lemma {:induction false} NoMoreThanRequests(st: State, c: Config, score: int -> real, rs: seq<Request>)
    requires c.Usable() && st.members == map[]
    ensures |After(st, c, score, rs).members| <= |rs|
  {
    if rs != [] {
      var n := |rs| - 1;
      NoMoreThanRequests(st, c, score, rs[..n]);
      OneMore(After(st, c, score, rs[..n]), c, score, rs[n].now);
      hide Recorded;
    }
  }

  lemma OneMore(st: State, c: Config, score: int -> real, now: int)
    ensures |Recorded(st, c, score, now).members| <= |st.members| + 1
    ensures Expired(st.deadline, now) ==> |Recorded(st, c, score, now).members| == 1
  {
    var present := if Expired(st.deadline, now) then map[] else st.members;
    var left := Trimmed(present, score(now - c.window));
    var m := Member(c.prefix, now, (st.sequence + 1) % WRAP);
    hide Member, Expired, KeyLife;
    SmallerSet(left.Keys, present.Keys);
    AddedKey(left, m, score(now));
  }

  lemma AddedKey(members: map<string, real>, m: string, score: real)
    ensures |members[m := score]| <= |members| + 1
    ensures members == map[] ==> |members[m := score]| == 1
  {
    var after := members[m := score];
    assert after.Keys == members.Keys + {m};
    assert members == map[] ==> after.Keys == {m};
  }

  /** Up to the limit every count is small enough; after it the key is gone. */
  lemma BurstAdmitted(c: Config, i: nat)
    requires c.Usable() && i < |Burst(c)|
    ensures Admitted(EMPTY, c, EXACT, Burst(c), i)
  {
    var rs := Burst(c);
    var before := After(EMPTY, c, EXACT, rs[..i]);
    NoMoreThanRequests(EMPTY, c, EXACT, rs[..i]);
    if i == c.limit {
      BurstRunsOut(c);
    }
    hide Recorded, After, Expired, KeyLife;
    OneMore(before, c, EXACT, rs[i].now);
  }

  lemma RunsOut(window: int)
    ensures Expired(Millis(999_999) + Millis(KeyLife(window)), KeyLife(window) + 1_000_000)
  {
    WholeSeconds(1_000_000, KeyLife(window));
  }

  lemma BurstRunsOut(c: Config)
    requires c.Usable()
    ensures Expired(After(EMPTY, c, EXACT, Burst(c)[..c.limit]).deadline, Burst(c)[c.limit].now)
  {
    var rs, n := Burst(c), c.limit;
    var last := rs[n - 1];
    RunsOut(c.window);
    hide AfterRequest, KeyLife, Expired, Millis;
    assert rs[..n][..n - 1] == rs[..n - 1] && rs[..n][n - 1] == last;
    DeadlineOf(After(EMPTY, c, EXACT, rs[..n - 1]), c, EXACT, last);
  }

  lemma DeadlineOf(st: State, c: Config, score: int -> real, r: Request)
    requires c.Usable() && r.fault == Healthy
    ensures AfterRequest(st, c, score, r).deadline == Millis(r.now) + Millis(KeyLife(c.window))
  {
  }

  lemma {:induction false} Count(s: set<nat>, n: nat)
    requires forall i: nat :: i in s <==> i < n
    ensures |s| == n
  {
    assert n > 0 ==> 0 in s;
    if s != {} {
      Count(s - {n - 1}, n - 1);
    }
  }

  /** Whatever the limit, a key that runs out before its window lets one request too many through. */
  lemma ShortKeyLifeIsUnsafe(c: Config)
    requires c.Usable() && KeyLife(c.window) < c.window
    ensures Ordered(Burst(c)) && |AdmittedWithin(EMPTY, c, EXACT, Burst(c), 999_999)| == c.limit + 1
  {
    var rs := Burst(c);
    hide Admitted, KeyLife;
    forall i: nat | i < |rs| ensures 999_999 <= rs[i].now <= 999_999 + c.window && Admitted(EMPTY, c, EXACT, rs, i) {
      BurstAdmitted(c, i);
    }
    Count(AdmittedWithin(EMPTY, c, EXACT, rs, 999_999), c.limit + 1);
  }

  /** What a run may be: from no recorded request on, in the order of the clock, under a monotone rounding. */
  ghost predicate IsRun(st: State, score: int -> real, rs: seq<Request>) {
    st.members == map[] && st.sequence < WRAP && Monotone(score) && Ordered(rs) && |rs| < WRAP
  }

  ghost predicate Safe(c: Config) {
    forall st, score, rs, from :: IsRun(st, score, rs) ==> |AdmittedWithin(st, c, score, rs, from)| <= c.limit
  }

  /** The limiter keeps its promise in every run exactly when the key's life covers the window. */
  lemma SafeIffKeyOutlivesWindow(c: Config)
    requires c.Usable() && c.limit <= MAX_INT64
    ensures Safe(c) <==> KeyLife(c.window) >= c.window
    ensures Safe(c) <==> c.window < SECOND || c.window % SECOND == 0
  {
    KeyOutlivesWindow(c.window);
    if KeyLife(c.window) >= c.window {
      forall st, score, rs, from | IsRun(st, score, rs) ensures |AdmittedWithin(st, c, score, rs, from)| <= c.limit {
        WindowSafety(st, c, score, rs, from);
      }
    } else {
      ShortKeyLifeIsUnsafe(c);
      assert IsRun(EMPTY, EXACT, Burst(c));
    }
  }
}
