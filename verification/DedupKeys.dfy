/** Events of the alert service, their validation, and the two deduplication keys. */
module DedupKeys {
  import opened Strings
  import opened Common
  import opened TimeFormat

  const FIRING := "firing"
  const RESOLVED := "resolved"

  /** A decoded message; json is what encoding the event again yields (None when the encoder refuses it). */
  datatype Event = Event(
    fingerprint: string,
    status: string,
    labels: map<string, string>,
    startsAt: Time,
    endsAt: Time,
    json: Option<string>)

  predicate ValidEvent(e: Event) {
    e.fingerprint != "" && (e.status == FIRING || e.status == RESOLVED)
  }

  function AlertNameOrFallback(e: Event): string {
    var name := TrimSpace(if "alertname" in e.labels then e.labels["alertname"] else "");
    if name != "" then name else e.fingerprint
  }

  /** A counter goes by the trimmed alert name, and by the fingerprint when there is none. */
  lemma CounterName(e: Event)
    ensures "alertname" !in e.labels ==> AlertNameOrFallback(e) == e.fingerprint
    ensures forall name :: "alertname" in e.labels && Trims(e.labels["alertname"], name)
                      ==> AlertNameOrFallback(e) == if name != "" then name else e.fingerprint
  {
    forall name | "alertname" in e.labels && Trims(e.labels["alertname"], name)
      ensures AlertNameOrFallback(e) == if name != "" then name else e.fingerprint
    {
      TrimSpaceIs(e.labels["alertname"], name);
    }
    assert TrimSpace("") == "";
    hide Trims, TrimSpace;
  }

  /** The times of an event that are set, start before end. */
  function SetTimes(e: Event): seq<Time> {
    (if e.startsAt == ZERO then [] else [e.startsAt]) + (if e.endsAt == ZERO then [] else [e.endsAt])
  }

  /** An unset time is the first instant of year 1; the others count, start before end. */
  lemma SetTimesAre(e: Event)
    ensures var (s, t) := (e.startsAt, e.endsAt);
            var zero := RawTime(1, 1, 1, 0, 0, 0, 0);
            && (s != zero && t != zero ==> SetTimes(e) == [s, t])
            && (s != zero && t == zero ==> SetTimes(e) == [s])
            && (s == zero && t != zero ==> SetTimes(e) == [t])
            && (s == zero && t == zero ==> SetTimes(e) == [])
  {
  }

  function DedupKey(e: Event): string {
    var parts := ["alert", "dedup", e.fingerprint, e.status];
    var parts := if e.startsAt == ZERO then parts else parts + [Format(e.startsAt)];
    var parts := if e.endsAt == ZERO then parts else parts + [Format(e.endsAt)];
    Join(parts, ":")
  }

  /** A text followed by colon-led stamps; the shape both keys end in. */
  function WithStamps(head: string, stamps: seq<Stamp>): string {
    if stamps == [] then head
    else WithStamps(head, stamps[..|stamps| - 1]) + [':'] + stamps[|stamps| - 1].Text()
  }

  lemma WithStampsSnoc(head: string, stamps: seq<Stamp>, s: Stamp)
    ensures WithStamps(head, stamps + [s]) == WithStamps(head, stamps) + [':'] + s.Text()
  {
    var all := stamps + [s];
    assert all[..|all| - 1] == stamps;
  }

  function Stamps(times: seq<Time>): (stamps: seq<Stamp>)
    ensures |stamps| == |times| && forall i :: 0 <= i < |times| ==> stamps[i] == StampOf(times[i])
  {
    seq(|times|, i requires 0 <= i < |times| => StampOf(times[i]))
  }

  lemma StampsInjective(s: seq<Time>, t: seq<Time>)
    requires Stamps(s) == Stamps(t)
    ensures s == t
  {
    forall i | 0 <= i < |s| ensures s[i] == t[i] {
      assert Stamps(s)[i] == Stamps(t)[i];
      StampInjective(s[i], t[i]);
    }
  }

  function KeyHead(fingerprint: string, status: string): string {
    "alert:dedup:" + fingerprint + [':'] + status
  }

  lemma JoinFour(fingerprint: string, status: string)
    ensures Join(["alert", "dedup", fingerprint, status], ":") == KeyHead(fingerprint, status)
  {
    assert ["alert", "dedup", fingerprint, status] == ["alert"] + ["dedup"] + [fingerprint] + [status];
    JoinSnoc(["alert"], "dedup", ":");
    JoinSnoc(["alert"] + ["dedup"], fingerprint, ":");
    JoinSnoc(["alert"] + ["dedup"] + [fingerprint], status, ":");
    assert "alert" + ":" + "dedup" + ":" == "alert:dedup:";
  }

  lemma JoinStamps(base: seq<string>, head: string, times: seq<Time>, t: Time)
    requires base != [] && Join(base, ":") == WithStamps(head, Stamps(times))
    ensures Join(base + [Format(t)], ":") == WithStamps(head, Stamps(times + [t]))
  {
    hide Join, WithStamps, StampOf, Stamp.Text;
    JoinSnoc(base, Format(t), ":");
    WithStampsSnoc(head, Stamps(times), StampOf(t));
    assert Stamps(times + [t]) == Stamps(times) + [StampOf(t)];
  }

  lemma DedupKeyShape(e: Event)
    ensures DedupKey(e) == WithStamps(KeyHead(e.fingerprint, e.status), Stamps(SetTimes(e)))
  {
    var base, head := ["alert", "dedup", e.fingerprint, e.status], KeyHead(e.fingerprint, e.status);
    JoinFour(e.fingerprint, e.status);
    assert Stamps([]) == [];
    var withStart := if e.startsAt == ZERO then base else base + [Format(e.startsAt)];
    var startTimes := if e.startsAt == ZERO then [] else [e.startsAt];
    if e.startsAt != ZERO {
      JoinStamps(base, head, [], e.startsAt);
      assert [] + [e.startsAt] == startTimes;
    }
    if e.endsAt == ZERO {
      assert SetTimes(e) == startTimes;
    } else {
      JoinStamps(withStart, head, startTimes, e.endsAt);
      assert SetTimes(e) == startTimes + [e.endsAt];
    }
  }

  /** A status word: colon-free and not to be taken for a piece of a time. */
  predicate StatusWord(status: string) {
    ':' !in status && !StartsLikeNumber(status)
  }

  /** The last stamp of a key can be peeled off. */
  lemma PeelStamp(x: string, s: Stamp, y: string, t: Stamp)
    requires s.Clean() && t.Clean() && x + [':'] + s.Text() == y + [':'] + t.Text()
    ensures x == y && s == t
  {
    LastThreePieces(x, s.dateHour, s.minute, s.seconds, y, t.dateHour, t.minute, t.seconds, ':');
  }

  /** A key that ends in a stamp differs from one that ends in a status word. */
  lemma StampIsNotStatus(x: string, s: Stamp, y: string, status: string)
    requires StatusWord(status) && s.Clean()
    ensures x + [':'] + s.Text() != y + [':'] + status
  {
    Regroup(x, s.dateHour, s.minute, s.seconds, ':');
    if x + [':'] + s.Text() == y + [':'] + status {
      LastPiece(x + [':'] + s.dateHour + [':'] + s.minute, s.seconds, y, status, ':');
    }
  }

  predicate AllClean(stamps: seq<Stamp>) {
    forall i :: 0 <= i < |stamps| ==> stamps[i].Clean()
  }

  lemma PeelLast(head: string, front: seq<Stamp>, last: Stamp, head': string, front': seq<Stamp>, last': Stamp)
    requires last.Clean() && last'.Clean()
    requires WithStamps(head, front + [last]) == WithStamps(head', front' + [last'])
    ensures WithStamps(head, front) == WithStamps(head', front') && last == last'
  {
    WithStampsSnoc(head, front, last);
    WithStampsSnoc(head', front', last');
    hide WithStamps, Stamp.Text, Stamp.Clean;
    PeelStamp(WithStamps(head, front), last, WithStamps(head', front'), last');
  }

  /** No stamps on one side only: a status word is never read as a time, nor the other way round. */
  lemma NoStampsNoStamps(p: string, status: string, head: string, stamps: seq<Stamp>)
    requires StatusWord(status) && AllClean(stamps)
    requires p + [':'] + status == WithStamps(head, stamps)
    ensures stamps == []
  {
    if stamps != [] {
      hide Stamp.Text, Stamp.Clean;
      StampIsNotStatus(WithStamps(head, stamps[..|stamps| - 1]), stamps[|stamps| - 1], p, status);
    }
  }

  lemma {:induction false} KeyDeterminesParts(p: string, status: string, stamps: seq<Stamp>,
                                              q: string, status': string, stamps': seq<Stamp>)
    requires StatusWord(status) && StatusWord(status') && AllClean(stamps) && AllClean(stamps')
    requires WithStamps(p + [':'] + status, stamps) == WithStamps(q + [':'] + status', stamps')
    ensures p == q && status == status' && stamps == stamps'
    decreases |stamps|
  {
    var head, head' := p + [':'] + status, q + [':'] + status';
    if stamps == [] {
      NoStampsNoStamps(p, status, head', stamps');
      LastPiece(p, status, q, status', ':');
    } else if stamps' == [] {
      NoStampsNoStamps(q, status', head, stamps);
    } else {
      hide WithStamps, Stamp.Clean, StatusWord;
      var front, front' := stamps[..|stamps| - 1], stamps'[..|stamps'| - 1];
      var last, last' := stamps[|stamps| - 1], stamps'[|stamps'| - 1];
      assert stamps == front + [last] && stamps' == front' + [last'];
      PeelLast(head, front, last, head', front', last');
      KeyDeterminesParts(p, status, front, q, status', front');
    }
  }

  lemma StampsAreClean(times: seq<Time>)
    ensures forall i :: 0 <= i < |Stamps(times)| ==> Stamps(times)[i].Clean()
  {
    forall i | 0 <= i < |times| ensures Stamps(times)[i].Clean() {
      StampIsClean(times[i]);
    }
  }

  lemma SameKeySameParts(fp: string, status: string, times: seq<Time>, fp': string, status': string, times': seq<Time>)
    requires StatusWord(status) && StatusWord(status')
    requires WithStamps(KeyHead(fp, status), Stamps(times)) == WithStamps(KeyHead(fp', status'), Stamps(times'))
    ensures fp == fp' && status == status' && times == times'
  {
    StampsAreClean(times);
    StampsAreClean(times');
    KeyDeterminesParts("alert:dedup:" + fp, status, Stamps(times), "alert:dedup:" + fp', status', Stamps(times'));
    SameHead("alert:dedup:", fp, fp');
    StampsInjective(times, times');
  }

  /** Two valid events share a key exactly when fingerprint, status and the set times agree. */
  lemma DedupKeyMeaning(e: Event, f: Event)
    requires ValidEvent(e) && ValidEvent(f)
    ensures DedupKey(e) == DedupKey(f)
       <==> e.fingerprint == f.fingerprint && e.status == f.status && SetTimes(e) == SetTimes(f)
  {
    hide DedupKey, WithStamps, KeyHead, Stamps;
    DedupKeyShape(e);
    DedupKeyShape(f);
    if DedupKey(e) == DedupKey(f) {
      SameKeySameParts(e.fingerprint, e.status, SetTimes(e), f.fingerprint, f.status, SetTimes(f));
    }
  }

  predicate IsDedupKey(key: string) {
    "alert:dedup:" <= key
  }

  lemma {:induction false} WithStampsPrefix(head: string, stamps: seq<Stamp>)
    ensures head <= WithStamps(head, stamps)
  {
    if stamps != [] {
      WithStampsPrefix(head, stamps[..|stamps| - 1]);
    }
  }

  /** No event's key can be mistaken for the active hash or the counters. */
  lemma DedupKeyApart(e: Event)
    ensures IsDedupKey(DedupKey(e))
    ensures DedupKey(e) != "alert:active" && DedupKey(e) != "alert:stats"
  {
    DedupKeyShape(e);
    var head := KeyHead(e.fingerprint, e.status);
    WithStampsPrefix(head, Stamps(SetTimes(e)));
    assert "alert:dedup:" <= head;
    PrefixTrans("alert:dedup:", head, DedupKey(e));
  }

  // ---- The event key of server-web, which always carries both times ----

  const EVENT_DEDUPE_PREFIX := "alert:event:dedupe"

  function EventDedupeKey(fingerprint: string, status: string, startsAt: Time, endsAt: Time): string {
    EVENT_DEDUPE_PREFIX + ":" + fingerprint + ":" + status + ":" + Format(startsAt) + ":" + Format(endsAt)
  }

  lemma EventKeyParts(p: string, status: string, s: Stamp, e: Stamp, p': string, status': string, s': Stamp, e': Stamp)
    requires ':' !in status && ':' !in status' && s.Clean() && e.Clean() && s'.Clean() && e'.Clean()
    requires p + [':'] + status + [':'] + s.Text() + [':'] + e.Text()
          == p' + [':'] + status' + [':'] + s'.Text() + [':'] + e'.Text()
    ensures p == p' && status == status' && s == s' && e == e'
  {
    PeelStamp(p + [':'] + status + [':'] + s.Text(), e, p' + [':'] + status' + [':'] + s'.Text(), e');
    PeelStamp(p + [':'] + status, s, p' + [':'] + status', s');
    LastPiece(p, status, p', status', ':');
  }

  /** The key separates all four components, fingerprints with colons in them included. */
  lemma EventDedupeKeyInjective(fp: string, status: string, s: Time, e: Time,
                                fp': string, status': string, s': Time, e': Time)
    requires ':' !in status && ':' !in status'
    ensures EventDedupeKey(fp, status, s, e) == EventDedupeKey(fp', status', s', e')
       <==> fp == fp' && status == status' && s == s' && e == e'
  {
    if EventDedupeKey(fp, status, s, e) == EventDedupeKey(fp', status', s', e') {
      StampIsClean(s); StampIsClean(e); StampIsClean(s'); StampIsClean(e');
      EventKeyParts(EVENT_DEDUPE_PREFIX + ":" + fp, status, StampOf(s), StampOf(e),
                    EVENT_DEDUPE_PREFIX + ":" + fp', status', StampOf(s'), StampOf(e'));
      SameHead(EVENT_DEDUPE_PREFIX + ":", fp, fp');
      StampInjective(s, s');
      StampInjective(e, e');
    }
  }
}
