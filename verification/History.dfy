/** The alert history table: one row per alert occurrence, created on first sight and updated after. */
module History {
  import opened Strings
  import opened TimeFormat
  import opened DedupKeys

  /** An alert as Alertmanager posts it. */
  datatype Alert = Alert(
    status: string,
    fingerprint: string,
    labels: map<string, string>,
    annotations: map<string, string>,
    startsAt: Time,
    endsAt: Time,
    generatorUrl: string)

  datatype Row = Row(
    id: nat,
    fingerprint: string,
    alertName: string,
    instance: string,
    severity: string,
    status: string,
    summary: string,
    labels: map<string, string>,
    firedAt: Time,
    resolvedAt: Option<Time>)

  predicate Supported(status: string) {
    status == FIRING || status == RESOLVED
  }

  function Lookup(m: map<string, string>, key: string): string {
    if key in m then m[key] else ""
  }

  function BuildHistory(a: Alert): Row {
    var severity := TrimSpace(Lookup(a.labels, "severity"));
    Row(0, a.fingerprint, TrimSpace(Lookup(a.labels, "alertname")), TrimSpace(Lookup(a.labels, "instance")),
        if severity == "" then "warning" else severity, a.status, TrimSpace(Lookup(a.annotations, "summary")),
        a.labels, a.startsAt, if a.status == RESOLVED then Some(a.endsAt) else None)
  }

  /** What a row says of the alert it was built from. */
  lemma HistoryFields(a: Alert)
    ensures var h := BuildHistory(a);
            && h.fingerprint == a.fingerprint && h.firedAt == a.startsAt && h.labels == a.labels && h.status == a.status
            && Trims(Lookup(a.labels, "alertname"), h.alertName)
            && Trims(Lookup(a.labels, "instance"), h.instance)
            && Trims(Lookup(a.annotations, "summary"), h.summary)
            && (Trims(Lookup(a.labels, "severity"), h.severity)
                || (Trims(Lookup(a.labels, "severity"), "") && h.severity == "warning"))
            && h.severity != ""
            && h.resolvedAt == if a.status == "resolved" then Some(a.endsAt) else None
  {
    TrimSpaceIs(Lookup(a.labels, "alertname"), TrimSpace(Lookup(a.labels, "alertname")));
    TrimSpaceIs(Lookup(a.labels, "instance"), TrimSpace(Lookup(a.labels, "instance")));
    TrimSpaceIs(Lookup(a.labels, "severity"), TrimSpace(Lookup(a.labels, "severity")));
    TrimSpaceIs(Lookup(a.annotations, "summary"), TrimSpace(Lookup(a.annotations, "summary")));
    hide Trims, TrimSpace, Lookup;
  }

  /** One occurrence of an alert. */
  type Key = (string, Time)

  function KeyOf(a: Alert): Key {
    (a.fingerprint, a.startsAt)
  }

  function RowKey(r: Row): Key {
    (r.fingerprint, r.firedAt)
  }

  predicate HasKey(rows: seq<Row>, k: Key) {
    exists i :: 0 <= i < |rows| && RowKey(rows[i]) == k
  }

  /** Index of the newest row of the key. */
  function Newest(rows: seq<Row>, k: Key): (i: nat)
    requires HasKey(rows, k)
    ensures i < |rows| && RowKey(rows[i]) == k && forall j :: i < j < |rows| ==> RowKey(rows[j]) != k
  {
    if RowKey(rows[|rows| - 1]) == k then |rows| - 1
    else
      assert HasKey(rows[..|rows| - 1], k) by {
        var i :| 0 <= i < |rows| && RowKey(rows[i]) == k;
        assert rows[..|rows| - 1][i] == rows[i];
      }
      Newest(rows[..|rows| - 1], k)
  }

  function Updated(r: Row, h: Row): Row {
    var described := r.(alertName := h.alertName, instance := h.instance, severity := h.severity, summary := h.summary,
                    labels := h.labels);
    if h.status == RESOLVED then described.(status := RESOLVED, resolvedAt := h.resolvedAt) else described
  }

  function NextId(rows: seq<Row>): nat {
    if rows == [] then 1 else rows[|rows| - 1].id + 1
  }

  /** The table after archiving one alert. */
  function Archived(rows: seq<Row>, a: Alert): seq<Row> {
    if HasKey(rows, KeyOf(a)) then
      var i := Newest(rows, KeyOf(a));
      rows[i := Updated(rows[i], BuildHistory(a))]
    else
      rows + [BuildHistory(a).(id := NextId(rows))]
  }

  class Table {
    var rows: seq<Row>

    constructor ()
      ensures rows == []
    {
      rows := [];
    }

    /** SELECT ... ORDER BY id DESC LIMIT 1, then INSERT or UPDATE, as one transaction that may roll back. */
    method ArchiveHistory(a: Alert, committed: bool)
      modifies this
      ensures rows == if committed then Archived(old(rows), a) else old(rows)
    {
      var history := BuildHistory(a);
      if !committed {
        return;
      }
      var i := |rows|;
      while i > 0 && RowKey(rows[i - 1]) != KeyOf(a)
        invariant 0 <= i <= |rows|
        invariant forall j :: i <= j < |rows| ==> RowKey(rows[j]) != KeyOf(a)
      {
        i := i - 1;
      }
      if i == 0 {
        rows := rows + [history.(id := NextId(rows))];
      } else {
        assert HasKey(rows, KeyOf(a)) && Newest(rows, KeyOf(a)) == i - 1;
        rows := rows[i - 1 := Updated(rows[i - 1], history)];
      }
    }
  }

  function ArchivedAll(rows: seq<Row>, es: seq<Alert>): seq<Row> {
    if es == [] then rows else Archived(ArchivedAll(rows, es[..|es| - 1]), es[|es| - 1])
  }

  lemma ArchivedAllSnoc(rows: seq<Row>, es: seq<Alert>, a: Alert)
    ensures ArchivedAll(rows, es + [a]) == Archived(ArchivedAll(rows, es), a)
  {
    hide Archived;
    assert (es + [a])[..|es|] == es;
  }

  lemma {:induction false} ArchivedAllConcat(rows: seq<Row>, es: seq<Alert>, fs: seq<Alert>)
    ensures ArchivedAll(rows, es + fs) == ArchivedAll(ArchivedAll(rows, es), fs)
  {
    if fs == [] {
      assert es + fs == es;
    } else {
      hide Archived, ArchivedAll;
      var front, last := fs[..|fs| - 1], fs[|fs| - 1];
      assert fs == front + [last] && es + fs == es + front + [last];
      ArchivedAllConcat(rows, es, front);
      ArchivedAllSnoc(rows, es + front, last);
      ArchivedAllSnoc(ArchivedAll(rows, es), front, last);
    }
  }

  // ---- What the table says about the alerts archived into it ----

  /** The last alert of the occurrence, and the last resolved one. */
  function LastOf(es: seq<Alert>, k: Key): Option<Alert> {
    if es == [] then None
    else if KeyOf(es[|es| - 1]) == k then Some(es[|es| - 1])
    else LastOf(es[..|es| - 1], k)
  }

  function LastResolved(es: seq<Alert>, k: Key): Option<Alert> {
    if es == [] then None
    else if KeyOf(es[|es| - 1]) == k && es[|es| - 1].status == RESOLVED then Some(es[|es| - 1])
    else LastResolved(es[..|es| - 1], k)
  }

  /** The row an occurrence must have: descriptive fields from its last alert, resolution from its last resolved one. */
  function RowFor(es: seq<Alert>, k: Key, id: nat): Row
    requires LastOf(es, k).Some?
  {
    var end := LastResolved(es, k);
    BuildHistory(LastOf(es, k).value).(
      id := id,
      status := if end.Some? then RESOLVED else FIRING,
      resolvedAt := if end.Some? then Some(end.value.endsAt) else None)
  }

  predicate DistinctKeys(rows: seq<Row>) {
    forall i, j :: 0 <= i < j < |rows| ==> RowKey(rows[i]) != RowKey(rows[j])
  }

  predicate IdsGrow(rows: seq<Row>) {
    forall i, j :: 0 <= i < j < |rows| ==> rows[i].id < rows[j].id
  }

  /** Every row is the one its occurrence must have. */
  predicate Describes(rows: seq<Row>, es: seq<Alert>) {
    forall i :: 0 <= i < |rows| ==> RowIsRight(rows[i], es)
  }

  predicate RowIsRight(r: Row, es: seq<Alert>) {
    LastOf(es, RowKey(r)).Some? && r == RowFor(es, RowKey(r), r.id)
  }

  /** Every archived occurrence has a row. */
  ghost predicate Covers(rows: seq<Row>, es: seq<Alert>) {
    forall k :: LastOf(es, k).Some? ==> HasKey(rows, k)
  }

  ghost predicate Tells(rows: seq<Row>, es: seq<Alert>) {
    DistinctKeys(rows) && IdsGrow(rows) && Describes(rows, es) && Covers(rows, es)
  }

  lemma Grow(es: seq<Alert>, a: Alert, k: Key)
    ensures LastOf(es + [a], k) == if KeyOf(a) == k then Some(a) else LastOf(es, k)
    ensures LastResolved(es + [a], k) == if KeyOf(a) == k && a.status == RESOLVED then Some(a) else LastResolved(es, k)
  {
    assert (es + [a])[..|es|] == es;
  }

  lemma OtherRowStaysRight(r: Row, es: seq<Alert>, a: Alert)
    requires RowIsRight(r, es) && RowKey(r) != KeyOf(a)
    ensures RowIsRight(r, es + [a])
  {
    Grow(es, a, RowKey(r));
    hide LastOf, LastResolved, BuildHistory;
  }

  lemma UpdatedRowIsRight(r: Row, es: seq<Alert>, a: Alert)
    requires RowIsRight(r, es) && RowKey(r) == KeyOf(a) && Supported(a.status)
    ensures RowIsRight(Updated(r, BuildHistory(a)), es + [a])
    ensures RowKey(Updated(r, BuildHistory(a))) == RowKey(r) && Updated(r, BuildHistory(a)).id == r.id
  {
    Grow(es, a, RowKey(r));
    hide LastOf, LastResolved, TrimSpace;
  }

  lemma NewRowIsRight(es: seq<Alert>, a: Alert, id: nat)
    requires LastResolved(es, KeyOf(a)).None? && Supported(a.status)
    ensures RowIsRight(BuildHistory(a).(id := id), es + [a]) && RowKey(BuildHistory(a)) == KeyOf(a)
  {
    Grow(es, a, KeyOf(a));
    hide LastOf, LastResolved, TrimSpace;
  }

  lemma StillCovers(rows: seq<Row>, after: seq<Row>, es: seq<Alert>, a: Alert)
    requires Covers(rows, es) && HasKey(after, KeyOf(a))
    requires |rows| <= |after| && forall i :: 0 <= i < |rows| ==> RowKey(after[i]) == RowKey(rows[i])
    ensures Covers(after, es + [a])
  {
    hide LastOf, RowKey;
    forall k | LastOf(es + [a], k).Some? ensures HasKey(after, k) {
      Grow(es, a, k);
      if k != KeyOf(a) {
        var i :| 0 <= i < |rows| && RowKey(rows[i]) == k;
        assert RowKey(after[i]) == k;
      }
    }
  }

  lemma SameShape(rows: seq<Row>, after: seq<Row>)
    requires DistinctKeys(rows) && IdsGrow(rows) && |after| == |rows|
    requires forall i :: 0 <= i < |rows| ==> RowKey(after[i]) == RowKey(rows[i]) && after[i].id == rows[i].id
    ensures DistinctKeys(after) && IdsGrow(after)
  {
    hide RowKey;
  }

  lemma AddedShape(rows: seq<Row>, r: Row)
    requires DistinctKeys(rows) && IdsGrow(rows) && !HasKey(rows, RowKey(r)) && r.id == NextId(rows)
    ensures DistinctKeys(rows + [r]) && IdsGrow(rows + [r])
  {
    hide RowKey;
  }

  lemma UpdateTells(rows: seq<Row>, es: seq<Alert>, a: Alert)
    requires Tells(rows, es) && Supported(a.status) && HasKey(rows, KeyOf(a))
    ensures Tells(Archived(rows, a), es + [a])
  {
    var n, after := Newest(rows, KeyOf(a)), Archived(rows, a);
    UpdatedRowIsRight(rows[n], es, a);
    var updated := Updated(rows[n], BuildHistory(a));
    assert after == rows[n := updated];
    hide RowIsRight, Updated, BuildHistory, Newest, RowKey, KeyOf, Covers, HasKey, DistinctKeys, IdsGrow, Archived;
    forall i | 0 <= i < |rows|
      ensures RowKey(after[i]) == RowKey(rows[i]) && after[i].id == rows[i].id && RowIsRight(after[i], es + [a])
    {
      if i == n {
        assert after[i] == updated;
      } else {
        assert after[i] == rows[i];
        OtherKey(rows, i, n);
        OtherRowStaysRight(rows[i], es, a);
      }
    }
    SameShape(rows, after);
    FoundAt(after, n);
    StillCovers(rows, after, es, a);
  }

  lemma OtherKey(rows: seq<Row>, i: nat, j: nat)
    requires DistinctKeys(rows) && i < |rows| && j < |rows| && i != j
    ensures RowKey(rows[i]) != RowKey(rows[j])
  {
  }

  lemma FoundAt(rows: seq<Row>, i: nat)
    requires i < |rows|
    ensures HasKey(rows, RowKey(rows[i]))
  {
  }

  lemma InsertTells(rows: seq<Row>, es: seq<Alert>, a: Alert)
    requires Tells(rows, es) && Supported(a.status) && !HasKey(rows, KeyOf(a))
    ensures Tells(Archived(rows, a), es + [a])
  {
    var n, after := |rows|, Archived(rows, a);
    NoneResolved(rows, es, KeyOf(a));
    NewRowIsRight(es, a, NextId(rows));
    var added := BuildHistory(a).(id := NextId(rows));
    assert after == rows + [added] && RowKey(added) == KeyOf(a);
    AddedShape(rows, added);
    hide RowIsRight, BuildHistory, RowKey, KeyOf, Covers, HasKey, DistinctKeys, IdsGrow, Archived, NextId;
    forall i | 0 <= i < |after| ensures RowIsRight(after[i], es + [a]) {
      if i < n {
        assert after[i] == rows[i];
        NotTheKey(rows, i, KeyOf(a));
        OtherRowStaysRight(rows[i], es, a);
      } else {
        assert after[i] == added;
      }
    }
    assert after[n] == added;
    FoundAt(after, n);
    StillCovers(rows, after, es, a);
  }

  lemma NotTheKey(rows: seq<Row>, i: nat, k: Key)
    requires i < |rows| && !HasKey(rows, k)
    ensures RowKey(rows[i]) != k
  {
  }

  lemma ArchiveTells(rows: seq<Row>, es: seq<Alert>, a: Alert)
    requires Tells(rows, es) && Supported(a.status)
    ensures Tells(Archived(rows, a), es + [a])
  {
    hide Tells, Archived;
    if HasKey(rows, KeyOf(a)) {
      UpdateTells(rows, es, a);
    } else {
      InsertTells(rows, es, a);
    }
  }

  lemma {:induction false} ResolvedIsSeen(es: seq<Alert>, k: Key)
    ensures LastResolved(es, k).Some? ==> LastOf(es, k).Some?
  {
    if es != [] {
      ResolvedIsSeen(es[..|es| - 1], k);
    }
  }

  lemma NoneResolved(rows: seq<Row>, es: seq<Alert>, k: Key)
    requires Tells(rows, es) && !HasKey(rows, k)
    ensures LastResolved(es, k).None?
  {
    ResolvedIsSeen(es, k);
  }

  /** From an empty table, any archived sequence leaves exactly one row per occurrence, with exactly these contents. */
  lemma {:induction false} HistoryTells(es: seq<Alert>)
    requires forall i :: 0 <= i < |es| ==> Supported(es[i].status)
    ensures Tells(ArchivedAll([], es), es)
  {
    if es != [] {
      var front, a := es[..|es| - 1], es[|es| - 1];
      assert es == front + [a];
      HistoryTells(front);
      hide Tells, Archived, Supported;
      ArchiveTells(ArchivedAll([], front), front, a);
    }
  }

  predicate Occurs(es: seq<Alert>, k: Key, resolvedOnly: bool) {
    exists i :: 0 <= i < |es| && KeyOf(es[i]) == k && (resolvedOnly ==> es[i].status == RESOLVED)
  }

  lemma {:induction false} LastOccurs(es: seq<Alert>, k: Key)
    ensures LastOf(es, k).Some? <==> Occurs(es, k, false)
    ensures LastResolved(es, k).Some? <==> Occurs(es, k, true)
  {
    if es != [] {
      var front, a := es[..|es| - 1], es[|es| - 1];
      LastOccurs(front, k);
      assert KeyOf(a) == k ==> Occurs(es, k, false);
      assert KeyOf(a) == k && a.status == RESOLVED ==> Occurs(es, k, true);
      forall i | 0 <= i < |front| ensures front[i] == es[i] {
      }
      if Occurs(es, k, false) && KeyOf(a) != k {
        var i :| 0 <= i < |es| && KeyOf(es[i]) == k;
        assert KeyOf(front[i]) == k;
      }
      if Occurs(es, k, true) && !(KeyOf(a) == k && a.status == RESOLVED) {
        var i :| 0 <= i < |es| && KeyOf(es[i]) == k && es[i].status == RESOLVED;
        assert KeyOf(front[i]) == k;
      }
      if Occurs(front, k, false) {
        var i :| 0 <= i < |front| && KeyOf(front[i]) == k;
        assert KeyOf(es[i]) == k;
      }
      if Occurs(front, k, true) {
        var i :| 0 <= i < |front| && KeyOf(front[i]) == k && front[i].status == RESOLVED;
        assert KeyOf(es[i]) == k;
      }
    }
  }

  /**
   * Order and repetition do not matter to which occurrences there are and which are resolved: an occurrence has a
   * row iff it was archived, exactly one, resolved iff some resolved alert of it was archived, and resolved_at is
   * set on exactly the resolved rows.
   */
  lemma {:induction false} Confluence(es: seq<Alert>, k: Key)
    requires forall i :: 0 <= i < |es| ==> Supported(es[i].status)
    ensures var rows := ArchivedAll([], es);
            && (HasKey(rows, k) <==> Occurs(es, k, false))
            && DistinctKeys(rows)
            && (forall i :: 0 <= i < |rows| && RowKey(rows[i]) == k ==>
                  && (rows[i].status == RESOLVED <==> Occurs(es, k, true))
                  && (rows[i].status == FIRING <==> !Occurs(es, k, true))
                  && (rows[i].resolvedAt.Some? <==> rows[i].status == RESOLVED))
  {
    HistoryTells(es);
    LastOccurs(es, k);
    hide Occurs, ArchivedAll, LastOf, LastResolved, BuildHistory;
  }

  /** On any table, archiving never turns a resolved row back and never removes or moves one. */
  lemma ResolvedStays(rows: seq<Row>, a: Alert, i: nat)
    requires i < |rows|
    ensures i < |Archived(rows, a)| && RowKey(Archived(rows, a)[i]) == RowKey(rows[i])
    ensures rows[i].status == RESOLVED ==> Archived(rows, a)[i].status == RESOLVED
  {
    hide BuildHistory;
  }

  // ---- When two sequences leave the same table ----

  /** What the table says about an occurrence, its row number aside. */
  function Story(rows: seq<Row>, k: Key): Option<Row> {
    if HasKey(rows, k) then Some(rows[Newest(rows, k)].(id := 0)) else None
  }

  /** What it must say once the sequence was archived: description from the last alert, resolution from the last resolved. */
  function Told(before: Option<Row>, es: seq<Alert>, k: Key): Option<Row> {
    match LastOf(es, k)
    case None => before
    case Some(a) =>
      var end := LastResolved(es, k);
      Some(BuildHistory(a).(
             id := 0,
             status := if end.Some? then RESOLVED else if before.Some? then before.value.status else FIRING,
             resolvedAt := if end.Some? then Some(end.value.endsAt)
                           else if before.Some? then before.value.resolvedAt else None))
  }

  /** The occurrences the sequence adds to the table, in the order of their rows. */
  function NewKeys(rows: seq<Row>, es: seq<Alert>): seq<Key> {
    if es == [] then []
    else
      var keys, k := NewKeys(rows, es[..|es| - 1]), KeyOf(es[|es| - 1]);
      if HasKey(rows, k) || k in keys then keys else keys + [k]
  }

  lemma NewestIs(rows: seq<Row>, k: Key, i: nat)
    requires i < |rows| && RowKey(rows[i]) == k && forall j :: i < j < |rows| ==> RowKey(rows[j]) != k
    ensures HasKey(rows, k) && Newest(rows, k) == i
  {
  }

  lemma StoryUpdated(rows: seq<Row>, a: Alert, k: Key)
    requires HasKey(rows, KeyOf(a))
    ensures Story(Archived(rows, a), k)
         == if KeyOf(a) == k then Some(Updated(rows[Newest(rows, k)], BuildHistory(a)).(id := 0)) else Story(rows, k)
  {
    var i, after := Newest(rows, KeyOf(a)), Archived(rows, a);
    assert forall j :: 0 <= j < |rows| ==> RowKey(after[j]) == RowKey(rows[j]);
    if HasKey(rows, k) {
      NewestIs(after, k, Newest(rows, k));
    } else {
      assert !HasKey(after, k);
    }
  }

  lemma StoryAdded(rows: seq<Row>, a: Alert, k: Key)
    requires !HasKey(rows, KeyOf(a))
    ensures Story(Archived(rows, a), k)
         == if KeyOf(a) == k then Some(BuildHistory(a).(id := 0)) else Story(rows, k)
  {
    var after := Archived(rows, a);
    assert RowKey(after[|rows|]) == KeyOf(a);
    if KeyOf(a) == k {
      NewestIs(after, k, |rows|);
    } else if HasKey(rows, k) {
      NewestIs(after, k, Newest(rows, k));
    } else {
      assert !HasKey(after, k);
    }
  }

  lemma {:induction false} StoryIsTold(rows: seq<Row>, es: seq<Alert>, k: Key)
    requires forall i :: 0 <= i < |es| ==> Supported(es[i].status)
    ensures Story(ArchivedAll(rows, es), k) == Told(Story(rows, k), es, k)
  {
    if es != [] {
      var front, a := es[..|es| - 1], es[|es| - 1];
      var before := ArchivedAll(rows, front);
      StoryIsTold(rows, front, k);
      ResolvedIsSeen(front, k);
      if HasKey(before, KeyOf(a)) {
        StoryUpdated(before, a, k);
      } else {
        StoryAdded(before, a, k);
      }
      hide Archived, Newest, HasKey;
    }
  }

  /** A later row has the same key. */
  predicate Older(rows: seq<Row>, i: nat)
    requires i < |rows|
  {
    HasKey(rows[i + 1..], RowKey(rows[i]))
  }

  /** The table grew from rows by one row for each key, in order; of the old rows only the newest of a key may differ. */
  ghost predicate Extends(rows: seq<Row>, t: seq<Row>, keys: seq<Key>) {
    && |t| == |rows| + |keys|
    && (forall i :: 0 <= i < |rows| ==> RowKey(t[i]) == RowKey(rows[i]) && t[i].id == rows[i].id)
    && (forall i :: 0 <= i < |rows| && Older(rows, i) ==> t[i] == rows[i])
    && (forall i :: |rows| <= i < |t| ==> RowKey(t[i]) == keys[i - |rows|] && t[i].id == NextId(rows) + i - |rows|)
  }

  lemma {:induction false} ArchivedExtends(rows: seq<Row>, es: seq<Alert>)
    ensures Extends(rows, ArchivedAll(rows, es), NewKeys(rows, es))
    ensures forall i, j :: 0 <= i < j < |NewKeys(rows, es)| ==> NewKeys(rows, es)[i] != NewKeys(rows, es)[j]
    ensures forall j :: 0 <= j < |NewKeys(rows, es)| ==> !HasKey(rows, NewKeys(rows, es)[j])
  {
    if es != [] {
      var front, a := es[..|es| - 1], es[|es| - 1];
      ArchivedExtends(rows, front);
      var t, keys := ArchivedAll(rows, front), NewKeys(rows, front);
      ExtendedKeys(rows, t, keys, KeyOf(a));
      if HasKey(t, KeyOf(a)) {
        ExtendsUpdated(rows, t, keys, a);
      } else {
        ExtendsAdded(rows, t, keys, a);
      }
      hide Extends, HasKey, Archived;
    }
  }

  lemma ExtendedKeys(rows: seq<Row>, t: seq<Row>, keys: seq<Key>, k: Key)
    requires Extends(rows, t, keys)
    ensures HasKey(t, k) <==> HasKey(rows, k) || k in keys
  {
    if HasKey(rows, k) {
      var i :| 0 <= i < |rows| && RowKey(rows[i]) == k;
      assert RowKey(t[i]) == k;
    }
    if k in keys {
      var j :| 0 <= j < |keys| && keys[j] == k;
      assert RowKey(t[|rows| + j]) == k;
    }
    if HasKey(t, k) {
      var i :| 0 <= i < |t| && RowKey(t[i]) == k;
      assert i < |rows| ==> RowKey(rows[i]) == k;
    }
  }

  lemma ExtendsUpdated(rows: seq<Row>, t: seq<Row>, keys: seq<Key>, a: Alert)
    requires Extends(rows, t, keys) && HasKey(t, KeyOf(a))
    ensures Extends(rows, Archived(t, a), keys)
  {
    var after := Archived(t, a);
    UpdatedKeeps(t, a);
    hide HasKey, Archived, Older;
    forall i | 0 <= i < |rows| && Older(rows, i) ensures after[i] == rows[i] {
      LaterSameKey(rows, t, keys, i);
    }
  }

  lemma UpdatedKeeps(t: seq<Row>, a: Alert)
    requires HasKey(t, KeyOf(a))
    ensures |Archived(t, a)| == |t|
    ensures forall m :: 0 <= m < |t| ==> RowKey(Archived(t, a)[m]) == RowKey(t[m]) && Archived(t, a)[m].id == t[m].id
    ensures forall m :: 0 <= m < |t| && m != Newest(t, KeyOf(a)) ==> Archived(t, a)[m] == t[m]
  {
    hide BuildHistory;
  }

  lemma LaterSameKey(rows: seq<Row>, t: seq<Row>, keys: seq<Key>, i: nat)
    requires Extends(rows, t, keys) && i < |rows| && Older(rows, i)
    ensures t[i] == rows[i] && forall k :: HasKey(t, k) ==> Newest(t, k) != i
  {
    var j :| 0 <= j < |rows[i + 1..]| && RowKey(rows[i + 1..][j]) == RowKey(rows[i]);
    assert RowKey(t[i + 1 + j]) == RowKey(rows[i + 1 + j]) == RowKey(t[i]);
  }

  lemma ExtendsAdded(rows: seq<Row>, t: seq<Row>, keys: seq<Key>, a: Alert)
    requires Extends(rows, t, keys) && !HasKey(t, KeyOf(a))
    ensures Extends(rows, Archived(t, a), keys + [KeyOf(a)])
  {
    hide HasKey, Older;
    if keys != [] {
      assert t[|t| - 1].id == NextId(rows) + |keys| - 1;
    }
  }

  lemma StoryAt(rows: seq<Row>, t: seq<Row>, keys: seq<Key>, i: nat)
    requires Extends(rows, t, keys) && i < |t|
    requires forall i, j :: 0 <= i < j < |keys| ==> keys[i] != keys[j]
    requires forall j :: 0 <= j < |keys| ==> !HasKey(rows, keys[j])
    requires i < |rows| ==> !Older(rows, i)
    ensures Story(t, RowKey(t[i])) == Some(t[i].(id := 0))
  {
    forall j | i < j < |t| ensures RowKey(t[j]) != RowKey(t[i]) {
      if j < |rows| {
        assert rows[i + 1..][j - i - 1] == rows[j];
      } else {
        assert RowKey(t[j]) == keys[j - |rows|];
        assert i < |rows| ==> HasKey(rows, RowKey(rows[i]));
      }
    }
    NewestIs(t, RowKey(t[i]), i);
  }

  /** Two sequences leave the same table exactly when they add the same occurrences in the same order and tell alike. */
  lemma SameTableIff(rows: seq<Row>, es: seq<Alert>, fs: seq<Alert>)
    requires forall i :: 0 <= i < |es| ==> Supported(es[i].status)
    requires forall i :: 0 <= i < |fs| ==> Supported(fs[i].status)
    ensures ArchivedAll(rows, es) == ArchivedAll(rows, fs)
       <==> NewKeys(rows, es) == NewKeys(rows, fs)
            && forall k :: Told(Story(rows, k), es, k) == Told(Story(rows, k), fs, k)
  {
    var t, u := ArchivedAll(rows, es), ArchivedAll(rows, fs);
    forall k ensures Story(t, k) == Told(Story(rows, k), es, k) && Story(u, k) == Told(Story(rows, k), fs, k) {
      StoryIsTold(rows, es, k);
      StoryIsTold(rows, fs, k);
    }
    ArchivedExtends(rows, es);
    ArchivedExtends(rows, fs);
    hide ArchivedAll, Told, NewKeys, HasKey;
    if t == u {
      SameKeys(rows, t, NewKeys(rows, es), NewKeys(rows, fs));
    } else if NewKeys(rows, es) == NewKeys(rows, fs) {
      DifferentStory(rows, t, u, NewKeys(rows, es));
    }
  }

  lemma SameKeys(rows: seq<Row>, t: seq<Row>, keys: seq<Key>, others: seq<Key>)
    requires Extends(rows, t, keys) && Extends(rows, t, others)
    ensures keys == others
  {
    forall j | 0 <= j < |keys| ensures keys[j] == others[j] {
      assert RowKey(t[|rows| + j]) == keys[j];
    }
  }

  lemma DifferentStory(rows: seq<Row>, t: seq<Row>, u: seq<Row>, keys: seq<Key>)
    requires Extends(rows, t, keys) && Extends(rows, u, keys) && t != u
    requires forall i, j :: 0 <= i < j < |keys| ==> keys[i] != keys[j]
    requires forall j :: 0 <= j < |keys| ==> !HasKey(rows, keys[j])
    ensures exists k :: Story(t, k) != Story(u, k)
  {
    var i :| 0 <= i < |t| && t[i] != u[i];
    StoryAt(rows, t, keys, i);
    StoryAt(rows, u, keys, i);
    assert RowKey(t[i]) == RowKey(u[i]) && t[i].id == u[i].id;
    hide Story, HasKey, Extends;
    assert t[i].(id := 0) != u[i].(id := 0);
    assert Story(t, RowKey(t[i])) != Story(u, RowKey(t[i]));
  }
}
