/** Hosts and the three orders they are listed in. */
module HostOrder {
  import opened Strings

  /** lastScrape is in whole seconds, None before the first sample; RFC 3339 text writes and reads those. */
  datatype Host = Host(instance: string, cpu: real, memory: real, status: string, lastScrape: Option<int>)

  datatype Order = ByInstance | ByCpu | ByMemory

  predicate Precedes(a: Host, b: Host, order: Order) {
    match order
    case ByInstance => Less(a.instance, b.instance)
    case ByCpu => if a.cpu == b.cpu then Less(a.instance, b.instance) else a.cpu > b.cpu
    case ByMemory => if a.memory == b.memory then Less(a.instance, b.instance) else a.memory > b.memory
  }

  predicate Tie(a: Host, b: Host, order: Order) {
    !Precedes(a, b, order) && !Precedes(b, a, order)
  }

  /** The library's stable sort. */
  function Sorted(hosts: seq<Host>, order: Order): seq<Host> {
    if hosts == [] then [] else Insert(Sorted(hosts[..|hosts| - 1], order), hosts[|hosts| - 1], order)
  }

  function Insert(hosts: seq<Host>, h: Host, order: Order): seq<Host> {
    if hosts != [] && Precedes(h, hosts[|hosts| - 1], order)
    then Insert(hosts[..|hosts| - 1], h, order) + [hosts[|hosts| - 1]]
    else hosts + [h]
  }

  ghost predicate InOrder(hosts: seq<Host>, order: Order) {
    forall i, j :: 0 <= i < j < |hosts| ==> !Precedes(hosts[j], hosts[i], order)
  }

  lemma PrecedesIsStrict(a: Host, b: Host, order: Order)
    ensures !(Precedes(a, b, order) && Precedes(b, a, order))
    ensures Tie(a, b, order) ==> a.instance == b.instance
    ensures order == ByInstance ==> (Tie(a, b, order) <==> a.instance == b.instance)
  {
    LessIsTotal(a.instance, b.instance);
  }

  lemma PrecedesIsTransitive(a: Host, b: Host, c: Host, order: Order)
    ensures Precedes(a, b, order) && Precedes(b, c, order) ==> Precedes(a, c, order)
    ensures Precedes(a, b, order) && !Precedes(c, b, order) ==> Precedes(a, c, order)
    ensures !Precedes(b, a, order) && Precedes(b, c, order) ==> Precedes(a, c, order)
  {
    LessIsTotal(a.instance, b.instance);
    LessIsTotal(b.instance, c.instance);
    LessIsTotal(a.instance, c.instance);
    if Less(a.instance, b.instance) && Less(b.instance, c.instance) {
      LessIsTransitive(a.instance, b.instance, c.instance);
    }
    hide Less;
  }

  lemma {:induction false} InsertAdds(hosts: seq<Host>, h: Host, order: Order)
    ensures multiset(Insert(hosts, h, order)) == multiset(hosts) + multiset{h}
  {
    hide Precedes;
    if hosts != [] && Precedes(h, hosts[|hosts| - 1], order) {
      var front, last := hosts[..|hosts| - 1], hosts[|hosts| - 1];
      InsertAdds(front, h, order);
      Last(hosts);
      Snoc(Insert(front, h, order), last);
    } else {
      Snoc(hosts, h);
    }
  }

  lemma Snoc(hosts: seq<Host>, h: Host)
    ensures multiset(hosts + [h]) == multiset(hosts) + multiset{h}
  {
  }

  ghost predicate Bounded(hosts: seq<Host>, last: Host, order: Order) {
    forall i :: 0 <= i < |hosts| ==> !Precedes(last, hosts[i], order)
  }

  lemma BoundedMembers(hosts: seq<Host>, others: seq<Host>, h: Host, last: Host, order: Order)
    requires multiset(others) == multiset(hosts) + multiset{h}
    requires Bounded(hosts, last, order) && !Precedes(last, h, order)
    ensures Bounded(others, last, order)
  {
    hide Precedes;
    forall i | 0 <= i < |others| ensures !Precedes(last, others[i], order) {
      assert others[i] in multiset(others);
      assert others[i] == h || others[i] in hosts;
    }
  }

  lemma BoundedSnoc(hosts: seq<Host>, last: Host, order: Order)
    ensures InOrder(hosts + [last], order) <==> InOrder(hosts, order) && Bounded(hosts, last, order)
  {
    hide Precedes;
    var all := hosts + [last];
    assert forall i :: 0 <= i < |hosts| ==> all[i] == hosts[i];
    assert all[|hosts|] == last;
    if InOrder(all, order) {
      forall i | 0 <= i < |hosts| ensures !Precedes(last, hosts[i], order) {
        assert !Precedes(all[|hosts|], all[i], order);
      }
    }
  }

  lemma {:induction false} InsertKeepsOrder(hosts: seq<Host>, h: Host, order: Order)
    requires InOrder(hosts, order)
    ensures InOrder(Insert(hosts, h, order), order)
  {
    if hosts == [] {
      BoundedSnoc(hosts, h, order);
    } else {
      var front, last := hosts[..|hosts| - 1], hosts[|hosts| - 1];
      assert hosts == front + [last];
      BoundedSnoc(front, last, order);
      if Precedes(h, last, order) {
        PrecedesIsStrict(h, last, order);
        hide Precedes, InOrder, Bounded;
        InsertKeepsOrder(front, h, order);
        InsertAdds(front, h, order);
        BoundedMembers(front, Insert(front, h, order), h, last, order);
        BoundedSnoc(Insert(front, h, order), last, order);
      } else {
        forall i | 0 <= i < |hosts| ensures !Precedes(h, hosts[i], order) {
          PrecedesIsTransitive(h, hosts[i], last, order);
        }
        hide Precedes;
        BoundedSnoc(hosts, h, order);
      }
    }
  }

  lemma Last(hosts: seq<Host>)
    requires hosts != []
    ensures multiset(hosts) == multiset(hosts[..|hosts| - 1]) + multiset{hosts[|hosts| - 1]}
  {
    assert hosts == hosts[..|hosts| - 1] + [hosts[|hosts| - 1]];
  }

  lemma Cancel(a: seq<Host>, b: seq<Host>)
    requires a != [] && b != [] && multiset(a) == multiset(b) && a[|a| - 1] == b[|b| - 1]
    ensures multiset(a[..|a| - 1]) == multiset(b[..|b| - 1])
  {
    Last(a);
    Last(b);
    var x := multiset{a[|a| - 1]};
    assert multiset(a[..|a| - 1]) == multiset(a) - x;
    assert multiset(b[..|b| - 1]) == multiset(b) - x;
  }

  lemma {:induction false} SortedIsSorted(hosts: seq<Host>, order: Order)
    ensures InOrder(Sorted(hosts, order), order) && multiset(Sorted(hosts, order)) == multiset(hosts)
  {
    if hosts != [] {
      var front, last := hosts[..|hosts| - 1], hosts[|hosts| - 1];
      hide InOrder, Insert;
      SortedIsSorted(front, order);
      InsertKeepsOrder(Sorted(front, order), last, order);
      InsertAdds(Sorted(front, order), last, order);
      Last(hosts);
    } else {
      assert Sorted(hosts, order) == [];
    }
  }

  /** No two different hosts tie. */
  ghost predicate NoTies(hosts: multiset<Host>, order: Order) {
    forall a, b :: a in hosts && b in hosts && Tie(a, b, order) ==> a == b
  }

  /** Hosts that do not tie have one order only. */
  lemma {:induction false} OrderIsUnique(a: seq<Host>, b: seq<Host>, order: Order)
    requires InOrder(a, order) && InOrder(b, order) && multiset(a) == multiset(b) && NoTies(multiset(a), order)
    ensures a == b
  {
    hide InOrder, NoTies;
    SameLength(a, b);
    if a != [] {
      LastIsLast(a, b, order);
      Cancel(a, b);
      FrontInOrder(a, order);
      FrontInOrder(b, order);
      OrderIsUnique(a[..|a| - 1], b[..|b| - 1], order);
      assert a == a[..|a| - 1] + [a[|a| - 1]] && b == b[..|b| - 1] + [b[|b| - 1]];
    }
  }

  lemma SameLength(a: seq<Host>, b: seq<Host>)
    requires multiset(a) == multiset(b)
    ensures |a| == |b|
  {
    assert |a| == |multiset(a)| && |b| == |multiset(b)|;
  }

  lemma FrontInOrder(hosts: seq<Host>, order: Order)
    requires InOrder(hosts, order) && hosts != []
    ensures InOrder(hosts[..|hosts| - 1], order)
    ensures NoTies(multiset(hosts), order) ==> NoTies(multiset(hosts[..|hosts| - 1]), order)
  {
    hide Precedes, Tie;
    Last(hosts);
  }

  lemma LastIsLast(a: seq<Host>, b: seq<Host>, order: Order)
    requires InOrder(a, order) && InOrder(b, order) && multiset(a) == multiset(b) && NoTies(multiset(a), order)
    requires a != [] && b != []
    ensures a[|a| - 1] == b[|b| - 1]
  {
    hide Precedes;
    var x, y := a[|a| - 1], b[|b| - 1];
    assert x in multiset(b) && y in multiset(a);
    var i :| 0 <= i < |b| && b[i] == x;
    var j :| 0 <= j < |a| && a[j] == y;
    assert i < |b| - 1 ==> !Precedes(y, x, order);
    assert j < |a| - 1 ==> !Precedes(x, y, order);
    assert x != y ==> Tie(x, y, order);
  }

  /** The hosts that tie with t, in the order they come. */
  function Ties(hosts: seq<Host>, t: Host, order: Order): seq<Host> {
    if hosts == [] then []
    else if Tie(hosts[|hosts| - 1], t, order) then Ties(hosts[..|hosts| - 1], t, order) + [hosts[|hosts| - 1]]
    else Ties(hosts[..|hosts| - 1], t, order)
  }

  lemma {:induction false} InsertIsStable(hosts: seq<Host>, h: Host, t: Host, order: Order)
    ensures Ties(Insert(hosts, h, order), t, order)
         == if Tie(h, t, order) then Ties(hosts, t, order) + [h] else Ties(hosts, t, order)
  {
    var n := |hosts|;
    assert (hosts + [h])[..n] == hosts;
    if hosts != [] && Precedes(h, hosts[n - 1], order) {
      var last := hosts[n - 1];
      var rest := Insert(hosts[..n - 1], h, order);
      assert (rest + [last])[..|rest|] == rest;
      InsertIsStable(hosts[..n - 1], h, t, order);
      TieSplits(h, last, t, order);
      hide Tie, Precedes;
    }
  }

  lemma TieSplits(h: Host, last: Host, t: Host, order: Order)
    requires Precedes(h, last, order)
    ensures !(Tie(h, t, order) && Tie(last, t, order))
  {
    PrecedesIsTransitive(h, last, t, order);
    PrecedesIsTransitive(t, h, last, order);
  }

  /** Sorting keeps hosts that tie in the order they came. */
  lemma {:induction false} SortedIsStable(hosts: seq<Host>, t: Host, order: Order)
    ensures Ties(Sorted(hosts, order), t, order) == Ties(hosts, t, order)
  {
    if hosts != [] {
      var front, h := hosts[..|hosts| - 1], hosts[|hosts| - 1];
      SortedIsStable(front, t, order);
      InsertIsStable(Sorted(front, order), h, t, order);
    }
  }

  lemma {:induction false} TiesAppend(a: seq<Host>, b: seq<Host>, t: Host, order: Order)
    ensures Ties(a + b, t, order) == Ties(a, t, order) + Ties(b, t, order)
    decreases |b|
  {
    if b == [] {
      assert a + b == a;
    } else {
      assert (a + b)[..|a + b| - 1] == a + b[..|b| - 1];
      TiesAppend(a, b[..|b| - 1], t, order);
      hide Tie;
    }
  }

  lemma TwoOrders(x: Host, y: Host, rest: seq<Host>, order: Order)
    requires x != y && Tie(x, y, order)
    ensures Sorted([x, y] + rest, order) != Sorted([y, x] + rest, order)
  {
    var a, b := [x, y] + rest, [y, x] + rest;
    SortedIsStable(a, x, order);
    SortedIsStable(b, x, order);
    TiesAppend([x, y], rest, x, order);
    TiesAppend([y, x], rest, x, order);
    PrecedesIsStrict(x, x, order);
    PairTies(x, y, x, order);
    PairTies(y, x, x, order);
    hide Ties, Sorted, Precedes;
    assert Ties(a, x, order)[0] == x && Ties(b, x, order)[0] == y;
  }

  lemma PairTies(x: Host, y: Host, t: Host, order: Order)
    requires Tie(x, t, order) && Tie(y, t, order)
    ensures Ties([x, y], t, order) == [x, y]
  {
    hide Tie;
    assert [x][..0] == [] && Ties([], t, order) == [];
    assert Ties([x], t, order) == [] + [x];
    assert [x, y][..1] == [x];
  }

  ghost predicate OrderFree(hosts: seq<Host>, order: Order) {
    forall others :: multiset(others) == multiset(hosts) ==> Sorted(others, order) == Sorted(hosts, order)
  }

  lemma {:induction false} NoTiesOneOrder(hosts: seq<Host>, others: seq<Host>, order: Order)
    requires NoTies(multiset(hosts), order) && multiset(others) == multiset(hosts)
    ensures Sorted(others, order) == Sorted(hosts, order)
  {
    SortedIsSorted(others, order);
    SortedIsSorted(hosts, order);
    hide Sorted, NoTies, InOrder;
    OrderIsUnique(Sorted(others, order), Sorted(hosts, order), order);
  }

  lemma {:induction false} SequenceOf(hosts: multiset<Host>) returns (s: seq<Host>)
    ensures multiset(s) == hosts
  {
    s := [];
    if hosts != multiset{} {
      var h :| h in hosts;
      s := SequenceOf(hosts - multiset{h});
      assert hosts - multiset{h} + multiset{h} == hosts;
      s := s + [h];
    }
  }

  /** The order of the input does not matter exactly when no two different hosts in it tie. */
  lemma OrderFreeIffNoTies(hosts: seq<Host>, order: Order)
    ensures OrderFree(hosts, order) <==> NoTies(multiset(hosts), order)
  {
    hide Sorted, Tie;
    if NoTies(multiset(hosts), order) {
      forall others | multiset(others) == multiset(hosts) ensures Sorted(others, order) == Sorted(hosts, order) {
        NoTiesOneOrder(hosts, others, order);
      }
    } else {
      var x, y :| x in multiset(hosts) && y in multiset(hosts) && Tie(x, y, order) && x != y;
      TieBindsOrder(hosts, x, y, order);
    }
  }

  lemma TieBindsOrder(hosts: seq<Host>, x: Host, y: Host, order: Order)
    requires x in hosts && y in hosts && x != y && Tie(x, y, order)
    ensures !OrderFree(hosts, order)
  {
    hide Sorted, Tie, OrderFree;
    var rest := SequenceOf(multiset(hosts) - multiset{x, y});
    TwoOrders(x, y, rest, order);
    PairFirst(hosts, x, y, rest);
    OrderFreeAt(hosts, [x, y] + rest, order);
    OrderFreeAt(hosts, [y, x] + rest, order);
  }

  lemma OrderFreeAt(hosts: seq<Host>, others: seq<Host>, order: Order)
    requires multiset(others) == multiset(hosts)
    ensures OrderFree(hosts, order) ==> Sorted(others, order) == Sorted(hosts, order)
  {
    hide Sorted;
  }

  lemma PairFirst(hosts: seq<Host>, x: Host, y: Host, rest: seq<Host>)
    requires x in hosts && y in hosts && x != y && multiset(rest) == multiset(hosts) - multiset{x, y}
    ensures multiset([x, y] + rest) == multiset(hosts) && multiset([y, x] + rest) == multiset(hosts)
  {
    assert multiset([x, y]) == multiset{x, y} && multiset([y, x]) == multiset{x, y};
    assert multiset{x, y} <= multiset(hosts);
  }

  ghost predicate DistinctInstances(hosts: seq<Host>) {
    forall i, j :: 0 <= i < j < |hosts| ==> hosts[i].instance != hosts[j].instance
  }

  lemma CountsTwo(hosts: seq<Host>, i: nat, j: nat)
    requires i < j < |hosts|
    ensures hosts[i] == hosts[j] ==> multiset(hosts)[hosts[i]] >= 2
  {
    assert hosts == hosts[..i] + [hosts[i]] + hosts[i + 1..j] + [hosts[j]] + hosts[j + 1..];
  }

  lemma CountsOne(hosts: seq<Host>, h: Host)
    requires DistinctInstances(hosts) && h in hosts
    ensures multiset(hosts)[h] == 1
  {
    var k :| 0 <= k < |hosts| && hosts[k] == h;
    assert hosts == hosts[..k] + [h] + hosts[k + 1..];
    assert h !in hosts[..k] && h !in hosts[k + 1..];
  }

  lemma DistinctStays(hosts: seq<Host>, others: seq<Host>)
    requires DistinctInstances(hosts) && multiset(others) == multiset(hosts)
    ensures DistinctInstances(others)
  {
    forall i, j | 0 <= i < j < |others| ensures others[i].instance != others[j].instance {
      CountsTwo(others, i, j);
      assert others[i] in multiset(hosts) && others[j] in multiset(hosts);
      CountsOne(hosts, others[i]);
    }
  }

  /** Hosts of different instances never tie. */
  lemma DistinctNeverTie(hosts: seq<Host>, order: Order)
    requires DistinctInstances(hosts)
    ensures NoTies(multiset(hosts), order)
  {
    forall a, b | a in multiset(hosts) && b in multiset(hosts) && Tie(a, b, order) ensures a == b {
      PrecedesIsStrict(a, b, order);
    }
  }

  /** What each order puts first. */
  lemma PrecedesMeans(a: Host, b: Host)
    ensures Precedes(a, b, ByCpu) <==> a.cpu > b.cpu || (a.cpu == b.cpu && Less(a.instance, b.instance))
    ensures Precedes(a, b, ByMemory) <==> a.memory > b.memory || (a.memory == b.memory && Less(a.instance, b.instance))
    ensures Precedes(a, b, ByInstance) <==> Less(a.instance, b.instance)
  {
  }
}
