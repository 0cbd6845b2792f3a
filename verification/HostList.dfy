/** The host listing: cached or fetched hosts, filtered, then sorted. */
module HostList {
  import opened Strings
  import opened HostOrder
  import HostMerge

  /** instances is None when no group narrows the list. */
  datatype Options = Options(status: string, query: string, sort: string, risk: string,
                             instances: Option<set<string>>)

  datatype Part = Instances | Status | Query | Risk | All

  // ---- Who is kept ----

  predicate KeepsInstance(h: Host, instances: set<string>) {
    h.instance in instances
  }

  predicate KeepsStatus(h: Host, status: string) {
    status == "" || (status == "up" && h.status == "up") || (status == "down" && h.status != "up")
  }

  ghost predicate KeepsQuery(h: Host, query: string, t: Tables) {
    query == "" || Contains(Lower(h.instance, t), query)
  }

  predicate KeepsRisk(h: Host, risk: string) {
    risk == "" || (risk == "high_cpu" && h.cpu >= 80.0) || (risk == "high_memory" && h.memory >= 85.0)
  }

  ghost predicate Wanted(h: Host, o: Options, t: Tables) {
    && (o.instances.Some? ==> KeepsInstance(h, o.instances.value))
    && KeepsStatus(h, o.status) && KeepsQuery(h, o.query, t) && KeepsRisk(h, o.risk)
  }

  ghost predicate Keeps(part: Part, h: Host, o: Options, t: Tables) {
    match part
    case Instances => o.instances.Some? ==> KeepsInstance(h, o.instances.value)
    case Status => KeepsStatus(h, o.status)
    case Query => KeepsQuery(h, o.query, t)
    case Risk => KeepsRisk(h, o.risk)
    case All => Wanted(h, o, t)
  }

  /** The hosts one filter keeps, in their order. */
  ghost function Kept(hosts: seq<Host>, part: Part, o: Options, t: Tables): seq<Host> {
    if hosts == [] then []
    else if Keeps(part, hosts[|hosts| - 1], o, t)
    then Kept(hosts[..|hosts| - 1], part, o, t) + [hosts[|hosts| - 1]]
    else Kept(hosts[..|hosts| - 1], part, o, t)
  }

  function OrderOf(sort: string): Order {
    if sort == "cpu_desc" then ByCpu else if sort == "memory_desc" then ByMemory else ByInstance
  }

  /** What a caller sees of a host list. */
  ghost function Listing(hosts: seq<Host>, o: Options, t: Tables): seq<Host> {
    Sorted(Kept(hosts, All, o, t), OrderOf(o.sort))
  }

  // ---- Facts about filters ----

  lemma KeptSnoc(hosts: seq<Host>, h: Host, part: Part, o: Options, t: Tables)
    ensures Kept(hosts + [h], part, o, t)
         == if Keeps(part, h, o, t) then Kept(hosts, part, o, t) + [h] else Kept(hosts, part, o, t)
  {
    hide Keeps;
    assert (hosts + [h])[..|hosts|] == hosts;
  }

  /** Filtering in four passes is filtering once by all four. */
  lemma {:induction false} FourPasses(hosts: seq<Host>, o: Options, t: Tables)
    ensures Kept(Kept(Kept(Kept(hosts, Instances, o, t), Status, o, t), Query, o, t), Risk, o, t)
         == Kept(hosts, All, o, t)
  {
    hide Keeps;
    if hosts != [] {
      var front, h := hosts[..|hosts| - 1], hosts[|hosts| - 1];
      FourPasses(front, o, t);
      AllIsEach(h, o, t);
      var a := Kept(front, Instances, o, t);
      var b := Kept(a, Status, o, t);
      var c := Kept(b, Query, o, t);
      KeptSnoc(a, h, Status, o, t);
      KeptSnoc(b, h, Query, o, t);
      KeptSnoc(c, h, Risk, o, t);
      UnfoldKept(hosts, Instances, o, t);
      UnfoldKept(hosts, All, o, t);
      hide Kept;
    }
  }

  lemma UnfoldKept(hosts: seq<Host>, part: Part, o: Options, t: Tables)
    requires hosts != []
    ensures Kept(hosts, part, o, t)
         == (if Keeps(part, hosts[|hosts| - 1], o, t)
             then Kept(hosts[..|hosts| - 1], part, o, t) + [hosts[|hosts| - 1]]
             else Kept(hosts[..|hosts| - 1], part, o, t))
  {
  }

  lemma AllIsEach(h: Host, o: Options, t: Tables)
    ensures Keeps(All, h, o, t)
       <==> Keeps(Instances, h, o, t) && Keeps(Status, h, o, t) && Keeps(Query, h, o, t) && Keeps(Risk, h, o, t)
  {
  }

  /** A filter keeps every copy of a host it keeps, and nothing else. */
  lemma {:induction false} KeptCounts(hosts: seq<Host>, h: Host, part: Part, o: Options, t: Tables)
    ensures multiset(Kept(hosts, part, o, t))[h] == if Keeps(part, h, o, t) then multiset(hosts)[h] else 0
  {
    hide Keeps;
    if hosts != [] {
      KeptCounts(hosts[..|hosts| - 1], h, part, o, t);
      Last(hosts);
    }
  }

  lemma KeptIgnoresOrder(a: seq<Host>, b: seq<Host>, part: Part, o: Options, t: Tables)
    requires multiset(a) == multiset(b)
    ensures multiset(Kept(a, part, o, t)) == multiset(Kept(b, part, o, t))
  {
    forall h ensures multiset(Kept(a, part, o, t))[h] == multiset(Kept(b, part, o, t))[h] {
      KeptCounts(a, h, part, o, t);
      KeptCounts(b, h, part, o, t);
    }
    hide Kept, Keeps;
  }

  /** A listing holds each wanted host as often as the input does, no other, and in the order asked for. */
  lemma ListingIs(hosts: seq<Host>, o: Options, t: Tables)
    ensures forall h :: multiset(Listing(hosts, o, t))[h] == if Wanted(h, o, t) then multiset(hosts)[h] else 0
    ensures InOrder(Listing(hosts, o, t), OrderOf(o.sort))
  {
    SortedIsSorted(Kept(hosts, All, o, t), OrderOf(o.sort));
    forall h ensures multiset(Listing(hosts, o, t))[h] == if Wanted(h, o, t) then multiset(hosts)[h] else 0 {
      KeptCounts(hosts, h, All, o, t);
      hide Wanted, Kept, Sorted;
    }
  }

  /** No two different wanted hosts tie in the order asked for. */
  ghost predicate Settled(hosts: seq<Host>, o: Options, t: Tables) {
    forall a, b :: a in hosts && b in hosts && Wanted(a, o, t) && Wanted(b, o, t) && Tie(a, b, OrderOf(o.sort)) ==> a == b
  }

  lemma SettledNoTies(hosts: seq<Host>, o: Options, t: Tables)
    ensures Settled(hosts, o, t) <==> NoTies(multiset(Kept(hosts, All, o, t)), OrderOf(o.sort))
  {
    hide Wanted, Tie, Kept;
    var kept := multiset(Kept(hosts, All, o, t));
    forall h ensures h in kept <==> h in hosts && Wanted(h, o, t) {
      KeptCounts(hosts, h, All, o, t);
      assert h in hosts <==> multiset(hosts)[h] > 0;
    }
  }

  ghost predicate Canonical(hosts: seq<Host>, o: Options, t: Tables) {
    forall others :: multiset(others) == multiset(hosts) ==> Listing(others, o, t) == Listing(hosts, o, t)
  }

  /** Hosts of distinct instances are listed the same from every permutation. */
  lemma DistinctIsCanonical(hosts: seq<Host>, others: seq<Host>, o: Options, t: Tables)
    requires DistinctInstances(hosts) && multiset(others) == multiset(hosts)
    ensures Listing(others, o, t) == Listing(hosts, o, t)
  {
    DistinctNeverTie(hosts, OrderOf(o.sort));
    hide Tie, Wanted, Kept, Sorted;
    assert Settled(hosts, o, t);
    SettledNoTies(hosts, o, t);
    KeptIgnoresOrder(others, hosts, All, o, t);
    NoTiesOneOrder(Kept(hosts, All, o, t), Kept(others, All, o, t), OrderOf(o.sort));
  }

  // ---- The filters as they run ----

  method FilterByInstances(hosts: seq<Host>, o: Options, t: Tables) returns (filtered: seq<Host>)
    requires o.instances.Some?
    ensures filtered == Kept(hosts, Instances, o, t)
  {
    if o.instances.value == {} {
      KeepsNone(hosts, Instances, o, t);
      return [];
    }
    filtered := [];
    for k := 0 to |hosts|
      invariant filtered == Kept(hosts[..k], Instances, o, t)
    {
      assert hosts[..k + 1] == hosts[..k] + [hosts[k]];
      KeptSnoc(hosts[..k], hosts[k], Instances, o, t);
      if hosts[k].instance in o.instances.value {
        filtered := filtered + [hosts[k]];
      }
    }
    assert hosts[..|hosts|] == hosts;
  }

  method FilterByStatus(hosts: seq<Host>, o: Options, t: Tables) returns (filtered: seq<Host>)
    ensures filtered == Kept(hosts, Status, o, t)
  {
    if o.status == "" {
      KeepsAll(hosts, Status, o, t);
      return hosts;
    }
    filtered := [];
    for k := 0 to |hosts|
      invariant filtered == Kept(hosts[..k], Status, o, t)
    {
      assert hosts[..k + 1] == hosts[..k] + [hosts[k]];
      KeptSnoc(hosts[..k], hosts[k], Status, o, t);
      var isUp := hosts[k].status == "up";
      if o.status == "up" && isUp {
        filtered := filtered + [hosts[k]];
        continue;
      }
      if o.status == "down" && !isUp {
        filtered := filtered + [hosts[k]];
      }
    }
    assert hosts[..|hosts|] == hosts;
  }

  method FilterByQuery(hosts: seq<Host>, o: Options, t: Tables) returns (filtered: seq<Host>)
    ensures filtered == Kept(hosts, Query, o, t)
  {
    hide Contains;
    if o.query == "" {
      KeepsAll(hosts, Query, o, t);
      return hosts;
    }
    filtered := [];
    for k := 0 to |hosts|
      invariant filtered == Kept(hosts[..k], Query, o, t)
    {
      assert hosts[..k + 1] == hosts[..k] + [hosts[k]];
      KeptSnoc(hosts[..k], hosts[k], Query, o, t);
      var found := HasPart(Lower(hosts[k].instance, t), o.query);
      if found {
        filtered := filtered + [hosts[k]];
      }
    }
    assert hosts[..|hosts|] == hosts;
  }

  method FilterByRisk(hosts: seq<Host>, o: Options, t: Tables) returns (filtered: seq<Host>)
    ensures filtered == Kept(hosts, Risk, o, t)
  {
    if o.risk == "" {
      KeepsAll(hosts, Risk, o, t);
      return hosts;
    }
    filtered := [];
    for k := 0 to |hosts|
      invariant filtered == Kept(hosts[..k], Risk, o, t)
    {
      assert hosts[..k + 1] == hosts[..k] + [hosts[k]];
      KeptSnoc(hosts[..k], hosts[k], Risk, o, t);
      if o.risk == "high_cpu" {
        if hosts[k].cpu >= 80.0 {
          filtered := filtered + [hosts[k]];
        }
      } else if o.risk == "high_memory" {
        if hosts[k].memory >= 85.0 {
          filtered := filtered + [hosts[k]];
        }
      }
    }
    assert hosts[..|hosts|] == hosts;
  }

  lemma {:induction false} KeepsAll(hosts: seq<Host>, part: Part, o: Options, t: Tables)
    requires forall h :: Keeps(part, h, o, t)
    ensures Kept(hosts, part, o, t) == hosts
  {
    hide Keeps;
    if hosts != [] {
      KeepsAll(hosts[..|hosts| - 1], part, o, t);
    }
  }

  lemma {:induction false} KeepsNone(hosts: seq<Host>, part: Part, o: Options, t: Tables)
    requires forall h :: !Keeps(part, h, o, t)
    ensures Kept(hosts, part, o, t) == []
  {
    hide Keeps;
    if hosts != [] {
      KeepsNone(hosts[..|hosts| - 1], part, o, t);
    }
  }

  method Present(hosts: seq<Host>, o: Options, t: Tables) returns (listing: seq<Host>)
    ensures listing == Listing(hosts, o, t)
  {
    FourPasses(hosts, o, t);
    var narrowed := hosts;
    if o.instances.Some? {
      narrowed := FilterByInstances(hosts, o, t);
    } else {
      KeepsAll(hosts, Instances, o, t);
    }
    hide Kept, Keeps;
    var filtered := FilterByStatus(narrowed, o, t);
    filtered := FilterByQuery(filtered, o, t);
    filtered := FilterByRisk(filtered, o, t);
    listing := Sorted(filtered, OrderOf(o.sort));
  }

  // ---- The service with its cache ----

  /** Cached hosts are stored as JSON; decoding gives back what was encoded. */
  class Service {
    const hasCache: bool
    const tables: Tables
    var cached: Option<seq<Host>>

    constructor (hasCache: bool, tables: Tables)
      ensures cached == None && this.hasCache == hasCache && this.tables == tables
    {
      this.hasCache := hasCache;
      this.tables := tables;
      cached := None;
    }

    /** get says whether the cache answers and its list is still alive, put whether it can be written. */
    method Hosts(o: Options, get: bool, put: bool, fetched: Option<seq<Host>>) returns (result: Option<seq<Host>>)
      modifies this
      ensures o.instances == Some({}) ==> result == Some([]) && cached == old(cached)
      ensures o.instances != Some({}) && Hit(hasCache, get, old(cached))
          ==> result == Some(Listing(old(cached).value, o, tables)) && cached == old(cached)
      ensures o.instances != Some({}) && !Hit(hasCache, get, old(cached)) && fetched.None?
          ==> result == None && cached == old(cached)
      ensures o.instances != Some({}) && !Hit(hasCache, get, old(cached)) && fetched.Some?
          ==> result == Some(Listing(fetched.value, o, tables)) && cached == if hasCache && put then fetched else old(cached)
    {
      hide Listing;
      if o.instances.Some? && o.instances.value == {} {
        return Some([]);
      }
      if hasCache && get && cached.Some? {
        var listing := Present(cached.value, o, tables);
        return Some(listing);
      }
      if fetched.None? {
        return None;
      }
      if hasCache && put {
        cached := fetched;
      }
      var listing := Present(fetched.value, o, tables);
      result := Some(listing);
    }
  }

  predicate Hit(hasCache: bool, get: bool, cached: Option<seq<Host>>) {
    hasCache && get && cached.Some?
  }

  /** No group member at all gives the same answer as the full path would: nothing. */
  lemma EmptyGroupListsNothing(hosts: seq<Host>, o: Options, t: Tables)
    requires o.instances == Some({})
    ensures Listing(hosts, o, t) == []
  {
    KeepsNone(hosts, All, o, t);
    hide Kept;
    assert Sorted([], OrderOf(o.sort)) == [];
  }

  /** From samples to answer: neither the order of the samples nor the cache changes what a caller sees. */
  lemma SamplesToListing(up: seq<HostMerge.Sample>, cpu: seq<HostMerge.Sample>, memory: seq<HostMerge.Sample>,
                         up': seq<HostMerge.Sample>, cpu': seq<HostMerge.Sample>, memory': seq<HostMerge.Sample>,
                         fetched: seq<Host>, stored: seq<Host>, o: Options, t: Tables)
    requires HostMerge.Agreeing(up, cpu, memory) && HostMerge.SameSamples(up, cpu, memory, up', cpu', memory')
    requires HostMerge.Lists(fetched, HostMerge.Built(up, cpu, memory))
    requires HostMerge.Lists(stored, HostMerge.Built(up', cpu', memory'))
    ensures Listing(fetched, o, t) == Listing(stored, o, t)
  {
    HostMerge.ListIgnoresOrder(up, cpu, memory, up', cpu', memory', fetched, stored);
  }

  /** Every permutation gives the same listing exactly when no two different wanted hosts tie. */
  lemma CanonicalIffSettled(hosts: seq<Host>, o: Options, t: Tables)
    ensures Canonical(hosts, o, t) <==> Settled(hosts, o, t)
  {
    hide Wanted, Tie, Kept, Sorted, Listing, Settled;
    if Settled(hosts, o, t) {
      forall others | multiset(others) == multiset(hosts) ensures Listing(others, o, t) == Listing(hosts, o, t) {
        SettledListing(hosts, others, o, t);
      }
    } else {
      SettledNoTies(hosts, o, t);
      UnsettledListing(hosts, o, t);
    }
  }

  lemma SettledListing(hosts: seq<Host>, others: seq<Host>, o: Options, t: Tables)
    requires Settled(hosts, o, t) && multiset(others) == multiset(hosts)
    ensures Listing(others, o, t) == Listing(hosts, o, t)
  {
    hide Wanted, Tie, Kept, Sorted, Settled;
    SettledNoTies(hosts, o, t);
    KeptIgnoresOrder(others, hosts, All, o, t);
    NoTiesOneOrder(Kept(hosts, All, o, t), Kept(others, All, o, t), OrderOf(o.sort));
  }

  /** Any arrangement of the kept hosts comes from an arrangement of all of them. */
  lemma {:induction false} Arrange(hosts: seq<Host>, order: seq<Host>, o: Options, t: Tables) returns (all: seq<Host>)
    requires multiset(order) == multiset(Kept(hosts, All, o, t))
    ensures multiset(all) == multiset(hosts) && Kept(all, All, o, t) == order
  {
    var kept := multiset(Kept(hosts, All, o, t));
    forall h ensures kept[h] == if Wanted(h, o, t) then multiset(hosts)[h] else 0 {
      KeptCounts(hosts, h, All, o, t);
    }
    hide Wanted, Kept;
    var rest := SequenceOf(multiset(hosts) - kept);
    all := rest + order;
    forall h | h in rest ensures !Wanted(h, o, t) {
      assert h in multiset(rest);
    }
    forall h | h in order ensures Wanted(h, o, t) {
      assert h in multiset(order);
    }
    KeptOf(rest, order, o, t);
  }

  lemma {:induction false} KeptOf(rest: seq<Host>, order: seq<Host>, o: Options, t: Tables)
    requires forall h :: h in rest ==> !Wanted(h, o, t)
    requires forall h :: h in order ==> Wanted(h, o, t)
    ensures Kept(rest + order, All, o, t) == order
    decreases |rest| + |order|
  {
    hide Wanted;
    if order != [] {
      var front, last := order[..|order| - 1], order[|order| - 1];
      assert rest + order == rest + front + [last];
      KeptSnoc(rest + front, last, All, o, t);
      KeptOf(rest, front, o, t);
    } else if rest != [] {
      var front, last := rest[..|rest| - 1], rest[|rest| - 1];
      assert rest + order == front + order + [last];
      KeptSnoc(front + order, last, All, o, t);
      KeptOf(front, order, o, t);
    }
  }

  lemma UnsettledListing(hosts: seq<Host>, o: Options, t: Tables)
    requires !NoTies(multiset(Kept(hosts, All, o, t)), OrderOf(o.sort))
    ensures !Canonical(hosts, o, t)
  {
    var kept := Kept(hosts, All, o, t);
    OrderFreeIffNoTies(kept, OrderOf(o.sort));
    hide Wanted, Tie, Kept, Sorted, NoTies;
    var others :| multiset(others) == multiset(kept) && Sorted(others, OrderOf(o.sort)) != Sorted(kept, OrderOf(o.sort));
    var all := Arrange(hosts, others, o, t);
    assert Listing(all, o, t) != Listing(hosts, o, t);
  }

  // ---- What a caller sees, spelled out ----

  /** Which hosts a listing holds, filter by filter. */
  lemma ListingMembers(hosts: seq<Host>, o: Options, t: Tables, h: Host)
    ensures h in Listing(hosts, o, t)
       <==> && h in hosts
            && (o.instances.Some? ==> h.instance in o.instances.value)
            && (o.status == "" || (o.status == "up" && h.status == "up") || (o.status == "down" && h.status != "up"))
            && (o.query == "" || exists i :: OccursAt(Lower(h.instance, t), o.query, i))
            && (o.risk == "" || (o.risk == "high_cpu" && h.cpu >= 80.0) || (o.risk == "high_memory" && h.memory >= 85.0))
  {
    ListingIs(hosts, o, t);
    assert h in Listing(hosts, o, t) <==> multiset(Listing(hosts, o, t))[h] > 0;
    assert h in hosts <==> multiset(hosts)[h] > 0;
    hide Listing;
  }

  /** In which order, by the name of the sort: highest first, ties by instance; any other name sorts by instance. */
  lemma ListingOrder(hosts: seq<Host>, o: Options, t: Tables, i: nat, j: nat)
    requires i < j < |Listing(hosts, o, t)|
    ensures var (a, b) := (Listing(hosts, o, t)[i], Listing(hosts, o, t)[j]);
            && (o.sort == "cpu_desc" ==> a.cpu > b.cpu || (a.cpu == b.cpu && !Less(b.instance, a.instance)))
            && (o.sort == "memory_desc" ==> a.memory > b.memory || (a.memory == b.memory && !Less(b.instance, a.instance)))
            && (o.sort != "cpu_desc" && o.sort != "memory_desc" ==> !Less(b.instance, a.instance))
  {
    ListingIs(hosts, o, t);
    var (a, b) := (Listing(hosts, o, t)[i], Listing(hosts, o, t)[j]);
    assert !Precedes(b, a, OrderOf(o.sort));
    hide Listing, Less, InOrder;
    PrecedesMeans(b, a);
  }
}
