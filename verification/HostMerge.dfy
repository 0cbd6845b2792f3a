/** The host list built from three Prometheus vectors: who is up, CPU use and memory use. */
module HostMerge {
  import opened Strings
  import opened HostOrder

  /** time is in nanoseconds since 1970. */
  datatype Sample = Sample(instance: string, value: real, time: int)

  type View = map<string, Host>

  function Seconds(time: int): int {
    time / 1_000_000_000
  }

  // ---- What the list should hold, without saying how it is built ----

  function Instances(samples: seq<Sample>): set<string> {
    set s | s in samples :: s.instance
  }

  /** The last sample of an instance. */
  function Of(samples: seq<Sample>, instance: string): Option<Sample> {
    if samples == [] then None
    else if samples[|samples| - 1].instance == instance then Some(samples[|samples| - 1])
    else Of(samples[..|samples| - 1], instance)
  }

  function Max(a: Option<int>, b: Option<int>): Option<int> {
    if a.None? then b else if b.None? || b.value <= a.value then a else b
  }

  /** The latest floored time of an instance. */
  function Latest(samples: seq<Sample>, instance: string): Option<int> {
    if samples == [] then None
    else if samples[|samples| - 1].instance == instance
    then Max(Latest(samples[..|samples| - 1], instance), Some(Seconds(samples[|samples| - 1].time)))
    else Latest(samples[..|samples| - 1], instance)
  }

  /** The latest time at which CPU or memory of an instance was sampled. */
  function Measured(cpu: seq<Sample>, memory: seq<Sample>, instance: string): Option<int> {
    Max(Latest(cpu, instance), Latest(memory, instance))
  }

  function UpOrDown(value: real): string {
    if value >= 1.0 then "up" else "down"
  }

  function StatusOf(up: Option<Sample>): string {
    if up.None? then "unknown" else UpOrDown(up.value.value)
  }

  function ValueOf(sample: Option<Sample>): real {
    if sample.None? then 0.0 else sample.value.value
  }

  function TimeOf(sample: Option<Sample>): Option<int> {
    if sample.None? then None else Some(Seconds(sample.value.time))
  }

  /** The host its own last samples call for; lastScrape is the latest of their times and all measured ones. */
  function HostOf(instance: string, up: Option<Sample>, cpu: Option<Sample>, memory: Option<Sample>,
                  measured: Option<int>): Host
  {
    Host(instance, ValueOf(cpu), ValueOf(memory), StatusOf(up), Max(TimeOf(up), measured))
  }

  function HostFrom(up: seq<Sample>, cpu: seq<Sample>, memory: seq<Sample>, i: string): Host {
    HostOf(i, Of(up, i), Of(cpu, i), Of(memory, i), Measured(cpu, memory, i))
  }

  function Merged(up: seq<Sample>, cpu: seq<Sample>, memory: seq<Sample>): View {
    map i | i in Instances(up) + Instances(cpu) + Instances(memory) :: HostFrom(up, cpu, memory, i)
  }

  lemma {:induction false} OfIsASample(samples: seq<Sample>, instance: string)
    ensures Of(samples, instance).None? <==> instance !in Instances(samples)
    ensures Of(samples, instance).Some?
        ==> Of(samples, instance).value in samples && Of(samples, instance).value.instance == instance
  {
    if samples != [] {
      var front, last := samples[..|samples| - 1], samples[|samples| - 1];
      OfIsASample(front, instance);
      assert samples == front + [last];
      assert forall s :: s in samples <==> s in front || s == last;
    }
  }

  ghost predicate IsTime(samples: seq<Sample>, instance: string, seconds: int) {
    exists s :: s in samples && s.instance == instance && seconds == Seconds(s.time)
  }

  /** Latest is one of the instance's floored times, and none of them is later. */
  lemma {:induction false} LatestIsMax(samples: seq<Sample>, instance: string)
    ensures Latest(samples, instance).Some? ==> IsTime(samples, instance, Latest(samples, instance).value)
    ensures forall s :: s in samples && s.instance == instance
                   ==> Latest(samples, instance).Some? && Seconds(s.time) <= Latest(samples, instance).value
  {
    if samples != [] {
      var front, last := samples[..|samples| - 1], samples[|samples| - 1];
      LatestIsMax(front, instance);
      assert samples == front + [last];
      assert forall s :: s in samples <==> s in front || s == last;
      hide Seconds;
      if Latest(front, instance).Some? {
        var s :| s in front && s.instance == instance && Latest(front, instance).value == Seconds(s.time);
        assert s in samples;
      }
    }
  }

  lemma SameSamplesSameLatest(a: seq<Sample>, b: seq<Sample>, instance: string)
    requires multiset(a) == multiset(b)
    ensures Latest(a, instance) == Latest(b, instance)
  {
    LatestIsMax(a, instance);
    LatestIsMax(b, instance);
    assert forall s :: s in a <==> s in multiset(a);
    assert forall s :: s in b <==> s in multiset(b);
    hide Latest, Seconds;
    if Latest(a, instance).Some? {
      var s :| s in a && s.instance == instance && Latest(a, instance).value == Seconds(s.time);
      assert s in b;
    }
    if Latest(b, instance).Some? {
      var s :| s in b && s.instance == instance && Latest(b, instance).value == Seconds(s.time);
      assert s in a;
    }
  }

  lemma SameSamplesSameInstances(a: seq<Sample>, b: seq<Sample>)
    requires multiset(a) == multiset(b)
    ensures Instances(a) == Instances(b)
  {
    assert forall s :: s in a <==> s in multiset(a);
    assert forall s :: s in b <==> s in multiset(b);
  }

  /** lastScrape is the time of the last up sample or of some CPU or memory sample, and none of these is later. */
  lemma LastScrapeIsMax(up: seq<Sample>, cpu: seq<Sample>, memory: seq<Sample>, i: string)
    ensures var last := HostFrom(up, cpu, memory, i).lastScrape;
            && (last.None? <==> i !in Instances(up) + Instances(cpu) + Instances(memory))
            && (last.Some? ==> TimeOf(Of(up, i)) == last || IsTime(cpu, i, last.value) || IsTime(memory, i, last.value))
            && (Of(up, i).Some? ==> last.Some? && Seconds(Of(up, i).value.time) <= last.value)
            && forall t :: IsTime(cpu, i, t) || IsTime(memory, i, t) ==> last.Some? && t <= last.value
  {
    OfIsASample(up, i);
    LatestIsMax(cpu, i);
    LatestIsMax(memory, i);
    OfIsASample(cpu, i);
    OfIsASample(memory, i);
    hide Of, Latest, Seconds;
  }

  // ---- How the client builds it ----

  function Created(instance: string): Host {
    Host(instance, 0.0, 0.0, "unknown", None)
  }

  function GetOr(view: View, instance: string): Host {
    if instance in view then view[instance] else Created(instance)
  }

  function UpStep(view: View, s: Sample): View {
    view[s.instance := GetOr(view, s.instance).(status := UpOrDown(s.value), lastScrape := Some(Seconds(s.time)))]
  }

  function Scraped(last: Option<int>, time: int): Option<int> {
    if last.None? || time > last.value * 1_000_000_000 then Some(Seconds(time)) else last
  }

  function CpuStep(view: View, s: Sample): View {
    var host := GetOr(view, s.instance);
    view[s.instance := host.(cpu := s.value, lastScrape := Scraped(host.lastScrape, s.time))]
  }

  function MemoryStep(view: View, s: Sample): View {
    var host := GetOr(view, s.instance);
    view[s.instance := host.(memory := s.value, lastScrape := Scraped(host.lastScrape, s.time))]
  }

  function Ups(view: View, samples: seq<Sample>): View {
    if samples == [] then view else UpStep(Ups(view, samples[..|samples| - 1]), samples[|samples| - 1])
  }

  function Cpus(view: View, samples: seq<Sample>): View {
    if samples == [] then view else CpuStep(Cpus(view, samples[..|samples| - 1]), samples[|samples| - 1])
  }

  function Memories(view: View, samples: seq<Sample>): View {
    if samples == [] then view else MemoryStep(Memories(view, samples[..|samples| - 1]), samples[|samples| - 1])
  }

  function Built(up: seq<Sample>, cpu: seq<Sample>, memory: seq<Sample>): View {
    Memories(Cpus(Ups(map[], up), cpu), memory)
  }

  /** Comparing an exact time with the floored one keeps the latest floored time. */
  lemma ScrapedIsMax(last: Option<int>, time: int)
    ensures Scraped(last, time) == Max(last, Some(Seconds(time)))
  {
  }

  lemma MaxAssociates(a: Option<int>, b: Option<int>, c: Option<int>)
    ensures Max(Max(a, b), c) == Max(a, Max(b, c))
    ensures Max(a, None) == a && Max(None, a) == a
  {
  }

  lemma SplitLast(samples: seq<Sample>)
    requires samples != []
    ensures Instances(samples) == Instances(samples[..|samples| - 1]) + {samples[|samples| - 1].instance}
  {
    var front, last := samples[..|samples| - 1], samples[|samples| - 1];
    assert samples == front + [last];
    assert forall s :: s in samples <==> s in front || s == last;
  }

  lemma NoSamples()
    ensures Instances([]) == {} && forall i :: Of([], i) == None && Latest([], i) == None
  {
  }

  /** A host that was not built yet is as it would be created. */
  lemma GetOrMerged(up: seq<Sample>, cpu: seq<Sample>, memory: seq<Sample>, i: string)
    ensures GetOr(Merged(up, cpu, memory), i) == HostFrom(up, cpu, memory, i)
  {
    OfIsASample(up, i);
    OfIsASample(cpu, i);
    OfIsASample(memory, i);
    LatestIsMax(cpu, i);
    LatestIsMax(memory, i);
    hide Of, Latest, Seconds;
  }

  lemma {:induction false} UpsMerge(up: seq<Sample>)
    ensures Ups(map[], up) == Merged(up, [], [])
  {
    NoSamples();
    if up != [] {
      var front, last := up[..|up| - 1], up[|up| - 1];
      SplitLast(up);
      UpsMerge(front);
      GetOrMerged(front, [], [], last.instance);
      hide GetOr, Instances, Latest;
    }
  }

  lemma {:induction false} CpusMerge(up: seq<Sample>, cpu: seq<Sample>)
    ensures Cpus(Ups(map[], up), cpu) == Merged(up, cpu, [])
  {
    NoSamples();
    if cpu == [] {
      UpsMerge(up);
    } else {
      var front, last := cpu[..|cpu| - 1], cpu[|cpu| - 1];
      SplitLast(cpu);
      CpusMerge(up, front);
      GetOrMerged(up, front, [], last.instance);
      CpuHost(up, front, last);
      hide GetOr, Instances, Ups, Scraped, HostFrom;
      SameElsewhereCpu(up, cpu);
    }
  }

  lemma CpuHost(up: seq<Sample>, front: seq<Sample>, last: Sample)
    ensures var (i, old') := (last.instance, HostFrom(up, front, [], last.instance));
            HostFrom(up, front + [last], [], i) == old'.(cpu := last.value, lastScrape := Scraped(old'.lastScrape, last.time))
  {
    var i := last.instance;
    assert (front + [last])[..|front|] == front;
    ScrapedIsMax(HostFrom(up, front, [], i).lastScrape, last.time);
    MaxAssociates(TimeOf(Of(up, i)), Latest(front, i), Some(Seconds(last.time)));
    MaxAssociates(Latest(front, i), None, None);
    MaxAssociates(Latest(front + [last], i), None, None);
    hide Scraped, Seconds, Max;
  }

  lemma SameElsewhereCpu(up: seq<Sample>, cpu: seq<Sample>)
    requires cpu != []
    ensures forall i :: i != cpu[|cpu| - 1].instance
                   ==> HostFrom(up, cpu, [], i) == HostFrom(up, cpu[..|cpu| - 1], [], i)
    ensures cpu[..|cpu| - 1] + [cpu[|cpu| - 1]] == cpu
  {
  }

  /** The three loops build, for every instance of a sample, the host its samples call for. */
  lemma {:induction false} BuiltIsMerged(up: seq<Sample>, cpu: seq<Sample>, memory: seq<Sample>)
    ensures Built(up, cpu, memory) == Merged(up, cpu, memory)
  {
    NoSamples();
    if memory == [] {
      CpusMerge(up, cpu);
    } else {
      var front, last := memory[..|memory| - 1], memory[|memory| - 1];
      SplitLast(memory);
      BuiltIsMerged(up, cpu, front);
      GetOrMerged(up, cpu, front, last.instance);
      MemoryHost(up, cpu, front, last);
      hide GetOr, Instances, Ups, Cpus, Scraped, HostFrom;
      SameElsewhereMemory(up, cpu, memory);
    }
  }

  lemma MemoryHost(up: seq<Sample>, cpu: seq<Sample>, front: seq<Sample>, last: Sample)
    ensures var (i, old') := (last.instance, HostFrom(up, cpu, front, last.instance));
            HostFrom(up, cpu, front + [last], i)
            == old'.(memory := last.value, lastScrape := Scraped(old'.lastScrape, last.time))
  {
    var i := last.instance;
    assert (front + [last])[..|front|] == front;
    ScrapedIsMax(HostFrom(up, cpu, front, i).lastScrape, last.time);
    MaxAssociates(TimeOf(Of(up, i)), Measured(cpu, front, i), Some(Seconds(last.time)));
    MaxAssociates(Latest(cpu, i), Latest(front, i), Some(Seconds(last.time)));
    hide Scraped, Seconds, Max;
  }

  lemma SameElsewhereMemory(up: seq<Sample>, cpu: seq<Sample>, memory: seq<Sample>)
    requires memory != []
    ensures forall i :: i != memory[|memory| - 1].instance
                   ==> HostFrom(up, cpu, memory, i) == HostFrom(up, cpu, memory[..|memory| - 1], i)
    ensures memory[..|memory| - 1] + [memory[|memory| - 1]] == memory
  {
  }

  // ---- When the order of the samples matters ----

  /** Two up samples leave the same host: the same reading, and the same last scrape once later vectors are merged. */
  predicate SameUp(a: Sample, b: Sample, measured: Option<int>) {
    && UpOrDown(a.value) == UpOrDown(b.value)
    && Max(Some(Seconds(a.time)), measured) == Max(Some(Seconds(b.time)), measured)
  }

  ghost predicate UpsAgree(up: seq<Sample>, cpu: seq<Sample>, memory: seq<Sample>) {
    forall a, b :: a in up && b in up && a.instance == b.instance ==> SameUp(a, b, Measured(cpu, memory, a.instance))
  }

  ghost predicate ValuesAgree(samples: seq<Sample>) {
    forall a, b :: a in samples && b in samples && a.instance == b.instance ==> a.value == b.value
  }

  /** Repeated samples of one instance agree where only the last of them counts. */
  ghost predicate Agreeing(up: seq<Sample>, cpu: seq<Sample>, memory: seq<Sample>) {
    UpsAgree(up, cpu, memory) && ValuesAgree(cpu) && ValuesAgree(memory)
  }

  ghost predicate OnePerInstance(samples: seq<Sample>) {
    forall i, j :: 0 <= i < j < |samples| ==> samples[i].instance != samples[j].instance
  }

  lemma OnePerInstanceAgrees(up: seq<Sample>, cpu: seq<Sample>, memory: seq<Sample>)
    requires OnePerInstance(up) && OnePerInstance(cpu) && OnePerInstance(memory)
    ensures Agreeing(up, cpu, memory)
  {
    hide UpOrDown, Seconds, Max, Measured;
  }

  ghost predicate SameSamples(up: seq<Sample>, cpu: seq<Sample>, memory: seq<Sample>, up': seq<Sample>,
                              cpu': seq<Sample>, memory': seq<Sample>)
  {
    multiset(up) == multiset(up') && multiset(cpu) == multiset(cpu') && multiset(memory) == multiset(memory')
  }

  lemma OneOf(samples: seq<Sample>, others: seq<Sample>, i: string)
    requires multiset(samples) == multiset(others)
    ensures Of(samples, i).None? <==> Of(others, i).None?
    ensures Of(samples, i).Some? ==> Of(samples, i).value in samples && Of(samples, i).value.instance == i
    ensures Of(others, i).Some? ==> Of(others, i).value in samples && Of(others, i).value.instance == i
  {
    OfIsASample(samples, i);
    OfIsASample(others, i);
    SameSamplesSameInstances(samples, others);
    assert forall s :: s in others ==> s in multiset(others);
    hide Of, Instances;
  }

  lemma AgreeingHost(up: seq<Sample>, cpu: seq<Sample>, memory: seq<Sample>, up': seq<Sample>, cpu': seq<Sample>,
                     memory': seq<Sample>, i: string)
    requires Agreeing(up, cpu, memory) && SameSamples(up, cpu, memory, up', cpu', memory')
    ensures HostFrom(up, cpu, memory, i) == HostFrom(up', cpu', memory', i)
  {
    OneOf(up, up', i);
    OneOf(cpu, cpu', i);
    OneOf(memory, memory', i);
    SameSamplesSameLatest(cpu, cpu', i);
    SameSamplesSameLatest(memory, memory', i);
    hide Of, Latest, Seconds, Max, UpOrDown;
    if Of(up, i).Some? {
      assert SameUp(Of(up, i).value, Of(up', i).value, Measured(cpu, memory, i));
    }
  }

  /** Samples that agree merge alike in any order. */
  lemma MergeIgnoresOrder(up: seq<Sample>, cpu: seq<Sample>, memory: seq<Sample>, up': seq<Sample>,
                          cpu': seq<Sample>, memory': seq<Sample>)
    requires Agreeing(up, cpu, memory) && SameSamples(up, cpu, memory, up', cpu', memory')
    ensures Built(up, cpu, memory) == Built(up', cpu', memory')
  {
    BuiltIsMerged(up, cpu, memory);
    BuiltIsMerged(up', cpu', memory');
    SameSamplesSameInstances(up, up');
    SameSamplesSameInstances(cpu, cpu');
    SameSamplesSameInstances(memory, memory');
    forall i ensures HostFrom(up, cpu, memory, i) == HostFrom(up', cpu', memory', i) {
      AgreeingHost(up, cpu, memory, up', cpu', memory', i);
    }
    hide Built, HostFrom, Instances, Agreeing;
  }

  ghost predicate OrderFree(up: seq<Sample>, cpu: seq<Sample>, memory: seq<Sample>) {
    forall up', cpu', memory' :: SameSamples(up, cpu, memory, up', cpu', memory')
      ==> Built(up', cpu', memory') == Built(up, cpu, memory)
  }

  /** The same samples with the given one last. */
  lemma EndingIn(samples: seq<Sample>, s: Sample) returns (others: seq<Sample>)
    requires s in samples
    ensures multiset(others) == multiset(samples) && Of(others, s.instance) == Some(s)
  {
    var k :| 0 <= k < |samples| && samples[k] == s;
    others := samples[..k] + samples[k + 1..] + [s];
    assert samples == samples[..k] + [s] + samples[k + 1..];
  }

  lemma FreeHost(up: seq<Sample>, cpu: seq<Sample>, memory: seq<Sample>, up': seq<Sample>, cpu': seq<Sample>,
                 memory': seq<Sample>, i: string)
    requires OrderFree(up, cpu, memory) && SameSamples(up, cpu, memory, up', cpu', memory')
    ensures HostFrom(up', cpu', memory', i) == HostFrom(up, cpu, memory, i)
  {
    GetOrMerged(up, cpu, memory, i);
    GetOrMerged(up', cpu', memory', i);
    BuiltIsMerged(up, cpu, memory);
    BuiltIsMerged(up', cpu', memory');
    hide Built, Merged, GetOr, HostFrom;
  }

  lemma FreeUpsAgree(up: seq<Sample>, cpu: seq<Sample>, memory: seq<Sample>)
    requires OrderFree(up, cpu, memory)
    ensures UpsAgree(up, cpu, memory)
  {
    hide OrderFree, UpOrDown, Max, Measured, Seconds;
    forall a, b | a in up && b in up && a.instance == b.instance
      ensures SameUp(a, b, Measured(cpu, memory, a.instance))
    {
      var x := EndingIn(up, a);
      var y := EndingIn(up, b);
      FreeHost(up, cpu, memory, x, cpu, memory, a.instance);
      FreeHost(up, cpu, memory, y, cpu, memory, a.instance);
      DistinctReadings(a, b);
    }
  }

  lemma DistinctReadings(a: Sample, b: Sample)
    ensures StatusOf(Some(a)) == UpOrDown(a.value) && StatusOf(Some(b)) == UpOrDown(b.value)
  {
  }

  lemma FreeValuesAgree(up: seq<Sample>, cpu: seq<Sample>, memory: seq<Sample>)
    requires OrderFree(up, cpu, memory)
    ensures ValuesAgree(cpu) && ValuesAgree(memory)
  {
    hide OrderFree, Max, Measured;
    forall a, b | a in cpu && b in cpu && a.instance == b.instance ensures a.value == b.value {
      var x := EndingIn(cpu, a);
      var y := EndingIn(cpu, b);
      FreeHost(up, cpu, memory, up, x, memory, a.instance);
      FreeHost(up, cpu, memory, up, y, memory, a.instance);
    }
    forall a, b | a in memory && b in memory && a.instance == b.instance ensures a.value == b.value {
      var x := EndingIn(memory, a);
      var y := EndingIn(memory, b);
      FreeHost(up, cpu, memory, up, cpu, x, a.instance);
      FreeHost(up, cpu, memory, up, cpu, y, a.instance);
    }
  }

  /**
   * The order of the samples is immaterial exactly when repeated samples of an instance agree: CPU and memory samples in
   * their values, up samples in their reading and in any time that no later vector hides.
   */
  lemma OrderFreeIffAgreeing(up: seq<Sample>, cpu: seq<Sample>, memory: seq<Sample>)
    ensures OrderFree(up, cpu, memory) <==> Agreeing(up, cpu, memory)
  {
    if Agreeing(up, cpu, memory) {
      forall up', cpu', memory' | SameSamples(up, cpu, memory, up', cpu', memory')
        ensures Built(up', cpu', memory') == Built(up, cpu, memory)
      {
        MergeIgnoresOrder(up, cpu, memory, up', cpu', memory');
      }
    }
    if OrderFree(up, cpu, memory) {
      FreeUpsAgree(up, cpu, memory);
      FreeValuesAgree(up, cpu, memory);
    }
  }

  // ---- The list ----

  ghost predicate Ascending(hosts: seq<Host>) {
    forall i, j :: 0 <= i < j < |hosts| ==> Less(hosts[i].instance, hosts[j].instance)
  }

  ghost predicate Lists(hosts: seq<Host>, view: View) {
    Ascending(hosts) && forall h :: h in hosts <==> h.instance in view && view[h.instance] == h
  }

  lemma {:induction false} ListIsUnique(a: seq<Host>, b: seq<Host>)
    requires Ascending(a) && Ascending(b) && forall h :: h in a <==> h in b
    ensures a == b
  {
    assert a != [] ==> a[0] in a;
    assert b != [] ==> b[0] in b;
    if a != [] && b != [] {
      assert a[0] in b;
      assert b[0] in a;
      LessIsTotal(a[0].instance, b[0].instance);
      assert a[0] == b[0];
      LessIsTotal(a[0].instance, a[0].instance);
      assert forall i :: 0 < i < |a| ==> Less(a[0].instance, a[i].instance) && a[i] != a[0];
      assert forall i :: 0 < i < |b| ==> Less(b[0].instance, b[i].instance) && b[i] != b[0];
      assert forall h :: h in a <==> h == a[0] || h in a[1..];
      assert forall h :: h in b <==> h == b[0] || h in b[1..];
      hide Less;
      ListIsUnique(a[1..], b[1..]);
      assert a == [a[0]] + a[1..] && b == [b[0]] + b[1..];
    }
  }

  /** Samples that agree give the same list in any order. */
  lemma ListIgnoresOrder(up: seq<Sample>, cpu: seq<Sample>, memory: seq<Sample>, up': seq<Sample>,
                         cpu': seq<Sample>, memory': seq<Sample>, a: seq<Host>, b: seq<Host>)
    requires Agreeing(up, cpu, memory) && SameSamples(up, cpu, memory, up', cpu', memory')
    requires Lists(a, Built(up, cpu, memory)) && Lists(b, Built(up', cpu', memory'))
    ensures a == b
  {
    MergeIgnoresOrder(up, cpu, memory, up', cpu', memory');
    hide Built, Agreeing, Ascending;
    ListIsUnique(a, b);
  }

  // ---- The client itself: hosts are records reached through a map ----

  class HostRecord {
    const instance: string
    var cpu: real
    var memory: real
    var status: string
    var lastScrape: Option<int>

    constructor (instance: string)
      ensures Value() == Created(instance)
    {
      this.instance := instance;
      cpu, memory, status, lastScrape := 0.0, 0.0, "unknown", None;
    }

    function Value(): Host
      reads this
    {
      Host(instance, cpu, memory, status, lastScrape)
    }

    method SetStatus(s: Sample)
      modifies this
      ensures Value() == old(Value()).(status := UpOrDown(s.value), lastScrape := Some(Seconds(s.time)))
    {
      status := "down";
      if s.value >= 1.0 {
        status := "up";
      }
      lastScrape := Some(Seconds(s.time));
    }

    method UpdateLastScrape(time: int)
      modifies this
      ensures Value() == old(Value()).(lastScrape := Scraped(old(lastScrape), time))
    {
      if lastScrape == None {
        lastScrape := Some(Seconds(time));
        return;
      }
      if time > lastScrape.value * 1_000_000_000 {
        lastScrape := Some(Seconds(time));
      }
    }
  }

  class HostTable {
    var hosts: map<string, HostRecord>
    ghost var records: set<HostRecord>

    constructor ()
      ensures Valid() && fresh(records) && Contents() == map[]
    {
      hosts := map[];
      records := {};
    }

    ghost predicate Valid()
      reads this, records
    {
      forall k :: k in hosts ==> hosts[k] in records && hosts[k].instance == k
    }

    ghost function Contents(): View
      reads this, records
      requires Valid()
    {
      map k | k in hosts :: hosts[k].Value()
    }

    method GetOrCreateHost(instance: string) returns (host: HostRecord)
      requires Valid()
      modifies this
      ensures Valid() && instance in hosts && hosts[instance] == host && fresh(records - old(records))
      ensures Contents() == old(Contents())[instance := GetOr(old(Contents()), instance)]
    {
      if instance in hosts {
        host := hosts[instance];
        return;
      }
      host := new HostRecord(instance);
      hosts := hosts[instance := host];
      records := records + {host};
    }

    twostate lemma OneRecordChanged(instance: string)
      requires old(Valid()) && Valid() && hosts == old(hosts) && records == old(records) && instance in hosts
      requires forall r :: r in records && r != hosts[instance] ==> r.Value() == old(r.Value())
      ensures Contents() == old(Contents())[instance := hosts[instance].Value()]
    {
      assert forall k :: k in hosts && k != instance ==> hosts[k] != hosts[instance];
    }

    method AddUp(s: Sample)
      requires Valid()
      modifies this, records
      ensures Valid() && fresh(records - old(records)) && Contents() == UpStep(old(Contents()), s)
    {
      hide GetOr, Created, UpOrDown, Seconds, Scraped;
      var host := GetOrCreateHost(s.instance);
      label found:
      host.SetStatus(s);
      OneRecordChanged@found(s.instance);
    }

    method AddCpu(s: Sample)
      requires Valid()
      modifies this, records
      ensures Valid() && fresh(records - old(records)) && Contents() == CpuStep(old(Contents()), s)
    {
      hide GetOr, Created, UpOrDown, Seconds, Scraped;
      var host := GetOrCreateHost(s.instance);
      label found:
      host.cpu := s.value;
      host.UpdateLastScrape(s.time);
      OneRecordChanged@found(s.instance);
    }

    method AddMemory(s: Sample)
      requires Valid()
      modifies this, records
      ensures Valid() && fresh(records - old(records)) && Contents() == MemoryStep(old(Contents()), s)
    {
      hide GetOr, Created, UpOrDown, Seconds, Scraped;
      var host := GetOrCreateHost(s.instance);
      label found:
      host.memory := s.value;
      host.UpdateLastScrape(s.time);
      OneRecordChanged@found(s.instance);
    }
  }

  ghost predicate AllSet(view: View) {
    forall i :: i in view ==> view[i].status != "" && view[i].instance == i
  }

  lemma {:induction false} UpsSet(samples: seq<Sample>)
    ensures AllSet(Ups(map[], samples))
  {
    if samples != [] {
      UpsSet(samples[..|samples| - 1]);
    }
  }

  lemma {:induction false} CpusSet(view: View, samples: seq<Sample>)
    requires AllSet(view)
    ensures AllSet(Cpus(view, samples))
  {
    if samples != [] {
      CpusSet(view, samples[..|samples| - 1]);
    }
  }

  lemma {:induction false} MemoriesSet(view: View, samples: seq<Sample>)
    requires AllSet(view)
    ensures AllSet(Memories(view, samples))
  {
    if samples != [] {
      MemoriesSet(view, samples[..|samples| - 1]);
    }
  }

  /** No host is built without a status, so the last check of the client finds none. */
  lemma StatusNeverEmpty(up: seq<Sample>, cpu: seq<Sample>, memory: seq<Sample>)
    ensures AllSet(Built(up, cpu, memory))
  {
    UpsSet(up);
    CpusSet(Ups(map[], up), cpu);
    MemoriesSet(Cpus(Ups(map[], up), cpu), memory);
  }

  /** Values of the table in whatever order the map gives them. */
  method Values(table: HostTable) returns (hosts: seq<Host>)
    requires table.Valid() && AllSet(table.Contents())
    ensures forall h :: h in hosts <==> h.instance in table.Contents() && table.Contents()[h.instance] == h
    ensures DistinctInstances(hosts)
  {
    hosts := [];
    var keys := table.hosts.Keys;
    while keys != {}
      invariant keys <= table.hosts.Keys
      invariant forall h :: h in hosts
                       <==> h.instance in table.hosts && h.instance !in keys && table.hosts[h.instance].Value() == h
      invariant DistinctInstances(hosts)
    {
      var k :| k in keys;
      var host := table.hosts[k].Value();
      assert host == table.Contents()[k];
      if host.status == "" {
        host := host.(status := "unknown");
      }
      hosts := hosts + [host];
      keys := keys - {k};
    }
  }

  lemma SortedAscends(hosts: seq<Host>)
    requires DistinctInstances(hosts)
    ensures Ascending(Sorted(hosts, ByInstance)) && forall h :: h in Sorted(hosts, ByInstance) <==> h in hosts
  {
    var s := Sorted(hosts, ByInstance);
    SortedIsSorted(hosts, ByInstance);
    hide Sorted;
    assert forall h :: h in s <==> h in multiset(s);
    assert forall h :: h in hosts <==> h in multiset(hosts);
    DistinctStays(hosts, s);
    forall i, j | 0 <= i < j < |s| ensures Less(s[i].instance, s[j].instance) {
      LessIsTotal(s[i].instance, s[j].instance);
    }
  }

  /** GetHosts, after its three queries; a failed query returns no hosts. */
  method GetHosts(up: Option<seq<Sample>>, cpu: Option<seq<Sample>>, memory: Option<seq<Sample>>)
    returns (hosts: Option<seq<Host>>)
    ensures hosts.None? <==> up.None? || cpu.None? || memory.None?
    ensures hosts.Some? ==> Lists(hosts.value, Built(up.value, cpu.value, memory.value))
  {
    if up.None? || cpu.None? || memory.None? {
      return None;
    }
    var table := new HostTable();
    Fill(table, up.value, cpu.value, memory.value);
    StatusNeverEmpty(up.value, cpu.value, memory.value);
    hide Built, AllSet;
    var values := Values(table);
    SortedAscends(values);
    hosts := Some(Sorted(values, ByInstance));
  }

  method Fill(table: HostTable, up: seq<Sample>, cpu: seq<Sample>, memory: seq<Sample>)
    requires table.Valid() && table.Contents() == map[]
    modifies table, table.records
    ensures table.Valid() && fresh(table.records - old(table.records))
    ensures table.Contents() == Built(up, cpu, memory)
  {
    hide UpStep, CpuStep, MemoryStep, HostTable.Contents, HostTable.Valid;
    for k := 0 to |up|
      invariant table.Valid() && fresh(table.records - old(table.records)) && table.Contents() == Ups(map[], up[..k])
    {
      table.AddUp(up[k]);
      assert up[..k + 1][..k] == up[..k];
    }
    ghost var ups := Ups(map[], up);
    assert up[..|up|] == up;
    for k := 0 to |cpu|
      invariant table.Valid() && fresh(table.records - old(table.records)) && table.Contents() == Cpus(ups, cpu[..k])
    {
      table.AddCpu(cpu[k]);
      assert cpu[..k + 1][..k] == cpu[..k];
    }
    ghost var cpus := Cpus(ups, cpu);
    assert cpu[..|cpu|] == cpu;
    for k := 0 to |memory|
      invariant table.Valid() && fresh(table.records - old(table.records))
      invariant table.Contents() == Memories(cpus, memory[..k])
    {
      table.AddMemory(memory[k]);
      assert memory[..k + 1][..k] == memory[..k];
    }
    assert memory[..|memory|] == memory;
  }

  // ---- What a built host says ----

  /** Status, CPU and memory of a built host, from the last sample of its instance in each vector. */
  lemma HostSays(up: seq<Sample>, cpu: seq<Sample>, memory: seq<Sample>, i: string)
    requires i in Built(up, cpu, memory)
    ensures var h := Built(up, cpu, memory)[i];
            && h.instance == i
            && (h.status == "up" <==> exists k :: IsLastOf(up, k, i) && up[k].value >= 1.0)
            && (h.status == "down" <==> exists k :: IsLastOf(up, k, i) && up[k].value < 1.0)
            && (h.status == "unknown" <==> forall k :: !IsLastOf(up, k, i))
            && (forall k :: IsLastOf(cpu, k, i) ==> h.cpu == cpu[k].value)
            && (forall k :: IsLastOf(memory, k, i) ==> h.memory == memory[k].value)
            && ((forall k :: !IsLastOf(cpu, k, i)) ==> h.cpu == 0.0)
            && ((forall k :: !IsLastOf(memory, k, i)) ==> h.memory == 0.0)
  {
    BuiltIsMerged(up, cpu, memory);
    LastIsOf(up, i);
    LastIsOf(cpu, i);
    LastIsOf(memory, i);
    hide Built, Of, IsLastOf, Measured, Max, TimeOf, Instances;
  }

  /** k is the last sample of the instance. */
  predicate IsLastOf(samples: seq<Sample>, k: int, i: string) {
    && 0 <= k < |samples| && samples[k].instance == i
    && forall j :: k < j < |samples| ==> samples[j].instance != i
  }

  lemma {:induction false} LastIsOf(samples: seq<Sample>, i: string)
    ensures forall k :: IsLastOf(samples, k, i) ==> Of(samples, i) == Some(samples[k])
    ensures Of(samples, i).Some? ==> exists k :: IsLastOf(samples, k, i)
  {
    if samples != [] {
      var n := |samples| - 1;
      LastIsOf(samples[..n], i);
      if samples[n].instance == i {
        assert IsLastOf(samples, n, i);
      } else {
        assert forall k :: 0 <= k < n ==> samples[..n][k] == samples[k];
        assert forall k :: IsLastOf(samples, k, i) <==> IsLastOf(samples[..n], k, i);
      }
    }
  }

  /** Times are cut to whole seconds. */
  lemma SecondsIs(time: int)
    ensures Seconds(time) * 1_000_000_000 <= time < (Seconds(time) + 1) * 1_000_000_000
  {
  }
}
