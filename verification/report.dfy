/**
 * What a simulation reports about its auctions (simulation/visualization/report.go), and why it adds
 * up: whatever the interleaving, the pool's use rises by exactly what the winners took, and the
 * instances reported missing are those whose auction found no winner.
 */
module Reporting {
  import opened Types
  import opened Pool
  import opened Auctioneer
  import opened RepClasses
  import opened System

  /** The things that add up over the pool. */
  datatype Gauge = MemoryUsed | DiskUsed | ContainersUsed | Found(guids: set<Guid>)

  ghost function HeldHere(m: Instances, guids: set<Guid>): set<Guid> {
    set x | x in m && x in guids
  }

  ghost function Amount(r: Rep, gauge: Gauge): real {
    match gauge
    case MemoryUsed => Sums.Total(Memory(r.instances))
    case DiskUsed => Sums.Total(Disk(r.instances))
    case ContainersUsed => |r.instances| as real
    case Found(guids) => |HeldHere(r.instances, guids)| as real
  }

  function Share(i: Instance, gauge: Gauge): real {
    match gauge
    case MemoryUsed => i.resources.memoryMB
    case DiskUsed => i.resources.diskMB
    case ContainersUsed => 1.0
    case Found(guids) => if i.instanceGuid in guids then 1.0 else 0.0
  }

  ghost function Amounts(v: View, gauge: Gauge): map<Guid, real> {
    map g | g in v :: Amount(v[g], gauge)
  }

  ghost function PoolAmount(v: View, gauge: Gauge): real {
    Sums.Total(Amounts(v, gauge))
  }

  /** What the auctions that found a winner asked for. */
  function Won(bids: seq<Bid>, gauge: Gauge): real {
    if bids == [] then 0.0 else
      var b := bids[|bids| - 1];
      Won(bids[..|bids| - 1], gauge) + if WinnerOf(b.stage) == NO_GUID then 0.0 else Share(b.instance, gauge)
  }

  lemma FoundAfterReserve(m: Instances, i: Instance, guids: set<Guid>)
    requires i.instanceGuid !in m
    ensures |HeldHere(m[i.instanceGuid := i], guids)| == |HeldHere(m, guids)| + if i.instanceGuid in guids then 1 else 0
  {
    assert HeldHere(m[i.instanceGuid := i], guids) == HeldHere(m, guids) + if i.instanceGuid in guids then {i.instanceGuid} else {};
  }

  lemma AmountAfterReserve(r: Rep, i: Instance, gauge: Gauge)
    requires i.instanceGuid !in r.instances
    ensures Amount(r.Reserve(i), gauge) == Amount(r, gauge) + Share(i, gauge)
  {
    hide HeldHere, Memory, Disk;
    AmountsAfterReserve(r.instances, i);
    match gauge
    case MemoryUsed =>
      KeysOfAmounts(r.instances);
      Sums.TotalUpdate(Memory(r.instances), i.instanceGuid, i.resources.memoryMB);
    case DiskUsed =>
      KeysOfAmounts(r.instances);
      Sums.TotalUpdate(Disk(r.instances), i.instanceGuid, i.resources.diskMB);
    case ContainersUsed => SizeAfterUpdate(r.instances, i.instanceGuid, i);
    case Found(guids) => FoundAfterReserve(r.instances, i, guids);
  }

  lemma KeysOfAmounts(m: Instances)
    ensures Memory(m).Keys == m.Keys && Disk(m).Keys == m.Keys
  {}

  lemma PoolAmountAfterPlace(v: View, w: Guid, i: Instance, gauge: Gauge)
    requires Fresh(v, i.instanceGuid)
    ensures PoolAmount(Place(v, w, i), gauge) == PoolAmount(v, gauge) + if w in v then Share(i, gauge) else 0.0
  {
    if w in v {
      assert v[w].Holding(i.instanceGuid).None?;
      AmountAfterReserve(v[w], i, gauge);
      assert Amounts(Place(v, w, i), gauge) == Amounts(v, gauge)[w := Amount(v[w].Reserve(i), gauge)];
      Sums.TotalUpdate(Amounts(v, gauge), w, Amount(v[w].Reserve(i), gauge));
    }
  }

  lemma FreshAfter(v0: View, v: View, rest: seq<Bid>, guid: Guid)
    requires SamePool(v0, v) && OthersKept(v0, v, rest) && Fresh(v0, guid) && !Auctioned(rest, guid)
    ensures Fresh(v, guid)
  {}

  /** Placing the winners, one after another, adds up to what they asked for. */
  lemma {:induction false} PlacedAmounts(v0: View, bids: seq<Bid>, gauge: Gauge)
    requires AllDone(bids) && DifferentInstances(bids) && AllFresh(v0, bids) && NO_GUID !in v0
    requires forall a :: 0 <= a < |bids| ==> WinnerOf(bids[a].stage) == NO_GUID || WinnerOf(bids[a].stage) in v0
    ensures PoolAmount(PlaceAll(v0, bids), gauge) == PoolAmount(v0, gauge) + Won(bids, gauge)
  {
    if bids != [] {
      var n := |bids| - 1;
      var rest, b := bids[..n], bids[n];
      PlacedAmounts(v0, rest, gauge);
      PlaceAllOwned(v0, rest);
      FreshAfter(v0, PlaceAll(v0, rest), rest, b.instance.instanceGuid);
      PoolAmountAfterPlace(PlaceAll(v0, rest), WinnerOf(b.stage), b.instance, gauge);
    }
  }

  /**
   * Conservation: once every result is in, the memory, disk and containers used in the whole pool
   * have risen by exactly what the winning instances take, under every interleaving.
   */
  lemma Conservation(c: Config, states: seq<State>, acts: seq<Action>, gauge: Gauge)
    requires Run(c, states, acts) && Initial(states[0])
    requires |states[|acts|].results| == |states[|acts|].bids|
    ensures PoolAmount(states[|acts|].pool, gauge) == PoolAmount(states[0].pool, gauge) + Won(states[|acts|].bids, gauge)
  {
    hide Enabled, Next, Owned, OthersKept, ValidView, PlaceAll, PoolAmount, Fresh;
    var n := |acts|;
    ConcurrentIsSequential(c, states, acts);
    SameInstances(c, states, acts, n);
    WinnersInPool(c, states[0].pool, states[n]);
    assert NO_GUID !in states[0].pool by { NoGuid(states[0].pool); }
    PlacedAmounts(states[0].pool, states[n].bids, gauge);
  }

  lemma WinnersInPool(c: Config, v0: View, s: State)
    requires Inv(c, v0, s)
    ensures DifferentInstances(s.bids)
    ensures forall a :: 0 <= a < |s.bids| && Done(s.bids[a].stage) ==> WinnerOf(s.bids[a].stage) == NO_GUID || WinnerOf(s.bids[a].stage) in v0
  {
    forall a | 0 <= a < |s.bids| && Done(s.bids[a].stage)
      ensures WinnerOf(s.bids[a].stage) == NO_GUID || WinnerOf(s.bids[a].stage) in v0
    {
      assert StageOk(c, s.bids[a].stage, s.bids[a].algorithm, s.pool.Keys);
    }
  }

  // ---------------------------------------------------------------- the report

  /** How many of the listed instances were up for auction. */
  function CountIn(list: seq<Instance>, guids: set<Guid>): nat {
    if list == [] then 0
    else CountIn(list[..|list| - 1], guids) + if list[|list| - 1].instanceGuid in guids then 1 else 0
  }

  function GuidsOf(results: seq<AuctionResult>): set<Guid> {
    set r | r in results :: r.instance.instanceGuid
  }

  ghost function Counts(byRep: map<Guid, seq<Instance>>, guids: set<Guid>): map<Guid, real> {
    map g | g in byRep :: CountIn(byRep[g], guids) as real
  }

  class Report {
    const auctionResults: seq<AuctionResult>
    const instancesByRep: map<Guid, seq<Instance>>
    /** Filled on the first question. */
    var auctionedInstances: Option<set<Guid>>

    constructor (auctionResults: seq<AuctionResult>, instancesByRep: map<Guid, seq<Instance>>)
      ensures Valid() && this.auctionResults == auctionResults && this.instancesByRep == instancesByRep
    {
      this.auctionResults, this.instancesByRep, auctionedInstances := auctionResults, instancesByRep, None;
    }

    ghost predicate Valid()
      reads this
    {
      auctionedInstances.Some? ==> auctionedInstances.value == GuidsOf(auctionResults)
    }

    method IsAuctionedInstance(instance: Instance) returns (auctioned: bool)
      requires Valid()
      modifies this`auctionedInstances
      ensures Valid() && auctioned == (instance.instanceGuid in GuidsOf(auctionResults))
    {
      if auctionedInstances.None? {
        var guids: set<Guid> := {};
        for k := 0 to |auctionResults|
          invariant guids == GuidsOf(auctionResults[..k])
        {
          assert auctionResults[..k + 1] == auctionResults[..k] + [auctionResults[k]];
          guids := guids + {auctionResults[k].instance.instanceGuid};
        }
        assert auctionResults[..|auctionResults|] == auctionResults;
        auctionedInstances := Some(guids);
      }
      auctioned := instance.instanceGuid in auctionedInstances.value;
    }

    method NMissingInstances() returns (missing: int)
      requires Valid()
      modifies this`auctionedInstances
      ensures Valid()
      ensures missing as real == |auctionResults| as real - Sums.Total(Counts(instancesByRep, GuidsOf(auctionResults)))
    {
      var running := 0;
      var left := instancesByRep;
      ghost var guids := GuidsOf(auctionResults);
      while left != map[]
        invariant Valid()
        invariant running as real + Sums.Total(Counts(left, guids)) == Sums.Total(Counts(instancesByRep, guids))
        decreases |left|
      {
        assert left.Keys != {};
        var g :| g in left;
        var instances := left[g];
        ghost var before := running;
        for k := 0 to |instances|
          invariant Valid() && running == before + CountIn(instances[..k], guids)
        {
          assert instances[..k + 1][..k] == instances[..k];
          var auctioned := IsAuctionedInstance(instances[k]);
          if auctioned {
            running := running + 1;
          }
        }
        assert instances[..|instances|] == instances;
        Sums.TotalRemove(Counts(left, guids), g);
        assert Counts(left - {g}, guids) == Counts(left, guids) - {g};
        SizeAfterUpdate(left, g, []);
        left := left - {g};
      }
      missing := |auctionResults| - running;
    }
  }

  lemma ListedButLast(list: seq<Instance>, m: Instances, seen: set<Guid>)
    requires Listed(list, m, seen) && list != []
    ensures list[|list| - 1].instanceGuid in seen
    ensures Listed(list[..|list| - 1], m, seen - {list[|list| - 1].instanceGuid})
  {
    var rest, g := list[..|list| - 1], list[|list| - 1].instanceGuid;
    var before := set k | 0 <= k < |rest| :: rest[k].instanceGuid;
    forall x | x in seen && x != g ensures x in before {
      var k :| 0 <= k < |list| && list[k].instanceGuid == x;
      assert rest[k].instanceGuid == x;
    }
    forall x | x in before ensures x in seen && x != g {
      var k :| 0 <= k < |rest| && rest[k].instanceGuid == x;
      assert list[k].instanceGuid == x;
    }
    assert before == seen - {g};
  }

  lemma OneLess(seen: set<Guid>, g: Guid, guids: set<Guid>)
    requires g in seen
    ensures |seen * guids| == |(seen - {g}) * guids| + if g in guids then 1 else 0
  {
    assert seen * guids == (seen - {g}) * guids + if g in guids then {g} else {};
  }

  lemma {:induction false} CountedOnce(list: seq<Instance>, m: Instances, seen: set<Guid>, guids: set<Guid>)
    requires Listed(list, m, seen)
    ensures CountIn(list, guids) == |seen * guids|
  {
    if list == [] {
      assert seen == {};
    } else {
      hide Listed;
      var g := list[|list| - 1].instanceGuid;
      ListedButLast(list, m, seen);
      CountedOnce(list[..|list| - 1], m, seen - {g}, guids);
      OneLess(seen, g, guids);
    }
  }

  /** What the report reads from the representatives: each one's instances, once each. */
  ghost predicate Fetched(byRep: map<Guid, seq<Instance>>, v: View) {
    byRep.Keys == v.Keys && forall g :: g in v ==> Enumerates(byRep[g], v[g].instances)
  }

  lemma CountsAreFound(byRep: map<Guid, seq<Instance>>, v: View, guids: set<Guid>)
    requires Fetched(byRep, v)
    ensures Sums.Total(Counts(byRep, guids)) == PoolAmount(v, Found(guids))
  {
    hide Listed, CountIn;
    forall g | g in v ensures Counts(byRep, guids)[g] == Amounts(v, Found(guids))[g] {
      CountedOnce(byRep[g], v[g].instances, v[g].instances.Keys, guids);
      assert HeldHere(v[g].instances, guids) == v[g].instances.Keys * guids;
    }
    assert Counts(byRep, guids) == Amounts(v, Found(guids));
  }

  function Losers(bids: seq<Bid>): nat {
    if bids == [] then 0
    else Losers(bids[..|bids| - 1]) + if WinnerOf(bids[|bids| - 1].stage) == NO_GUID then 1 else 0
  }

  lemma {:induction false} WonPlusLost(bids: seq<Bid>, guids: set<Guid>)
    requires forall a :: 0 <= a < |bids| ==> bids[a].instance.instanceGuid in guids
    ensures Won(bids, Found(guids)) == (|bids| - Losers(bids)) as real
  {
    if bids != [] {
      WonPlusLost(bids[..|bids| - 1], guids);
    }
  }

  lemma NoneFoundAtFirst(v: View, bids: seq<Bid>, guids: set<Guid>)
    requires AllFresh(v, bids) && forall x :: x in guids ==> Auctioned(bids, x)
    ensures PoolAmount(v, Found(guids)) == 0.0
  {
    forall g | g in v ensures Amounts(v, Found(guids))[g] == 0.0 {
      forall x | x in guids ensures x !in v[g].instances {
        var a :| 0 <= a < |bids| && bids[a].instance.instanceGuid == x;
        assert v[g].Holding(bids[a].instance.instanceGuid).None?;
      }
      assert HeldHere(v[g].instances, guids) == {};
    }
    Sums.TotalUniform(Amounts(v, Found(guids)), 0.0);
  }

  /** The results handed to the report: one for each collected outcome. */
  ghost predicate Reports(results: seq<AuctionResult>, s: State) {
    && |results| == |s.results|
    && forall k :: 0 <= k < |results| ==>
         s.results[k].bid < |s.bids| && results[k].instance == s.bids[s.results[k].bid].instance
         && results[k].winner == s.results[k].winner
  }

  lemma ReportedGuids(results: seq<AuctionResult>, s: State)
    requires Reports(results, s) && ResultsOk(s) && AllDone(s.bids)
    ensures forall x :: x in GuidsOf(results) <==> Auctioned(s.bids, x)
  {
    forall x | Auctioned(s.bids, x) ensures x in GuidsOf(results) {
      var a :| 0 <= a < |s.bids| && s.bids[a].instance.instanceGuid == x;
      assert Done(s.bids[a].stage);
      var k :| 0 <= k < |s.results| && s.results[k].bid == a;
      assert results[k] in results;
    }
    forall x | x in GuidsOf(results) ensures Auctioned(s.bids, x) {
      var r :| r in results && r.instance.instanceGuid == x;
      var k :| 0 <= k < |results| && results[k] == r;
      assert s.bids[s.results[k].bid].instance.instanceGuid == x;
    }
  }

  /**
   * The report's count of missing instances, taken when the results are in, is the number of
   * auctions that found no winner, under every interleaving.
   */
  lemma MissingMeansNoWinner(c: Config, states: seq<State>, acts: seq<Action>, results: seq<AuctionResult>,
                             byRep: map<Guid, seq<Instance>>)
    requires Run(c, states, acts) && Initial(states[0])
    requires |states[|acts|].results| == |states[|acts|].bids|
    requires Reports(results, states[|acts|]) && Fetched(byRep, states[|acts|].pool)
    ensures |results| as real - Sums.Total(Counts(byRep, GuidsOf(results))) == Losers(states[|acts|].bids) as real
  {
    hide Enabled, Next, Owned, OthersKept, ValidView, PlaceAll, PoolAmount, Fresh, Counts, GuidsOf, Won, Losers;
    hide Enumerates;
    var s0, s, guids := states[0], states[|acts|], GuidsOf(results);
    ConcurrentIsSequential(c, states, acts);
    Conservation(c, states, acts, Found(guids));
    SameInstances(c, states, acts, |acts|);
    ReportedGuids(results, s);
    NoneFoundAtFirst(s0.pool, s.bids, guids);
    CountsAreFound(byRep, s.pool, guids);
    forall a | 0 <= a < |s.bids| ensures s.bids[a].instance.instanceGuid in guids {
      assert Auctioned(s.bids, s.bids[a].instance.instanceGuid);
    }
    WonPlusLost(s.bids, guids);
  }
}
