/**
 * Whole sequences of auctions held one after another, each by a greedy algorithm on the whole pool:
 * instances of one app spread evenly, and the pool fills up before anything is turned away.
 */
module Fairness {
  import opened Types
  import opened Pool
  import opened Auctioneer
  import opened Selection
  import opened Client

  /** Every instance held belongs to the app and asks for the same resources. */
  ghost predicate Uniform(r: Rep, app: Guid, required: Resources) {
    forall g :: g in r.instances ==> r.instances[g].appGuid == app && r.instances[g].resources == required
  }

  /** How many such instances a representative can take: the largest number, up to `c`, that fits. */
  function SlotsUpTo(total: Resources, required: Resources, c: nat): nat {
    if c == 0 then 0
    else if c as real * required.memoryMB <= total.memoryMB && c as real * required.diskMB <= total.diskMB then c
    else SlotsUpTo(total, required, c - 1)
  }

  function Slots(total: Resources, required: Resources): nat {
    SlotsUpTo(total, required, if total.containers < 0 then 0 else total.containers)
  }

  lemma Scale(n: nat, c: nat, amount: real, limit: real)
    requires n <= c && amount >= 0.0 && c as real * amount <= limit
    ensures n as real * amount <= limit
  {
    var rest := (c - n) as real;
    assert rest * amount >= 0.0;
    assert c as real * amount == n as real * amount + rest * amount;
  }

  lemma {:induction false} SlotsMeaning(total: Resources, required: Resources, c: nat, n: nat)
    requires NonNegative(required)
    ensures n < SlotsUpTo(total, required, c) <==>
            n < c && (n + 1) as real * required.memoryMB <= total.memoryMB && (n + 1) as real * required.diskMB <= total.diskMB
  {
    if c > 0 {
      if c as real * required.memoryMB <= total.memoryMB && c as real * required.diskMB <= total.diskMB {
        if n < c {
          Scale(n + 1, c, required.memoryMB, total.memoryMB);
          Scale(n + 1, c, required.diskMB, total.diskMB);
        }
      } else {
        SlotsMeaning(total, required, c - 1, n);
      }
    }
  }

  lemma {:induction false} UniformAmounts(r: Rep, app: Guid, required: Resources)
    requires Uniform(r, app, required)
    ensures r.NumInstances(app) == |r.instances|
    ensures r.Remaining().memoryMB == r.total.memoryMB - |r.instances| as real * required.memoryMB
    ensures r.Remaining().diskMB == r.total.diskMB - |r.instances| as real * required.diskMB
  {
    hide Sums.Total;
    assert OfApp(r.instances, r.instances.Keys, app) == r.instances.Keys;
    UniformMaps(r.instances, app, required);
    Sums.TotalUniform(Memory(r.instances), required.memoryMB);
    Sums.TotalUniform(Disk(r.instances), required.diskMB);
  }

  lemma UniformMaps(m: Instances, app: Guid, required: Resources)
    requires forall g :: g in m ==> m[g].appGuid == app && m[g].resources == required
    ensures |Memory(m)| == |Disk(m)| == |m|
    ensures forall g :: g in Memory(m) ==> Memory(m)[g] == required.memoryMB
    ensures forall g :: g in Disk(m) ==> Disk(m)[g] == required.diskMB
  {
    assert Memory(m).Keys == m.Keys && Disk(m).Keys == m.Keys;
  }

  lemma OneMore(n: nat, amount: real)
    ensures (n + 1) as real * amount == n as real * amount + amount
  {}

  /** There is room exactly while some slot is free. */
  lemma {:induction false} RoomIsAFreeSlot(r: Rep, app: Guid, required: Resources)
    requires Uniform(r, app, required) && NonNegative(required) && r.Valid()
    ensures r.HasRoom(required) <==> |r.instances| < Slots(r.total, required)
    ensures |r.instances| <= Slots(r.total, required)
  {
    hide Uniform, SlotsUpTo, Rep.NumInstances;
    UniformAmounts(r, app, required);
    var n, c := |r.instances|, r.total.containers;
    SlotsMeaning(r.total, required, c, n);
    OneMore(n, required.memoryMB);
    OneMore(n, required.diskMB);
    if n > 0 {
      SlotsMeaning(r.total, required, c, n - 1);
    }
  }

  /** Whoever still has room trails nobody by more than one instance. */
  ghost predicate Fair(v: View, required: Resources) {
    forall a, b :: a in v && b in v && v[a].HasRoom(required) ==> |v[b].instances| <= |v[a].instances| + 1
  }

  ghost predicate UniformView(v: View, app: Guid, required: Resources) {
    forall g :: g in v ==> Uniform(v[g], app, required)
  }

  /** The representatives hold instances of these guids only. */
  ghost predicate HeldWithin(v: View, guids: set<Guid>) {
    forall g :: g in v ==> v[g].instances.Keys <= guids
  }

  lemma {:induction false} BestHasFewest(v: View, i: Instance, w: Guid, a: Guid)
    requires ValidView(v) && UniformView(v, i.appGuid, i.resources) && NonNegative(i.resources)
    requires Best(v, v.Keys, i, w) && a in v && v[a].HasRoom(i.resources)
    ensures |v[w].instances| <= |v[a].instances|
  {
    UniformAmounts(v[w], i.appGuid, i.resources);
    UniformAmounts(v[a], i.appGuid, i.resources);
    ScoreIsLexicographic(v[a], v[w], i.appGuid, i.resources);
  }

  lemma RoomBefore(r: Rep, i: Instance)
    requires i.instanceGuid !in r.instances && NonNegative(i.resources) && r.Reserve(i).HasRoom(i.resources)
    ensures r.HasRoom(i.resources)
  {
    AmountsAfterReserve(r.instances, i);
    SizeAfterUpdate(r.instances, i.instanceGuid, i);
    Sums.TotalUpdate(Memory(r.instances), i.instanceGuid, i.resources.memoryMB);
    Sums.TotalUpdate(Disk(r.instances), i.instanceGuid, i.resources.diskMB);
  }

  /** One greedy auction keeps the pool fair. */
  lemma {:induction false} FairStep(v: View, i: Instance, w: Guid)
    requires ValidView(v) && UniformView(v, i.appGuid, i.resources) && NonNegative(i.resources)
    requires Fresh(v, i.instanceGuid) && Greedy(v, v.Keys, i, w) && Fair(v, i.resources)
    ensures ValidView(Place(v, w, i)) && UniformView(Place(v, w, i), i.appGuid, i.resources)
    ensures Fair(Place(v, w, i), i.resources)
  {
    hide Rep.Valid, Rep.HasRoom, Rep.Score;
    if w in v {
      var x := Place(v, w, i);
      assert v[w].Holding(i.instanceGuid).None?;
      SizeAfterUpdate(v[w].instances, i.instanceGuid, i);
      ReserveKeepsValid(v[w], i);
      ValidAfterUpdate(v, w, v[w].Reserve(i));
      forall a, b | a in x && b in x && x[a].HasRoom(i.resources)
        ensures |x[b].instances| <= |x[a].instances| + 1
      {
        if a == w {
          RoomBefore(v[w], i);
        }
        assert v[a].HasRoom(i.resources);
        BestHasFewest(v, i, w, a);
      }
    }
  }

  ghost function Loads(v: View): map<Guid, real> {
    map g | g in v :: |v[g].instances| as real
  }

  ghost function SlotCounts(v: View, required: Resources): map<Guid, real> {
    map g | g in v :: Slots(v[g].total, required) as real
  }

  /** How many instances the pool holds, and how many it can hold. */
  ghost function Placed(v: View): real {
    Sums.Total(Loads(v))
  }

  ghost function Capacity(v: View, required: Resources): real {
    Sums.Total(SlotCounts(v, required))
  }

  function Wins(winners: seq<Guid>): nat {
    if winners == [] then 0 else Wins(winners[..|winners| - 1]) + if winners[|winners| - 1] == NO_GUID then 0 else 1
  }

  /** Pointwise smaller maps have smaller sums, strictly so if one entry is strictly smaller. */
  lemma {:induction false} TotalBelow<K>(a: map<K, real>, b: map<K, real>)
    requires a.Keys == b.Keys && forall k :: k in a ==> a[k] <= b[k]
    ensures Sums.Total(a) <= Sums.Total(b)
    ensures Sums.Total(a) == Sums.Total(b) ==> forall k :: k in a ==> a[k] == b[k]
    decreases |a|
  {
    if a != map[] {
      assert a.Keys != {};
      var k := Sums.Pick(a.Keys);
      SizeAfterUpdate(a, k, 0.0);
      TotalBelow(a - {k}, b - {k});
      Sums.TotalRemove(a, k);
      Sums.TotalRemove(b, k);
      assert forall j :: j in a && j != k ==> j in a - {k};
    }
  }

  lemma LoadsAfterPlace(v: View, w: Guid, i: Instance)
    requires w in v && i.instanceGuid !in v[w].instances
    ensures Loads(Place(v, w, i)) == Loads(v)[w := |v[w].instances| as real + 1.0]
  {
    SizeAfterUpdate(v[w].instances, i.instanceGuid, i);
  }

  lemma {:induction false} PlacedAfter(v: View, w: Guid, i: Instance, required: Resources)
    requires Fresh(v, i.instanceGuid)
    ensures Placed(Place(v, w, i)) == Placed(v) + if w in v then 1.0 else 0.0
    ensures Capacity(Place(v, w, i), required) == Capacity(v, required)
  {
    if w in v {
      assert v[w].Holding(i.instanceGuid).None?;
      LoadsAfterPlace(v, w, i);
      Sums.TotalUpdate(Loads(v), w, |v[w].instances| as real + 1.0);
      assert SlotCounts(Place(v, w, i), required) == SlotCounts(v, required);
    }
  }

  /** The pool is full exactly when nobody has room, and never more than full. */
  lemma {:induction false} FullWhenNoRoom(v: View, app: Guid, required: Resources)
    requires ValidView(v) && UniformView(v, app, required) && NonNegative(required)
    ensures Placed(v) <= Capacity(v, required)
    ensures NoRoom(v, v.Keys, required) <==> Placed(v) == Capacity(v, required)
  {
    hide Rep.Valid, Rep.HasRoom, Slots, Uniform;
    var a, b := Loads(v), SlotCounts(v, required);
    forall g | g in v
      ensures a[g] <= b[g] && (v[g].HasRoom(required) <==> a[g] < b[g])
    {
      RoomIsAFreeSlot(v[g], app, required);
    }
    TotalBelow(a, b);
    if NoRoom(v, v.Keys, required) {
      assert a == b;
    }
  }

  /** One auction after another, each greedy over the whole pool. */
  ghost predicate GreedyRun(views: seq<View>, instances: seq<Instance>, winners: seq<Guid>) {
    && |views| == |instances| + 1 && |winners| == |instances|
    && (forall k :: 0 <= k < |instances| ==> ValidView(views[k]))
    && (forall k :: 0 <= k < |instances| ==> Greedy(views[k], views[k].Keys, instances[k], winners[k]))
    && (forall k :: 0 <= k < |instances| ==> views[k + 1] == Place(views[k], winners[k], instances[k]))
  }

  /** Instances of one app, all alike, with guids of their own. */
  ghost predicate Alike(instances: seq<Instance>, app: Guid, required: Resources) {
    && NonNegative(required)
    && (forall k :: 0 <= k < |instances| ==> instances[k].appGuid == app && instances[k].resources == required)
    && (forall j, k :: 0 <= j < k < |instances| ==> instances[j].instanceGuid != instances[k].instanceGuid)
  }

  ghost predicate Empty(v: View) {
    forall g :: g in v ==> v[g].instances == map[]
  }

  ghost function GuidsBefore(instances: seq<Instance>, k: nat): set<Guid>
    requires k <= |instances|
  {
    set j | 0 <= j < k :: instances[j].instanceGuid
  }

  /**
   * After `k` auctions of which `wins` found a winner: the pool is fair, it holds only the `used`
   * guids, and every auction has placed its instance until the pool was full.
   */
  ghost predicate Progress(v0: View, v: View, used: set<Guid>, app: Guid, required: Resources, k: nat, wins: nat) {
    && ValidView(v) && UniformView(v, app, required) && Fair(v, required) && HeldWithin(v, used)
    && Capacity(v, required) == Capacity(v0, required)
    && wins as real == Placed(v)
    && wins as real == if k as real <= Capacity(v0, required) then k as real else Capacity(v0, required)
  }

  lemma Begin(v: View, app: Guid, required: Resources)
    requires ValidView(v) && Empty(v) && NonNegative(required)
    ensures Progress(v, v, {}, app, required, 0, 0)
  {
    hide Rep.Valid, Rep.HasRoom, Capacity;
    Sums.TotalUniform(Loads(v), 0.0);
    FullWhenNoRoom(v, app, required);
  }

  lemma {:induction false} ProgressStep(v0: View, v: View, used: set<Guid>, i: Instance, w: Guid, k: nat, wins: nat)
    requires Progress(v0, v, used, i.appGuid, i.resources, k, wins) && i.instanceGuid !in used
    requires NonNegative(i.resources) && Greedy(v, v.Keys, i, w)
    ensures Progress(v0, Place(v, w, i), used + {i.instanceGuid}, i.appGuid, i.resources, k + 1,
                     wins + if w == NO_GUID then 0 else 1)
  {
    hide Rep.Valid, Rep.HasRoom, Rep.Score, Fair, UniformView, Placed, Capacity;
    assert Fresh(v, i.instanceGuid);
    assert w == NO_GUID <==> w !in v;
    FairStep(v, i, w);
    PlacedAfter(v, w, i, i.resources);
    FullWhenNoRoom(v, i.appGuid, i.resources);
    FullWhenNoRoom(Place(v, w, i), i.appGuid, i.resources);
  }

  lemma NextGuid(instances: seq<Instance>, app: Guid, required: Resources, k: nat)
    requires Alike(instances, app, required) && k < |instances|
    ensures instances[k].appGuid == app && instances[k].resources == required && NonNegative(required)
    ensures instances[k].instanceGuid !in GuidsBefore(instances, k)
    ensures GuidsBefore(instances, k + 1) == GuidsBefore(instances, k) + {instances[k].instanceGuid}
  {}

  /**
   * From an empty pool of any totals, after every auction: whoever still has room trails nobody by
   * more than one instance, and the auctions so far have placed as many instances as there were
   * auctions, or filled the pool.
   */
  lemma {:induction false} FairSpread(views: seq<View>, instances: seq<Instance>, winners: seq<Guid>, app: Guid,
                                      required: Resources, k: nat)
    requires GreedyRun(views, instances, winners) && Alike(instances, app, required) && k <= |instances|
    requires ValidView(views[0]) && Empty(views[0])
    ensures Progress(views[0], views[k], GuidsBefore(instances, k), app, required, k, Wins(winners[..k]))
  {
    hide Progress, Alike, Greedy, Place, ValidView, Empty;
    if k == 0 {
      assert NonNegative(required) by { AlikeNonNegative(instances, app, required); }
      Begin(views[0], app, required);
      assert GuidsBefore(instances, 0) == {};
    } else {
      FairSpread(views, instances, winners, app, required, k - 1);
      NextGuid(instances, app, required, k - 1);
      ProgressStep(views[0], views[k - 1], GuidsBefore(instances, k - 1), instances[k - 1], winners[k - 1], k - 1, Wins(winners[..k - 1]));
      assert winners[..k] == winners[..k - 1] + [winners[k - 1]];
    }
  }

  lemma AlikeNonNegative(instances: seq<Instance>, app: Guid, required: Resources)
    requires Alike(instances, app, required)
    ensures NonNegative(required)
  {}

  lemma GreedyPlaces(v: View, w: View, q: Request, winner: Guid)
    requires Settled(v, w, q, winner, true) && ValidView(v) && Elements(q.repGuids) == v.Keys
    ensures w == Place(v, winner, q.instance)
  {}

  lemma StillFresh(v: View, used: set<Guid>, guid: Guid)
    requires HeldWithin(v, used) && guid !in used
    ensures Fresh(v, guid)
  {}

  /**
   * The distributor with one auction at a time, on an empty pool, nobody else bidding and no timeout:
   * the pool stays fair, and is full when some instance found no winner.
   */
  method HoldOneByOne(client: InprocessClient, algorithm: Algorithm, instances: seq<Instance>, repGuids: seq<Guid>,
                      rules: Rules, app: Guid, required: Resources)
    returns (winners: seq<Guid>)
    requires client.Valid() && client.quiet && client.Timely() && Empty(client.pool)
    requires algorithm != Random && rules.maxBiddingPool >= 1.0 && rules.maxRounds >= 1
    requires Distinct(repGuids) && Elements(repGuids) == client.pool.Keys && Alike(instances, app, required)
    modifies client`pool, client`history, client`claims
    ensures |winners| == |instances|
    ensures client.Valid() && Fair(client.pool, required)
    ensures Wins(winners) as real == Placed(client.pool)
            == if |instances| as real <= Capacity(old(client.pool), required) then |instances| as real
               else Capacity(old(client.pool), required)
  {
    hide Rep.Valid, Rep.HasRoom, Rep.Score, Greedy, Settled, Reserved, Fair, UniformView, Placed, Capacity, Empty;
    hide Told, Distinct;
    winners := [];
    ghost var v0 := client.pool;
    AlikeNonNegative(instances, app, required);
    Begin(v0, app, required);
    for k := 0 to |instances|
      invariant |winners| == k && client.Valid() && client.pool.Keys == v0.Keys
      invariant Progress(v0, client.pool, GuidsBefore(instances, k), app, required, k, Wins(winners))
    {
      NextGuid(instances, app, required, k);
      ghost var v := client.pool;
      StillFresh(v, GuidsBefore(instances, k), instances[k].instanceGuid);
      var q := Request(instances[k], repGuids, rules);
      var result, _ := Auction(client, algorithm, q);
      GreedyPlaces(v, client.pool, q, result.winner);
      ProgressStep(v0, v, GuidsBefore(instances, k), instances[k], result.winner, k, Wins(winners));
      assert (winners + [result.winner])[..k] == winners;
      winners := winners + [result.winner];
    }
  }
}
