/** The values exchanged in an auction (types/types.go). */
module Types {
  datatype Option<+T> = None | Some(value: T)

  /**
   * Guids are only ever compared, so numbers stand for them; NO_GUID is the empty string, the winner
   * of an auction nobody won.
   */
  type Guid = nat

  const NO_GUID: Guid := 0

  datatype Error = NoError | InsufficientResources | Timeout | NoReservation(guid: Guid)

  datatype Result<+T> = Ok(value: T) | Err(error: Error)

  datatype Resources = Resources(diskMB: real, memoryMB: real, containers: int)

  datatype Instance = Instance(appGuid: Guid, instanceGuid: Guid, resources: Resources)

  datatype ScoreResult = ScoreResult(rep: Guid, score: real, error: Error)

  datatype Rules = Rules(maxRounds: int, maxBiddingPool: real)

  predicate NonNegative(required: Resources) {
    required.diskMB >= 0.0 && required.memoryMB >= 0.0
  }
}

/**
 * What a representative holds, as a value: its totals and a map from instance guid to instance.
 * The classes in rep.dfy are proved against the functions given here.
 */
module Pool {
  import opened Types
  import Sums

  type Instances = map<Guid, Instance>

  ghost function Memory(m: Instances): map<Guid, real> {
    map g | g in m :: m[g].resources.memoryMB
  }

  ghost function Disk(m: Instances): map<Guid, real> {
    map g | g in m :: m[g].resources.diskMB
  }

  datatype Rep = Rep(total: Resources, instances: Instances) {
    ghost function Remaining(): Resources {
      Resources(total.diskMB - Sums.Total(Disk(instances)),
                total.memoryMB - Sums.Total(Memory(instances)),
                total.containers - |instances|)
    }

    /** The room check, on what remains. */
    ghost predicate HasRoom(required: Resources) {
      Sufficient(required, Remaining())
    }

    ghost function NumInstances(app: Guid): nat {
      |OfApp(instances, instances.Keys, app)|
    }

    ghost function Score(app: Guid): real
      requires PositiveTotals()
    {
      Utilisation(Remaining(), total) + NumInstances(app) as real
    }

    ghost function Reserve(i: Instance): Rep {
      this.(instances := instances[i.instanceGuid := i])
    }

    ghost function Release(guid: Guid): Rep {
      this.(instances := instances - {guid})
    }

    ghost function Holding(guid: Guid): Option<Instance> {
      if guid in instances then Some(instances[guid]) else None
    }

    ghost predicate PositiveTotals() {
      total.diskMB > 0.0 && total.memoryMB > 0.0 && total.containers > 0
    }

    /** Nothing is overcommitted: all three remainders are at least zero. */
    ghost predicate Fits() {
      Remaining().diskMB >= 0.0 && Remaining().memoryMB >= 0.0 && Remaining().containers >= 0
    }

    ghost predicate Valid() {
      && PositiveTotals()
      && Fits()
      && (forall g :: g in instances ==> NonNegative(instances[g].resources))
      && (forall g :: g in instances ==> instances[g].instanceGuid == g)
    }
  }

  type View = map<Guid, Rep>

  /** The guids among `guids` that belong to the app. */
  ghost function OfApp(m: Instances, guids: set<Guid>, app: Guid): set<Guid> {
    set g | g in guids && g in m && m[g].appGuid == app
  }

  predicate Sufficient(required: Resources, remaining: Resources) {
    && remaining.memoryMB >= required.memoryMB
    && remaining.diskMB >= required.diskMB
    && remaining.containers > 0
  }

  /** The mean of the three used fractions. */
  function Utilisation(remaining: Resources, total: Resources): real
    requires total.diskMB != 0.0 && total.memoryMB != 0.0 && total.containers != 0
  {
    var fMemory := 1.0 - remaining.memoryMB / total.memoryMB;
    var fDisk := 1.0 - remaining.diskMB / total.diskMB;
    var fContainers := 1.0 - remaining.containers as real / total.containers as real;
    (fMemory + fDisk + fContainers) / 3.0
  }

  ghost predicate ValidView(v: View) {
    NO_GUID !in v && forall g :: g in v ==> v[g].Valid()
  }

  /** One auction's effect: `i` on the winner, or nothing when there is none. */
  ghost function Place(v: View, winner: Guid, i: Instance): View {
    if winner in v then v[winner := v[winner].Reserve(i)] else v
  }

  /** Same representatives, same totals. */
  ghost predicate SamePool(v: View, w: View) {
    v.Keys == w.Keys && forall g :: g in v ==> v[g].total == w[g].total
  }

  lemma ValidAfterUpdate(v: View, g: Guid, r: Rep)
    requires ValidView(v) && g in v && r.Valid()
    ensures ValidView(v[g := r])
  {}

  lemma OfAppGrows(m: Instances, guids: set<Guid>, g: Guid, app: Guid)
    requires g in m && g !in guids
    ensures |OfApp(m, guids + {g}, app)| == |OfApp(m, guids, app)| + if m[g].appGuid == app then 1 else 0
  {
    var counted := OfApp(m, guids, app);
    assert OfApp(m, guids + {g}, app) == if m[g].appGuid == app then counted + {g} else counted;
  }

  lemma SizeAfterUpdate<K, V>(m: map<K, V>, k: K, v: V)
    ensures |m[k := v]| == |m| + if k in m then 0 else 1
    ensures |m - {k}| == |m| - if k in m then 1 else 0
  {
    assert m[k := v].Keys == m.Keys + {k};
    assert (m - {k}).Keys == m.Keys - {k};
  }

  lemma AmountsAfterReserve(m: Instances, i: Instance)
    ensures Memory(m[i.instanceGuid := i]) == Memory(m)[i.instanceGuid := i.resources.memoryMB]
    ensures Disk(m[i.instanceGuid := i]) == Disk(m)[i.instanceGuid := i.resources.diskMB]
  {}

  lemma AmountsAfterRelease(m: Instances, g: Guid)
    ensures Memory(m - {g}) == Memory(m) - {g} && Disk(m - {g}) == Disk(m) - {g}
  {}

  lemma NoLessLeft(r: Rep, i: Instance)
    requires r.Valid()
    ensures r.Reserve(i).Remaining().memoryMB >= r.Remaining().memoryMB - i.resources.memoryMB
    ensures r.Reserve(i).Remaining().diskMB >= r.Remaining().diskMB - i.resources.diskMB
    ensures r.Reserve(i).Remaining().containers >= r.Remaining().containers - 1
  {
    hide Sums.Total;
    AmountsAfterReserve(r.instances, i);
    SizeAfterUpdate(r.instances, i.instanceGuid, i);
    Sums.TotalUpdate(Memory(r.instances), i.instanceGuid, i.resources.memoryMB);
    Sums.TotalUpdate(Disk(r.instances), i.instanceGuid, i.resources.diskMB);
  }

  /** Tentative reservations never overcommit, even when the guid is already held and is overwritten. */
  lemma {:induction false} ReserveKeepsValid(r: Rep, i: Instance)
    requires r.Valid() && r.HasRoom(i.resources) && NonNegative(i.resources)
    ensures r.Reserve(i).Valid()
  {
    hide Rep.Remaining;
    NoLessLeft(r, i);
  }

  lemma {:induction false} ReleaseKeepsValid(r: Rep, guid: Guid)
    requires r.Valid()
    ensures r.Release(guid).Valid()
  {
    if guid in r.instances {
      AmountsAfterRelease(r.instances, guid);
      SizeAfterUpdate(r.instances, guid, r.instances[guid]);
      Sums.TotalRemove(Memory(r.instances), guid);
      Sums.TotalRemove(Disk(r.instances), guid);
    } else {
      assert r.instances - {guid} == r.instances;
    }
  }

  lemma {:induction false} Fraction(part: real, whole: real)
    requires 0.0 <= part <= whole && whole > 0.0
    ensures 0.0 <= part / whole <= 1.0
    ensures part > 0.0 ==> part / whole > 0.0
  {
    var q := part / whole;
    assert q * whole == part;
    assert q < 0.0 ==> q * whole < 0.0;
    assert q > 1.0 ==> q * whole > whole;
  }

  /** What is left never exceeds the total. */
  lemma {:induction false} RemainingWithinTotal(r: Rep)
    requires r.Valid()
    ensures r.Remaining().memoryMB <= r.total.memoryMB
    ensures r.Remaining().diskMB <= r.total.diskMB
    ensures r.Remaining().containers <= r.total.containers
  {
    Sums.TotalNonNegative(Memory(r.instances));
    Sums.TotalNonNegative(Disk(r.instances));
  }

  /** A representative with room scores in [n, n+1), n being its count of the app's instances. */
  lemma {:induction false} ScoreBand(r: Rep, app: Guid, required: Resources)
    requires r.Valid() && NonNegative(required) && r.HasRoom(required)
    ensures r.NumInstances(app) as real <= r.Score(app) < r.NumInstances(app) as real + 1.0
    ensures 0.0 <= Utilisation(r.Remaining(), r.total) < 1.0
  {
    RemainingWithinTotal(r);
    Fraction(r.Remaining().memoryMB, r.total.memoryMB);
    Fraction(r.Remaining().diskMB, r.total.diskMB);
    Fraction(r.Remaining().containers as real, r.total.containers as real);
  }

  /** Scores compare lexicographically: first by instances of the app, then by utilisation. */
  lemma {:induction false} ScoreIsLexicographic(a: Rep, b: Rep, app: Guid, required: Resources)
    requires a.Valid() && b.Valid() && NonNegative(required)
    requires a.HasRoom(required) && b.HasRoom(required)
    ensures a.Score(app) < b.Score(app) <==>
            || a.NumInstances(app) < b.NumInstances(app)
            || (a.NumInstances(app) == b.NumInstances(app)
                && Utilisation(a.Remaining(), a.total) < Utilisation(b.Remaining(), b.total))
  {
    ScoreBand(a, app, required);
    ScoreBand(b, app, required);
    var n, m := a.NumInstances(app), b.NumInstances(app);
    if n < m {
      assert n as real + 1.0 <= m as real;
    } else if m < n {
      assert m as real + 1.0 <= n as real;
    }
  }

  // ---------------------------------------------------------------- what a score is made of

  /** Nothing held, nothing scored. */
  lemma EmptyScoresZero(r: Rep, app: Guid)
    requires r.PositiveTotals() && r.instances == map[]
    ensures r.Score(app) == 0.0
  {
    assert Memory(r.instances) == map[] && Disk(r.instances) == map[];
    assert OfApp(r.instances, r.instances.Keys, app) == {};
    WholeFraction(r.total.memoryMB);
    WholeFraction(r.total.diskMB);
    WholeFraction(r.total.containers as real);
  }

  lemma WholeFraction(x: real)
    requires x != 0.0
    ensures x / x == 1.0
  {}

  /** The mean of the three fractions that an instance takes. */
  function Load(required: Resources, total: Resources): real
    requires total.diskMB > 0.0 && total.memoryMB > 0.0 && total.containers > 0
  {
    (required.memoryMB / total.memoryMB + required.diskMB / total.diskMB + 1.0 / total.containers as real) / 3.0
  }

  lemma LessLeft(left: real, taken: real, whole: real)
    requires whole > 0.0
    ensures 1.0 - (left - taken) / whole == 1.0 - left / whole + taken / whole
  {}

  /** A fresh instance raises the score by exactly its load, and by one more if it is of the same app. */
  lemma {:induction false} ReserveRaisesScore(r: Rep, i: Instance, app: Guid)
    requires r.PositiveTotals() && i.instanceGuid !in r.instances
    ensures r.Reserve(i).Score(app) == r.Score(app) + Load(i.resources, r.total) + if i.appGuid == app then 1.0 else 0.0
  {
    hide Sums.Total;
    var before, after := r.Remaining(), r.Reserve(i).Remaining();
    TakenFrom(r, i);
    OneMoreOfApp(r.instances, i, app);
    LessLeft(before.memoryMB, i.resources.memoryMB, r.total.memoryMB);
    LessLeft(before.diskMB, i.resources.diskMB, r.total.diskMB);
    LessLeft(before.containers as real, 1.0, r.total.containers as real);
  }

  /** What a fresh instance takes from what remains. */
  lemma TakenFrom(r: Rep, i: Instance)
    requires i.instanceGuid !in r.instances
    ensures r.Reserve(i).Remaining() == Resources(r.Remaining().diskMB - i.resources.diskMB,
                                                  r.Remaining().memoryMB - i.resources.memoryMB,
                                                  r.Remaining().containers - 1)
  {
    hide Sums.Total;
    AmountsAfterReserve(r.instances, i);
    SizeAfterUpdate(r.instances, i.instanceGuid, i);
    Sums.TotalUpdate(Memory(r.instances), i.instanceGuid, i.resources.memoryMB);
    Sums.TotalUpdate(Disk(r.instances), i.instanceGuid, i.resources.diskMB);
  }

  lemma OneMoreOfApp(m: Instances, i: Instance, app: Guid)
    requires i.instanceGuid !in m
    ensures |OfApp(m[i.instanceGuid := i], m[i.instanceGuid := i].Keys, app)| ==
            |OfApp(m, m.Keys, app)| + if i.appGuid == app then 1 else 0
  {
    var after := m[i.instanceGuid := i];
    assert OfApp(after, after.Keys, app) == OfApp(m, m.Keys, app) + if i.appGuid == app then {i.instanceGuid} else {};
  }

  lemma MoreLeftIsLess(a: real, b: real, whole: real)
    requires whole > 0.0 && a <= b
    ensures 1.0 - b / whole <= 1.0 - a / whole
    ensures a < b ==> 1.0 - b / whole < 1.0 - a / whole
  {
    var d := (b - a) / whole;
    assert d * whole == b - a;
    assert d < 0.0 ==> d * whole < 0.0;
    assert b / whole - a / whole == d;
  }

  /** Of two equals, with the same count of the app, the one with less left scores higher. */
  lemma {:induction false} FullerScoresHigher(a: Rep, b: Rep, app: Guid)
    requires a.PositiveTotals() && a.total == b.total && a.NumInstances(app) == b.NumInstances(app)
    requires b.Remaining().memoryMB <= a.Remaining().memoryMB && b.Remaining().diskMB <= a.Remaining().diskMB
    requires b.Remaining().containers <= a.Remaining().containers && b.Remaining() != a.Remaining()
    ensures a.Score(app) < b.Score(app)
  {
    hide Rep.Remaining, Rep.NumInstances;
    var p, q := b.Remaining(), a.Remaining();
    MoreLeftIsLess(p.memoryMB, q.memoryMB, a.total.memoryMB);
    MoreLeftIsLess(p.diskMB, q.diskMB, a.total.diskMB);
    MoreLeftIsLess(p.containers as real, q.containers as real, a.total.containers as real);
  }
}
