/**
 * The in-process pool client (simulation/communication/inprocess/inprocess_client.go). A call on
 * several representatives starts one goroutine for each, so the guids come as a set. Other
 * auctions share the pool: before every atomic call on a representative they may take any number
 * of steps of their own, unless the client is `quiet`.
 */
module Client {
  import opened Types
  import opened Pool
  import opened Selection
  import opened RepClasses

  /** The answer a representative gives when it is reached. */
  ghost predicate Truthful(r: ScoreResult, v: View, i: Instance) {
    && r.rep in v && v[r.rep].PositiveTotals()
    && r.error == (if v[r.rep].HasRoom(i.resources) then NoError else InsufficientResources)
    && (r.error == NoError ==> r.score == v[r.rep].Score(i.appGuid))
  }

  ghost predicate AllTruthful(results: seq<ScoreResult>, v: View, i: Instance) {
    forall r :: r in results ==> Truthful(r, v, i)
  }

  /** The answer is a timeout, where there can be one, or it was the truth at some moment from `start` on. */
  ghost predicate Sincere(r: ScoreResult, history: seq<View>, start: nat, timely: bool, i: Instance) {
    if r.error == Timeout then !timely else exists k :: start <= k < |history| && Truthful(r, history[k], i)
  }

  ghost predicate AllSincere(results: seq<ScoreResult>, history: seq<View>, start: nat, timely: bool, i: Instance) {
    forall j :: 0 <= j < |results| ==> Sincere(results[j], history, start, timely, i)
  }

  /** A sincere answer stays so: what was, was. */
  lemma SincereLater(r: ScoreResult, h: seq<View>, later: seq<View>, start: nat, earlier: nat, timely: bool, i: Instance)
    requires Sincere(r, h, start, timely, i) && h <= later && earlier <= start
    ensures Sincere(r, later, earlier, timely, i)
  {
    if r.error != Timeout {
      var k :| start <= k < |h| && Truthful(r, h[k], i);
      assert later[k] == h[k];
    }
  }

  lemma AllSincereLater(results: seq<ScoreResult>, h: seq<View>, later: seq<View>, start: nat, earlier: nat,
                        timely: bool, i: Instance)
    requires AllSincere(results, h, start, timely, i) && h <= later && earlier <= start
    ensures AllSincere(results, later, earlier, timely, i)
  {
    hide Sincere;
    forall j | 0 <= j < |results| ensures Sincere(results[j], later, earlier, timely, i) {
      SincereLater(results[j], h, later, start, earlier, timely, i);
    }
  }

  /** One answer more, from a call that began with the history at `h`. */
  lemma SincereToo(results: seq<ScoreResult>, r: ScoreResult, h: seq<View>, later: seq<View>, start: nat,
                   timely: bool, i: Instance)
    requires AllSincere(results, h, start, timely, i) && h <= later && start < |h|
    requires Sincere(r, later, |h| - 1, timely, i)
    ensures AllSincere(results + [r], later, start, timely, i)
  {
    hide Sincere;
    AllSincereLater(results, h, later, start, start, timely, i);
    SincereLater(r, later, later, |h| - 1, start, timely, i);
  }

  lemma NothingInsincere(h: seq<View>, start: nat, timely: bool, i: Instance)
    ensures AllSincere([], h, start, timely, i)
  {}

  lemma SincereNow(r: ScoreResult, h: seq<View>, k: nat, start: nat, timely: bool, i: Instance)
    requires start <= k < |h| && Truthful(r, h[k], i)
    ensures Sincere(r, h, start, timely, i)
  {}

  /** Those of the representatives that do not hold the instance. */
  ghost function NotHolding(v: View, guids: set<Guid>, guid: Guid): set<Guid> {
    set g | g in guids && g in v && v[g].Holding(guid).None?
  }

  lemma NotHoldingGrows(v: View, w: View, guids: set<Guid>, g: Guid, guid: Guid, quiet: bool)
    requires Released(v, w, guids, guid, quiet) && g in v && g !in guids
    ensures g in w
    ensures |NotHolding(v, guids + {g}, guid)| == |NotHolding(v, guids, guid)| + if w[g].Holding(guid).Some? then 0 else 1
  {
    assert NotHolding(v, guids + {g}, guid) == NotHolding(v, guids, guid) + if v[g].Holding(guid).None? then {g} else {};
  }

  lemma NobodyMissing(v: View, guid: Guid, quiet: bool)
    ensures Released(v, v, {}, guid, quiet) && |NotHolding(v, {}, guid)| == 0
  {}

  lemma NoneMissing(v: View, guids: set<Guid>, guid: Guid)
    requires forall g :: g in guids ==> g in v && v[g].Holding(guid).Some?
    ensures |NotHolding(v, guids, guid)| == 0
  {
    assert NotHolding(v, guids, guid) == {};
  }

  /** What other auctions may do between two calls: they never touch this instance's reservations. */
  ghost predicate Interfered(v: View, w: View, guid: Guid, quiet: bool) {
    && SamePool(v, w)
    && (forall g :: g in v ==> w[g].Holding(guid) == v[g].Holding(guid))
    && (quiet ==> w == v)
  }

  /** From `v` to `w`, exactly the representatives `granted` have reserved `i` for this auction. */
  ghost predicate Reserved(v: View, w: View, granted: set<Guid>, i: Instance, quiet: bool) {
    && SamePool(v, w) && granted <= v.Keys
    && (forall g :: g in v ==>
          w[g].Holding(i.instanceGuid) == if g in granted then Some(i) else v[g].Holding(i.instanceGuid))
    && (quiet ==> forall g :: g in v ==> w[g] == if g in granted then v[g].Reserve(i) else v[g])
    && (quiet ==> forall g :: g in granted ==> v[g].HasRoom(i.resources))
  }

  ghost predicate Released(v: View, w: View, released: set<Guid>, guid: Guid, quiet: bool) {
    && SamePool(v, w)
    && (forall g :: g in v ==> w[g].Holding(guid) == if g in released then None else v[g].Holding(guid))
    && (quiet ==> forall g :: g in v ==> w[g] == if g in released then v[g].Release(guid) else v[g])
  }

  lemma NothingReserved(v: View, i: Instance, quiet: bool)
    ensures Reserved(v, v, {}, i, quiet) && AllTruthful([], v, i)
  {}

  lemma ReservedElsewhere(v: View, w: View, s: set<Guid>, i: Instance, quiet: bool, g: Guid)
    requires Reserved(v, w, s, i, quiet) && g in v && g !in s
    ensures g in w && (quiet ==> w[g] == v[g])
  {}

  lemma ReservedTwice(v: View, w: View, x: View, s: set<Guid>, t: set<Guid>, i: Instance, quiet: bool)
    requires Reserved(v, w, s, i, quiet) && Reserved(w, x, t, i, quiet) && s !! t
    ensures Reserved(v, x, s + t, i, quiet) && x.Keys == v.Keys
  {
    if quiet {
      forall g | g in t ensures v[g].HasRoom(i.resources) {
        assert w[g] == v[g];
      }
    }
  }

  lemma ReservedThenIdle(v: View, w: View, x: View, s: set<Guid>, i: Instance, quiet: bool)
    requires Reserved(v, w, s, i, quiet) && Reserved(w, x, {}, i, quiet)
    ensures Reserved(v, x, s, i, quiet) && x.Keys == v.Keys
  {
    ReservedTwice(v, w, x, s, {}, i, quiet);
    assert s + {} == s;
  }

  lemma IdleThenReserved(v: View, w: View, x: View, t: set<Guid>, i: Instance, quiet: bool)
    requires Reserved(v, w, {}, i, quiet) && Reserved(w, x, t, i, quiet)
    ensures Reserved(v, x, t, i, quiet) && x.Keys == v.Keys
  {
    ReservedTwice(v, w, x, {}, t, i, quiet);
    assert {} + t == t;
  }

  /** Releasing undoes reserving, for an instance that was not held before. */
  lemma ReservedThenReleased(v: View, w: View, x: View, s: set<Guid>, t: set<Guid>, i: Instance, quiet: bool)
    requires Reserved(v, w, s, i, quiet) && Released(w, x, t, i.instanceGuid, quiet) && t <= s
    requires forall g :: g in v ==> v[g].Holding(i.instanceGuid).None?
    ensures Reserved(v, x, s - t, i, quiet) && x.Keys == v.Keys
  {
    if quiet {
      forall g | g in v && g in t ensures x[g] == v[g] {
        assert v[g].instances[i.instanceGuid := i] - {i.instanceGuid} == v[g].instances;
      }
    }
  }

  lemma ReleasedTwice(v: View, w: View, x: View, s: set<Guid>, t: set<Guid>, guid: Guid, quiet: bool)
    requires Released(v, w, s, guid, quiet) && Released(w, x, t, guid, quiet) && s !! t
    ensures Released(v, x, s + t, guid, quiet) && x.Keys == v.Keys
  {}

  lemma ValidMember(v: View, g: Guid)
    requires ValidView(v) && g in v
    ensures v[g].PositiveTotals()
  {}

  lemma TruthfulElsewhere(results: seq<ScoreResult>, r: ScoreResult, v: View, w: View, i: Instance)
    requires AllTruthful(results, v, i) && Truthful(r, w, i) && r.rep in v && v[r.rep] == w[r.rep]
    ensures AllTruthful(results + [r], v, i)
  {}

  lemma Scaled(u: real, d: real)
    requires 0.0 <= u < 1.0
    ensures d >= 0.0 ==> 0.0 <= u * d <= d
  {
    if d >= 0.0 {
      var v := 1.0 - u;
      assert v * d >= 0.0 && u * d >= 0.0;
      assert (u + v) * d == u * d + v * d;
    }
  }

  class InprocessClient {
    /** The representatives, each by its contents. */
    var pool: View
    /** Every state the pool has been in, up to the present one. */
    ghost var history: seq<View>
    /** The claims that were sent: representative and instance. */
    ghost var claims: seq<(Guid, Guid)>
    const latencyMin: real
    const latencyMax: real
    const timeout: real
    const quiet: bool

    constructor (pool: View, latencyMin: real, latencyMax: real, timeout: real, quiet: bool)
      requires ValidView(pool)
      ensures Valid() && this.pool == pool && this.quiet == quiet
      ensures this.latencyMin == latencyMin && this.latencyMax == latencyMax && this.timeout == timeout
    {
      this.pool, this.quiet, history, claims := pool, quiet, [pool], [];
      this.latencyMin, this.latencyMax, this.timeout := latencyMin, latencyMax, timeout;
    }

    ghost predicate Valid()
      reads this
    {
      ValidView(pool) && history != [] && history[|history| - 1] == pool
    }

    lemma Started()
      requires Valid()
      ensures |history| >= 1
    {}

    /** No latency exceeds the timeout. */
    ghost predicate Timely() {
      latencyMin <= latencyMax <= timeout
    }

    method BeSlowAndPossiblyTimeout() returns (timedOut: bool)
      ensures Timely() ==> !timedOut
      ensures timeout < latencyMin <= latencyMax ==> timedOut
    {
      var u: real :| 0.0 <= u < 1.0;
      var spread := latencyMax - latencyMin;
      Scaled(u, spread);
      var sleepDuration := u * spread + latencyMin;
      timedOut := sleepDuration > timeout;
    }

    /** Other auctions reserve and release instances of their own. */
    method Interfere(guid: Guid)
      requires Valid()
      modifies this`pool, this`history
      ensures Valid() && Interfered(old(pool), pool, guid, quiet) && old(history) <= history
    {
      hide ValidView, Rep.HasRoom, Rep.Score;
      var steps: nat := *;
      while 0 < steps && !quiet
        invariant Valid() && Interfered(old(pool), pool, guid, quiet) && old(history) <= history
        decreases steps
      {
        var g: Guid := *;
        var other: Instance := *;
        var reserving: bool := *;
        if g in pool && other.instanceGuid != guid && NonNegative(other.resources) {
          if reserving {
            var _ := ReserveOne(g, other);
          } else {
            var _ := ReleaseOne(g, other);
          }
        }
        steps := steps - 1;
      }
    }

    /** The representative object for a guid; the pool keeps what it holds. */
    method Reach(g: Guid) returns (rep: AuctionRep)
      requires g in pool
      ensures fresh(rep) && fresh(rep.delegate) && rep.guid == g && rep.Contents() == pool[g]
    {
      var delegate := new SimulationRepDelegate.Holding(pool[g]);
      rep := new AuctionRep(g, delegate);
    }

    method ScoreOne(g: Guid, i: Instance) returns (result: Result<real>)
      requires Valid() && g in pool
      ensures result == if pool[g].HasRoom(i.resources) then Ok(pool[g].Score(i.appGuid)) else Err(InsufficientResources)
    {
      assert pool[g].Valid();
      var rep := Reach(g);
      result := rep.Score(i);
    }

    method ReserveOne(g: Guid, i: Instance) returns (result: Result<real>)
      requires Valid() && g in pool && NonNegative(i.resources)
      modifies this`pool, this`history
      ensures Valid() && old(history) <= history
      ensures result == if old(pool)[g].HasRoom(i.resources)
                        then Ok(old(pool)[g].Score(i.appGuid)) else Err(InsufficientResources)
      ensures pool == if result.Ok? then Place(old(pool), g, i) else old(pool)
    {
      assert pool[g].Valid();
      var rep := Reach(g);
      result := rep.ScoreThenTentativelyReserve(i);
      if result.Ok? {
        ReserveKeepsValid(pool[g], i);
        ValidAfterUpdate(pool, g, pool[g].Reserve(i));
        pool := pool[g := Rep(rep.delegate.totalResources, rep.delegate.instances)];
        history := history + [pool];
      }
    }

    method ReleaseOne(g: Guid, i: Instance) returns (error: Error)
      requires Valid() && g in pool
      modifies this`pool, this`history
      ensures Valid() && old(history) <= history
      ensures (error == NoError) == old(pool)[g].Holding(i.instanceGuid).Some?
      ensures pool == old(pool)[g := old(pool)[g].Release(i.instanceGuid)]
    {
      var rep := Reach(g);
      error := rep.ReleaseReservation(i);
      ReleaseKeepsValid(pool[g], i.instanceGuid);
      ValidAfterUpdate(pool, g, pool[g].Release(i.instanceGuid));
      pool := pool[g := Rep(rep.delegate.totalResources, rep.delegate.instances)];
      history := history + [pool];
    }

    method AskScore(g: Guid, i: Instance) returns (result: ScoreResult)
      requires Valid() && g in pool
      modifies this`pool, this`history
      ensures Valid() && Reserved(old(pool), pool, {}, i, quiet) && old(history) <= history
      ensures result.rep == g && Sincere(result, history, |old(history)| - 1, Timely(), i)
      ensures quiet && Timely() ==> Truthful(result, old(pool), i)
    {
      hide ValidView, Rep.HasRoom, Rep.Score;
      var timedOut := BeSlowAndPossiblyTimeout();
      if timedOut {
        return ScoreResult(g, 0.0, Timeout);
      }
      Interfere(i.instanceGuid);
      ValidMember(pool, g);
      var score := ScoreOne(g, i);
      result := match score case Ok(s) => ScoreResult(g, s, NoError) case Err(e) => ScoreResult(g, 0.0, e);
      SincereNow(result, history, |history| - 1, |old(history)| - 1, Timely(), i);
    }

    /** Asks every representative for its score; each answer is computed at its own moment. */
    method Score(guids: set<Guid>, i: Instance) returns (results: seq<ScoreResult>)
      requires Valid() && guids <= pool.Keys
      modifies this`pool, this`history
      ensures Valid() && Reserved(old(pool), pool, {}, i, quiet) && old(history) <= history
      ensures Answers(results, guids) && AllSincere(results, history, |old(history)| - 1, Timely(), i)
      ensures quiet && Timely() ==> AllTruthful(results, old(pool), i)
    {
      hide *;
      ghost var before, h, start := pool, history, |history| - 1;
      NothingAnswered();
      NothingReserved(before, i, quiet);
      Started();
      NothingInsincere(h, start, Timely(), i);
      results := [];
      var todo := guids;
      ghost var asked: set<Guid> := {};
      while todo != {}
        invariant asked !! todo && asked + todo == guids && Answers(results, asked)
        invariant Valid() && Reserved(before, pool, {}, i, quiet) && pool.Keys == before.Keys
        invariant h <= history && 0 <= start < |h| && AllSincere(results, history, start, Timely(), i)
        invariant quiet && Timely() ==> AllTruthful(results, before, i)
        decreases |todo|
      {
        var g :| g in todo;
        ghost var met, since := pool, history;
        ReservedElsewhere(before, met, {}, i, quiet, g);
        var result := AskScore(g, i);
        SincereToo(results, result, since, history, start, Timely(), i);
        ReservedTwice(before, met, pool, {}, {}, i, quiet);
        if quiet && Timely() {
          TruthfulElsewhere(results, result, before, met, i);
        }
        AnswersGrow(results, asked, result);
        results, todo, asked := results + [result], todo - {g}, asked + {g};
      }
    }

    method AskReserve(g: Guid, i: Instance) returns (result: ScoreResult)
      requires Valid() && g in pool && NonNegative(i.resources)
      modifies this`pool, this`history
      ensures Valid() && result.rep == g && old(history) <= history
      ensures Sincere(result, history, |old(history)| - 1, Timely(), i)
      ensures Reserved(old(pool), pool, if result.error == NoError then {g} else {}, i, quiet)
      ensures quiet && Timely() ==> Truthful(result, old(pool), i)
    {
      hide ValidView, Rep.HasRoom, Rep.Score;
      var timedOut := BeSlowAndPossiblyTimeout();
      if timedOut {
        return ScoreResult(g, 0.0, Timeout);
      }
      Interfere(i.instanceGuid);
      ValidMember(pool, g);
      ghost var asked := |history| - 1;
      var score := ReserveOne(g, i);
      result := match score case Ok(s) => ScoreResult(g, s, NoError) case Err(e) => ScoreResult(g, 0.0, e);
      SincereNow(result, history, asked, |old(history)| - 1, Timely(), i);
    }

    /** Reserves wherever there is room and no timeout: "no error" is the same as "reserved". */
    method ScoreThenTentativelyReserve(guids: set<Guid>, i: Instance) returns (results: seq<ScoreResult>)
      requires Valid() && guids <= pool.Keys && NonNegative(i.resources)
      modifies this`pool, this`history
      ensures Valid() && Reserved(old(pool), pool, Okays(results), i, quiet) && old(history) <= history
      ensures Answers(results, guids) && AllSincere(results, history, |old(history)| - 1, Timely(), i)
      ensures quiet && Timely() ==> AllTruthful(results, old(pool), i)
    {
      hide *;
      ghost var before, h, start := pool, history, |history| - 1;
      NothingAnswered();
      NothingReserved(before, i, quiet);
      Started();
      NothingInsincere(h, start, Timely(), i);
      results := [];
      var todo := guids;
      ghost var asked: set<Guid> := {};
      while todo != {}
        invariant asked !! todo && asked + todo == guids && Answers(results, asked)
        invariant Valid() && Reserved(before, pool, Okays(results), i, quiet) && pool.Keys == before.Keys
        invariant h <= history && 0 <= start < |h| && AllSincere(results, history, start, Timely(), i)
        invariant quiet && Timely() ==> AllTruthful(results, before, i)
        decreases |todo|
      {
        var g :| g in todo;
        ghost var met, since := pool, history;
        OkaysAsked(results, asked);
        ReservedElsewhere(before, met, Okays(results), i, quiet, g);
        var result := AskReserve(g, i);
        SincereToo(results, result, since, history, start, Timely(), i);
        AnswersGrow(results, asked, result);
        if quiet && Timely() {
          TruthfulElsewhere(results, result, before, met, i);
        }
        ReservedTwice(before, met, pool, Okays(results), if result.error == NoError then {g} else {}, i, quiet);
        results, todo, asked := results + [result], todo - {g}, asked + {g};
      }
    }

    method AskRelease(g: Guid, i: Instance) returns (error: Error)
      requires Valid() && g in pool
      modifies this`pool, this`history
      ensures Valid() && Released(old(pool), pool, {g}, i.instanceGuid, quiet) && old(history) <= history
      ensures (error == NoError) == old(pool)[g].Holding(i.instanceGuid).Some?
    {
      hide ValidView, Rep.HasRoom, Rep.Score;
      var _ := BeSlowAndPossiblyTimeout();
      Interfere(i.instanceGuid);
      error := ReleaseOne(g, i);
    }

    /**
     * Releases always reach the representative, however slow the network. `missed` counts the "no
     * reservation" errors, which the program drops.
     */
    method ReleaseReservation(guids: set<Guid>, i: Instance) returns (missed: nat)
      requires Valid() && guids <= pool.Keys
      modifies this`pool, this`history
      ensures Valid() && Released(old(pool), pool, guids, i.instanceGuid, quiet) && old(history) <= history
      ensures missed == |NotHolding(old(pool), guids, i.instanceGuid)|
    {
      hide *;
      ghost var before, h := pool, history;
      NobodyMissing(before, i.instanceGuid, quiet);
      missed := 0;
      var todo := guids;
      ghost var released: set<Guid> := {};
      while todo != {}
        invariant released !! todo && released + todo == guids
        invariant Valid() && Released(before, pool, released, i.instanceGuid, quiet) && pool.Keys == before.Keys
        invariant h <= history && missed == |NotHolding(before, released, i.instanceGuid)|
        decreases |todo|
      {
        var g :| g in todo;
        ghost var met := pool;
        NotHoldingGrows(before, met, released, g, i.instanceGuid, quiet);
        var error := AskRelease(g, i);
        ReleasedTwice(before, met, pool, released, {g}, i.instanceGuid, quiet);
        missed := missed + if error == NoError then 0 else 1;
        todo, released := todo - {g}, released + {g};
      }
    }

    method Claim(g: Guid, i: Instance) returns (missed: nat)
      requires Valid() && g in pool
      modifies this`pool, this`history, this`claims
      ensures claims == old(claims) + [(g, i.instanceGuid)]
      ensures Valid() && Reserved(old(pool), pool, {}, i, quiet) && old(history) <= history
      ensures missed == if old(pool)[g].Holding(i.instanceGuid).Some? then 0 else 1
    {
      hide ValidView, Rep.HasRoom, Rep.Score;
      var _ := BeSlowAndPossiblyTimeout();
      Interfere(i.instanceGuid);
      var rep := Reach(g);
      var error := rep.Claim(i);
      claims := claims + [(g, i.instanceGuid)];
      missed := if error == NoError then 0 else 1;
    }
  }
}
