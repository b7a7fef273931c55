/**
 * The auction algorithms (package auctioneer), each verified in the company of any other auctions, and
 * shown to be greedy when it runs alone on the whole pool.
 */
module Auctioneer {
  import opened Types
  import opened Pool
  import opened Selection
  import opened Client

  datatype Request = Request(instance: Instance, repGuids: seq<Guid>, rules: Rules) {
    /** The size of the subset asked in a round. */
    function Bidders(): int {
      PoolSize(|repGuids|, rules.maxBiddingPool)
    }
  }

  /** What a caller must bring: representatives that exist, once each, and an instance nobody holds yet. */
  ghost predicate Biddable(v: View, q: Request) {
    && Distinct(q.repGuids) && Elements(q.repGuids) <= v.Keys
    && NonNegative(q.instance.resources)
    && Fresh(v, q.instance.instanceGuid)
  }

  ghost predicate Fresh(v: View, guid: Guid) {
    forall g :: g in v ==> v[g].Holding(guid).None?
  }

  ghost predicate NoRoom(v: View, asked: set<Guid>, required: Resources) {
    forall g :: g in asked && g in v ==> !v[g].HasRoom(required)
  }

  /** Among those asked, `w` has room and no other representative with room scores lower. */
  ghost predicate Best(v: View, asked: set<Guid>, i: Instance, w: Guid)
    requires ValidView(v)
  {
    && w in asked && w in v && v[w].HasRoom(i.resources)
    && forall g :: g in asked && g in v && v[g].HasRoom(i.resources) ==> v[w].Score(i.appGuid) <= v[g].Score(i.appGuid)
  }

  /** The one specification the algorithms share: a best representative, or none when nobody has room. */
  ghost predicate Greedy(v: View, asked: set<Guid>, i: Instance, winner: Guid)
    requires ValidView(v)
  {
    if winner == NO_GUID then NoRoom(v, asked, i.resources) else Best(v, asked, i, winner)
  }

  function Only(winner: Guid): set<Guid> {
    if winner == NO_GUID then {} else {winner}
  }

  /**
   * Whatever else went on, the instance ends up on the winner and nowhere else; an auction that ran
   * alone changed nothing but that.
   */
  ghost predicate Settled(v: View, w: View, q: Request, winner: Guid, quiet: bool) {
    && Reserved(v, w, Only(winner), q.instance, quiet)
    && (winner != NO_GUID ==> winner in q.repGuids)
  }

  datatype Algorithm = AllRescore | AllReserve | PickBest | ReserveNBest | Random

  /**
   * What a round asked and learned: whom it drew, their scores, whom it told to reserve, who rescored, and
   * whom it claimed, if anybody. The moments are those at which the round began, told its choice to reserve,
   * and had the answers to that.
   */
  datatype Round = Round(
    drawn: set<Guid>,
    scores: seq<ScoreResult>,
    asked: set<Guid>,
    reserved: seq<ScoreResult>,
    second: seq<ScoreResult>,
    claimed: Guid,
    begun: nat,
    reserving: nat,
    rescoring: nat)

  predicate ScoresFirst(algorithm: Algorithm) {
    algorithm.AllRescore? || algorithm.PickBest? || algorithm.ReserveNBest?
  }

  lemma WhoScoresFirst()
    ensures !ScoresFirst(AllReserve) && !ScoresFirst(Random)
    ensures ScoresFirst(AllRescore) && ScoresFirst(PickBest) && ScoresFirst(ReserveNBest)
  {}

  /** The `n` cheapest of those who can, or all of them. */
  ghost predicate Shortlist(asked: set<Guid>, scores: seq<ScoreResult>, n: nat) {
    && asked <= Okays(scores)
    && |asked| == (if |Okays(scores)| < n then |Okays(scores)| else n)
    && (forall j, k :: 0 <= j < |scores| && 0 <= k < |scores| && scores[j].rep in asked && scores[k].rep !in asked ==>
          scores[k].error != NoError || scores[j].score <= scores[k].score)
  }

  /** Nobody who can answers with a lower score. */
  ghost predicate Lowest(g: Guid, answers: seq<ScoreResult>) {
    exists j :: 0 <= j < |answers| && IsLowest(j, g, answers)
  }

  ghost predicate IsLowest(j: nat, g: Guid, answers: seq<ScoreResult>)
    requires j < |answers|
  {
    && answers[j].rep == g && answers[j].error == NoError
    && forall k :: 0 <= k < |answers| && answers[k].error == NoError ==> answers[j].score <= answers[k].score
  }

  /** Somebody's second answer is lower than what the reserved representative answered. */
  ghost predicate Undercut(reserved: seq<ScoreResult>, second: seq<ScoreResult>) {
    exists j, k :: 0 <= j < |reserved| && 0 <= k < |second|
      && reserved[j].error == NoError && second[k].error == NoError && second[k].score < reserved[j].score
  }

  /** What a round of each algorithm does with the answers it gets. */
  ghost predicate Plays(algorithm: Algorithm, q: Request, r: Round) {
    && r.drawn <= Elements(q.repGuids) && |r.drawn| == (if algorithm == Random then 1 else q.Bidders())
    && (if ScoresFirst(algorithm) then
          Answers(r.scores, r.drawn) && Shortlist(r.asked, r.scores, if algorithm == ReserveNBest then 5 else 1)
        else
          r.scores == [] && r.asked == r.drawn)
    && Answers(r.reserved, r.asked)
    && (if algorithm == AllRescore && r.asked != {} then Answers(r.second, r.drawn - r.asked) else r.second == [])
    && (if r.claimed == NO_GUID then Okays(r.reserved) == {} || (algorithm == AllRescore && Undercut(r.reserved, r.second))
        else Lowest(r.claimed, r.reserved) && !(algorithm == AllRescore && Undercut(r.reserved, r.second)))
  }

  /** The representatives in `held` have the instance reserved. */
  ghost predicate HeldAt(v: View, held: set<Guid>, i: Instance) {
    forall g :: g in held ==> g in v && v[g].Holding(i.instanceGuid) == Some(i)
  }

  /**
   * The answers were true when they were given, each in its turn: the round begins with the instance
   * nowhere reserved, and the second answers are given while it is reserved where that was agreed to.
   */
  ghost predicate Witnessed(r: Round, i: Instance, h: seq<View>, timely: bool) {
    && r.begun <= r.reserving <= r.rescoring < |h|
    && AllSincere(r.scores, h, r.begun, timely, i)
    && AllSincere(r.reserved, h, r.reserving, timely, i)
    && AllSincere(r.second, h, r.rescoring, timely, i)
    && Fresh(h[r.begun], i.instanceGuid) && HeldAt(h[r.rescoring], Okays(r.reserved), i)
  }

  /** The last moment that is noted of the round before. */
  function Since(log: seq<Round>, start: nat, k: nat): nat
    requires k <= |log|
  {
    if k == 0 then start else log[k - 1].rescoring
  }

  /** The rounds of an auction that began at the moment `start`, one after another. */
  ghost predicate Logged(algorithm: Algorithm, q: Request, log: seq<Round>, h: seq<View>, start: nat, timely: bool) {
    && (forall k :: 0 <= k < |log| ==> Plays(algorithm, q, log[k]) && Witnessed(log[k], q.instance, h, timely))
    && (forall k :: 0 <= k < |log| ==> Since(log, start, k) <= log[k].begun)
  }

  /** The messages of one round, counted as the program counts them. */
  ghost function RoundCost(algorithm: Algorithm, r: Round): nat {
    (if ScoresFirst(algorithm) then |r.drawn| else 0) + |r.asked| + |r.second|
    + match algorithm
      case AllRescore => if Okays(r.reserved) == {} then 0 else 1
      case AllReserve => if r.claimed == NO_GUID then 0 else |Okays(r.reserved)|
      case ReserveNBest => if r.claimed == NO_GUID then 0 else |r.asked|
      case _ => if r.claimed == NO_GUID then 0 else 1
  }

  ghost function Cost(algorithm: Algorithm, log: seq<Round>): nat {
    if log == [] then 0 else Cost(algorithm, log[..|log| - 1]) + RoundCost(algorithm, log[|log| - 1])
  }

  /** The rounds of a whole auction, and its report: only the last round may claim, and what it claims wins. */
  ghost predicate Told(algorithm: Algorithm, q: Request, log: seq<Round>, h: seq<View>, start: nat, timely: bool,
                       winner: Guid, rounds: int, communications: int)
  {
    && Logged(algorithm, q, log, h, start, timely)
    && |log| == (if winner == NO_GUID then rounds - 1 else rounds)
    && (winner == NO_GUID ==> rounds == (if q.rules.maxRounds < 0 then 0 else q.rules.maxRounds) + 1)
    && (winner != NO_GUID ==> 1 <= rounds <= q.rules.maxRounds)
    && (forall k :: 0 <= k < |log| ==> log[k].claimed == if k == |log| - 1 then winner else NO_GUID)
    && communications == Cost(algorithm, log)
  }

  lemma Drawn(v: View, q: Request, subset: seq<Guid>)
    requires Biddable(v, q) && multiset(subset) <= multiset(q.repGuids)
    ensures Distinct(subset) && Elements(subset) <= Elements(q.repGuids) <= v.Keys
    ensures |Elements(subset)| == |subset|
  {
    SubMultisetDistinct(subset, q.repGuids);
    DistinctSize(subset);
  }

  /** The head of a ranking of truthful answers is a best representative, with its true score. */
  lemma {:induction false} RankedIsBest(v: View, results: seq<ScoreResult>, ranked: seq<ScoreResult>,
                                        asked: set<Guid>, i: Instance)
    requires ValidView(v) && AllTruthful(results, v, i) && Answers(results, asked)
    requires RankOf(results, ranked) && ranked != []
    ensures Best(v, asked, i, ranked[0].rep) && ranked[0].score == v[ranked[0].rep].Score(i.appGuid)
  {
    RankHeadIsBest(results, ranked);
    var w := ranked[0].rep;
    assert w in Answered(results);
    forall g | g in asked && g in v && v[g].HasRoom(i.resources)
      ensures v[w].Score(i.appGuid) <= v[g].Score(i.appGuid)
    {
      assert g in Answered(results);
      var r :| r in results && r.rep == g;
      assert Truthful(r, v, i);
    }
    assert Truthful(ranked[0], v, i);
  }

  lemma AllFullWhenAllFail(v: View, results: seq<ScoreResult>, asked: set<Guid>, i: Instance)
    requires AllTruthful(results, v, i) && Answers(results, asked) && Okays(results) == {}
    ensures NoRoom(v, asked, i.resources)
  {
    NoOkays(results);
    forall g | g in asked && g in v ensures !v[g].HasRoom(i.resources) {
      assert g in Answered(results);
      var r :| r in results && r.rep == g;
      assert Truthful(r, v, i);
    }
  }

  /** The best of a shortlist that contains a best representative is a best representative. */
  lemma BestOfShortlist(v: View, asked: set<Guid>, shortlist: set<Guid>, i: Instance, b: Guid, w: Guid)
    requires ValidView(v) && Best(v, asked, i, b) && Best(v, shortlist, i, w)
    requires b in shortlist && shortlist <= asked
    ensures Best(v, asked, i, w)
  {}

  lemma Occurs(s: seq<Guid>, x: Guid)
    ensures x in s <==> multiset(s)[x] > 0
  {
    assert x in s <==> x in multiset(s);
  }

  lemma WithoutOne(r: seq<Guid>, g: Guid, out: seq<Guid>)
    requires Distinct(r) && g in Elements(r) && out == Keep(r, NotIn({g}))
    ensures Elements(out) == Elements(r) - {g} && |out| == |r| - 1 && |Elements(out)| == |out|
  {
    hide Distinct, Keep;
    KeepCounts(r, NotIn({g}));
    forall x ensures x in out <==> x in r && x != g {
      Occurs(out, x);
      Occurs(r, x);
    }
    SubMultisetDistinct(out, r);
    DistinctSize(r);
    DistinctSize(out);
  }

  /** The claims that an auction sends. */
  function ClaimsOf(q: Request, winner: Guid): seq<(Guid, Guid)> {
    if winner == NO_GUID then [] else [(winner, q.instance.instanceGuid)]
  }

  lemma ClaimedOne(q: Request, winner: Guid)
    requires winner != NO_GUID
    ensures ClaimsOf(q, winner) == [(winner, q.instance.instanceGuid)]
  {}

  lemma ClaimedNobody(q: Request, claims: seq<(Guid, Guid)>)
    ensures claims + ClaimsOf(q, NO_GUID) == claims
  {}

  /** Running alone and on time. */
  ghost predicate Alone(client: InprocessClient) {
    client.quiet && client.Timely()
  }

  /** A set of representatives that a round may draw. */
  ghost predicate Drawable(q: Request, s: set<Guid>) {
    s <= Elements(q.repGuids) && |s| == q.Bidders()
  }

  ghost predicate SomeFull(v: View, q: Request) {
    exists s :: Drawable(q, s) && NoRoom(v, s, q.instance.resources)
  }

  /** The outcome is greedy over a set that was drawn. */
  ghost predicate GreedyDraw(v: View, q: Request, winner: Guid)
    requires ValidView(v)
  {
    exists s :: Drawable(q, s) && Greedy(v, s, q.instance, winner)
  }

  lemma FullSubset(v: View, q: Request, s: set<Guid>)
    requires Drawable(q, s) && NoRoom(v, s, q.instance.resources)
    ensures SomeFull(v, q)
  {}

  /** With a whole pool to draw there is only one set that can be drawn. */
  lemma WholeDraw(q: Request, s: set<Guid>)
    requires Distinct(q.repGuids) && Drawable(q, s) && q.rules.maxBiddingPool >= 1.0
    ensures s == Elements(q.repGuids)
  {
    DistinctSize(q.repGuids);
    SameSize(s, Elements(q.repGuids));
  }

  lemma SameSize(s: set<Guid>, t: set<Guid>)
    requires s <= t && |s| == |t|
    ensures s == t
  {
    assert t == s + (t - s);
  }

  /** Over the whole pool a greedy draw is greedy, and a full one leaves nobody with room. */
  lemma WholePool(v: View, q: Request, winner: Guid)
    requires ValidView(v) && Distinct(q.repGuids) && q.rules.maxBiddingPool >= 1.0
    ensures GreedyDraw(v, q, winner) ==> Greedy(v, Elements(q.repGuids), q.instance, winner)
    ensures SomeFull(v, q) ==> NoRoom(v, Elements(q.repGuids), q.instance.resources)
  {
    hide Greedy, NoRoom, Drawable;
    if GreedyDraw(v, q, winner) {
      var s :| Drawable(q, s) && Greedy(v, s, q.instance, winner);
      WholeDraw(q, s);
    }
    if SomeFull(v, q) {
      var s :| Drawable(q, s) && NoRoom(v, s, q.instance.resources);
      WholeDraw(q, s);
    }
  }

  /** Where all reservations of this auction stand after reserving from a round's opening state. */
  lemma Undisturbed(v: View, w: View, i: Instance)
    requires Reserved(v, w, {}, i, true)
    ensures w == v
  {}

  lemma KeysKept(v: View, w: View, s: set<Guid>, i: Instance, quiet: bool)
    requires Reserved(v, w, s, i, quiet)
    ensures w.Keys == v.Keys && forall g :: g in s ==> g in w && w[g].Holding(i.instanceGuid).Some?
  {}

  lemma Leader(results: seq<ScoreResult>, ranked: seq<ScoreResult>, asked: set<Guid>)
    requires RankOf(results, ranked) && Answers(results, asked) && Okays(results) != {}
    ensures ranked != [] && ranked[0].rep in asked
  {
    RankReps(results, ranked, asked);
    assert RepGuids(ranked)[0] in Elements(RepGuids(ranked));
  }

  /** The state between two calls of a round, `held` being what this auction has reserved so far. */
  ghost predicate During(client: InprocessClient, v: View, q: Request, held: set<Guid>)
    reads client
  {
    client.Valid() && client.pool.Keys == v.Keys && Reserved(v, client.pool, held, q.instance, client.quiet)
  }

  /** The state at the head of a round: nothing is held, and earlier rounds failed for want of room. */
  ghost predicate Open(client: InprocessClient, v: View, q: Request, alone: bool, algorithm: Algorithm, start: nat,
                       log: seq<Round>, rounds: int, communications: int)
    reads client
  {
    && During(client, v, q, {}) && ValidView(v) && Biddable(v, q)
    && Logged(algorithm, q, log, client.history, start, client.Timely()) && start < |client.history|
    && (forall k :: 0 <= k < |log| ==> log[k].claimed == NO_GUID)
    && rounds == |log| + 1 && communications == Cost(algorithm, log)
    && (alone && rounds > 1 ==> SomeFull(v, q))
  }

  lemma Opened(client: InprocessClient, q: Request, alone: bool, algorithm: Algorithm) returns (start: nat)
    requires client.Valid() && Biddable(client.pool, q)
    ensures Open(client, client.pool, q, alone, algorithm, start, [], 1, 0) && start == |client.history| - 1
  {
    start := |client.history| - 1;
  }

  lemma RoundBegins(client: InprocessClient, v: View, q: Request, alone: bool, algorithm: Algorithm, start: nat,
                    log: seq<Round>, rounds: int, communications: int) returns (h: seq<View>)
    requires Open(client, v, q, alone, algorithm, start, log, rounds, communications)
    ensures During(client, v, q, {}) && ValidView(v) && Biddable(v, q)
    ensures Distinct(q.repGuids) && Elements(q.repGuids) <= v.Keys && NO_GUID !in v
    ensures NonNegative(q.instance.resources) && Fresh(v, q.instance.instanceGuid)
    ensures alone && rounds > 1 ==> SomeFull(v, q)
    ensures h == client.history && h != [] && Fresh(h[|h| - 1], q.instance.instanceGuid)
    ensures Earlier(algorithm, q, log, h, start, client.Timely(), rounds, communications)
  {
    hide *;
    h := client.history;
    OpenIs(client, v, q, alone, algorithm, start, log, rounds, communications);
    FreshNow(client, v, q);
  }

  lemma OpenIs(client: InprocessClient, v: View, q: Request, alone: bool, algorithm: Algorithm, start: nat,
               log: seq<Round>, rounds: int, communications: int)
    requires Open(client, v, q, alone, algorithm, start, log, rounds, communications)
    ensures During(client, v, q, {}) && ValidView(v) && Biddable(v, q)
    ensures Distinct(q.repGuids) && Elements(q.repGuids) <= v.Keys && NO_GUID !in v
    ensures NonNegative(q.instance.resources) && Fresh(v, q.instance.instanceGuid)
    ensures alone && rounds > 1 ==> SomeFull(v, q)
    ensures Earlier(algorithm, q, log, client.history, start, client.Timely(), rounds, communications)
  {
    hide Logged, Cost, SomeFull, Distinct, Elements, Fresh, During;
  }

  /** At the head of a round the instance is nowhere reserved. */
  lemma FreshNow(client: InprocessClient, v: View, q: Request)
    requires During(client, v, q, {}) && Fresh(v, q.instance.instanceGuid)
    ensures client.history != [] && Fresh(client.history[|client.history| - 1], q.instance.instanceGuid)
  {
    hide ValidView;
  }

  /** What earlier rounds left behind: a log up to the present moment in which nobody was claimed. */
  ghost predicate Earlier(algorithm: Algorithm, q: Request, log: seq<Round>, h: seq<View>, start: nat, timely: bool,
                          rounds: int, communications: int)
  {
    && Logged(algorithm, q, log, h, start, timely) && start < |h|
    && (forall k :: 0 <= k < |log| ==> log[k].claimed == NO_GUID)
    && rounds == |log| + 1 && communications == Cost(algorithm, log)
  }

  lemma WitnessedLater(r: Round, i: Instance, h: seq<View>, later: seq<View>, timely: bool)
    requires Witnessed(r, i, h, timely) && h <= later
    ensures Witnessed(r, i, later, timely)
  {
    hide Sincere, AllSincere;
    AllSincereLater(r.scores, h, later, r.begun, r.begun, timely, i);
    AllSincereLater(r.reserved, h, later, r.reserving, r.reserving, timely, i);
    AllSincereLater(r.second, h, later, r.rescoring, r.rescoring, timely, i);
    assert later[r.begun] == h[r.begun] && later[r.rescoring] == h[r.rescoring];
  }

  /** The log goes on with one more round. */
  lemma LoggedMore(algorithm: Algorithm, q: Request, log: seq<Round>, r: Round, h: seq<View>, later: seq<View>,
                   start: nat, timely: bool)
    requires Logged(algorithm, q, log, h, start, timely) && h <= later && start < |h|
    requires Plays(algorithm, q, r) && Witnessed(r, q.instance, later, timely) && r.begun == |h| - 1
    ensures Logged(algorithm, q, log + [r], later, start, timely)
    ensures Cost(algorithm, log + [r]) == Cost(algorithm, log) + RoundCost(algorithm, r)
  {
    hide Plays, Witnessed, RoundCost;
    var all := log + [r];
    assert all[..|all| - 1] == log;
    forall k | 0 <= k < |all|
      ensures Plays(algorithm, q, all[k]) && Witnessed(all[k], q.instance, later, timely)
      ensures k < |log| ==> all[k].rescoring <= |h| - 1
    {
      if k < |log| {
        OneOf(log[k], q.instance, h, timely);
        WitnessedLater(log[k], q.instance, h, later, timely);
      }
    }
    forall k | 0 <= k < |all| ensures Since(all, start, k) <= all[k].begun {
      assert Since(all, start, k) == Since(log, start, k);
    }
  }

  lemma OneOf(r: Round, i: Instance, h: seq<View>, timely: bool)
    requires Witnessed(r, i, h, timely)
    ensures r.rescoring < |h|
  {}

  /** The answers of a round together, from the moments at which it began, told to reserve, and was answered. */
  lemma Witness(r: Round, i: Instance, h0: seq<View>, h1: seq<View>, h2: seq<View>, h3: seq<View>, timely: bool)
    requires h0 != [] && h0 <= h1 && h1 <= h2 && h2 <= h3
    requires r.begun == |h0| - 1 && r.reserving == |h1| - 1 && r.rescoring == |h2| - 1
    requires AllSincere(r.scores, h1, |h0| - 1, timely, i)
    requires AllSincere(r.reserved, h2, |h1| - 1, timely, i)
    requires AllSincere(r.second, h3, |h2| - 1, timely, i)
    requires Fresh(h0[|h0| - 1], i.instanceGuid) && HeldAt(h2[|h2| - 1], Okays(r.reserved), i)
    ensures Witnessed(r, i, h3, timely) && h0 <= h3
  {
    hide AllSincere, Fresh, HeldAt;
    AllSincereLater(r.scores, h1, h3, r.begun, r.begun, timely, i);
    AllSincereLater(r.reserved, h2, h3, r.reserving, r.reserving, timely, i);
    assert h3[r.begun] == h0[|h0| - 1] && h3[r.rescoring] == h2[|h2| - 1];
  }

  /** A round that failed leaves everything as it was; alone, it fails only for want of room. */
  lemma NextRound(client: InprocessClient, v: View, q: Request, alone: bool, algorithm: Algorithm, start: nat,
                  log: seq<Round>, r: Round, h: seq<View>, told: seq<View>, rounds: int, before: int)
    requires During(client, v, q, {}) && ValidView(v) && Biddable(v, q)
    requires Earlier(algorithm, q, log, h, start, client.Timely(), rounds, before) && h <= told <= client.history
    requires Plays(algorithm, q, r) && Witnessed(r, q.instance, told, client.Timely()) && r.begun == |h| - 1
    requires r.claimed == NO_GUID
    requires alone ==> SomeFull(v, q)
    ensures Open(client, v, q, alone, algorithm, start, log + [r], rounds + 1, before + RoundCost(algorithm, r))
  {
    hide Plays, Witnessed, Logged, SomeFull, Biddable, ValidView;
    WitnessedLater(r, q.instance, told, client.history, client.Timely());
    LoggedMore(algorithm, q, log, r, h, client.history, start, client.Timely());
  }

  /** The outcome of an auction that ends in round `rounds` with a winner. */
  lemma Won(client: InprocessClient, v: View, q: Request, alone: bool, algorithm: Algorithm, start: nat,
            log: seq<Round>, r: Round, winner: Guid, h: seq<View>, told: seq<View>, rounds: int, before: int)
    requires During(client, v, q, {winner}) && winner in Elements(q.repGuids) && winner != NO_GUID && ValidView(v)
    requires Earlier(algorithm, q, log, h, start, client.Timely(), rounds, before) && h <= told <= client.history
    requires Plays(algorithm, q, r.(claimed := winner)) && Witnessed(r, q.instance, told, client.Timely()) && r.begun == |h| - 1
    requires rounds <= q.rules.maxRounds && Distinct(q.repGuids)
    requires alone && rounds > 1 ==> SomeFull(v, q)
    requires alone ==> Drawable(q, r.drawn) && Best(v, r.drawn, q.instance, winner)
    ensures client.Valid() && Settled(v, client.pool, q, winner, client.quiet)
    ensures Told(algorithm, q, log + [r.(claimed := winner)], client.history, start, client.Timely(),
                 winner, rounds, before + RoundCost(algorithm, r.(claimed := winner)))
    ensures alone ==> GreedyDraw(v, q, winner)
    ensures alone && q.rules.maxBiddingPool >= 1.0 ==> Greedy(v, Elements(q.repGuids), q.instance, winner) && rounds == 1
  {
    hide Drawable, Best, Plays, Witnessed, Logged, Reserved, ValidView, RoundCost, SomeFull, NoRoom, Cost;
    var last := r.(claimed := winner);
    ClaimIsNoAnswer(r, winner, q.instance, told, client.Timely());
    WitnessedLater(last, q.instance, told, client.history, client.Timely());
    LoggedMore(algorithm, q, log, last, h, client.history, start, client.Timely());
    if alone {
      assert Greedy(v, r.drawn, q.instance, winner);
      if q.rules.maxBiddingPool >= 1.0 {
        WholePool(v, q, winner);
        BestHasRoom(v, Elements(q.repGuids), q.instance, winner);
      }
    }
  }

  lemma ClaimIsNoAnswer(r: Round, winner: Guid, i: Instance, h: seq<View>, timely: bool)
    requires Witnessed(r, i, h, timely)
    ensures Witnessed(r.(claimed := winner), i, h, timely)
  {
    hide AllSincere, Fresh, HeldAt;
  }

  lemma BestHasRoom(v: View, asked: set<Guid>, i: Instance, w: Guid)
    requires ValidView(v) && Greedy(v, asked, i, w) && w != NO_GUID
    ensures !NoRoom(v, asked, i.resources)
  {}

  lemma Lost(client: InprocessClient, v: View, q: Request, alone: bool, algorithm: Algorithm, start: nat,
             log: seq<Round>, rounds: int, communications: int)
    requires Open(client, v, q, alone, algorithm, start, log, rounds, communications)
    requires rounds == (if q.rules.maxRounds < 0 then 0 else q.rules.maxRounds) + 1
    ensures client.Valid() && Settled(v, client.pool, q, NO_GUID, client.quiet)
    ensures Told(algorithm, q, log, client.history, start, client.Timely(), NO_GUID, rounds, communications)
    ensures alone && q.rules.maxRounds >= 1 ==> GreedyDraw(v, q, NO_GUID)
    ensures alone && q.rules.maxRounds >= 1 && q.rules.maxBiddingPool >= 1.0 ==>
              Greedy(v, Elements(q.repGuids), q.instance, NO_GUID)
  {
    hide Drawable, NoRoom, Logged;
    if alone && q.rules.maxRounds >= 1 {
      var s :| Drawable(q, s) && NoRoom(v, s, q.instance.resources);
      assert Greedy(v, s, q.instance, NO_GUID);
      if q.rules.maxBiddingPool >= 1.0 {
        WholePool(v, q, NO_GUID);
      }
    }
  }

  // ---------------------------------------------------------------- how the rounds are played

  /** The first of a ranking are the cheapest. */
  lemma {:induction false} FirstAreCheapest(scores: seq<ScoreResult>, ranked: seq<ScoreResult>, drawn: set<Guid>,
                                            n: nat, top: seq<ScoreResult>)
    requires Answers(scores, drawn) && RankOf(scores, ranked)
    requires top == ranked[..if |ranked| < n then |ranked| else n]
    ensures Shortlist(Elements(RepGuids(top)), scores, n)
    ensures |Elements(RepGuids(top))| == |top|
  {
    hide Distinct, RankOf;
    RankReps(scores, ranked, drawn);
    RankMembers(scores, ranked);
    var reps := RepGuids(ranked);
    var asked := Elements(RepGuids(top));
    assert RepGuids(top) == reps[..|top|];
    DistinctPrefix(reps, |top|);
    DistinctSize(reps);
    DistinctSize(RepGuids(top));
    assert |Okays(scores)| == |ranked|;
    forall j, k | 0 <= j < |scores| && 0 <= k < |scores| && scores[j].rep in asked && scores[k].rep !in asked
      ensures scores[k].error != NoError || scores[j].score <= scores[k].score
    {
      if scores[k].error == NoError {
        Cheaper(scores, ranked, drawn, |top|, j, k);
      }
    }
  }

  lemma DistinctPrefix<T>(s: seq<T>, n: nat)
    requires Distinct(s) && n <= |s|
    ensures Distinct(s[..n]) && Elements(s[..n]) <= Elements(s)
  {}

  lemma Named(v: seq<ScoreResult>, b: nat)
    requires b < |v|
    ensures v[b].rep in Elements(RepGuids(v))
  {
    assert RepGuids(v)[b] == v[b].rep;
  }

  lemma Cheaper(scores: seq<ScoreResult>, ranked: seq<ScoreResult>, drawn: set<Guid>, m: nat, j: nat, k: nat)
    requires Answers(scores, drawn) && RankOf(scores, ranked) && m <= |ranked| && j < |scores| && k < |scores|
    requires scores[j].rep in Elements(RepGuids(ranked[..m]))
    requires scores[k].error == NoError && scores[k].rep !in Elements(RepGuids(ranked[..m]))
    ensures scores[j].score <= scores[k].score
  {
    RankMembers(scores, ranked);
    var a :| 0 <= a < m && RepGuids(ranked[..m])[a] == scores[j].rep;
    assert ranked[a] in ranked;
    var j' :| 0 <= j' < |scores| && scores[j'] == ranked[a];
    assert j' == j;
    assert scores[k] in scores;
    var b :| 0 <= b < |ranked| && ranked[b] == scores[k];
    assert b >= m by {
      if b < m {
        Named(ranked[..m], b);
      }
    }
  }

  /** The head of a ranking answered lowest. */
  lemma HeadIsLowest(answers: seq<ScoreResult>, ranked: seq<ScoreResult>)
    requires RankOf(answers, ranked) && ranked != []
    ensures Lowest(ranked[0].rep, answers)
  {
    RankHeadIsBest(answers, ranked);
    var j :| 0 <= j < |answers| && answers[j] == ranked[0];
    assert IsLowest(j, ranked[0].rep, answers);
  }

  lemma NobodyShortlisted(scores: seq<ScoreResult>, n: nat)
    requires Okays(scores) == {}
    ensures Shortlist({}, scores, n)
  {}

  lemma LeaderAlone(ranked: seq<ScoreResult>)
    requires ranked != []
    ensures ranked[..if |ranked| < 1 then |ranked| else 1] == [ranked[0]]
    ensures Elements(RepGuids([ranked[0]])) == {ranked[0].rep}
  {
    assert RepGuids([ranked[0]]) == [ranked[0].rep];
  }

  /** One representative asked and reserved is the lowest of those asked. */
  lemma AloneIsLowest(answers: seq<ScoreResult>, g: Guid)
    requires Answers(answers, {g}) && answers != [] && answers[0].error == NoError
    ensures Lowest(g, answers)
  {
    OneAnswer(answers, g);
    assert IsLowest(0, g, answers);
  }

  /** The rescored runner-up decides whether the winner was undercut. */
  lemma UndercutBySecond(reserved: seq<ScoreResult>, g: Guid, scores: seq<ScoreResult>, second: seq<ScoreResult>)
    requires Answers(reserved, {g}) && reserved != [] && reserved[0].error == NoError && RankOf(scores, second)
    ensures Undercut(reserved, scores) <==> second != [] && second[0].score < reserved[0].score
  {
    OneAnswer(reserved, g);
    RankMembers(scores, second);
    if second != [] {
      RankHeadIsBest(scores, second);
      var k :| 0 <= k < |scores| && scores[k] == second[0];
      assert second[0].score < reserved[0].score ==>
        reserved[0].error == NoError && scores[k].error == NoError && scores[k].score < reserved[0].score;
    }
    if j, k :| 0 <= j < |reserved| && 0 <= k < |scores| && reserved[j].error == NoError && scores[k].error == NoError
               && scores[k].score < reserved[j].score {
      assert scores[k] in scores;
      assert scores[k] in second;
    }
  }

  /** A round in which nobody could be asked to reserve. */
  function NobodyAsked(drawn: set<Guid>, scores: seq<ScoreResult>, begun: nat, reserving: nat): Round {
    Round(drawn, scores, {}, [], [], NO_GUID, begun, reserving, reserving)
  }

  lemma NobodyAskedPlays(algorithm: Algorithm, q: Request, drawn: set<Guid>, scores: seq<ScoreResult>, begun: nat,
                         reserving: nat)
    requires ScoresFirst(algorithm) && Drawable(q, drawn) && Answers(scores, drawn) && Okays(scores) == {}
    ensures Plays(algorithm, q, NobodyAsked(drawn, scores, begun, reserving))
    ensures RoundCost(algorithm, NobodyAsked(drawn, scores, begun, reserving)) == q.Bidders()
  {
    NothingAnswered();
  }

  lemma NobodyAskedWitnessed(drawn: set<Guid>, scores: seq<ScoreResult>, i: Instance, h0: seq<View>, h1: seq<View>,
                             timely: bool)
    requires h0 != [] && h0 <= h1 && AllSincere(scores, h1, |h0| - 1, timely, i) && Fresh(h0[|h0| - 1], i.instanceGuid)
    ensures Witnessed(NobodyAsked(drawn, scores, |h0| - 1, |h1| - 1), i, h1, timely)
  {
    NothingAnswered();
    Witness(NobodyAsked(drawn, scores, |h0| - 1, |h1| - 1), i, h0, h1, h1, h1, timely);
  }

  /** Those that have reserved hold the instance now. */
  lemma HoldersNow(client: InprocessClient, v: View, q: Request, held: set<Guid>)
    requires During(client, v, q, held)
    ensures client.history != [] && HeldAt(client.history[|client.history| - 1], held, q.instance)
  {}

  lemma DuringFacts(client: InprocessClient, v: View, q: Request, held: set<Guid>)
    requires During(client, v, q, held)
    ensures client.Valid() && ValidView(client.pool) && client.pool.Keys == v.Keys
    ensures Reserved(v, client.pool, held, q.instance, client.quiet)
    ensures Alone(client) ==> Reserved(v, client.pool, held, q.instance, true)
  {}

  /** Alone, the best representative still has its room and its score when it is told to reserve. */
  lemma RecastSucceeds(v: View, recasts: seq<ScoreResult>, asked: set<Guid>, i: Instance, g: Guid)
    requires ValidView(v) && AllTruthful(recasts, v, i) && Answers(recasts, {g}) && Best(v, asked, i, g)
    ensures |recasts| == 1 && recasts[0].error == NoError && recasts[0].score == v[g].Score(i.appGuid)
  {
    OneAnswer(recasts, g);
    assert Truthful(recasts[0], v, i);
  }

  /** Nobody can undercut the winner after it has reserved: nothing else has changed. */
  lemma SecondPlaceIsNoBetter(v: View, y: View, asked: set<Guid>, i: Instance, w: Guid, recasts: seq<ScoreResult>,
                              scores: seq<ScoreResult>)
    requires ValidView(v) && ValidView(y) && Best(v, asked, i, w) && Reserved(v, y, Okays(recasts), i, true)
    requires AllTruthful(recasts, v, i) && Answers(recasts, {w})
    requires AllTruthful(scores, y, i) && Answers(scores, asked - {w})
    ensures recasts != [] && recasts[0].error == NoError && !Undercut(recasts, scores)
  {
    hide Rep.Score, Rep.HasRoom, ValidView;
    RecastSucceeds(v, recasts, asked, i, w);
    OneAnswer(recasts, w);
    forall k | 0 <= k < |scores| && scores[k].error == NoError ensures recasts[0].score <= scores[k].score {
      assert Truthful(scores[k], y, i);
      assert scores[k].rep in Answered(scores);
      assert y[scores[k].rep] == v[scores[k].rep];
    }
  }

  /**
   * Draws a subset, scores it and ranks the answers; an empty ranking means that all of them failed.
   * Three of the algorithms begin a round this way.
   */
  method ScoreSubset(client: InprocessClient, q: Request, ghost v: View)
    returns (reps: seq<Guid>, ranked: seq<ScoreResult>, ghost scores: seq<ScoreResult>)
    requires Biddable(v, q) && q.Bidders() >= 0 && During(client, v, q, {})
    modifies client`pool, client`history
    ensures During(client, v, q, {}) && (client.quiet ==> client.pool == v) && old(client.history) <= client.history
    ensures Answers(scores, Elements(reps)) && RankOf(scores, ranked) && (ranked == [] <==> Okays(scores) == {})
    ensures AllSincere(scores, client.history, |old(client.history)| - 1, client.Timely(), q.instance)
    ensures |reps| == q.Bidders() && Distinct(reps) && Elements(reps) <= Elements(q.repGuids)
    ensures Distinct(RepGuids(ranked)) && Elements(RepGuids(ranked)) <= Elements(reps)
    ensures ranked != [] ==> ranked[0].rep in Elements(reps)
    ensures Drawable(q, Elements(reps))
    ensures Alone(client) && ranked == [] ==> SomeFull(v, q)
    ensures Alone(client) && ranked != [] && ValidView(v) ==> Best(v, Elements(reps), q.instance, ranked[0].rep)
  {
    hide Rep.HasRoom, Rep.Score, ValidView, Reserved, Answers, AllTruthful, RankOf, Best, NoRoom, Distinct, SomeFull;
    hide Drawable, AllSincere, Okays;
    reps := DrawSubset(client, q, v);
    ghost var w, asked := client.pool, Elements(reps);
    var answers := client.Score(Elements(reps), q.instance);
    scores := answers;
    ReservedThenIdle(v, w, client.pool, {}, q.instance, client.quiet);
    ranked := Rank(answers);
    RankReps(scores, ranked, asked);
    if ranked != [] {
      Leader(scores, ranked, asked);
    }
    if client.quiet {
      Undisturbed(v, w, q.instance);
      Undisturbed(v, client.pool, q.instance);
    }
    if Alone(client) && ValidView(v) {
      if ranked == [] {
        AllFullWhenAllFail(v, scores, asked, q.instance);
        FullSubset(v, q, asked);
      } else {
        RankedIsBest(v, scores, ranked, asked, q.instance);
      }
    }
  }

  /** Tells representatives to reserve; those that answer without an error are held from then on. */
  method AskToReserve(client: InprocessClient, q: Request, ghost v: View, reps: set<Guid>)
    returns (results: seq<ScoreResult>)
    requires During(client, v, q, {}) && reps <= v.Keys && NonNegative(q.instance.resources)
    modifies client`pool, client`history
    ensures During(client, v, q, Okays(results)) && Answers(results, reps) && old(client.history) <= client.history
    ensures AllSincere(results, client.history, |old(client.history)| - 1, client.Timely(), q.instance)
    ensures Alone(client) ==> AllTruthful(results, v, q.instance)
  {
    hide ValidView, Reserved, Answers, Okays, AllTruthful, AllSincere;
    ghost var w := client.pool;
    if client.quiet {
      Undisturbed(v, w, q.instance);
    }
    results := client.ScoreThenTentativelyReserve(reps, q.instance);
    IdleThenReserved(v, w, client.pool, Okays(results), q.instance, client.quiet);
  }

  method DrawSubset(client: InprocessClient, q: Request, ghost v: View) returns (reps: seq<Guid>)
    requires Biddable(v, q) && q.Bidders() >= 0
    ensures |reps| == q.Bidders() && Distinct(reps) && Elements(reps) <= Elements(q.repGuids) && |Elements(reps)| == |reps|
    ensures Drawable(q, Elements(reps))
  {
    reps := RandomSubsetByFraction(q.repGuids, q.rules.maxBiddingPool);
    Drawn(v, q, reps);
  }

  /** Scores representatives while some are held. */
  method ScoreAgain(client: InprocessClient, q: Request, ghost v: View, ghost held: set<Guid>, reps: set<Guid>)
    returns (results: seq<ScoreResult>)
    requires During(client, v, q, held) && reps <= v.Keys
    modifies client`pool, client`history
    ensures During(client, v, q, held) && Answers(results, reps) && old(client.history) <= client.history
    ensures AllSincere(results, client.history, |old(client.history)| - 1, client.Timely(), q.instance)
    ensures Alone(client) ==> AllTruthful(results, old(client.pool), q.instance)
  {
    hide ValidView, Reserved, Answers, AllTruthful, AllSincere;
    ghost var w := client.pool;
    results := client.Score(reps, q.instance);
    ReservedThenIdle(v, w, client.pool, held, q.instance, client.quiet);
  }

  /** Claims the winner, which always has its reservation. */
  method ClaimWinner(client: InprocessClient, q: Request, ghost v: View, ghost held: set<Guid>, winner: Guid)
    returns (missed: nat)
    requires During(client, v, q, held) && winner in held && held <= v.Keys
    modifies client`pool, client`history, client`claims
    ensures During(client, v, q, held) && missed == 0 && old(client.history) <= client.history
    ensures client.claims == old(client.claims) + [(winner, q.instance.instanceGuid)]
  {
    hide ValidView, Reserved, Released;
    ghost var w := client.pool;
    KeysKept(v, w, held, q.instance, client.quiet);
    missed := client.Claim(winner, q.instance);
    ReservedThenIdle(v, w, client.pool, held, q.instance, client.quiet);
  }

  /** Claims the winner and releases the others; both always find their reservation. */
  method ClaimAndRelease(client: InprocessClient, q: Request, ghost v: View, winner: Guid, others: set<Guid>)
    returns (missed: nat)
    requires During(client, v, q, {winner} + others) && winner !in others && {winner} + others <= v.Keys
    requires Fresh(v, q.instance.instanceGuid)
    modifies client`pool, client`history, client`claims
    ensures During(client, v, q, {winner}) && missed == 0 && old(client.history) <= client.history
    ensures client.claims == old(client.claims) + [(winner, q.instance.instanceGuid)]
  {
    hide ValidView, Reserved, Released, NotHolding, During, Fresh;
    ghost var held := {winner} + others;
    missed := ClaimWinner(client, q, v, held, winner);
    if others != {} {
      DuringFacts(client, v, q, held);
      ghost var x := client.pool;
      KeysKept(v, x, held, q.instance, client.quiet);
      NoneMissing(x, others, q.instance.instanceGuid);
      var m := client.ReleaseReservation(others, q.instance);
      ReleasedFrom(client, v, x, q, held, others);
      missed := missed + m;
    }
    assert held - others == {winner} && (others == {} ==> held == {winner});
  }

  lemma ReleasedFrom(client: InprocessClient, v: View, x: View, q: Request, held: set<Guid>, others: set<Guid>)
    requires client.Valid() && Fresh(v, q.instance.instanceGuid) && others <= held
    requires Reserved(v, x, held, q.instance, client.quiet)
    requires Released(x, client.pool, others, q.instance.instanceGuid, client.quiet)
    ensures During(client, v, q, held - others)
  {
    ReservedThenReleased(v, x, client.pool, held, others, q.instance, client.quiet);
  }

  method ReleaseHeld(client: InprocessClient, q: Request, ghost v: View, held: set<Guid>) returns (missed: nat)
    requires During(client, v, q, held) && held <= v.Keys && Fresh(v, q.instance.instanceGuid)
    modifies client`pool, client`history
    ensures During(client, v, q, {}) && missed == 0 && old(client.history) <= client.history
  {
    hide ValidView, Reserved, Released, NotHolding;
    ghost var w := client.pool;
    KeysKept(v, w, held, q.instance, client.quiet);
    NoneMissing(w, held, q.instance.instanceGuid);
    missed := client.ReleaseReservation(held, q.instance);
    ReservedThenReleased(v, w, client.pool, held, held, q.instance, client.quiet);
    assert held - held == {};
  }

  /** A round of all-rescore, from the answers it gets. */
  lemma RescorePlays(q: Request, r: Round, ranked: seq<ScoreResult>)
    requires Drawable(q, r.drawn) && Answers(r.scores, r.drawn) && RankOf(r.scores, ranked) && ranked != []
    requires r.asked == {ranked[0].rep} && Answers(r.reserved, r.asked) && r.reserved != []
    requires Answers(r.second, r.drawn - r.asked)
    requires if r.claimed == NO_GUID then r.reserved[0].error != NoError || Undercut(r.reserved, r.second)
             else r.claimed == ranked[0].rep && r.reserved[0].error == NoError && !Undercut(r.reserved, r.second)
    ensures Plays(AllRescore, q, r)
    ensures RoundCost(AllRescore, r) ==
            q.Bidders() + 1 + |r.second| + if r.reserved[0].error == NoError then 1 else 0
  {
    hide RankOf, Answers, Shortlist, Lowest, Undercut, Okays;
    LeaderAlone(ranked);
    FirstAreCheapest(r.scores, ranked, r.drawn, 1, [ranked[0]]);
    OneAnswer(r.reserved, ranked[0].rep);
    if r.claimed != NO_GUID {
      AloneIsLowest(r.reserved, ranked[0].rep);
    }
  }

  /** The round in which nobody could take the instance. */
  lemma NobodyCould(client: InprocessClient, v: View, q: Request, alone: bool, algorithm: Algorithm, start: nat,
                    log: seq<Round>, drawn: set<Guid>, scores: seq<ScoreResult>, h: seq<View>, rounds: int, before: int) returns (r: Round)
    requires During(client, v, q, {}) && ValidView(v) && Biddable(v, q) && ScoresFirst(algorithm)
    requires Earlier(algorithm, q, log, h, start, client.Timely(), rounds, before) && h <= client.history && h != []
    requires Drawable(q, drawn) && Answers(scores, drawn) && Okays(scores) == {}
    requires AllSincere(scores, client.history, |h| - 1, client.Timely(), q.instance) && Fresh(h[|h| - 1], q.instance.instanceGuid)
    requires alone ==> SomeFull(v, q)
    ensures Open(client, v, q, alone, algorithm, start, log + [r], rounds + 1, before + q.Bidders())
  {
    hide Plays, Witnessed, Open, Earlier, During, SomeFull, Biddable, ValidView, AllSincere, Fresh, Answers, Okays;
    hide RoundCost, Drawable;
    r := NobodyAsked(drawn, scores, |h| - 1, |client.history| - 1);
    NobodyAskedPlays(algorithm, q, drawn, scores, r.begun, r.reserving);
    NobodyAskedWitnessed(drawn, scores, q.instance, h, client.history, client.Timely());
    NextRound(client, v, q, alone, algorithm, start, log, r, h, client.history, rounds, before);
  }

  /** Tells the winner to reserve, and then the others to score again. */
  method ReserveAndRescore(client: InprocessClient, q: Request, ghost v: View, reps: seq<Guid>, best: Guid)
    returns (recast: ScoreResult, scores: seq<ScoreResult>, communications: int,
             ghost recasts: seq<ScoreResult>, ghost told: seq<View>)
    requires During(client, v, q, {}) && NonNegative(q.instance.resources)
    requires Distinct(reps) && best in Elements(reps) && Elements(reps) <= v.Keys
    requires Alone(client) ==> ValidView(v) && Best(v, Elements(reps), q.instance, best)
    modifies client`pool, client`history
    ensures During(client, v, q, if recast.error == NoError then {best} else {})
    ensures Answers(recasts, {best}) && recasts != [] && recasts[0] == recast
    ensures Answers(scores, Elements(reps) - {best}) && communications == 1 + |scores|
    ensures old(client.history) <= told <= client.history && told != []
    ensures AllSincere(recasts, told, |old(client.history)| - 1, client.Timely(), q.instance)
    ensures AllSincere(scores, client.history, |told| - 1, client.Timely(), q.instance)
    ensures HeldAt(told[|told| - 1], Okays(recasts), q.instance)
    ensures Alone(client) ==> recast.error == NoError && !Undercut(recasts, scores)
  {
    hide *;
    var answers := AskToReserve(client, q, v, {best});
    OneAnswer(answers, best);
    recast, recasts := answers[0], answers;
    ghost var held, y := Okays(recasts), client.pool;
    told := client.history;
    DuringFacts(client, v, q, held);
    HoldersNow(client, v, q, held);
    var secondRoundReps := Without(reps, {best});
    WithoutOne(reps, best, secondRoundReps);
    scores := ScoreAgain(client, q, v, held, Elements(secondRoundReps));
    AnswerCount(scores, Elements(secondRoundReps));
    communications := 1 + |secondRoundReps|;
    if Alone(client) {
      SecondPlaceIsNoBetter(v, y, Elements(reps), q.instance, best, recasts, scores);
    }
  }

  /**
   * The winner of the first scores reserves, the others score again, and the winner is claimed unless one
   * of those answers undercuts what it answered when it reserved.
   */
  method AllRescoreAuction(client: InprocessClient, q: Request)
    returns (winner: Guid, rounds: int, communications: int, missed: nat, ghost log: seq<Round>)
    requires client.Valid() && Biddable(client.pool, q) && q.Bidders() >= 0
    modifies client`pool, client`history, client`claims
    ensures client.Valid() && Settled(old(client.pool), client.pool, q, winner, client.quiet) && missed == 0
    ensures Told(AllRescore, q, log, client.history, |old(client.history)| - 1, client.Timely(), winner, rounds, communications)
    ensures Alone(client) && q.rules.maxRounds >= 1 ==> GreedyDraw(old(client.pool), q, winner)
    ensures Alone(client) && q.rules.maxRounds >= 1 && q.rules.maxBiddingPool >= 1.0 ==>
              Greedy(old(client.pool), Elements(q.repGuids), q.instance, winner) && (winner != NO_GUID ==> rounds == 1)
    ensures client.claims == old(client.claims) + ClaimsOf(q, winner)
  {
    hide *;
    ghost var v, claims, alone := client.pool, client.claims, Alone(client);
    rounds, communications, missed, log := 1, 0, 0, [];
    WhoScoresFirst();
    ghost var start := Opened(client, q, alone, AllRescore);
    while rounds <= q.rules.maxRounds
      invariant Open(client, v, q, alone, AllRescore, start, log, rounds, communications) && missed == 0
      invariant 1 <= rounds && (rounds == 1 || rounds <= q.rules.maxRounds + 1)
      invariant client.claims == claims
      decreases q.rules.maxRounds - rounds
    {
      ghost var before := communications;
      ghost var h := RoundBegins(client, v, q, alone, AllRescore, start, log, rounds, before);
      ghost var scores;
      var firstRoundReps, ranked;
      firstRoundReps, ranked, scores := ScoreSubset(client, q, v);
      ghost var drawn, h1 := Elements(firstRoundReps), client.history;
      communications := communications + |firstRoundReps|;
      if ranked == [] {
        ghost var r := NobodyCould(client, v, q, alone, AllRescore, start, log, drawn, scores, h, rounds, before);
        rounds, log := rounds + 1, log + [r];
        continue;
      }
      var best := ranked[0].rep;
      ghost var recasts, h2;
      var recast, secondRoundScores, sent;
      recast, secondRoundScores, sent, recasts, h2 := ReserveAndRescore(client, q, v, firstRoundReps, best);
      communications := communications + sent;
      ghost var h3 := client.history;
      ghost var r := Round(drawn, scores, {best}, recasts, secondRoundScores, NO_GUID, |h| - 1, |h1| - 1, |h2| - 1);
      Witness(r, q.instance, h, h1, h2, h3, client.Timely());
      if recast.error != NoError {
        RescorePlays(q, r, ranked);
        NextRound(client, v, q, alone, AllRescore, start, log, r, h, h3, rounds, before);
        rounds, log := rounds + 1, log + [r];
        continue;
      }
      var second := Rank(secondRoundScores);
      UndercutBySecond(recasts, best, secondRoundScores, second);
      if second != [] {
        if second[0].score < recast.score {
          missed := ReleaseHeld(client, q, v, {best});
          communications := communications + 1;
          RescorePlays(q, r, ranked);
          NextRound(client, v, q, alone, AllRescore, start, log, r, h, h3, rounds, before);
          rounds, log := rounds + 1, log + [r];
          continue;
        }
      }
      missed := ClaimWinner(client, q, v, {best}, best);
      communications := communications + 1;
      RescorePlays(q, r.(claimed := best), ranked);
      ClaimedOne(q, best);
      Won(client, v, q, alone, AllRescore, start, log, r, best, h, h3, rounds, before);
      return best, rounds, communications, missed, log + [r.(claimed := best)];
    }
    ClaimedNobody(q, claims);
    Lost(client, v, q, alone, AllRescore, start, log, rounds, communications);
    winner := NO_GUID;
  }

  /** A round of pick-best, from the answers it gets. */
  lemma PickPlays(q: Request, r: Round, ranked: seq<ScoreResult>)
    requires Drawable(q, r.drawn) && Answers(r.scores, r.drawn) && RankOf(r.scores, ranked) && ranked != []
    requires r.asked == {ranked[0].rep} && Answers(r.reserved, r.asked) && r.reserved != [] && r.second == []
    requires if r.claimed == NO_GUID then r.reserved[0].error != NoError
             else r.claimed == ranked[0].rep && r.reserved[0].error == NoError
    ensures Plays(PickBest, q, r)
    ensures RoundCost(PickBest, r) == q.Bidders() + 1 + if r.claimed == NO_GUID then 0 else 1
  {
    hide RankOf, Answers, Shortlist, Lowest, Undercut, Okays;
    LeaderAlone(ranked);
    FirstAreCheapest(r.scores, ranked, r.drawn, 1, [ranked[0]]);
    OneAnswer(r.reserved, ranked[0].rep);
    if r.claimed != NO_GUID {
      AloneIsLowest(r.reserved, ranked[0].rep);
    }
  }

  method PickBestAuction(client: InprocessClient, q: Request)
    returns (winner: Guid, rounds: int, communications: int, missed: nat, ghost log: seq<Round>)
    requires client.Valid() && Biddable(client.pool, q) && q.Bidders() >= 0
    modifies client`pool, client`history, client`claims
    ensures client.Valid() && Settled(old(client.pool), client.pool, q, winner, client.quiet) && missed == 0
    ensures Told(PickBest, q, log, client.history, |old(client.history)| - 1, client.Timely(), winner, rounds, communications)
    ensures Alone(client) && q.rules.maxRounds >= 1 ==> GreedyDraw(old(client.pool), q, winner)
    ensures Alone(client) && q.rules.maxRounds >= 1 && q.rules.maxBiddingPool >= 1.0 ==>
              Greedy(old(client.pool), Elements(q.repGuids), q.instance, winner) && (winner != NO_GUID ==> rounds == 1)
    ensures client.claims == old(client.claims) + ClaimsOf(q, winner)
  {
    hide *;
    ghost var v, claims, alone := client.pool, client.claims, Alone(client);
    rounds, communications, missed, log := 1, 0, 0, [];
    WhoScoresFirst();
    ghost var start := Opened(client, q, alone, PickBest);
    while rounds <= q.rules.maxRounds
      invariant Open(client, v, q, alone, PickBest, start, log, rounds, communications) && missed == 0
      invariant 1 <= rounds && (rounds == 1 || rounds <= q.rules.maxRounds + 1)
      invariant client.claims == claims
      decreases q.rules.maxRounds - rounds
    {
      ghost var before := communications;
      ghost var h := RoundBegins(client, v, q, alone, PickBest, start, log, rounds, before);
      ghost var scores;
      var firstRoundReps, ranked;
      firstRoundReps, ranked, scores := ScoreSubset(client, q, v);
      ghost var drawn, h1 := Elements(firstRoundReps), client.history;
      communications := communications + |firstRoundReps|;
      if ranked == [] {
        ghost var r := NobodyCould(client, v, q, alone, PickBest, start, log, drawn, scores, h, rounds, before);
        rounds, log := rounds + 1, log + [r];
        continue;
      }
      var best := ranked[0].rep;
      var results := AskToReserve(client, q, v, {best});
      OneAnswer(results, best);
      communications := communications + 1;
      ghost var h2 := client.history;
      HoldersNow(client, v, q, Okays(results));
      NothingInsincere(h2, |h2| - 1, client.Timely(), q.instance);
      ghost var r := Round(drawn, scores, {best}, results, [], NO_GUID, |h| - 1, |h1| - 1, |h2| - 1);
      Witness(r, q.instance, h, h1, h2, h2, client.Timely());
      if alone {
        RecastSucceeds(v, results, drawn, q.instance, best);
      }
      if results[0].error != NoError {
        PickPlays(q, r, ranked);
        NextRound(client, v, q, alone, PickBest, start, log, r, h, h2, rounds, before);
        rounds, log := rounds + 1, log + [r];
        continue;
      }
      missed := ClaimWinner(client, q, v, {best}, best);
      communications := communications + 1;
      PickPlays(q, r.(claimed := best), ranked);
      ClaimedOne(q, best);
      Won(client, v, q, alone, PickBest, start, log, r, best, h, h2, rounds, before);
      return best, rounds, communications, missed, log + [r.(claimed := best)];
    }
    ClaimedNobody(q, claims);
    Lost(client, v, q, alone, PickBest, start, log, rounds, communications);
    winner := NO_GUID;
  }

  /** The winner of a reserved shortlist, and the others, which are to be released. */
  lemma Shortlisted(results: seq<ScoreResult>, ordered: seq<ScoreResult>, asked: set<Guid>, reps: seq<Guid>)
    requires Answers(results, asked) && RankOf(results, ordered) && ordered != [] && reps == RepGuids(ordered)
    ensures reps[0] == ordered[0].rep && reps[0] in asked
    ensures Elements(reps[1..]) == Okays(results) - {reps[0]} && Okays(results) == {reps[0]} + Elements(reps[1..])
    ensures |results| == |asked| && |ordered| == |reps| <= |asked| && Okays(results) <= asked
  {
    hide RankOf, Answers, Okays;
    RankReps(results, ordered, asked);
    assert reps == [reps[0]] + reps[1..];
    assert Elements(reps) == {reps[0]} + Elements(reps[1..]);
    OkaysAsked(results, asked);
    AnswerCount(results, asked);
  }

  lemma AnswerCount(results: seq<ScoreResult>, asked: set<Guid>)
    requires Answers(results, asked)
    ensures |results| == |asked|
  {}

  /** A round of all-reserve, from the answers it gets. */
  lemma ReservePlays(q: Request, r: Round, ordered: seq<ScoreResult>)
    requires Drawable(q, r.drawn) && r.scores == [] && r.asked == r.drawn && r.second == []
    requires Answers(r.reserved, r.asked) && RankOf(r.reserved, ordered)
    requires if r.claimed == NO_GUID then Okays(r.reserved) == {} else ordered != [] && r.claimed == ordered[0].rep
    ensures Plays(AllReserve, q, r)
    ensures RoundCost(AllReserve, r) == q.Bidders() + if r.claimed == NO_GUID then 0 else |ordered|
  {
    hide RankOf, Answers, Lowest, Undercut, Okays;
    RankedCount(r.reserved, ordered, r.asked);
    if r.claimed != NO_GUID {
      HeadIsLowest(r.reserved, ordered);
    }
  }

  /** As many are ranked as said yes. */
  lemma RankedCount(results: seq<ScoreResult>, ordered: seq<ScoreResult>, asked: set<Guid>)
    requires Answers(results, asked) && RankOf(results, ordered)
    ensures |Okays(results)| == |ordered| == |RepGuids(ordered)|
  {
    hide Answers, RankOf, Okays;
    RankReps(results, ordered, asked);
    DistinctSize(RepGuids(ordered));
  }

  method AllReserveAuction(client: InprocessClient, q: Request)
    returns (winner: Guid, rounds: int, communications: int, missed: nat, ghost log: seq<Round>)
    requires client.Valid() && Biddable(client.pool, q) && q.Bidders() >= 0
    modifies client`pool, client`history, client`claims
    ensures client.Valid() && Settled(old(client.pool), client.pool, q, winner, client.quiet) && missed == 0
    ensures Told(AllReserve, q, log, client.history, |old(client.history)| - 1, client.Timely(), winner, rounds, communications)
    ensures Alone(client) && q.rules.maxRounds >= 1 ==> GreedyDraw(old(client.pool), q, winner)
    ensures Alone(client) && q.rules.maxRounds >= 1 && q.rules.maxBiddingPool >= 1.0 ==>
              Greedy(old(client.pool), Elements(q.repGuids), q.instance, winner) && (winner != NO_GUID ==> rounds == 1)
    ensures client.claims == old(client.claims) + ClaimsOf(q, winner)
  {
    hide *;
    ghost var v, claims, alone := client.pool, client.claims, Alone(client);
    rounds, communications, missed, log := 1, 0, 0, [];
    WhoScoresFirst();
    ghost var start := Opened(client, q, alone, AllReserve);
    while rounds <= q.rules.maxRounds
      invariant Open(client, v, q, alone, AllReserve, start, log, rounds, communications) && missed == 0
      invariant 1 <= rounds && (rounds == 1 || rounds <= q.rules.maxRounds + 1)
      invariant client.claims == claims
      decreases q.rules.maxRounds - rounds
    {
      ghost var before := communications;
      ghost var h := RoundBegins(client, v, q, alone, AllReserve, start, log, rounds, before);
      var firstRoundReps := DrawSubset(client, q, v);
      ghost var drawn, h1 := Elements(firstRoundReps), client.history;
      NothingInsincere(h1, |h| - 1, client.Timely(), q.instance);
      communications := communications + |firstRoundReps|;
      var scores := AskToReserve(client, q, v, Elements(firstRoundReps));
      ghost var h2 := client.history;
      HoldersNow(client, v, q, Okays(scores));
      NothingInsincere(h2, |h2| - 1, client.Timely(), q.instance);
      ghost var r := Round(drawn, [], drawn, scores, [], NO_GUID, |h| - 1, |h1| - 1, |h2| - 1);
      Witness(r, q.instance, h, h1, h2, h2, client.Timely());
      var failed := AllFailed(scores);
      var ordered := Rank(scores);
      RankReps(scores, ordered, drawn);
      if failed {
        if alone {
          AllFullWhenAllFail(v, scores, drawn, q.instance);
          FullSubset(v, q, drawn);
        }
        ReservePlays(q, r, ordered);
        NextRound(client, v, q, alone, AllReserve, start, log, r, h, h2, rounds, before);
        rounds, log := rounds + 1, log + [r];
        continue;
      }
      var orderedReps := Reps(ordered);
      Shortlisted(scores, ordered, drawn, orderedReps);
      if alone {
        RankedIsBest(v, scores, ordered, drawn, q.instance);
      }
      communications := communications + |orderedReps|;
      missed := ClaimAndRelease(client, q, v, orderedReps[0], Elements(orderedReps[1..]));
      ReservePlays(q, r.(claimed := orderedReps[0]), ordered);
      ClaimedOne(q, orderedReps[0]);
      Won(client, v, q, alone, AllReserve, start, log, r, orderedReps[0], h, h2, rounds, before);
      return orderedReps[0], rounds, communications, missed, log + [r.(claimed := orderedReps[0])];
    }
    ClaimedNobody(q, claims);
    Lost(client, v, q, alone, AllReserve, start, log, rounds, communications);
    winner := NO_GUID;
  }

  /** The first five of a ranking, or all of it when it is shorter. */
  lemma TopFive(ranked: seq<ScoreResult>, winners: seq<ScoreResult>, reps: seq<Guid>)
    requires Distinct(RepGuids(ranked)) && ranked != [] && reps == RepGuids(winners)
    requires winners == ranked[..if |ranked| < 5 then |ranked| else 5]
    ensures Elements(reps) <= Elements(RepGuids(ranked)) && |Elements(reps)| == |reps| == |winners| <= 5
    ensures ranked[0].rep in Elements(reps)
  {
    assert RepGuids(winners) == RepGuids(ranked)[..|winners|];
    assert RepGuids(winners)[0] == ranked[0].rep;
    DistinctSize(reps);
  }

  /** Alone, somebody on the shortlist can reserve, and the cheapest who does is a best representative. */
  lemma ShortlistHoldsTheBest(v: View, asked: set<Guid>, shortlist: set<Guid>, i: Instance, b: Guid,
                              results: seq<ScoreResult>, ordered: seq<ScoreResult>)
    requires ValidView(v) && Best(v, asked, i, b) && b in shortlist && shortlist <= asked
    requires AllTruthful(results, v, i) && Answers(results, shortlist) && RankOf(results, ordered)
    ensures Okays(results) != {}
    ensures ordered != [] ==> Best(v, asked, i, ordered[0].rep)
  {
    if Okays(results) == {} {
      AllFullWhenAllFail(v, results, shortlist, i);
      assert false;
    }
    if ordered != [] {
      RankedIsBest(v, results, ordered, shortlist, i);
      BestOfShortlist(v, asked, shortlist, i, b, ordered[0].rep);
    }
  }

  /** A round of reserve-n-best, from the answers it gets. */
  lemma NBestPlays(q: Request, r: Round, ranked: seq<ScoreResult>, winners: seq<ScoreResult>, ordered: seq<ScoreResult>)
    requires Drawable(q, r.drawn) && Answers(r.scores, r.drawn) && RankOf(r.scores, ranked)
    requires winners == ranked[..if |ranked| < 5 then |ranked| else 5]
    requires r.asked == Elements(RepGuids(winners)) && Answers(r.reserved, r.asked) && RankOf(r.reserved, ordered) && r.second == []
    requires if r.claimed == NO_GUID then Okays(r.reserved) == {} else ordered != [] && r.claimed == ordered[0].rep
    ensures Plays(ReserveNBest, q, r)
    ensures RoundCost(ReserveNBest, r) == q.Bidders() + |r.asked| + if r.claimed == NO_GUID then 0 else |r.asked|
  {
    hide RankOf, Answers, Shortlist, Lowest, Undercut, Okays;
    FirstAreCheapest(r.scores, ranked, r.drawn, 5, winners);
    if r.claimed != NO_GUID {
      HeadIsLowest(r.reserved, ordered);
    }
  }

  method ReserveNBestAuction(client: InprocessClient, q: Request)
    returns (winner: Guid, rounds: int, communications: int, missed: nat, ghost log: seq<Round>)
    requires client.Valid() && Biddable(client.pool, q) && q.Bidders() >= 0
    modifies client`pool, client`history, client`claims
    ensures client.Valid() && Settled(old(client.pool), client.pool, q, winner, client.quiet) && missed == 0
    ensures Told(ReserveNBest, q, log, client.history, |old(client.history)| - 1, client.Timely(), winner, rounds, communications)
    ensures Alone(client) && q.rules.maxRounds >= 1 ==> GreedyDraw(old(client.pool), q, winner)
    ensures Alone(client) && q.rules.maxRounds >= 1 && q.rules.maxBiddingPool >= 1.0 ==>
              Greedy(old(client.pool), Elements(q.repGuids), q.instance, winner) && (winner != NO_GUID ==> rounds == 1)
    ensures client.claims == old(client.claims) + ClaimsOf(q, winner)
  {
    hide *;
    ghost var v, claims, alone := client.pool, client.claims, Alone(client);
    rounds, communications, missed, log := 1, 0, 0, [];
    WhoScoresFirst();
    ghost var start := Opened(client, q, alone, ReserveNBest);
    while rounds <= q.rules.maxRounds
      invariant Open(client, v, q, alone, ReserveNBest, start, log, rounds, communications) && missed == 0
      invariant 1 <= rounds && (rounds == 1 || rounds <= q.rules.maxRounds + 1)
      invariant client.claims == claims
      decreases q.rules.maxRounds - rounds
    {
      ghost var before := communications;
      ghost var h := RoundBegins(client, v, q, alone, ReserveNBest, start, log, rounds, before);
      ghost var scores;
      var firstRoundReps, ranked;
      firstRoundReps, ranked, scores := ScoreSubset(client, q, v);
      ghost var drawn, h1 := Elements(firstRoundReps), client.history;
      communications := communications + |firstRoundReps|;
      if ranked == [] {
        ghost var r := NobodyCould(client, v, q, alone, ReserveNBest, start, log, drawn, scores, h, rounds, before);
        rounds, log := rounds + 1, log + [r];
        continue;
      }
      var max := 5;
      if |ranked| < max {
        max := |ranked|;
      }
      var winners := ranked[..max];
      communications := communications + |winners|;
      var shortlist := Reps(winners);
      TopFive(ranked, winners, shortlist);
      ghost var asked := Elements(shortlist);
      var results := AskToReserve(client, q, v, Elements(shortlist));
      AnswerCount(results, asked);
      ghost var h2 := client.history;
      HoldersNow(client, v, q, Okays(results));
      NothingInsincere(h2, |h2| - 1, client.Timely(), q.instance);
      ghost var r := Round(drawn, scores, asked, results, [], NO_GUID, |h| - 1, |h1| - 1, |h2| - 1);
      Witness(r, q.instance, h, h1, h2, h2, client.Timely());
      var failed := AllFailed(results);
      var ordered := Rank(results);
      RankReps(results, ordered, asked);
      if alone {
        ShortlistHoldsTheBest(v, drawn, asked, q.instance, ranked[0].rep, results, ordered);
      }
      if failed {
        NBestPlays(q, r, ranked, winners, ordered);
        NextRound(client, v, q, alone, ReserveNBest, start, log, r, h, h2, rounds, before);
        rounds, log := rounds + 1, log + [r];
        continue;
      }
      var orderedReps := Reps(ordered);
      Shortlisted(results, ordered, asked, orderedReps);
      communications := communications + |results|;
      missed := ClaimAndRelease(client, q, v, orderedReps[0], Elements(orderedReps[1..]));
      NBestPlays(q, r.(claimed := orderedReps[0]), ranked, winners, ordered);
      ClaimedOne(q, orderedReps[0]);
      Won(client, v, q, alone, ReserveNBest, start, log, r, orderedReps[0], h, h2, rounds, before);
      return orderedReps[0], rounds, communications, missed, log + [r.(claimed := orderedReps[0])];
    }
    ClaimedNobody(q, claims);
    Lost(client, v, q, alone, ReserveNBest, start, log, rounds, communications);
    winner := NO_GUID;
  }

  lemma OneDrawn(v: View, q: Request, picked: seq<Guid>)
    requires Biddable(v, q) && |picked| == 1 && multiset(picked) <= multiset(q.repGuids)
    ensures picked[0] in Elements(q.repGuids)
  {
    Drawn(v, q, picked);
    assert picked[0] in Elements(picked);
  }

  /** Needs a representative to draw: the program indexes the drawn list without looking. */
  method RandomAuction(client: InprocessClient, q: Request)
    returns (winner: Guid, rounds: int, communications: int, missed: nat, ghost log: seq<Round>)
    requires client.Valid() && Biddable(client.pool, q) && q.repGuids != []
    modifies client`pool, client`history, client`claims
    ensures client.Valid() && Settled(old(client.pool), client.pool, q, winner, client.quiet) && missed == 0
    ensures Told(Random, q, log, client.history, |old(client.history)| - 1, client.Timely(), winner, rounds, communications)
    ensures client.claims == old(client.claims) + ClaimsOf(q, winner)
  {
    hide *;
    ghost var v, claims, alone := client.pool, client.claims, false;
    rounds, communications, missed, log := 1, 0, 0, [];
    WhoScoresFirst();
    ghost var start := Opened(client, q, alone, Random);
    while rounds <= q.rules.maxRounds
      invariant Open(client, v, q, alone, Random, start, log, rounds, communications) && missed == 0
      invariant 1 <= rounds && (rounds == 1 || rounds <= q.rules.maxRounds + 1)
      invariant client.claims == claims
      decreases q.rules.maxRounds - rounds
    {
      ghost var before := communications;
      ghost var h := RoundBegins(client, v, q, alone, Random, start, log, rounds, before);
      var picked := RandomSubsetByCount(q.repGuids, 1);
      OneDrawn(v, q, picked);
      ghost var drawn, h1 := {picked[0]}, client.history;
      NothingInsincere(h1, |h| - 1, client.Timely(), q.instance);
      var results := AskToReserve(client, q, v, {picked[0]});
      OneAnswer(results, picked[0]);
      communications := communications + 1;
      ghost var h2 := client.history;
      HoldersNow(client, v, q, Okays(results));
      NothingInsincere(h2, |h2| - 1, client.Timely(), q.instance);
      ghost var r := Round(drawn, [], drawn, results, [], NO_GUID, |h| - 1, |h1| - 1, |h2| - 1);
      Witness(r, q.instance, h, h1, h2, h2, client.Timely());
      if results[0].error != NoError {
        RandomPlays(q, r, picked[0]);
        NextRound(client, v, q, alone, Random, start, log, r, h, h2, rounds, before);
        rounds, log := rounds + 1, log + [r];
        continue;
      }
      missed := ClaimWinner(client, q, v, {picked[0]}, picked[0]);
      communications := communications + 1;
      RandomPlays(q, r.(claimed := picked[0]), picked[0]);
      ClaimedOne(q, picked[0]);
      Won(client, v, q, alone, Random, start, log, r, picked[0], h, h2, rounds, before);
      return picked[0], rounds, communications, missed, log + [r.(claimed := picked[0])];
    }
    ClaimedNobody(q, claims);
    Lost(client, v, q, alone, Random, start, log, rounds, communications);
    winner := NO_GUID;
  }

  lemma RandomPlays(q: Request, r: Round, g: Guid)
    requires r.drawn == {g} <= Elements(q.repGuids) && r.scores == [] && r.asked == r.drawn && r.second == []
    requires Answers(r.reserved, r.asked) && r.reserved != []
    requires if r.claimed == NO_GUID then r.reserved[0].error != NoError else r.claimed == g && r.reserved[0].error == NoError
    ensures Plays(Random, q, r)
    ensures RoundCost(Random, r) == 1 + if r.claimed == NO_GUID then 0 else 1
  {
    hide Answers, Lowest, Undercut, Okays;
    OneAnswer(r.reserved, g);
    if r.claimed != NO_GUID {
      AloneIsLowest(r.reserved, g);
    }
  }

  /** The most messages that a round takes that claims nobody, and one that does. */
  function MostInVain(algorithm: Algorithm, bidders: int): int {
    match algorithm
    case AllRescore => 2 * bidders + 1
    case AllReserve => bidders
    case PickBest => bidders + 1
    case ReserveNBest => bidders + 5
    case Random => 1
  }

  function MostInAll(algorithm: Algorithm, bidders: int): int {
    match algorithm
    case AllRescore => 2 * bidders + 1
    case AllReserve => 2 * bidders
    case PickBest => bidders + 2
    case ReserveNBest => bidders + 10
    case Random => 2
  }

  lemma SmallerThan(s: set<Guid>, t: set<Guid>)
    requires s <= t
    ensures |s| <= |t| && (s != {} ==> |t - s| < |t|)
  {
    assert t == s + (t - s);
  }

  lemma RoundMessages(algorithm: Algorithm, q: Request, r: Round)
    requires Plays(algorithm, q, r)
    ensures RoundCost(algorithm, r) <= if r.claimed == NO_GUID then MostInVain(algorithm, q.Bidders()) else MostInAll(algorithm, q.Bidders())
  {
    hide Request.Bidders, Lowest, Undercut;
    OkaysAsked(r.reserved, r.asked);
    SmallerThan(Okays(r.reserved), r.asked);
    if ScoresFirst(algorithm) {
      OkaysAsked(r.scores, r.drawn);
      SmallerThan(r.asked, r.drawn);
    }
    hide Okays, Answers;
    if algorithm == AllRescore && r.asked != {} {
      AnswerCount(r.second, r.drawn - r.asked);
    }
  }

  /** With at most so many messages in each failed round, and in the last one. */
  lemma {:induction false} MessagesBounded(algorithm: Algorithm, q: Request, log: seq<Round>)
    requires forall k :: 0 <= k < |log| ==> Plays(algorithm, q, log[k])
    requires forall k :: 0 <= k < |log| - 1 ==> log[k].claimed == NO_GUID
    ensures var winner := if log == [] then NO_GUID else log[|log| - 1].claimed;
            var each := MostInVain(algorithm, q.Bidders());
            Cost(algorithm, log) <= if winner == NO_GUID then |log| * each
                                    else (|log| - 1) * each + MostInAll(algorithm, q.Bidders())
  {
    hide Plays, RoundCost, MostInVain, MostInAll, Request.Bidders;
    if log != [] {
      var n := |log| - 1;
      RoundMessages(algorithm, q, log[n]);
      MessagesBounded(algorithm, q, log[..n]);
      OneMoreRound(n, MostInVain(algorithm, q.Bidders()));
    }
  }

  lemma OneMoreRound(n: nat, each: int)
    ensures (n + 1) * each == n * each + each
  {}

  datatype AuctionResult = AuctionResult(instance: Instance, winner: Guid, numRounds: int, numCommunications: int)

  /**
   * Every algorithm settles the auction and reports its rounds and messages as they were; all but the random
   * pick are greedy when they run alone.
   */
  method Auction(client: InprocessClient, algorithm: Algorithm, q: Request)
    returns (result: AuctionResult, ghost log: seq<Round>)
    requires client.Valid() && Biddable(client.pool, q) && q.Bidders() >= 0
    requires algorithm == Random ==> q.repGuids != []
    modifies client`pool, client`history, client`claims
    ensures client.Valid() && result.instance == q.instance
    ensures Settled(old(client.pool), client.pool, q, result.winner, client.quiet)
    ensures Told(algorithm, q, log, client.history, |old(client.history)| - 1, client.Timely(),
                 result.winner, result.numRounds, result.numCommunications)
    ensures algorithm != Random && Alone(client) && q.rules.maxRounds >= 1 ==> GreedyDraw(old(client.pool), q, result.winner)
    ensures algorithm != Random && Alone(client) && q.rules.maxRounds >= 1 && q.rules.maxBiddingPool >= 1.0 ==>
              Greedy(old(client.pool), Elements(q.repGuids), q.instance, result.winner)
    ensures client.claims == old(client.claims) + ClaimsOf(q, result.winner)
  {
    hide Biddable, Settled, Told, Greedy, GreedyDraw, Alone, Rep.Valid;
    var winner, rounds, communications, missed;
    match algorithm {
      case AllRescore => winner, rounds, communications, missed, log := AllRescoreAuction(client, q);
      case AllReserve => winner, rounds, communications, missed, log := AllReserveAuction(client, q);
      case PickBest => winner, rounds, communications, missed, log := PickBestAuction(client, q);
      case ReserveNBest => winner, rounds, communications, missed, log := ReserveNBestAuction(client, q);
      case Random => winner, rounds, communications, missed, log := RandomAuction(client, q);
    }
    result := AuctionResult(q.instance, winner, rounds, communications);
  }
}
