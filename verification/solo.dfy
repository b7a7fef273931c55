/**
 * One auction in the step system, with the whole pool to itself and no timeouts: it is greedy, and it is
 * over after one round (package auctioneer).
 */
module Solo {
  import opened Types
  import opened Pool
  import opened Auctioneer
  import opened Client
  import opened System
  import Decisions

  /** One auction that draws everybody, is not the random one, and has a round and a permit. */
  ghost predicate Alone(c: Config, s: State) {
    && |s.bids| == 1 && s.bids[0].algorithm != Random
    && c.bidders == |s.pool.Keys| && c.maxRounds >= 1 && c.maxConcurrent >= 1
  }

  /** No representative is slow. */
  ghost predicate OnTime(acts: seq<Action>) {
    forall k :: 0 <= k < |acts| && acts[k].Ask? ==> !acts[k].timedOut
  }

  /** The answers are those of the pool as it was at first. */
  ghost predicate AsAtFirst(v: View, i: Instance, got: System.Answers) {
    forall g :: g in got ==> g in v && got[g] == AnswerOf(v[g], i, false)
  }

  ghost predicate HoldsABest(v: View, i: Instance, asked: set<Guid>)
    requires ValidView(v)
  {
    exists b :: b in asked && Best(v, v.Keys, i, b)
  }

  /** What each phase knows of the pool `v` in which the auction began. */
  ghost predicate PhaseKnows(v: View, b: Bid, phase: Phase)
    requires ValidView(v)
  {
    var i := b.instance;
    match phase
    case Picking => true
    case Scoring(bidders, got) => bidders == v.Keys && AsAtFirst(v, i, got) && ScoresFirst(b.algorithm)
    case Reserving(bidders, asked, got) =>
      && bidders == v.Keys && asked <= v.Keys && AsAtFirst(v, i, got)
      && (if ScoresFirst(b.algorithm) then HoldsABest(v, i, asked) && (b.algorithm == AllRescore ==> |asked| == 1)
          else asked == v.Keys)
    case Rescoring(asked, winner, recast, got) =>
      && Best(v, v.Keys, i, winner) && asked == v.Keys - {winner}
      && recast == AnswerOf(v[winner], i, false) && AsAtFirst(v, i, got)
    case Claiming(winner, _) => Best(v, v.Keys, i, winner)
    case Releasing(_, keep) => Best(v, v.Keys, i, keep)
    case Finished(winner) => Greedy(v, v.Keys, i, winner)
  }

  /** A second round only for want of room. */
  ghost predicate Knows(v: View, b: Bid)
    requires ValidView(v)
  {
    match b.stage
    case Waiting => true
    case Running(round, phase) =>
      round >= 1 && (round > 1 ==> NoRoom(v, v.Keys, b.instance.resources)) && PhaseKnows(v, b, phase)
    case Delivered(winner) => Greedy(v, v.Keys, b.instance, winner)
    case Exited(winner) => Greedy(v, v.Keys, b.instance, winner)
  }

  /** Where the auction holds nothing, a representative is as it was at first. */
  lemma Untouched(c: Config, v: View, s: State, g: Guid)
    requires Inv(c, v, s) && |s.bids| == 1 && g in s.pool && g !in HeldBy(s.bids[0].stage)
    requires Fresh(v, s.bids[0].instance.instanceGuid)
    ensures s.pool[g] == v[g]
  {
    hide StagesOk, ValidView, ResultsOk, HeldBy, Active;
    var b := s.bids[0];
    forall guid ensures s.pool[g].Holding(guid) == v[g].Holding(guid) {
      if guid == b.instance.instanceGuid {
        assert s.pool[g].Holding(guid) == None;
      } else {
        assert !Auctioned(s.bids, guid);
      }
    }
    SameHoldings(s.pool[g], v[g]);
  }

  lemma AnswerIs(v: View, i: Instance, g: Guid)
    requires ValidView(v) && g in v
    ensures AnswerOf(v[g], i, false) == if v[g].HasRoom(i.resources) then Some(v[g].Score(i.appGuid)) else None
    ensures v[g].PositiveTotals()
  {
    hide Rep.HasRoom, Rep.Score;
  }

  lemma NobodyHasRoom(v: View, i: Instance, got: System.Answers)
    requires ValidView(v) && AsAtFirst(v, i, got) && got.Keys == v.Keys && Okay(got) == {}
    ensures NoRoom(v, v.Keys, i.resources)
  {
    hide Rep.HasRoom, Rep.Score, ValidView;
    forall g | g in v ensures !v[g].HasRoom(i.resources) {
      AnswerIs(v, i, g);
      assert g in got.Keys && g !in Okay(got);
    }
  }

  /** The lowest of the answers of all, or of some among whom is a best representative, is a best one. */
  lemma LowestIsBest(v: View, i: Instance, got: System.Answers, w: Guid, b: Guid)
    requires ValidView(v) && AsAtFirst(v, i, got) && w in Okay(got)
    requires forall g :: g in Okay(got) ==> got[w].value <= got[g].value
    requires got.Keys == v.Keys || (b in got && Best(v, v.Keys, i, b))
    ensures Best(v, v.Keys, i, w)
  {
    hide Rep.HasRoom, Rep.Score, ValidView;
    AnswerIs(v, i, w);
    forall g | g in v && v[g].HasRoom(i.resources)
      ensures v[g].PositiveTotals() && v[w].Score(i.appGuid) <= v[g].Score(i.appGuid)
    {
      AnswerIs(v, i, g);
      if got.Keys == v.Keys {
        assert g in got.Keys && g in Okay(got);
      } else {
        AnswerIs(v, i, b);
        assert b in Okay(got);
      }
    }
  }

  /** Among the cheapest few of all answers there is a best representative. */
  lemma ShortlistHasBest(v: View, i: Instance, got: System.Answers, chosen: set<Guid>, n: nat)
    requires ValidView(v) && AsAtFirst(v, i, got) && got.Keys == v.Keys && Okay(got) != {}
    requires Cheapest(chosen, got, n) && n >= 1
    ensures HoldsABest(v, i, chosen) && chosen <= v.Keys
  {
    hide Best, AsAtFirst, ValidView;
    assert chosen != {};
    var w := Minimum(chosen, got);
    forall g | g in Okay(got) ensures got[w].value <= got[g].value {
      if g !in chosen {
        assert g in Okay(got) - chosen;
      }
    }
    LowestIsBest(v, i, got, w, w);
  }

  /** Whoever is drawn, it is everybody. */
  lemma EverybodyDrawn(s: set<Guid>, t: set<Guid>)
    requires s <= t && |s| == |t|
    ensures s == t
  {
    assert t == s + (t - s);
  }

  lemma BeginsKnowing(c: Config, v: View, b: Bid, round: int)
    requires ValidView(v) && round >= 1 && (round > 1 ==> NoRoom(v, v.Keys, b.instance.resources)) && c.maxRounds >= 1
    ensures Knows(v, b.(stage := Begin(c, round)))
  {}

  lemma OneMoreAnswer(v: View, i: Instance, got: System.Answers, g: Guid)
    requires AsAtFirst(v, i, got) && g in v
    ensures AsAtFirst(v, i, got[g := AnswerOf(v[g], i, false)])
  {}

  /** Whoever is asked has not been told to reserve before. */
  lemma AskedOfTheUntouched(c: Config, s: State, act: Action)
    requires Enabled(c, s, act) && act.Ask? && |s.bids| == 1
    requires s.bids[0].stage.phase.Rescoring? ==> s.bids[0].stage.phase.winner !in s.bids[0].stage.phase.asked
    ensures act.bid == 0 && act.rep in s.pool && act.rep !in HeldBy(s.bids[0].stage)
  {}

  lemma AskKnows(c: Config, v: View, s: State, act: Action)
    requires Inv(c, v, s) && |s.bids| == 1 && Fresh(v, s.bids[0].instance.instanceGuid) && ValidView(v)
    requires Enabled(c, s, act) && act.Ask? && !act.timedOut && Knows(v, s.bids[0])
    ensures act.bid == 0 && Knows(v, s.bids[0].(stage := NextStage(c, s, act)))
  {
    hide Inv, Fresh, ValidView, AnswerOf, AsAtFirst, Best, NoRoom, HoldsABest;
    var b := s.bids[0];
    AskedOfTheUntouched(c, s, act);
    Untouched(c, v, s, act.rep);
    SameKeys(c, v, s);
    OneMoreAnswer(v, b.instance, b.stage.phase.got, act.rep);
  }

  lemma SameKeys(c: Config, v: View, s: State)
    requires Inv(c, v, s)
    ensures s.pool.Keys == v.Keys && NO_GUID !in v
  {
    NoGuid(s.pool);
  }

  /** The next phase of the same round. */
  lemma GoesOnKnowing(v: View, b: Bid, phase: Phase)
    requires ValidView(v) && Knows(v, b) && b.stage.Running? && PhaseKnows(v, b, phase)
    ensures Knows(v, b.(stage := Running(b.stage.round, phase)))
  {
    hide Best, NoRoom, ValidView, AsAtFirst, HoldsABest, Greedy;
  }

  lemma NobodyCouldSoFar(c: Config, v: View, b: Bid)
    requires ValidView(v) && Knows(v, b) && b.stage.Running? && NoRoom(v, v.Keys, b.instance.resources) && c.maxRounds >= 1
    ensures Knows(v, b.(stage := Begin(c, b.stage.round + 1)))
  {
    BeginsKnowing(c, v, b, b.stage.round + 1);
  }

  lemma ScoringKnows(c: Config, v: View, b: Bid, chosen: set<Guid>, best: Guid)
    requires ValidView(v) && Knows(v, b) && b.stage.Running? && b.stage.phase.Scoring? && c.maxRounds >= 1
    requires b.stage.phase.got.Keys == b.stage.phase.bidders
    requires Cheapest(chosen, b.stage.phase.got, if b.algorithm == ReserveNBest then 5 else 1)
    ensures Knows(v, b.(stage := Settle(c, b.algorithm, b.stage.round, b.stage.phase, chosen, best)))
  {
    var got, n := b.stage.phase.got, if b.algorithm == ReserveNBest then 5 else 1;
    ScoringFacts(v, b);
    hide Knows, PhaseKnows, Cheapest, Okay, HoldsABest, NoRoom, ValidView, AsAtFirst;
    if Okay(got) == {} {
      NobodyHasRoom(v, b.instance, got);
      NobodyCouldSoFar(c, v, b);
    } else {
      ShortlistHasBest(v, b.instance, got, chosen, n);
      ShortlistSize(chosen, got, n);
      ReservingIsKnown(v, b, chosen);
      GoesOnKnowing(v, b, Reserving(b.stage.phase.bidders, chosen, map[]));
    }
  }

  lemma ScoringFacts(v: View, b: Bid)
    requires ValidView(v) && Knows(v, b) && b.stage.Running? && b.stage.phase.Scoring?
    ensures b.stage.phase.bidders == v.Keys && AsAtFirst(v, b.instance, b.stage.phase.got) && ScoresFirst(b.algorithm)
  {
    hide AsAtFirst, NoRoom, ValidView;
  }

  lemma ReservingIsKnown(v: View, b: Bid, chosen: set<Guid>)
    requires ValidView(v) && ScoresFirst(b.algorithm) && HoldsABest(v, b.instance, chosen) && chosen <= v.Keys
    requires b.algorithm == AllRescore ==> |chosen| == 1
    ensures PhaseKnows(v, b, Reserving(v.Keys, chosen, map[]))
  {
    NothingYet(v, b.instance);
    hide HoldsABest, AsAtFirst, ValidView;
  }

  lemma ShortlistSize(chosen: set<Guid>, got: System.Answers, n: nat)
    requires Cheapest(chosen, got, n) && Okay(got) != {}
    ensures n == 1 ==> |chosen| == 1
  {}

  lemma ReservingKnows(c: Config, v: View, b: Bid, chosen: set<Guid>, best: Guid)
    requires ValidView(v) && Knows(v, b) && b.stage.Running? && b.stage.phase.Reserving? && c.maxRounds >= 1
    requires b.stage.phase.got.Keys == b.stage.phase.asked
    requires if b.algorithm == AllRescore then b.stage.phase.asked == {best}
             else Okay(b.stage.phase.got) != {} ==> Cheapest({best}, b.stage.phase.got, 1)
    ensures Knows(v, b.(stage := Settle(c, b.algorithm, b.stage.round, b.stage.phase, chosen, best)))
  {
    var asked, got, i := b.stage.phase.asked, b.stage.phase.got, b.instance;
    ReservingFacts(v, b);
    hide Knows, PhaseKnows, Cheapest, Okay, HoldsABest, NoRoom, ValidView, AsAtFirst, Best;
    if b.algorithm == AllRescore {
      OnlyIsBest(v, i, asked, best);
      RescoringIsKnown(v, b, best, got);
      GoesOnKnowing(v, b, Rescoring(v.Keys - {best}, best, got[best], map[]));
    } else if Okay(got) == {} {
      if ScoresFirst(b.algorithm) {
        SomebodyCan(v, i, got, asked);
      } else {
        NobodyHasRoom(v, i, got);
        NobodyCouldSoFar(c, v, b);
      }
    } else {
      Decisions.CheapestOne(best, got);
      CheapestIsBest(v, b, best);
      GoesOnKnowing(v, b, Claiming(best, Okay(got) - {best}));
    }
  }

  lemma ReservingFacts(v: View, b: Bid)
    requires ValidView(v) && Knows(v, b) && b.stage.Running? && b.stage.phase.Reserving?
    ensures var phase := b.stage.phase;
            && phase.bidders == v.Keys && AsAtFirst(v, b.instance, phase.got)
            && (if ScoresFirst(b.algorithm) then HoldsABest(v, b.instance, phase.asked) else phase.asked == v.Keys)
  {
    hide AsAtFirst, NoRoom, ValidView, HoldsABest;
  }

  lemma OnlyIsBest(v: View, i: Instance, asked: set<Guid>, best: Guid)
    requires ValidView(v) && HoldsABest(v, i, asked) && asked == {best}
    ensures Best(v, v.Keys, i, best)
  {}

  lemma RescoringIsKnown(v: View, b: Bid, best: Guid, got: System.Answers)
    requires ValidView(v) && Best(v, v.Keys, b.instance, best) && AsAtFirst(v, b.instance, got) && best in got
    ensures PhaseKnows(v, b, Rescoring(v.Keys - {best}, best, got[best], map[]))
  {
    hide ValidView, AnswerOf;
  }

  lemma CheapestIsBest(v: View, b: Bid, best: Guid)
    requires ValidView(v) && b.stage.Running? && b.stage.phase.Reserving?
    requires var phase := b.stage.phase;
             && AsAtFirst(v, b.instance, phase.got) && phase.got.Keys == phase.asked
             && best in Okay(phase.got) && (forall o :: o in Okay(phase.got) ==> phase.got[best].value <= phase.got[o].value)
             && (if ScoresFirst(b.algorithm) then HoldsABest(v, b.instance, phase.asked) else phase.asked == v.Keys)
    ensures Best(v, v.Keys, b.instance, best)
    ensures forall losers :: PhaseKnows(v, b, Claiming(best, losers))
  {
    hide Okay, ValidView, Best, AsAtFirst;
    if ScoresFirst(b.algorithm) {
      var w :| w in b.stage.phase.asked && Best(v, v.Keys, b.instance, w);
      LowestIsBest(v, b.instance, b.stage.phase.got, best, w);
    } else {
      LowestIsBest(v, b.instance, b.stage.phase.got, best, best);
    }
  }

  lemma NothingYet(v: View, i: Instance)
    ensures AsAtFirst(v, i, map[])
  {}

  /** A best representative, once told to reserve, can. */
  lemma SomebodyCan(v: View, i: Instance, got: System.Answers, asked: set<Guid>)
    requires ValidView(v) && AsAtFirst(v, i, got) && got.Keys == asked && HoldsABest(v, i, asked)
    ensures Okay(got) != {}
  {
    hide Best, ValidView;
    var w :| w in asked && Best(v, v.Keys, i, w);
    BestHasRoomHere(v, i, w);
    AnswerIs(v, i, w);
    assert w in got.Keys;
    assert w in Okay(got);
  }

  lemma BestHasRoomHere(v: View, i: Instance, w: Guid)
    requires ValidView(v) && Best(v, v.Keys, i, w)
    ensures w in v && v[w].HasRoom(i.resources)
  {}

  /** Nobody's second answer is below the winner's. */
  lemma NoneIsLower(v: View, i: Instance, got: System.Answers, w: Guid)
    requires ValidView(v) && AsAtFirst(v, i, got) && Best(v, v.Keys, i, w)
    ensures AnswerOf(v[w], i, false).Some?
    ensures forall g :: g in Okay(got) ==> AnswerOf(v[w], i, false).value <= got[g].value
  {
    hide Rep.HasRoom, Rep.Score, ValidView;
    AnswerIs(v, i, w);
    forall g | g in Okay(got) ensures AnswerOf(v[w], i, false).value <= got[g].value {
      AnswerIs(v, i, g);
    }
  }

  lemma RescoringKnows(c: Config, v: View, b: Bid, chosen: set<Guid>, best: Guid)
    requires ValidView(v) && Knows(v, b) && b.stage.Running? && b.stage.phase.Rescoring?
    ensures Knows(v, b.(stage := Settle(c, b.algorithm, b.stage.round, b.stage.phase, chosen, best)))
  {
    NoneIsLower(v, b.instance, b.stage.phase.got, b.stage.phase.winner);
    hide Okay, Best, NoRoom, AnswerOf, ValidView;
  }

  lemma DecideKnows(c: Config, v: View, s: State, act: Action)
    requires Inv(c, v, s) && |s.bids| == 1 && ValidView(v) && c.maxRounds >= 1
    requires Enabled(c, s, act) && act.Decide? && Knows(v, s.bids[0])
    ensures act.bid == 0 && Knows(v, s.bids[0].(stage := NextStage(c, s, act)))
  {
    BidInRange(c, s, act);
    StageIsOk(c, v, s, 0);
    DecideStage(c, s, act);
    DecideGuards(c, s, act);
    hide Inv, Enabled, NextStage, Settle, Knows, Cheapest, Okay, StageOk, ValidView;
    var b := s.bids[0];
    if b.stage.phase.Scoring? {
      ScoringKnows(c, v, b, act.chosen, act.best);
    } else if b.stage.phase.Reserving? {
      ReservingKnows(c, v, b, act.chosen, act.best);
    } else {
      RescoringKnows(c, v, b, act.chosen, act.best);
    }
  }

  lemma StageIsOk(c: Config, v: View, s: State, a: nat)
    requires Inv(c, v, s) && a < |s.bids|
    ensures StageOk(c, s.bids[a].stage, s.bids[a].algorithm, s.pool.Keys)
  {
    hide StageOk;
  }

  lemma DrawKnows(c: Config, v: View, s: State, act: Action)
    requires ValidView(v) && s.pool.Keys == v.Keys && Alone(c, s) && Enabled(c, s, act) && act.Draw? && Knows(v, s.bids[0])
    ensures act.bid == 0 && Knows(v, s.bids[0].(stage := NextStage(c, s, act)))
  {
    var b := s.bids[0];
    EverybodyDrawn(act.chosen, v.Keys);
    NothingYet(v, b.instance);
    hide ValidView, AsAtFirst, Best, NoRoom, Knows;
    assert PhaseKnows(v, b, AfterDraw(b.algorithm, v.Keys));
    GoesOnKnowing(v, b, AfterDraw(b.algorithm, v.Keys));
  }

  lemma ClaimKnows(c: Config, v: View, s: State, act: Action)
    requires ValidView(v) && |s.bids| == 1 && Enabled(c, s, act) && act.Claim? && Knows(v, s.bids[0])
    ensures act.bid == 0 && Knows(v, s.bids[0].(stage := NextStage(c, s, act)))
  {
    var b := s.bids[0];
    BestIsKnown(v, b.instance, b.stage.phase.winner);
    hide ValidView, Best, NoRoom, Greedy;
  }

  lemma ReleaseKnows(c: Config, v: View, s: State, act: Action)
    requires ValidView(v) && |s.bids| == 1 && Enabled(c, s, act) && act.Release? && Knows(v, s.bids[0])
    ensures act.bid == 0 && Knows(v, s.bids[0].(stage := NextStage(c, s, act)))
  {
    var b := s.bids[0];
    BestIsKnown(v, b.instance, b.stage.phase.keep);
    hide ValidView, Best, NoRoom, Greedy;
  }

  lemma OtherKnows(c: Config, v: View, s: State, act: Action)
    requires ValidView(v) && s.pool.Keys == v.Keys && Alone(c, s)
    requires Enabled(c, s, act) && !act.Ask? && !act.Decide? && Knows(v, s.bids[0])
    ensures act.bid == 0 && Knows(v, s.bids[0].(stage := NextStage(c, s, act)))
  {
    match act
    case Acquire(_) => BeginsKnowing(c, v, s.bids[0], 1);
    case Draw(_, _) => DrawKnows(c, v, s, act);
    case Claim(_) => ClaimKnows(c, v, s, act);
    case Release(_, _) => ReleaseKnows(c, v, s, act);
    case _ => hide ValidView, Greedy, NoRoom, Best;
  }

  /** A best representative is a greedy outcome, and has a name. */
  lemma BestIsKnown(v: View, i: Instance, w: Guid)
    requires ValidView(v)
    ensures Best(v, v.Keys, i, w) ==> w != NO_GUID && Greedy(v, v.Keys, i, w)
  {}

  lemma {:induction false} EveryStateKnows(c: Config, states: seq<State>, acts: seq<Action>, k: nat)
    requires Run(c, states, acts) && Initial(states[0]) && Alone(c, states[0]) && OnTime(acts) && k <= |acts|
    ensures |states[k].bids| == 1 && states[k].bids[0].instance == states[0].bids[0].instance
    ensures ValidView(states[0].pool) && Knows(states[0].pool, states[k].bids[0])
    decreases k
  {
    hide NextStage, NextPool, NextMissed, Enabled, Knows, Inv, ValidView, OnTime;
    var v := states[0].pool;
    FirstFacts(states[0]);
    SameInstances(c, states, acts, k);
    if k > 0 {
      EveryStateKnows(c, states, acts, k - 1);
      EveryReachableState(c, states, acts, k - 1);
      SameInstances(c, states, acts, k - 1);
      var s, act := states[k - 1], acts[k - 1];
      SameKeys(c, v, s);
      if act.Ask? {
        InTime(acts, k - 1);
        AskKnows(c, v, s, act);
      } else if act.Decide? {
        DecideKnows(c, v, s, act);
      } else {
        OtherKnows(c, v, s, act);
      }
    }
  }

  lemma InTime(acts: seq<Action>, k: nat)
    requires OnTime(acts) && k < |acts| && acts[k].Ask?
    ensures !acts[k].timedOut
  {}

  lemma FirstFacts(s: State)
    requires Initial(s) && |s.bids| == 1
    ensures ValidView(s.pool) && Fresh(s.pool, s.bids[0].instance.instanceGuid) && Knows(s.pool, s.bids[0])
  {
    hide ValidView, Fresh;
  }

  /** No round but the first. */
  ghost predicate OneRound(states: seq<State>) {
    forall k :: 0 <= k < |states| && |states[k].bids| == 1 && states[k].bids[0].stage.Running? ==> states[k].bids[0].stage.round == 1
  }

  /**
   * However its steps are scheduled and its ties are broken: an auction that has the pool to itself ends
   * with the one result that greed wants, over the whole pool; its instance goes to a best representative,
   * in the first round, or nowhere, and then nobody has room.
   */
  lemma SoloIsGreedy(c: Config, states: seq<State>, acts: seq<Action>) returns (winner: Guid)
    requires Run(c, states, acts) && Initial(states[0]) && Alone(c, states[0]) && OnTime(acts)
    requires forall act :: !Enabled(c, states[|acts|], act)
    ensures ValidView(states[0].pool) && states[|acts|].results == [Outcome(0, winner)]
    ensures var v, i := states[0].pool, states[0].bids[0].instance;
            && Greedy(v, v.Keys, i, winner) && states[|acts|].pool == Place(v, winner, i)
    ensures winner != NO_GUID ==> OneRound(states)
  {
    hide Enabled, Next, Inv, Initial, Knows, OnTime, ValidView, Greedy, Best, NoRoom, PlaceAll, OneResultEach;
    hide AllDone, Place;
    var v, n := states[0].pool, |acts|;
    var s := states[n];
    RunnableAlone(c, states[0]);
    CompleteRunDelivers(c, states, acts);
    EveryStateKnows(c, states, acts, n);
    EveryReachableState(c, states, acts, n);
    winner := TheResult(c, v, s);
    GreedyAtLast(v, s.bids[0], winner);
    PlacedAlone(v, s.bids, winner);
    if winner != NO_GUID {
      forall k | 0 <= k < |states| && |states[k].bids| == 1 && states[k].bids[0].stage.Running?
        ensures states[k].bids[0].stage.round == 1
      {
        EveryStateKnows(c, states, acts, k);
        NoSecondRound(v, states[k].bids[0], winner);
      }
    }
  }

  lemma RunnableAlone(c: Config, s: State)
    requires Alone(c, s)
    ensures Runnable(c, s)
  {}

  lemma TheResult(c: Config, v: View, s: State) returns (winner: Guid)
    requires Inv(c, v, s) && OneResultEach(s) && |s.bids| == 1
    ensures s.results == [Outcome(0, winner)] && Done(s.bids[0].stage) && s.bids[0].stage.winner == winner
  {
    hide StagesOk, Owned, OthersKept, ValidView;
    winner := s.results[0].winner;
    assert s.results[0].bid == 0;
  }

  lemma GreedyAtLast(v: View, b: Bid, winner: Guid)
    requires ValidView(v) && Knows(v, b) && Done(b.stage) && b.stage.winner == winner
    ensures Greedy(v, v.Keys, b.instance, winner)
  {}

  lemma PlacedAlone(v: View, bids: seq<Bid>, winner: Guid)
    requires |bids| == 1 && Done(bids[0].stage) && bids[0].stage.winner == winner
    ensures PlaceAll(v, bids) == Place(v, winner, bids[0].instance)
  {
    assert bids[..0] == [];
    assert PlaceAll(v, bids[..0]) == v;
  }

  lemma NoSecondRound(v: View, b: Bid, winner: Guid)
    requires ValidView(v) && Knows(v, b) && b.stage.Running? && Greedy(v, v.Keys, b.instance, winner) && winner != NO_GUID
    ensures b.stage.round == 1
  {
    BestHasRoom(v, v.Keys, b.instance, winner);
    hide NoRoom;
  }
}
