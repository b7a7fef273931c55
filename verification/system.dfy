/**
 * The whole simulation as a step system: any number of auctions for different instances, started by
 * the distributor under a semaphore, interleaved at every call on a representative
 * (simulation/auctiondistributor/auction_distributor.go and package auctioneer).
 */
module System {
  import opened Types
  import opened Pool
  import opened Auctioneer
  import opened Client

  /** The answers received so far; None is an answer with an error. */
  type Answers = map<Guid, Option<real>>

  datatype Phase =
    | Picking
    | Scoring(bidders: set<Guid>, got: Answers)
    | Reserving(bidders: set<Guid>, asked: set<Guid>, got: Answers)
    | Rescoring(asked: set<Guid>, winner: Guid, recast: Option<real>, got: Answers)
    | Claiming(winner: Guid, losers: set<Guid>)
    | Releasing(todo: set<Guid>, keep: Guid)
    | Finished(winner: Guid)

  /** A goroutine of the distributor: before the semaphore, bidding, past the result channel, gone. */
  datatype Stage = Waiting | Running(round: int, phase: Phase) | Delivered(winner: Guid) | Exited(winner: Guid)

  datatype Bid = Bid(instance: Instance, algorithm: Algorithm, stage: Stage)

  datatype Outcome = Outcome(bid: nat, winner: Guid)

  datatype State = State(pool: View, bids: seq<Bid>, tokens: nat, results: seq<Outcome>, missed: nat)

  /** Rounds per auction, representatives asked per round, capacity of the semaphore. */
  datatype Config = Config(maxRounds: int, bidders: nat, maxConcurrent: nat)

  datatype Action =
    | Acquire(bid: nat)
    | Draw(bid: nat, chosen: set<Guid>)
    | Ask(bid: nat, rep: Guid, timedOut: bool)
    | Decide(bid: nat, chosen: set<Guid>, best: Guid)
    | Claim(bid: nat)
    | Release(bid: nat, rep: Guid)
    | Deliver(bid: nat)
    | Leave(bid: nat)

  ghost function Okay(got: Answers): set<Guid> {
    set g | g in got && got[g].Some?
  }

  /** `n` cheapest error-free answers, or all of them: what filter, shuffle, sort and cut may yield. */
  ghost predicate Cheapest(chosen: set<Guid>, got: Answers, n: nat) {
    && chosen <= Okay(got)
    && |chosen| == (if |Okay(got)| < n then |Okay(got)| else n)
    && forall w, o :: w in chosen && o in Okay(got) - chosen ==> got[w].value <= got[o].value
  }

  /** The representatives on which an auction holds a reservation. */
  ghost function Held(phase: Phase): set<Guid> {
    match phase
    case Picking => {}
    case Scoring(_, _) => {}
    case Reserving(_, _, got) => Okay(got)
    case Rescoring(_, winner, recast, _) => if recast.Some? then {winner} else {}
    case Claiming(winner, losers) => {winner} + losers
    case Releasing(todo, keep) => todo + Only(keep)
    case Finished(winner) => Only(winner)
  }

  ghost function HeldBy(stage: Stage): set<Guid> {
    match stage
    case Waiting => {}
    case Running(_, phase) => Held(phase)
    case Delivered(winner) => Only(winner)
    case Exited(winner) => Only(winner)
  }

  function Begin(c: Config, round: int): Stage {
    Running(round, if round <= c.maxRounds then Picking else Finished(NO_GUID))
  }

  ghost predicate Enabled(c: Config, s: State, act: Action) {
    act.bid < |s.bids| &&
    var b := s.bids[act.bid];
    match act
    case Acquire(_) => b.stage.Waiting? && s.tokens < c.maxConcurrent
    case Draw(_, chosen) =>
      && b.stage.Running? && b.stage.phase.Picking? && chosen <= s.pool.Keys
      && |chosen| == if b.algorithm == Random then 1 else c.bidders
    case Ask(_, g, _) =>
      && b.stage.Running? && g in s.pool
      && (match b.stage.phase
          case Scoring(bidders, got) => g in bidders - got.Keys
          case Reserving(_, asked, got) => g in asked - got.Keys
          case Rescoring(asked, _, _, got) => g in asked - got.Keys
          case _ => false)
    case Decide(_, chosen, best) =>
      && b.stage.Running?
      && (match b.stage.phase
          case Scoring(bidders, got) =>
            got.Keys == bidders && Cheapest(chosen, got, if b.algorithm == ReserveNBest then 5 else 1)
          case Reserving(_, asked, got) =>
            && got.Keys == asked
            && (if b.algorithm == AllRescore then asked == {best} else Okay(got) != {} ==> Cheapest({best}, got, 1))
          case Rescoring(asked, _, _, got) => got.Keys == asked
          case _ => false)
    case Claim(_) => b.stage.Running? && b.stage.phase.Claiming? && b.stage.phase.winner in s.pool
    case Release(_, g) => b.stage.Running? && b.stage.phase.Releasing? && g in b.stage.phase.todo && g in s.pool
    case Deliver(_) => b.stage.Running? && b.stage.phase.Finished? && |s.results| < |s.bids|
    case Leave(_) => b.stage.Delivered? && s.tokens > 0
  }

  /** A representative's answer, and what answering does to it. */
  ghost function AnswerOf(r: Rep, i: Instance, timedOut: bool): Option<real> {
    if !timedOut && r.HasRoom(i.resources) && r.PositiveTotals() then Some(r.Score(i.appGuid)) else None
  }

  ghost function AfterAsk(r: Rep, i: Instance, reserving: bool, answer: Option<real>): Rep {
    if reserving && answer.Some? then r.Reserve(i) else r
  }

  ghost function Receive(phase: Phase, g: Guid, answer: Option<real>): Phase
    requires phase.Scoring? || phase.Reserving? || phase.Rescoring?
  {
    phase.(got := phase.got[g := answer])
  }

  /** The local decision once every answer is in. */
  ghost function Settle(c: Config, algorithm: Algorithm, round: int, phase: Phase, chosen: set<Guid>, best: Guid): Stage
    requires phase.Scoring? || phase.Reserving? || phase.Rescoring?
    requires phase.Reserving? && algorithm == AllRescore ==> best in phase.got
  {
    match phase
    case Scoring(bidders, got) =>
      if Okay(got) == {} then Begin(c, round + 1) else Running(round, Reserving(bidders, chosen, map[]))
    case Reserving(bidders, asked, got) =>
      if algorithm == AllRescore then Running(round, Rescoring(bidders - {best}, best, got[best], map[]))
      else if Okay(got) == {} then Begin(c, round + 1)
      else Running(round, Claiming(best, Okay(got) - {best}))
    case Rescoring(_, winner, recast, got) =>
      if recast.None? then Begin(c, round + 1)
      else if exists g :: g in Okay(got) && got[g].value < recast.value then Running(round, Releasing({winner}, NO_GUID))
      else Running(round, Claiming(winner, {}))
  }

  ghost function AfterDraw(algorithm: Algorithm, chosen: set<Guid>): Phase {
    if algorithm == Random || algorithm == AllReserve then Reserving(chosen, chosen, map[]) else Scoring(chosen, map[])
  }

  function AfterClaim(winner: Guid, losers: set<Guid>): Phase {
    if losers == {} then Finished(winner) else Releasing(losers, winner)
  }

  function AfterRelease(c: Config, round: int, todo: set<Guid>, keep: Guid): Stage {
    if todo != {} then Running(round, Releasing(todo, keep))
    else if keep == NO_GUID then Begin(c, round + 1)
    else Running(round, Finished(keep))
  }

  /** The stage the acting auction moves to. */
  ghost function NextStage(c: Config, s: State, act: Action): Stage
    requires Enabled(c, s, act)
  {
    var b := s.bids[act.bid];
    match act
    case Acquire(_) => Begin(c, 1)
    case Draw(_, chosen) => Running(b.stage.round, AfterDraw(b.algorithm, chosen))
    case Ask(_, g, timedOut) => Running(b.stage.round, Receive(b.stage.phase, g, AnswerOf(s.pool[g], b.instance, timedOut)))
    case Decide(_, chosen, best) => Settle(c, b.algorithm, b.stage.round, b.stage.phase, chosen, best)
    case Claim(_) => Running(b.stage.round, AfterClaim(b.stage.phase.winner, b.stage.phase.losers))
    case Release(_, g) => AfterRelease(c, b.stage.round, b.stage.phase.todo - {g}, b.stage.phase.keep)
    case Deliver(_) => Delivered(b.stage.phase.winner)
    case Leave(_) => Exited(b.stage.winner)
  }

  ghost function NextPool(c: Config, s: State, act: Action): View
    requires Enabled(c, s, act)
  {
    var b := s.bids[act.bid];
    match act
    case Ask(_, g, timedOut) =>
      s.pool[g := AfterAsk(s.pool[g], b.instance, b.stage.phase.Reserving?, AnswerOf(s.pool[g], b.instance, timedOut))]
    case Release(_, g) => s.pool[g := s.pool[g].Release(b.instance.instanceGuid)]
    case _ => s.pool
  }

  /** A claim or release that meets "no reservation" is counted; the program drops such errors. */
  ghost function NextMissed(c: Config, s: State, act: Action): nat
    requires Enabled(c, s, act)
  {
    var b := s.bids[act.bid];
    match act
    case Claim(_) => s.missed + if s.pool[b.stage.phase.winner].Holding(b.instance.instanceGuid).Some? then 0 else 1
    case Release(_, g) => s.missed + if s.pool[g].Holding(b.instance.instanceGuid).Some? then 0 else 1
    case _ => s.missed
  }

  ghost function Next(c: Config, s: State, act: Action): State
    requires Enabled(c, s, act)
  {
    var b := s.bids[act.bid];
    State(NextPool(c, s, act),
          s.bids[act.bid := b.(stage := NextStage(c, s, act))],
          if act.Acquire? then s.tokens + 1 else if act.Leave? then s.tokens - 1 else s.tokens,
          if act.Deliver? then s.results + [Outcome(act.bid, b.stage.phase.winner)] else s.results,
          NextMissed(c, s, act))
  }

  // ---------------------------------------------------------------- the invariant

  ghost predicate PhaseOk(phase: Phase, algorithm: Algorithm, reps: set<Guid>) {
    match phase
    case Picking => true
    case Scoring(bidders, got) => bidders <= reps && got.Keys <= bidders
    case Reserving(bidders, asked, got) =>
      asked <= bidders <= reps && got.Keys <= asked && (algorithm == AllRescore ==> |asked| == 1)
    case Rescoring(asked, winner, _, got) => asked <= reps && winner in reps && got.Keys <= asked
    case Claiming(winner, losers) => winner in reps && losers <= reps && winner !in losers
    case Releasing(todo, keep) => todo <= reps && (keep == NO_GUID || keep in reps) && keep !in todo && todo != {}
    case Finished(winner) => winner == NO_GUID || winner in reps
  }

  ghost predicate StageOk(c: Config, stage: Stage, algorithm: Algorithm, reps: set<Guid>) {
    match stage
    case Waiting => true
    case Running(round, phase) => PhaseOk(phase, algorithm, reps) && (round <= c.maxRounds || phase.Finished?)
    case Delivered(winner) => winner == NO_GUID || winner in reps
    case Exited(winner) => winner == NO_GUID || winner in reps
  }

  ghost predicate StagesOk(c: Config, s: State) {
    forall a :: 0 <= a < |s.bids| ==> StageOk(c, s.bids[a].stage, s.bids[a].algorithm, s.pool.Keys)
  }

  /** A representative holds an auction's instance exactly while that auction has it reserved there. */
  ghost predicate Owned(pool: View, bids: seq<Bid>) {
    forall a, g :: 0 <= a < |bids| && g in pool ==>
      pool[g].Holding(bids[a].instance.instanceGuid) == if g in HeldBy(bids[a].stage) then Some(bids[a].instance) else None
  }

  ghost predicate Auctioned(bids: seq<Bid>, guid: Guid) {
    exists a :: 0 <= a < |bids| && bids[a].instance.instanceGuid == guid
  }

  /** Instances that are not up for auction stay where they were. */
  ghost predicate OthersKept(v0: View, pool: View, bids: seq<Bid>) {
    forall g, guid :: g in pool && g in v0 && !Auctioned(bids, guid) ==> pool[g].Holding(guid) == v0[g].Holding(guid)
  }

  ghost predicate DifferentInstances(bids: seq<Bid>) {
    && (forall a :: 0 <= a < |bids| ==> NonNegative(bids[a].instance.resources))
    && (forall a, b :: 0 <= a < b < |bids| ==> bids[a].instance.instanceGuid != bids[b].instance.instanceGuid)
  }

  predicate Past(stage: Stage) {
    stage.Running? || stage.Delivered?
  }

  /** Auctions past the semaphore that have not left it. */
  function Active(bids: seq<Bid>): nat {
    if bids == [] then 0 else Active(bids[..|bids| - 1]) + if Past(bids[|bids| - 1].stage) then 1 else 0
  }

  ghost predicate Done(stage: Stage) {
    stage.Delivered? || stage.Exited?
  }

  /** One result for every auction that has delivered, with its winner. */
  ghost predicate ResultsOk(s: State) {
    && (forall k :: 0 <= k < |s.results| ==>
          && s.results[k].bid < |s.bids| && Done(s.bids[s.results[k].bid].stage)
          && s.bids[s.results[k].bid].stage.winner == s.results[k].winner)
    && (forall j, k :: 0 <= j < k < |s.results| ==> s.results[j].bid != s.results[k].bid)
    && (forall a :: 0 <= a < |s.bids| && Done(s.bids[a].stage) ==> exists k :: 0 <= k < |s.results| && s.results[k].bid == a)
  }

  ghost predicate Inv(c: Config, v0: View, s: State) {
    && SamePool(v0, s.pool) && ValidView(s.pool) && DifferentInstances(s.bids)
    && StagesOk(c, s) && Owned(s.pool, s.bids) && OthersKept(v0, s.pool, s.bids)
    && s.missed == 0
    && s.tokens == Active(s.bids) <= c.maxConcurrent
    && ResultsOk(s)
  }

  ghost predicate Initial(s: State) {
    && ValidView(s.pool) && DifferentInstances(s.bids)
    && s.tokens == 0 && s.results == [] && s.missed == 0
    && (forall a :: 0 <= a < |s.bids| ==> s.bids[a].stage == Waiting && Fresh(s.pool, s.bids[a].instance.instanceGuid))
  }

  lemma {:induction false} ActiveUpdate(bids: seq<Bid>, a: nat, b: Bid)
    requires a < |bids|
    ensures Active(bids[a := b]) == Active(bids) - (if Past(bids[a].stage) then 1 else 0) + if Past(b.stage) then 1 else 0
  {
    var n := |bids| - 1;
    if a == n {
      assert bids[a := b][..n] == bids[..n];
    } else {
      assert bids[a := b][..n] == bids[..n][a := b];
      ActiveUpdate(bids[..n], a, b);
    }
  }

  lemma {:induction false} NoneActive(bids: seq<Bid>)
    requires forall a :: 0 <= a < |bids| ==> bids[a].stage == Waiting
    ensures Active(bids) == 0
  {
    if bids != [] {
      NoneActive(bids[..|bids| - 1]);
    }
  }

  lemma InitialInv(c: Config, s: State)
    requires Initial(s)
    ensures Inv(c, s.pool, s)
  {
    NoneActive(s.bids);
    forall a, g | 0 <= a < |s.bids| && g in s.pool
      ensures s.pool[g].Holding(s.bids[a].instance.instanceGuid) == None
    {
      assert Fresh(s.pool, s.bids[a].instance.instanceGuid);
    }
  }

  /** What a step does to the reservations of the auction that takes it. */
  ghost function NextHeld(c: Config, s: State, act: Action): set<Guid>
    requires Enabled(c, s, act)
  {
    var b := s.bids[act.bid];
    var held := HeldBy(b.stage);
    match act
    case Ask(_, g, timedOut) =>
      if b.stage.phase.Reserving? && AnswerOf(s.pool[g], b.instance, timedOut).Some? then held + {g} else held
    case Release(_, g) => held - {g}
    case _ => held
  }

  lemma OkayGrows(got: Answers, g: Guid, answer: Option<real>)
    requires g !in got
    ensures Okay(got[g := answer]) == Okay(got) + if answer.Some? then {g} else {}
  {}

  lemma HeldAfterAsk(c: Config, s: State, act: Action)
    requires Enabled(c, s, act) && StagesOk(c, s) && NO_GUID !in s.pool && act.Ask?
    ensures HeldBy(NextStage(c, s, act)) == NextHeld(c, s, act)
    ensures StageOk(c, NextStage(c, s, act), s.bids[act.bid].algorithm, s.pool.Keys)
  {
    hide Settle;
    var b := s.bids[act.bid];
    assert StageOk(c, b.stage, b.algorithm, s.pool.Keys);
    if b.stage.phase.Reserving? {
      OkayGrows(b.stage.phase.got, act.rep, AnswerOf(s.pool[act.rep], b.instance, act.timedOut));
    }
  }

  /** What a decision starts from and leads to, with the sizes that matter. */
  lemma DecideStage(c: Config, s: State, act: Action)
    requires Enabled(c, s, act) && act.Decide? && StageOk(c, s.bids[act.bid].stage, s.bids[act.bid].algorithm, s.pool.Keys)
    ensures var b := s.bids[act.bid];
            && b.stage.Running? && b.stage.round <= c.maxRounds && b.stage == Running(b.stage.round, b.stage.phase)
            && (b.stage.phase.Scoring? || b.stage.phase.Reserving? || b.stage.phase.Rescoring?)
            && (b.stage.phase.Scoring? ==> act.chosen <= s.pool.Keys)
            && (b.stage.phase.Reserving? ==> b.stage.phase.bidders <= s.pool.Keys)
            && (b.stage.phase.Reserving? && b.algorithm == AllRescore ==> act.best in b.stage.phase.got)
            && NextStage(c, s, act) == Settle(c, b.algorithm, b.stage.round, b.stage.phase, act.chosen, act.best)
  {
    hide Settle;
  }

  lemma HeldAfterDecide(c: Config, s: State, act: Action)
    requires Enabled(c, s, act) && StagesOk(c, s) && NO_GUID !in s.pool && act.Decide?
    ensures HeldBy(NextStage(c, s, act)) == NextHeld(c, s, act)
    ensures StageOk(c, NextStage(c, s, act), s.bids[act.bid].algorithm, s.pool.Keys)
  {
    var b, reps := s.bids[act.bid], s.pool.Keys;
    assert StageOk(c, b.stage, b.algorithm, reps);
    DecideStage(c, s, act);
    DecideGuards(c, s, act);
    hide Enabled, NextStage, Settle, Cheapest, StagesOk;
    if b.stage.phase.Scoring? {
      SettleScoring(c, b.algorithm, b.stage.round, b.stage.phase, act.chosen, act.best, reps);
    } else if b.stage.phase.Reserving? {
      SettleReserving(c, b.algorithm, b.stage.round, b.stage.phase, act.chosen, act.best, reps);
    } else {
      SettleRescoring(c, b.algorithm, b.stage.round, b.stage.phase, act.chosen, act.best, reps);
    }
  }

  /** What is known when an auction decides. */
  lemma DecideGuards(c: Config, s: State, act: Action)
    requires Enabled(c, s, act) && act.Decide?
    ensures var b := s.bids[act.bid];
            && (b.stage.phase.Scoring? ==> Cheapest(act.chosen, b.stage.phase.got, if b.algorithm == ReserveNBest then 5 else 1))
            && (b.stage.phase.Scoring? ==> b.stage.phase.got.Keys == b.stage.phase.bidders)
            && (b.stage.phase.Reserving? ==> b.stage.phase.got.Keys == b.stage.phase.asked)
            && (b.stage.phase.Reserving? ==>
                  (if b.algorithm == AllRescore then b.stage.phase.asked == {act.best}
                   else Okay(b.stage.phase.got) != {} ==> Cheapest({act.best}, b.stage.phase.got, 1)))
  {
    hide Cheapest, Okay;
  }

  lemma HeldAfterOther(c: Config, s: State, act: Action)
    requires Enabled(c, s, act) && StagesOk(c, s) && NO_GUID !in s.pool && !act.Ask? && !act.Decide?
    ensures HeldBy(NextStage(c, s, act)) == NextHeld(c, s, act)
    ensures StageOk(c, NextStage(c, s, act), s.bids[act.bid].algorithm, s.pool.Keys)
  {
    hide Settle;
    var b := s.bids[act.bid];
    assert StageOk(c, b.stage, b.algorithm, s.pool.Keys);
  }

  /** The stages change what is held exactly as the representatives do. */
  lemma HeldAfter(c: Config, s: State, act: Action)
    requires Enabled(c, s, act) && StagesOk(c, s) && NO_GUID !in s.pool
    ensures HeldBy(NextStage(c, s, act)) == NextHeld(c, s, act)
    ensures StageOk(c, NextStage(c, s, act), s.bids[act.bid].algorithm, s.pool.Keys)
  {
    hide HeldBy, NextStage, NextHeld, StageOk, StagesOk;
    if act.Ask? {
      HeldAfterAsk(c, s, act);
    } else if act.Decide? {
      HeldAfterDecide(c, s, act);
    } else {
      HeldAfterOther(c, s, act);
    }
  }

  lemma SettleScoring(c: Config, algorithm: Algorithm, round: int, phase: Phase, chosen: set<Guid>, best: Guid,
                      reps: set<Guid>)
    requires phase.Scoring? && Cheapest(chosen, phase.got, if algorithm == ReserveNBest then 5 else 1)
    requires PhaseOk(phase, algorithm, reps) && phase.got.Keys == phase.bidders && round <= c.maxRounds
    ensures HeldBy(Settle(c, algorithm, round, phase, chosen, best)) == {}
    ensures StageOk(c, Settle(c, algorithm, round, phase, chosen, best), algorithm, reps)
  {}

  lemma SettleReserving(c: Config, algorithm: Algorithm, round: int, phase: Phase, chosen: set<Guid>, best: Guid,
                        reps: set<Guid>)
    requires phase.Reserving? && phase.got.Keys == phase.asked && PhaseOk(phase, algorithm, reps) && round <= c.maxRounds
    requires if algorithm == AllRescore then phase.asked == {best} else Okay(phase.got) != {} ==> Cheapest({best}, phase.got, 1)
    ensures HeldBy(Settle(c, algorithm, round, phase, chosen, best)) == Okay(phase.got)
    ensures StageOk(c, Settle(c, algorithm, round, phase, chosen, best), algorithm, reps)
  {
    var got := phase.got;
    OkayWithin(got);
    if algorithm == AllRescore {
      OnlyAnswer(got, best);
      hide Okay, Cheapest;
    } else if Okay(got) != {} {
      CheapestIsOkay(best, got);
      hide Okay, Cheapest;
      assert {best} + (Okay(got) - {best}) == Okay(got);
    } else {
      hide Okay, Cheapest;
    }
  }

  lemma OkayWithin(got: Answers)
    ensures Okay(got) <= got.Keys
  {}

  lemma OnlyAnswer(got: Answers, g: Guid)
    requires got.Keys == {g}
    ensures Okay(got) == if got[g].Some? then {g} else {}
  {
    assert g in got.Keys;
  }

  lemma CheapestIsOkay(g: Guid, got: Answers)
    requires Cheapest({g}, got, 1)
    ensures g in Okay(got)
  {
    assert g in {g};
  }

  lemma SettleRescoring(c: Config, algorithm: Algorithm, round: int, phase: Phase, chosen: set<Guid>, best: Guid,
                        reps: set<Guid>)
    requires phase.Rescoring? && PhaseOk(phase, algorithm, reps) && round <= c.maxRounds && NO_GUID !in reps
    ensures HeldBy(Settle(c, algorithm, round, phase, chosen, best)) == Held(phase)
    ensures StageOk(c, Settle(c, algorithm, round, phase, chosen, best), algorithm, reps)
  {}

  /** From one pool to the next, only the reservations of one instance change, to those in `held`. */
  ghost predicate OnlyMoves(pool: View, after: View, i: Instance, held: set<Guid>) {
    && SamePool(pool, after)
    && (forall g, guid :: g in pool && guid != i.instanceGuid ==> after[g].Holding(guid) == pool[g].Holding(guid))
    && (forall g :: g in pool ==> after[g].Holding(i.instanceGuid) == if g in held then Some(i) else None)
  }

  lemma OwnedStays(pool: View, bids: seq<Bid>, a: nat)
    requires Owned(pool, bids) && a < |bids|
    ensures OnlyMoves(pool, pool, bids[a].instance, HeldBy(bids[a].stage))
  {}

  /** A representative never overcommits, and only the acting auction's reservations change. */
  lemma PoolAfter(c: Config, s: State, act: Action)
    requires Enabled(c, s, act) && ValidView(s.pool) && Owned(s.pool, s.bids) && DifferentInstances(s.bids)
    ensures ValidView(NextPool(c, s, act))
    ensures OnlyMoves(s.pool, NextPool(c, s, act), s.bids[act.bid].instance, NextHeld(c, s, act))
  {
    hide Rep.Valid, Rep.HasRoom, Rep.Score, Owned;
    var b := s.bids[act.bid];
    OwnedStays(s.pool, s.bids, act.bid);
    match act {
      case Ask(_, g, timedOut) =>
        var answer := AnswerOf(s.pool[g], b.instance, timedOut);
        if b.stage.phase.Reserving? && answer.Some? {
          ReserveKeepsValid(s.pool[g], b.instance);
          ValidAfterUpdate(s.pool, g, s.pool[g].Reserve(b.instance));
        }
      case Release(_, g) =>
        ReleaseKeepsValid(s.pool[g], b.instance.instanceGuid);
        ValidAfterUpdate(s.pool, g, s.pool[g].Release(b.instance.instanceGuid));
      case _ =>
    }
  }

  /**
   * To any other auction a step looks like the interference the auctioneers are proved against: its own
   * instance stays where it is, and the representatives and their totals are the same.
   */
  lemma StepIsInterference(c: Config, s: State, act: Action, a: nat)
    requires Enabled(c, s, act) && ValidView(s.pool) && Owned(s.pool, s.bids) && DifferentInstances(s.bids)
    requires a < |s.bids| && a != act.bid
    ensures Interfered(s.pool, NextPool(c, s, act), s.bids[a].instance.instanceGuid, false)
  {
    hide Enabled, ValidView, Owned, NextPool, NextHeld;
    PoolAfter(c, s, act);
    BidInRange(c, s, act);
  }

  lemma OwnershipStep(v0: View, pool: View, after: View, bids: seq<Bid>, a: nat, stage: Stage)
    requires Owned(pool, bids) && OthersKept(v0, pool, bids) && DifferentInstances(bids) && a < |bids|
    requires OnlyMoves(pool, after, bids[a].instance, HeldBy(stage))
    ensures Owned(after, bids[a := bids[a].(stage := stage)])
    ensures OthersKept(v0, after, bids[a := bids[a].(stage := stage)])
    ensures DifferentInstances(bids[a := bids[a].(stage := stage)])
  {
    var bids' := bids[a := bids[a].(stage := stage)];
    forall guid ensures Auctioned(bids, guid) == Auctioned(bids', guid) {
      if Auctioned(bids, guid) {
        var k :| 0 <= k < |bids| && bids[k].instance.instanceGuid == guid;
        assert bids'[k].instance.instanceGuid == guid;
      }
    }
    assert bids[a].instance.instanceGuid == bids'[a].instance.instanceGuid && Auctioned(bids, bids[a].instance.instanceGuid);
  }

  /** Delivering is the only way to be done, and once done the winner stands. */
  lemma DoneAfter(c: Config, s: State, act: Action)
    requires Enabled(c, s, act)
    ensures act.bid < |s.bids|
    ensures Done(NextStage(c, s, act)) <==> act.Deliver? || act.Leave?
    ensures act.Deliver? ==> !Done(s.bids[act.bid].stage) && NextStage(c, s, act).winner == s.bids[act.bid].stage.phase.winner
    ensures act.Leave? <==> Done(s.bids[act.bid].stage)
    ensures act.Leave? ==> NextStage(c, s, act).winner == s.bids[act.bid].stage.winner
  {}

  lemma ResultsStep(c: Config, s: State, act: Action)
    requires Enabled(c, s, act) && ResultsOk(s)
    ensures ResultsOk(Next(c, s, act))
  {
    hide NextStage, Enabled, NextPool, NextMissed;
    DoneAfter(c, s, act);
    var t := Next(c, s, act);
    if act.Deliver? {
      assert t.results[|s.results|].bid == act.bid;
    }
    forall a | 0 <= a < |t.bids| && Done(t.bids[a].stage)
      ensures exists k :: 0 <= k < |t.results| && t.results[k].bid == a
    {
      if !(act.Deliver? && a == act.bid) {
        var k :| 0 <= k < |s.results| && s.results[k].bid == a;
        assert t.results[k].bid == a;
      }
    }
  }

  /** No step meets a missing reservation. */
  lemma NothingMissed(c: Config, s: State, act: Action)
    requires Enabled(c, s, act) && Owned(s.pool, s.bids)
    ensures NextMissed(c, s, act) == s.missed
  {}

  lemma StepKeepsInv(c: Config, v0: View, s: State, act: Action)
    requires Inv(c, v0, s) && Enabled(c, s, act)
    ensures Inv(c, v0, Next(c, s, act))
  {
    hide NextStage, NextPool, NextMissed, NextHeld, Owned, OthersKept, StageOk, ResultsOk, ValidView;
    hide DifferentInstances, OnlyMoves;
    assert NO_GUID !in s.pool by { NoGuid(s.pool); }
    HeldAfter(c, s, act);
    PoolAfter(c, s, act);
    OwnershipStep(v0, s.pool, NextPool(c, s, act), s.bids, act.bid, NextStage(c, s, act));
    ResultsStep(c, s, act);
    NothingMissed(c, s, act);
    ActiveUpdate(s.bids, act.bid, s.bids[act.bid].(stage := NextStage(c, s, act)));
    SamePoolAfter(v0, s.pool, NextPool(c, s, act), s.bids[act.bid].instance, NextHeld(c, s, act));
    PastAfter(c, s, act);
  }

  lemma NoGuid(v: View)
    requires ValidView(v)
    ensures NO_GUID !in v
  {}

  lemma SamePoolAfter(v0: View, pool: View, after: View, i: Instance, held: set<Guid>)
    requires SamePool(v0, pool) && OnlyMoves(pool, after, i, held)
    ensures SamePool(v0, after)
  {}

  /** Only acquiring and leaving the semaphore change who is past it. */
  lemma PastAfter(c: Config, s: State, act: Action)
    requires Enabled(c, s, act)
    ensures Past(NextStage(c, s, act)) == !act.Leave?
    ensures Past(s.bids[act.bid].stage) == !act.Acquire?
  {}

  // ---------------------------------------------------------------- whole runs

  ghost predicate Run(c: Config, states: seq<State>, acts: seq<Action>) {
    && |states| == |acts| + 1
    && forall k :: 0 <= k < |acts| ==> Enabled(c, states[k], acts[k]) && states[k + 1] == Next(c, states[k], acts[k])
  }

  /**
   * Every reachable state, under any schedule, any subsets drawn, any timeouts: no representative is
   * overcommitted, each holds an instance only while its auction has it reserved there or has won
   * there, no claim or release met a missing reservation, and the semaphore holds.
   */
  lemma {:induction false} EveryReachableState(c: Config, states: seq<State>, acts: seq<Action>, k: nat)
    requires Run(c, states, acts) && Initial(states[0]) && k <= |acts|
    ensures Inv(c, states[0].pool, states[k])
  {
    hide Inv, Enabled, Next, Initial;
    if k == 0 {
      InitialInv(c, states[0]);
    } else {
      EveryReachableState(c, states, acts, k - 1);
      StepKeepsInv(c, states[0].pool, states[k - 1], acts[k - 1]);
    }
  }

  // ---------------------------------------------------------------- the end of a run

  ghost predicate AllDone(bids: seq<Bid>) {
    forall a :: 0 <= a < |bids| ==> Done(bids[a].stage)
  }

  function WinnerOf(stage: Stage): Guid {
    match stage
    case Delivered(winner) => winner
    case Exited(winner) => winner
    case _ => NO_GUID
  }

  /** Each auction's instance on its winner, placed one after another in the order of the list. */
  ghost function PlaceAll(v: View, bids: seq<Bid>): View {
    if bids == [] then v
    else Place(PlaceAll(v, bids[..|bids| - 1]), WinnerOf(bids[|bids| - 1].stage), bids[|bids| - 1].instance)
  }

  ghost predicate AllFresh(v: View, bids: seq<Bid>) {
    forall a :: 0 <= a < |bids| ==> Fresh(v, bids[a].instance.instanceGuid)
  }

  lemma {:induction false} PlaceAllOwned(v0: View, bids: seq<Bid>)
    requires AllDone(bids) && DifferentInstances(bids) && AllFresh(v0, bids) && NO_GUID !in v0
    ensures SamePool(v0, PlaceAll(v0, bids))
    ensures Owned(PlaceAll(v0, bids), bids) && OthersKept(v0, PlaceAll(v0, bids), bids)
  {
    if bids != [] {
      var n := |bids| - 1;
      var rest, b := bids[..n], bids[n];
      PlaceAllOwned(v0, rest);
      var v := PlaceAll(v0, rest);
      assert !Auctioned(rest, b.instance.instanceGuid);
      assert forall g :: g in v ==> v0[g].Holding(b.instance.instanceGuid).None?;
      PlaceOwned(v0, v, rest, b);
      assert rest + [b] == bids;
    }
  }

  lemma PlaceOwned(v0: View, v: View, rest: seq<Bid>, b: Bid)
    requires SamePool(v0, v) && Owned(v, rest) && OthersKept(v0, v, rest) && Done(b.stage) && NO_GUID !in v0
    requires forall a :: 0 <= a < |rest| ==> rest[a].instance.instanceGuid != b.instance.instanceGuid
    requires forall g :: g in v ==> v[g].Holding(b.instance.instanceGuid).None?
    ensures var x := Place(v, WinnerOf(b.stage), b.instance);
            SamePool(v0, x) && Owned(x, rest + [b]) && OthersKept(v0, x, rest + [b])
  {
    var x, bids := Place(v, WinnerOf(b.stage), b.instance), rest + [b];
    forall g, guid | g in x && g in v0 && !Auctioned(bids, guid) ensures x[g].Holding(guid) == v0[g].Holding(guid) {
      assert bids[|rest|].instance.instanceGuid != guid;
      forall a | 0 <= a < |rest| ensures rest[a].instance.instanceGuid != guid {
        assert bids[a].instance.instanceGuid == rest[a].instance.instanceGuid;
      }
      assert !Auctioned(rest, guid);
      assert g in v && v[g].Holding(guid) == v0[g].Holding(guid);
    }
    forall a, g | 0 <= a < |bids| && g in x
      ensures x[g].Holding(bids[a].instance.instanceGuid) == if g in HeldBy(bids[a].stage) then Some(bids[a].instance) else None
    {
      if a < |rest| {
        assert v[g].Holding(rest[a].instance.instanceGuid) == if g in HeldBy(rest[a].stage) then Some(rest[a].instance) else None;
      }
    }
  }

  lemma SameHoldings(r: Rep, t: Rep)
    requires r.total == t.total && forall guid :: r.Holding(guid) == t.Holding(guid)
    ensures r == t
  {
    forall guid ensures guid in r.instances <==> guid in t.instances {
      assert r.Holding(guid) == t.Holding(guid);
    }
    forall guid | guid in r.instances ensures r.instances[guid] == t.instances[guid] {
      assert r.Holding(guid) == t.Holding(guid);
    }
    assert r.instances == t.instances;
  }

  /** Totals, ownership and the untouched rest determine a pool. */
  lemma PoolDetermined(v0: View, p: View, q: View, bids: seq<Bid>)
    requires SamePool(v0, p) && Owned(p, bids) && OthersKept(v0, p, bids)
    requires SamePool(v0, q) && Owned(q, bids) && OthersKept(v0, q, bids)
    ensures p == q
  {
    forall g | g in p ensures p[g] == q[g] {
      forall guid ensures p[g].Holding(guid) == q[g].Holding(guid) {
        if Auctioned(bids, guid) {
          var a :| 0 <= a < |bids| && bids[a].instance.instanceGuid == guid;
        }
      }
      SameHoldings(p[g], q[g]);
    }
  }

  lemma {:induction false} BelowAll(s: set<nat>, n: nat)
    requires forall x :: x in s ==> x < n
    ensures |s| <= n && (|s| == n ==> forall x :: 0 <= x < n ==> x in s)
  {
    if n > 0 {
      var rest := s - {n - 1};
      BelowAll(rest, n - 1);
      assert |s| == |rest| + if n - 1 in s then 1 else 0;
    }
  }

  ghost function BidsOf(results: seq<Outcome>): set<nat> {
    set k | 0 <= k < |results| :: results[k].bid
  }

  lemma {:induction false} BidsOfSize(results: seq<Outcome>)
    requires forall j, k :: 0 <= j < k < |results| ==> results[j].bid != results[k].bid
    ensures |BidsOf(results)| == |results|
  {
    if results != [] {
      var n := |results| - 1;
      BidsOfSize(results[..n]);
      assert BidsOf(results) == BidsOf(results[..n]) + {results[n].bid};
    }
  }

  /** As many results as auctions means every auction is done: the collecting loop ends with all of them. */
  lemma CollectedAll(s: State)
    requires ResultsOk(s) && |s.results| == |s.bids|
    ensures AllDone(s.bids)
  {
    BidsOfSize(s.results);
    BelowAll(BidsOf(s.results), |s.bids|);
    forall a | 0 <= a < |s.bids| ensures Done(s.bids[a].stage) {
      assert a in BidsOf(s.results);
    }
  }

  /**
   * When the distributor has collected its results, the concurrent auctions have had exactly the
   * effect of placing each instance on its winner, one after another: on no other representative,
   * and nowhere if there was no winner.
   */
  lemma ConcurrentIsSequential(c: Config, states: seq<State>, acts: seq<Action>)
    requires Run(c, states, acts) && Initial(states[0])
    requires |states[|acts|].results| == |states[|acts|].bids|
    ensures AllDone(states[|acts|].bids) && Inv(c, states[0].pool, states[|acts|])
    ensures states[|acts|].pool == PlaceAll(states[0].pool, states[|acts|].bids)
  {
    hide Enabled, Next, Owned, OthersKept, StagesOk, ValidView, PlaceAll;
    var n := |acts|;
    EveryReachableState(c, states, acts, n);
    CollectedAll(states[n]);
    SameInstances(c, states, acts, n);
    assert NO_GUID !in states[0].pool by { NoGuid(states[0].pool); }
    PlaceAllOwned(states[0].pool, states[n].bids);
    PoolDetermined(states[0].pool, states[n].pool, PlaceAll(states[0].pool, states[n].bids), states[n].bids);
  }

  lemma {:induction false} SameInstances(c: Config, states: seq<State>, acts: seq<Action>, k: nat)
    requires Run(c, states, acts) && k <= |acts|
    ensures |states[k].bids| == |states[0].bids|
    ensures forall a :: 0 <= a < |states[0].bids| ==>
              states[k].bids[a].instance == states[0].bids[a].instance && states[k].bids[a].algorithm == states[0].bids[a].algorithm
  {
    hide NextStage, NextPool, NextMissed, Enabled;
    if k > 0 {
      SameInstances(c, states, acts, k - 1);
      BidInRange(c, states[k - 1], acts[k - 1]);
    }
  }

  lemma BidInRange(c: Config, s: State, act: Action)
    requires Enabled(c, s, act)
    ensures act.bid < |s.bids|
  {}

  // ---------------------------------------------------------------- termination and progress

  /** The steps one round can take, for a pool of `n` representatives. */
  function RoundCost(n: nat): nat {
    4 * n + 10
  }

  /** The steps that many rounds can take. */
  function Budget(rounds: nat, n: nat): nat {
    if rounds == 0 then 0 else Budget(rounds - 1, n) + RoundCost(n)
  }

  ghost function PhaseRank(phase: Phase, n: nat): nat {
    match phase
    case Picking => 4 * n + 9
    case Scoring(bidders, got) => 3 * n + 8 + |bidders - got.Keys|
    case Reserving(_, asked, got) => 2 * n + 6 + |asked - got.Keys|
    case Rescoring(asked, _, _, got) => n + 4 + |asked - got.Keys|
    case Claiming(_, _) => n + 3
    case Releasing(todo, _) => 2 + |todo|
    case Finished(_) => 0
  }

  function RoundsLeft(c: Config, round: int): nat {
    if round <= c.maxRounds then c.maxRounds - round else 0
  }

  /** An upper bound on the steps an auction still has to take. */
  ghost function Rank(c: Config, stage: Stage, n: nat): nat {
    match stage
    case Waiting => Budget(RoundsLeft(c, 0), n) + 3
    case Running(round, phase) => if phase.Finished? then 2 else Budget(RoundsLeft(c, round), n) + PhaseRank(phase, n) + 2
    case Delivered(_) => 1
    case Exited(_) => 0
  }

  ghost function Measure(c: Config, bids: seq<Bid>, n: nat): nat {
    if bids == [] then 0 else Measure(c, bids[..|bids| - 1], n) + Rank(c, bids[|bids| - 1].stage, n)
  }

  lemma {:induction false} MeasureUpdate(c: Config, bids: seq<Bid>, a: nat, b: Bid, n: nat)
    requires a < |bids|
    ensures Measure(c, bids[a := b], n) == Measure(c, bids, n) - Rank(c, bids[a].stage, n) + Rank(c, b.stage, n)
  {
    var m := |bids| - 1;
    if a == m {
      assert bids[a := b][..m] == bids[..m];
    } else {
      assert bids[a := b][..m] == bids[..m][a := b];
      MeasureUpdate(c, bids[..m], a, b, n);
    }
  }

  lemma OneRoundLess(c: Config, round: int, n: nat)
    requires round < c.maxRounds
    ensures Budget(RoundsLeft(c, round), n) == Budget(RoundsLeft(c, round + 1), n) + RoundCost(n)
  {}

  lemma BeginningRank(c: Config, round: int, n: nat)
    requires round < c.maxRounds
    ensures Rank(c, Begin(c, round + 1), n) < Budget(RoundsLeft(c, round), n) + 2
  {
    hide Budget, RoundsLeft;
    OneRoundLess(c, round, n);
  }

  /** Beginning the next round costs less than any phase of this one. */
  lemma BeginRank(c: Config, round: int, n: nat)
    requires round <= c.maxRounds
    ensures Rank(c, Begin(c, round + 1), n) <= Budget(RoundsLeft(c, round), n) + 2
    ensures Rank(c, Begin(c, 1), n) < Budget(RoundsLeft(c, 0), n) + 3
  {
    hide Budget, RoundsLeft;
    if round < c.maxRounds {
      BeginningRank(c, round, n);
    }
    if 0 < c.maxRounds {
      BeginningRank(c, 0, n);
    }
  }

  lemma SmallerSet<T>(s: set<T>, t: set<T>)
    requires s <= t
    ensures |s| <= |t|
  {
    assert t == s + (t - s);
  }

  lemma OneLess<T>(s: set<T>, t: set<T>, x: T)
    requires x in s && t == s - {x}
    ensures |t| == |s| - 1
  {}

  lemma AskRank(c: Config, s: State, act: Action, n: nat)
    requires Enabled(c, s, act) && act.Ask?
    ensures Rank(c, NextStage(c, s, act), n) < Rank(c, s.bids[act.bid].stage, n)
  {
    var phase := s.bids[act.bid].stage.phase;
    var asked := if phase.Scoring? then phase.bidders else phase.asked;
    var answer := AnswerOf(s.pool[act.rep], s.bids[act.bid].instance, act.timedOut);
    OneLess(asked - phase.got.Keys, asked - Receive(phase, act.rep, answer).got.Keys, act.rep);
  }

  /** Beginning the next round ranks below every phase of this one that is not finished. */
  lemma BeginsLower(c: Config, round: int, phase: Phase, n: nat)
    requires round <= c.maxRounds && PhaseRank(phase, n) > 0 && !phase.Finished?
    ensures Rank(c, Begin(c, round + 1), n) < Rank(c, Running(round, phase), n)
  {
    BeginRank(c, round, n);
    hide Budget, RoundsLeft, PhaseRank, Begin;
  }

  lemma LowerPhase(c: Config, round: int, next: Phase, phase: Phase, n: nat)
    requires PhaseRank(next, n) < PhaseRank(phase, n) && !phase.Finished?
    ensures Rank(c, Running(round, next), n) < Rank(c, Running(round, phase), n)
  {
    hide Budget, RoundsLeft, PhaseRank;
  }

  lemma ScoringRank(c: Config, algorithm: Algorithm, round: int, phase: Phase, chosen: set<Guid>, best: Guid, n: nat)
    requires phase.Scoring? && round <= c.maxRounds && |chosen| <= n
    ensures Rank(c, Settle(c, algorithm, round, phase, chosen, best), n) < Rank(c, Running(round, phase), n)
  {
    hide Rank;
    if Okay(phase.got) == {} {
      BeginsLower(c, round, phase, n);
    } else {
      NothingAnsweredYet(chosen, map[]);
      LowerPhase(c, round, Reserving(phase.bidders, chosen, map[]), phase, n);
    }
  }

  lemma ReservingRank(c: Config, algorithm: Algorithm, round: int, phase: Phase, chosen: set<Guid>, best: Guid, n: nat)
    requires phase.Reserving? && round <= c.maxRounds && |phase.bidders| <= n
    requires algorithm == AllRescore ==> best in phase.got
    ensures Rank(c, Settle(c, algorithm, round, phase, chosen, best), n) < Rank(c, Running(round, phase), n)
  {
    hide Rank, Okay;
    if algorithm == AllRescore {
      RescoreIsLower(c, round, phase, best, n);
    } else if Okay(phase.got) == {} {
      BeginsLower(c, round, phase, n);
    } else {
      ClaimIsLower(c, round, phase, best, Okay(phase.got) - {best}, n);
    }
  }

  lemma RescoreIsLower(c: Config, round: int, phase: Phase, best: Guid, n: nat)
    requires phase.Reserving? && |phase.bidders| <= n && best in phase.got
    ensures Rank(c, Running(round, Rescoring(phase.bidders - {best}, best, phase.got[best], map[])), n) <
            Rank(c, Running(round, phase), n)
  {
    hide Rank;
    var asked := phase.bidders - {best};
    SmallerSet(asked, phase.bidders);
    NothingAnsweredYet(asked, map[]);
    LowerPhase(c, round, Rescoring(asked, best, phase.got[best], map[]), phase, n);
  }

  lemma ClaimIsLower(c: Config, round: int, phase: Phase, winner: Guid, losers: set<Guid>, n: nat)
    requires phase.Reserving?
    ensures Rank(c, Running(round, Claiming(winner, losers)), n) < Rank(c, Running(round, phase), n)
  {
    hide Rank;
    LowerPhase(c, round, Claiming(winner, losers), phase, n);
  }

  lemma RescoringRank(c: Config, algorithm: Algorithm, round: int, phase: Phase, chosen: set<Guid>, best: Guid, n: nat)
    requires phase.Rescoring? && round <= c.maxRounds
    ensures Rank(c, Settle(c, algorithm, round, phase, chosen, best), n) < Rank(c, Running(round, phase), n)
  {
    hide Rank;
    BeginsLower(c, round, phase, n);
    assert |{phase.winner}| == 1;
    LowerPhase(c, round, Releasing({phase.winner}, NO_GUID), phase, n);
    LowerPhase(c, round, Claiming(phase.winner, {}), phase, n);
  }

  lemma NothingAnsweredYet(asked: set<Guid>, got: Answers)
    requires got == map[]
    ensures asked - got.Keys == asked
  {}

  lemma DecideRank(c: Config, s: State, act: Action)
    requires Enabled(c, s, act) && act.Decide? && StageOk(c, s.bids[act.bid].stage, s.bids[act.bid].algorithm, s.pool.Keys)
    ensures Rank(c, NextStage(c, s, act), |s.pool.Keys|) < Rank(c, s.bids[act.bid].stage, |s.pool.Keys|)
  {
    DecideStage(c, s, act);
    hide Enabled, NextStage, Settle, Rank, StageOk;
    var b, n := s.bids[act.bid], |s.pool.Keys|;
    if b.stage.phase.Scoring? {
      SmallerSet(act.chosen, s.pool.Keys);
      ScoringRank(c, b.algorithm, b.stage.round, b.stage.phase, act.chosen, act.best, n);
    } else if b.stage.phase.Reserving? {
      SmallerSet(b.stage.phase.bidders, s.pool.Keys);
      ReservingRank(c, b.algorithm, b.stage.round, b.stage.phase, act.chosen, act.best, n);
    } else {
      RescoringRank(c, b.algorithm, b.stage.round, b.stage.phase, act.chosen, act.best, n);
    }
  }

  lemma ReleaseRank(c: Config, round: int, todo: set<Guid>, g: Guid, keep: Guid, n: nat)
    requires round <= c.maxRounds && g in todo
    ensures Rank(c, AfterRelease(c, round, todo - {g}, keep), n) < Rank(c, Running(round, Releasing(todo, keep)), n)
  {
    BeginRank(c, round, n);
    OneLess(todo, todo - {g}, g);
  }

  lemma DrawRank(c: Config, round: int, algorithm: Algorithm, chosen: set<Guid>, n: nat)
    requires |chosen| <= n
    ensures Rank(c, Running(round, AfterDraw(algorithm, chosen)), n) < Rank(c, Running(round, Picking), n)
  {
    hide Rank;
    NothingAnsweredYet(chosen, map[]);
    LowerPhase(c, round, AfterDraw(algorithm, chosen), Picking, n);
  }

  lemma ClaimRank(c: Config, round: int, winner: Guid, losers: set<Guid>, n: nat)
    requires |losers| <= n
    ensures Rank(c, Running(round, AfterClaim(winner, losers)), n) < Rank(c, Running(round, Claiming(winner, losers)), n)
  {
    hide Rank;
    LowerPhase(c, round, AfterClaim(winner, losers), Claiming(winner, losers), n);
  }

  lemma OtherRank(c: Config, s: State, act: Action)
    requires Enabled(c, s, act) && !act.Ask? && !act.Decide? && !act.Release?
    requires StageOk(c, s.bids[act.bid].stage, s.bids[act.bid].algorithm, s.pool.Keys)
    ensures Rank(c, NextStage(c, s, act), |s.pool.Keys|) < Rank(c, s.bids[act.bid].stage, |s.pool.Keys|)
  {
    hide RoundsLeft, Budget, Settle, AnswerOf, Cheapest, AfterDraw, AfterClaim, PhaseRank;
    var b, n := s.bids[act.bid], |s.pool.Keys|;
    match act {
      case Acquire(_) => FirstRank(c, n);
      case Draw(_, chosen) =>
        SmallerSet(chosen, s.pool.Keys);
        DrawRank(c, b.stage.round, b.algorithm, chosen, n);
      case Claim(_) =>
        SmallerSet(b.stage.phase.losers, s.pool.Keys);
        ClaimRank(c, b.stage.round, b.stage.phase.winner, b.stage.phase.losers, n);
      case _ =>
    }
  }

  lemma FirstRank(c: Config, n: nat)
    ensures Rank(c, Begin(c, 1), n) < Rank(c, Waiting, n)
  {
    BeginRank(c, c.maxRounds, n);
  }

  lemma ReleaseStage(c: Config, s: State, act: Action)
    requires Enabled(c, s, act) && act.Release? && StageOk(c, s.bids[act.bid].stage, s.bids[act.bid].algorithm, s.pool.Keys)
    ensures var stage := s.bids[act.bid].stage;
            && stage.Running? && stage.phase.Releasing? && act.rep in stage.phase.todo && stage.round <= c.maxRounds
            && stage == Running(stage.round, Releasing(stage.phase.todo, stage.phase.keep))
            && NextStage(c, s, act) == AfterRelease(c, stage.round, stage.phase.todo - {act.rep}, stage.phase.keep)
  {}

  /** Every step brings the auction that takes it closer to its end. */
  lemma StepDecreases(c: Config, s: State, act: Action)
    requires Enabled(c, s, act) && StagesOk(c, s) && NO_GUID !in s.pool
    ensures Rank(c, NextStage(c, s, act), |s.pool.Keys|) < Rank(c, s.bids[act.bid].stage, |s.pool.Keys|)
  {
    hide NextStage, Rank, PhaseOk;
    var b := s.bids[act.bid];
    assert StageOk(c, b.stage, b.algorithm, s.pool.Keys);
    HeldAfter(c, s, act);
    if act.Ask? {
      AskRank(c, s, act, |s.pool.Keys|);
    } else if act.Decide? {
      DecideRank(c, s, act);
    } else if act.Release? {
      ReleaseStage(c, s, act);
      ReleaseRank(c, b.stage.round, b.stage.phase.todo, act.rep, b.stage.phase.keep, |s.pool.Keys|);
    } else {
      OtherRank(c, s, act);
    }
  }

  /** No schedule runs forever: a run is no longer than the measure of its first state. */
  lemma {:induction false} EveryRunEnds(c: Config, states: seq<State>, acts: seq<Action>, k: nat)
    requires Run(c, states, acts) && Initial(states[0]) && k <= |acts|
    ensures k + Measure(c, states[k].bids, |states[0].pool.Keys|) <= Measure(c, states[0].bids, |states[0].pool.Keys|)
  {
    hide NextStage, NextPool, NextMissed, Enabled, Inv, Initial, Rank, StagesOk, ValidView;
    if k > 0 {
      EveryRunEnds(c, states, acts, k - 1);
      EveryReachableState(c, states, acts, k - 1);
      var s, act := states[k - 1], acts[k - 1];
      InvFacts(c, states[0].pool, s);
      BidInRange(c, s, act);
      StepDecreases(c, s, act);
      MeasureUpdate(c, s.bids, act.bid, s.bids[act.bid].(stage := NextStage(c, s, act)), |s.pool.Keys|);
    }
  }

  lemma InvFacts(c: Config, v0: View, s: State)
    requires Inv(c, v0, s)
    ensures StagesOk(c, s) && NO_GUID !in s.pool && s.pool.Keys == v0.Keys && ResultsOk(s)
  {}

  lemma {:induction false} SubsetOfSize<T>(s: set<T>, n: nat) returns (t: set<T>)
    requires n <= |s|
    ensures t <= s && |t| == n
  {
    if n == |s| {
      t := s;
    } else {
      var x :| x in s;
      t := SubsetOfSize(s - {x}, n);
    }
  }

  lemma {:induction false} Minimum(candidates: set<Guid>, got: Answers) returns (w: Guid)
    requires candidates != {} && candidates <= Okay(got)
    ensures w in candidates && forall o :: o in candidates ==> got[w].value <= got[o].value
    decreases |candidates|
  {
    var x :| x in candidates;
    var rest := candidates - {x};
    assert candidates == rest + {x};
    w := x;
    if rest != {} {
      var u := Minimum(rest, got);
      w := if got[u].value < got[x].value then u else x;
    }
  }

  /** Any number of cheapest answers can be picked. */
  lemma {:induction false} CheapestExists(got: Answers, n: nat) returns (chosen: set<Guid>)
    ensures Cheapest(chosen, got, n)
  {
    if n == 0 {
      chosen := {};
      assert Cheapest(chosen, got, n);
    } else if |Okay(got)| < n {
      chosen := Okay(got);
      assert Cheapest(chosen, got, n);
    } else {
      var few := CheapestExists(got, n - 1);
      var rest := Okay(got) - few;
      assert rest != {} by {
        if rest == {} {
          SmallerSet(Okay(got), few);
          assert false;
        }
      }
      var w := Minimum(rest, got);
      chosen := few + {w};
      assert |few| == n - 1 && w !in few && |chosen| == n;
      forall x, o | x in chosen && o in Okay(got) - chosen ensures got[x].value <= got[o].value {
        assert o in rest;
        if x in few {
          assert o in Okay(got) - few;
        }
      }
      assert Cheapest(chosen, got, n);
    }
  }

  lemma SingletonOf<T>(s: set<T>) returns (x: T)
    requires |s| == 1
    ensures s == {x}
  {
    x :| x in s;
    assert |s - {x}| == 0;
  }

  lemma DecidePossible(c: Config, s: State, a: nat) returns (act: Action)
    requires a < |s.bids| && s.bids[a].stage.Running? && StageOk(c, s.bids[a].stage, s.bids[a].algorithm, s.pool.Keys)
    requires var phase := s.bids[a].stage.phase;
             || (phase.Scoring? && phase.got.Keys == phase.bidders)
             || ((phase.Reserving? || phase.Rescoring?) && phase.got.Keys == phase.asked)
    ensures Enabled(c, s, act)
  {
    var b := s.bids[a];
    match b.stage.phase {
      case Scoring(_, got) =>
        var chosen := CheapestExists(got, if b.algorithm == ReserveNBest then 5 else 1);
        act := Decide(a, chosen, NO_GUID);
      case Reserving(_, asked, got) =>
        if b.algorithm == AllRescore {
          var best := SingletonOf(asked);
          act := Decide(a, {}, best);
        } else if Okay(got) == {} {
          act := Decide(a, {}, NO_GUID);
        } else {
          var chosen := CheapestExists(got, 1);
          var best := SingletonOf(chosen);
          act := Decide(a, {}, best);
        }
      case Rescoring(_, _, _, _) =>
        act := Decide(a, {}, NO_GUID);
    }
  }

  lemma Unanswered(asked: set<Guid>, answered: set<Guid>) returns (g: Guid)
    requires answered <= asked && answered != asked
    ensures g in asked - answered
  {
    assert asked == answered + (asked - answered);
    assert asked - answered != {};
    g :| g in asked - answered;
  }

  lemma RunningCanMove(c: Config, s: State, a: nat) returns (act: Action)
    requires a < |s.bids| && s.bids[a].stage.Running? && StageOk(c, s.bids[a].stage, s.bids[a].algorithm, s.pool.Keys)
    requires c.bidders <= |s.pool.Keys| && (s.bids[a].algorithm == Random ==> s.pool.Keys != {})
    requires |s.results| < |s.bids|
    ensures Enabled(c, s, act)
  {
    var b := s.bids[a];
    match b.stage.phase {
      case Picking =>
        if b.algorithm == Random {
          var g :| g in s.pool.Keys;
          act := Draw(a, {g});
        } else {
          var chosen := SubsetOfSize(s.pool.Keys, c.bidders);
          act := Draw(a, chosen);
        }
      case Scoring(bidders, got) =>
        if got.Keys == bidders {
          act := DecidePossible(c, s, a);
        } else {
          var g := Unanswered(bidders, got.Keys);
          act := Ask(a, g, false);
        }
      case Reserving(_, asked, got) =>
        if got.Keys == asked {
          act := DecidePossible(c, s, a);
        } else {
          var g := Unanswered(asked, got.Keys);
          act := Ask(a, g, false);
        }
      case Rescoring(asked, _, _, got) =>
        if got.Keys == asked {
          act := DecidePossible(c, s, a);
        } else {
          var g := Unanswered(asked, got.Keys);
          act := Ask(a, g, false);
        }
      case Claiming(_, _) => act := Claim(a);
      case Releasing(todo, _) =>
        var g :| g in todo;
        act := Release(a, g);
      case Finished(_) => act := Deliver(a);
    }
  }

  lemma {:induction false} SomeActive(bids: seq<Bid>) returns (a: nat)
    requires Active(bids) > 0
    ensures a < |bids| && Past(bids[a].stage)
  {
    a := |bids| - 1;
    if !Past(bids[a].stage) {
      a := SomeActive(bids[..a]);
    }
  }

  lemma {:induction false} ActiveCounts(bids: seq<Bid>, a: nat)
    requires a < |bids| && Past(bids[a].stage)
    ensures Active(bids) > 0
  {
    if a < |bids| - 1 {
      ActiveCounts(bids[..|bids| - 1], a);
    }
  }

  lemma NotCollectedYet(s: State, a: nat)
    requires ResultsOk(s) && a < |s.bids| && !Done(s.bids[a].stage)
    ensures |s.results| < |s.bids|
  {
    BidsOfSize(s.results);
    BelowAll(BidsOf(s.results), |s.bids|);
    if a in BidsOf(s.results) {
      assert false;
    }
  }

  /** With at least one permit, some auction can always take a step until all have gone. */
  lemma NeverDeadlocked(c: Config, v0: View, s: State, a: nat) returns (act: Action)
    requires Inv(c, v0, s) && a < |s.bids| && !s.bids[a].stage.Exited?
    requires c.maxConcurrent >= 1 && c.bidders <= |s.pool.Keys|
    requires forall b :: 0 <= b < |s.bids| && s.bids[b].algorithm == Random ==> s.pool.Keys != {}
    ensures Enabled(c, s, act)
  {
    hide ResultsOk, Owned, OthersKept, ValidView, DifferentInstances, StageOk;
    if s.bids[a].stage.Waiting? && s.tokens < c.maxConcurrent {
      act := Acquire(a);
    } else {
      var b := a;
      if s.bids[a].stage.Waiting? {
        b := SomeActive(s.bids);
      }
      ActiveCounts(s.bids, b);
      if s.bids[b].stage.Delivered? {
        act := Leave(b);
      } else {
        NotCollectedYet(s, b);
        act := RunningCanMove(c, s, b);
      }
    }
  }

  /** At the start, something can move if and only if there is an auction and a permit for it. */
  lemma StartsIffPermitted(c: Config, s: State)
    requires Initial(s)
    ensures (exists act :: Enabled(c, s, act)) <==> s.bids != [] && c.maxConcurrent >= 1
  {
    if s.bids != [] && c.maxConcurrent >= 1 {
      assert Enabled(c, s, Acquire(0));
    }
  }

  // ---------------------------------------------------------------- complete runs

  /** As many results as auctions, one from each. */
  ghost predicate OneResultEach(s: State) {
    && |s.results| == |s.bids|
    && (forall a :: 0 <= a < |s.bids| ==> Reported(s, a))
    && (forall j, k :: 0 <= j < k < |s.results| ==> s.results[j].bid != s.results[k].bid)
  }

  /** Once every auction is done, every one has delivered its result. */
  lemma AllDelivered(s: State)
    requires ResultsOk(s) && AllDone(s.bids)
    ensures OneResultEach(s)
  {
    BidsOfSize(s.results);
    BelowAll(BidsOf(s.results), |s.bids|);
    UpTo(|s.bids|);
    forall a | 0 <= a < |s.bids| ensures Reported(s, a) && a in BidsOf(s.results) {
      assert Done(s.bids[a].stage);
      var k :| 0 <= k < |s.results| && s.results[k].bid == a;
    }
    SmallerSet(Below(|s.bids|), BidsOf(s.results));
  }

  function Below(n: nat): set<nat> {
    if n == 0 then {} else Below(n - 1) + {n - 1}
  }

  lemma {:induction false} UpTo(n: nat)
    ensures |Below(n)| == n && forall k :: k in Below(n) ==> k < n
  {
    if n > 0 {
      UpTo(n - 1);
    }
  }

  ghost predicate Reported(s: State, a: nat) {
    exists k :: 0 <= k < |s.results| && s.results[k].bid == a
  }

  /** What a distributor and its simulation bring: a permit, and representatives to draw from. */
  ghost predicate Runnable(c: Config, s: State) {
    && c.maxConcurrent >= 1 && c.bidders <= |s.pool.Keys|
    && forall b :: 0 <= b < |s.bids| && s.bids[b].algorithm == Random ==> s.pool.Keys != {}
  }

  lemma StuckMeansDone(c: Config, v0: View, s: State)
    requires Inv(c, v0, s) && Runnable(c, s) && forall act :: !Enabled(c, s, act)
    ensures AllDone(s.bids)
  {
    hide Inv, Enabled;
    forall a | 0 <= a < |s.bids| ensures Done(s.bids[a].stage) {
      if !s.bids[a].stage.Exited? {
        var act := NeverDeadlocked(c, v0, s, a);
        assert false;
      }
    }
  }

  /**
   * A run that has nothing left to do, and by EveryRunEnds every run gets there, has collected exactly
   * one result from every auction, and has placed each instance on its winner.
   */
  lemma CompleteRunDelivers(c: Config, states: seq<State>, acts: seq<Action>)
    requires Run(c, states, acts) && Initial(states[0]) && Runnable(c, states[0])
    requires forall act :: !Enabled(c, states[|acts|], act)
    ensures AllDone(states[|acts|].bids) && |states[|acts|].bids| == |states[0].bids|
    ensures OneResultEach(states[|acts|])
    ensures states[|acts|].pool == PlaceAll(states[0].pool, states[|acts|].bids)
  {
    hide Enabled, Next, PlaceAll, Inv, OneResultEach, Initial, AllDone;
    var n := |acts|;
    var s := states[n];
    EveryReachableState(c, states, acts, n);
    SameInstances(c, states, acts, n);
    InvFacts(c, states[0].pool, s);
    StillRunnable(c, states[0], s);
    StuckMeansDone(c, states[0].pool, s);
    AllDelivered(s);
    ConcurrentIsSequential(c, states, acts);
  }

  lemma StillRunnable(c: Config, s0: State, s: State)
    requires Runnable(c, s0) && s.pool.Keys == s0.pool.Keys && |s.bids| == |s0.bids|
    requires forall a :: 0 <= a < |s0.bids| ==> s.bids[a].instance == s0.bids[a].instance && s.bids[a].algorithm == s0.bids[a].algorithm
    ensures Runnable(c, s)
  {}
}
