/**
 * What the decisions of the step system come to: where every claim and every answer came from, in any
 * run, and the outcome of an auction that has the pool to itself (package auctioneer).
 */
module Decisions {
  import opened Types
  import opened Pool
  import opened Auctioneer
  import opened Client
  import opened System

  // ---------------------------------------------------------------- decisions in any run

  ghost predicate HasAnswers(phase: Phase) {
    phase.Scoring? || phase.Reserving? || phase.Rescoring?
  }

  ghost predicate SameKindOfPhase(p: Phase, t: Phase) {
    (p.Scoring? <==> t.Scoring?) && (p.Reserving? <==> t.Reserving?) && (p.Rescoring? <==> t.Rescoring?)
  }

  /** With all the answers in, the decision that leads to claiming `winner` and letting `losers` go. */
  ghost predicate DecidesToClaim(algorithm: Algorithm, phase: Phase, winner: Guid, losers: set<Guid>) {
    if algorithm == AllRescore then
      && phase.Rescoring? && phase.got.Keys == phase.asked && phase.winner == winner && losers == {}
      && phase.recast.Some? && (forall g :: g in Okay(phase.got) ==> phase.recast.value <= phase.got[g].value)
    else
      && phase.Reserving? && phase.got.Keys == phase.asked
      && winner in Okay(phase.got) && losers == Okay(phase.got) - {winner}
      && (forall g :: g in Okay(phase.got) ==> phase.got[winner].value <= phase.got[g].value)
  }

  /** The decision to give the reservation back: somebody's second answer is lower. */
  ghost predicate DecidesToRelease(algorithm: Algorithm, phase: Phase, todo: set<Guid>) {
    && algorithm == AllRescore && phase.Rescoring? && phase.got.Keys == phase.asked && phase.recast.Some? && todo == {phase.winner}
    && (exists g :: g in Okay(phase.got) && phase.got[g].value < phase.recast.value)
  }

  ghost function Stage(s: State, a: nat): (stage: System.Stage)
    requires a < |s.bids|
  {
    s.bids[a].stage
  }

  /** Only all-rescore scores a second time, and only what scores first shortlists. */
  ghost predicate Fits(stage: System.Stage, algorithm: Algorithm) {
    && (stage.Running? && stage.phase.Rescoring? ==> algorithm == AllRescore)
    && (stage.Running? && stage.phase.Scoring? ==> ScoresFirst(algorithm))
  }

  lemma StepFits(c: Config, s: State, act: Action)
    requires Enabled(c, s, act) && Fits(Stage(s, act.bid), s.bids[act.bid].algorithm)
    ensures Fits(NextStage(c, s, act), s.bids[act.bid].algorithm)
  {
    hide Cheapest, Okay;
  }

  lemma {:induction false} EveryStageFits(c: Config, states: seq<State>, acts: seq<Action>, k: nat, a: nat)
    requires Run(c, states, acts) && Initial(states[0]) && k <= |acts| && a < |states[k].bids|
    ensures Fits(states[k].bids[a].stage, states[k].bids[a].algorithm)
    decreases k
  {
    hide NextStage, NextPool, NextMissed, Enabled, Fits;
    if k == 0 {
      WaitingFits(states[0], a);
    } else {
      var s, act := states[k - 1], acts[k - 1];
      BidInRange(c, s, act);
      EveryStageFits(c, states, acts, k - 1, a);
      if act.bid == a {
        StepFits(c, s, act);
      }
    }
  }

  lemma WaitingFits(s: State, a: nat)
    requires Initial(s) && a < |s.bids|
    ensures Fits(s.bids[a].stage, s.bids[a].algorithm)
  {}

  lemma CheapestOne(g: Guid, got: System.Answers)
    requires Cheapest({g}, got, 1)
    ensures g in Okay(got) && forall o :: o in Okay(got) ==> got[g].value <= got[o].value
  {
    assert g in {g};
    forall o | o in Okay(got) ensures got[g].value <= got[o].value {
      if o != g {
        assert o in Okay(got) - {g};
      }
    }
  }

  /** A step that takes its auction to claiming is a decision, and decides so. */
  lemma StepToClaim(c: Config, s: State, act: Action)
    requires Enabled(c, s, act) && Fits(Stage(s, act.bid), s.bids[act.bid].algorithm)
    requires NextStage(c, s, act).Running? && NextStage(c, s, act).phase.Claiming?
    ensures act.bid < |s.bids| && act.Decide? && Stage(s, act.bid).Running?
    ensures Stage(s, act.bid).round == NextStage(c, s, act).round
    ensures var next := NextStage(c, s, act).phase;
            DecidesToClaim(s.bids[act.bid].algorithm, Stage(s, act.bid).phase, next.winner, next.losers)
  {
    hide Cheapest, Okay;
    var b := s.bids[act.bid];
    if act.Decide? && b.stage.phase.Reserving? && b.algorithm != AllRescore {
      CheapestOne(act.best, b.stage.phase.got);
    }
  }

  /** A step that begins to give a reservation back, for nobody's sake, is a decision, and decides so. */
  lemma StepToRelease(c: Config, s: State, act: Action)
    requires Enabled(c, s, act) && Fits(Stage(s, act.bid), s.bids[act.bid].algorithm)
    requires NextStage(c, s, act).Running? && NextStage(c, s, act).phase.Releasing? && NextStage(c, s, act).phase.keep == NO_GUID
    requires !act.Release? && !act.Claim?
    ensures act.bid < |s.bids| && act.Decide? && Stage(s, act.bid).Running?
    ensures Stage(s, act.bid).round == NextStage(c, s, act).round
    ensures DecidesToRelease(s.bids[act.bid].algorithm, Stage(s, act.bid).phase, NextStage(c, s, act).phase.todo)
  {
    hide Cheapest, Okay;
  }

  /** From step `j` on, when it decided, the auction has not moved. */
  ghost predicate StoodSince(states: seq<State>, acts: seq<Action>, j: nat, k: nat, a: nat) {
    && j < k <= |acts| && |states| == |acts| + 1 && acts[j].Decide? && acts[j].bid == a
    && (forall m :: j <= m <= k ==> a < |states[m].bids|)
    && Stage(states[j], a).Running? && Stage(states[k], a).Running? && Stage(states[j], a).round == Stage(states[k], a).round
    && (forall m :: j < m <= k ==> Stage(states[m], a) == Stage(states[k], a))
  }

  lemma StillStands(states: seq<State>, acts: seq<Action>, j: nat, k: nat, a: nat)
    requires StoodSince(states, acts, j, k, a) && k < |acts|
    requires a < |states[k + 1].bids| && Stage(states[k + 1], a) == Stage(states[k], a)
    ensures StoodSince(states, acts, j, k + 1, a)
  {}

  lemma StoodFacts(states: seq<State>, acts: seq<Action>, j: nat, k: nat, a: nat)
    requires StoodSince(states, acts, j, k, a)
    ensures j < k <= |acts| && |states| == |acts| + 1 && a < |states[j].bids| && Stage(states[j], a).Running?
    ensures acts[j].Decide? && acts[j].bid == a
  {}

  lemma JustDecided(c: Config, states: seq<State>, acts: seq<Action>, k: nat)
    requires Run(c, states, acts) && k < |acts| && acts[k].Decide?
    requires var a := acts[k].bid;
             && a < |states[k].bids| && a < |states[k + 1].bids| && Stage(states[k], a).Running? && Stage(states[k + 1], a).Running?
             && Stage(states[k], a).round == Stage(states[k + 1], a).round
    ensures StoodSince(states, acts, k, k + 1, acts[k].bid)
  {
    hide Enabled, Next;
  }

  /** One step of a run, seen by one auction: it acts, or stays where it is. */
  lemma OneStep(c: Config, states: seq<State>, acts: seq<Action>, k: nat, a: nat)
    requires Run(c, states, acts) && k < |acts| && a < |states[k + 1].bids|
    ensures Enabled(c, states[k], acts[k]) && |states[k].bids| == |states[k + 1].bids| && acts[k].bid < |states[k].bids|
    ensures states[k + 1].bids[a].instance == states[k].bids[a].instance
    ensures states[k + 1].bids[a].algorithm == states[k].bids[a].algorithm
    ensures Stage(states[k + 1], a) == if acts[k].bid == a then NextStage(c, states[k], acts[k]) else Stage(states[k], a)
  {
    hide NextStage, NextPool, NextMissed, Enabled;
    BidInRange(c, states[k], acts[k]);
  }

  /**
   * In any run, with any other auctions and any timeouts: an auction that is about to claim has decided so
   * with all answers in, and stood by it since. All-rescore claims whom it told to reserve only if that
   * agreed and no second answer was lower; the others claim the lowest answer of those that reserved.
   */
  lemma {:induction false} ClaimsWereDecided(c: Config, states: seq<State>, acts: seq<Action>, k: nat, a: nat)
    returns (j: nat)
    requires Run(c, states, acts) && Initial(states[0]) && k <= |acts| && a < |states[k].bids|
    requires Stage(states[k], a).Running? && Stage(states[k], a).phase.Claiming?
    ensures StoodSince(states, acts, j, k, a)
    ensures var phase := Stage(states[k], a).phase;
            DecidesToClaim(states[k].bids[a].algorithm, Stage(states[j], a).phase, phase.winner, phase.losers)
    decreases k
  {
    hide NextStage, Enabled, Initial, Next, DecidesToClaim, StoodSince;
    assert k > 0 by { NotAtFirst(states[0]); }
    var s, act := states[k - 1], acts[k - 1];
    OneStep(c, states, acts, k - 1, a);
    EveryStageFits(c, states, acts, k - 1, a);
    if act.bid == a {
      j := k - 1;
      StepToClaim(c, s, act);
      JustDecided(c, states, acts, k - 1);
    } else {
      j := ClaimsWereDecided(c, states, acts, k - 1, a);
      StillStands(states, acts, j, k - 1, a);
    }
  }

  lemma NotAtFirst(s: State)
    requires Initial(s)
    ensures forall a :: 0 <= a < |s.bids| ==> Stage(s, a) == Waiting
  {}

  /** A reservation is given back for nobody's sake only by all-rescore, and only because a second answer was lower. */
  lemma {:induction false} ReleasesWereUndercut(c: Config, states: seq<State>, acts: seq<Action>, k: nat, a: nat)
    returns (j: nat)
    requires Run(c, states, acts) && Initial(states[0]) && k <= |acts| && a < |states[k].bids|
    requires Stage(states[k], a).Running? && Stage(states[k], a).phase.Releasing? && Stage(states[k], a).phase.keep == NO_GUID
    ensures StoodSince(states, acts, j, k, a)
    ensures DecidesToRelease(states[k].bids[a].algorithm, Stage(states[j], a).phase, Stage(states[k], a).phase.todo)
    decreases k
  {
    hide NextStage, Enabled, Initial, Next, DecidesToRelease, StoodSince, Inv;
    assert k > 0 by { NotAtFirst(states[0]); }
    var s, act := states[k - 1], acts[k - 1];
    OneStep(c, states, acts, k - 1, a);
    EveryReachableState(c, states, acts, k - 1);
    if act.bid == a {
      NotByClaiming(c, states[0].pool, s, act);
      if act.Release? {
        ReleasingBefore(c, s, act);
        var i := ReleasesWereUndercut(c, states, acts, k - 1, a);
        StoodFacts(states, acts, i, k - 1, a);
        OneToRelease(c, s, act, Stage(states[i], a).phase);
      } else {
        j := k - 1;
        EveryStageFits(c, states, acts, k - 1, a);
        StepToRelease(c, s, act);
        JustDecided(c, states, acts, k - 1);
      }
    } else {
      j := ReleasesWereUndercut(c, states, acts, k - 1, a);
      StillStands(states, acts, j, k - 1, a);
    }
  }

  lemma NotByClaiming(c: Config, v0: View, s: State, act: Action)
    requires Inv(c, v0, s) && Enabled(c, s, act)
    requires NextStage(c, s, act).Running? && NextStage(c, s, act).phase.Releasing? && NextStage(c, s, act).phase.keep == NO_GUID
    ensures !act.Claim?
  {
    hide Cheapest, Okay, Owned, OthersKept, ResultsOk;
    assert act.bid < |s.bids|;
    assert StageOk(c, s.bids[act.bid].stage, s.bids[act.bid].algorithm, s.pool.Keys);
  }

  lemma ReleasingBefore(c: Config, s: State, act: Action)
    requires Enabled(c, s, act) && act.Release?
    requires NextStage(c, s, act).Running? && NextStage(c, s, act).phase.Releasing? && NextStage(c, s, act).phase.keep == NO_GUID
    ensures act.bid < |s.bids| && Stage(s, act.bid).Running? && Stage(s, act.bid).phase.Releasing? && Stage(s, act.bid).phase.keep == NO_GUID
  {}

  /** There is only one to release, so that one release ends it. */
  lemma OneToRelease(c: Config, s: State, act: Action, decided: Phase)
    requires Enabled(c, s, act) && act.Release? && Stage(s, act.bid).Running?
    requires DecidesToRelease(s.bids[act.bid].algorithm, decided, Stage(s, act.bid).phase.todo)
    ensures !(NextStage(c, s, act).Running? && NextStage(c, s, act).phase.Releasing?)
  {
    assert Stage(s, act.bid).phase.todo - {act.rep} == {};
  }

  /** Whom the auction has claimed, if it is past that. */
  ghost function Claimed(stage: System.Stage): Guid {
    match stage
    case Running(_, Releasing(_, keep)) => keep
    case Running(_, Finished(winner)) => winner
    case Delivered(winner) => winner
    case Exited(winner) => winner
    case _ => NO_GUID
  }

  /** Past claiming, by claiming. */
  lemma StepPastClaim(c: Config, s: State, act: Action)
    requires Enabled(c, s, act) && Claimed(NextStage(c, s, act)) != NO_GUID
    ensures || Claimed(Stage(s, act.bid)) == Claimed(NextStage(c, s, act))
            || (act.Claim? && Stage(s, act.bid).Running? && Stage(s, act.bid).phase.Claiming?
                && Stage(s, act.bid).phase.winner == Claimed(NextStage(c, s, act)))
  {
    hide Cheapest, Okay;
  }

  /** In any run: no auction reports a winner, or lets the others go for it, that it has not claimed and decided to claim. */
  lemma {:induction false} WinnersWereClaimed(c: Config, states: seq<State>, acts: seq<Action>, k: nat, a: nat)
    returns (i: nat, j: nat)
    requires Run(c, states, acts) && Initial(states[0]) && k <= |acts| && a < |states[k].bids|
    requires Claimed(Stage(states[k], a)) != NO_GUID
    ensures i < j < k && acts[i].Decide? && acts[i].bid == a && acts[j].Claim? && acts[j].bid == a
    ensures a < |states[i].bids| && Stage(states[i], a).Running? && a < |states[j].bids| && Stage(states[j], a).Running?
    ensures Stage(states[j], a).phase.Claiming? && Stage(states[j], a).phase.winner == Claimed(Stage(states[k], a))
    ensures DecidesToClaim(states[k].bids[a].algorithm, Stage(states[i], a).phase,
                           Claimed(Stage(states[k], a)), Stage(states[j], a).phase.losers)
    decreases k
  {
    hide NextStage, Enabled, Initial, Next, DecidesToClaim, StoodSince;
    assert k > 0 by { NotAtFirst(states[0]); }
    var s, act := states[k - 1], acts[k - 1];
    OneStep(c, states, acts, k - 1, a);
    if act.bid == a {
      StepPastClaim(c, s, act);
      if Claimed(Stage(s, a)) == Claimed(Stage(states[k], a)) {
        i, j := WinnersWereClaimed(c, states, acts, k - 1, a);
      } else {
        j := k - 1;
        i := ClaimsWereDecided(c, states, acts, j, a);
        StoodFacts(states, acts, i, j, a);
      }
    } else {
      i, j := WinnersWereClaimed(c, states, acts, k - 1, a);
    }
  }

  // ---------------------------------------------------------------- where the answers came from

  /** The representative was asked in this phase of this round, and answered so. */
  ghost predicate Gave(c: Config, s: State, act: Action, a: nat, g: Guid, round: int, phase: Phase,
                       answer: Option<real>) {
    && a < |s.bids| && act.Ask? && act.bid == a && act.rep == g && g in s.pool
    && Stage(s, a).Running? && Stage(s, a).round == round && SameKindOfPhase(Stage(s, a).phase, phase)
    && Says(s.pool[g], s.bids[a].instance, act.timedOut, answer)
  }

  /** No answer but an error if it comes too late or there is no room; else the score. */
  ghost predicate Says(r: Rep, i: Instance, timedOut: bool, answer: Option<real>) {
    && r.PositiveTotals()
    && answer == if timedOut || !r.HasRoom(i.resources) then None else Some(r.Score(i.appGuid))
  }

  lemma StepGives(c: Config, s: State, act: Action, g: Guid)
    requires ValidView(s.pool) && Enabled(c, s, act) && NextStage(c, s, act).Running? && HasAnswers(NextStage(c, s, act).phase)
    requires g in NextStage(c, s, act).phase.got
    ensures var next := NextStage(c, s, act);
            || Gave(c, s, act, act.bid, g, next.round, next.phase, next.phase.got[g])
            || (Stage(s, act.bid).Running? && HasAnswers(Stage(s, act.bid).phase) && Stage(s, act.bid).round == next.round
                && SameKindOfPhase(Stage(s, act.bid).phase, next.phase)
                && g in Stage(s, act.bid).phase.got && Stage(s, act.bid).phase.got[g] == next.phase.got[g])
  {
    hide Cheapest, Okay, Says, AnswerOf, ValidView;
    if act.Ask? {
      AnswerSays(s.pool, act.rep, s.bids[act.bid].instance, act.timedOut);
    }
  }

  lemma AnswerSays(v: View, g: Guid, i: Instance, timedOut: bool)
    requires ValidView(v) && g in v
    ensures Says(v[g], i, timedOut, AnswerOf(v[g], i, timedOut))
  {
    hide Rep.HasRoom, Rep.Score;
  }

  /**
   * In any run, every answer that an auction has was given by the representative itself, from what it held
   * when it was asked, in the phase and the round the auction is in: an error if there was no room or no
   * answer in time, and else its score.
   */
  lemma {:induction false} AnswersWereGiven(c: Config, states: seq<State>, acts: seq<Action>, k: nat, a: nat, g: Guid)
    returns (j: nat)
    requires Run(c, states, acts) && Initial(states[0]) && k <= |acts| && a < |states[k].bids|
    requires Stage(states[k], a).Running? && HasAnswers(Stage(states[k], a).phase) && g in Stage(states[k], a).phase.got
    ensures j < k
    ensures var stage := Stage(states[k], a);
            Gave(c, states[j], acts[j], a, g, stage.round, stage.phase, stage.phase.got[g])
    decreases k
  {
    hide NextStage, Enabled, Initial, Next, Gave;
    assert k > 0 by { NotAtFirst(states[0]); }
    var s, act := states[k - 1], acts[k - 1];
    OneStep(c, states, acts, k - 1, a);
    if act.bid == a {
      EveryReachableState(c, states, acts, k - 1);
      StepGives(c, s, act, g);
      var stage := Stage(states[k], a);
      if Gave(c, s, act, a, g, stage.round, stage.phase, stage.phase.got[g]) {
        j := k - 1;
      } else {
        j := AnswersWereGiven(c, states, acts, k - 1, a, g);
        SameGift(c, states[j], acts[j], a, g, stage.round, Stage(s, a).phase, stage.phase, stage.phase.got[g]);
      }
    } else {
      j := AnswersWereGiven(c, states, acts, k - 1, a, g);
    }
  }

  lemma SameGift(c: Config, s: State, act: Action, a: nat, g: Guid, round: int, p: Phase, t: Phase, answer: Option<real>)
    requires Gave(c, s, act, a, g, round, p, answer) && SameKindOfPhase(p, t)
    ensures Gave(c, s, act, a, g, round, t, answer)
  {}

  // ---------------------------------------------------------------- who was told to reserve, and who to score again

  /** Those told to reserve are the cheapest, one or five, of all who were asked for their score. */
  ghost predicate Shortlisted(algorithm: Algorithm, before: Phase, phase: Phase) {
    && before.Scoring? && before.got.Keys == before.bidders
    && phase.Reserving? && phase.bidders == before.bidders
    && Okay(before.got) != {} && Cheapest(phase.asked, before.got, if algorithm == ReserveNBest then 5 else 1)
  }

  /** The one told to reserve has answered, and all the others of the round are asked again. */
  ghost predicate Recast(before: Phase, phase: Phase) {
    && before.Reserving? && phase.Rescoring?
    && before.asked == before.got.Keys == {phase.winner} && phase.recast == before.got[phase.winner]
    && phase.asked == before.bidders - {phase.winner}
  }

  /** Only the answers differ. */
  ghost predicate SameButAnswers(p: Phase, t: Phase)
    requires HasAnswers(t)
  {
    match p
    case Scoring(bidders, _) => t == Scoring(bidders, t.got)
    case Reserving(bidders, asked, _) => t == Reserving(bidders, asked, t.got)
    case Rescoring(asked, winner, recast, _) => t == Rescoring(asked, winner, recast, t.got)
    case _ => false
  }

  /** How the phases after the first scores come about. */
  ghost predicate Leads(algorithm: Algorithm, before: Phase, phase: Phase) {
    if phase.Reserving? then Shortlisted(algorithm, before, phase) else Recast(before, phase)
  }

  lemma StepLeads(c: Config, s: State, act: Action)
    requires Enabled(c, s, act) && Fits(Stage(s, act.bid), s.bids[act.bid].algorithm)
    requires var next := NextStage(c, s, act);
             next.Running? && (next.phase.Rescoring? || (next.phase.Reserving? && ScoresFirst(s.bids[act.bid].algorithm)))
    ensures var stage, next := Stage(s, act.bid), NextStage(c, s, act);
            && stage.Running? && stage.round == next.round
            && (SameButAnswers(stage.phase, next.phase)
                || (act.Decide? && Leads(s.bids[act.bid].algorithm, stage.phase, next.phase)))
  {
    hide Cheapest, Okay;
  }

  /**
   * In any run: whoever is told to reserve in a round was, by the scores of that round, among the cheapest
   * of all who were asked; and with all-rescore the second scores are asked of all the others, once the
   * one told to reserve has answered.
   */
  lemma {:induction false} PhasesWereDecided(c: Config, states: seq<State>, acts: seq<Action>, k: nat, a: nat)
    returns (j: nat)
    requires Run(c, states, acts) && Initial(states[0]) && k <= |acts| && a < |states[k].bids|
    requires Stage(states[k], a).Running?
    requires Stage(states[k], a).phase.Rescoring?
             || (Stage(states[k], a).phase.Reserving? && ScoresFirst(states[k].bids[a].algorithm))
    ensures j < k && acts[j].Decide? && acts[j].bid == a && a < |states[j].bids|
    ensures Stage(states[j], a).Running? && Stage(states[j], a).round == Stage(states[k], a).round
    ensures Leads(states[k].bids[a].algorithm, Stage(states[j], a).phase, Stage(states[k], a).phase)
    decreases k
  {
    hide NextStage, Enabled, Initial, Next, Leads, SameButAnswers;
    assert k > 0 by { NotAtFirst(states[0]); }
    var s, act := states[k - 1], acts[k - 1];
    OneStep(c, states, acts, k - 1, a);
    if act.bid == a {
      EveryStageFits(c, states, acts, k - 1, a);
      StepLeads(c, s, act);
      if SameButAnswers(Stage(s, a).phase, Stage(states[k], a).phase) {
        KindKept(Stage(s, a).phase, Stage(states[k], a).phase);
        j := PhasesWereDecided(c, states, acts, k - 1, a);
        LeadsToo(states[k].bids[a].algorithm, Stage(states[j], a).phase, Stage(s, a).phase, Stage(states[k], a).phase);
      } else {
        j := k - 1;
      }
    } else {
      j := PhasesWereDecided(c, states, acts, k - 1, a);
    }
  }

  lemma KindKept(p: Phase, t: Phase)
    requires HasAnswers(t) && SameButAnswers(p, t)
    ensures SameKindOfPhase(p, t)
  {}

  lemma LeadsToo(algorithm: Algorithm, before: Phase, p: Phase, t: Phase)
    requires Leads(algorithm, before, p) && HasAnswers(t) && SameButAnswers(p, t)
    ensures Leads(algorithm, before, t)
  {
    hide Cheapest, Okay;
  }

  // ---------------------------------------------------------------- what the schedule is free to do

  /**
   * A waiting auction may start exactly while fewer than the permitted number are past the semaphore; it may
   * draw any subset of the right size; and whoever has not answered yet may answer next, in time or too late.
   */
  lemma NothingIsRuledOut(c: Config, v0: View, s: State, a: nat)
    requires Inv(c, v0, s) && a < |s.bids|
    ensures Stage(s, a).Waiting? ==> (Enabled(c, s, Acquire(a)) <==> Active(s.bids) < c.maxConcurrent)
    ensures Stage(s, a).Running? && Stage(s, a).phase.Picking? ==>
              forall chosen: set<Guid> | chosen <= s.pool.Keys :: Enabled(c, s, Draw(a, chosen)) <==>
                |chosen| == if s.bids[a].algorithm == Random then 1 else c.bidders
    ensures Stage(s, a).Running? && HasAnswers(Stage(s, a).phase) ==>
              forall g, timedOut :: g in Awaited(Stage(s, a).phase) ==> Enabled(c, s, Ask(a, g, timedOut))
  {
    hide Owned, OthersKept, ResultsOk, ValidView;
    assert StageOk(c, s.bids[a].stage, s.bids[a].algorithm, s.pool.Keys);
  }

  /** Those whose answer is still to come. */
  ghost function Awaited(phase: Phase): set<Guid>
    requires HasAnswers(phase)
  {
    match phase
    case Scoring(bidders, got) => bidders - got.Keys
    case Reserving(_, asked, got) => asked - got.Keys
    case Rescoring(asked, _, _, got) => asked - got.Keys
  }

  // ---------------------------------------------------------------- how many rounds

  /** Rounds are tried one after another, and an auction gives up only when all of them have failed. */
  ghost predicate InItsRound(c: Config, stage: System.Stage) {
    stage.Running? ==>
      if stage.phase == Finished(NO_GUID) then stage.round == (if c.maxRounds < 0 then 0 else c.maxRounds) + 1
      else 1 <= stage.round <= c.maxRounds
  }

  lemma StepInItsRound(c: Config, s: State, act: Action)
    requires Enabled(c, s, act) && InItsRound(c, Stage(s, act.bid)) && NO_GUID !in s.pool
    requires StageOk(c, Stage(s, act.bid), s.bids[act.bid].algorithm, s.pool.Keys)
    ensures InItsRound(c, NextStage(c, s, act))
  {
    hide Cheapest, Okay;
  }

  lemma {:induction false} EveryRoundIsTried(c: Config, states: seq<State>, acts: seq<Action>, k: nat, a: nat)
    requires Run(c, states, acts) && Initial(states[0]) && k <= |acts| && a < |states[k].bids|
    ensures InItsRound(c, Stage(states[k], a))
    decreases k
  {
    hide NextStage, Enabled, Initial, Next, InItsRound, StageOk;
    if k == 0 {
      NotAtFirst(states[0]);
      NotRunningYet(c);
    } else {
      var s, act := states[k - 1], acts[k - 1];
      OneStep(c, states, acts, k - 1, a);
      EveryRoundIsTried(c, states, acts, k - 1, a);
      if act.bid == a {
        EveryReachableState(c, states, acts, k - 1);
        NoGuid(s.pool);
        StepInItsRound(c, s, act);
      }
    }
  }

  lemma NotRunningYet(c: Config)
    ensures InItsRound(c, Waiting)
  {}
}
