/**
 * Whole games played through the instruction functions of MafiaSpec, from
 * `initialize` on, with four fixed participants.
 */
module MafiaScenarios {
  import opened MafiaSpec
  import opened MafiaProofs

  const A := Pubkey([1])
  const B := Pubkey([2])
  const C := Pubkey([3])
  const D := Pubkey([4])

  /** initialize, then A, B, C and D join (every transfer succeeds), then start_game. */
  function Dealt(culpritIndex: nat): (g: GameData)
    requires culpritIndex < MaxPlayers
    ensures g.players == [A, B, C, D] && g.votes == Zeros(4)
    ensures g.roles == AssignedRoles(culpritIndex) && g.state == InProgress
  {
    var g1 := Join(Initial(), A, true).game;
    var g2 := Join(g1, B, true).game;
    var g3 := Join(g2, C, true).game;
    var g4 := Join(g3, D, true).game;
    Start(g4, culpritIndex).game
  }

  /** Three successful votes for position `v`. */
  function ThreeVotes(g: GameData, v: u8): GameData {
    Vote(Vote(Vote(g, v).game, v).game, v).game
  }

  lemma {:induction false} ThreeVotesAddThree(g: GameData, v: u8)
    requires g.state == InProgress && v as int < |g.players| <= MaxPlayers
    requires v as int < |g.votes| && g.votes[v] == 0
    ensures ThreeVotes(g, v) == g.(votes := g.votes[v := 3])
  {
    VoteTallies(g, v);
    VoteTallies(Vote(g, v).game, v);
    VoteTallies(Vote(Vote(g, v).game, v).game, v);
  }

  /** A fifth participant is turned away with GameFull. */
  lemma FifthJoinIsRefused(e: Pubkey)
    ensures
      var g4 := Join(Join(Join(Join(Initial(), A, true).game, B, true).game, C, true).game, D, true).game;
      Join(g4, e, true) == Step(Err(Custom(GameFull)), g4)
  {
  }

  /** Votes [2, 2, 1]: the tie goes to position 0. */
  lemma TieGoesToLowestIndex()
    ensures ArgMaxFirst([2, 2, 1]) == 0
  {
    ArgMaxFirstIsTheFirstMax([2, 2, 1], 0);
  }

  /** D is the culprit and gets all three votes: the citizens win with the roster intact. */
  lemma CitizensWin()
    ensures
      var g := EndRound(ThreeVotes(Dealt(3), 3));
      && g.outcome == Ok
      && g.game.state == Finished
      && g.game.players == [A, B, C, D]
      && g.game.roles == AssignedRoles(3)
      && g.game.votes == [0, 0, 0, 0]
  {
    var g := Dealt(3);
    ThreeVotesAddThree(g, 3);
    var voted := ThreeVotes(g, 3);
    assert voted.votes == [0, 0, 0, 3];
    ArgMaxFirstIsTheFirstMax(voted.votes, 3);
  }

  /** Round 1 of the culprit's win: C is the culprit and A gets three votes. */
  lemma {:induction false} CulpritWinsRoundOne()
    ensures EndRound(ThreeVotes(Dealt(2), 0)) ==
              Step(Ok, GameData([B, C, D], [Citizen, Culprit, Citizen], [0, 0, 0], 0, InProgress))
  {
    var g := Dealt(2);
    assert g.roles == [Citizen, Citizen, Culprit, Citizen];
    ThreeVotesAddThree(g, 0);
    ArgMaxFirstIsTheFirstMax([3, 0, 0, 0], 0);
    EndRoundRemovesCitizen(ThreeVotes(g, 0));
    assert [A, B, C, D][..0] + [A, B, C, D][1..] == [B, C, D];
    assert g.roles[..0] + g.roles[1..] == [Citizen, Culprit, Citizen];
    assert !AllCulprit([Citizen, Culprit, Citizen]) by { assert [Citizen, Culprit, Citizen][0] == Citizen; }
  }

  /** Round 2: D, now at position 2, gets three votes. */
  lemma {:induction false} CulpritWinsRoundTwo()
    ensures
      var g := GameData([B, C, D], [Citizen, Culprit, Citizen], [0, 0, 0], 0, InProgress);
      EndRound(ThreeVotes(g, 2)) == Step(Ok, GameData([B, C], [Citizen, Culprit], [0, 0], 0, InProgress))
  {
    var g := GameData([B, C, D], [Citizen, Culprit, Citizen], [0, 0, 0], 0, InProgress);
    ThreeVotesAddThree(g, 2);
    ArgMaxFirstIsTheFirstMax([0, 0, 3], 2);
    EndRoundRemovesCitizen(ThreeVotes(g, 2));
    assert [B, C, D][..2] + [B, C, D][3..] == [B, C];
    assert g.roles[..2] + g.roles[3..] == [Citizen, Culprit];
    assert !AllCulprit([Citizen, Culprit]) by { assert [Citizen, Culprit][0] == Citizen; }
  }

  /** Round 3: B gets three votes and C is left alone. */
  lemma {:induction false} CulpritWinsRoundThree()
    ensures
      var g := GameData([B, C], [Citizen, Culprit], [0, 0], 0, InProgress);
      EndRound(ThreeVotes(g, 0)) == Step(Ok, GameData([C], [Culprit], [0], 0, Finished))
  {
    var g := GameData([B, C], [Citizen, Culprit], [0, 0], 0, InProgress);
    ThreeVotesAddThree(g, 0);
    ArgMaxFirstIsTheFirstMax([3, 0], 0);
    EndRoundRemovesCitizen(ThreeVotes(g, 0));
    assert [B, C][..0] + [B, C][1..] == [C];
    assert g.roles[..0] + g.roles[1..] == [Culprit];
  }

  /**
   * After round 1 of the culprit's win, C gets three votes and is caught
   * among three players. start_game refuses the finished game, but a fourth
   * key `e` joins it and start_game deals a new round of roles.
   */
  lemma {:induction false} LateCatchIsRefilledAndRedealt(e: Pubkey)
    ensures
      var g := GameData([B, C, D], [Citizen, Culprit, Citizen], [0, 0, 0], 0, InProgress);
      var finished := EndRound(ThreeVotes(g, 1)).game;
      var refilled := Join(finished, e, true).game;
      && finished == GameData([B, C, D], [Citizen, Culprit, Citizen], [0, 0, 0], 0, Finished)
      && Start(finished, 0).outcome == Err(Custom(NotEnoughPlayers))
      && refilled.players == [B, C, D, e]
      && Start(refilled, 0).outcome == Ok
      && Start(refilled, 0).game.state == InProgress
  {
    var g := GameData([B, C, D], [Citizen, Culprit, Citizen], [0, 0, 0], 0, InProgress);
    ThreeVotesAddThree(g, 1);
    ArgMaxFirstIsTheFirstMax([0, 3, 0], 1);
    EndRoundCatchesCulprit(ThreeVotes(g, 1));
    assert Zeros(3) == [0, 0, 0];
    var finished := EndRound(ThreeVotes(g, 1)).game;
    assert finished == GameData([B, C, D], [Citizen, Culprit, Citizen], [0, 0, 0], 0, Finished);
    JoinRefillsFinishedGame(finished, e, 0);
  }

  /**
   * C is the culprit. Round 1 eliminates A, round 2 eliminates D (now at
   * position 2), round 3 eliminates B, and C alone is left: the culprit wins.
   */
  lemma CulpritWins()
    ensures
      var r1 := EndRound(ThreeVotes(Dealt(2), 0));
      var r2 := EndRound(ThreeVotes(r1.game, 2));
      var r3 := EndRound(ThreeVotes(r2.game, 0));
      && r1.outcome == Ok && r1.game.players == [B, C, D]
      && r1.game.state == InProgress && r1.game.votes == [0, 0, 0]
      && r2.outcome == Ok && r2.game.players == [B, C] && r2.game.state == InProgress
      && r3.outcome == Ok && r3.game.players == [C] && r3.game.roles == [Culprit]
      && r3.game.state == Finished
  {
    CulpritWinsRoundOne();
    CulpritWinsRoundTwo();
    CulpritWinsRoundThree();
  }

  /**
   * end_round has no phase guard: called again on the game the citizens won,
   * the reset votes point at position 0, a citizen, and A is removed from
   * the finished game.
   */
  lemma EndRoundAfterCitizensWinRemovesAPlayer()
    ensures
      var finished := EndRound(ThreeVotes(Dealt(3), 3)).game;
      var again := EndRound(finished);
      && finished.state == Finished
      && again.outcome == Ok
      && again.game.state == Finished
      && again.game.players == [B, C, D]
  {
    CitizensWin();
    var finished := EndRound(ThreeVotes(Dealt(3), 3)).game;
    NoVotesPicksFirst(finished.votes);
  }
}
