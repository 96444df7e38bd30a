/**
 * The mini-mafia program: the `Game` account as an object whose instructions
 * update its fields in place. Each instruction is specified by the matching
 * function of MafiaSpec on the account's value before and after the call.
 */
module MiniMafia {
  import opened MafiaSpec

  /**
   * The scan at the top of end_round: walk the votes left to right, taking
   * a position only when its count is strictly above the best seen so far.
   */
  method FindEliminationTarget(votes: seq<u8>) returns (target: nat)
    ensures target == ArgMaxFirst(votes)
    ensures |votes| > 0 ==> IsFirstMax(votes, target)
  {
    var maxVotes: u8 := 0;
    target := 0;
    for i := 0 to |votes|
      invariant target == ArgMaxFirst(votes[..i])
      invariant maxVotes == if i == 0 then 0 else votes[target]
    {
      assert votes[..i + 1][..i] == votes[..i];
      if votes[i] > maxVotes {
        maxVotes := votes[i];
        target := i;
      }
    }
    assert votes[..|votes|] == votes;
  }

  class Game {
    var players: seq<Pubkey>
    var roles: seq<Role>
    var votes: seq<u8>
    var turn: u8
    var state: GameState

    /** The account's current contents. */
    function Data(): GameData
      reads this
    {
      GameData(players, roles, votes, turn, state)
    }

    /** initialize: empty roster, no roles, four zero votes. */
    constructor ()
      ensures players == [] && roles == [] && votes == [0, 0, 0, 0]
      ensures turn == 0 && state == WaitingForPlayers
      ensures Data() == Initial()
    {
      players := [];
      roles := [];
      turn := 0;
      state := WaitingForPlayers;
      votes := [0, 0, 0, 0];
    }

    /** join_game; the stake transfer's success is the input `transferOk`. */
    method JoinGame(player: Pubkey, transferOk: bool) returns (outcome: Outcome)
      modifies this
      ensures Step(outcome, Data()) == Join(old(Data()), player, transferOk)
    {
      if |players| >= MaxPlayers {
        return Err(Custom(GameFull));
      }
      if !transferOk {
        return Err(TransferFailed);
      }
      players := players + [player];
      outcome := Ok;
    }

    /** start_game; `culpritIndex` is the draw of the random generator. */
    method StartGame(culpritIndex: nat) returns (outcome: Outcome)
      requires culpritIndex < MaxPlayers
      modifies this
      ensures Step(outcome, Data()) == Start(old(Data()), culpritIndex)
    {
      if |players| != MaxPlayers {
        return Err(Custom(NotEnoughPlayers));
      }
      roles := [Citizen, Citizen, Citizen, Citizen];
      roles := roles[culpritIndex := Culprit];
      state := InProgress;
      outcome := Ok;
    }

    /** vote_player; the signer is not consulted. */
    method VotePlayer(voteFor: u8) returns (outcome: Outcome)
      modifies this
      ensures Step(outcome, Data()) == Vote(old(Data()), voteFor)
    {
      if state != InProgress {
        return Err(Custom(GameNotInProgress));
      }
      if voteFor as int >= RosterLenAsU8(players) {
        return Err(Custom(InvalidVote));
      }
      if voteFor as int >= |votes| {
        return Err(IndexOutOfBounds);
      }
      if votes[voteFor] == 255 {
        return Err(ArithmeticOverflow);
      }
      votes := votes[voteFor := votes[voteFor] + 1];
      outcome := Ok;
    }

    /** end_round. */
    method EndRound() returns (outcome: Outcome)
      modifies this
      ensures Step(outcome, Data()) == MafiaSpec.EndRound(old(Data()))
    {
      var target := FindEliminationTarget(votes);
      if target >= |roles| {
        return Err(IndexOutOfBounds);
      }
      if roles[target] == Culprit {
        state := Finished;
      } else {
        if target >= |players| {
          return Err(IndexOutOfBounds);
        }
        players := players[..target] + players[target + 1..];
        roles := roles[..target] + roles[target + 1..];
        if AllCulprit(roles) {
          state := Finished;
        }
      }
      votes := Zeros(|players|);
      outcome := Ok;
    }
  }
}
