/**
 * Properties of the instructions of MafiaSpec: what each one does on
 * success and on failure, the elimination rule, the invariants a game keeps,
 * and the places where the program lets those invariants go.
 */
module MafiaProofs {
  import opened MafiaSpec

  // ---------------------------------------------------------------------
  // Counting roles

  lemma {:induction false} CountOfAppend(a: seq<Role>, b: seq<Role>, r: Role)
    ensures CountOf(a + b, r) == CountOf(a, r) + CountOf(b, r)
  {
    if a == [] {
      assert a + b == b;
    } else {
      assert (a + b)[1..] == a[1..] + b;
      CountOfAppend(a[1..], b, r);
    }
  }

  /** Removing one position takes away exactly that position's role. */
  lemma CountOfRemoveAt(s: seq<Role>, i: nat, r: Role)
    requires i < |s|
    ensures CountOf(RemoveAt(s, i), r) == CountOf(s, r) - (if s[i] == r then 1 else 0)
  {
    assert s == s[..i] + ([s[i]] + s[i + 1..]);
    CountOfAppend(s[..i], [s[i]] + s[i + 1..], r);
    CountOfAppend([s[i]], s[i + 1..], r);
    CountOfAppend(s[..i], s[i + 1..], r);
  }

  /** With exactly one culprit, "every remaining role is Culprit" means "one player left". */
  lemma {:induction false} SoleCulpritIsAllCulprit(roles: seq<Role>)
    requires CountOf(roles, Culprit) == 1
    ensures AllCulprit(roles) <==> |roles| == 1
  {
    if roles[0] == Culprit {
      if |roles| > 1 {
        CountOfNone(roles[1..], Culprit);
        assert roles[1..][0] == roles[1];
      }
    } else {
      assert |roles[1..]| >= 1;
    }
  }

  lemma {:induction false} CountOfNone(s: seq<Role>, r: Role)
    ensures CountOf(s, r) == 0 <==> forall i :: 0 <= i < |s| ==> s[i] != r
  {
    if s != [] {
      CountOfNone(s[1..], r);
      assert forall i :: 1 <= i < |s| ==> s[1..][i - 1] == s[i];
    }
  }

  lemma {:induction false} CountOfAll(s: seq<Role>, r: Role)
    requires forall i :: 0 <= i < |s| ==> s[i] == r
    ensures CountOf(s, r) == |s|
  {
    if s != [] {
      CountOfAll(s[1..], r);
    }
  }

  lemma AssignedRolesCount(k: nat)
    requires k < MaxPlayers
    ensures CountOf(AssignedRoles(k), Culprit) == 1
    ensures CountOf(AssignedRoles(k), Citizen) == 3
  {
    var s := AssignedRoles(k);
    var before, after := s[..k], s[k + 1..];
    assert s == before + ([Culprit] + after);
    CountOfAppend(before, [Culprit] + after, Culprit);
    CountOfAppend([Culprit], after, Culprit);
    CountOfAppend(before, [Culprit] + after, Citizen);
    CountOfAppend([Culprit], after, Citizen);
    CountOfNone(before, Culprit);
    CountOfNone(after, Culprit);
    CountOfAll(before, Citizen);
    CountOfAll(after, Citizen);
  }

  // ---------------------------------------------------------------------
  // initialize and join_game

  lemma InitialIsConsistent()
    ensures Consistent(Initial())
    ensures Initial().votes == [0, 0, 0, 0]
  {
  }

  /**
   * join_game fails with GameFull on a full roster and with TransferFailed
   * when the stake does not move; otherwise only `players` changes, by one
   * new last entry.
   */
  lemma JoinAppendsOrFails(g: GameData, player: Pubkey, transferOk: bool)
    ensures Join(g, player, transferOk).outcome == Ok <==> |g.players| < MaxPlayers && transferOk
    ensures |g.players| >= MaxPlayers ==> Join(g, player, transferOk) == Step(Err(Custom(GameFull)), g)
    ensures |g.players| < MaxPlayers && !transferOk ==> Join(g, player, transferOk) == Step(Err(TransferFailed), g)
    ensures Join(g, player, transferOk).outcome == Ok ==>
              var g' := Join(g, player, transferOk).game;
              && g'.players == g.players + [player]
              && g'.roles == g.roles && g'.votes == g.votes
              && g'.turn == g.turn && g'.state == g.state
    ensures |g.players| <= MaxPlayers ==> |Join(g, player, transferOk).game.players| <= MaxPlayers
  {
  }

  // ---------------------------------------------------------------------
  // start_game

  /**
   * start_game succeeds exactly on a roster of four; it then gives the
   * culprit role to position `k` only, the citizen role to the other three,
   * and moves the game to InProgress.
   */
  lemma StartAssignsOneCulprit(g: GameData, k: nat)
    requires k < MaxPlayers
    ensures Start(g, k).outcome == Ok <==> |g.players| == MaxPlayers
    ensures |g.players| != MaxPlayers ==> Start(g, k) == Step(Err(Custom(NotEnoughPlayers)), g)
    ensures Start(g, k).outcome == Ok ==>
              var g' := Start(g, k).game;
              && |g'.roles| == MaxPlayers
              && g'.roles[k] == Culprit
              && (forall i :: 0 <= i < MaxPlayers && i != k ==> g'.roles[i] == Citizen)
              && CountOf(g'.roles, Culprit) == 1
              && CountOf(g'.roles, Citizen) == 3
              && g'.state == InProgress
              && g'.players == g.players && g'.votes == g.votes && g'.turn == g.turn
  {
    AssignedRolesCount(k);
  }

  // ---------------------------------------------------------------------
  // vote_player

  /**
   * vote_player fails with GameNotInProgress outside the InProgress phase
   * and with InvalidVote for a position past the roster; every failure
   * leaves the account as it was. A success adds one vote to position
   * `v` and changes nothing else.
   */
  lemma VoteTallies(g: GameData, v: u8)
    requires |g.players| <= MaxPlayers
    ensures g.state != InProgress ==> Vote(g, v) == Step(Err(Custom(GameNotInProgress)), g)
    ensures g.state == InProgress && v as int >= |g.players| ==> Vote(g, v) == Step(Err(Custom(InvalidVote)), g)
    ensures Vote(g, v).outcome.Err? ==> Vote(g, v).game == g
    ensures Vote(g, v).outcome == Ok <==>
              g.state == InProgress && v as int < |g.players| && v as int < |g.votes| && g.votes[v] < 255
    ensures Vote(g, v).outcome == Ok ==>
              var g' := Vote(g, v).game;
              && |g'.votes| == |g.votes|
              && g'.votes[v] == g.votes[v] + 1
              && (forall j :: 0 <= j < |g.votes| && j != v as int ==> g'.votes[j] == g.votes[j])
              && g'.players == g.players && g'.roles == g.roles
              && g'.state == g.state && g'.turn == g.turn
  {
  }

  // ---------------------------------------------------------------------
  // The elimination rule of end_round

  /** ArgMaxFirst is the only position that holds the maximum first. */
  lemma ArgMaxFirstIsTheFirstMax(s: seq<u8>, i: nat)
    requires |s| > 0
    ensures IsFirstMax(s, i) <==> i == ArgMaxFirst(s)
  {
  }

  /** With no votes cast, end_round picks position 0. */
  lemma NoVotesPicksFirst(s: seq<u8>)
    requires forall j :: 0 <= j < |s| ==> s[j] == 0
    ensures ArgMaxFirst(s) == 0
  {
  }

  // ---------------------------------------------------------------------
  // end_round

  /** A successful end_round always leaves one zero vote per remaining player. */
  lemma EndRoundResetsVotes(g: GameData)
    ensures EndRound(g).outcome == Ok ==>
              var g' := EndRound(g).game;
              && |g'.votes| == |g'.players|
              && (forall j :: 0 <= j < |g'.votes| ==> g'.votes[j] == 0)
    ensures EndRound(g).outcome.Err? ==> EndRound(g).game == g
  {
  }

  /** Eliminating the culprit finishes the game and keeps players and roles. */
  lemma EndRoundCatchesCulprit(g: GameData)
    requires ArgMaxFirst(g.votes) < |g.roles|
    requires g.roles[ArgMaxFirst(g.votes)] == Culprit
    ensures EndRound(g).outcome == Ok
    ensures EndRound(g).game == g.(state := Finished, votes := Zeros(|g.players|))
  {
  }

  /**
   * Eliminating a citizen removes its position from players and roles, keeping
   * the order of the others, and finishes the game exactly when every
   * remaining role is Culprit.
   */
  lemma EndRoundRemovesCitizen(g: GameData)
    requires ArgMaxFirst(g.votes) < |g.roles| <= |g.players|
    requires g.roles[ArgMaxFirst(g.votes)] == Citizen
    ensures EndRound(g).outcome == Ok
    ensures
      var t := ArgMaxFirst(g.votes);
      var g' := EndRound(g).game;
      && g'.players == g.players[..t] + g.players[t + 1..]
      && g'.roles == g.roles[..t] + g.roles[t + 1..]
      && (g'.state == Finished <==> AllCulprit(g'.roles) || g.state == Finished)
      && (!AllCulprit(g'.roles) ==> g'.state == g.state)
      && g'.turn == g.turn
  {
  }

  /**
   * A round of a game that has been dealt normally (players, roles and votes
   * aligned, one culprit, InProgress) succeeds and keeps all of that; the
   * game is then finished exactly when the culprit went or is the last one
   * left, and otherwise continues with one player fewer and at least two.
   */
  lemma RoundKeepsTable(g: GameData)
    requires Aligned(g) && g.state == InProgress
    requires CountOf(g.roles, Culprit) == 1
    ensures EndRound(g).outcome == Ok
    ensures Aligned(EndRound(g).game)
    ensures CountOf(EndRound(g).game.roles, Culprit) == 1
    ensures
      var t := ArgMaxFirst(g.votes);
      var g' := EndRound(g).game;
      && (g'.state == Finished <==> g.roles[t] == Culprit || |g'.players| == 1)
      && (g'.state != Finished ==> g'.state == InProgress && |g'.players| == |g.players| - 1 >= 2)
  {
    var t := ArgMaxFirst(g.votes);
    if g.roles[t] == Citizen {
      var roles' := RemoveAt(g.roles, t);
      CountOfRemoveAt(g.roles, t, Culprit);
      SoleCulpritIsAllCulprit(roles');
    }
  }

  // ---------------------------------------------------------------------
  // Invariants over every reachable account

  lemma JoinKeepsConsistent(g: GameData, player: Pubkey, transferOk: bool)
    requires Consistent(g)
    ensures Consistent(Join(g, player, transferOk).game)
  {
  }

  lemma StartKeepsConsistent(g: GameData, k: nat)
    requires Consistent(g) && k < MaxPlayers
    ensures Consistent(Start(g, k).game)
  {
    AssignedRolesCount(k);
  }

  lemma VoteKeepsConsistent(g: GameData, v: u8)
    requires Consistent(g)
    ensures Consistent(Vote(g, v).game)
  {
  }

  /** A game dealt from a consistent waiting account has one vote slot and one role per player. */
  lemma StartFromWaitingAligns(g: GameData, k: nat)
    requires k < MaxPlayers && Consistent(g) && g.state == WaitingForPlayers
    requires Start(g, k).outcome == Ok
    ensures Aligned(Start(g, k).game)
    ensures Start(g, k).game.votes == Zeros(|Start(g, k).game.players|)
  {
  }

  lemma EndRoundKeepsConsistent(g: GameData)
    requires Consistent(g)
    ensures Consistent(EndRound(g).game)
  {
    var t := ArgMaxFirst(g.votes);
    if t < |g.roles| && g.roles[t] == Citizen {
      CountOfRemoveAt(g.roles, t, Culprit);
    }
  }

  /** Before start_game, end_round always panics on the empty roles vector. */
  lemma EndRoundBeforeStartPanics(g: GameData)
    requires Consistent(g) && g.state == WaitingForPlayers
    ensures EndRound(g) == Step(Err(IndexOutOfBounds), g)
  {
  }

  /** In a consistent account a started game always has its culprit in the roster. */
  lemma CulpritStaysSeated(g: GameData)
    requires Consistent(g) && g.state != WaitingForPlayers
    ensures exists i :: 0 <= i < |g.roles| && g.roles[i] == Culprit
    ensures |g.players| >= 1
  {
    CountOfNone(g.roles, Culprit);
  }

  // ---------------------------------------------------------------------
  // The phase order

  /**
   * join_game and vote_player keep the phase and end_round keeps it or moves
   * it to Finished; start_game is the exception (StartRestartsFinishedGame).
   */
  lemma PhaseKeptOrFinished(g: GameData, player: Pubkey, transferOk: bool, v: u8)
    ensures Join(g, player, transferOk).game.state == g.state
    ensures Vote(g, v).game.state == g.state
    ensures EndRound(g).game.state == g.state || EndRound(g).game.state == Finished
    ensures Rank(EndRound(g).game.state) >= Rank(g.state)
  {
  }

  /**
   * start_game has no phase guard: a finished game whose culprit was caught
   * still holds four players, and start_game deals it again and returns it
   * to InProgress.
   */
  lemma StartRestartsFinishedGame(g: GameData, k: nat)
    requires k < MaxPlayers
    requires Consistent(g) && Aligned(g) && g.state == InProgress && |g.players| == MaxPlayers
    requires g.roles[ArgMaxFirst(g.votes)] == Culprit
    ensures EndRound(g).game.state == Finished
    ensures Start(EndRound(g).game, k).outcome == Ok
    ensures Rank(Start(EndRound(g).game, k).game.state) < Rank(EndRound(g).game.state)
  {
    CulpritStaysSeated(g);
  }

  /**
   * join_game has no phase guard either: after an elimination a fourth
   * player can join a game in progress. Only `players` grows, so the three
   * sequences fall out of step, and a vote for the new last position passes
   * the roster check and then panics on the shorter votes vector.
   */
  lemma MidGameJoinBreaksAlignment(g: GameData, player: Pubkey)
    requires Aligned(g) && g.state == InProgress && |g.players| < MaxPlayers
    ensures Join(g, player, true).outcome == Ok
    ensures !Aligned(Join(g, player, true).game)
    ensures Vote(Join(g, player, true).game, |g.players| as u8) ==
              Step(Err(IndexOutOfBounds), Join(g, player, true).game)
  {
  }

  /**
   * A culprit caught after an elimination leaves a finished game of three
   * players. start_game alone refuses it, but join_game has no phase guard:
   * one more join refills the roster and start_game deals it again.
   */
  lemma JoinRefillsFinishedGame(g: GameData, q: Pubkey, k: nat)
    requires k < MaxPlayers
    requires Consistent(g) && g.state == Finished && |g.players| == MaxPlayers - 1
    ensures Start(g, k) == Step(Err(Custom(NotEnoughPlayers)), g)
    ensures Join(g, q, true).outcome == Ok
    ensures Start(Join(g, q, true).game, k).outcome == Ok
    ensures Start(Join(g, q, true).game, k).game.state == InProgress
  {
  }

  /** Round 2 of a game: the culprit is caught among three players, who all stay. */
  lemma LateCatchLeavesThree(g: GameData)
    requires Aligned(g) && g.state == InProgress && |g.players| == MaxPlayers - 1
    requires CountOf(g.roles, Culprit) == 1
    requires g.roles[ArgMaxFirst(g.votes)] == Culprit
    ensures EndRound(g).game.state == Finished
    ensures |EndRound(g).game.players| == MaxPlayers - 1
    ensures Consistent(EndRound(g).game)
  {
    EndRoundKeepsConsistent(g);
  }

  /**
   * start_game re-deals a game that is still in progress: with four players
   * seated it succeeds again, moves the culprit to the new draw and keeps
   * the votes already cast.
   */
  lemma StartRedealsGameInProgress(g: GameData, k: nat)
    requires k < MaxPlayers && g.state == InProgress && |g.players| == MaxPlayers
    ensures Start(g, k).outcome == Ok
    ensures Start(g, k).game.state == InProgress
    ensures Start(g, k).game.roles == AssignedRoles(k)
    ensures Start(g, k).game.votes == g.votes
  {
  }

  /**
   * join_game checks only the roster size, not whether the key is already
   * seated: the same key can join again and take a second seat.
   */
  lemma DuplicateJoinAccepted(g: GameData, p: Pubkey)
    requires |g.players| < MaxPlayers && p in g.players
    ensures Join(g, p, true).outcome == Ok
    ensures multiset(Join(g, p, true).game.players)[p] == multiset(g.players)[p] + 1
    ensures multiset(Join(g, p, true).game.players)[p] >= 2
  {
  }

  /** One key can hold all four seats. */
  lemma OneKeyFillsTheRoster(p: Pubkey)
    ensures
      var g := Join(Join(Join(Join(Initial(), p, true).game, p, true).game, p, true).game, p, true).game;
      g.players == [p, p, p, p] && Start(g, 0).outcome == Ok
  {
  }
}
