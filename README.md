# mini-mafia in Dafny

A model of the on-chain game program `mini_mafia`. Four participants join a
game account, one of them is dealt the hidden Culprit role and the other three
the Citizen role, and rounds of voting eliminate one roster position per
round. The game finishes when the culprit is eliminated (citizens win) or when
only culprits remain (culprit wins).

The model has three parts:

- `mafia_spec.dfy`, module `MafiaSpec`: the `Game` account as a value
  (`GameData`: `players`, `roles`, `votes`, `turn`, `state`), the `GameState`
  and `Role` enums, the program's `CustomError` codes and the other ways an
  instruction aborts. Each instruction is a function from the account before
  the call to a `Step` (the returned `Outcome` and the account after it). The
  elimination rule is `ArgMaxFirst`. `Consistent` and `Aligned` are the
  account invariants.
- `mini_mafia.dfy`, module `MiniMafia`: the account as a class `Game` whose
  methods update its fields in place, as the Rust instructions do through
  `&mut`. Each method's postcondition ties the result and the new fields to
  the matching `MafiaSpec` function of the old fields. The vote scan of
  `end_round` is the loop of `FindEliminationTarget`, proved against
  `ArgMaxFirst`.
- `mafia_proofs.dfy`, module `MafiaProofs`, and `mafia_scenarios.dfy`, module
  `MafiaScenarios`: the properties of the instructions and whole games played
  from `initialize`.

Every way an instruction can fail is an `Err` outcome that leaves the account
unchanged. This covers the `require!` guards, a failed stake transfer, a
vector index past the end, and a `u8` vote counter at 255. The runtime
discards all changes of a failed instruction, and in this program every
failure also happens before the first write. The only `requires` on an
instruction is `culpritIndex < 4`. It stands for the range the random draw
of `start_game` comes from.

## Where the code and the evident intent differ

The model follows the code. The evident intent of the game is a roster of
distinct players, phases that only move forward, sequences that stay aligned,
and rounds that are rejected outside a running game. The code differs from
that intent in five places, and each difference is proved:

- Phases are not forward-only. `start_game` has no phase guard. A game whose
  culprit is caught in the first round keeps its four players and can be
  dealt again, which takes it from `Finished` back to `InProgress`
  (`StartRestartsFinishedGame`). A culprit caught after an elimination leaves
  three players (`LateCatchLeavesThree`), and `start_game` alone then fails
  with `NotEnoughPlayers`. But `join_game` has no phase guard either: one
  more join refills the finished game and `start_game` deals it again
  (`JoinRefillsFinishedGame`, `LateCatchIsRefilledAndRedealt`).
  A game still in progress with four players is dealt again too: the culprit
  moves to the new draw and the votes already cast stay
  (`StartRedealsGameInProgress`).
- The roster need not be distinct. `join_game` checks only the number of
  players, not whether the key is already seated. The same key can take a
  second seat (`DuplicateJoinAccepted`), and one key can fill all four seats
  and start the game (`OneKeyFillsTheRoster`).
- `players`, `roles` and `votes` are not aligned at every point. `join_game`
  has no phase guard either. After an elimination a new player can join,
  which grows `players` only. A later vote for the last position passes the
  `InvalidVote` guard and then indexes past `votes`
  (`MidGameJoinBreaksAlignment`).
- `end_round` after `Finished` is not a no-op. The reset votes point at
  position 0. If that is a citizen, the citizen is removed from the finished
  game (`EndRoundAfterCitizensWinRemovesAPlayer`).
- `end_round` before `start_game` is not a rejection with an error code. It
  reads `roles[0]` of an empty vector and panics (`EndRoundBeforeStartPanics`).

The culprit-wins test in the code is `roles.iter().all(..)`, which also
holds of an empty vector; the evident intent is a non-empty roster there.
The model keeps the code's test (`AllCulprit`). `CulpritStaysSeated` shows
the empty case cannot arise in a consistent game.

## Model

| member | source | states |
|---|---|---|
| `MafiaSpec.Initial` | programs/mini-mafia/src/lib.rs:12-19 | the account initialize produces satisfies the game invariant `Consistent` |
| `MafiaSpec.Join` | programs/mini-mafia/src/lib.rs:23-46 | join_game as a function: GameFull at 4 players, then TransferFailed, then the push; a failure leaves the account unchanged, roles, votes and phase are never touched and the roster grows by at most one |
| `MafiaSpec.Start` | programs/mini-mafia/src/lib.rs:50-63 | start_game as a function: NotEnoughPlayers unless 4 players, no phase check; a failure leaves the account unchanged, players, votes and turn are never touched, and a success is InProgress with one role per player |
| `MafiaSpec.Vote` | programs/mini-mafia/src/lib.rs:67-77 | vote_player as a function: phase guard, the `len() as u8` bound, the index panic and the u8 overflow panic, in that order; a failure leaves the account unchanged and only the votes ever change, keeping their length |
| `MafiaSpec.EndRound` | programs/mini-mafia/src/lib.rs:81-113 | end_round as a function: the `roles[t]` and `remove` panics leave the account unchanged; turn is kept, the phase is kept or becomes Finished, and the roster loses at most one player |
| `MiniMafia.Game.constructor` | programs/mini-mafia/src/lib.rs:12-19 | initialize leaves no players and no roles, votes `[0, 0, 0, 0]`, turn 0 and phase WaitingForPlayers |
| `MiniMafia.Game.JoinGame` | programs/mini-mafia/src/lib.rs:23-46 | the in-place join_game has exactly the outcome and new account of `MafiaSpec.Join` on the old account |
| `MiniMafia.Game.StartGame` | programs/mini-mafia/src/lib.rs:50-63 | the in-place start_game has exactly the outcome and new account of `MafiaSpec.Start` for the drawn culprit index |
| `MiniMafia.Game.VotePlayer` | programs/mini-mafia/src/lib.rs:67-77 | the in-place vote_player has exactly the outcome and new account of `MafiaSpec.Vote` |
| `MiniMafia.Game.EndRound` | programs/mini-mafia/src/lib.rs:81-113 | the in-place end_round has exactly the outcome and new account of `MafiaSpec.EndRound` |
| `MiniMafia.FindEliminationTarget` | programs/mini-mafia/src/lib.rs:85-92 | the strict-greater left-to-right scan returns `ArgMaxFirst(votes)`: on non-empty votes a position with the largest count and no earlier position with that count |
| `MafiaSpec.ArgMaxFirst` | programs/mini-mafia/src/lib.rs:85-92 | the eliminated position is 0 for no votes, and otherwise holds the maximum count with every earlier count strictly smaller |
| `MafiaProofs.ArgMaxFirstIsTheFirstMax` | programs/mini-mafia/src/lib.rs:85-92 | a position is the first holder of the maximum if and only if it is the one `ArgMaxFirst` picks, so ties go to the lowest position |
| `MafiaProofs.NoVotesPicksFirst` | programs/mini-mafia/src/lib.rs:85-86 | when every count is 0 the eliminated position is 0 |
| `MafiaProofs.InitialIsConsistent` | programs/mini-mafia/src/lib.rs:12-19 | the freshly initialized account satisfies the game invariant `Consistent` and has four zero votes |
| `MafiaProofs.JoinAppendsOrFails` | programs/mini-mafia/src/lib.rs:27-45 | join_game succeeds if and only if fewer than 4 players are enrolled and the transfer succeeds; GameFull and TransferFailed leave the account unchanged; success appends the player last and changes nothing else; the roster never exceeds 4 |
| `MafiaProofs.StartAssignsOneCulprit` | programs/mini-mafia/src/lib.rs:54-62 | start_game succeeds if and only if exactly 4 players are enrolled, else NotEnoughPlayers with no change; on success 4 roles, Culprit at the drawn index only, three Citizens, phase InProgress, players and votes untouched |
| `MafiaProofs.AssignedRolesCount` | programs/mini-mafia/src/lib.rs:58-60 | the dealt roles contain exactly one Culprit and three Citizens |
| `MafiaProofs.VoteTallies` | programs/mini-mafia/src/lib.rs:71-75 | GameNotInProgress outside InProgress, InvalidVote past the roster, no change on any failure; success exactly when in progress, in range and below 255, and then only `votes[v]` changes, by +1 |
| `MafiaProofs.EndRoundResetsVotes` | programs/mini-mafia/src/lib.rs:110 | after a successful end_round the votes are all zero with one entry per remaining player; a failed one changes nothing |
| `MafiaProofs.EndRoundCatchesCulprit` | programs/mini-mafia/src/lib.rs:95-97 | when the chosen position holds the Culprit the game becomes Finished and players and roles are unchanged |
| `MafiaProofs.EndRoundRemovesCitizen` | programs/mini-mafia/src/lib.rs:99-106 | when the chosen position holds a Citizen it is removed from players and roles with the rest in order; Finished exactly when all remaining roles are Culprit (or the game already was), the phase otherwise unchanged |
| `MafiaProofs.CountOfRemoveAt` | programs/mini-mafia/src/lib.rs:100-101 | removing a position lowers the count of its role by one and leaves the other role's count alone |
| `MafiaProofs.SoleCulpritIsAllCulprit` | programs/mini-mafia/src/lib.rs:103 | with exactly one Culprit, "all remaining roles are Culprit" holds if and only if one player is left |
| `MafiaProofs.RoundKeepsTable` | programs/mini-mafia/src/lib.rs:81-113 | a round of a normally dealt game succeeds, keeps the three sequences aligned and exactly one Culprit, finishes exactly when the culprit is hit or stands alone, and otherwise leaves one player fewer and at least two |
| `MafiaProofs.JoinKeepsConsistent` | programs/mini-mafia/src/lib.rs:27-45 | join_game preserves the game invariant, including the cap of 4 players |
| `MafiaProofs.StartKeepsConsistent` | programs/mini-mafia/src/lib.rs:54-62 | start_game preserves the game invariant |
| `MafiaProofs.VoteKeepsConsistent` | programs/mini-mafia/src/lib.rs:71-75 | vote_player preserves the game invariant |
| `MafiaProofs.StartFromWaitingAligns` | programs/mini-mafia/src/lib.rs:54-62 | dealing a consistent waiting game gives one role and one zero vote per player, the alignment each round needs |
| `MafiaProofs.EndRoundKeepsConsistent` | programs/mini-mafia/src/lib.rs:85-110 | end_round preserves the game invariant, in particular the single Culprit |
| `MafiaProofs.CulpritStaysSeated` | programs/mini-mafia/src/lib.rs:95-106 | in a consistent started game some remaining role is the Culprit, so the roster is never empty |
| `MafiaProofs.EndRoundBeforeStartPanics` | programs/mini-mafia/src/lib.rs:95 | before start_game, end_round reads past the empty roles vector and aborts with no change |
| `MafiaProofs.PhaseKeptOrFinished` | programs/mini-mafia/src/lib.rs:23-113 | join_game and vote_player keep the phase; end_round keeps it or moves it to Finished |
| `MafiaProofs.StartRestartsFinishedGame` | programs/mini-mafia/src/lib.rs:50-62 | from an aligned four-player game in progress whose culprit is caught, the roster still has 4 players, and start_game then moves the phase back from Finished to InProgress |
| `MafiaProofs.LateCatchLeavesThree` | programs/mini-mafia/src/lib.rs:81-113 | an aligned three-player game in progress with one Culprit, when the Culprit is caught, ends Finished, consistent, with all three players still seated |
| `MafiaProofs.JoinRefillsFinishedGame` | programs/mini-mafia/src/lib.rs:27-62 | on a consistent finished game of three players start_game fails with NotEnoughPlayers and leaves it unchanged, one join succeeds, and start_game on the refilled game succeeds and puts it back InProgress |
| `MafiaProofs.StartRedealsGameInProgress` | programs/mini-mafia/src/lib.rs:50-62 | with four players seated, start_game succeeds on a game in progress, deals the culprit to the new draw and keeps the votes cast |
| `MafiaProofs.DuplicateJoinAccepted` | programs/mini-mafia/src/lib.rs:27-45 | a key already seated joins again and then holds one more seat, at least two |
| `MafiaProofs.OneKeyFillsTheRoster` | programs/mini-mafia/src/lib.rs:27-54 | four joins of the same key fill the roster and start_game accepts it |
| `MafiaProofs.MidGameJoinBreaksAlignment` | programs/mini-mafia/src/lib.rs:27-75 | joining a game in progress after an elimination succeeds, breaks the alignment of players, roles and votes, and a vote for the new last position aborts on the votes index |
| `MafiaScenarios.FifthJoinIsRefused` | programs/mini-mafia/src/lib.rs:27 | after four joins, a fifth fails with GameFull and changes nothing |
| `MafiaScenarios.TieGoesToLowestIndex` | programs/mini-mafia/src/lib.rs:85-92 | votes `[2, 2, 1]` eliminate position 0 |
| `MafiaScenarios.CitizensWin` | programs/mini-mafia/src/lib.rs:81-113 | four joins, D dealt the Culprit, three votes for D: end_round finishes the game with all four players and roles kept and votes reset |
| `MafiaScenarios.LateCatchIsRefilledAndRedealt` | programs/mini-mafia/src/lib.rs:27-113 | after A's elimination, C caught among B, C, D finishes the game with the three players; start_game refuses it, any key `e` joins as the fourth player, and start_game deals it again |
| `MafiaScenarios.CulpritWins` | programs/mini-mafia/src/lib.rs:81-113 | C dealt the Culprit; eliminating A, then D at its new position 2, then B leaves `[C]` with roles `[Culprit]` and the game Finished |
| `MafiaScenarios.EndRoundAfterCitizensWinRemovesAPlayer` | programs/mini-mafia/src/lib.rs:81-113 | a second end_round on the game the citizens won removes A from the finished game |

## Left out

- The stake transfer of join_game (a cross-program call to the system
  program) is the boolean input `transferOk`. When it is false the
  instruction aborts before the push. The lamport amount and the balances
  are not modelled.
- The random draw of start_game is the input `culpritIndex` with
  `culpritIndex < 4`. Whether the draw is uniform, or possible at all in the
  hosting runtime, is not modelled.
- The account-context structs, the account space arithmetic, `declare_id!`,
  the serialization derives and the `msg!` log lines are platform glue and
  are not modelled.
- `turn` is set to 0 by initialize and kept unchanged by every other
  instruction. It has no other behaviour in the code.
- vote_player's signer is not used by the code, so the model has no voter
  input. It does not track who voted, and nothing is paid out to winners.
  The code has neither.
- `MafiaSpec.Vote`: assumes the program is built with overflow checks on, as
  the Anchor workspace template does. A vote on a counter at 255 then
  panics. The Cargo manifest is not part of this model. With checks off the
  count would wrap to 0.
- A `Pubkey` is a byte sequence compared for equality. Its 32-byte length is
  not enforced.
- `tests/mini-mafia.ts` only sends initialize and checks nothing, so it has
  no logic to model.
