/**
 * Value-level model of the mini-mafia game account and of its five
 * instructions. Each instruction is a function from the account before the
 * call to a `Step`: what the instruction returns, and the account after it.
 * An instruction that fails leaves the account exactly as it was, because
 * the runtime discards every change of a failed instruction.
 */
module MafiaSpec {

  /** Rust's `u8`. */
  newtype u8 = x: int | 0 <= x < 256

  /** A participant's public key; the game only compares keys for equality. */
  datatype Pubkey = Pubkey(bytes: seq<u8>)

  datatype GameState = WaitingForPlayers | InProgress | Finished

  datatype Role = Citizen | Culprit

  /** The program's own error codes. */
  datatype CustomError = GameFull | NotEnoughPlayers | GameNotInProgress | InvalidVote

  /** Why an instruction aborts. */
  datatype Abort =
    | Custom(code: CustomError)  // a `require!` guard did not hold
    | TransferFailed             // the stake transfer of join_game returned an error
    | IndexOutOfBounds           // a vector index or `remove` past the end panics
    | ArithmeticOverflow         // `+= 1` on a u8 that already holds 255 panics

  /** The instruction's `Result<()>`. */
  datatype Outcome = Ok | Err(reason: Abort)

  /** The fields of the `Game` account. */
  datatype GameData = GameData(
    players: seq<Pubkey>,
    roles: seq<Role>,
    votes: seq<u8>,
    turn: u8,
    state: GameState)

  /** What an instruction returns, together with the account it leaves behind. */
  datatype Step = Step(outcome: Outcome, game: GameData)

  /** The roster cap of join_game and the roster size start_game demands. */
  const MaxPlayers: nat := 4

  function Zeros(n: nat): seq<u8> {
    seq(n, _ => 0)
  }

  /** A failed instruction: the account is unchanged. */
  function Fail(g: GameData, reason: Abort): Step {
    Step(Err(reason), g)
  }

  /** Number of entries of `roles` equal to `r`. */
  function CountOf(roles: seq<Role>, r: Role): nat {
    if roles == [] then 0
    else (if roles[0] == r then 1 else 0) + CountOf(roles[1..], r)
  }

  /** `roles.iter().all(|&r| r == Role::Culprit)`, which holds of an empty vector. */
  predicate AllCulprit(roles: seq<Role>) {
    forall i :: 0 <= i < |roles| ==> roles[i] == Culprit
  }

  /** `Vec::remove(i)`: position `i` leaves, later entries shift down by one. */
  function RemoveAt<T>(s: seq<T>, i: nat): seq<T>
    requires i < |s|
  {
    s[..i] + s[i + 1..]
  }

  /** Account contents right after `initialize`. */
  function Initial(): (g: GameData)
    ensures Consistent(g)
  {
    GameData([], [], Zeros(MaxPlayers), 0, WaitingForPlayers)
  }

  /**
   * join_game. `transferOk` is whether the stake transfer, which runs after
   * the capacity guard and before the push, succeeded.
   */
  function Join(g: GameData, player: Pubkey, transferOk: bool): (r: Step)
    ensures r.outcome.Err? ==> r.game == g
    ensures r.game.roles == g.roles && r.game.votes == g.votes && r.game.state == g.state
    ensures |r.game.players| <= |g.players| + 1
  {
    if |g.players| >= MaxPlayers then Fail(g, Custom(GameFull))
    else if !transferOk then Fail(g, TransferFailed)
    else Step(Ok, g.(players := g.players + [player]))
  }

  /** Three citizens and one culprit at position `k`. */
  function AssignedRoles(k: nat): seq<Role> {
    seq(MaxPlayers, i => if i == k then Culprit else Citizen)
  }

  /**
   * start_game. `culpritIndex` is the value the random generator draws from
   * the range 0..4.
   */
  function Start(g: GameData, culpritIndex: nat): (r: Step)
    requires culpritIndex < MaxPlayers
    ensures r.outcome.Err? ==> r.game == g
    ensures r.game.players == g.players && r.game.votes == g.votes && r.game.turn == g.turn
    ensures r.outcome == Ok ==> r.game.state == InProgress && |r.game.roles| == |r.game.players|
  {
    if |g.players| != MaxPlayers then Fail(g, Custom(NotEnoughPlayers))
    else Step(Ok, g.(roles := AssignedRoles(culpritIndex), state := InProgress))
  }

  /** `players.len() as u8`: the cast keeps the length modulo 256. */
  function RosterLenAsU8(players: seq<Pubkey>): int {
    |players| % 256
  }

  /** vote_player: one more vote for roster position `voteFor`. */
  function Vote(g: GameData, voteFor: u8): (r: Step)
    ensures r.outcome.Err? ==> r.game == g
    ensures r.game.players == g.players && r.game.roles == g.roles && r.game.state == g.state
    ensures r.game.turn == g.turn
    ensures |r.game.votes| == |g.votes|
  {
    if g.state != InProgress then Fail(g, Custom(GameNotInProgress))
    else if voteFor as int >= RosterLenAsU8(g.players) then Fail(g, Custom(InvalidVote))
    else if voteFor as int >= |g.votes| then Fail(g, IndexOutOfBounds)
    else if g.votes[voteFor] == 255 then Fail(g, ArithmeticOverflow)
    else Step(Ok, g.(votes := g.votes[voteFor := g.votes[voteFor] + 1]))
  }

  /** `s[i]` is a largest entry of `s`, and no earlier entry is as large. */
  predicate IsFirstMax(s: seq<u8>, i: nat) {
    && i < |s|
    && (forall j :: 0 <= j < |s| ==> s[j] <= s[i])
    && (forall j :: 0 <= j < i ==> s[j] < s[i])
  }

  /**
   * The position end_round eliminates: a left-to-right scan that replaces
   * the running maximum (which starts at 0, at position 0) only on a strictly
   * larger count. Defined on the prefix the scan has seen.
   */
  function ArgMaxFirst(s: seq<u8>): (r: nat)
    ensures |s| == 0 ==> r == 0
    ensures |s| > 0 ==> IsFirstMax(s, r)
  {
    if |s| <= 1 then 0
    else
      var k := ArgMaxFirst(s[..|s| - 1]);
      if s[|s| - 1] > s[k] then |s| - 1 else k
  }

  /**
   * end_round. The culprit's elimination finishes the game and keeps the
   * roster; a citizen's elimination removes that position from players and
   * roles and finishes the game when every remaining role is Culprit. The
   * votes are reset to one zero per remaining player in both cases.
   */
  function EndRound(g: GameData): (r: Step)
    ensures r.outcome.Err? ==> r.game == g
    ensures r.game.turn == g.turn
    ensures r.game.state == g.state || r.game.state == Finished
    ensures |g.players| - 1 <= |r.game.players| <= |g.players|
  {
    var target := ArgMaxFirst(g.votes);
    if target >= |g.roles| then Fail(g, IndexOutOfBounds)
    else if g.roles[target] == Culprit then
      Step(Ok, g.(state := Finished, votes := Zeros(|g.players|)))
    else if target >= |g.players| then Fail(g, IndexOutOfBounds)
    else
      var players := RemoveAt(g.players, target);
      var roles := RemoveAt(g.roles, target);
      Step(Ok, g.(players := players, roles := roles,
                  state := if AllCulprit(roles) then Finished else g.state,
                  votes := Zeros(|players|)))
  }

  /** Position of a phase in WaitingForPlayers -> InProgress -> Finished. */
  function Rank(s: GameState): nat {
    match s
    case WaitingForPlayers => 0
    case InProgress => 1
    case Finished => 2
  }

  /**
   * What holds of every account the instructions can produce from
   * `Initial()`: the roster cap, no role without a player, no roles and
   * four zero votes before the game starts, and exactly one culprit after.
   */
  predicate Consistent(g: GameData) {
    && |g.players| <= MaxPlayers
    && |g.roles| <= |g.players|
    && (g.state == WaitingForPlayers ==> g.roles == [] && g.votes == Zeros(MaxPlayers))
    && (g.state != WaitingForPlayers ==> CountOf(g.roles, Culprit) == 1)
  }

  /** players, roles and votes have one entry per roster position. */
  predicate Aligned(g: GameData) {
    |g.players| == |g.roles| == |g.votes|
  }
}
