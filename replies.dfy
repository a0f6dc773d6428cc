/** What a command answers in the channel, reduced to the facts the message
    carries. The first group are refusals: a command that answers with one of
    them has written nothing. */
module Replies {

  import opened Tables

  datatype Reply =
    // refusals
    | RoleNotFound                    // the lottery role does not exist in the guild
    | AlreadyPatriot                  // the lottery role is already held
    | PatriotsOnly                    // farm without the lottery role
    | NonPositiveAmount               // amount or bet <= 0
    | SelfTarget                      // transfer to, or duel with, oneself
    | InsufficientFunds               // the invoker's balance is too low
    | OpponentInsufficientFunds       // the challenged user's balance is too low
    | NotAdmin                        // admin-only command
    | RoleCreationFailed              // bad colour or the guild refused the role
    | AlreadyInClan
    | ClanNameTaken
    | NoSuchClan
    | DescriptionTooLong
    // successes
    | CritWin(newBalance: int)                        // role + 1000
    | RoleWon(newBalance: int)                        // role + 100
    | Penalized(penalty: int, newBalance: int)        // lottery miss
    | Farmed(reward: int, newBalance: int)
    | Transferred(amount: int)
    | CreditsAdded(amount: int, newBalance: int)
    | CreditsRemoved(amount: int, newBalance: int)
    | RoleBought(roleId: int)
    | ClanCreated(name: string)
    | ClanJoined(name: string)
    | DescriptionUpdated
    | DailyReward(reward: int)
    | RouletteWon(bet: int)
    | RouletteLost(bet: int)
    | RouletteRefunded(bet: int)
    | DuelWon(winner: UserId, loser: UserId, bet: int)
    // an exception escaped the handler and reached the generic error message
    | CommandFailed
  {
    /** True for the answers that reject the command before any write. */
    predicate Rejected() {
      || RoleNotFound? || AlreadyPatriot? || PatriotsOnly? || NonPositiveAmount?
      || SelfTarget? || InsufficientFunds? || OpponentInsufficientFunds? || NotAdmin?
      || RoleCreationFailed? || AlreadyInClan? || ClanNameTaken? || NoSuchClan?
      || DescriptionTooLong?
    }
  }
}
