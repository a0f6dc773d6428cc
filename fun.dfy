/** The games: the daily reward, roulette and the duel. */
module Fun {

  import opened Tables
  import opened Replies
  import opened Database

  /** The three equally likely roulette outcomes. */
  datatype Spin = Win | Lose | Refund

  /** The balance change of a roulette outcome for a bet. */
  function SpinDelta(spin: Spin, bet: int): (d: int)
    ensures d == bet || d == -bet || d == 0
    ensures bet > 0 ==> (d > 0 <==> spin == Win) && (d < 0 <==> spin == Lose)
  {
    match spin
    case Win => bet
    case Lose => -bet
    case Refund => 0
  }

  /** The game is fair: over the three equally likely outcomes the changes
      cancel out, and an accepted bet never drives the balance below zero. */
  lemma RouletteFairAndSafe(balance: int, bet: int)
    requires 0 < bet <= balance
    ensures SpinDelta(Win, bet) + SpinDelta(Lose, bet) + SpinDelta(Refund, bet) == 0
    ensures forall spin :: balance + SpinDelta(spin, bet) >= 0
  {
  }

  /** The daily reward; `reward` is the draw from 100..500. */
  method Daily(db: Db, user: UserId, reward: int) returns (reply: Reply)
    requires db.Valid()
    requires 100 <= reward <= 500
    modifies db`users
    ensures db.Valid()
    ensures reply == DailyReward(reward)
    ensures db.users == Credit(old(db.users), user, reward)
  {
    db.UpdateBalance(user, reward);
    reply := DailyReward(reward);
  }

  /** Roulette with `bet`; `spin` is the drawn outcome. */
  method Roulette(db: Db, user: UserId, bet: int, spin: Spin) returns (reply: Reply)
    requires db.Valid()
    modifies db`users
    ensures db.Valid()
    ensures reply == if bet <= 0 then NonPositiveAmount
                     else if Balance(old(db.users), user) < bet then InsufficientFunds
                     else match spin
                          case Win => RouletteWon(bet)
                          case Lose => RouletteLost(bet)
                          case Refund => RouletteRefunded(bet)
    ensures reply.Rejected() || spin == Refund ==> db.users == old(db.users)
    ensures !reply.Rejected() && spin != Refund ==> db.users == Credit(old(db.users), user, SpinDelta(spin, bet))
  {
    if bet <= 0 {
      return NonPositiveAmount;
    }
    var balance := db.GetBalance(user);
    if balance < bet {
      return InsufficientFunds;
    }
    match spin
    case Win =>
      db.UpdateBalance(user, bet);
      reply := RouletteWon(bet);
    case Lose =>
      db.UpdateBalance(user, -bet);
      reply := RouletteLost(bet);
    case Refund =>
      reply := RouletteRefunded(bet);
  }

  /** A duel between `challenger` and `opponent` for `bet`; `challengerWins` is
      the coin flip. The winner takes the bet from the loser. */
  method Duel(db: Db, challenger: UserId, opponent: UserId, bet: int, challengerWins: bool)
    returns (reply: Reply)
    requires db.Valid()
    modifies db`users
    ensures db.Valid()
    ensures reply == if opponent == challenger then SelfTarget
                     else if bet <= 0 then NonPositiveAmount
                     else if Balance(old(db.users), challenger) < bet then InsufficientFunds
                     else if Balance(old(db.users), opponent) < bet then OpponentInsufficientFunds
                     else if challengerWins then DuelWon(challenger, opponent, bet)
                     else DuelWon(opponent, challenger, bet)
    ensures reply.Rejected() ==> db.users == old(db.users)
    ensures reply.DuelWon? ==>
              && db.users == Credit(Credit(old(db.users), reply.winner, bet), reply.loser, -bet)
              && Balance(db.users, reply.winner) == Balance(old(db.users), reply.winner) + bet
              && Balance(db.users, reply.loser) == Balance(old(db.users), reply.loser) - bet >= 0
              && Total(db.users) == Total(old(db.users))
  {
    if opponent == challenger {
      return SelfTarget;
    }
    if bet <= 0 {
      return NonPositiveAmount;
    }
    var challengerBalance := db.GetBalance(challenger);
    var opponentBalance := db.GetBalance(opponent);
    if challengerBalance < bet {
      return InsufficientFunds;
    }
    if opponentBalance < bet {
      return OpponentInsufficientFunds;
    }
    var winner, loser := opponent, challenger;
    if challengerWins {
      winner, loser := challenger, opponent;
    }
    ghost var before := db.users;
    db.UpdateBalance(winner, bet);
    CreditKeepsNonNegative(before, winner, bet);
    db.UpdateBalance(loser, -bet);
    CreditKeepsNonNegative(Credit(before, winner, bet), loser, -bet);
    CreditTotal(old(db.users), winner, bet);
    CreditTotal(Credit(old(db.users), winner, bet), loser, -bet);
    reply := DuelWon(winner, loser, bet);
  }
}
