/** The economy commands: the role lottery, farming, the balance display,
    transfers, the richest-users leaderboard, the administrators' credit
    corrections and the balance gate of the custom-role shop. */
module Economy {

  import opened Tables
  import opened Replies
  import opened Database
  import Leaderboard

  const CRIT_CHANCE := 10
  const SUCCESS_CHANCE := 40
  const CRIT_REWARD := 1000
  const SUCCESS_REWARD := 100
  const MISS_PENALTY := 10
  const CUSTOM_ROLE_PRICE := 2000

  // ---------------------------------------------------------------------------
  // The role lottery as a pure rule
  // ---------------------------------------------------------------------------

  /** How a lottery roll in 1..100 ends. */
  datatype Draw = Crit | Success | Miss

  function RollOutcome(roll: int): (d: Draw)
    ensures d == Crit <==> roll <= CRIT_CHANCE
    ensures d == Success <==> CRIT_CHANCE < roll <= SUCCESS_CHANCE
    ensures d == Miss <==> SUCCESS_CHANCE < roll
  {
    if roll <= CRIT_CHANCE then Crit
    else if roll <= SUCCESS_CHANCE then Success
    else Miss
  }

  /** The balance change of a draw, given the balance read before the draw: the
      two wins pay a fixed reward, a miss costs at most MISS_PENALTY and never
      more than the player has. */
  function LotteryDelta(draw: Draw, balance: int): (d: int)
    ensures draw == Crit ==> d == CRIT_REWARD
    ensures draw == Success ==> d == SUCCESS_REWARD
    ensures draw == Miss && balance >= 0 ==> -MISS_PENALTY <= d <= 0 && balance + d >= 0
    ensures draw == Miss && balance >= MISS_PENALTY ==> d == -MISS_PENALTY
    ensures draw == Miss && 0 <= balance <= MISS_PENALTY ==> balance + d == 0
  {
    match draw
    case Crit => CRIT_REWARD
    case Success => SUCCESS_REWARD
    case Miss => -Leaderboard.Min(MISS_PENALTY, balance)
  }

  /** Number of rolls among 1..n that give `draw`. */
  function CountDraws(draw: Draw, n: nat): nat {
    if n == 0 then 0
    else CountDraws(draw, n - 1) + (if RollOutcome(n) == draw then 1 else 0)
  }

  lemma {:induction false} CountDrawsUpTo(n: nat)
    ensures CountDraws(Crit, n) == Leaderboard.Min(n, CRIT_CHANCE)
    ensures CountDraws(Success, n) == if n <= CRIT_CHANCE then 0 else Leaderboard.Min(n, SUCCESS_CHANCE) - CRIT_CHANCE
    ensures CountDraws(Miss, n) == if n <= SUCCESS_CHANCE then 0 else n - SUCCESS_CHANCE
  {
    if n > 0 {
      CountDrawsUpTo(n - 1);
    }
  }

  /** Of the hundred equally likely rolls, CRIT_CHANCE give the crit, the next
      SUCCESS_CHANCE - CRIT_CHANCE the plain win and the rest a miss. */
  lemma DrawOdds()
    ensures CountDraws(Crit, 100) == 10
    ensures CountDraws(Success, 100) == 30
    ensures CountDraws(Miss, 100) == 60
  {
    CountDrawsUpTo(100);
  }

  // ---------------------------------------------------------------------------
  // Commands
  // ---------------------------------------------------------------------------

  /** The reply to a lottery draw that changed the balance by `delta` to `now`. */
  function LotteryReply(draw: Draw, delta: int, now: int): (r: Reply)
    ensures !r.Rejected()
    ensures r.Penalized? <==> draw == Miss
  {
    match draw
    case Crit => CritWin(now)
    case Success => RoleWon(now)
    case Miss => Penalized(-delta, now)
  }

  /** The role lottery. `roleExists` says whether the guild has the role and
      `roll` is the uniform draw from 1..100. */
  method SlavParty(db: Db, user: UserId, roleExists: bool, roll: int) returns (reply: Reply)
    requires db.Valid()
    requires 1 <= roll <= 100
    modifies db`users, db`patriots
    ensures db.Valid()
    ensures !roleExists ==> reply == RoleNotFound
    ensures roleExists && user in old(db.patriots) ==> reply == AlreadyPatriot
    ensures reply.Rejected() ==> db.users == old(db.users) && db.patriots == old(db.patriots)
    ensures roleExists && user !in old(db.patriots) ==>
              var draw := RollOutcome(roll);
              var delta := LotteryDelta(draw, Balance(old(db.users), user));
              && db.users == Credit(old(db.users), user, delta)
              && db.patriots == (if draw == Miss then old(db.patriots) else old(db.patriots) + {user})
              && reply == LotteryReply(draw, delta, Balance(db.users, user))
  {
    if !roleExists {
      return RoleNotFound;
    }
    if user in db.patriots {
      return AlreadyPatriot;
    }
    reply := Play(db, user, roll);
  }

  /** The draw itself, once the guards of the lottery have passed. */
  method Play(db: Db, user: UserId, roll: int) returns (reply: Reply)
    requires db.Valid()
    requires user !in db.patriots
    modifies db`users, db`patriots
    ensures db.Valid()
    ensures var draw := RollOutcome(roll);
            var delta := LotteryDelta(draw, Balance(old(db.users), user));
            && db.users == Credit(old(db.users), user, delta)
            && db.patriots == (if draw == Miss then old(db.patriots) else old(db.patriots) + {user})
            && reply == LotteryReply(draw, delta, Balance(db.users, user))
  {
    var balance := db.GetBalance(user);
    ghost var before := db.users;
    if roll <= CRIT_CHANCE {
      db.patriots := db.patriots + {user};
      db.UpdateBalance(user, 1000);
      var now := db.GetBalance(user);
      reply := CritWin(now);
    } else if roll <= SUCCESS_CHANCE {
      db.patriots := db.patriots + {user};
      db.UpdateBalance(user, 100);
      var now := db.GetBalance(user);
      reply := RoleWon(now);
    } else {
      var penalty := Leaderboard.Min(10, balance);
      db.UpdateBalance(user, -penalty);
      var now := db.GetBalance(user);
      reply := Penalized(penalty, now);
    }
    CreditKeepsNonNegative(before, user, LotteryDelta(RollOutcome(roll), balance));
  }

  /** Farming, for holders of the lottery role; `reward` is the draw from 5..15. */
  method Farm(db: Db, user: UserId, roleExists: bool, reward: int) returns (reply: Reply)
    requires db.Valid()
    requires 5 <= reward <= 15
    modifies db`users
    ensures db.Valid()
    ensures reply == (if roleExists && user in db.patriots then Farmed(reward, Balance(db.users, user)) else PatriotsOnly)
    ensures reply.Rejected() ==> db.users == old(db.users)
    ensures reply.Farmed? ==> db.users == Credit(old(db.users), user, reward)
  {
    if !roleExists || user !in db.patriots {
      return PatriotsOnly;
    }
    db.UpdateBalance(user, reward);
    var now := db.GetBalance(user);
    reply := Farmed(reward, now);
  }

  /** The balance command: reads only. */
  method ShowBalance(db: Db, user: UserId) returns (b: int)
    requires db.Valid()
    ensures b == Balance(db.users, user) && b >= 0
  {
    b := db.GetBalance(user);
  }

  /** Transfer of `amount` from `sender` to `target`. */
  method Transfer(db: Db, sender: UserId, target: UserId, amount: int) returns (reply: Reply)
    requires db.Valid()
    modifies db`users
    ensures db.Valid()
    ensures reply == if amount <= 0 then NonPositiveAmount
                     else if target == sender then SelfTarget
                     else if Balance(old(db.users), sender) < amount then InsufficientFunds
                     else Transferred(amount)
    ensures reply.Rejected() ==> db.users == old(db.users)
    ensures reply.Transferred? ==>
              && db.users == Credit(Credit(old(db.users), sender, -amount), target, amount)
              && Balance(db.users, sender) + Balance(db.users, target)
                 == Balance(old(db.users), sender) + Balance(old(db.users), target)
              && Total(db.users) == Total(old(db.users))
  {
    if amount <= 0 {
      return NonPositiveAmount;
    }
    if target == sender {
      return SelfTarget;
    }
    var senderBalance := db.GetBalance(sender);
    if senderBalance < amount {
      return InsufficientFunds;
    }
    Move(db, sender, target, amount);
    reply := Transferred(amount);
  }

  /** The two updates of a transfer that passed its checks: debit, then credit. */
  method Move(db: Db, sender: UserId, target: UserId, amount: int)
    requires db.Valid()
    requires sender != target && 0 < amount <= Balance(db.users, sender)
    modifies db`users
    ensures db.Valid()
    ensures db.users == Credit(Credit(old(db.users), sender, -amount), target, amount)
    ensures Total(db.users) == Total(old(db.users))
  {
    ghost var before := db.users;
    ghost var after := Credit(Credit(before, sender, -amount), target, amount);
    CreditKeepsNonNegative(before, sender, -amount);
    CreditKeepsNonNegative(Credit(before, sender, -amount), target, amount);
    MoveKeepsTotal(before, sender, target, amount);
    db.UpdateBalance(sender, -amount);
    db.UpdateBalance(target, amount);
    assert db.users == after;
  }

  /** The richest-users leaderboard. Resolving ids to display names is left to
      the chat platform; the lines carry the user ids. */
  method Top(db: Db) returns (board: Leaderboard.Board<UserId>)
    ensures board.Empty? <==> db.users == map[]
    ensures board.Standings? ==>
              1 <= |board.entries| <= Leaderboard.TOP_LIMIT &&
              Leaderboard.IsLeaderboard(BalanceColumn(db.users), board.entries)
  {
    var column := BalanceColumn(db.users);
    assert column == map[] <==> db.users == map[] by {
      assert column.Keys == db.users.Keys;
    }
    board := Leaderboard.TopBoard(column);
  }

  /** Administrators' credit grant. */
  method AddCredits(db: Db, isAdmin: bool, member: UserId, amount: int) returns (reply: Reply)
    requires db.Valid()
    modifies db`users
    ensures db.Valid()
    ensures reply == if !isAdmin then NotAdmin
                     else if amount <= 0 then NonPositiveAmount
                     else CreditsAdded(amount, Balance(db.users, member))
    ensures reply.Rejected() ==> db.users == old(db.users)
    ensures reply.CreditsAdded? ==> db.users == Credit(old(db.users), member, amount)
  {
    if !isAdmin {
      return NotAdmin;
    }
    if amount <= 0 {
      return NonPositiveAmount;
    }
    db.UpdateBalance(member, amount);
    var now := db.GetBalance(member);
    reply := CreditsAdded(amount, now);
  }

  /** Administrators' credit removal: never below zero. */
  method RemoveCredits(db: Db, isAdmin: bool, member: UserId, amount: int) returns (reply: Reply)
    requires db.Valid()
    modifies db`users
    ensures db.Valid()
    ensures reply == if !isAdmin then NotAdmin
                     else if amount <= 0 then NonPositiveAmount
                     else if Balance(old(db.users), member) < amount then InsufficientFunds
                     else CreditsRemoved(amount, Balance(db.users, member))
    ensures reply.Rejected() ==> db.users == old(db.users)
    ensures reply.CreditsRemoved? ==>
              && db.users == Credit(old(db.users), member, -amount)
              && Balance(db.users, member) == Balance(old(db.users), member) - amount >= 0
  {
    if !isAdmin {
      return NotAdmin;
    }
    if amount <= 0 {
      return NonPositiveAmount;
    }
    var current := db.GetBalance(member);
    if current < amount {
      return InsufficientFunds;
    }
    db.UpdateBalance(member, -amount);
    var now := db.GetBalance(member);
    reply := CreditsRemoved(amount, now);
  }

  /** The custom-role purchase. `created` is the id of the role the guild created,
      or None when the colour did not parse or the guild refused. */
  method BuyRole(db: Db, user: UserId, name: string, color: string, created: Option<int>)
    returns (reply: Reply)
    requires db.Valid()
    modifies db`users, db`customRoles
    ensures db.Valid()
    ensures reply == if Balance(old(db.users), user) < CUSTOM_ROLE_PRICE then InsufficientFunds
                     else if created.None? then RoleCreationFailed
                     else RoleBought(created.value)
    ensures reply.Rejected() ==> db.users == old(db.users) && db.customRoles == old(db.customRoles)
    ensures reply.RoleBought? ==>
              && db.customRoles == old(db.customRoles)[user := CustomRole(created.value, name, color)]
              && db.users == Credit(old(db.users), user, -CUSTOM_ROLE_PRICE)
  {
    var balance := db.GetBalance(user);
    if balance < CUSTOM_ROLE_PRICE {
      return InsufficientFunds;
    }
    if created.None? {
      return RoleCreationFailed;
    }
    db.CreateCustomRole(user, CustomRole(created.value, name, color));
    db.UpdateBalance(user, -CUSTOM_ROLE_PRICE);
    reply := RoleBought(created.value);
  }
}
