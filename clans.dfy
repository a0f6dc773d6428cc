/** The clan commands: founding a clan, joining one, and the clan leaderboard. */
module Clans {

  import opened Tables
  import opened Replies
  import opened Database
  import Leaderboard

  /** Price of founding a clan, taken from the founder's balance. */
  const CLAN_CREATION_PRICE := 5000

  /** Founding clan `name`. Checked in order: the founder can pay, has no
      membership row, and the name is free. Then the clan row (owner = founder,
      treasury 0), the founder's membership and the debit are written. */
  method CreateClan(db: Db, user: UserId, name: string) returns (reply: Reply)
    requires db.Valid()
    modifies db`users, db`clans, db`userClans
    ensures db.Valid()
    ensures reply == if Balance(old(db.users), user) < CLAN_CREATION_PRICE then InsufficientFunds
                     else if user in old(db.userClans) then AlreadyInClan
                     else if name in old(db.clans) then ClanNameTaken
                     else ClanCreated(name)
    ensures reply.Rejected() ==>
              db.users == old(db.users) && db.clans == old(db.clans) && db.userClans == old(db.userClans)
    ensures reply.ClanCreated? ==>
              && db.clans == old(db.clans)[name := ClanRow(user, 0)]
              && db.userClans == old(db.userClans)[user := name]
              && db.users == Credit(old(db.users), user, -CLAN_CREATION_PRICE)
              && Balance(db.users, user) == Balance(old(db.users), user) - CLAN_CREATION_PRICE >= 0
  {
    var balance := db.GetBalance(user);
    if balance < CLAN_CREATION_PRICE {
      return InsufficientFunds;
    }
    var current := db.GetUserClan(user);
    if current.Some? {
      return AlreadyInClan;
    }
    var taken := db.ClanExists(name);
    if taken {
      return ClanNameTaken;
    }
    db.InsertClan(name, user);
    db.InsertMembership(user, name);
    db.UpdateBalance(user, -CLAN_CREATION_PRICE);
    reply := ClanCreated(name);
  }

  /** Joining clan `name`: only for a user without a membership row, and only an
      existing clan. Balances and clans are never touched. */
  method JoinClan(db: Db, user: UserId, name: string) returns (reply: Reply)
    requires db.Valid()
    modifies db`userClans
    ensures db.Valid()
    ensures reply == if user in old(db.userClans) then AlreadyInClan
                     else if name !in db.clans then NoSuchClan
                     else ClanJoined(name)
    ensures reply.Rejected() ==> db.userClans == old(db.userClans)
    ensures reply.ClanJoined? ==> db.userClans == old(db.userClans)[user := name]
  {
    var current := db.GetUserClan(user);
    if current.Some? {
      return AlreadyInClan;
    }
    var found := db.ClanExists(name);
    if !found {
      return NoSuchClan;
    }
    db.InsertMembership(user, name);
    reply := ClanJoined(name);
  }

  /** The clan leaderboard: "no clans yet" exactly when there is no clan, and
      otherwise at most ten clans numbered from 1, richest treasury first. */
  method ClanTop(db: Db) returns (board: Leaderboard.Board<string>)
    ensures board.Empty? <==> db.clans == map[]
    ensures board.Standings? ==>
              1 <= |board.entries| <= Leaderboard.TOP_LIMIT &&
              Leaderboard.IsLeaderboard(TreasuryColumn(db.clans), board.entries)
  {
    var column := TreasuryColumn(db.clans);
    assert column == map[] <==> db.clans == map[] by {
      assert column.Keys == db.clans.Keys;
    }
    board := Leaderboard.TopBoard(column);
  }

  // ---------------------------------------------------------------------------
  // create_clan as written
  // ---------------------------------------------------------------------------

  /** The tables written by one run of a handler, with its answer. */
  datatype ClanEffect = ClanEffect(
    reply: Reply,
    users: Users,
    clans: map<string, ClanRow>,
    userClans: map<UserId, string>)

  /** create_clan with its membership test as written, `if current_clan:`, a
      truthiness test: a membership row holding the empty clan name passes it.
      The clan row is then inserted, the plain INSERT into user_clans fails on
      the user_id key, the handler stops with the generic error and the debit is
      never reached. */
  function CreateClanAsWritten(users: Users, clans: map<string, ClanRow>, userClans: map<UserId, string>,
                               user: UserId, name: string): (e: ClanEffect)
    ensures e.reply == CommandFailed <==>
              Balance(users, user) >= CLAN_CREATION_PRICE && user in userClans && userClans[user] == "" && name !in clans
    ensures e.reply == CommandFailed ==>
              e.clans == clans[name := ClanRow(user, 0)] && e.users == users && e.userClans == userClans
  {
    if Balance(users, user) < CLAN_CREATION_PRICE then
      ClanEffect(InsufficientFunds, users, clans, userClans)
    else if user in userClans && userClans[user] != "" then
      ClanEffect(AlreadyInClan, users, clans, userClans)
    else if name in clans then
      ClanEffect(ClanNameTaken, users, clans, userClans)
    else if user in userClans then
      ClanEffect(CommandFailed, users, clans[name := ClanRow(user, 0)], userClans)
    else
      ClanEffect(ClanCreated(name), Credit(users, user, -CLAN_CREATION_PRICE),
                 clans[name := ClanRow(user, 0)], userClans[user := name])
  }

  /** A member of a clan named "" founds clan "Wolves" as written: the clan
      exists with that user as owner, yet the balance is still 5000 and the owner
      is not a member of it. The same user can repeat this with any free name. */
  lemma FreeClanAsWritten()
    ensures var e := CreateClanAsWritten(map[7 := UserRow(5000, None)], map["" := ClanRow(7, 0)],
                                         map[7 := ""], 7, "Wolves");
            && e.reply == CommandFailed
            && "Wolves" in e.clans && e.clans["Wolves"].owner == 7
            && Balance(e.users, 7) == 5000
            && !OwnersAreMembers(e.clans, e.userClans)
  {
    var e := CreateClanAsWritten(map[7 := UserRow(5000, None)], map["" := ClanRow(7, 0)],
                                 map[7 := ""], 7, "Wolves");
    assert e.userClans[7] == "" != "Wolves";
  }
}
