/** The database handle shared by every command handler: the five tables as
    maps that the handlers update in place, and the query helpers they call.
    Each helper is one SQL statement, applied atomically. */
module Database {

  import opened Tables

  class Db {
    var users: Users
    var clans: map<string, ClanRow>
    var userClans: map<UserId, string>
    var levels: map<UserId, LevelRow>
    var customRoles: map<UserId, CustomRole>
    /** Holders of the lottery role in the guild. Not a table: the chat platform
        keeps it, but the lottery and farm commands read and grant it. */
    var patriots: set<UserId>

    /** What every handler keeps true of the tables. */
    ghost predicate Valid()
      reads this
    {
      UsersValid() && ClansValid() && LevelsValid()
    }

    ghost predicate UsersValid()
      reads this`users
    {
      NonNegative(users) && DescriptionsFit(users)
    }

    ghost predicate ClansValid()
      reads this`clans, this`userClans
    {
      && TreasuriesNonNegative(clans)
      && MembershipsResolve(userClans, clans)
      && OwnersAreMembers(clans, userClans)
    }

    ghost predicate LevelsValid()
      reads this`levels
    {
      LevelsConsistent(levels)
    }

    /** Fresh, empty tables (CREATE TABLE IF NOT EXISTS on a new database). */
    constructor ()
      ensures Valid()
      ensures users == map[] && clans == map[] && userClans == map[]
      ensures levels == map[] && customRoles == map[] && patriots == {}
    {
      users, clans, userClans := map[], map[], map[];
      levels, customRoles, patriots := map[], map[], {};
    }

    /** get_balance */
    method GetBalance(u: UserId) returns (b: int)
      ensures b == Balance(users, u)
      ensures Valid() ==> b >= 0
    {
      b := if u in users then users[u].balance else 0;
    }

    /** update_balance: the atomic upsert-increment. */
    method UpdateBalance(u: UserId, amount: int)
      modifies this`users
      ensures users == Credit(old(users), u, amount)
    {
      if u in users {
        users := users[u := users[u].(balance := users[u].balance + amount)];
      } else {
        users := users[u := UserRow(amount, None)];
      }
    }

    /** get_user_clan */
    method GetUserClan(u: UserId) returns (c: Option<string>)
      ensures c.Some? <==> u in userClans
      ensures c.Some? ==> c.value == userClans[u]
    {
      c := if u in userClans then Some(userClans[u]) else None;
    }

    /** add_user_to_clan: INSERT, or on conflict overwrite the clan name. */
    method AddUserToClan(u: UserId, name: string)
      modifies this`userClans
      ensures userClans == old(userClans)[u := name]
    {
      userClans := userClans[u := name];
    }

    /** SELECT EXISTS(SELECT 1 FROM clans WHERE name = $1) */
    method ClanExists(name: string) returns (b: bool)
      ensures b <==> name in clans
    {
      b := name in clans;
    }

    /** INSERT INTO clans (name, owner_id, balance) VALUES (name, owner, 0): a plain
        insert, which the key constraint allows only for a new name. */
    method InsertClan(name: string, owner: UserId)
      requires name !in clans
      modifies this`clans
      ensures clans == old(clans)[name := ClanRow(owner, 0)]
    {
      clans := clans[name := ClanRow(owner, 0)];
    }

    /** INSERT INTO user_clans (user_id, clan_name): a plain insert, allowed only
        for a user without a membership row. */
    method InsertMembership(u: UserId, name: string)
      requires u !in userClans
      modifies this`userClans
      ensures userClans == old(userClans)[u := name]
    {
      userClans := userClans[u := name];
    }

    /** update_profile_description */
    method UpdateProfileDescription(u: UserId, d: string)
      modifies this`users
      ensures users == SetDescription(old(users), u, d)
    {
      if u in users {
        users := users[u := users[u].(description := Some(d))];
      } else {
        users := users[u := UserRow(0, Some(d))];
      }
    }

    /** get_level_data */
    method GetLevelData(u: UserId) returns (row: LevelRow)
      ensures row == LevelOf(levels, u)
      ensures Valid() ==> LevelConsistent(row)
    {
      row := if u in levels then levels[u] else LevelRow(0, 1);
    }

    /** update_level: INSERT, or on conflict overwrite xp and level. */
    method UpdateLevel(u: UserId, row: LevelRow)
      modifies this`levels
      ensures levels == old(levels)[u := row]
    {
      levels := levels[u := row];
    }

    /** create_custom_role: INSERT, or on conflict overwrite the whole row. */
    method CreateCustomRole(u: UserId, role: CustomRole)
      modifies this`customRoles
      ensures customRoles == old(customRoles)[u := role]
    {
      customRoles := customRoles[u := role];
    }
  }
}
