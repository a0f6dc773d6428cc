/** The bot's persistent tables as values, and the pure meaning of the queries
    and upserts that the handlers issue against them.

    `users`      user_id -> balance (default 0) and an optional profile description
    `clans`      name    -> owner_id and treasury balance
    `user_clans` user_id -> clan name (at most one clan per user: user_id is the key)
    `levels`     user_id -> xp and level
    `custom_roles` user_id -> the role bought in the shop
 */
module Tables {

  type UserId = int

  datatype Option<T> = None | Some(value: T)

  /** Longest profile description the profile command accepts. */
  const MAX_DESCRIPTION := 200
  /** Text shown for a user without a (non-empty) description. */
  const NO_DESCRIPTION := "Описание отсутствует"

  datatype UserRow = UserRow(balance: int, description: Option<string>)
  datatype ClanRow = ClanRow(owner: UserId, balance: int)
  datatype LevelRow = LevelRow(xp: int, level: int)
  datatype CustomRole = CustomRole(roleId: int, name: string, color: string)

  type Users = map<UserId, UserRow>

  /** The level row of a user who has never written a message. */
  const FRESH_LEVEL := LevelRow(0, 1)

  // ---------------------------------------------------------------------------
  // Ledger: get_balance and update_balance
  // ---------------------------------------------------------------------------

  /** get_balance: the stored balance, or 0 when the user has no row. */
  function Balance(users: Users, u: UserId): int {
    if u in users then users[u].balance else 0
  }

  /** update_balance: INSERT (u, amount) or, on conflict, add amount to the stored
      balance. The description column is left alone; a new row has none. */
  function Credit(users: Users, u: UserId, amount: int): (r: Users)
    ensures r.Keys == users.Keys + {u}
    ensures Balance(r, u) == Balance(users, u) + amount
    ensures forall v :: v != u ==> Balance(r, v) == Balance(users, v)
    ensures forall v :: v in users ==> r[v].description == users[v].description
    ensures u !in users ==> r[u].description == None
  {
    if u in users then users[u := users[u].(balance := users[u].balance + amount)]
    else users[u := UserRow(amount, None)]
  }

  /** Two increments of one user are one increment by the sum. */
  lemma CreditsCompose(users: Users, u: UserId, a: int, b: int)
    ensures Credit(Credit(users, u, a), u, b) == Credit(users, u, a + b)
  {
  }

  /** Increments of two users commute. */
  lemma CreditsCommute(users: Users, u: UserId, a: int, v: UserId, b: int)
    ensures Credit(Credit(users, u, a), v, b) == Credit(Credit(users, v, b), u, a)
  {
  }

  /** Every stored balance is non-negative. */
  ghost predicate NonNegative(users: Users) {
    forall u :: u in users ==> users[u].balance >= 0
  }

  lemma CreditKeepsNonNegative(users: Users, u: UserId, amount: int)
    requires NonNegative(users) && DescriptionsFit(users)
    requires Balance(users, u) + amount >= 0
    ensures NonNegative(Credit(users, u, amount))
    ensures DescriptionsFit(Credit(users, u, amount))
  {
  }

  /** Sum of the balances of the rows whose keys are in `keys`. */
  ghost function TotalOver(users: Users, keys: set<UserId>): int
    requires keys <= users.Keys
    decreases keys
  {
    if exists k :: k in keys then
      var k :| k in keys;
      users[k].balance + TotalOver(users, keys - {k})
    else
      0
  }

  /** Sum of all balances in the table: the money in circulation. */
  ghost function Total(users: Users): int {
    TotalOver(users, users.Keys)
  }

  lemma {:induction false} TotalOverRemove(users: Users, keys: set<UserId>, k: UserId)
    requires keys <= users.Keys && k in keys
    ensures TotalOver(users, keys) == users[k].balance + TotalOver(users, keys - {k})
    decreases keys
  {
    var j :| j in keys && TotalOver(users, keys) == users[j].balance + TotalOver(users, keys - {j});
    if j != k {
      assert keys - {j} <= users.Keys && k in keys - {j};
      TotalOverRemove(users, keys - {j}, k);
      TotalOverRemove(users, keys - {k}, j);
      assert keys - {j} - {k} == keys - {k} - {j};
    }
  }

  lemma {:induction false} TotalOverAgree(a: Users, b: Users, keys: set<UserId>)
    requires keys <= a.Keys && keys <= b.Keys
    requires forall k :: k in keys ==> a[k].balance == b[k].balance
    ensures TotalOver(a, keys) == TotalOver(b, keys)
    decreases keys
  {
    if exists k :: k in keys {
      var k :| k in keys;
      TotalOverRemove(a, keys, k);
      TotalOverRemove(b, keys, k);
      TotalOverAgree(a, b, keys - {k});
    }
  }

  /** An increment by `amount` changes the money in circulation by exactly `amount`. */
  lemma {:induction false} CreditTotal(users: Users, u: UserId, amount: int)
    ensures Total(Credit(users, u, amount)) == Total(users) + amount
  {
    var r := Credit(users, u, amount);
    TotalOverRemove(r, r.Keys, u);
    if u in users {
      TotalOverRemove(users, users.Keys, u);
      assert r.Keys - {u} == users.Keys - {u};
    } else {
      assert r.Keys - {u} == users.Keys;
    }
    TotalOverAgree(r, users, r.Keys - {u});
  }

  /** Moving `amount` from one user to another keeps the money in circulation. */
  lemma {:induction false} MoveKeepsTotal(users: Users, from: UserId, to: UserId, amount: int)
    ensures Total(Credit(Credit(users, from, -amount), to, amount)) == Total(users)
  {
    CreditTotal(users, from, -amount);
    CreditTotal(Credit(users, from, -amount), to, amount);
  }

  /** The (user_id, balance) columns of `users`, as the leaderboard query reads them. */
  function BalanceColumn(users: Users): (col: map<UserId, int>)
    ensures col.Keys == users.Keys
    ensures forall u :: u in col ==> col[u] == Balance(users, u)
  {
    map u | u in users :: users[u].balance
  }

  // ---------------------------------------------------------------------------
  // Profile description
  // ---------------------------------------------------------------------------

  /** update_profile_description: INSERT (u, description) with the balance column at
      its default 0, or on conflict overwrite only the description. */
  function SetDescription(users: Users, u: UserId, d: string): (r: Users)
    ensures r.Keys == users.Keys + {u}
    ensures r[u].description == Some(d)
    ensures forall v :: Balance(r, v) == Balance(users, v)
    ensures forall v :: v in users && v != u ==> r[v] == users[v]
  {
    if u in users then users[u := users[u].(description := Some(d))]
    else users[u := UserRow(0, Some(d))]
  }

  /** Every stored description fits the length limit. */
  ghost predicate DescriptionsFit(users: Users) {
    forall u :: u in users && users[u].description.Some? ==> |users[u].description.value| <= MAX_DESCRIPTION
  }

  /** get_profile_description: the stored text, or the placeholder when the row,
      the value or the text is missing. */
  function DescriptionOf(users: Users, u: UserId): (s: string)
    ensures s != ""
    ensures s == NO_DESCRIPTION || (u in users && users[u].description == Some(s))
    ensures u in users && users[u].description.Some? && users[u].description.value != "" ==>
              s == users[u].description.value
  {
    if u in users && users[u].description.Some? && users[u].description.value != "" then
      users[u].description.value
    else
      NO_DESCRIPTION
  }

  // ---------------------------------------------------------------------------
  // Clans, memberships and levels
  // ---------------------------------------------------------------------------

  /** Every membership names a clan that exists. */
  ghost predicate MembershipsResolve(userClans: map<UserId, string>, clans: map<string, ClanRow>) {
    forall u :: u in userClans ==> userClans[u] in clans
  }

  /** The owner of every clan is a member of that clan. */
  ghost predicate OwnersAreMembers(clans: map<string, ClanRow>, userClans: map<UserId, string>) {
    forall c :: c in clans ==> clans[c].owner in userClans && userClans[clans[c].owner] == c
  }

  /** No clan treasury is negative. */
  ghost predicate TreasuriesNonNegative(clans: map<string, ClanRow>) {
    forall c :: c in clans ==> clans[c].balance >= 0
  }

  /** The (name, balance) columns of `clans`, as the clan leaderboard query reads them. */
  function TreasuryColumn(clans: map<string, ClanRow>): (col: map<string, int>)
    ensures col.Keys == clans.Keys
    ensures forall c :: c in col ==> col[c] == clans[c].balance
  {
    map c | c in clans :: clans[c].balance
  }

  /** get_level_data: the stored row, or xp 0 at level 1 for an unknown user. */
  function LevelOf(levels: map<UserId, LevelRow>, u: UserId): (r: LevelRow)
    ensures u in levels ==> r == levels[u]
    ensures u !in levels ==> r == FRESH_LEVEL
  {
    if u in levels then levels[u] else FRESH_LEVEL
  }

  /** A level row that the level rule can produce: level at least 1 and the xp
      below the threshold of the current level. */
  ghost predicate LevelConsistent(row: LevelRow) {
    1 <= row.level && 0 <= row.xp < row.level * 100
  }

  ghost predicate LevelsConsistent(levels: map<UserId, LevelRow>) {
    forall u :: u in levels ==> LevelConsistent(levels[u])
  }
}
