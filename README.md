# Social-credit bot: economy ledger and clan registry

A Dafny model of the economy core of a Discord bot. Users earn and spend a
currency through chat commands:

- a role lottery;
- farming for holders of that role;
- transfers, roulette, duels and a daily reward;
- administrators' credit corrections;
- a custom-role shop.

Users can also found and join clans and set a profile description. Every
message earns experience toward a level.

The bot keeps its state in five PostgreSQL tables. The model keeps them as maps
in one `Database.Db` object:

- `users`: user id to balance and optional description;
- `clans`: name to owner and treasury;
- `user_clans`: user id to clan name;
- `levels`: user id to xp and level;
- `custom_roles`: user id to the purchased role.

The holders of the lottery role are guild state, not a table. They are the set
`patriots` in the same object.

Each command handler is a method over `Db`. Its random draws are parameters:

- the lottery roll (1..100);
- the farm (5..15), daily (100..500) and xp (5..15) amounts;
- the roulette outcome;
- the duel's coin flip.

So are the facts the chat platform supplies: whether the invoker is an
administrator, whether the lottery role exists, whether the author is a bot,
and whether a custom role could be created.

The handlers sit on the ledger primitive in module `Tables`. `Balance` reads 0
for a user without a row. `Credit` is the insert-or-add upsert.
`Db.UpdateBalance` applies `Credit` in place.

Every handler that writes requires and ensures `Db.Valid()`, which holds that:

- no balance or treasury is negative;
- every membership names an existing clan;
- every clan's owner is a member of it;
- every description fits in 200 characters;
- every level row has `1 <= level` and `0 <= xp < level * 100`.

Each refusal is stated as "nothing written". Transfers and duels keep the money
in circulation (`Tables.Total`, the sum over all rows).

Modules follow the source's cogs:

- `Tables` and `Database`: the tables and query helpers, main.py:49-151;
- `Economy`, `Clans`, `Profile`, `Fun` and `Events`: one per cog;
- `Leaderboard`: the two `ORDER BY balance DESC LIMIT 10` leaderboards and their numbering;
- `Replies`: what each command answers.

The clan cog exists twice. main.py:372-454 and clans.py:6-86 have the same
checks and writes; the second one only takes its pool from `self.bot.db`. The
model has one `Clans` module for both.

## Model

| member | source | states |
|---|---|---|
| `Tables.Credit` | main.py:98-103 | the user's balance rises by exactly the amount, a missing row counting as 0. Every other user's balance and every description are unchanged. A new row has no description. |
| `Tables.CreditsCompose` | main.py:98-103 | two increments of one user equal one increment by their sum |
| `Tables.CreditsCommute` | main.py:98-103 | increments of two users can be applied in either order |
| `Tables.CreditKeepsNonNegative` | main.py:98-103 | an increment that leaves its user at or above 0 keeps every balance non-negative and every description within the limit |
| `Tables.CreditTotal` | main.py:98-103 | an increment by `amount` changes the sum of all balances by exactly `amount` |
| `Tables.MoveKeepsTotal` | main.py:229-230 | a debit of one user followed by the same credit to another keeps the sum of all balances |
| `Tables.SetDescription` | main.py:134-139 | the description upsert stores the text for that user, changes no balance (a new row gets balance 0) and leaves other rows alone |
| `Tables.DescriptionOf` | main.py:129-132 | the profile text is the stored non-empty description, or else the placeholder; it is never empty |
| `Tables.BalanceColumn` | main.py:238 | the leaderboard reads one balance per user row, the same as `get_balance` |
| `Tables.TreasuryColumn` | main.py:442-444 | the clan leaderboard reads one treasury per clan row |
| `Tables.LevelOf` | main.py:141-144 | a user with a row gets the stored xp and level back; an unknown user is at xp 0, level 1 |
| `Database.Db.constructor` | main.py:49-91 | freshly created tables are empty and satisfy the invariant |
| `Database.Db.GetBalance` | main.py:93-96 | returns the stored balance or 0, which is non-negative under the invariant |
| `Database.Db.UpdateBalance` | main.py:98-103 | the users table becomes `Credit` of the old one; no other table changes |
| `Database.Db.GetUserClan` | main.py:118-120 | returns a clan name exactly when the user has a membership row |
| `Database.Db.AddUserToClan` | main.py:122-127 | the membership upsert overwrites or inserts the user's clan |
| `Database.Db.ClanExists` | main.py:391-394 | true exactly when a clan of that name exists |
| `Database.Db.InsertClan` | main.py:399-402 | a new clan row with this owner and treasury 0; allowed only for a free name |
| `Database.Db.InsertMembership` | main.py:403-406 | a new membership row; allowed only for a user without one |
| `Database.Db.UpdateProfileDescription` | main.py:134-139 | the users table becomes `SetDescription` of the old one |
| `Database.Db.GetLevelData` | main.py:141-144 | returns the level row with its default, consistent under the invariant |
| `Database.Db.UpdateLevel` | main.py:146-151 | overwrites the user's xp and level |
| `Database.Db.CreateCustomRole` | main.py:109-116 | inserts or replaces the user's custom-role row |
| `Leaderboard.MaxKey` | main.py:238 | picks a key whose balance no other candidate exceeds |
| `Leaderboard.SelectTop` | main.py:238 | returns exactly min(limit, rows) distinct table rows with their balances, in non-increasing order; no row left out is richer than a row returned |
| `Leaderboard.Rank` | main.py:244-250 | row i becomes line number i + 1, with its key and balance |
| `Leaderboard.TopBoard` | main.py:440-454 | the empty-table answer comes exactly when there is no row. Otherwise there are 1 to 10 lines numbered from 1, richest first, and no unlisted row beats a listed one. |
| `Economy.LotteryDelta` | main.py:176-190 | a crit pays 1000 and a plain win 100. A miss takes 10, or the whole balance when it is below 10, so a non-negative balance stays non-negative. |
| `Economy.RollOutcome` | main.py:176-188 | a roll up to 10 is a crit, from 11 to 40 a plain win, above 40 a miss (each case an if-and-only-if) |
| `Economy.CountDrawsUpTo` | main.py:173-188 | of the rolls 1..n, min(n,10) crit, the next up to 30 win and the rest miss |
| `Economy.DrawOdds` | main.py:173-188 | of the 100 rolls, 10 crit, 30 plain wins and 60 misses |
| `Economy.SlavParty` | main.py:159-192 | Two refusals write nothing: a missing role, and a player who already holds it. Otherwise the balance changes by `LotteryDelta` of the roll and the balance read first. Both wins grant the role. The answer carries the new balance. |
| `Economy.LotteryReply` | main.py:176-192 | none of the three lottery answers is a refusal, and only a miss answers with a penalty |
| `Economy.Play` | main.py:173-192 | The draw after the guards. The balance changes by `LotteryDelta` of the roll. The role is granted exactly on a win. The validity of the tables is kept. |
| `Economy.Farm` | main.py:194-207 | only role holders farm; the reward is added and nothing else changes |
| `Economy.ShowBalance` | main.py:209-213 | shows the balance, which is never negative |
| `Economy.Transfer` | main.py:215-232 | Refusals are checked in order (amount <= 0, self, too poor) and write nothing. Otherwise the sender loses and the target gains the amount. The pair's sum and the total are kept, and the sender stays >= 0. |
| `Economy.Move` | main.py:229-230 | The debit then the credit. The total is kept. No balance goes negative. |
| `Economy.Top` | main.py:234-252 | the users leaderboard is a correct `TopBoard` of the balance column |
| `Economy.AddCredits` | main.py:254-267 | non-admin or amount <= 0 writes nothing; otherwise exactly a positive increment |
| `Economy.RemoveCredits` | main.py:269-287 | Non-admin, amount <= 0 or amount above the balance writes nothing. Otherwise the balance drops by exactly the amount and stays >= 0. |
| `Economy.BuyRole` | main.py:301-337 | Below 2000 nothing is written. If the role cannot be created nothing is written either. Otherwise the role row is stored and exactly 2000 is debited. |
| `Clans.CreateClan` | clans.py:11-43 | Refusals are checked in order (balance < 5000, existing membership, name taken) and write nothing. On success the clan is owned by the founder with treasury 0, the founder is its member, and exactly 5000 is debited, leaving >= 0. |
| `Clans.JoinClan` | clans.py:45-69 | a user with a membership, or a missing clan, is refused with no write; on success only the user's membership is added, so every membership still names an existing clan |
| `Clans.ClanTop` | clans.py:71-86 | "no clans" exactly when there is no clan; otherwise at most 10 clans numbered from 1 in non-increasing treasury order |
| `Clans.CreateClanAsWritten` | main.py:385-408 | with the truthiness test as written, a member of clan "" passes the membership check. The clan row is then written, and the handler fails before the debit. |
| `Clans.FreeClanAsWritten` | main.py:385-406 | as written, such a user obtains a clan and keeps 5000 credits, and the clan's owner is not its member |
| `Profile.SetProfileDescription` | main.py:487-495 | over 200 characters is refused with no write; otherwise the text is stored, shown back by the profile, and no balance changes |
| `Profile.ShowProfile` | main.py:460-485 | shows the balance (>= 0), the clan exactly when the stored membership name is non-empty (an empty name shows as no clan) and then an existing one, the description (at most 200 characters or the placeholder) and a consistent level |
| `Fun.SpinDelta` | main.py:562-571 | win adds the bet, lose takes it, refund changes nothing |
| `Fun.RouletteFairAndSafe` | main.py:553-571 | the three outcomes' changes cancel out, and an accepted bet never makes the balance negative |
| `Fun.Daily` | main.py:542-548 | the drawn reward is added |
| `Fun.Roulette` | main.py:550-573 | bet <= 0 or bet above the balance writes nothing; otherwise the balance changes by `SpinDelta`, and a refund writes nothing |
| `Fun.Duel` | main.py:575-612 | Refusals are checked in order (self, bet <= 0, challenger too poor, opponent too poor) and write nothing. Otherwise the winner gains and the loser loses the bet, the total is kept, and the loser stays >= 0. |
| `Events.GainXp` | main.py:642-651 | a level-up happens exactly when xp + gain reaches level * 100. It raises the level by exactly 1 and resets xp to 0; otherwise the level stays. The rule keeps 0 <= xp < level * 100. |
| `Events.OneLevelPerMessage` | main.py:646-651 | after n messages the level has risen by at most n, and the row stays consistent |
| `Events.OnMessage` | main.py:632-657 | a bot's message changes nothing; otherwise the author's row becomes `GainXp` of the stored (or default) row, and the new level is announced on a level-up |
| `Events.CooldownWait` | main.py:622-627 | minutes * 60 + seconds is the remaining time truncated to whole seconds, with 0 <= seconds < 60 |

## Left out

- Chat-platform I/O is not modelled: sending messages, embeds, granting and creating roles, deleting the old custom role, `fetch_user` name lookups and the delayed message deletion (main.py:42-47). Leaderboard lines carry user ids, not names.
- The connection pool, the SQL text and table creation are not modelled. Each helper is one atomic map update. Between a handler's balance check and its debit, another command could run (a read-then-write race). Every handler is modelled as atomic, so that race is not modelled.
- `balance` is a 32-bit `INTEGER` column. An update past its range makes PostgreSQL raise an error. Balances are unbounded integers here, so that error path is not modelled.
- Random draws are parameters: `random.randint`, `random.choice` and `random.random() > 0.5`. The model does not state their distributions, except the lottery's counting lemmas.
- `Events.CooldownWait` models `retry_after` as a real number, not a floating-point value.
- Discord.py keeps the per-user cooldown timers of the `commands.cooldown` decorators. They are not modelled; only the message arithmetic is.
- The listener at main.py:659 passes every message to `process_commands`. The bot's default message handler already does that, so in discord.py each command is dispatched twice per message. Handlers without a cooldown (transfer, add and remove credits, buy role, create and join clan, set description) would then run twice, possibly interleaved. The model runs each command once.
- Other errors reaching `on_command_error` are not modelled as state: only the generic answer `CommandFailed` exists.
- `is_admin` is a parameter `isAdmin`: it only compares role names.
- A failed custom-role purchase is one parameter, `created == None`. It stands for the colour parse (`discord.Color.from_str`) and the guild refusing to create the role.
- The shop and help commands only print fixed text with the balance, so they are not modelled.
- Moderation (mute, unmute), the keep-alive poller and the Flask health server are not modelled. They have no ledger logic.
- Boosters, slots and clan deposit, withdraw, leave and member slots are not modelled. The source shown here has none of them.

## Findings

| source | as written | input that shows it | evidently intended | confidence | as-written member | corrected member |
|---|---|---|---|---|---|---|
| main.py:385-408 (also clans.py:19-42) | `if current_clan:` is a truthiness test. A membership row with the clan name `""` passes as "no clan". The clan row is then inserted, and the plain INSERT into `user_clans` fails on its key. The handler stops before `update_balance`. | user 7 with balance 5000 and membership `""` (clan `""` exists) runs create_clan "Wolves" | any membership row refuses the command; no clan without the 5000 debit; every owner is a member of their clan | low, not executed (it needs discord.py to pass an empty quoted argument `""` as a clan name) | `Clans.CreateClanAsWritten`, `Clans.FreeClanAsWritten` | `Clans.CreateClan` |

The same test in join_clan (main.py:416-417, clans.py:49-50) lets a member of
clan `""` through. There the INSERT fails with nothing written, so only the
answer differs from the corrected `Clans.JoinClan`.
